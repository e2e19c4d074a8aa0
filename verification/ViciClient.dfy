/** One command transaction: register for an event, send the request, stream events until the response,
    unregister.  Commands on one context are serialised by a mutex. */
module ViciClient {
  import opened Core
  import opened ViciGrammar
  import opened ViciBuffer
  import opened Folding
  import opened ViciTransport
  import ViciParser

  // What a message callback does with one message: the new user data and its verdict.
  type MessageCallback<!S> = (S, Bytes) -> (S, Error)

  const ERROR_MESSAGE_LENGTH: nat := 256

  datatype CommandResult = CommandResult(successPresent: bool, success: bool, errorMessage: Bytes)

  const NO_RESULT := CommandResult(false, false, [])

  /** `ParseViciResultElement`. */
  function ResultElement(r: CommandResult, e: Event): (CommandResult, Error) {
    if e.KeyValue? && e.name == "success" then
      var present := r.(successPresent := true);
      if e.value == "yes" then (present.(success := true), Ok)
      else if e.value == "no" then (present.(success := false), Ok)
      else (present, ViciProtocol)
    else if e.KeyValue? && e.name == "errmsg" then
      (r.(errorMessage := CopyText(ERROR_MESSAGE_LENGTH, e.value).0), Ok)
    else (r, Ok)
  }

  /** The value of the last pair with this name, at whatever depth it stands. */
  function LastValue(es: seq<Event>, name: Bytes): Option<Bytes> {
    if es == [] then None
    else
      var later := LastValue(es[1..], name);
      if later.Some? then later
      else if es[0].KeyValue? && es[0].name == name then Some(es[0].value)
      else None
  }

  predicate ReadableSuccess(e: Event) {
    e.KeyValue? && e.name == "success" ==> e.value == "yes" || e.value == "no"
  }

  predicate ReadableSuccesses(es: seq<Event>) {
    forall i :: 0 <= i < |es| ==> ReadableSuccess(es[i])
  }

  /** What a response says: its last `success` pair and its last `errmsg` pair decide. */
  function ResultOf(es: seq<Event>, before: CommandResult): CommandResult {
    var success, message := LastValue(es, "success"), LastValue(es, "errmsg");
    CommandResult(before.successPresent || success.Some?,
                  if success.Some? then success.value == "yes" else before.success,
                  if message.Some? then CopyText(ERROR_MESSAGE_LENGTH, message.value).0 else before.errorMessage)
  }

  lemma {:induction false} LastPairDecides(es: seq<Event>, before: CommandResult)
    ensures var (result, error) := Fold(ResultElement, before, es);
            && error == (if ReadableSuccesses(es) then Ok else ViciProtocol)
            && (error == Ok ==> result == ResultOf(es, before))
    decreases |es|
  {
    if es != [] {
      assert ReadableSuccesses(es) <==> ReadableSuccess(es[0]) && ReadableSuccesses(es[1..]) by {
        assert forall i :: 1 <= i < |es| ==> es[i] == es[1..][i - 1];
      }
      LastPairDecides(es[1..], ResultElement(before, es[0]).0);
    }
  }

  /** The message is well-formed and says this. */
  predicate Says(message: Bytes, result: CommandResult) {
    var es := ViciParser.Scan(message, ViciParser.START);
    es.Some? && ReadableSuccesses(es.value) && result == ResultOf(es.value, NO_RESULT)
  }

  predicate Readable(message: Bytes) {
    var es := ViciParser.Scan(message, ViciParser.START);
    es.Some? && ReadableSuccesses(es.value)
  }

  /** `ParseViciCommandResult`. */
  method ParseCommandResult(message: Bytes) returns (result: CommandResult, error: Error)
    ensures error == Ok <==> Readable(message)
    ensures error == Ok ==> Says(message, result)
  {
    result, error := ViciParser.ParseMessage(message, ResultElement, NO_RESULT);
    ViciParser.DeliverFolds(message, ViciParser.START, ResultElement, NO_RESULT);
    if ViciParser.Scan(message, ViciParser.START).Some? {
      LastPairDecides(ViciParser.Scan(message, ViciParser.START).value, NO_RESULT);
    }
  }

  // ---------- What a transaction looks like on the wire

  predicate Kind(packet: Bytes, kind: PacketType) {
    DecodePacket(packet).Some? && DecodePacket(packet).value.kind == kind
  }

  /** Event packets and then one command response. */
  predicate IsStream(ps: seq<Bytes>) {
    && ps != []
    && (forall i :: 0 <= i < |ps| - 1 ==> Kind(ps[i], EventMessage))
    && Kind(ps[|ps| - 1], CommandResponse)
  }

  /** The packets the daemon answers one command with. */
  predicate IsTransaction(ps: seq<Bytes>, registered: bool) {
    if registered then
      && 3 <= |ps|
      && Kind(ps[0], EventConfirm)
      && IsStream(ps[1..|ps| - 1])
      && Kind(ps[|ps| - 1], EventConfirm)
    else IsStream(ps)
  }

  function StreamOf(ps: seq<Bytes>, registered: bool): (s: seq<Bytes>)
    requires IsTransaction(ps, registered)
    ensures IsStream(s)
  {
    if registered then ps[1..|ps| - 1] else ps
  }

  /** The messages of the events with the registered name, in the order they came. */
  function NamedEvents(ps: seq<Bytes>, name: Option<Bytes>): seq<Bytes>
    requires forall i :: 0 <= i < |ps| ==> Kind(ps[i], EventMessage)
  {
    if ps == [] then []
    else
      assert Kind(ps[|ps| - 1], EventMessage);
      var last := DecodePacket(ps[|ps| - 1]).value;
      NamedEvents(ps[..|ps| - 1], name) + (if name == Some(last.name) then [last.message] else [])
  }

  /** Running a callback over messages, each of which must be accepted. */
  function FoldMessages<S>(callback: MessageCallback<S>, data: S, ms: seq<Bytes>): (S, Error) {
    if ms == [] then (data, Ok)
    else
      var (before, error) := FoldMessages(callback, data, ms[..|ms| - 1]);
      if error != Ok then (before, error) else callback(before, ms[|ms| - 1])
  }

  lemma {:induction false} FoldMessagesAppend<S>(callback: MessageCallback<S>, data: S, ms: seq<Bytes>, m: Bytes)
    ensures FoldMessages(callback, data, ms + [m]) ==
            var (before, error) := FoldMessages(callback, data, ms);
            if error != Ok then (before, error) else callback(before, m)
  {
    assert (ms + [m])[..|ms|] == ms;
  }

  lemma {:induction false} FoldMessagesLast<S>(callback: MessageCallback<S>, data: S, ms: seq<Bytes>)
    requires ms != [] && FoldMessages(callback, data, ms).1 == Ok
    ensures FoldMessages(callback, data, ms[..|ms| - 1]).1 == Ok
    ensures callback(FoldMessages(callback, data, ms[..|ms| - 1]).0, ms[|ms| - 1]).1 == Ok
  {
  }

  ghost predicate Accepted<S(!new)>(callback: MessageCallback<S>, m: Bytes) {
    exists data: S :: callback(data, m).1 == Ok
  }

  lemma {:induction false} FoldMessagesAccepted<S(!new)>(callback: MessageCallback<S>, data: S, ms: seq<Bytes>)
    requires FoldMessages(callback, data, ms).1 == Ok
    ensures forall i :: 0 <= i < |ms| ==> Accepted(callback, ms[i])
    decreases |ms|
  {
    if ms != [] {
      FoldMessagesLast(callback, data, ms);
      FoldMessagesAccepted(callback, data, ms[..|ms| - 1]);
      assert forall i :: 0 <= i < |ms| - 1 ==> ms[i] == ms[..|ms| - 1][i];
    }
  }

  /** The user data and result that a stream leads to when no callback refuses. */
  ghost predicate Processed<S>(stream: seq<Bytes>, name: Option<Bytes>, onEvent: MessageCallback<S>,
                         onResponse: MessageCallback<S>, initial: S, data: S, result: CommandResult)
    requires IsStream(stream)
  {
    var events := FoldMessages(onEvent, initial, NamedEvents(stream[..|stream| - 1], name));
    var response := DecodePacket(stream[|stream| - 1]).value.message;
    && events.1 == Ok
    && Says(response, result)
    && onResponse(events.0, response) == (data, Ok)
  }

  // ---------- The exchange

  /** `ExchangeViciRegistration`: a register or unregister packet and the daemon's confirmation.  `said` is what has been
      sent, which may be the packet although the exchange failed. */
  method ExchangeRegistration(ctx: Transport, name: CString, register: bool)
      returns (error: Error, ghost taken: Bytes, ghost said: seq<Bytes>)
    requires ctx.Valid()
    modifies ctx
    ensures ctx.Valid() && (ctx.open ==> old(ctx.open))
    ensures ctx.open ==> ctx.sent == old(ctx.sent) + said
    ensures said == [] || (ValidName(name) && said == [RegistrationPacket(name, register)])
    ensures error == Ok ==>
              && ctx.open && said != []
              && ValidPacket(taken) && Kind(taken, EventConfirm)
              && old(ctx.inbound) == Frame(taken) + ctx.inbound
              && ctx.outbound == old(ctx.outbound) + Frame(RegistrationPacket(name, register))
  {
    var packet: Bytes;
    taken, said := [], [];
    error, packet := BuildNamedPacket(if register then EventRegister else EventUnregister, name, []);
    if error == Ok {
      assert packet == RegistrationPacket(name, register);
      if !ctx.open {
        error := ViciConnect;
      } else {
        error := ctx.Send(packet, None);
      }
    }
    if error == Ok {
      said := [packet];
      error, packet := ctx.Receive();
      taken := packet;
    }
    if error == Ok {
      var view := DecodePacket(packet);
      if view.None? {
        error := ViciProtocol;
      } else if view.value.kind != EventConfirm {
        error := if view.value.kind == EventUnknown then NotSupported else ViciProtocol;
      }
    }
  }

  function RegistrationPacket(name: Bytes, register: bool): (p: Bytes)
    requires ValidName(name)
    ensures |p| <= MAX_SEGMENT
  {
    NamedPacket(if register then EventRegister else EventUnregister, name, [])
  }

  /** The events so far, and the user data they led to. */
  ghost predicate EventsDone<S>(ps: seq<Bytes>, name: Option<Bytes>, onEvent: MessageCallback<S>, initial: S, data: S) {
    && (forall i :: 0 <= i < |ps| ==> Kind(ps[i], EventMessage))
    && FoldMessages(onEvent, initial, NamedEvents(ps, name)) == (data, Ok)
  }

  lemma {:induction false} OneMoreEvent<S>(ps: seq<Bytes>, p: Bytes, name: Option<Bytes>, onEvent: MessageCallback<S>, initial: S, data: S)
    requires EventsDone(ps, name, onEvent, initial, data) && Kind(p, EventMessage)
    ensures var view := DecodePacket(p).value;
            if name == Some(view.name) then
              onEvent(data, view.message).1 == Ok ==>
                EventsDone(ps + [p], name, onEvent, initial, onEvent(data, view.message).0)
            else EventsDone(ps + [p], name, onEvent, initial, data)
  {
    hide DecodePacket, FoldMessages;
    NamedEventsMore(ps, p, name);
    FoldMessagesAppend(onEvent, initial, NamedEvents(ps, name), DecodePacket(p).value.message);
    assert NamedEvents(ps, name) + [] == NamedEvents(ps, name);
  }

  lemma {:induction false} NamedEventsMore(ps: seq<Bytes>, p: Bytes, name: Option<Bytes>)
    requires (forall i :: 0 <= i < |ps| ==> Kind(ps[i], EventMessage)) && Kind(p, EventMessage)
    ensures forall i :: 0 <= i < |ps + [p]| ==> Kind((ps + [p])[i], EventMessage)
    ensures var view := DecodePacket(p).value;
            NamedEvents(ps + [p], name) == NamedEvents(ps, name) + if name == Some(view.name) then [view.message] else []
  {
    hide DecodePacket;
    assert (ps + [p])[..|ps|] == ps;
  }

  /** The stream loop does not accept the packet: it is malformed, of the wrong kind, or turned down by a callback. */
  ghost predicate Refuses<S>(packet: Bytes, name: Option<Bytes>, onEvent: MessageCallback<S>, onResponse: MessageCallback<S>, data: S) {
    var view := DecodePacket(packet);
    || view.None?
    || match view.value.kind
       case EventMessage => name == Some(view.value.name) && onEvent(data, view.value.message).1 != Ok
       case CommandResponse => !Readable(view.value.message) || onResponse(data, view.value.message).1 != Ok
       case _ => true
  }

  /** Events that were accepted, and then a packet that was not. */
  ghost predicate Refused<S>(ps: seq<Bytes>, name: Option<Bytes>, onEvent: MessageCallback<S>, onResponse: MessageCallback<S>, initial: S) {
    && ps != []
    && (forall i :: 0 <= i < |ps| - 1 ==> Kind(ps[i], EventMessage))
    && var (data, error) := FoldMessages(onEvent, initial, NamedEvents(ps[..|ps| - 1], name));
       error == Ok && Refuses(ps[|ps| - 1], name, onEvent, onResponse, data)
  }

  /** `ReceiveViciCommandStream`: events until the response.  If it fails, the socket is still open exactly if a packet
      was taken whole and then refused, as one with malformed contents is. */
  method ReceiveStream<S>(ctx: Transport, name: Option<CString>, onEvent: MessageCallback<S>,
                          onResponse: MessageCallback<S>, initial: S)
      returns (error: Error, data: S, result: CommandResult, ghost taken: seq<Bytes>)
    requires ctx.Valid()
    modifies ctx
    ensures ctx.Valid() && ctx.outbound == old(ctx.outbound) && ctx.sent == old(ctx.sent) && (ctx.open ==> old(ctx.open))
    ensures ValidPackets(taken) && (ctx.open ==> old(ctx.inbound) == Frames(taken) + ctx.inbound)
    ensures error == Ok ==>
              && ctx.open && taken != [] && IsStream(taken)
              && Processed(taken, name, onEvent, onResponse, initial, data, result)
    ensures error != Ok ==> (ctx.open <==> Refused(taken, name, onEvent, onResponse, initial))
  {
    hide Refused, Processed, EventsDone, IsStream, Frames, Transport.Valid;
    var complete := false;
    error, data, result, taken := Ok, initial, NO_RESULT, [];
    NothingTaken(ctx.inbound, name, onEvent, onResponse, initial);
    while !complete && error == Ok
      invariant ctx.Valid() && ctx.outbound == old(ctx.outbound) && ctx.sent == old(ctx.sent) && (ctx.open ==> old(ctx.open))
      invariant ValidPackets(taken) && (ctx.open ==> old(ctx.inbound) == Frames(taken) + ctx.inbound)
      invariant error == Ok && !complete ==>
                  (taken != [] ==> ctx.open) && EventsDone(taken, name, onEvent, initial, data) && !Refused(taken, name, onEvent, onResponse, initial)
      invariant error == Ok && complete ==>
                  ctx.open && taken != [] && IsStream(taken) && Processed(taken, name, onEvent, onResponse, initial, data, result)
      invariant error != Ok ==> (ctx.open <==> Refused(taken, name, onEvent, onResponse, initial))
      decreases |ctx.schedule|, !complete, error == Ok
    {
      var packet: Bytes;
      ghost var before, unread := taken, ctx.inbound;
      error, packet := ctx.Receive();
      if error == Ok {
        FramesStep(old(ctx.inbound), before, unread, packet, ctx.inbound);
        taken := before + [packet];
        error, data, result, complete := Dispatch(packet, before, name, onEvent, onResponse, initial, data);
      }
    }
  }

  lemma {:induction false} NothingTaken<S>(inbound: Bytes, name: Option<Bytes>, onEvent: MessageCallback<S>,
                                           onResponse: MessageCallback<S>, initial: S)
    ensures inbound == Frames([]) + inbound
    ensures EventsDone([], name, onEvent, initial, initial) && !Refused([], name, onEvent, onResponse, initial)
  {
  }

  /** What the stream loop does with one packet. */
  method Dispatch<S>(packet: Bytes, ghost before: seq<Bytes>, name: Option<CString>, onEvent: MessageCallback<S>,
                     onResponse: MessageCallback<S>, ghost initial: S, current: S)
      returns (error: Error, data: S, result: CommandResult, complete: bool)
    requires EventsDone(before, name, onEvent, initial, current)
    ensures error != Ok <==> Refused(before + [packet], name, onEvent, onResponse, initial)
    ensures error == Ok && !complete ==> EventsDone(before + [packet], name, onEvent, initial, data)
    ensures error == Ok && complete ==>
              && IsStream(before + [packet])
              && Processed(before + [packet], name, onEvent, onResponse, initial, data, result)
  {
    error, data, result, complete := Ok, current, NO_RESULT, false;
    assert (before + [packet])[..|before|] == before;
    var view := DecodePacket(packet);
    if view.None? {
      error := ViciProtocol;
    } else if view.value.kind == EventMessage {
      OneMoreEvent(before, packet, name, onEvent, initial, current);
      if name == Some(view.value.name) {
        var (after, verdict) := onEvent(data, view.value.message);
        data, error := after, verdict;
      }
    } else if view.value.kind == CommandResponse {
      result, error := ParseCommandResult(view.value.message);
      if error == Ok {
        var (after, verdict) := onResponse(data, view.value.message);
        data, error := after, verdict;
      }
      complete := true;
    } else {
      error := if view.value.kind == CommandUnknown then NotSupported else ViciProtocol;
    }
  }

  /** What a successful transaction writes. */
  function RequestFrames(command: Bytes, request: Bytes, name: Option<Bytes>): Bytes
    requires ValidName(command) && 2 + |command| + |request| <= MAX_SEGMENT
    requires name.Some? ==> ValidName(name.value)
  {
    (if name.Some? then Frame(RegistrationPacket(name.value, true)) else [])
    + Frame(NamedPacket(CommandRequest, command, request))
    + (if name.Some? then Frame(RegistrationPacket(name.value, false)) else [])
  }

  // What a caller asks for: a command with its request, and perhaps an event to register for.
  datatype Job = Job(command: CString, request: Bytes, name: Option<CString>) {
    predicate Valid() {
      ValidName(command) && 2 + |command| + |request| <= MAX_SEGMENT && (name.Some? ==> ValidName(name.value))
    }

    /** The packets of a command that runs to its end. */
    function Packets(): seq<Bytes>
      requires Valid()
    {
      (if name.Some? then [RegistrationPacket(name.value, true)] else [])
      + [NamedPacket(CommandRequest, command, request)]
      + (if name.Some? then [RegistrationPacket(name.value, false)] else [])
    }

    /** What a command may have sent at any moment: a beginning of its packets, or, if its request could not be
        built, the registration packets alone. */
    predicate MaySend(ps: seq<Bytes>) {
      || ps == []
      || (Valid() && ps <= Packets())
      || (name.Some? && ValidName(name.value) && ps == [RegistrationPacket(name.value, true)])
      || (name.Some? && ValidName(name.value)
          && ps == [RegistrationPacket(name.value, true), RegistrationPacket(name.value, false)])
    }
  }

  /** The request packet of a job, if it can be built. */
  predicate IsRequest(job: Job, ps: seq<Bytes>) {
    && ValidName(job.command) && 2 + |job.command| + |job.request| <= MAX_SEGMENT
    && ps == [NamedPacket(CommandRequest, job.command, job.request)]
  }

  predicate IsRegistration(job: Job, register: bool, ps: seq<Bytes>) {
    job.name.Some? && ValidName(job.name.value) && ps == [RegistrationPacket(job.name.value, register)]
  }

  /** What the three parts of a command have sent: the request only behind a registration that is due, and the end of
      the registration only behind its beginning. */
  lemma {:induction false} PartsMaySend(job: Job, first: seq<Bytes>, request: seq<Bytes>, last: seq<Bytes>)
    requires first == [] || IsRegistration(job, true, first)
    requires request == [] || (IsRequest(job, request) && (job.name.Some? ==> first != []))
    requires last == [] || (IsRegistration(job, false, last) && first != [])
    ensures job.MaySend(first + request + last)
    ensures request != [] && (job.name.Some? ==> last != []) ==> job.Valid() && first + request + last == job.Packets()
  {
    hide RegistrationPacket, NamedPacket;
    if request != [] && job.name.Some? && last == [] {
      assert first + request + last <= job.Packets();
    }
  }

  /** The request, and the stream of its answer. */
  method SendRequest<S>(ctx: Transport, job: Job, onEvent: MessageCallback<S>, onResponse: MessageCallback<S>, initial: S)
      returns (error: Error, data: S, result: CommandResult, ghost taken: seq<Bytes>, ghost said: seq<Bytes>)
    requires ctx.Valid() && ctx.open
    modifies ctx
    ensures ctx.Valid()
    ensures ctx.open ==> ctx.sent == old(ctx.sent) + said
    ensures said == [] || IsRequest(job, said)
    ensures error == Ok ==>
              && ctx.open && said != []
              && taken != [] && ValidPackets(taken) && IsStream(taken)
              && old(ctx.inbound) == Frames(taken) + ctx.inbound
              && Processed(taken, job.name, onEvent, onResponse, initial, data, result)
              && ctx.outbound == old(ctx.outbound) + Frame(NamedPacket(CommandRequest, job.command, job.request))
  {
    hide Transport.Valid, Processed, Kind, IsStream, Frames, Frame, NamedPacket, Refused;
    data, result, taken, said := initial, NO_RESULT, [], [];
    var packet: Bytes;
    error, packet := BuildNamedPacket(CommandRequest, job.command, job.request);
    if error == Ok {
      error := ctx.Send(packet, None);
    }
    if error == Ok {
      said := [packet];
      error, data, result, taken := ReceiveStream(ctx, job.name, onEvent, onResponse, initial);
    }
  }

  /** `ExecuteViciCommand` while the mutex is held.  A success has consumed one whole transaction and handed
      the callbacks exactly its named events and its response.  While the socket is open, what was written is a
      beginning of the command's packets or its registration packets alone, whatever failed. */
  method ExecuteCommand<S>(ctx: Transport, job: Job, onEvent: MessageCallback<S>, onResponse: MessageCallback<S>,
                           initial: S, reply: Option<Bytes>)
      returns (error: Error, data: S, result: CommandResult, ghost taken: seq<Bytes>, ghost written: seq<Bytes>)
    requires ctx.Valid()
    modifies ctx
    ensures ctx.Valid()
    ensures ctx.open ==> job.MaySend(written) && ctx.sent == (if old(ctx.open) then old(ctx.sent) else []) + written
    ensures error == Ok ==>
              && ctx.open && (old(ctx.open) || reply.Some?)
              && ValidPackets(taken) && IsTransaction(taken, job.name.Some?)
              && (if old(ctx.open) then old(ctx.inbound) else reply.value) == Frames(taken) + ctx.inbound
              && Processed(StreamOf(taken, job.name.Some?), job.name, onEvent, onResponse, initial, data, result)
              && (result.successPresent ==> result.success)
    ensures error == Ok ==>
              && job.Valid() && written == job.Packets()
              && ctx.outbound == (if old(ctx.open) then old(ctx.outbound) else []) + RequestFrames(job.command, job.request, job.name)
  {
    hide Transport.Valid, Processed, Kind, IsStream, Frames, Frame, RequestFrames, NamedPacket, RegistrationPacket, Job.MaySend;
    data, result, taken := initial, NO_RESULT, [];
    var registered := false;
    ghost var first: Bytes, stream: seq<Bytes>, last: Bytes := [], [], [];
    ghost var said1: seq<Bytes>, said2: seq<Bytes>, said3: seq<Bytes> := [], [], [];
    var clockWorks: bool := *;
    if !clockWorks {
      error := Internal;
    } else {
      error := ctx.Connect(reply);
    }
    ghost var start, outbound, sent := ctx.inbound, ctx.outbound, ctx.sent;
    if error == Ok && job.name.Some? {
      error, first, said1 := ExchangeRegistration(ctx, job.name.value, true);
      registered := error == Ok;
    }
    ghost var afterFirst := ctx.inbound;
    if error == Ok {
      error, data, result, stream, said2 := SendRequest(ctx, job, onEvent, onResponse, initial);
    }
    if registered && ctx.open {
      var unregistered: Error;
      ghost var afterStream := ctx.inbound;
      unregistered, last, said3 := ExchangeRegistration(ctx, job.name.value, false);
      if error == Ok && unregistered == Ok {
        taken := [first] + stream + [last];
        WholeTransaction(start, afterFirst, afterStream, ctx.inbound, first, stream, last);
      }
      if error == Ok {
        error := unregistered;
      }
    } else if error == Ok {
      taken := stream;
    }
    if error == Ok && result.successPresent && !result.success {
      error := ViciCommand;
    }
    written := said1 + said2 + said3;
    PartsMaySend(job, said1, said2, said3);
    SentInParts(sent, said1, said2, said3);
    if error == Ok {
      WrittenFrames(outbound, ctx.outbound, job.command, job.request, job.name);
    }
  }

  lemma {:induction false} SentInParts<T>(a: seq<T>, b: seq<T>, c: seq<T>, d: seq<T>)
    ensures a + (b + c + d) == a + b + c + d
    ensures a + [] == a
  {
  }

  lemma {:induction false} WholeTransaction(start: Bytes, afterFirst: Bytes, afterStream: Bytes, end: Bytes,
                         first: Bytes, stream: seq<Bytes>, last: Bytes)
    requires ValidPacket(first) && ValidPackets(stream) && ValidPacket(last)
    requires start == Frame(first) + afterFirst && afterFirst == Frames(stream) + afterStream
    requires afterStream == Frame(last) + end
    ensures ValidPackets([first] + stream + [last])
    ensures start == Frames([first] + stream + [last]) + end
    ensures ([first] + stream + [last])[1..1 + |stream|] == stream
  {
    var ps := [first] + stream;
    assert ps[1..] == stream;
    FramesAppend(ps, last);
    Regroup(Frame(first), Frames(stream), afterStream);
    Regroup(Frame(first) + Frames(stream), Frame(last), end);
  }

  lemma {:induction false} WrittenFrames(before: Bytes, after: Bytes, command: Bytes, request: Bytes, name: Option<Bytes>)
    requires ValidName(command) && 2 + |command| + |request| <= MAX_SEGMENT && (name.Some? ==> ValidName(name.value))
    requires var body := Frame(NamedPacket(CommandRequest, command, request));
             if name.None? then after == before + body
             else after == before + Frame(RegistrationPacket(name.value, true)) + body + Frame(RegistrationPacket(name.value, false))
    ensures after == before + RequestFrames(command, request, name)
  {
    var body := Frame(NamedPacket(CommandRequest, command, request));
    if name.None? {
      assert [] + body + [] == body;
    } else {
      var a, c := Frame(RegistrationPacket(name.value, true)), Frame(RegistrationPacket(name.value, false));
      Regroup(before, a, body);
      Regroup(before, a + body, c);
    }
  }

  /** Against a daemon that answers confirm, events, response, confirm, a successful command consumes exactly
      that answer: the packets it took are the packets the daemon sent. */
  lemma {:induction false} TransactionUnique(taken: seq<Bytes>, x: Bytes, answer: seq<Bytes>, y: Bytes, registered: bool)
    requires ValidPackets(taken) && ValidPackets(answer)
    requires IsTransaction(taken, registered) && IsTransaction(answer, registered)
    requires Frames(taken) + x == Frames(answer) + y
    ensures taken == answer && x == y
  {
    if |taken| <= |answer| {
      FramesPrefix(taken, x, answer, y);
      SameLength(taken, answer, registered);
    } else {
      FramesPrefix(answer, y, taken, x);
      SameLength(answer, taken, registered);
    }
    assert Frames([]) + x == x && Frames([]) + y == y;
  }

  lemma {:induction false} SameLength(short: seq<Bytes>, long: seq<Bytes>, registered: bool)
    requires |short| <= |long| && short == long[..|short|]
    requires IsTransaction(short, registered) && IsTransaction(long, registered)
    ensures |short| == |long| && short == long
  {
    var response := if registered then |short| - 2 else |short| - 1;
    ResponsePosition(short, registered, response);
    ResponsePosition(long, registered, response);
  }

  lemma {:induction false} ResponsePosition(ps: seq<Bytes>, registered: bool, i: nat)
    requires IsTransaction(ps, registered) && i < |ps|
    ensures Kind(ps[i], CommandResponse) <==> i == if registered then |ps| - 2 else |ps| - 1
  {
    var stream := StreamOf(ps, registered);
    if registered && 0 < i < |ps| - 1 {
      assert stream[i - 1] == ps[i];
    }
  }

  // ---------- Several threads on one context

  /** The packets of a job are what `ExecuteCommand` writes. */
  lemma {:induction false} PacketsAreFrames(j: Job)
    requires j.Valid()
    ensures SmallPackets(j.Packets()) && AllFrames(j.Packets()) == RequestFrames(j.command, j.request, j.name)
  {
    hide Frame, NamedPacket, RegistrationPacket;
    var request := NamedPacket(CommandRequest, j.command, j.request);
    RequestSmall(j);
    FramesOne(request);
    if j.name.None? {
      assert [] + [request] + [] == [request];
      assert [] + Frame(request) + [] == Frame(request);
    } else {
      var first, last := RegistrationPacket(j.name.value, true), RegistrationPacket(j.name.value, false);
      FramesOne(first);
      AllFramesAppend([first], request);
      AllFramesAppend([first] + [request], last);
    }
  }

  lemma {:induction false} RequestSmall(j: Job)
    requires j.Valid()
    ensures |NamedPacket(CommandRequest, j.command, j.request)| <= MAX_SEGMENT
  {
  }

  lemma {:induction false} FramesOne(p: Bytes)
    requires |p| <= MAX_SEGMENT
    ensures SmallPackets([p]) && AllFrames([p]) == Frame(p)
  {
    hide Frame;
    assert [p][..0] == [];
    assert [] + Frame(p) == Frame(p);
  }

  // A thread is idle, waits for the mutex with a job, or holds it and has sent some packets of its job.
  datatype Phase = Idle | Waiting(job: Job) | Holding(job: Job, sent: seq<Bytes>)

  // The owner is what the mutex records; the wire is what was sent on the current connection.
  datatype System = System(owner: Option<nat>, phases: map<nat, Phase>, wire: seq<Bytes>)

  predicate Initial(s: System) {
    s.owner == None && s.wire == [] && forall t :: t in s.phases ==> s.phases[t] == Idle
  }

  function At(s: System, t: nat, p: Phase): System {
    s.(phases := s.phases[t := p])
  }

  /** A thread's next packet. */
  predicate Sends(s: System, t: nat, p: Bytes, s': System) {
    && t in s.phases && s.phases[t].Holding?
    && s.phases[t].job.MaySend(s.phases[t].sent + [p])
    && s' == At(s, t, Holding(s.phases[t].job, s.phases[t].sent + [p])).(wire := s.wire + [p])
  }

  /** One step of one thread: queue up with a job, lock, send a packet, or unlock, with the socket still open or
      closed after a failed transfer.  Sending looks only at the thread's own job. */
  ghost predicate Step(s: System, t: nat, s': System) {
    && t in s.phases
    && match s.phases[t]
       case Idle => exists job: Job :: s' == At(s, t, Waiting(job))
       case Waiting(job) => s.owner == None && s' == At(s, t, Holding(job, [])).(owner := Some(t))
       case Holding(job, sent) =>
         || (exists p :: Sends(s, t, p, s'))
         || s' == At(s, t, Idle).(owner := None)
         || s' == At(s, t, Idle).(owner := None, wire := [])
  }

  ghost predicate Run(states: seq<System>) {
    && states != [] && Initial(states[0])
    && forall i :: 0 < i < |states| ==> Next(states[i - 1], states[i])
  }

  ghost predicate Next(s: System, s': System) {
    exists t :: Step(s, t, s')
  }

  // One acquisition of the mutex.
  datatype Turn = Turn(thread: nat, job: Job)

  /** The turn that a step begins, if it begins one. */
  function NewTurn(s: System, s': System): seq<Turn> {
    if s.owner.None? && s'.owner.Some? && s'.owner.value in s'.phases && s'.phases[s'.owner.value].Holding?
    then [Turn(s'.owner.value, s'.phases[s'.owner.value].job)] else []
  }

  /** The turns of a run, in the order in which the mutex was given. */
  function Turns(states: seq<System>): seq<Turn> {
    if |states| <= 1 then []
    else Turns(states[..|states| - 1]) + NewTurn(states[|states| - 2], states[|states| - 1])
  }

  // What one turn has put on the wire.
  datatype Block = Block(turn: Turn, packets: seq<Bytes>)

  function Concat(bs: seq<Block>): seq<Bytes> {
    if bs == [] then [] else Concat(bs[..|bs| - 1]) + bs[|bs| - 1].packets
  }

  function TurnsOf(bs: seq<Block>): (r: seq<Turn>)
    ensures |r| == |bs|
  {
    if bs == [] then [] else TurnsOf(bs[..|bs| - 1]) + [bs[|bs| - 1].turn]
  }

  predicate AllMaySend(bs: seq<Block>) {
    forall i :: 0 <= i < |bs| ==> bs[i].turn.job.MaySend(bs[i].packets)
  }

  /** The turns end with these. */
  predicate EndsWith(turns: seq<Turn>, last: seq<Turn>) {
    |last| <= |turns| && turns[|turns| - |last|..] == last
  }

  /** Only the owner of the mutex is in the middle of a command, and the last block is its own. */
  predicate OwnerSends(s: System, bs: seq<Block>) {
    && (forall t :: t in s.phases && s.phases[t].Holding? ==> s.owner == Some(t))
    && (s.owner.Some? ==>
          && bs != [] && s.owner.value == bs[|bs| - 1].turn.thread && s.owner.value in s.phases
          && s.phases[s.owner.value] == Holding(bs[|bs| - 1].turn.job, bs[|bs| - 1].packets))
  }

  /** The wire is these blocks one behind the other, one for each of the last turns, in the order of the turns. */
  predicate Served(s: System, turns: seq<Turn>, bs: seq<Block>) {
    && s.wire == Concat(bs) && AllMaySend(bs)
    && EndsWith(turns, TurnsOf(bs))
    && OwnerSends(s, bs)
  }

  lemma {:induction false} BlocksMore(bs: seq<Block>, b: Block)
    ensures Concat(bs + [b]) == Concat(bs) + b.packets && TurnsOf(bs + [b]) == TurnsOf(bs) + [b.turn]
    ensures AllMaySend(bs) && b.turn.job.MaySend(b.packets) ==> AllMaySend(bs + [b])
  {
    assert (bs + [b])[..|bs|] == bs;
  }

  lemma {:induction false} BlocksLess(bs: seq<Block>)
    requires bs != []
    ensures var front, b := bs[..|bs| - 1], bs[|bs| - 1];
            && bs == front + [b]
            && Concat(bs) == Concat(front) + b.packets && TurnsOf(bs) == TurnsOf(front) + [b.turn]
            && (AllMaySend(bs) ==> AllMaySend(front))
  {
  }

  lemma {:induction false} EndsWithMore(turns: seq<Turn>, last: seq<Turn>, turn: Turn)
    requires EndsWith(turns, last)
    ensures EndsWith(turns + [turn], last + [turn])
  {
    assert (turns + [turn])[|turns| - |last|..] == turns[|turns| - |last|..] + [turn];
  }

  lemma {:induction false} LockServed(s: System, t: nat, job: Job, s': System, turns: seq<Turn>, bs: seq<Block>)
    requires Served(s, turns, bs) && t in s.phases && s.phases[t] == Waiting(job)
    requires s.owner == None && s' == At(s, t, Holding(job, [])).(owner := Some(t))
    ensures Served(s', turns + [Turn(t, job)], bs + [Block(Turn(t, job), [])])
  {
    hide EndsWith, AllMaySend, TurnsOf, Concat;
    BlocksMore(bs, Block(Turn(t, job), []));
    EndsWithMore(turns, TurnsOf(bs), Turn(t, job));
    assert Concat(bs) + [] == Concat(bs);
  }

  lemma {:induction false} SendServed(s: System, t: nat, p: Bytes, s': System, turns: seq<Turn>, bs: seq<Block>) returns (after: seq<Block>)
    requires Served(s, turns, bs) && Sends(s, t, p, s')
    ensures Served(s', turns, after)
  {
    hide EndsWith, AllMaySend, TurnsOf, Concat, Job.MaySend;
    BlocksLess(bs);
    var front, b := bs[..|bs| - 1], bs[|bs| - 1];
    var more := Block(b.turn, b.packets + [p]);
    BlocksMore(front, more);
    after := front + [more];
    assert Concat(front) + b.packets + [p] == Concat(front) + (b.packets + [p]);
  }

  lemma {:induction false} NothingServed(s: System, turns: seq<Turn>)
    requires s.wire == [] && s.owner == None && forall t :: t in s.phases ==> !s.phases[t].Holding?
    ensures Served(s, turns, [])
  {
    assert turns[|turns|..] == [];
  }

  /** Whoever moves, the wire stays a sequence of blocks, one for each turn. */
  lemma {:induction false} StepServed(s: System, t: nat, s': System, turns: seq<Turn>, bs: seq<Block>) returns (after: seq<Block>)
    requires Served(s, turns, bs) && Step(s, t, s')
    ensures Served(s', turns + NewTurn(s, s'), after)
  {
    hide EndsWith, AllMaySend, TurnsOf, Concat, Job.MaySend;
    assert turns + [] == turns;
    match s.phases[t]
    case Idle =>
      after := bs;
    case Waiting(job) =>
      LockServed(s, t, job, s', turns, bs);
      after := bs + [Block(Turn(t, job), [])];
    case Holding(job, sent) =>
      if p :| Sends(s, t, p, s') {
        after := SendServed(s, t, p, s', turns, bs);
      } else if s' == At(s, t, Idle).(owner := None) {
        after := bs;
      } else {
        NothingServed(s', turns);
        after := [];
      }
  }

  lemma {:induction false} StartOfRun(states: seq<System>)
    requires Run(states) && 2 <= |states|
    ensures var n := |states| - 1; Run(states[..n]) && Next(states[n - 1], states[n])
  {
    hide Next;
    var before := states[..|states| - 1];
    assert forall i :: 0 <= i < |before| ==> before[i] == states[i];
  }

  /** In every run, whatever the scheduler does and whichever transfers fail, the wire of the current connection is one
      command's packets after another's, in the order in which the threads got the mutex: commands of different threads
      never interleave. */
  lemma {:induction false} CommandsNeverInterleave(states: seq<System>) returns (bs: seq<Block>)
    requires Run(states)
    ensures Served(states[|states| - 1], Turns(states), bs)
    decreases |states|
  {
    hide Served, Next;
    if |states| == 1 {
      NothingServed(states[0], []);
      bs := [];
    } else {
      var n := |states| - 1;
      StartOfRun(states);
      var before := CommandsNeverInterleave(states[..n]);
      bs := OneMoreStep(states[n - 1], states[n], Turns(states[..n]), before);
    }
  }

  lemma {:induction false} OneMoreStep(s: System, s': System, turns: seq<Turn>, bs: seq<Block>) returns (after: seq<Block>)
    requires Served(s, turns, bs) && Next(s, s')
    ensures Served(s', turns + NewTurn(s, s'), after)
  {
    hide Served, Step;
    var t :| Step(s, t, s');
    after := StepServed(s, t, s', turns, bs);
  }

  /** A thread has asked for a job. */
  ghost predicate Asked(states: seq<System>, turn: Turn) {
    exists i :: 0 <= i < |states| && turn.thread in states[i].phases && states[i].phases[turn.thread] == Waiting(turn.job)
  }

  /** Every turn is one that its thread had asked for. */
  lemma {:induction false} TurnsWereAsked(states: seq<System>, k: nat)
    requires Run(states) && k < |Turns(states)|
    ensures Asked(states, Turns(states)[k])
    decreases |states|
  {
    hide Next;
    if 2 <= |states| {
      var n := |states| - 1;
      StartOfRun(states);
      var before := states[..n];
      if k < |Turns(before)| {
        TurnsWereAsked(before, k);
        assert Turns(states)[k] == Turns(before)[k];
        var i :| 0 <= i < |before| && Turns(before)[k].thread in before[i].phases
                 && before[i].phases[Turns(before)[k].thread] == Waiting(Turns(before)[k].job);
        assert states[i] == before[i];
      } else {
        NewTurnAsked(states[n - 1], states[n]);
      }
    }
  }

  lemma {:induction false} NewTurnAsked(s: System, s': System)
    requires Next(s, s') && NewTurn(s, s') != []
    ensures var turn := NewTurn(s, s')[0]; turn.thread in s.phases && s.phases[turn.thread] == Waiting(turn.job)
  {
    var t :| Step(s, t, s');
  }
}
