/** Netlink dumps: the message walk over one datagram, and the loop over datagrams until DONE.
    The host is little-endian; messages are padded to four bytes (section 2.3.2 of RFC 3549). */
module Netlink {
  import opened Core
  import opened Folding

  const HEADER_LENGTH: nat := 16
  const ERROR_LENGTH: nat := 20
  const MAX_DATAGRAMS: nat := 4096
  const NLMSG_ERROR: nat := 2
  const NLMSG_DONE: nat := 3
  const NLM_F_DUMP_INTR: nat := 16

  // ---------- Little-endian numbers

  function U16At(b: Bytes, at: nat): (n: nat)
    requires at + 2 <= |b|
    ensures n <= U16_MAX
  {
    b[at] as int + 256 * b[at + 1] as int
  }

  function U32At(b: Bytes, at: nat): (n: nat)
    requires at + 4 <= |b|
    ensures n <= U32_MAX
  {
    U16At(b, at) + 65536 * U16At(b, at + 2)
  }

  function U16Little(n: nat): (b: Bytes)
    requires n <= U16_MAX
    ensures |b| == 2 && U16At(b, 0) == n
  {
    [(n % 256) as char, (n / 256) as char]
  }

  function U32Little(n: nat): (b: Bytes)
    requires n <= U32_MAX
    ensures |b| == 4 && U32At(b, 0) == n
  {
    U16Little(n % 65536) + U16Little(n / 65536)
  }

  lemma {:induction false} U16Back(b: Bytes, at: nat)
    requires at + 2 <= |b|
    ensures U16Little(U16At(b, at)) == b[at..at + 2]
  {
  }

  lemma {:induction false} U32Back(b: Bytes, at: nat)
    requires at + 4 <= |b|
    ensures U32Little(U32At(b, at)) == b[at..at + 4]
  {
    var low, high := U16At(b, at), U16At(b, at + 2);
    hide U16At, U16Little;
    assert U32At(b, at) % 65536 == low && U32At(b, at) / 65536 == high;
    U16Back(b, at);
    U16Back(b, at + 2);
    assert b[at..at + 4] == b[at..at + 2] + b[at + 2..at + 4];
  }

  function Align4(n: nat): (r: nat)
    ensures n <= r < n + 4 && r % 4 == 0
  {
    (n + 3) / 4 * 4
  }

  // ---------- Messages

  // A message without its length, and the bytes that pad it.
  datatype Message = Message(kind: nat, flags: nat, sequence: nat, port: nat, payload: Bytes)

  datatype Chunk = Chunk(message: Message, pad: Bytes) {
    function Length(): nat {
      HEADER_LENGTH + |message.payload|
    }

    predicate Valid() {
      ValidMessage(message) && Length() + |pad| == Align4(Length())
    }
  }

  predicate ValidMessage(m: Message) {
    && m.kind <= U16_MAX && m.flags <= U16_MAX && m.sequence <= U32_MAX && m.port <= U32_MAX
    && HEADER_LENGTH + |m.payload| <= U32_MAX
  }

  function Header(length: nat, m: Message): (b: Bytes)
    requires length <= U32_MAX && m.kind <= U16_MAX && m.flags <= U16_MAX && m.sequence <= U32_MAX && m.port <= U32_MAX
    ensures |b| == HEADER_LENGTH
  {
    U32Little(length) + U16Little(m.kind) + U16Little(m.flags) + U32Little(m.sequence) + U32Little(m.port)
  }

  /** A message without padding. */
  function Bare(m: Message): (b: Bytes)
    requires ValidMessage(m)
    ensures |b| == HEADER_LENGTH + |m.payload|
  {
    Header(HEADER_LENGTH + |m.payload|, m) + m.payload
  }

  function Encode(c: Chunk): (b: Bytes)
    requires c.Valid()
    ensures |b| == Align4(c.Length())
  {
    Bare(c.message) + c.pad
  }

  predicate AllValid(cs: seq<Chunk>) {
    forall i :: 0 <= i < |cs| ==> cs[i].Valid()
  }

  function Stream(cs: seq<Chunk>): Bytes
    requires AllValid(cs)
  {
    if cs == [] then [] else Encode(cs[0]) + Stream(cs[1..])
  }

  /** The message at an offset, if its length is possible. */
  function MessageAt(d: Bytes, at: nat): (m: Option<Message>)
    requires at + HEADER_LENGTH <= |d|
    ensures m.Some? ==> HEADER_LENGTH + |m.value.payload| <= |d| - at
  {
    var length := U32At(d, at);
    if length < HEADER_LENGTH || length > |d| - at then None
    else Some(Message(U16At(d, at + 4), U16At(d, at + 6), U32At(d, at + 8), U32At(d, at + 12),
                      d[at + HEADER_LENGTH..at + length]))
  }

  predicate Interrupted(m: Message) {
    m.flags / NLM_F_DUMP_INTR % 2 == 1
  }

  /** `ProcessNetlinkError`: an error message without an error goes on. */
  function ErrorOf(m: Message): Error {
    if |m.payload| < ERROR_LENGTH then NetlinkParse
    else
      var code := U32At(m.payload, 0);
      if code == 0 then Ok
      else if code == 0x1_0000_0000 - 13 || code == 0x1_0000_0000 - 1 then Permission
      else NetlinkRecv
  }

  type Callback<!S> = Fallible<S, Message>

  // How far the walk over a datagram came.
  datatype Walked<S> = Walked(data: S, error: Error, complete: bool)

  /** The meaning of the inner loop from an offset on. */
  function Walk<S>(d: Bytes, at: nat, sequence: nat, callback: Callback<S>, data: S): Walked<S>
    requires at <= |d|
    decreases |d| - at
  {
    if |d| - at < HEADER_LENGTH then Walked(data, if at == |d| then Ok else NetlinkParse, false)
    else
      var m := MessageAt(d, at);
      if m.None? then Walked(data, NetlinkParse, false)
      else if Interrupted(m.value) then Walked(data, NetlinkRecv, false)
      else if m.value.sequence != sequence then Walked(data, NetlinkParse, false)
      else if m.value.kind == NLMSG_DONE then Walked(data, Ok, true)
      else
        var (after, error) := if m.value.kind == NLMSG_ERROR then (data, ErrorOf(m.value)) else callback(data, m.value);
        var step := Align4(HEADER_LENGTH + |m.value.payload|);
        if error != Ok then Walked(after, error, false)
        else if step > |d| - at then Walked(after, NetlinkParse, false)
        else Walk(d, at + step, sequence, callback, after)
  }

  /** One turn of the inner loop. */
  method StepMessage<S>(d: Bytes, at: nat, sequence: nat, callback: Callback<S>, before: S)
      returns (data: S, error: Error, complete: bool, next: nat)
    requires at + HEADER_LENGTH <= |d|
    ensures error == Ok && !complete ==> at < next <= |d|
    ensures Walk(d, at, sequence, callback, before) ==
            if error == Ok && !complete then Walk(d, next, sequence, callback, data) else Walked(data, error, complete)
    ensures complete ==> error == Ok
  {
    hide ErrorOf, Interrupted;
    data, error, complete, next := before, Ok, false, at;
    var length := U32At(d, at);
    if HEADER_LENGTH > length || |d| - at < length {
      return before, NetlinkParse, false, at;
    }
    var m := MessageAt(d, at).value;
    if Interrupted(m) {
      error := NetlinkRecv;
    } else if sequence != m.sequence {
      error := NetlinkParse;
    } else if m.kind == NLMSG_DONE {
      complete := true;
    } else if m.kind == NLMSG_ERROR {
      error := ErrorOf(m);
    } else {
      var (after, verdict) := callback(data, m);
      data, error := after, verdict;
    }
    if error == Ok && !complete {
      var aligned := Align4(length);
      if |d| - at < aligned {
        error := NetlinkParse;
      } else {
        next := at + aligned;
      }
    }
  }

  /** The inner loop. */
  method WalkDatagram<S>(d: Bytes, sequence: nat, callback: Callback<S>, initial: S) returns (data: S, error: Error, complete: bool)
    ensures Walked(data, error, complete) == Walk(d, 0, sequence, callback, initial)
  {
    data, error, complete := initial, Ok, false;
    var at := 0;
    while HEADER_LENGTH <= |d| - at && error == Ok && !complete
      invariant 0 <= at <= |d|
      invariant if error == Ok && !complete then Walk(d, 0, sequence, callback, initial) == Walk(d, at, sequence, callback, data)
                else Walk(d, 0, sequence, callback, initial) == Walked(data, error, complete)
      invariant complete ==> error == Ok
      decreases |d| - at, error == Ok, !complete
    {
      var next: nat;
      data, error, complete, next := StepMessage(d, at, sequence, callback, data);
      if error == Ok && !complete {
        at := next;
      }
    }
    if error == Ok && !complete && at != |d| {
      error := NetlinkParse;
    }
  }

  // ---------- The dump

  // What waiting for and reading one datagram yields: an error, or the datagram and its marks.
  datatype Arrival = Failed(error: Error) | Arrived(bytes: Bytes, truncated: bool, fromKernel: bool)

  predicate ValidArrival(a: Arrival) {
    a.Failed? ==> a.error == NetlinkRecv || a.error == Permission
  }

  /** The meaning of the outer loop after so many datagrams; the wait runs into its timeout behind the script. */
  function Dump<S>(script: seq<Arrival>, count: nat, sequence: nat, callback: Callback<S>, data: S): (S, Error)
    decreases |script|
  {
    if script == [] then (data, NetlinkRecv)
    else match script[0]
      case Failed(error) => (data, error)
      case Arrived(bytes, truncated, fromKernel) =>
        if bytes == [] || truncated || !fromKernel then (data, NetlinkRecv)
        else
          var w := Walk(bytes, 0, sequence, callback, data);
          if w.error != Ok || w.complete then (w.data, w.error)
          else if MAX_DATAGRAMS < count + 1 then (w.data, NetlinkParse)
          else Dump(script[1..], count + 1, sequence, callback, w.data)
  }

  /** `ReceiveNetlinkDump`: at most 4097 datagrams are read. */
  method ReceiveDump<S>(script: seq<Arrival>, sequence: nat, callback: Callback<S>, initial: S)
      returns (data: S, error: Error, count: nat)
    requires forall i :: 0 <= i < |script| ==> ValidArrival(script[i])
    ensures (data, error) == Dump(script, 0, sequence, callback, initial)
    ensures count <= MAX_DATAGRAMS + 1
  {
    data, error, count := initial, Ok, 0;
    var complete, next := false, 0;
    while !complete && error == Ok
      invariant 0 <= next <= |script| && count == next && count <= MAX_DATAGRAMS + 1
      invariant !complete && error == Ok ==> count <= MAX_DATAGRAMS
      invariant !complete && error == Ok ==>
                  Dump(script, 0, sequence, callback, initial) == Dump(script[next..], count, sequence, callback, data)
      invariant complete || error != Ok ==> Dump(script, 0, sequence, callback, initial) == (data, error)
      decreases |script| - next, !complete, error == Ok
    {
      if next == |script| || script[next].Failed? {
        error := if next == |script| then NetlinkRecv else script[next].error;
        return;
      }
      var arrival := script[next];
      if arrival.bytes == [] || arrival.truncated || !arrival.fromKernel {
        error := NetlinkRecv;
      } else {
        data, error, complete := WalkDatagram(arrival.bytes, sequence, callback, data);
      }
      assert script[next..][1..] == script[next + 1..];
      count, next := count + 1, next + 1;
      if error == Ok && !complete && MAX_DATAGRAMS < count {
        error := NetlinkParse;
      }
    }
  }

  // ---------- What a well-formed dump delivers

  /** A padded message that the walk goes past. */
  predicate Passes(c: Chunk, sequence: nat) {
    && c.Valid() && c.message.sequence == sequence && !Interrupted(c.message) && c.message.kind != NLMSG_DONE
    && (c.message.kind == NLMSG_ERROR ==> ErrorOf(c.message) == Ok)
  }

  predicate AllPass(cs: seq<Chunk>, sequence: nat) {
    forall i :: 0 <= i < |cs| ==> Passes(cs[i], sequence)
  }

  /** The data messages: everything but the empty error messages. */
  function Deliveries(cs: seq<Chunk>): seq<Message> {
    if cs == [] then []
    else (if cs[0].message.kind == NLMSG_ERROR then [] else [cs[0].message]) + Deliveries(cs[1..])
  }

  /** Reading a message back where it was written. */
  lemma {:induction false} BareBack(d: Bytes, at: nat, m: Message, rest: Bytes)
    requires ValidMessage(m) && at <= |d| && d[at..] == Bare(m) + rest
    ensures at + HEADER_LENGTH <= |d| && MessageAt(d, at) == Some(m)
  {
    var length := HEADER_LENGTH + |m.payload|;
    assert Bare(m) + rest == Header(length, m) + (m.payload + rest);
    HeaderBack(d, at, length, m, m.payload + rest);
    assert d[at + HEADER_LENGTH..at + length] == d[at..][HEADER_LENGTH..length] == m.payload;
  }

  lemma {:induction false} MessageBack(d: Bytes, at: nat, c: Chunk, rest: Bytes)
    requires c.Valid() && at <= |d| && d[at..] == Encode(c) + rest
    ensures at + HEADER_LENGTH <= |d| && MessageAt(d, at) == Some(c.message)
    ensures at + Align4(c.Length()) <= |d| && d[at + Align4(c.Length())..] == rest
  {
    assert Encode(c) + rest == Bare(c.message) + (c.pad + rest);
    BareBack(d, at, c.message, c.pad + rest);
    assert d[at + Align4(c.Length())..] == d[at..][Align4(c.Length())..];
  }

  lemma {:induction false} HeaderBack(d: Bytes, at: nat, length: nat, m: Message, rest: Bytes)
    requires length <= U32_MAX && m.kind <= U16_MAX && m.flags <= U16_MAX && m.sequence <= U32_MAX && m.port <= U32_MAX
    requires at <= |d| && d[at..] == Header(length, m) + rest
    ensures at + HEADER_LENGTH <= |d|
    ensures U32At(d, at) == length && U16At(d, at + 4) == m.kind && U16At(d, at + 6) == m.flags
    ensures U32At(d, at + 8) == m.sequence && U32At(d, at + 12) == m.port
  {
    var h := Header(length, m);
    assert forall k :: 0 <= k < HEADER_LENGTH ==> d[at + k] == d[at..][k] == h[k];
  }

  lemma {:induction false} PassesValid(cs: seq<Chunk>, sequence: nat)
    requires AllPass(cs, sequence) && cs != []
    ensures cs[0].Valid() && Passes(cs[0], sequence) && AllPass(cs[1..], sequence) && AllValid(cs[1..]) && AllValid(cs)
  {
  }

  lemma {:induction false} EncodeRegroup(c: Chunk, rest: Bytes, more: Bytes)
    requires c.Valid()
    ensures Encode(c) + rest + more == Encode(c) + (rest + more)
  {
  }

  /** The walk over well-formed messages folds the callback over the data messages, and goes on behind them. */
  lemma {:induction false} WalkPasses<S>(d: Bytes, at: nat, cs: seq<Chunk>, rest: Bytes, sequence: nat, callback: Callback<S>, data: S)
    requires AllPass(cs, sequence) && AllValid(cs) && at <= |d| && d[at..] == Stream(cs) + rest
    ensures at + |Stream(cs)| <= |d| && d[at + |Stream(cs)|..] == rest
    ensures var (after, error) := Fold(callback, data, Deliveries(cs));
            Walk(d, at, sequence, callback, data) ==
            if error != Ok then Walked(after, error, false) else Walk(d, at + |Stream(cs)|, sequence, callback, after)
    decreases |cs|
  {
    hide Walk, Encode, Deliveries, Fold, Passes;
    if cs == [] {
      assert Stream(cs) + rest == rest;
      NothingDelivered(callback, data);
    } else {
      PassesValid(cs, sequence);
      var c, tail := cs[0], Stream(cs[1..]) + rest;
      EncodeRegroup(c, Stream(cs[1..]), rest);
      WalkStep(d, at, c, tail, sequence, callback, data);
      DeliveriesStep(callback, data, cs);
      var (after, error) := if c.message.kind == NLMSG_ERROR then (data, Ok) else callback(data, c.message);
      var next := at + Align4(c.Length());
      WalkPasses(d, next, cs[1..], rest, sequence, callback, after);
      assert at + |Stream(cs)| == next + |Stream(cs[1..])|;
    }
  }

  lemma {:induction false} WalkStep<S>(d: Bytes, at: nat, c: Chunk, rest: Bytes, sequence: nat, callback: Callback<S>, data: S)
    requires Passes(c, sequence) && at <= |d| && d[at..] == Encode(c) + rest
    ensures at + Align4(c.Length()) <= |d| && d[at + Align4(c.Length())..] == rest
    ensures var (after, error) := if c.message.kind == NLMSG_ERROR then (data, Ok) else callback(data, c.message);
            Walk(d, at, sequence, callback, data) ==
            if error != Ok then Walked(after, error, false)
            else Walk(d, at + Align4(c.Length()), sequence, callback, after)
  {
    hide ErrorOf, Interrupted, Encode;
    MessageBack(d, at, c, rest);
  }

  lemma {:induction false} NothingDelivered<S>(callback: Callback<S>, data: S)
    ensures Fold(callback, data, Deliveries([])) == (data, Ok)
  {
  }

  lemma {:induction false} DeliveriesStep<S>(callback: Callback<S>, data: S, cs: seq<Chunk>)
    requires cs != []
    ensures Fold(callback, data, Deliveries(cs)) ==
            if cs[0].message.kind == NLMSG_ERROR then Fold(callback, data, Deliveries(cs[1..]))
            else
              var (after, error) := callback(data, cs[0].message);
              if error != Ok then (after, error) else Fold(callback, after, Deliveries(cs[1..]))
  {
    if cs[0].message.kind == NLMSG_ERROR {
      assert [] + Deliveries(cs[1..]) == Deliveries(cs[1..]);
    } else {
      assert ([cs[0].message] + Deliveries(cs[1..]))[1..] == Deliveries(cs[1..]);
    }
  }

  /** What a datagram of well-formed messages does. */
  lemma {:induction false} WalkWhole<S>(cs: seq<Chunk>, sequence: nat, callback: Callback<S>, data: S)
    requires AllPass(cs, sequence)
    ensures var (after, error) := Fold(callback, data, Deliveries(cs));
            Walk(Stream(cs), 0, sequence, callback, data) == Walked(after, error, false)
  {
    hide Encode, Fold, Deliveries, ErrorOf, Interrupted;
    assert Stream(cs)[0..] == Stream(cs) + [];
    WalkPasses(Stream(cs), 0, cs, [], sequence, callback, data);
  }

  /** A message that ends the dump. */
  predicate Ends(m: Message, sequence: nat) {
    ValidMessage(m) && m.sequence == sequence && !Interrupted(m) && m.kind == NLMSG_DONE
  }

  lemma {:induction false} WalkDone<S>(d: Bytes, at: nat, done: Message, junk: Bytes, sequence: nat, callback: Callback<S>, data: S)
    requires Ends(done, sequence) && at <= |d| && d[at..] == Bare(done) + junk
    ensures Walk(d, at, sequence, callback, data) == Walked(data, Ok, true)
  {
    hide Interrupted, Bare;
    BareBack(d, at, done, junk);
  }

  /** What the last datagram does: nothing behind DONE is looked at, not even its padding. */
  lemma {:induction false} WalkLast<S>(cs: seq<Chunk>, done: Message, junk: Bytes, sequence: nat, callback: Callback<S>, data: S)
    requires AllPass(cs, sequence) && Ends(done, sequence)
    ensures var (after, error) := Fold(callback, data, Deliveries(cs));
            Walk(Stream(cs) + (Bare(done) + junk), 0, sequence, callback, data) == Walked(after, error, error == Ok)
  {
    var d := Stream(cs) + (Bare(done) + junk);
    assert d[0..] == d;
    hide Walk, Passes, Ends, Bare, Fold, Deliveries;
    WalkPasses(d, 0, cs, Bare(done) + junk, sequence, callback, data);
    WalkDone(d, |Stream(cs)|, done, junk, sequence, callback, Fold(callback, data, Deliveries(cs)).0);
  }

  // ---------- A whole dump

  predicate AllDatagrams(css: seq<seq<Chunk>>, sequence: nat) {
    forall i :: 0 <= i < |css| ==> css[i] != [] && AllPass(css[i], sequence)
  }

  function AllDeliveries(css: seq<seq<Chunk>>): seq<Message> {
    if css == [] then [] else Deliveries(css[0]) + AllDeliveries(css[1..])
  }

  // The kernel's answer: datagrams of messages, a last one of messages, DONE and any bytes, and whatever follows.
  datatype Answer = Answer(css: seq<seq<Chunk>>, last: seq<Chunk>, done: Message, junk: Bytes, later: seq<Arrival>) {
    predicate Valid(sequence: nat) {
      AllDatagrams(css, sequence) && AllPass(last, sequence) && Ends(done, sequence) && |css| <= MAX_DATAGRAMS
    }

    function Messages(): seq<Message> {
      AllDeliveries(css) + Deliveries(last)
    }
  }

  /** What arrives when the kernel answers like this. */
  function Script(a: Answer, sequence: nat): seq<Arrival>
    requires a.Valid(sequence)
    decreases |a.css|
  {
    if a.css == [] then [Arrived(Stream(a.last) + (Bare(a.done) + a.junk), false, true)] + a.later
    else [Arrived(Stream(a.css[0]), false, true)] + Script(a.(css := a.css[1..]), sequence)
  }

  lemma {:induction false} ScriptLater(a: Answer, sequence: nat)
    requires a.Valid(sequence) && a.css != []
    ensures a.(css := a.css[1..]).Valid(sequence)
    ensures Script(a, sequence) == [Arrived(Stream(a.css[0]), false, true)] + Script(a.(css := a.css[1..]), sequence)
    ensures a.Messages() == Deliveries(a.css[0]) + a.(css := a.css[1..]).Messages()
  {
    hide Ends, Deliveries, AllPass, Stream, Bare;
    var tail := a.css[1..];
    assert AllDeliveries(a.css) == Deliveries(a.css[0]) + AllDeliveries(tail);
    Regrouped(Deliveries(a.css[0]), AllDeliveries(tail), Deliveries(a.last));
  }

  lemma {:induction false} Regrouped<T>(a: seq<T>, b: seq<T>, c: seq<T>)
    ensures (a + b) + c == a + (b + c)
  {
  }

  /** The dump hands the callback exactly the data messages before the first DONE, in order, for every answer of
      at most 4097 datagrams; nothing that arrives later is read. */
  lemma {:induction false} DumpDelivers<S>(a: Answer, count: nat, sequence: nat, callback: Callback<S>, data: S)
    requires a.Valid(sequence) && count + |a.css| <= MAX_DATAGRAMS
    ensures Dump(Script(a, sequence), count, sequence, callback, data) == Fold(callback, data, a.Messages())
    decreases |a.css|
  {
    hide Walk, Ends, Bare, Fold, Deliveries;
    var script := Script(a, sequence);
    if a.css == [] {
      WalkLast(a.last, a.done, a.junk, sequence, callback, data);
      assert AllDeliveries(a.css) + Deliveries(a.last) == Deliveries(a.last);
    } else {
      var behind := a.(css := a.css[1..]);
      ScriptLater(a, sequence);
      WalkWhole(a.css[0], sequence, callback, data);
      var (after, error) := Fold(callback, data, Deliveries(a.css[0]));
      FoldConcat(callback, data, Deliveries(a.css[0]), behind.Messages());
      assert script[1..] == Script(behind, sequence);
      StreamNotEmpty(a.css[0]);
      if error == Ok {
        DumpDelivers(behind, count + 1, sequence, callback, after);
      }
    }
  }

  lemma {:induction false} StreamNotEmpty(cs: seq<Chunk>)
    requires AllValid(cs) && cs != []
    ensures Stream(cs) != []
  {
  }

  // ---------- Exact acceptance

  /** The bytes of a datagram at an offset, cut into a message and the rest. */
  lemma {:induction false} BareAt(d: Bytes, at: nat)
    requires at + HEADER_LENGTH <= |d| <= U32_MAX && MessageAt(d, at).Some?
    ensures var m := MessageAt(d, at).value;
            ValidMessage(m) && d[at..] == Bare(m) + d[at + HEADER_LENGTH + |m.payload|..]
  {
    var m := MessageAt(d, at).value;
    HeaderCut(d, at);
    assert d[at..] == d[at..at + HEADER_LENGTH] + m.payload + d[at + HEADER_LENGTH + |m.payload|..];
  }

  lemma {:induction false} ChunkAt(d: Bytes, at: nat) returns (c: Chunk)
    requires at + HEADER_LENGTH <= |d| <= U32_MAX && MessageAt(d, at).Some?
    requires at + Align4(HEADER_LENGTH + |MessageAt(d, at).value.payload|) <= |d|
    ensures c.Valid() && c.message == MessageAt(d, at).value
    ensures d[at..] == Encode(c) + d[at + Align4(c.Length())..]
  {
    hide MessageAt, Bare;
    var m := MessageAt(d, at).value;
    var end := at + HEADER_LENGTH + |m.payload|;
    var next := at + Align4(HEADER_LENGTH + |m.payload|);
    BareAt(d, at);
    c := Chunk(m, d[end..next]);
    assert d[end..] == d[end..next] + d[next..];
  }

  lemma {:induction false} HeaderCut(d: Bytes, at: nat)
    requires at + HEADER_LENGTH <= |d|
    ensures d[at..at + HEADER_LENGTH] ==
            U32Little(U32At(d, at)) + U16Little(U16At(d, at + 4)) + U16Little(U16At(d, at + 6))
            + U32Little(U32At(d, at + 8)) + U32Little(U32At(d, at + 12))
  {
    U32Back(d, at);
    U16Back(d, at + 4);
    U16Back(d, at + 6);
    U32Back(d, at + 8);
    U32Back(d, at + 12);
    assert d[at..at + HEADER_LENGTH] == d[at..at + 4] + d[at + 4..at + 6] + d[at + 6..at + 8] + d[at + 8..at + 12] + d[at + 12..at + 16];
  }

  /** The messages of a datagram that is accepted and does not end the dump. */
  lemma {:induction false} AcceptedChunks<S>(d: Bytes, at: nat, sequence: nat, callback: Callback<S>, data: S) returns (cs: seq<Chunk>)
    requires at <= |d| <= U32_MAX && Walk(d, at, sequence, callback, data).error == Ok && !Walk(d, at, sequence, callback, data).complete
    ensures AllPass(cs, sequence) && Stream(cs) == d[at..]
    decreases |d| - at
  {
    hide Walk, Passes, Encode;
    if at == |d| {
      cs := [];
      assert d[at..] == [];
    } else {
      StandsThere(d, at, sequence, callback, data);
      var c, after := PassedChunk(d, at, sequence, callback, data);
      var next := at + Align4(c.Length());
      var rest := AcceptedChunks(d, next, sequence, callback, after);
      cs := StreamMore(c, rest, sequence);
    }
  }

  lemma {:induction false} StreamMore(c: Chunk, rest: seq<Chunk>, sequence: nat) returns (cs: seq<Chunk>)
    requires Passes(c, sequence) && AllPass(rest, sequence)
    ensures c.Valid() && AllValid(rest)
    ensures AllPass(cs, sequence) && Stream(cs) == Encode(c) + Stream(rest)
  {
    hide Encode;
    cs := [c] + rest;
    assert cs[1..] == rest;
  }

  /** One message that the walk went past. */
  lemma {:induction false} PassedChunk<S>(d: Bytes, at: nat, sequence: nat, callback: Callback<S>, data: S) returns (c: Chunk, after: S)
    requires at + HEADER_LENGTH <= |d| <= U32_MAX && MessageAt(d, at).Some? && MessageAt(d, at).value.kind != NLMSG_DONE
    requires Walk(d, at, sequence, callback, data).error == Ok
    ensures Passes(c, sequence) && at + Align4(c.Length()) <= |d|
    ensures d[at..] == Encode(c) + d[at + Align4(c.Length())..]
    ensures Walk(d, at, sequence, callback, data) == Walk(d, at + Align4(c.Length()), sequence, callback, after)
  {
    hide ErrorOf, Interrupted, Encode, MessageAt;
    c := ChunkAt(d, at);
    after := if c.message.kind == NLMSG_ERROR then data else callback(data, c.message).0;
  }

  /** What stands at an offset from which the walk succeeds: the end, DONE, or a message that it goes past. */
  lemma {:induction false} StandsThere<S>(d: Bytes, at: nat, sequence: nat, callback: Callback<S>, data: S)
    requires at <= |d| <= U32_MAX && Walk(d, at, sequence, callback, data).error == Ok
    ensures (at + HEADER_LENGTH <= |d| && MessageAt(d, at).Some?) || (at == |d| && !Walk(d, at, sequence, callback, data).complete)
    ensures at + HEADER_LENGTH <= |d| && MessageAt(d, at).Some? && MessageAt(d, at).value.kind == NLMSG_DONE ==>
              Walk(d, at, sequence, callback, data).complete && Ends(MessageAt(d, at).value, sequence)
  {
    hide ErrorOf, Interrupted;
    if at + HEADER_LENGTH <= |d| && MessageAt(d, at).Some? {
      BareAt(d, at);
    }
  }

  /** With a callback that refuses nothing, the walk goes past a datagram exactly if it is a sequence of padded
      messages of this dump, none of them DONE and none an error. */
  lemma {:induction false} WalkAcceptsExactly(d: Bytes, sequence: nat)
    requires |d| <= U32_MAX
    ensures var w := Walk(d, 0, sequence, Record, []);
            w.error == Ok && !w.complete <==> exists cs :: AllPass(cs, sequence) && Stream(cs) == d
  {
    var w := Walk(d, 0, sequence, Record, []);
    if w.error == Ok && !w.complete {
      var cs := AcceptedChunks(d, 0, sequence, Record, []);
      assert d[0..] == d;
    }
    forall cs | AllPass(cs, sequence) && Stream(cs) == d
      ensures w.error == Ok && !w.complete
    {
      WalkWhole(cs, sequence, Record, []);
      FoldRecords([], Deliveries(cs));
    }
  }

  /** The messages of a datagram that ends the dump. */
  lemma {:induction false} EndingChunks<S>(d: Bytes, at: nat, sequence: nat, callback: Callback<S>, data: S)
      returns (cs: seq<Chunk>, done: Message, junk: Bytes)
    requires at <= |d| <= U32_MAX && Walk(d, at, sequence, callback, data).error == Ok && Walk(d, at, sequence, callback, data).complete
    ensures ValidMessage(done) && AllPass(cs, sequence) && Ends(done, sequence) && d[at..] == Stream(cs) + (Bare(done) + junk)
    decreases |d| - at
  {
    hide Walk, Passes, Encode, Bare, MessageAt, Ends;
    StandsThere(d, at, sequence, callback, data);
    var m := MessageAt(d, at).value;
    if m.kind == NLMSG_DONE {
      BareAt(d, at);
      cs, done, junk := [], m, d[at + HEADER_LENGTH + |m.payload|..];
      assert Stream(cs) + (Bare(done) + junk) == Bare(done) + junk;
    } else {
      var c, after := PassedChunk(d, at, sequence, callback, data);
      var rest: seq<Chunk>;
      rest, done, junk := EndingChunks(d, at + Align4(c.Length()), sequence, callback, after);
      cs := StreamMore(c, rest, sequence);
      EncodeBehind(c, Stream(rest), Bare(done) + junk);
    }
  }

  lemma {:induction false} EncodeBehind(c: Chunk, rest: Bytes, more: Bytes)
    requires c.Valid()
    ensures Encode(c) + (rest + more) == Encode(c) + rest + more
  {
  }

  const RECEIVE_LENGTH: nat := 65536

  /** What `recvmsg` can put into the receive buffer. */
  predicate Received(script: seq<Arrival>) {
    forall i :: 0 <= i < |script| ==> ValidArrival(script[i]) && (script[i].Arrived? ==> |script[i].bytes| <= RECEIVE_LENGTH)
  }

  /** The answer behind a dump that succeeded. */
  lemma {:induction false} DumpAnswered<S>(script: seq<Arrival>, count: nat, sequence: nat, callback: Callback<S>, data: S) returns (a: Answer)
    requires Received(script) && count <= MAX_DATAGRAMS && Dump(script, count, sequence, callback, data).1 == Ok
    ensures a.Valid(sequence) && count + |a.css| <= MAX_DATAGRAMS && Script(a, sequence) == script
    decreases |script|
  {
    hide Walk, Passes, Bare, Interrupted;
    var d := script[0].bytes;
    assert script[0] == Arrived(d, false, true) && script == [script[0]] + script[1..];
    assert d[0..] == d;
    var w := Walk(d, 0, sequence, callback, data);
    if w.complete {
      var last, done, junk := EndingChunks(d, 0, sequence, callback, data);
      a := Answer([], last, done, junk, script[1..]);
    } else {
      var cs := AcceptedChunks(d, 0, sequence, callback, data);
      var rest := DumpAnswered(script[1..], count + 1, sequence, callback, w.data);
      a := AnswerMore(cs, rest, sequence, MAX_DATAGRAMS - count - 1);
    }
  }

  lemma {:induction false} AnswerMore(cs: seq<Chunk>, rest: Answer, sequence: nat, limit: nat) returns (a: Answer)
    requires AllPass(cs, sequence) && Stream(cs) != [] && rest.Valid(sequence) && |rest.css| <= limit < MAX_DATAGRAMS
    ensures a.Valid(sequence) && |a.css| <= limit + 1
    ensures Script(a, sequence) == [Arrived(Stream(cs), false, true)] + Script(rest, sequence)
  {
    hide Passes, Ends, Bare;
    a := rest.(css := [cs] + rest.css);
    assert a.css[1..] == rest.css && a.(css := a.css[1..]) == rest;
  }

  /** A dump succeeds exactly if what arrives is an answer of at most 4097 datagrams whose data messages the callback
      does not refuse. */
  lemma {:induction false} DumpAcceptsExactly<S>(script: seq<Arrival>, sequence: nat, callback: Callback<S>, data: S)
    requires Received(script)
    ensures Dump(script, 0, sequence, callback, data).1 == Ok <==>
            exists a: Answer :: a.Valid(sequence) && Script(a, sequence) == script && Fold(callback, data, a.Messages()).1 == Ok
  {
    hide Dump, Script, Fold;
    if Dump(script, 0, sequence, callback, data).1 == Ok {
      var a := DumpAnswered(script, 0, sequence, callback, data);
      DumpDelivers(a, 0, sequence, callback, data);
    }
    forall a: Answer | a.Valid(sequence) && Script(a, sequence) == script && Fold(callback, data, a.Messages()).1 == Ok
      ensures Dump(script, 0, sequence, callback, data).1 == Ok
    {
      DumpDelivers(a, 0, sequence, callback, data);
    }
  }

  /** What a recording callback has written down after a dump that succeeded are the answer's data messages. */
  lemma {:induction false} DumpRecords(script: seq<Arrival>, sequence: nat, log: seq<Message>)
    requires Received(script)
    ensures Dump(script, 0, sequence, Record, []) == (log, Ok) <==>
            exists a: Answer :: a.Valid(sequence) && Script(a, sequence) == script && log == a.Messages()
  {
    hide Dump, Script, Fold;
    if Dump(script, 0, sequence, Record, []) == (log, Ok) {
      var a := DumpAnswered(script, 0, sequence, Record, []);
      DumpDelivers(a, 0, sequence, Record, []);
      FoldRecords([], a.Messages());
      assert [] + a.Messages() == a.Messages();
    }
    forall a: Answer | a.Valid(sequence) && Script(a, sequence) == script && log == a.Messages()
      ensures Dump(script, 0, sequence, Record, []) == (log, Ok)
    {
      DumpDelivers(a, 0, sequence, Record, []);
      FoldRecords([], a.Messages());
      assert [] + a.Messages() == a.Messages();
    }
  }
}
