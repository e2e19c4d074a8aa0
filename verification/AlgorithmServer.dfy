/** The responder of the algorithm test: one case at a time, and the loop around them. */
module AlgorithmServer {
  import opened Core
  import opened Host
  import opened Algorithm
  import opened AlgorithmMessages
  import Proposals
  import Text

  const RUN_ID_LENGTH: nat := 96

  /** The claims in a reply are true of the history so far. */
  ghost predicate MaySay(m: Monitor, action: string, id: string, value: string) {
    && (action == "RESULT" && value == "PASS" ==> m.query.Some? && m.query.value.0 == id)
    && (action == "DONE" ==> m.cleaned == id)
  }

  /** A true reply leaves what the history amounts to as it was. */
  lemma {:induction false} TrueReply(m: Monitor, action: string, id: string, value: string, quiet: bool)
    requires Clean(action) && Clean(id) && Clean(value) && MaySay(m, action, id, value)
    requires m.backed && (m.cleaned != [] ==> quiet)
    ensures Watch(m, Sent(ControlText(action, id, value, "0"), quiet)) == m
  {
    hide ControlText, Tokens;
    ControlRead(action, id, value, "0");
  }

  /** `ReplyNativeAppAlgorithmServer`. */
  method Reply(host: Host, action: string, id: string, value: string) returns (error: Error)
    requires Sound(host) && Clean(action) && Clean(id) && Clean(value)
    requires MaySay(MonitorOf(host.log), action, id, value)
    modifies host`log
    ensures Sound(host) && Grew(old(host.log), host.log)
    ensures MonitorOf(host.log) == MonitorOf(old(host.log))
    ensures error == Ok ==> host.log == old(host.log) + [Sent(ControlText(action, id, value, "0"), !host.present && !host.sa)]
  {
    hide Watch, ControlText, MonitorOf, Clean, MaySay;
    var text: string;
    error, text := Format(action, id, value, "0");
    if error == Ok {
      ghost var quiet := !host.present && !host.sa;
      TrueReply(MonitorOf(host.log), action, id, value, quiet);
      MonitorAppend(host.log, Sent(text, quiet));
      error := host.Send(text);
    }
  }

  /** Nothing but the announcements has changed. */
  predicate Learned(before: Monitor, after: Monitor) {
    before.announced <= after.announced && after == before.(announced := after.announced)
  }

  lemma {:induction false} LearnsFrom(log: seq<Entry>, text: string)
    ensures Learned(MonitorOf(log), MonitorOf(log + [Received(text)]))
    ensures Announcement(text).Some? ==> Announcement(text).value in MonitorOf(log + [Received(text)]).announced
  {
    hide Announcement, ClaimsPass, ClaimsDone, MonitorOf;
    MonitorAppend(log, Received(text));
  }

  /** `ReceiveNativeAppAlgorithmMessage`. */
  method Listen(host: Host) returns (input: Input)
    requires Sound(host)
    modifies host`inputs, host`log, host`stopped
    ensures Sound(host) && Grew(old(host.log), host.log)
    ensures old(host.stopped) ==> host.stopped
    ensures Learned(MonitorOf(old(host.log)), MonitorOf(host.log))
    ensures input.Datagram? && Announcement(input.text).Some? ==> Announcement(input.text).value in MonitorOf(host.log).announced
  {
    hide Announcement, MonitorOf;
    ghost var before := host.log;
    input := host.Receive();
    if input.Datagram? {
      LearnsFrom(before, input.text);
    }
  }

  /** The answer to VERIFY. */
  method AnswerVerify(host: Host, c: Case, before: Result) returns (reply: Error, verify: Error, r: Result)
    requires Sound(host) && Chain(before) && Clean(c.id)
    requires (c.id, c.ike, c.esp) in MonitorOf(host.log).announced
    modifies host`sa, host`log
    ensures Sound(host) && Grew(old(host.log), host.log) && Chain(r)
    ensures var before, after := MonitorOf(old(host.log)), MonitorOf(host.log);
            after.announced == before.announced && after.loaded == before.loaded && after.cleaned == before.cleaned
    ensures verify == Ok <==> r.stage == Pass
    ensures r.cleanup == before.cleanup
  {
    ghost var o;
    verify, r, o := QueryState(host, c, before);
    MonitorAppend(old(host.log), Queried(c.id, c.ike, c.esp, verify == Ok));
    if verify == Ok {
      r := r.(stage := Pass, dataPathVerified := true);
    }
    reply := Reply(host, "RESULT", c.id, StageName(r.stage));
  }

  /** The answer to CLEANUP or ABORT while the connection is loaded: DONE only after a verified cleanup. */
  method AnswerCleanup(host: Host, c: Case, reqid: nat, timeoutMs: nat) returns (error: Error, cleanup: Error, record: Cleanup)
    requires Sound(host) && MonitorOf(host.log).loaded && Clean(c.id)
    modifies host`present, host`sa, host`stopped, host`patience, host`log
    ensures Sound(host) && Grew(old(host.log), host.log)
    ensures !MonitorOf(host.log).loaded && MonitorOf(host.log).announced == MonitorOf(old(host.log)).announced
    ensures record.localVerified ==> MonitorOf(host.log).cleaned == c.id
    ensures cleanup == Ok <==> record.localVerified
    ensures cleanup != Ok ==> error == cleanup
    ensures old(host.stopped) ==> host.stopped
    ensures host.patience <= old(host.patience)
  {
    cleanup, record := CleanUp(host, c.id, reqid, false, timeoutMs);
    error := cleanup;
    if cleanup == Ok {
      error := Reply(host, "DONE", c.id, "OK");
    }
  }

  /** Builds the case's configuration, loads it, and answers READY. */
  method BeginCase(host: Host, c: Case) returns (error: Error, loaded: bool)
    requires Sound(host) && !MonitorOf(host.log).loaded && Clean(c.id)
    modifies host`present, host`sa, host`log
    ensures Sound(host) && Grew(old(host.log), host.log)
    ensures MonitorOf(host.log).loaded == loaded
    ensures MonitorOf(host.log).announced == MonitorOf(old(host.log)).announced
    ensures error == Ok ==> loaded
  {
    loaded := false;
    error := *;                       // BuildNativeAppAlgorithmConfig
    if error == Ok {
      ghost var before := host.log;
      error := host.LoadConnection(c.id);
      loaded := error == Ok;
      MonitorAppend(before, Load(c.id, loaded));
    }
    if error == Ok {
      error := Reply(host, "READY", c.id, "OK");
    }
  }

  // The local variables of a case.
  datatype Progress = Progress(r: Result, loaded: bool, verified: bool, finished: bool, caseError: Error)

  ghost predicate InCase(host: Host, c: Case, p: Progress)
    reads host`log, host`present, host`sa
  {
    && Sound(host) && Chain(p.r) && Clean(c.id)
    && MonitorOf(host.log).loaded == p.loaded
    && (c.id, c.ike, c.esp) in MonitorOf(host.log).announced
    && (p.finished ==> !p.loaded)
    && (p.r.cleanup.localVerified ==> !p.loaded && MonitorOf(host.log).cleaned == c.id)
  }

  /** One message of the case. */
  method ServeMessage(host: Host, c: Case, action: string, timeoutMs: nat, before: Progress)
      returns (error: Error, p: Progress)
    requires InCase(host, c, before) && before.loaded && !before.finished
    modifies host`present, host`sa, host`stopped, host`patience, host`log
    ensures InCase(host, c, p) && Grew(old(host.log), host.log)
    ensures !p.finished ==> p.loaded
    ensures old(host.stopped) ==> host.stopped
    ensures host.patience <= old(host.patience)
  {
    error, p := Ok, before;
    if action == "PREPARE" {
      error := Reply(host, "READY", c.id, "OK");
    } else if action == "VERIFY" {
      var caseError: Error, r: Result;
      error, caseError, r := AnswerVerify(host, c, p.r);
      p := p.(r := r, caseError := caseError, verified := true);
    } else if action == "CLEANUP" || action == "ABORT" {
      var cleanup: Error, record: Cleanup;
      error, cleanup, record := AnswerCleanup(host, c, p.r.reqid, timeoutMs);
      var stage := if action == "ABORT" then FailSync else if cleanup == Ok then p.r.stage else FailCleanup;
      p := p.(r := p.r.(cleanup := record, stage := stage), loaded := false, finished := true,
              verified := p.verified || action == "ABORT");
    }
  }

  /** The receive loop of a case. */
  method ServeMessages(host: Host, c: Case, timeoutMs: nat, first: Error, before: Progress) returns (error: Error, p: Progress)
    requires InCase(host, c, before) && !before.finished && (first == Ok ==> before.loaded)
    modifies host
    ensures InCase(host, c, p) && Grew(old(host.log), host.log)
    ensures old(host.stopped) ==> host.stopped
    ensures host.patience <= old(host.patience)
  {
    hide Sound, Chain, MonitorOf;
    error, p := first, before;
    var elapsed := 0;
    var stop := host.StopRequested();
    while error == Ok && elapsed <= 2 * timeoutMs && !stop && !p.finished
      invariant InCase(host, c, p) && Grew(old(host.log), host.log)
      invariant error == Ok && !p.finished ==> p.loaded
      invariant stop ==> host.stopped
      invariant old(host.stopped) ==> host.stopped
      invariant host.patience <= old(host.patience)
      decreases host.patience, !stop, !p.finished
    {
      var input := Listen(host);
      // A failed receive is like a message for nobody: the source then looks at a buffer it has not written, and
      // this model lets that buffer match no message of the case.
      if input.Silence? {
        elapsed := elapsed + POLL_MS;
      } else if input.Datagram? {
        var fields := Split(input.text, 10);
        if fields.Some? && 3 <= |fields.value| && fields.value[2] == c.id {
          error, p := ServeMessage(host, c, fields.value[1], timeoutMs, p);
        }
      }
      if !p.finished {
        stop := host.StopRequested();
      }
    }
  }

  /** `RunNativeAppAlgorithmServerCase`.  A load gets its one cleanup; a verified cleanup leaves nothing behind. */
  method ServeCase(host: Host, c: Case, timeoutMs: nat) returns (error: Error, cleanupVerified: bool)
    requires Sound(host) && !MonitorOf(host.log).loaded && Clean(c.id)
    requires (c.id, c.ike, c.esp) in MonitorOf(host.log).announced
    modifies host
    ensures Sound(host) && Grew(old(host.log), host.log)
    ensures !MonitorOf(host.log).loaded
    ensures cleanupVerified ==> MonitorOf(host.log).cleaned == c.id
    ensures old(host.stopped) ==> host.stopped
    ensures host.patience <= old(host.patience)
  {
    var loaded: bool;
    error, loaded := BeginCase(host, c);
    var p := Progress(NO_RESULT, loaded, false, false, Ok);
    error, p := ServeMessages(host, c, timeoutMs, error, p);
    if p.loaded {
      var cleanup: Error, record: Cleanup;
      cleanup, record := CleanUp(host, c.id, p.r.reqid, false, timeoutMs);
      p := p.(r := p.r.(cleanup := record, stage := if cleanup == Ok then p.r.stage else FailCleanup));
      if error == Ok {
        error := cleanup;
      }
    }
    if error == Ok && !p.verified {
      error := ViciTimeout;
    } else if error == Ok && p.caseError != Ok {
      error := p.caseError;
    }
    cleanupVerified := p.r.cleanup.localVerified;
  }

  // ---------- The loop around the cases

  predicate RunIdCharacter(c: char) {
    'a' <= c <= 'z' || 'A' <= c <= 'Z' || '0' <= c <= '9' || c == '_' || c == '-'
  }

  predicate RunIdValid(run: string) {
    1 <= |run| < RUN_ID_LENGTH && forall i :: 0 <= i < |run| ==> RunIdCharacter(run[i])
  }

  /** `ParseNativeAppAlgorithmUint32`: digits only, with the overflow check inside the loop. */
  method ParseUint32(text: string) returns (r: Option<nat>)
    ensures r == if text != [] && AllDigits(text) && DigitValue(text) <= U32_MAX then Some(DigitValue(text)) else None
  {
    if text == [] {
      return None;
    }
    var value, i := 0, 0;
    while i < |text|
      invariant 0 <= i <= |text|
      invariant AllDigits(text[..i]) && value == DigitValue(text[..i]) <= U32_MAX
    {
      if !IsDigit(text[i]) {
        return None;
      }
      value := value * 10 + (text[i] as int - '0' as int);
      assert text[..i + 1][..i] == text[..i];
      assert AllDigits(text[..i + 1]);
      i := i + 1;
      if U32_MAX < value {
        PrefixSmaller(text, i);
        return None;
      }
    }
    assert text[..|text|] == text;
    r := Some(value);
  }

  lemma {:induction false} PrefixSmaller(text: string, n: nat)
    requires n <= |text| && AllDigits(text[..n])
    ensures AllDigits(text) ==> DigitValue(text[..n]) <= DigitValue(text)
    decreases |text|
  {
    if n == |text| {
      assert text[..n] == text;
    } else if AllDigits(text) {
      var shorter := text[..|text| - 1];
      assert shorter[..n] == text[..n];
      PrefixSmaller(shorter, n);
    }
  }

  /** The case a PREPARE message describes. */
  method ReadCase(fields: seq<string>, number: nat, table: seq<Proposals.KeAlgorithm>) returns (error: Error, c: Case)
    requires 8 <= |fields|
    requires forall i :: 0 <= i < |table| ==> Proposals.IsToken(table[i].keyword)
    ensures error == Ok ==> c.id == fields[2] && c.ike == fields[3] && c.esp == fields[4] && c.number == number
  {
    c := Case(fields[2], fields[3], fields[4], number, Proposals.Expected([], false, false, false));
    if |fields[2]| >= CASE_ID_LENGTH || |fields[3]| >= PROPOSAL_LENGTH || |fields[4]| >= PROPOSAL_LENGTH {
      error := BufferTooSmall;
    } else {
      var expected: Proposals.Expected;
      error, expected := Proposals.ExpectedChild(c.esp, table);
      c := c.(expected := expected);
    }
  }

  /** An accepted PREPARE: read the case, serve it, and remember it if its cleanup was verified. */
  method ServePrepare(host: Host, fields: seq<string>, number: nat, table: seq<Proposals.KeAlgorithm>, timeoutMs: nat, lastBefore: string)
      returns (last: string)
    requires Sound(host) && !MonitorOf(host.log).loaded && 8 <= |fields| && Clean(fields[2])
    requires (fields[2], fields[3], fields[4]) in MonitorOf(host.log).announced
    requires lastBefore != [] ==> MonitorOf(host.log).cleaned == lastBefore
    requires forall i :: 0 <= i < |table| ==> Proposals.IsToken(table[i].keyword)
    modifies host
    ensures Sound(host) && !MonitorOf(host.log).loaded && Grew(old(host.log), host.log)
    ensures last != [] ==> MonitorOf(host.log).cleaned == last
    ensures last == [] || last == lastBefore || last == fields[2]
    ensures old(host.stopped) ==> host.stopped
    ensures host.patience <= old(host.patience)
  {
    var error, c := ReadCase(fields, number, table);
    var reported: bool := *;          // CreateNativeAppAlgorithmCaseReport
    last := lastBefore;
    if error == Ok && reported {
      var verified: bool;
      error, verified := ServeCase(host, c, timeoutMs);
      last := if verified then c.id else [];
    }
  }

  // What the loop remembers.
  datatype Session = Session(run: string, last: string, error: Error, completed: bool, ended: bool)

  ghost predicate InSession(host: Host, s: Session)
    reads host`log, host`present, host`sa
  {
    && Sound(host) && !MonitorOf(host.log).loaded
    && (s.last != [] ==> MonitorOf(host.log).cleaned == s.last && Clean(s.last))
    && (s.run != [] ==> Clean(s.run))
    && (s.ended && !s.completed ==> s.error != Ok)
    && (s.completed ==> s.ended && SaidFinished(host.log, s.run))
  }

  /** The last thing said was that this run is finished. */
  predicate SaidFinished(log: seq<Entry>, run: string) {
    log != [] && log[|log| - 1].Sent? && log[|log| - 1].text == ControlText("FINISHED", run, "OK", "0")
  }

  /** One message between two cases.  A repeated CLEANUP or ABORT of the last cleaned case gets its DONE again. */
  method ServeRequest(host: Host, fields: seq<string>, table: seq<Proposals.KeAlgorithm>, timeoutMs: nat, before: Session)
      returns (s: Session)
    requires InSession(host, before) && !before.ended && 3 <= |fields| && AllClean(fields)
    requires 5 <= |fields| && fields[1] == "PREPARE" ==> (fields[2], fields[3], fields[4]) in MonitorOf(host.log).announced
    requires forall i :: 0 <= i < |table| ==> Proposals.IsToken(table[i].keyword)
    modifies host
    ensures InSession(host, s) && Grew(old(host.log), host.log)
    ensures old(host.stopped) ==> host.stopped
    ensures host.patience <= old(host.patience)
  {
    s := before.(error := Ok);
    var action := fields[1];
    if (action == "CLEANUP" || action == "ABORT") && s.last != [] && s.last == fields[2] {
      var error := Reply(host, "DONE", fields[2], "OK");
      s := s.(error := error, ended := error != Ok);
    } else if action == "FINISH" && s.run != [] && s.run == fields[2] {
      var error := BufferTooSmall;
      if |fields[2]| < CASE_ID_LENGTH {
        error := Reply(host, "FINISHED", fields[2], "OK");
      }
      s := s.(error := error, completed := error == Ok, ended := true);
    } else if action == "PREPARE" && 8 <= |fields| && RunIdValid(fields[5]) {
      var number := ParseUint32(fields[6]);
      var requested := ParseUint32(fields[7]);
      if number.None? || requested.None? || number.value == 0 || requested.value == 0 {
        return;
      }
      if s.run == [] {
        var logError: Error := *;       // OpenNativeAppAlgorithmRunLog, WriteNativeAppAlgorithmRunReport
        s := s.(run := fields[5], error := logError, ended := logError != Ok);
      }
      if s.run == fields[5] && !s.ended {
        var last := ServePrepare(host, fields, number.value, table, timeoutMs, s.last);
        s := s.(last := last);
      }
    }
  }

  /** `RunNativeAppAlgorithmServer`.  Whatever arrives, the history keeps its discipline, and no connection is
      left loaded without its cleanup.  It returns no error exactly if it was stopped or has said FINISHED. */
  method Serve(host: Host, table: seq<Proposals.KeAlgorithm>, timeoutMs: nat) returns (error: Error, ghost finished: Option<string>)
    requires Sound(host) && !MonitorOf(host.log).loaded
    requires forall i :: 0 <= i < |table| ==> Proposals.IsToken(table[i].keyword)
    modifies host
    ensures Sound(host) && !MonitorOf(host.log).loaded && Grew(old(host.log), host.log)
    ensures error == Ok <==> host.stopped || finished.Some?
    ensures finished.Some? ==> SaidFinished(host.log, finished.value)
  {
    hide MonitorOf, Text.Tokens, Clean, ControlText;
    var s := Session([], [], Ok, false, false);
    var stop := host.StopRequested();
    while !stop && !s.ended
      invariant InSession(host, s) && Grew(old(host.log), host.log)
      invariant stop == host.stopped || s.ended
      invariant stop ==> host.stopped
      decreases host.patience, !stop, !s.ended
    {
      var input := Listen(host);
      if input.Failure? {
        s := s.(error := Internal, ended := true);
      } else if input.Datagram? {
        var fields := Split(input.text, 8);
        if fields.Some? && 3 <= |fields.value| {
          Text.TokensClean(input.text, '|');
          s := ServeRequest(host, fields.value, table, timeoutMs, s);
        }
      }
      if !s.ended {
        stop := host.StopRequested();
      }
    }
    if !stop {
      stop := host.StopRequested();
    }
    error := if stop || s.completed then Ok else s.error;
    finished := if s.completed then Some(s.run) else None;
  }
}
