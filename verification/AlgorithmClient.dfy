/** The initiator of the algorithm test: one case after another, each confirmed by the responder. */
module AlgorithmClient {
  import opened Core
  import opened Host
  import opened Algorithm
  import opened AlgorithmMessages
  import Text

  // ---------- What the initiator says and hears

  /** Everything announced was a case of this run. */
  ghost predicate Announces(log: seq<Entry>, cases: seq<Case>) {
    forall i :: 0 <= i < |log| && log[i].Sent? && Announcement(log[i].text).Some? ==> OfRun(log[i].text, cases)
  }

  ghost predicate OfRun(text: string, cases: seq<Case>) {
    exists c, run, requested :: c in cases && Clean(run) && text == PrepareText(c.id, c.ike, c.esp, run, c.number, requested)
  }

  /** A message with this action for this case arrived. */
  predicate Answers(text: string, action: string, id: string) {
    var f := Tokens(text);
    |f| >= 3 && f[0] == PROTOCOL && f[1] == action && f[2] == id
  }

  ghost predicate Heard(log: seq<Entry>, action: string, id: string) {
    exists i :: 0 <= i < |log| && log[i].Received? && Answers(log[i].text, action, id)
  }

  ghost predicate HeardPass(log: seq<Entry>, id: string) {
    exists i :: 0 <= i < |log| && log[i].Received? && ClaimsPass(log[i].text) == Some(id)
  }

  ghost predicate HeardDone(log: seq<Entry>, id: string) {
    exists i :: 0 <= i < |log| && log[i].Received? && ClaimsDone(log[i].text) == Some(id)
  }

  lemma {:induction false} HeardMore(before: seq<Entry>, after: seq<Entry>, action: string, id: string)
    requires Grew(before, after)
    ensures Heard(before, action, id) ==> Heard(after, action, id)
    ensures HeardPass(before, id) ==> HeardPass(after, id)
    ensures HeardDone(before, id) ==> HeardDone(after, id)
  {
    assert forall i :: 0 <= i < |before| ==> before[i] == after[i];
  }

  lemma {:induction false} AnnouncesMore(log: seq<Entry>, e: Entry, cases: seq<Case>)
    requires Announces(log, cases)
    requires e.Sent? && Announcement(e.text).Some? ==> OfRun(e.text, cases)
    ensures Announces(log + [e], cases)
  {
    hide Announcement, OfRun;
  }

  /** The initiator between two steps. */
  ghost predicate Calling(host: Host, cases: seq<Case>)
    reads host`log, host`present, host`sa
  {
    Steady(host) && Announces(host.log, cases)
  }

  /** Only messages were exchanged: loads and cleanups stand as before. */
  predicate Talked(before: seq<Entry>, after: seq<Entry>) {
    && Grew(before, after)
    && MonitorOf(after).paired == MonitorOf(before).paired
    && MonitorOf(after).loaded == MonitorOf(before).loaded
    && MonitorOf(after).cleaned == MonitorOf(before).cleaned
  }

  lemma {:induction false} MessageTalks(log: seq<Entry>, e: Entry)
    requires e.Sent? || e.Received?
    ensures Talked(log, log + [e])
  {
    hide Announcement, ClaimsPass, ClaimsDone, MonitorOf;
    MonitorAppend(log, e);
  }

  /** `SendNativeAppAlgorithmMessage`. */
  method Say(host: Host, text: string, ghost cases: seq<Case>) returns (error: Error)
    requires Calling(host, cases)
    requires Announcement(text).Some? ==> OfRun(text, cases)
    modifies host`log
    ensures Calling(host, cases) && Talked(old(host.log), host.log)
    ensures error == Ok || error == Internal
  {
    hide Announces, OfRun, Announcement, MonitorOf, Grew;
    ghost var entry := Sent(text, !host.present && !host.sa);
    MessageTalks(host.log, entry);
    AnnouncesMore(host.log, entry, cases);
    error := host.Send(text);
  }

  /** `ReceiveNativeAppAlgorithmMessage`. */
  method Hear(host: Host, ghost cases: seq<Case>) returns (input: Input)
    requires Calling(host, cases)
    modifies host`inputs, host`log, host`stopped
    ensures Calling(host, cases) && Talked(old(host.log), host.log)
    ensures old(host.stopped) ==> host.stopped
    ensures input.Datagram? ==> host.log == old(host.log) + [Received(input.text)]
  {
    hide Announces, Announcement, MonitorOf;
    ghost var before := host.log;
    input := host.Receive();
    if input.Datagram? {
      MessageTalks(before, Received(input.text));
      AnnouncesMore(before, Received(input.text), cases);
    }
  }

  // What one message is to somebody who waits for an answer.
  datatype Heeded = Ignored | Answered(response: string)

  /** The message's fourth field, if the message answers; an answer may have none. */
  method Heed(text: string, action: string, id: string) returns (h: Heeded)
    ensures h.Answered? ==> Answers(text, action, id)
    ensures h.Answered? && action == "RESULT" && h.response == "PASS" ==> ClaimsPass(text) == Some(id)
    ensures h.Answered? && action == "DONE" ==> ClaimsDone(text) == Some(id)
  {
    hide Text.Tokens;
    h := Ignored;
    var fields := Split(text, 8);
    if fields.Some? && 3 <= |fields.value| && fields.value[1] == action && fields.value[2] == id {
      h := Answered(if 4 <= |fields.value| then fields.value[3] else []);
    }
  }

  lemma {:induction false} HeardLast(log: seq<Entry>, text: string, action: string, id: string)
    requires log != [] && log[|log| - 1] == Received(text)
    ensures Answers(text, action, id) ==> Heard(log, action, id)
    ensures ClaimsPass(text) == Some(id) ==> HeardPass(log, id)
    ensures ClaimsDone(text) == Some(id) ==> HeardDone(log, id)
  {
  }

  /** `WaitNativeAppAlgorithmResponse`.  The fourth field is copied, and may be too long, only if somebody asks for it. */
  method WaitResponse(host: Host, action: string, id: string, wanted: bool, timeoutMs: nat, ghost cases: seq<Case>)
      returns (error: Error, response: string)
    requires Calling(host, cases)
    modifies host`inputs, host`log, host`stopped, host`patience
    ensures Calling(host, cases) && Talked(old(host.log), host.log)
    ensures error == Ok ==> Heard(host.log, action, id)
    ensures error == Ok && action == "RESULT" && wanted && response == "PASS" ==> HeardPass(host.log, id)
    ensures error == Ok && action == "DONE" ==> HeardDone(host.log, id)
    ensures error in {ViciTimeout, Internal, Ok} || (wanted && error == BufferTooSmall)
    ensures error == Ok && wanted ==> |response| < RESULT_LENGTH
    ensures old(host.stopped) ==> error == ViciTimeout && host.stopped
    ensures host.patience <= old(host.patience)
    ensures !old(host.stopped) && !host.stopped ==> host.patience < old(host.patience)
  {
    hide Calling, MonitorOf, Answers, ClaimsPass, ClaimsDone, Heard, HeardPass, HeardDone;
    error, response := ViciTimeout, [];
    var elapsed := 0;
    var stop := host.StopRequested();
    while elapsed <= timeoutMs && !stop
      invariant Calling(host, cases) && Talked(old(host.log), host.log)
      invariant stop ==> host.stopped
      invariant old(host.stopped) ==> stop
      invariant host.patience <= old(host.patience)
      invariant !stop ==> host.patience < old(host.patience)
      decreases host.patience, !stop
    {
      var input := Hear(host, cases);
      if input.Silence? {
        elapsed := elapsed + POLL_MS;
      } else if input.Failure? {
        error := Internal;
        return;
      } else if input.Datagram? {
        var h := Heed(input.text, action, id);
        HeardLast(host.log, input.text, action, id);
        if h.Answered? {
          response := if wanted then h.response else [];
          error := if |response| < RESULT_LENGTH then Ok else BufferTooSmall;
          return;
        }
      }
      stop := host.StopRequested();
    }
  }

  lemma {:induction false} CaseOfRun(c: Case, run: string, requested: nat, cases: seq<Case>)
    requires c in cases && Clean(run)
    ensures OfRun(PrepareText(c.id, c.ike, c.esp, run, c.number, requested), cases)
  {
    hide PrepareText;
  }

  /** `PrepareNativeAppAlgorithmPeer`: repeat the announcement until READY.  A stop request ends it without an error. */
  method PreparePeer(host: Host, c: Case, run: string, requested: nat, timeoutMs: nat, ghost cases: seq<Case>)
      returns (error: Error)
    requires Calling(host, cases) && c in cases
    requires Clean(c.id) && Clean(run)
    modifies host`inputs, host`log, host`stopped, host`patience
    ensures Calling(host, cases) && Talked(old(host.log), host.log)
    ensures error == Ok ==> host.stopped || Heard(host.log, "READY", c.id)
    ensures old(host.stopped) ==> host.stopped
    ensures host.patience <= old(host.patience)
  {
    hide Calling, MonitorOf, Heard, PrepareText, OfRun, Announcement;
    var text := PrepareText(c.id, c.ike, c.esp, run, c.number, requested);
    if |text| >= MESSAGE_LENGTH {
      return BufferTooSmall;
    }
    CaseOfRun(c, run, requested, cases);
    error := Ok;
    var elapsed, ready := 0, false;
    var stop := host.StopRequested();
    while error == Ok && elapsed <= timeoutMs && !stop && !ready
      invariant Calling(host, cases) && Talked(old(host.log), host.log)
      invariant ready ==> error == Ok && Heard(host.log, "READY", c.id)
      invariant stop ==> host.stopped
      invariant old(host.stopped) ==> host.stopped
      invariant host.patience <= old(host.patience)
      decreases host.patience, !stop, !ready, error == Ok
    {
      error := Say(host, text, cases);
      if error == Ok {
        var response: string;
        error, response := WaitResponse(host, "READY", c.id, false, POLL_MS, cases);
      }
      if error == ViciTimeout {
        error := Ok;
        elapsed := elapsed + POLL_MS;
        stop := host.StopRequested();
      } else if error == Ok {
        ready := true;
      }
    }
    if error == Ok && elapsed > timeoutMs {
      error := ViciTimeout;
    }
  }

  lemma {:induction false} NoAnnouncement(action: string, id: string, value1: string, value2: string)
    requires Clean(action) && Clean(id) && Clean(value1) && Clean(value2) && action != "PREPARE"
    ensures Announcement(ControlText(action, id, value1, value2)).None?
  {
    hide ControlText, Tokens, Clean;
    ControlRead(action, id, value1, value2);
  }

  /** `VerifyNativeAppAlgorithmPeer`. */
  method VerifyPeer(host: Host, c: Case, timeoutMs: nat, ghost cases: seq<Case>) returns (error: Error, peerResult: string)
    requires Calling(host, cases) && Clean(c.id)
    modifies host`inputs, host`log, host`stopped, host`patience
    ensures Calling(host, cases) && Talked(old(host.log), host.log)
    ensures error == Ok ==> !old(host.stopped)
    ensures error == Ok && peerResult == "PASS" ==> HeardPass(host.log, c.id)
    ensures old(host.stopped) ==> host.stopped
    ensures host.patience <= old(host.patience)
  {
    var text: string;
    peerResult := [];
    error, text := Format("VERIFY", c.id, "DATA", "1");
    NoAnnouncement("VERIFY", c.id, "DATA", "1");
    hide Announcement, ControlText, Calling, MonitorOf, HeardPass;
    if error == Ok {
      error := Say(host, text, cases);
    }
    if error == Ok {
      error, peerResult := WaitResponse(host, "RESULT", c.id, true, timeoutMs, cases);
    }
  }

  /** Send the request until DONE arrives, at most three times. */
  method AskDone(host: Host, id: string, text: string, timeoutMs: nat, before: Cleanup, ghost cases: seq<Case>)
      returns (error: Error, record: Cleanup)
    requires Calling(host, cases) && Announcement(text).None? && before.peerAttempts == 0
    modifies host`inputs, host`log, host`stopped, host`patience
    ensures Calling(host, cases) && Talked(old(host.log), host.log)
    ensures error == Ok ==> HeardDone(host.log, id) && 1 <= record.peerAttempts
    ensures record.peerAttempts <= CLEANUP_ATTEMPTS
    ensures record == before.(peerError := record.peerError, peerAttempts := record.peerAttempts,
                              recovered := before.recovered || (error == Ok && 1 < record.peerAttempts))
    ensures old(host.stopped) ==> host.stopped
    ensures host.patience <= old(host.patience)
  {
    hide Announcement, Calling, MonitorOf, HeardDone;
    record, error := before, ViciTimeout;
    var attempt, done := 0, false;
    while attempt < CLEANUP_ATTEMPTS && !done
      invariant 0 <= attempt <= CLEANUP_ATTEMPTS
      invariant Calling(host, cases) && Talked(old(host.log), host.log)
      invariant record.peerAttempts == attempt && (done <==> error == Ok)
      invariant done ==> 1 <= attempt && HeardDone(host.log, id)
      invariant record == before.(peerError := record.peerError, peerAttempts := attempt,
                                  recovered := before.recovered || (done && 1 < attempt))
      invariant old(host.stopped) ==> host.stopped
      invariant host.patience <= old(host.patience)
    {
      record := record.(peerAttempts := record.peerAttempts + 1);
      error := Say(host, text, cases);
      if error == Ok {
        var response: string;
        error, response := WaitResponse(host, "DONE", id, false, timeoutMs, cases);
      }
      if error == Ok {
        record := record.(recovered := record.recovered || 1 < record.peerAttempts);
        done := true;
      } else {
        record := record.(peerError := FirstError(record.peerError, error));
      }
      attempt := attempt + 1;
    }
  }

  /** `FinishNativeAppAlgorithmPeer`: ask for the cleanup until DONE, at most three times. */
  method FinishPeer(host: Host, c: Case, action: string, timeoutMs: nat, before: Cleanup, ghost cases: seq<Case>)
      returns (error: Error, record: Cleanup)
    requires Calling(host, cases) && Clean(c.id) && (action == "CLEANUP" || action == "ABORT")
    requires before.peerAttempts == 0
    modifies host`inputs, host`log, host`stopped, host`patience
    ensures Calling(host, cases) && Talked(old(host.log), host.log)
    ensures error == Ok ==> HeardDone(host.log, c.id) && 1 <= record.peerAttempts
    ensures record.peerAttempts <= CLEANUP_ATTEMPTS
    ensures record == before.(peerError := record.peerError, peerAttempts := record.peerAttempts,
                              recovered := before.recovered || (error == Ok && 1 < record.peerAttempts))
    ensures old(host.stopped) ==> host.stopped
    ensures host.patience <= old(host.patience)
  {
    var text: string;
    record := before;
    error, text := Format(action, c.id, "NONE", "0");
    if error != Ok {
      record := record.(peerError := error);
      return;
    }
    NoAnnouncement(action, c.id, "NONE", "0");
    hide Announcement, ControlText, Calling, MonitorOf, HeardDone;
    var share := timeoutMs / CLEANUP_ATTEMPTS;
    error, record := AskDone(host, c.id, text, if POLL_MS > share then POLL_MS else share, before, cases);
  }

  // ---------- One case

  /** Load the connection, start it, and look at what came up. */
  method Establish(host: Host, c: Case, first: Error, ghost cases: seq<Case>)
      returns (error: Error, r: Result, loaded: bool, started: bool)
    requires Calling(host, cases) && !MonitorOf(host.log).loaded
    modifies host`present, host`sa, host`log
    ensures Calling(host, cases) && Grew(old(host.log), host.log)
    ensures MonitorOf(host.log).loaded == loaded && (started ==> loaded)
    ensures first != Ok ==> error == first && !loaded
    ensures Chain(r) && !r.dataPathVerified && r.stage != Pass && r.cleanup == NO_CLEANUP
    ensures error == Ok ==> started && r.xfrmVerified && host.log == old(host.log) + [Load(c.id, true), Started(true)]
  {
    hide Announces, OfRun, Announcement, MonitorOf, Confirms, ClaimsPass, ClaimsDone;
    error, r, loaded, started := first, NO_RESULT, false, false;
    if error == Ok {
      error := *;                     // BuildNativeAppAlgorithmConfig
    } else {
      r := r.(stage := FailSync);
    }
    if error == Ok {
      error := host.LoadConnection(c.id);
      loaded := error == Ok;
      MonitorAppend(old(host.log), Load(c.id, loaded));
      AnnouncesMore(old(host.log), Load(c.id, loaded), cases);
    }
    if error == Ok {
      started := true;
      ghost var before := host.log;
      error := host.Start();
      MonitorAppend(before, Started(error == Ok));
      AnnouncesMore(before, Started(error == Ok), cases);
      if error != Ok {
        r := r.(stage := if c.expected.separateExchange then FailChild else FailIke);
      }
    }
    if started {
      ghost var o;
      var state: Error;
      state, r, o := QueryPhases(host, c, r);
      error := if error == Ok then state else error;
      var report: Error := *;         // CaptureNativeAppAlgorithmCaseReport
      if report != Ok && error == Ok {
        error, r := report, r.(stage := FailXfrm);
      }
    }
  }

  /** Ask the responder to verify, too. */
  method Confirm(host: Host, c: Case, timeoutMs: nat, first: Error, before: Result, ghost cases: seq<Case>)
      returns (error: Error, r: Result)
    requires Calling(host, cases) && Clean(c.id) && Chain(before) && before.stage != Pass && !before.dataPathVerified
    requires first == Ok ==> before.xfrmVerified
    modifies host`inputs, host`log, host`stopped, host`patience
    ensures Calling(host, cases) && Talked(old(host.log), host.log)
    ensures Chain(r) && r.cleanup == before.cleanup && r.reqid == before.reqid
    ensures first != Ok ==> error == first
    ensures error == Ok <==> r.stage == Pass
    ensures error == Ok ==> r.dataPathVerified && HeardPass(host.log, c.id) && !old(host.stopped)
    ensures old(host.stopped) ==> host.stopped
    ensures host.patience <= old(host.patience)
  {
    error, r := first, before;
    if error == Ok {
      var peerResult: string;
      error, peerResult := VerifyPeer(host, c, timeoutMs, cases);
      r := r.(peerResult := peerResult);
      if error != Ok {
        r := r.(stage := FailDataPath);
      } else if peerResult != "PASS" {
        r, error := r.(stage := FailDataPath), Internal;
      } else {
        r := r.(stage := Pass, dataPathVerified := true);
      }
    }
  }

  /** Clean up here, and have the responder clean up; either failure takes a pass back. */
  method Conclude(host: Host, c: Case, timeoutMs: nat, loaded: bool, started: bool, before: Result, ghost cases: seq<Case>)
      returns (r: Result)
    requires Calling(host, cases) && Clean(c.id) && MonitorOf(host.log).loaded == loaded
    requires Chain(before) && (before.error == Ok <==> before.stage == Pass) && before.cleanup == NO_CLEANUP
    requires before.stage == Pass ==> loaded && before.dataPathVerified
    modifies host
    ensures Calling(host, cases) && Grew(old(host.log), host.log) && !MonitorOf(host.log).loaded
    ensures Chain(r) && (r.error == Ok <==> r.stage == Pass)
    ensures r.stage == Pass ==> before.stage == Pass
    ensures r.stage == Pass ==>
              && r.dataPathVerified && r.cleanup.localVerified && !host.present && !host.sa
              && HeardDone(host.log, c.id)
    ensures old(host.stopped) ==> host.stopped
    ensures host.patience <= old(host.patience)
  {
    r := before;
    if loaded {
      var cleanup: Error, record: Cleanup;
      cleanup, record := CleanUp(host, c.id, r.reqid, started, timeoutMs);
      AnnouncesRest(old(host.log), host.log, cases);
      r := r.(cleanup := record, cleanupError := cleanup);
      if cleanup != Ok && r.error == Ok {
        r := r.(stage := FailCleanup, error := cleanup);
      }
    } else {
      r := r.(cleanup := r.cleanup.(localVerified := true));
    }
    var finish: Error, record: Cleanup;
    finish, record := FinishPeer(host, c, if loaded then "CLEANUP" else "ABORT", timeoutMs, r.cleanup, cases);
    r := r.(cleanup := record);
    if finish != Ok && r.cleanupError == Ok {
      r := r.(cleanupError := finish);
    }
    if finish != Ok && r.error == Ok {
      r := r.(stage := FailCleanup, error := finish, cleanupError := finish);
    }
  }

  lemma {:induction false} AnnouncesRest(before: seq<Entry>, after: seq<Entry>, cases: seq<Case>)
    requires Announces(before, cases) && Grew(before, after) && before != after
    requires OnlyRemovals(after[|before|..|after| - 1]) && after[|after| - 1].Cleaned?
    ensures Announces(after, cases)
  {
    hide Announcement, OfRun;
    var middle := after[|before|..|after| - 1];
    assert forall i :: |before| <= i < |after| - 1 ==> after[i] == middle[i - |before|];
  }

  /** `RunNativeAppAlgorithmCaseClient`.  A pass means that the responder said PASS for this case and said DONE,
      that all four phases were verified, and that neither connection nor SA is left here. */
  method RunCase(host: Host, c: Case, run: string, requested: nat, timeoutMs: nat, ghost cases: seq<Case>) returns (r: Result)
    requires Calling(host, cases) && !MonitorOf(host.log).loaded && c in cases && Clean(c.id) && Clean(run)
    modifies host
    ensures Calling(host, cases) && Grew(old(host.log), host.log) && !MonitorOf(host.log).loaded
    ensures Chain(r) && (r.error == Ok <==> r.stage == Pass)
    ensures r.stage == Pass ==>
              && r.dataPathVerified && r.cleanup.localVerified && !host.present && !host.sa
              && Heard(host.log, "READY", c.id) && HeardPass(host.log, c.id) && HeardDone(host.log, c.id)
    ensures old(host.stopped) ==> host.stopped
    ensures host.patience <= old(host.patience)
  {
    var error := PreparePeer(host, c, run, requested, timeoutMs, cases);
    ghost var prepared, stopped := host.log, host.stopped;
    var loaded: bool, started: bool;
    error, r, loaded, started := Establish(host, c, error, cases);
    error, r := Confirm(host, c, timeoutMs, error, r, cases);
    r := r.(error := error);
    ghost var confirmed := host.log;
    r := Conclude(host, c, timeoutMs, loaded, started, r, cases);
    HeardMore(prepared, host.log, "READY", c.id);
    HeardMore(confirmed, host.log, "RESULT", c.id);
  }

  // ---------- The run

  /** `FinishNativeAppAlgorithmRun`. */
  method FinishRun(host: Host, run: string, timeoutMs: nat, ghost cases: seq<Case>) returns (error: Error)
    requires Calling(host, cases) && Clean(run)
    modifies host`inputs, host`log, host`stopped, host`patience
    ensures Calling(host, cases) && Talked(old(host.log), host.log)
    ensures error == Ok ==> Heard(host.log, "FINISHED", run)
  {
    if |run| >= CASE_ID_LENGTH {
      return BufferTooSmall;
    }
    var text: string;
    error, text := Format("FINISH", run, "DONE", "0");
    NoAnnouncement("FINISH", run, "DONE", "0");
    hide Announcement, ControlText, Calling, MonitorOf, Heard;
    if error == Ok {
      error := Say(host, text, cases);
    }
    if error == Ok {
      var response: string;
      error, response := WaitResponse(host, "FINISHED", run, false, timeoutMs, cases);
    }
  }

  // Where the cases of a run come from: a table, or a limit on it.
  datatype Options = Options(start: nat, limit: nat, continueOnError: bool)

  function Requested(o: Options, total: nat): (n: nat)
    requires 1 <= o.start <= total
    ensures 1 <= n <= total - o.start + 1
    ensures o.limit == 0 || total - o.start + 1 <= o.limit ==> n == total - o.start + 1
    ensures 0 < o.limit <= total - o.start + 1 ==> n == o.limit
  {
    var available := total - o.start + 1;
    if o.limit == 0 then available else if o.limit < available then o.limit else available
  }

  /** What a passed case has left behind. */
  ghost predicate Passed(log: seq<Entry>, c: Case, r: Result) {
    && r.stage == Pass && r.error == Ok && Chain(r) && r.dataPathVerified && r.cleanup.localVerified
    && Heard(log, "READY", c.id) && HeardPass(log, c.id) && HeardDone(log, c.id)
  }

  lemma {:induction false} PassedMore(before: seq<Entry>, after: seq<Entry>, c: Case, r: Result)
    requires Passed(before, c, r) && Grew(before, after)
    ensures Passed(after, c, r)
  {
    HeardMore(before, after, "READY", c.id);
  }

  /** The requested cases from `start` on, with their results. */
  ghost predicate AllPassed(log: seq<Entry>, cases: seq<Case>, start: nat, results: seq<Result>) {
    && 1 <= start && start - 1 + |results| <= |cases|
    && forall i :: 0 <= i < |results| ==> Passed(log, cases[start - 1 + i], results[i])
  }

  lemma {:induction false} AllPassedMore(before: seq<Entry>, after: seq<Entry>, cases: seq<Case>, start: nat, results: seq<Result>)
    requires AllPassed(before, cases, start, results) && Grew(before, after)
    ensures AllPassed(after, cases, start, results)
  {
    forall i | 0 <= i < |results|
      ensures Passed(after, cases[start - 1 + i], results[i])
    {
      PassedMore(before, after, cases[start - 1 + i], results[i]);
    }
  }

  lemma {:induction false} OneMorePassed(before: seq<Entry>, after: seq<Entry>, cases: seq<Case>, start: nat, results: seq<Result>, r: Result)
    requires AllPassed(before, cases, start, results) && Grew(before, after) && start + |results| <= |cases|
    requires Passed(after, cases[start - 1 + |results|], r)
    ensures AllPassed(after, cases, start, results + [r])
  {
    AllPassedMore(before, after, cases, start, results);
  }

  /** One turn of the loop: take the case from the table, run it, and write its result. */
  method RunIndex(host: Host, cases: seq<Case>, index: nat, run: string, requested: nat, timeoutMs: nat)
      returns (error: Error, r: Result)
    requires Calling(host, cases) && !MonitorOf(host.log).loaded && index < |cases| && Clean(run)
    requires forall i :: 0 <= i < |cases| ==> Clean(cases[i].id)
    modifies host
    ensures Calling(host, cases) && Grew(old(host.log), host.log) && !MonitorOf(host.log).loaded
    ensures error == Ok ==> Passed(host.log, cases[index], r)
    ensures old(host.stopped) ==> host.stopped
    ensures host.patience <= old(host.patience)
  {
    r := NO_RESULT;
    error := *;                       // GetNativeAppAlgorithmCase, CreateNativeAppAlgorithmCaseReport
    if error == Ok {
      r := RunCase(host, cases[index], run, requested, timeoutMs, cases);
      error := r.error;
    }
    var written: bool := *;           // AppendNativeAppAlgorithmJson
    if !written {
      error := FileRead;
    }
  }

  lemma {:induction false} NonePassed(log: seq<Entry>, cases: seq<Case>, start: nat)
    requires 1 <= start && start - 1 <= |cases|
    ensures AllPassed(log, cases, start, [])
  {
  }

  /** The results after one more case; those behind the first error do not matter. */
  lemma {:induction false} NextPassed(before: seq<Entry>, after: seq<Entry>, cases: seq<Case>, start: nat, offset: nat,
                                      results: seq<Result>, first: Error, error: Error, r: Result) returns (more: seq<Result>)
    requires AllPassed(before, cases, start, results) && Grew(before, after) && start + offset <= |cases|
    requires |results| <= offset && (first == Ok ==> |results| == offset)
    requires error == Ok && 1 <= start ==> Passed(after, cases[start - 1 + offset], r)
    ensures AllPassed(after, cases, start, more) && |more| <= offset + 1
    ensures FirstError(first, error) == Ok ==> |more| == offset + 1
  {
    AllPassedMore(before, after, cases, start, results);
    more := results;
    if first == Ok && error == Ok {
      OneMorePassed(before, after, cases, start, results, r);
      more := results + [r];
    }
  }

  /** The loop over the requested cases.  The first error is kept. */
  method RunCases(host: Host, cases: seq<Case>, options: Options, requested: nat, run: string, timeoutMs: nat)
      returns (first: Error, stop: bool, ghost results: seq<Result>)
    requires Calling(host, cases) && !MonitorOf(host.log).loaded && Clean(run)
    requires forall i :: 0 <= i < |cases| ==> Clean(cases[i].id)
    requires 1 <= options.start && options.start - 1 + requested <= |cases|
    modifies host
    ensures Calling(host, cases) && Grew(old(host.log), host.log) && !MonitorOf(host.log).loaded
    ensures AllPassed(host.log, cases, options.start, results)
    ensures first == Ok && !stop ==> |results| == requested
  {
    hide AllPassed, Passed, Calling, MonitorOf, Clean;
    results, first := [], Ok;
    NonePassed(host.log, cases, options.start);
    var offset := 0;
    stop := host.StopRequested();
    while offset < requested && !stop
      invariant 0 <= offset <= requested && |results| <= offset
      invariant Calling(host, cases) && Grew(old(host.log), host.log) && !MonitorOf(host.log).loaded
      invariant AllPassed(host.log, cases, options.start, results)
      invariant first == Ok ==> |results| == offset
    {
      ghost var before := host.log;
      var error: Error, r: Result;
      error, r := RunIndex(host, cases, options.start - 1 + offset, run, requested, timeoutMs);
      results := NextPassed(before, host.log, cases, options.start, offset, results, first, error, r);
      first := FirstError(first, error);
      if error != Ok && !options.continueOnError {
        break;
      }
      offset := offset + 1;
      stop := host.StopRequested();
    }
  }

  /** `RunNativeAppAlgorithmClient` once its files and its socket are open.  A run without an error executed every
      requested case, each one passed, and the responder confirmed the end. */
  method RunClient(host: Host, cases: seq<Case>, options: Options, run: string, timeoutMs: nat)
      returns (error: Error, ghost results: seq<Result>)
    requires Calling(host, cases) && !MonitorOf(host.log).loaded && Clean(run)
    requires forall i :: 0 <= i < |cases| ==> Clean(cases[i].id)
    modifies host
    ensures !(1 <= options.start <= |cases|) ==> error == InvalidArgument
    ensures Calling(host, cases) && Grew(old(host.log), host.log) && !MonitorOf(host.log).loaded
    ensures error == Ok ==>
              && 1 <= options.start <= |cases| && |results| == Requested(options, |cases|)
              && AllPassed(host.log, cases, options.start, results)
              && Heard(host.log, "FINISHED", run)
  {
    hide AllPassed, Passed, Calling, MonitorOf;
    results := [];
    if |cases| == 0 || options.start == 0 || |cases| < options.start {
      return InvalidArgument, [];
    }
    var requested := Requested(options, |cases|);
    var first: Error, stop: bool;
    first, stop, results := RunCases(host, cases, options, requested, run, timeoutMs);
    if !stop {
      stop := host.StopRequested();
    }
    if stop && first == Ok {
      first := Internal;
    }
    ghost var before := host.log;
    var finish := FinishRun(host, run, timeoutMs, cases);
    AllPassedMore(before, host.log, cases, options.start, results);
    error := FirstError(first, finish);
  }
}
