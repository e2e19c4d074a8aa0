/** What both sides of the algorithm test share: a case, its result, the state query, the cleanup, and the
    discipline that a machine's history must keep. */
module Algorithm {
  import opened Core
  import opened Host
  import opened AlgorithmMessages
  import Lifecycle
  import Proposals
  import SaCollector
  import Text

  const CLEANUP_ATTEMPTS: nat := 3
  const CLEANUP_WAIT_MS: nat := 5000
  const POLL_MS: nat := 500
  const CASE_ID_LENGTH: nat := 64
  const RESULT_LENGTH: nat := 128

  datatype Case = Case(id: string, ike: string, esp: string, number: nat, expected: Proposals.Expected)

  datatype Stage = Pass | FailConfig | FailSync | FailIke | FailChild | FailProposal | FailPfs | FailEsn
    | FailXfrm | FailDataPath | FailCleanup | Stopped

  /** `GetNativeAppAlgorithmResultName`. */
  function StageName(stage: Stage): (name: string)
    ensures name == "PASS" <==> stage == Pass
    ensures Clean(name) && Safe(name) && |name| <= 14
  {
    match stage
    case Pass => "PASS"
    case FailConfig => "FAIL_CONFIG"
    case FailSync => "FAIL_SYNC"
    case FailIke => "FAIL_IKE"
    case FailChild => "FAIL_CHILD"
    case FailProposal => "FAIL_PROPOSAL"
    case FailPfs => "FAIL_PFS"
    case FailEsn => "FAIL_ESN"
    case FailXfrm => "FAIL_XFRM"
    case FailDataPath => "FAIL_DATA_PATH"
    case FailCleanup => "FAIL_CLEANUP"
    case Stopped => "STOPPED"
  }

  datatype Cleanup = Cleanup(
    terminateError: Error, waitError: Error, removeError: Error, finalError: Error, peerError: Error,
    terminateAttempts: nat, waitAttempts: nat, removeAttempts: nat, peerAttempts: nat,
    recovered: bool, localVerified: bool)

  const NO_CLEANUP := Cleanup(Ok, Ok, Ok, Ok, Ok, 0, 0, 0, 0, false, false)

  datatype Result = Result(
    stage: Stage, error: Error, cleanupError: Error, cleanup: Cleanup,
    reqid: nat, states: nat, policies: nat,
    negotiatedIke: string, negotiatedEsp: string, peerResult: string,
    ikeVerified: bool, espVerified: bool, xfrmVerified: bool, dataPathVerified: bool)

  const NO_RESULT := Result(FailConfig, Ok, Ok, NO_CLEANUP, 0, 0, 0, [], [], [], false, false, false, false)

  /** Each verified phase rests on the one before it. */
  predicate Chain(r: Result) {
    && (r.dataPathVerified ==> r.xfrmVerified)
    && (r.xfrmVerified ==> r.espVerified)
    && (r.espVerified ==> r.ikeVerified)
  }

  // ---------- The discipline of a history

  // What a history amounts to so far.  `paired`: every successful load was followed by exactly one cleanup before
  // the next load.  `backed`: every RESULT that says PASS rests on a successful query of that case, every DONE on
  // a verified cleanup of that case with nothing loaded since, and every query on an announcement.
  datatype Monitor = Monitor(
    paired: bool, backed: bool, loaded: bool, cleaned: string,
    query: Option<(string, string, string)>,
    announced: set<(string, string, string)>, confirmed: set<(string, string, string)>, done: set<string>)

  const FRESH := Monitor(true, true, false, [], None, {}, {}, {})

  function Announcement(text: string): Option<(string, string, string)> {
    var f := Tokens(text);
    if |f| >= 5 && f[1] == "PREPARE" then Some((f[2], f[3], f[4])) else None
  }

  /** The case a message claims to have passed. */
  function ClaimsPass(text: string): Option<string> {
    var f := Tokens(text);
    if |f| >= 4 && f[1] == "RESULT" && f[3] == "PASS" then Some(f[2]) else None
  }

  /** The case a message claims to have been cleaned up. */
  function ClaimsDone(text: string): Option<string> {
    var f := Tokens(text);
    if |f| >= 3 && f[1] == "DONE" then Some(f[2]) else None
  }

  function Watch(m: Monitor, e: Entry): Monitor {
    match e
    case Load(_, ok) => m.(paired := m.paired && !m.loaded, loaded := ok, cleaned := [])
    case Cleaned(id, verified) =>
      m.(paired := m.paired && m.loaded, loaded := false, cleaned := if verified then id else [],
         done := if verified then m.done + {id} else m.done)
    case Queried(id, ike, esp, ok) =>
      m.(backed := m.backed && (id, ike, esp) in m.announced,
         query := if ok then Some((id, ike, esp)) else None,
         confirmed := if ok then m.confirmed + {(id, ike, esp)} else m.confirmed)
    case Received(text) =>
      if Announcement(text).Some? then m.(announced := m.announced + {Announcement(text).value}) else m
    case Sent(text, quiet) =>
      m.(backed := m.backed
                   && (ClaimsPass(text).Some? ==> m.query.Some? && m.query.value.0 == ClaimsPass(text).value)
                   && (ClaimsDone(text).Some? ==> quiet && m.cleaned != [] && m.cleaned == ClaimsDone(text).value))
    case _ => m
  }

  function MonitorOf(log: seq<Entry>): Monitor {
    if log == [] then FRESH else Watch(MonitorOf(log[..|log| - 1]), log[|log| - 1])
  }

  lemma {:induction false} MonitorAppend(log: seq<Entry>, e: Entry)
    ensures MonitorOf(log + [e]) == Watch(MonitorOf(log), e)
  {
    assert (log + [e])[..|log|] == log;
  }

  /** Between two steps of either machine: loads and cleanups pair up, and what is known to be clean is clean. */
  ghost predicate Steady(host: Host)
    reads host`log, host`present, host`sa
  {
    var m := MonitorOf(host.log);
    m.paired && (m.cleaned != [] ==> !host.present && !host.sa)
  }

  /** Between two steps of the responder: its replies were true, too. */
  ghost predicate Sound(host: Host)
    reads host`log, host`present, host`sa
  {
    Steady(host) && MonitorOf(host.log).backed
  }

  /** A history that only grew. */
  predicate Grew(before: seq<Entry>, after: seq<Entry>) {
    before <= after
  }

  // ---------- `QueryNativeAppAlgorithmState`

  /** An established IKE and an installed CHILD with the expected key exchange and sequence numbers. */
  predicate SeesSas(o: Observed, c: Case, r: Result) {
    && o.error == Ok
    && (exists i :: 0 <= i < |o.ikes| && Lifecycle.FirstIke(o, i) && CText(o.ikes[i].proposal) == r.negotiatedIke)
    && r.negotiatedIke != []
    && (exists i :: 0 <= i < |o.children| && Lifecycle.FirstChild(o, i)
                    && CText(o.children[i].proposal) == r.negotiatedEsp && o.children[i].reqid == r.reqid
                    && (c.expected.esn ==> o.children[i].esn) && (c.expected.noEsn ==> !o.children[i].esn))
    && r.negotiatedEsp != []
    && (c.expected.separateExchange ==> Text.Strstr(r.negotiatedEsp, c.expected.childKe, 0).Some?)
  }

  /** What a successful query has seen.  States and policies are counted over all queries of the case. */
  predicate Confirms(o: Observed, c: Case, before: Result, r: Result) {
    && SeesSas(o, c, r)
    && r.reqid != 0
    && r.states == before.states + Lifecycle.CountOf(r.reqid, o.states) && r.states != 0
    && r.policies == before.policies + Lifecycle.CountOf(r.reqid, o.policies) && r.policies != 0
  }

  /** Only the stage, the two proposals, the request id and the two first phases differ. */
  predicate SameRest(before: Result, r: Result) {
    r == before.(stage := r.stage, ikeVerified := r.ikeVerified, espVerified := r.espVerified, reqid := r.reqid,
                 negotiatedIke := r.negotiatedIke, negotiatedEsp := r.negotiatedEsp)
  }

  /** The SAs that the loops found, and what was copied from them. */
  predicate Copied(o: Observed, ike: nat, child: nat, before: Result, r: Result) {
    && o.error == Ok
    && (if ike == |o.ikes| then r.negotiatedIke == before.negotiatedIke && r.ikeVerified == before.ikeVerified
        else Lifecycle.FirstIke(o, ike) && r.negotiatedIke == CText(o.ikes[ike].proposal)
             && (r.negotiatedIke != [] ==> r.ikeVerified))
    && (if child == |o.children| then r.negotiatedEsp == before.negotiatedEsp && r.reqid == before.reqid
        else Lifecycle.FirstChild(o, child) && r.negotiatedEsp == CText(o.children[child].proposal)
             && r.reqid == o.children[child].reqid)
  }

  /** Find the two SAs and copy their proposals. */
  method CopySas(o: Observed, before: Result) returns (error: Error, r: Result, ike: nat, child: nat)
    requires Chain(before)
    ensures r.stage == FailXfrm && Chain(r) && SameRest(before, r) && r.espVerified == before.espVerified
    ensures error == Ok ==> Copied(o, ike, child, before, r)
  {
    r := before.(stage := FailXfrm);
    error := o.error;
    ike, child := |o.ikes|, |o.children|;
    if error == Ok {
      ike := Lifecycle.FindIke(o.ikes);
      child := Lifecycle.FindChild(o.children);
    }
    if error == Ok && ike < |o.ikes| {
      var (text, copied) := CopyText(PROPOSAL_LENGTH, o.ikes[ike].proposal);
      CopiedText(PROPOSAL_LENGTH, o.ikes[ike].proposal);
      r, error := r.(negotiatedIke := text), copied;
      if error == Ok && r.negotiatedIke != [] {
        r := r.(ikeVerified := true);
      }
    }
    if error == Ok && child < |o.children| {
      var (text, copied) := CopyText(PROPOSAL_LENGTH, o.children[child].proposal);
      CopiedText(PROPOSAL_LENGTH, o.children[child].proposal);
      r, error := r.(reqid := o.children[child].reqid, negotiatedEsp := text), copied;
    }
  }

  lemma {:induction false} CopiedText(capacity: nat, source: Bytes)
    requires 0 < capacity
    ensures CopyText(capacity, source).1 == Ok ==> CopyText(capacity, source).0 == CText(source)
  {
  }

  /** The part of the query that reads the two SA lists. */
  method ReadSas(o: Observed, c: Case, before: Result) returns (error: Error, r: Result)
    requires Chain(before)
    ensures r.stage != Pass && Chain(r) && SameRest(before, r)
    ensures error == Ok ==> r.ikeVerified && r.espVerified && SeesSas(o, c, r)
  {
    var ike: nat, child: nat;
    error, r, ike, child := CopySas(o, before);
    if error == Ok && ike == |o.ikes| {
      r, error := r.(stage := FailIke), IkeFailed;
    } else if error == Ok && r.negotiatedIke == [] {
      r, error := r.(stage := FailProposal), ViciProtocol;
    } else if error == Ok && child == |o.children| {
      r, error := r.(stage := FailChild), ChildFailed;
    } else if error == Ok && r.negotiatedEsp == [] {
      r, error := r.(stage := FailProposal), ViciProtocol;
    }
    if error == Ok && c.expected.separateExchange && Text.Strstr(r.negotiatedEsp, c.expected.childKe, 0).None? {
      r, error := r.(stage := FailPfs), ChildFailed;
    }
    if error == Ok && ((c.expected.esn && !o.children[child].esn) || (c.expected.noEsn && o.children[child].esn)) {
      r, error := r.(stage := FailEsn), ChildFailed;
    }
    if error == Ok && r.negotiatedEsp != [] {
      r := r.(espVerified := true);
    }
  }

  /** `QueryNativeAppAlgorithmState`.  The phases stay a chain; a success confirms the case. */
  method QueryState(host: Host, c: Case, before: Result) returns (error: Error, r: Result, ghost o: Observed)
    requires Chain(before) && Sound(host)
    requires (c.id, c.ike, c.esp) in MonitorOf(host.log).announced
    modifies host`sa, host`log
    ensures Sound(host) && host.log == old(host.log) + [Queried(c.id, c.ike, c.esp, error == Ok)]
    ensures Chain(r) && r.stage != Pass && r.cleanup == before.cleanup && r.dataPathVerified == before.dataPathVerified
    ensures error == Ok ==> r.ikeVerified && r.espVerified && r.xfrmVerified && Confirms(o, c, before, r)
  {
    error, r, o := QueryPhases(host, c, before);
    MonitorAppend(host.log, Queried(c.id, c.ike, c.esp, error == Ok));
    host.log := host.log + [Queried(c.id, c.ike, c.esp, error == Ok)];
  }

  method QueryPhases(host: Host, c: Case, before: Result) returns (error: Error, r: Result, ghost o: Observed)
    requires Chain(before)
    modifies host`sa
    ensures host.Drifted(host.present, old(host.sa), host.sa)
    ensures Chain(r) && r.stage != Pass && r.cleanup == before.cleanup && r.dataPathVerified == before.dataPathVerified
    ensures error == Ok ==> r.ikeVerified && r.espVerified && r.xfrmVerified && Confirms(o, c, before, r)
  {
    var seen := host.Query();
    o := seen;
    error, r := ReadSas(seen, c, before);
    if error == Ok {
      var states := Lifecycle.CountIds(r.reqid, seen.states, r.states);
      var policies := Lifecycle.CountIds(r.reqid, seen.policies, r.policies);
      r := r.(states := states, policies := policies);
      if r.reqid == 0 || r.states == 0 || r.policies == 0 {
        r, error := r.(stage := FailXfrm), Internal;
      } else {
        r := r.(xfrmVerified := true);
      }
    }
  }

  /** Every success of a query that goes on from this result shows states and policies of the request id itself. */
  ghost predicate SeesItsOwn(before: Result) {
    forall o, c, r :: Confirms(o, c, before, r) ==> r.reqid in o.states && r.reqid in o.policies
  }

  const OLD_IKE := SaCollector.NewIke(CONNECTION).(established := true, proposal := "i")
  const OLD_CHILD := SaCollector.NewChild(CONNECTION, CHILD).(state := "INSTALLED", proposal := "e", reqid := 1)
  const ANY_CASE := Case("a", "i", "e", 1, Proposals.Expected([], false, false, false))

  /** The SAs are there, and states and policies if they have not been counted before. */
  function Round(before: Result): Observed {
    Observed(Ok, [OLD_IKE], [OLD_CHILD], if before.states == 0 then [1] else [], if before.policies == 0 then [1] else [])
  }

  lemma {:induction false} RoundConfirms(before: Result) returns (r: Result)
    ensures r.reqid == 1 && Confirms(Round(before), ANY_CASE, before, r)
  {
    var o := Round(before);
    r := before.(negotiatedIke := "i", negotiatedEsp := "e", reqid := 1,
                     states := before.states + Lifecycle.CountOf(1, o.states),
                     policies := before.policies + Lifecycle.CountOf(1, o.policies));
    assert CText("i") == "i" && CText("e") == "e";
    assert Lifecycle.FirstIke(o, 0) && CText(o.ikes[0].proposal) == r.negotiatedIke;
    assert Lifecycle.FirstChild(o, 0) && CText(o.children[0].proposal) == r.negotiatedEsp;
    assert SeesSas(o, ANY_CASE, r);
    assert Confirms(o, ANY_CASE, before, r);
  }

  /** The counts of a case are never set back, so a success need not have seen a state or a policy in its own round;
      it has exactly if nothing had been counted before. */
  lemma {:induction false} SeesItsOwnIffFirst(before: Result)
    ensures SeesItsOwn(before) <==> before.states == 0 && before.policies == 0
  {
    if before.states != 0 || before.policies != 0 {
      var r := RoundConfirms(before);
      assert !(1 in Round(before).states && 1 in Round(before).policies);
    }
  }

  // ---------- `CleanupNativeAppAlgorithmCase`

  /** The first error of a stage is kept. */
  function FirstError(recorded: Error, error: Error): Error {
    if recorded == Ok then error else recorded
  }

  function CleanupWait(timeoutMs: nat): (wait: nat)
    ensures 1 <= wait <= CLEANUP_WAIT_MS
  {
    if timeoutMs == 0 || CLEANUP_WAIT_MS < timeoutMs then CLEANUP_WAIT_MS else timeoutMs
  }

  /** The first loop: terminate and wait until the SAs are gone, at most three times. */
  method RemoveSas(host: Host, reqid: nat, terminate: bool, timeoutMs: nat) returns (record: Cleanup, ghost calls: seq<Entry>)
    modifies host`sa, host`stopped, host`patience, host`log
    ensures host.log == old(host.log) + calls && |calls| == record.terminateAttempts
    ensures forall i :: 0 <= i < |calls| ==> calls[i].Terminated?
    ensures host.Drifted(host.present, old(host.sa), host.sa)
    ensures old(host.stopped) ==> host.stopped
    ensures host.patience <= old(host.patience)
    ensures 1 <= record.waitAttempts <= CLEANUP_ATTEMPTS
    ensures record.terminateAttempts == if terminate then record.waitAttempts else 0
    ensures record == NO_CLEANUP.(terminateError := record.terminateError, waitError := record.waitError,
                                  terminateAttempts := record.terminateAttempts, waitAttempts := record.waitAttempts)
  {
    record, calls := NO_CLEANUP, [];
    var wait := CleanupWait(timeoutMs);
    var removed := false;
    var attempt := 0;
    while attempt < CLEANUP_ATTEMPTS && !removed
      invariant 0 <= attempt <= CLEANUP_ATTEMPTS
      invariant removed ==> 0 < attempt
      invariant host.log == old(host.log) + calls && |calls| == record.terminateAttempts
      invariant forall i :: 0 <= i < |calls| ==> calls[i].Terminated?
      invariant record.waitAttempts == attempt && record.terminateAttempts == if terminate then attempt else 0
      invariant record == NO_CLEANUP.(terminateError := record.terminateError, waitError := record.waitError,
                                      terminateAttempts := record.terminateAttempts, waitAttempts := record.waitAttempts)
      invariant host.Drifted(host.present, old(host.sa), host.sa)
      invariant old(host.stopped) ==> host.stopped
      invariant host.patience <= old(host.patience)
    {
      if terminate {
        record := record.(terminateAttempts := record.terminateAttempts + 1);
        var ended := host.Terminate();
        calls := calls + [Terminated(ended == Ok)];
        if ended != ConnectionNotFound && ended != IkeFailed {
          record := record.(terminateError := FirstError(record.terminateError, ended));
        }
      }
      record := record.(waitAttempts := record.waitAttempts + 1);
      ghost var rounds, last;
      var error: Error;
      error, rounds, last := Lifecycle.WaitRemoved(host, reqid, wait);
      if error == Ok {
        removed := true;
      } else {
        record := record.(waitError := FirstError(record.waitError, error));
      }
      attempt := attempt + 1;
    }
  }

  /** The calls of a cleanup, which the discipline does not look at one by one. */
  predicate OnlyRemovals(es: seq<Entry>) {
    forall i :: 0 <= i < |es| ==> es[i].Unload? || es[i].Terminated?
  }

  lemma {:induction false} RemovalsUnwatched(log: seq<Entry>, es: seq<Entry>)
    requires OnlyRemovals(es)
    ensures MonitorOf(log + es) == MonitorOf(log)
  {
    if es == [] {
      assert log + es == log;
    } else {
      var n := |es| - 1;
      RemovalsUnwatched(log, es[..n]);
      assert log + es == (log + es[..n]) + [es[n]];
      MonitorAppend(log + es[..n], es[n]);
    }
  }

  /** The second loop: remove the connection, at most three times. */
  method RemoveConnection(host: Host, before: Cleanup) returns (record: Cleanup, ghost calls: seq<Entry>)
    modifies host`present, host`sa, host`log
    ensures host.log == old(host.log) + calls && |calls| == record.removeAttempts - before.removeAttempts
    ensures forall i :: 0 <= i < |calls| ==> calls[i].Unload?
    ensures !old(host.present) ==> !host.present
    ensures host.Drifted(old(host.present), old(host.sa), host.sa)
    ensures 1 <= record.removeAttempts - before.removeAttempts <= CLEANUP_ATTEMPTS
    ensures record == before.(removeError := record.removeError, removeAttempts := record.removeAttempts)
  {
    record, calls := before, [];
    var removed := false;
    var attempt := 0;
    while attempt < CLEANUP_ATTEMPTS && !removed
      invariant 0 <= attempt <= CLEANUP_ATTEMPTS
      invariant removed ==> 0 < attempt
      invariant record.removeAttempts == before.removeAttempts + attempt && |calls| == attempt
      invariant record == before.(removeError := record.removeError, removeAttempts := record.removeAttempts)
      invariant host.log == old(host.log) + calls
      invariant forall i :: 0 <= i < |calls| ==> calls[i].Unload?
      invariant !old(host.present) ==> !host.present
      invariant host.Drifted(old(host.present), old(host.sa), host.sa)
    {
      record := record.(removeAttempts := record.removeAttempts + 1);
      var error := host.UnloadConnection();
      calls := calls + [Unload(error == Ok)];
      if error == Ok || error == ConnectionNotFound {
        removed := true;
      } else {
        record := record.(removeError := FirstError(record.removeError, error));
        error, removed := host.ConnectionAbsent();
      }
      attempt := attempt + 1;
    }
  }

  /** The terminal verification: no SA, and then no connection. */
  method VerifyClean(host: Host, reqid: nat, before: Cleanup) returns (error: Error, record: Cleanup)
    modifies host`sa, host`stopped, host`patience
    ensures error == Ok ==> !host.present && !host.sa
    ensures host.Drifted(host.present, old(host.sa), host.sa)
    ensures old(host.stopped) ==> host.stopped
    ensures host.patience <= old(host.patience)
    ensures record == before.(finalError := FirstError(before.finalError, error))
  {
    ghost var rounds, last;
    error, rounds, last := Lifecycle.WaitRemoved(host, reqid, 0);
    record := before.(finalError := FirstError(before.finalError, error));
    var queried, removed := host.ConnectionAbsent();
    if queried != Ok {
      record := record.(finalError := FirstError(record.finalError, queried));
      error := FirstError(error, queried);
    } else if !removed {
      record := record.(finalError := FirstError(record.finalError, ViciTimeout));
      error := FirstError(error, ViciTimeout);
    }
  }

  /** What a cleanup record says: the attempts fit together, and an unrecovered success needed one of each. */
  predicate Accounted(record: Cleanup, error: Error, terminate: bool) {
    && (record.localVerified <==> error == Ok)
    && 1 <= record.waitAttempts <= CLEANUP_ATTEMPTS && 1 <= record.removeAttempts <= CLEANUP_ATTEMPTS
    && record.terminateAttempts == (if terminate then record.waitAttempts else 0)
    && (error == Ok && !record.recovered ==>
          && record.terminateError == Ok && record.waitError == Ok && record.removeError == Ok
          && record.waitAttempts == 1 && record.removeAttempts == 1)
    && record.peerError == Ok && record.peerAttempts == 0
  }

  /** The three stages of a cleanup. */
  method CleanUpStages(host: Host, reqid: nat, terminate: bool, timeoutMs: nat)
      returns (error: Error, record: Cleanup, ghost calls: seq<Entry>)
    modifies host`present, host`sa, host`stopped, host`patience, host`log
    ensures host.log == old(host.log) + calls && OnlyRemovals(calls)
    ensures |calls| == record.terminateAttempts + record.removeAttempts
    ensures Accounted(record, error, terminate)
    ensures error == Ok ==> !host.present && !host.sa
    ensures !old(host.present) && !old(host.sa) ==> !host.present && !host.sa
    ensures old(host.stopped) ==> host.stopped
    ensures host.patience <= old(host.patience)
  {
    ghost var terminations: seq<Entry>, removals: seq<Entry>;
    record, terminations := RemoveSas(host, reqid, terminate, timeoutMs);
    record, removals := RemoveConnection(host, record);
    calls := terminations + removals;
    error, record := VerifyClean(host, reqid, record);
    if error == Ok {
      record := record.(localVerified := true,
                        recovered := record.terminateError != Ok || record.waitError != Ok || record.removeError != Ok
                                     || 1 < record.terminateAttempts || 1 < record.waitAttempts || 1 < record.removeAttempts);
    }
  }

  /** `CleanupNativeAppAlgorithmCase`.  It succeeds only when neither the connection nor an SA is left; an
      unrecovered success needed one attempt of everything. */
  method CleanUp(host: Host, id: string, reqid: nat, terminate: bool, timeoutMs: nat) returns (error: Error, record: Cleanup)
    requires Steady(host) && MonitorOf(host.log).loaded && id != []
    modifies host`present, host`sa, host`stopped, host`patience, host`log
    ensures Steady(host) && Grew(old(host.log), host.log)
    ensures MonitorOf(host.log) == Watch(MonitorOf(old(host.log)), Cleaned(id, error == Ok))
    ensures Accounted(record, error, terminate)
    ensures error == Ok ==> !host.present && !host.sa
    ensures host.log[|host.log| - 1] == Cleaned(id, error == Ok)
    ensures |host.log| == |old(host.log)| + record.terminateAttempts + record.removeAttempts + 1
    ensures OnlyRemovals(host.log[|old(host.log)|..|host.log| - 1])
    ensures old(host.stopped) ==> host.stopped
    ensures host.patience <= old(host.patience)
  {
    ghost var before := host.log;
    ghost var calls: seq<Entry>;
    error, record, calls := CleanUpStages(host, reqid, terminate, timeoutMs);
    RemovalsUnwatched(before, calls);
    MonitorAppend(before + calls, Cleaned(id, error == Ok));
    host.log := host.log + [Cleaned(id, error == Ok)];
    assert host.log[|before|..|host.log| - 1] == calls;
  }
}
