/** The lifecycle loop: load, start, verify, terminate, wait until everything is gone, unload. */
module Lifecycle {
  import opened Core
  import opened Host
  import SaCollector

  const STEP_MS: nat := 100
  const WIDTH: nat := 0x1_0000_0000

  /** The lists show anything of the test connection, or a state or policy of its request id. */
  predicate Matching(o: Observed, reqid: nat) {
    Shows(o) || (reqid != 0 && (reqid in o.states || reqid in o.policies))
  }

  /** The loops of one round that look for anything left. */
  method AnythingLeft(o: Observed, reqid: nat) returns (found: bool)
    ensures found <==> Matching(o, reqid)
  {
    found := false;
    for i := 0 to |o.ikes|
      invariant found <==> exists j :: 0 <= j < i && o.ikes[j].name == CONNECTION
    {
      found := found || o.ikes[i].name == CONNECTION;
    }
    ghost var ikes := found;
    for i := 0 to |o.children|
      invariant found <==> ikes || exists j :: 0 <= j < i && o.children[j].name == CHILD
    {
      found := found || o.children[i].name == CHILD;
    }
    ghost var sas := found;
    for i := 0 to |o.states|
      invariant found <==> sas || (reqid != 0 && reqid in o.states[..i])
    {
      found := found || (reqid != 0 && reqid == o.states[i]);
    }
    for i := 0 to |o.policies|
      invariant found <==> sas || (reqid != 0 && (reqid in o.states || reqid in o.policies[..i]))
    {
      found := found || (reqid != 0 && reqid == o.policies[i]);
    }
  }

  /** `WaitNativeAppRemovedWithTimeout`, with its 32 bit counter. */
  method WaitRemoved(host: Host, reqid: nat, timeoutMs: nat) returns (error: Error, ghost rounds: nat, ghost last: Option<Observed>)
    requires timeoutMs <= U32_MAX
    modifies host`sa, host`stopped, host`patience
    ensures error == Ok ==> last.Some? && last.value.error == Ok && !Matching(last.value, reqid) && !host.sa
    ensures error == ViciTimeout || error == Ok || (last.Some? && error == last.value.error)
    ensures timeoutMs < WIDTH - WIDTH % STEP_MS ==> rounds <= timeoutMs / STEP_MS + 1
    ensures old(host.stopped) ==> error == ViciTimeout
    ensures old(host.stopped) ==> host.stopped
    ensures host.patience <= old(host.patience)
    ensures host.Drifted(host.present, old(host.sa), host.sa)
  {
    var elapsed := 0;
    rounds, last := 0, None;
    var stop := host.StopRequested();
    while elapsed <= timeoutMs && !stop
      invariant 0 <= elapsed < WIDTH
      invariant elapsed == Elapsed(rounds)
      invariant timeoutMs < WIDTH - WIDTH % STEP_MS ==> elapsed == STEP_MS * rounds && rounds <= timeoutMs / STEP_MS + 1
      invariant host.Drifted(host.present, old(host.sa), host.sa)
      invariant stop == host.stopped && (old(host.stopped) ==> stop)
      invariant host.patience <= old(host.patience)
      decreases host.patience, !stop
    {
      var o := host.Query();
      rounds, last := rounds + 1, Some(o);
      var found := AnythingLeft(o, reqid);
      if o.error != Ok {
        error := o.error;
        return;
      } else if !found {
        error := Ok;
        return;
      }
      elapsed := (elapsed + STEP_MS) % WIDTH;
      stop := host.StopRequested();
    }
    error := ViciTimeout;
  }

  // ---------- The counter

  /** The counter after this many rounds. */
  function Elapsed(rounds: nat): (e: nat)
    ensures e < WIDTH
  {
    if rounds == 0 then 0 else (Elapsed(rounds - 1) + STEP_MS) % WIDTH
  }

  /** How often the counter has wrapped around. */
  lemma {:induction false} ElapsedTurns(rounds: nat) returns (turns: nat)
    ensures STEP_MS * rounds == WIDTH * turns + Elapsed(rounds)
  {
    if rounds == 0 {
      turns := 0;
    } else {
      var before := ElapsedTurns(rounds - 1);
      turns := if Elapsed(rounds - 1) + STEP_MS < WIDTH then before else before + 1;
    }
  }

  lemma {:induction false} ElapsedAt(rounds: nat, turns: nat, rest: nat)
    requires STEP_MS * rounds == WIDTH * turns + rest && rest < WIDTH
    ensures Elapsed(rounds) == rest
  {
    hide Elapsed;
    var wraps := ElapsedTurns(rounds);
    assert WIDTH * (turns - wraps) == Elapsed(rounds) - rest;
  }

  /** The counter takes the multiples of four below 2^32, so against a daemon that never lets go the wait runs
      out for every timeout below the largest of them, and never for the others. */
  lemma {:induction false} EndsIffBelowLargestStep(timeoutMs: nat)
    requires timeoutMs <= U32_MAX
    ensures (exists rounds: nat :: Elapsed(rounds) > timeoutMs) <==> timeoutMs < 0xFFFF_FFFC
  {
    assert STEP_MS * 1030792151 == WIDTH * 23 + 0xFFFF_FFFC;
    var largest: nat :| STEP_MS * largest == WIDTH * 23 + 0xFFFF_FFFC;
    ElapsedAt(largest, 23, 0xFFFF_FFFC);
    if rounds: nat :| Elapsed(rounds) > timeoutMs {
      ElapsedByFour(rounds);
    }
  }

  lemma {:induction false} ElapsedByFour(rounds: nat)
    ensures Elapsed(rounds) % 4 == 0 && Elapsed(rounds) <= 0xFFFF_FFFC
  {
    if rounds != 0 {
      ElapsedByFour(rounds - 1);
    }
  }

  /** The `command_timeout_sec` setting: the wait on any timeout it can store ends before its counter wraps. */
  method StoreTimeout(text: string, stored: nat) returns (accepted: bool, timeoutMs: nat)
    requires stored <= 4294967000
    ensures timeoutMs <= 4294967000 && timeoutMs < WIDTH - WIDTH % STEP_MS
    ensures accepted <==> WholeUint32(text).Some? && WholeUint32(text).value * 1000 <= U32_MAX
    ensures timeoutMs == if accepted then WholeUint32(text).value * 1000 else stored
  {
    timeoutMs := stored;
    var seconds := WholeUint32(text);
    accepted := seconds.Some? && seconds.value <= U32_MAX / 1000;
    if accepted {
      timeoutMs := seconds.value * 1000;
    }
  }

  // ---------- One iteration and the loop

  datatype LoopOptions = LoopOptions(count: nat, continueOnError: bool, clearCredentials: bool)

  // ---------- Looking for the test connection in a round of queries

  predicate IsIke(ike: SaCollector.Ike) {
    ike.name == CONNECTION && ike.established
  }

  predicate IsChild(child: SaCollector.Child) {
    child.name == CHILD && child.state == "INSTALLED"
  }

  /** The first established IKE of the test connection, or the end of the list. */
  method FindIke(ikes: seq<SaCollector.Ike>) returns (i: nat)
    ensures i <= |ikes| && (i < |ikes| ==> IsIke(ikes[i]))
    ensures forall j :: 0 <= j < i ==> !IsIke(ikes[j])
  {
    i := 0;
    while i < |ikes| && !(ikes[i].name == CONNECTION && ikes[i].established)
      invariant 0 <= i <= |ikes|
      invariant forall j :: 0 <= j < i ==> !IsIke(ikes[j])
    {
      i := i + 1;
    }
  }

  /** The first installed CHILD of the test connection, or the end of the list. */
  method FindChild(children: seq<SaCollector.Child>) returns (i: nat)
    ensures i <= |children| && (i < |children| ==> IsChild(children[i]))
    ensures forall j :: 0 <= j < i ==> !IsChild(children[j])
  {
    i := 0;
    while i < |children| && !(children[i].name == CHILD && children[i].state == "INSTALLED")
      invariant 0 <= i <= |children|
      invariant forall j :: 0 <= j < i ==> !IsChild(children[j])
    {
      i := i + 1;
    }
  }

  function CountOf(reqid: nat, ids: seq<nat>): (n: nat)
    ensures n > 0 <==> reqid in ids
  {
    if ids == [] then 0 else (if ids[0] == reqid then 1 else 0) + CountOf(reqid, ids[1..])
  }

  /** The counting loops over states and policies. */
  method CountIds(reqid: nat, ids: seq<nat>, start: nat) returns (count: nat)
    ensures count == start + CountOf(reqid, ids)
  {
    count := start;
    var i := 0;
    while i < |ids|
      invariant 0 <= i <= |ids|
      invariant count + CountOf(reqid, ids[i..]) == start + CountOf(reqid, ids)
    {
      if ids[i] == reqid {
        count := count + 1;
      }
      assert ids[i..][1..] == ids[i + 1..];
      i := i + 1;
    }
  }

  /** The queries show an established IKE, and the first installed CHILD has states and policies in the kernel. */
  predicate Installed(o: Observed, reqid: nat) {
    && o.error == Ok
    && (exists i :: 0 <= i < |o.ikes| && IsIke(o.ikes[i]))
    && (exists i :: 0 <= i < |o.children| && FirstChild(o, i) && o.children[i].reqid == reqid)
    && reqid != 0 && reqid in o.states && reqid in o.policies
  }

  predicate FirstIke(o: Observed, i: nat) {
    i < |o.ikes| && IsIke(o.ikes[i]) && forall j :: 0 <= j < i ==> !IsIke(o.ikes[j])
  }

  predicate FirstChild(o: Observed, i: nat) {
    i < |o.children| && IsChild(o.children[i]) && forall j :: 0 <= j < i ==> !IsChild(o.children[j])
  }

  /** `VerifyNativeAppInstalled`. */
  method VerifyInstalled(host: Host) returns (error: Error, reqid: nat, ghost seen: Observed)
    modifies host`sa
    ensures host.Drifted(host.present, old(host.sa), host.sa)
    ensures error == Ok <==> exists id :: Installed(seen, id)
    ensures error == Ok ==> Installed(seen, reqid) && host.sa
    ensures error != Ok ==> reqid == 0
  {
    reqid := 0;
    var o := host.Query();
    seen, error := o, o.error;
    if error != Ok {
      return;
    }
    var ike := FindIke(o.ikes);
    var child := FindChild(o.children);
    var found, states, policies := 0, 0, 0;
    if child < |o.children| {
      found := o.children[child].reqid;
    }
    if found != 0 {
      states := CountIds(found, o.states, 0);
      policies := CountIds(found, o.policies, 0);
    }
    if ike == |o.ikes| || child == |o.children| || states == 0 || policies == 0 {
      error := Internal;
    } else {
      reqid := found;
      assert FirstChild(o, child);
      assert Installed(o, reqid);
    }
  }

  // What a history adds up to: successful loads, unload calls, passed and failed iterations, and whether every passed
  // iteration left neither the connection nor an SA.
  datatype Tally = Tally(loads: nat, unloads: nat, passes: nat, failures: nat, tidy: bool)

  function Count(t: Tally, e: Entry, peerInitiates: bool): Tally {
    match e
    case Load(_, ok) => if ok then t.(loads := t.loads + 1) else t
    case Unload(_) => t.(unloads := t.unloads + 1)
    case Iteration(passed, connectionLeft, saLeft) =>
      if passed then t.(passes := t.passes + 1, tidy := t.tidy && !connectionLeft && (peerInitiates || !saLeft))
      else t.(failures := t.failures + 1)
    case _ => t
  }

  function TallyOf(log: seq<Entry>, peerInitiates: bool): Tally {
    if log == [] then Tally(0, 0, 0, 0, true)
    else Count(TallyOf(log[..|log| - 1], peerInitiates), log[|log| - 1], peerInitiates)
  }

  lemma {:induction false} TallyAppend(log: seq<Entry>, e: Entry, peerInitiates: bool)
    ensures TallyOf(log + [e], peerInitiates) == Count(TallyOf(log, peerInitiates), e, peerInitiates)
  {
    assert (log + [e])[..|log|] == log;
  }

  /** A stretch of history in which every successful load got its unload, and passed iterations stayed tidy. */
  predicate Balanced(before: Tally, after: Tally) {
    after.loads - before.loads == after.unloads - before.unloads && (before.tidy ==> after.tidy)
  }

  /** Load, start, and verify what was started. */
  method BringUp(host: Host) returns (error: Error, loaded: bool, reqid: nat, ghost seen: Option<Observed>, ghost calls: seq<Entry>)
    modifies host`present, host`sa, host`log
    ensures host.log == old(host.log) + calls
    ensures if loaded then |calls| == 2 && calls[0] == Load([], true) && calls[1].Started? else calls == [Load([], false)]
    ensures error == Ok ==> loaded && calls[1].ok && seen.Some? && Installed(seen.value, reqid)
  {
    reqid, seen := 0, None;
    error := host.LoadConnection([]);
    loaded := error == Ok;
    calls := [Load([], loaded)];
    if error == Ok {
      error := host.Start();
      calls := calls + [Started(error == Ok)];
    }
    if error == Ok {
      ghost var o;
      error, reqid, o := VerifyInstalled(host);
      seen := Some(o);
    }
  }

  /** Terminate, and wait until nothing is left; the first error is kept. */
  method TearDown(host: Host, first: Error, reqid: nat, timeoutMs: nat)
      returns (error: Error, ghost terminated: bool, ghost left: Option<Observed>)
    requires timeoutMs <= U32_MAX
    modifies host`sa, host`stopped, host`patience, host`log
    ensures host.log == old(host.log) + [Terminated(terminated)]
    ensures error == Ok ==> first == Ok && terminated && !host.sa
    ensures error == Ok ==> left.Some? && left.value.error == Ok && !Matching(left.value, reqid)
    ensures first != Ok ==> error == first
    ensures old(host.stopped) ==> host.stopped
    ensures host.patience <= old(host.patience)
  {
    error, left := first, None;
    var cleanup := host.Terminate();
    terminated := cleanup == Ok;
    if error == Ok && cleanup != Ok {
      error := cleanup;
    }
    if cleanup == Ok {
      ghost var rounds;
      cleanup, rounds, left := WaitRemoved(host, reqid, timeoutMs);
      if error == Ok && cleanup != Ok {
        error := cleanup;
      }
    }
  }

  /** What the calls of one iteration look like: a load that fails is the only one; after one that succeeds come
      the start, the termination and the unload, whatever becomes of them. */
  predicate Attempt(calls: seq<Entry>) {
    || calls == [Load([], false)]
    || (|calls| == 4 && calls[0] == Load([], true) && calls[1].Started? && calls[2].Terminated? && calls[3].Unload?)
  }

  predicate Success(calls: seq<Entry>) {
    calls == [Load([], true), Started(true), Terminated(true), Unload(true)]
  }

  lemma {:induction false} AttemptTally(log: seq<Entry>, calls: seq<Entry>, peerInitiates: bool)
    requires Attempt(calls)
    ensures var before, after := TallyOf(log, peerInitiates), TallyOf(log + calls, peerInitiates);
            Balanced(before, after) && after.passes == before.passes && after.failures == before.failures
  {
    TallyAppend(log, calls[0], peerInitiates);
    if |calls| == 1 {
      assert log + calls == log + [calls[0]];
    } else {
      TallyAppend(log + [calls[0]], calls[1], peerInitiates);
      TallyAppend(log + [calls[0]] + [calls[1]], calls[2], peerInitiates);
      TallyAppend(log + [calls[0]] + [calls[1]] + [calls[2]], calls[3], peerInitiates);
      assert log + calls == log + [calls[0]] + [calls[1]] + [calls[2]] + [calls[3]];
    }
  }

  /** One more iteration, passed or failed. */
  predicate Adds(before: Tally, after: Tally, passed: bool) {
    && Balanced(before, after)
    && after.passes == before.passes + (if passed then 1 else 0)
    && after.failures == before.failures + (if passed then 0 else 1)
  }

  lemma {:induction false} IterationTally(log: seq<Entry>, calls: seq<Entry>, end: Entry, peerInitiates: bool)
    requires Attempt(calls) && end.Iteration?
    requires end.passed ==> !end.connectionLeft && (peerInitiates || !end.saLeft)
    ensures Adds(TallyOf(log, peerInitiates), TallyOf(log + calls + [end], peerInitiates), end.passed)
  {
    hide TallyOf, Attempt;
    AttemptTally(log, calls, peerInitiates);
    TallyAppend(log + calls, end, peerInitiates);
  }

  lemma {:induction false} AddsOn(first: Tally, before: Tally, after: Tally, passed: bool)
    requires Balanced(first, before) && Adds(before, after, passed)
    ensures Balanced(first, after)
  {
  }

  // What a passed iteration saw: the SAs in place, and then nothing of them.
  datatype Evidence = Evidence(reqid: nat, seen: Observed, left: Observed) {
    predicate Valid() {
      Installed(seen, reqid) && left.error == Ok && !Matching(left, reqid)
    }
  }

  /** The body of the loop: whatever fails, a loaded connection is unloaded once, and the first error is kept.  A
      passed iteration saw the SAs installed, and later saw nothing of them left. */
  method RunIteration(host: Host, timeoutMs: nat) returns (error: Error, ghost calls: seq<Entry>, ghost evidence: Option<Evidence>)
    requires timeoutMs <= U32_MAX
    modifies host`present, host`sa, host`stopped, host`patience, host`log
    ensures host.log == old(host.log) + calls + [Iteration(error == Ok, host.present, host.sa)]
    ensures Attempt(calls) && (error == Ok ==> Success(calls) && evidence.Some? && evidence.value.Valid())
    ensures var before, after := TallyOf(old(host.log), host.peerInitiates), TallyOf(host.log, host.peerInitiates);
            Adds(before, after, error == Ok)
    ensures old(host.stopped) ==> host.stopped
    ensures host.patience <= old(host.patience)
  {
    hide TallyOf, Installed, Matching, Adds;
    var loaded: bool, reqid: nat;
    ghost var seen: Option<Observed>, left: Option<Observed>;
    error, loaded, reqid, seen, calls := BringUp(host);
    if loaded {
      ghost var terminated;
      error, terminated, left := TearDown(host, error, reqid, timeoutMs);
      calls := calls + [Terminated(terminated)];
    }
    if loaded {
      var cleanup := host.UnloadConnection();
      calls := calls + [Unload(cleanup == Ok)];
      if error == Ok && cleanup != Ok {
        error := cleanup;
      }
    }
    evidence := if error == Ok then Some(Evidence(reqid, seen.value, left.value)) else None;
    assert host.log == old(host.log) + calls;
    ghost var end := Iteration(error == Ok, host.present, host.sa);
    IterationTally(old(host.log), calls, end, host.peerInitiates);
    host.log := host.log + [end];
  }

  /** A 32 bit counter. */
  function Increment(n: nat): nat {
    if n >= U32_MAX then 0 else n + 1
  }

  /** The iteration counter after so many iterations. */
  function IterationAt(executed: nat): nat {
    if executed == 0 then 1 else Increment(IterationAt(executed - 1))
  }

  /** Before it wraps around the counter is one ahead of the executed iterations; and it never exceeds 32 bits. */
  lemma {:induction false} IterationCounts(executed: nat)
    ensures IterationAt(executed) <= U32_MAX
    ensures executed < U32_MAX ==> IterationAt(executed) == executed + 1
  {
    if executed != 0 {
      IterationCounts(executed - 1);
    }
  }

  /** The counter exceeds the loop count at some time, which is how the loop completes, exactly for the counts below the
      largest 32 bit number. */
  lemma {:induction false} CompletesIffBelowLargestCount(count: nat)
    requires 1 <= count <= U32_MAX
    ensures (exists executed: nat :: IterationAt(executed) > count) <==> count < U32_MAX
  {
    if executed: nat :| IterationAt(executed) > count {
      IterationCounts(executed);
    }
    if count < U32_MAX {
      IterationCounts(count);
      assert IterationAt(count) > count;
    }
  }

  /** The loop over the iterations.  It ends without an error and without a stop only when the counter has passed the
      loop count, and each iteration has passed. */
  method RunIterations(host: Host, options: LoopOptions, timeoutMs: nat)
      returns (first: Error, passed: nat, stop: bool, ghost executed: nat)
    requires timeoutMs <= U32_MAX && 1 <= options.count <= U32_MAX
    modifies host`present, host`sa, host`stopped, host`patience, host`log
    ensures stop ==> host.stopped
    ensures var before, after := TallyOf(old(host.log), host.peerInitiates), TallyOf(host.log, host.peerInitiates);
            && Balanced(before, after)
            && (first == Ok <==> after.failures == before.failures)
            && (first == Ok ==> after.passes == before.passes + executed)
    ensures first == Ok && !stop ==> IterationAt(executed) > options.count
    ensures first == Ok && !stop ==> options.count < U32_MAX && passed == executed == options.count
  {
    hide TallyOf, IterationAt, Balanced, Evidence.Valid, Attempt, Success;
    ghost var before := TallyOf(host.log, host.peerInitiates);
    NothingAdded(before);
    first, passed, executed := Ok, 0, 0;
    var iteration := 1;
    stop := host.StopRequested();
    IterationStarts();
    while iteration <= options.count && !stop
      invariant iteration == IterationAt(executed) && iteration <= U32_MAX
      invariant Balanced(before, TallyOf(host.log, host.peerInitiates))
      invariant before.failures <= TallyOf(host.log, host.peerInitiates).failures
      invariant first == Ok <==> TallyOf(host.log, host.peerInitiates).failures == before.failures
      invariant first == Ok ==> TallyOf(host.log, host.peerInitiates).passes == before.passes + executed
      invariant options.count < U32_MAX ==> executed <= options.count && (first == Ok ==> passed == executed)
      invariant stop == host.stopped
      decreases host.patience, !stop
    {
      ghost var calls, evidence;
      ghost var last := TallyOf(host.log, host.peerInitiates);
      var error: Error;
      error, calls, evidence := RunIteration(host, timeoutMs);
      AddsOn(before, last, TallyOf(host.log, host.peerInitiates), error == Ok);
      if error == Ok {
        passed := Increment(passed);
      } else {
        first := if first == Ok then error else first;
        if !options.continueOnError {
          break;
        }
      }
      IterationCounts(executed);
      NextIteration(executed);
      executed := executed + 1;
      iteration := Increment(iteration);
      stop := host.StopRequested();
    }
    IterationCounts(executed);
  }

  // What became of the parts of a run that can fail.
  datatype Trouble = Trouble(credential: Error, iteration: Error, clearing: Error)

  function FirstOf(t: Trouble): Error {
    if t.credential != Ok then t.credential else if t.iteration != Ok then t.iteration else t.clearing
  }

  /** `RunNativeAppLoop`.  A run returns no error exactly if nothing in it failed and nobody stopped it; it then executed
      every iteration and each one passed.  Every successful load of any run has its unload; a passed iteration leaves
      no connection and no SA. */
  method RunLoop(host: Host, initiator: bool, options: LoopOptions, timeoutMs: nat)
      returns (error: Error, passed: nat, ghost trouble: Trouble)
    requires timeoutMs <= U32_MAX && options.count <= U32_MAX
    modifies host`present, host`sa, host`stopped, host`patience, host`log
    ensures options.count == 0 ==> error == InvalidArgument
    ensures options.count != 0 && !initiator ==> error == NotSupported
    ensures options.count != 0 && initiator ==>
              error == if FirstOf(trouble) != Ok then FirstOf(trouble) else if host.stopped then Internal else Ok
    ensures var before, after := TallyOf(old(host.log), host.peerInitiates), TallyOf(host.log, host.peerInitiates);
            && Balanced(before, after)
            && (trouble.iteration == Ok <==> after.failures == before.failures)
            && (error == Ok ==> after.passes == before.passes + options.count && passed == options.count)
    ensures error == Ok ==> 1 <= options.count < U32_MAX
    ensures options.count == U32_MAX && initiator && FirstOf(trouble) == Ok ==> host.stopped
  {
    passed, trouble := 0, Trouble(Ok, Ok, Ok);
    if options.count == 0 {
      return InvalidArgument, 0, trouble;
    } else if !initiator {
      return NotSupported, 0, trouble;
    }
    error := *;                       // LoadNativeAppCredential
    trouble := trouble.(credential := error);
    if error != Ok {
      return;
    }
    hide TallyOf, IterationAt;
    var first: Error, stop: bool;
    ghost var executed;
    first, passed, stop, executed := RunIterations(host, options, timeoutMs);
    trouble := trouble.(iteration := first);
    if options.clearCredentials {
      error := *;                     // ClearIpsecCredentials
      trouble := trouble.(clearing := error);
      if first == Ok && error != Ok {
        first := error;
      }
    }
    if !stop {
      stop := host.StopRequested();
    }
    if stop && first == Ok {
      first := Internal;
    }
    error := first;
  }

  lemma {:induction false} NothingAdded(t: Tally)
    ensures Balanced(t, t)
  {
  }

  lemma {:induction false} IterationStarts()
    ensures IterationAt(0) == 1
  {
  }

  lemma {:induction false} NextIteration(executed: nat)
    ensures IterationAt(executed + 1) == Increment(IterationAt(executed))
  {
  }
}
