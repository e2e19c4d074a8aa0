/** Both sides of the algorithm test together, over a channel that may lose, repeat, delay and reorder
    datagrams, but not invent them. */
module AlgorithmSafety {
  import opened Core
  import opened Host
  import opened Algorithm
  import opened AlgorithmMessages
  import opened AlgorithmClient
  import AlgorithmServer
  import Proposals

  /** Whatever one side received, the other side sent. */
  ghost predicate NothingInvented(receiver: seq<Entry>, sender: seq<Entry>) {
    forall i :: 0 <= i < |receiver| && receiver[i].Received? ==> SentIn(sender, receiver[i].text)
  }

  ghost predicate SentIn(log: seq<Entry>, text: string) {
    exists j :: 0 <= j < |log| && log[j].Sent? && log[j].text == text
  }

  lemma {:induction false} WatchGrows(m: Monitor, e: Entry)
    ensures var after := Watch(m, e);
            && (after.backed ==> m.backed)
            && m.announced <= after.announced && m.confirmed <= after.confirmed && m.done <= after.done
  {
    hide Announcement, ClaimsPass, ClaimsDone;
  }

  /** What a history has established stays established. */
  lemma {:induction false} MonitorGrows(log: seq<Entry>, n: nat)
    requires n <= |log|
    ensures var before, after := MonitorOf(log[..n]), MonitorOf(log);
            && (after.backed ==> before.backed)
            && before.announced <= after.announced && before.confirmed <= after.confirmed && before.done <= after.done
    decreases |log|
  {
    if n < |log| {
      hide Watch;
      var shorter := log[..|log| - 1];
      assert shorter[..n] == log[..n];
      MonitorGrows(shorter, n);
      WatchGrows(MonitorOf(shorter), log[|log| - 1]);
    } else {
      assert log[..n] == log;
    }
  }

  /** In a disciplined history every confirmed case was announced, and the last query and the last cleanup are
      among the confirmed and the done ones. */
  lemma {:induction false} ConfirmedWereAnnounced(log: seq<Entry>)
    requires MonitorOf(log).backed
    ensures var m := MonitorOf(log);
            && m.confirmed <= m.announced
            && (m.query.Some? ==> m.query.value in m.confirmed)
            && (m.cleaned != [] ==> m.cleaned in m.done)
    decreases |log|
  {
    if log != [] {
      hide Announcement, ClaimsPass, ClaimsDone;
      ConfirmedWereAnnounced(log[..|log| - 1]);
    }
  }

  /** A disciplined responder that said PASS for a case had a successful query of it. */
  lemma {:induction false} PassWasConfirmed(log: seq<Entry>, j: nat, id: string) returns (ike: string, esp: string)
    requires MonitorOf(log).backed && j < |log| && log[j].Sent? && ClaimsPass(log[j].text) == Some(id)
    ensures (id, ike, esp) in MonitorOf(log).confirmed
  {
    MonitorGrows(log, j + 1);
    MonitorGrows(log, j);
    assert log[..j + 1] == log[..j] + [log[j]];
    MonitorAppend(log[..j], log[j]);
    ConfirmedWereAnnounced(log[..j]);
    var query := MonitorOf(log[..j]).query.value;
    ike, esp := query.1, query.2;
  }

  /** A disciplined responder that said DONE for a case had verified its cleanup, and nothing was there. */
  lemma {:induction false} DoneWasClean(log: seq<Entry>, j: nat, id: string)
    requires MonitorOf(log).backed && j < |log| && log[j].Sent? && ClaimsDone(log[j].text) == Some(id)
    ensures log[j].quiet && id in MonitorOf(log).done
  {
    MonitorGrows(log, j + 1);
    MonitorGrows(log, j);
    assert log[..j + 1] == log[..j] + [log[j]];
    MonitorAppend(log[..j], log[j]);
    ConfirmedWereAnnounced(log[..j]);
  }

  /** Everything announced to a machine arrived in a message. */
  lemma {:induction false} AnnouncedWasReceived(log: seq<Entry>, a: (string, string, string)) returns (i: nat)
    requires a in MonitorOf(log).announced
    ensures i < |log| && log[i].Received? && Announcement(log[i].text) == Some(a)
    decreases |log|
  {
    hide Announcement, ClaimsPass, ClaimsDone;
    var n := |log| - 1;
    if a in MonitorOf(log[..n]).announced {
      i := AnnouncedWasReceived(log[..n], a);
      assert log[..n][i] == log[i];
    } else {
      i := n;
    }
  }

  /** The cases of one run have different ids that can be announced.  Their proposals are any C strings. */
  predicate GoodCases(cases: seq<Case>) {
    && (forall i :: 0 <= i < |cases| ==> Clean(cases[i].id) && '\0' !in cases[i].ike && '\0' !in cases[i].esp)
    && (forall i, j :: 0 <= i < j < |cases| ==> cases[i].id != cases[j].id)
  }

  // What else an announcement of a case holds.
  datatype Occasion = Occasion(run: string, requested: nat)

  /** What a responder reads when a case is announced. */
  function ReadAs(c: Case, o: Occasion): (string, string, string) {
    var said := Said(c.ike, c.esp, o.run, c.number, o.requested);
    (c.id, said[0], said[1])
  }

  /** The responder reads the case's own proposals exactly if neither is empty and neither holds a bar. */
  lemma {:induction false} ReadRight(c: Case, o: Occasion)
    requires Clean(o.run) && '\0' !in c.ike && '\0' !in c.esp
    ensures ReadAs(c, o) == (c.id, c.ike, c.esp) <==> Clean(c.ike) && Clean(c.esp)
  {
    ProposalsRead(c.ike, c.esp, o.run, c.number, o.requested);
  }

  lemma {:induction false} CaseAnnounced(c: Case, o: Occasion)
    requires Clean(c.id) && Clean(o.run) && '\0' !in c.ike && '\0' !in c.esp
    ensures Announcement(PrepareText(c.id, c.ike, c.esp, o.run, c.number, o.requested)) == Some(ReadAs(c, o))
  {
    hide Tokens, PrepareText, Said;
    AnnouncementReads(c.id, c.ike, c.esp, o.run, c.number, o.requested);
  }

  /** What the responder knows of a case is what it read when the initiator announced it. */
  lemma {:induction false} AnnouncedIsCase(cases: seq<Case>, c: Case, text: string, ike: string, esp: string) returns (o: Occasion)
    requires GoodCases(cases) && c in cases && OfRun(text, cases) && Announcement(text) == Some((c.id, ike, esp))
    ensures Clean(o.run) && ReadAs(c, o) == (c.id, ike, esp)
  {
    hide Announcement, PrepareText, Said;
    var d, run, requested :| d in cases && Clean(run) && text == PrepareText(d.id, d.ike, d.esp, run, d.number, requested);
    o := Occasion(run, requested);
    var i :| 0 <= i < |cases| && cases[i] == c;
    var j :| 0 <= j < |cases| && cases[j] == d;
    CaseAnnounced(d, o);
  }

  /** A confirmed case of a responder that heard only this run's initiator is the initiator's case as it was read. */
  lemma {:induction false} ConfirmedIsCase(initiator: seq<Entry>, responder: seq<Entry>, cases: seq<Case>, c: Case, ike: string, esp: string)
      returns (o: Occasion)
    requires GoodCases(cases) && c in cases
    requires Announces(initiator, cases) && NothingInvented(responder, initiator)
    requires MonitorOf(responder).backed && (c.id, ike, esp) in MonitorOf(responder).confirmed
    ensures Clean(o.run) && ReadAs(c, o) == (c.id, ike, esp)
  {
    hide Announcement, ReadAs;
    ConfirmedWereAnnounced(responder);
    var i := AnnouncedWasReceived(responder, (c.id, ike, esp));
    assert SentIn(initiator, responder[i].text);
    var j :| 0 <= j < |initiator| && initiator[j].Sent? && initiator[j].text == responder[i].text;
    o := AnnouncedIsCase(cases, c, initiator[j].text, ike, esp);
  }

  /** The responder has confirmed the case as it read it, and has cleaned it up. */
  ghost predicate ConfirmedAsRead(responder: seq<Entry>, c: Case) {
    && c.id in MonitorOf(responder).done
    && exists o: Occasion :: Clean(o.run) && ReadAs(c, o) in MonitorOf(responder).confirmed
  }

  predicate ConfirmedAndDone(responder: seq<Entry>, c: Case) {
    (c.id, c.ike, c.esp) in MonitorOf(responder).confirmed && c.id in MonitorOf(responder).done
  }

  lemma {:induction false} ReadAsMeant(responder: seq<Entry>, c: Case)
    requires ConfirmedAsRead(responder, c) && '\0' !in c.ike && '\0' !in c.esp && Clean(c.ike) && Clean(c.esp)
    ensures ConfirmedAndDone(responder, c)
  {
    hide ReadAs, MonitorOf;
    var o: Occasion :| Clean(o.run) && ReadAs(c, o) in MonitorOf(responder).confirmed;
    ReadRight(c, o);
  }

  /** A case the initiator counts as passed was confirmed by the responder's own state query for the same case id and
      the proposals as it read them, which are the same proposals if they can be read as they were meant; and the
      responder has cleaned it up. */
  lemma {:induction false} PassMeansConfirmed(initiator: seq<Entry>, responder: seq<Entry>, cases: seq<Case>, c: Case, r: Result)
    requires GoodCases(cases) && c in cases
    requires Announces(initiator, cases) && MonitorOf(responder).backed
    requires NothingInvented(initiator, responder) && NothingInvented(responder, initiator)
    requires Passed(initiator, c, r)
    ensures ConfirmedAsRead(responder, c)
    ensures Clean(c.ike) && Clean(c.esp) ==> ConfirmedAndDone(responder, c)
    ensures r.dataPathVerified && r.xfrmVerified && r.espVerified && r.ikeVerified
  {
    hide MonitorOf, ClaimsPass, ClaimsDone, Answers, ReadAs;
    var p :| 0 <= p < |initiator| && initiator[p].Received? && ClaimsPass(initiator[p].text) == Some(c.id);
    assert SentIn(responder, initiator[p].text);
    var j :| 0 <= j < |responder| && responder[j].Sent? && responder[j].text == initiator[p].text;
    var ike, esp := PassWasConfirmed(responder, j, c.id);
    var o := ConfirmedIsCase(initiator, responder, cases, c, ike, esp);
    var d :| 0 <= d < |initiator| && initiator[d].Received? && ClaimsDone(initiator[d].text) == Some(c.id);
    assert SentIn(responder, initiator[d].text);
    var k :| 0 <= k < |responder| && responder[k].Sent? && responder[k].text == initiator[d].text;
    DoneWasClean(responder, k, c.id);
    assert ConfirmedAsRead(responder, c);
    if Clean(c.ike) && Clean(c.esp) {
      ReadAsMeant(responder, c);
    }
  }

  /** Both programs as written, on two machines: a run without an error has every requested case confirmed and
      cleaned up by the responder, whatever the daemons, the users and the channel did. */
  method RunBoth(initiator: Host, responder: Host, cases: seq<Case>, options: Options, run: string, timeoutMs: nat,
                 table: seq<Proposals.KeAlgorithm>) returns (error: Error, ghost results: seq<Result>)
    requires initiator != responder && initiator.log == [] && responder.log == []
    requires GoodCases(cases) && Clean(run)
    requires forall i :: 0 <= i < |table| ==> Proposals.IsToken(table[i].keyword)
    modifies initiator, responder
    ensures !MonitorOf(initiator.log).loaded && MonitorOf(initiator.log).paired
    ensures !MonitorOf(responder.log).loaded && MonitorOf(responder.log).paired && MonitorOf(responder.log).backed
    ensures error == Ok ==> 1 <= options.start <= |cases| && |results| == Requested(options, |cases|)
    ensures error == Ok && NothingInvented(initiator.log, responder.log) && NothingInvented(responder.log, initiator.log) ==>
              forall i :: options.start - 1 <= i < options.start - 1 + |results| ==>
                            && ConfirmedAsRead(responder.log, cases[i])
                            && (Clean(cases[i].ike) && Clean(cases[i].esp) ==> ConfirmedAndDone(responder.log, cases[i]))
  {
    hide Clean, ConfirmedAsRead, ConfirmedAndDone;
    ghost var finished;
    var served: Error;
    served, finished := AlgorithmServer.Serve(responder, table, timeoutMs);
    error, results := RunClient(initiator, cases, options, run, timeoutMs);
    if error == Ok && NothingInvented(initiator.log, responder.log) && NothingInvented(responder.log, initiator.log) {
      forall i | options.start - 1 <= i < options.start - 1 + |results|
        ensures ConfirmedAsRead(responder.log, cases[i])
        ensures Clean(cases[i].ike) && Clean(cases[i].esp) ==> ConfirmedAndDone(responder.log, cases[i])
      {
        var r := results[i - (options.start - 1)];
        assert Passed(initiator.log, cases[options.start - 1 + (i - (options.start - 1))], r);
        PassMeansConfirmed(initiator.log, responder.log, cases, cases[i], r);
      }
    }
  }
}
