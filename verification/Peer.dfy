/** Peer registration: the shared table, the sequence of ids, and the REGISTER and ASSIGN exchange. */
module Peer {
  import opened Core
  import opened Text

  const CAPACITY: nat := 256
  const LOGON_LIMIT: nat := 100
  const MESSAGE_LENGTH: nat := 4096
  const PROPOSAL_TEXT_LENGTH: nat := 1024
  const PROTOCOL := "RCST/1"

  // ---------- Ids

  datatype Ids = Ids(group: nat, logon: nat)

  /** `GetNativeAppPeerSequence`: a hundred logons to a group. */
  function Sequence(ordinal: nat): (ids: Ids)
    ensures 1 <= ids.group && 1 <= ids.logon <= LOGON_LIMIT
    ensures ordinal == (ids.group - 1) * LOGON_LIMIT + ids.logon - 1
  {
    Ids(ordinal / LOGON_LIMIT + 1, ordinal % LOGON_LIMIT + 1)
  }

  function PeerId(ids: Ids): string {
    "rcst-" + Decimal(ids.group) + "-" + Decimal(ids.logon)
  }

  lemma {:induction false} DigitsHaveNo(digits: string, c: char)
    requires AllDigits(digits) && !IsDigit(c)
    ensures c !in digits
  {
  }

  /** Different ordinals get different peer ids. */
  lemma {:induction false} PeerIdsDiffer(a: nat, b: nat)
    requires PeerId(Sequence(a)) == PeerId(Sequence(b))
    ensures a == b
  {
    IdsBack(Sequence(a));
    IdsBack(Sequence(b));
    DecimalValue(Sequence(a).group);
    DecimalValue(Sequence(b).group);
    DecimalValue(Sequence(a).logon);
    DecimalValue(Sequence(b).logon);
  }

  lemma {:induction false} IdsBack(ids: Ids)
    ensures Parts(PeerId(ids), '-') == ["rcst", Decimal(ids.group), Decimal(ids.logon)]
  {
    var pieces := ["rcst", Decimal(ids.group), Decimal(ids.logon)];
    DigitsHaveNo(Decimal(ids.group), '-');
    DigitsHaveNo(Decimal(ids.logon), '-');
    PartsOfGlue(pieces, '-');
    GlueOfThree(pieces[0], pieces[1], pieces[2], '-');
    assert pieces == [pieces[0], pieces[1], pieces[2]];
    assert "rcst" + ['-'] + (Decimal(ids.group) + ['-'] + Decimal(ids.logon)) == PeerId(ids);
  }

  lemma {:induction false} GlueOfThree(a: string, b: string, c: string, sep: char)
    ensures Glue([a, b, c], sep) == a + [sep] + (b + [sep] + c)
  {
    assert [a, b, c][1..] == [b, c] && [b, c][1..] == [c];
    assert Glue([c], sep) == c && Glue([b, c], sep) == b + [sep] + c;
    assert a + [sep] + (b + [sep] + c) == a + [sep] + Glue([b, c], sep);
  }

  // ---------- Profiles

  datatype Role = Initiator | Responder

  // The settings that a registration fills in or passes on.
  datatype Settings = Settings(
    role: Role, localAddress: string, remoteAddress: string, localId: string, remoteId: string,
    connectionName: string, childName: string, credentialId: string,
    ike: string, esp: string, mode: Mode)

  datatype Profile = Profile(ids: Ids, settings: Settings)

  /** `BuildNativeAppPeerConfig`. */
  function BuildProfile(base: Settings, ids: Ids, localAddress: string, remoteAddress: string, localId: string, remoteId: string)
      : Option<Profile>
  {
    var id := PeerId(ids);
    if |id| >= ID_LENGTH || |localAddress| >= ADDRESS_LENGTH || |remoteAddress| >= ADDRESS_LENGTH
       || |localId| >= ID_LENGTH || |remoteId| >= ID_LENGTH
       || |"conn-" + id| >= NAME_LENGTH || |"child-" + id| >= NAME_LENGTH || |"psk-" + id| >= NAME_LENGTH
    then None
    else Some(Profile(ids, base.(localAddress := localAddress, remoteAddress := remoteAddress,
                                 localId := localId, remoteId := remoteId,
                                 connectionName := "conn-" + id, childName := "child-" + id, credentialId := "psk-" + id)))
  }

  /** The two ends of one registration describe the same connection from opposite sides. */
  predicate Mirror(initiator: Profile, responder: Profile) {
    var i, r := initiator.settings, responder.settings;
    && initiator.ids == responder.ids
    && i.localAddress == r.remoteAddress && i.remoteAddress == r.localAddress
    && i.localId == r.remoteId && i.remoteId == r.localId == PeerId(initiator.ids)
    && i.connectionName == r.connectionName && i.childName == r.childName && i.credentialId == r.credentialId
    && i.ike == r.ike && i.esp == r.esp && i.mode == r.mode
  }

  // ---------- The table

  class Table {
    var profiles: array<Profile>
    var count: nat

    /** Every entry of an initiator stands where its ids say. */
    ghost predicate Valid()
      reads this, profiles
    {
      && profiles.Length == CAPACITY && count <= CAPACITY
      && forall i :: 0 <= i < count && profiles[i].settings.role == Initiator ==> profiles[i].ids == Sequence(i)
    }

    ghost function Entries(): seq<Profile>
      reads this, profiles
      requires Valid()
    {
      profiles[..count]
    }

    constructor ()
      ensures Valid() && Entries() == [] && fresh(profiles)
    {
      var blank := Profile(Ids(0, 0), Settings(Responder, [], [], [], [], [], [], [], [], [], Unknown));
      profiles := new Profile[CAPACITY](_ => blank);
      count := 0;
    }

    /** `AllocateNativeAppPeerIds`, while the mutex is held: nothing is reserved. */
    method AllocateIds() returns (error: Error, ids: Ids)
      requires Valid()
      ensures error == if |Entries()| < CAPACITY then Ok else BufferTooSmall
      ensures error == Ok ==> ids == Sequence(|Entries()|)
    {
      ids := Ids(0, 0);
      if count >= CAPACITY {
        error := BufferTooSmall;
      } else {
        ids := Sequence(count);
        error := Ok;
      }
    }

    /** `AppendNativeAppPeer`, while the mutex is held: an initiator's ids must still be the next ones. */
    method Append(p: Profile) returns (error: Error)
      requires Valid()
      modifies this`count, profiles
      ensures Valid() && profiles == old(profiles)
      ensures error == if |old(Entries())| >= CAPACITY then BufferTooSmall
                       else if p.settings.role == Initiator && p.ids != Sequence(|old(Entries())|) then InvalidArgument
                       else Ok
      ensures Entries() == if error == Ok then old(Entries()) + [p] else old(Entries())
    {
      if count >= CAPACITY {
        error := BufferTooSmall;
      } else if p.settings.role == Initiator
                && (p.ids.group != count / LOGON_LIMIT + 1 || p.ids.logon != count % LOGON_LIMIT + 1) {
        error := InvalidArgument;
      } else {
        profiles[count] := p;
        count := count + 1;
        error := Ok;
      }
    }
  }

  // ---------- Lines

  /** `IsNativeAppPeerToken`. */
  predicate IsToken(text: string) {
    text != [] && forall i :: 0 <= i < |text| ==> ' ' < text[i] && text[i] != '\U{7f}'
  }

  lemma {:induction false} TokenClean(text: string)
    requires IsToken(text)
    ensures Clean(text, ' ') && '\n' !in text
  {
  }

  // What the socket library says about addresses.
  datatype Addresses = Addresses(valid: string -> bool, same: (string, string) -> bool)

  function ModeName(mode: Mode): (name: string)
    ensures IsToken(name)
  {
    if mode == Transport then "transport" else "tunnel"
  }

  function RegisterLine(address: string): string {
    Glue([PROTOCOL, "REGISTER", address], ' ')
  }

  function AssignFields(ids: Ids, base: Settings): seq<string> {
    [PROTOCOL, "ASSIGN", Decimal(ids.group), Decimal(ids.logon), base.localAddress, base.localId, base.ike, base.esp,
     ModeName(base.mode)]
  }

  function AssignLine(ids: Ids, base: Settings): string {
    Glue(AssignFields(ids, base), ' ')
  }

  /** `ReceiveNativeAppPeerMessage`: one byte at a time up to a line feed. */
  method ReceiveLine(stream: string, capacity: nat) returns (error: Error, line: string)
    requires 0 < capacity
    ensures error == Ok <==> Next(stream, 0, '\n') < |stream| && Next(stream, 0, '\n') < capacity - 1
    ensures error == Ok ==> line == stream[..Next(stream, 0, '\n')]
  {
    line := [];
    var offset := 0;
    while offset + 1 < capacity
      invariant 0 <= offset <= |stream| && (offset < capacity)
      invariant line == stream[..offset] && Next(stream, 0, '\n') == Next(stream, offset, '\n')
      decreases capacity - offset
    {
      if offset == |stream| {
        return Internal, line;        // the peer closed, or the wait failed
      }
      if stream[offset] == '\n' {
        return Ok, line;
      }
      line := line + [stream[offset]];
      offset := offset + 1;
    }
    error := BufferTooSmall;
  }

  /** The tokens of a line, if it is a valid registration request from this socket. */
  function ParseRegister(line: string, socketAddress: string, addresses: Addresses): Option<string> {
    var t := Tokens(line, ' ');
    if |t| == 3 && t[0] == PROTOCOL && t[1] == "REGISTER" && addresses.valid(t[2]) && addresses.same(t[2], socketAddress)
    then Some(t[2]) else None
  }

  datatype Assignment = Assignment(ids: Ids, address: string, id: string, ike: string, esp: string, mode: Mode)

  /** What the responder takes from an assignment line. */
  function ParseAssign(line: string, addresses: Addresses): Option<Assignment> {
    var t := Tokens(line, ' ');
    if |t| != 9 || t[0] != PROTOCOL || t[1] != "ASSIGN" then None
    else
      var group, logon := WholeUint32(t[2]), WholeUint32(t[3]);
      if group.None? || logon.None? || group.value == 0 || logon.value == 0 || LOGON_LIMIT < logon.value
         || !addresses.valid(t[4]) || !IsToken(t[5]) || !IsToken(t[6]) || !IsToken(t[7])
         || (t[8] != "transport" && t[8] != "tunnel")
      then None
      else Some(Assignment(Ids(group.value, logon.value), t[4], t[5], t[6], t[7],
                           if t[8] == "transport" then Transport else Tunnel))
  }

  lemma {:induction false} DecimalWhole(n: nat)
    requires n <= U32_MAX
    ensures WholeUint32(Decimal(n)) == Some(n)
  {
    ParseDecimal(n, []);
    assert Decimal(n) + [] == Decimal(n);
  }

  /** An assignment line is read back as it was meant. */
  lemma {:induction false} AssignReads(ids: Ids, base: Settings, addresses: Addresses)
    requires 1 <= ids.group <= U32_MAX && 1 <= ids.logon <= LOGON_LIMIT
    requires IsToken(base.localAddress) && IsToken(base.localId) && IsToken(base.ike) && IsToken(base.esp)
    ensures ParseAssign(AssignLine(ids, base), addresses) ==
            if addresses.valid(base.localAddress)
            then Some(Assignment(ids, base.localAddress, base.localId, base.ike, base.esp,
                                 if base.mode == Transport then Transport else Tunnel))
            else None
  {
    var fields := AssignFields(ids, base);
    AssignFieldsClean(ids, base);
    ReadBackIffClean(fields, ' ');
    DecimalWhole(ids.group);
    DecimalWhole(ids.logon);
  }

  lemma {:induction false} AssignFieldsClean(ids: Ids, base: Settings)
    requires IsToken(base.localAddress) && IsToken(base.localId) && IsToken(base.ike) && IsToken(base.esp)
    ensures AllClean(AssignFields(ids, base), ' ')
    ensures forall i :: 0 <= i < 9 ==> '\n' !in AssignFields(ids, base)[i]
  {
    DigitsHaveNo(Decimal(ids.group), ' ');
    DigitsHaveNo(Decimal(ids.logon), ' ');
    DigitsHaveNo(Decimal(ids.group), '\n');
    DigitsHaveNo(Decimal(ids.logon), '\n');
    TokenClean(base.localAddress);
    TokenClean(base.localId);
    TokenClean(base.ike);
    TokenClean(base.esp);
    TokenClean(ModeName(base.mode));
    assert Clean(PROTOCOL, ' ') && Clean("ASSIGN", ' ');
  }

  // ---------- The exchange

  /** `SendNativeAppPeerMessage` after the checks of its length: a failure leaves the line incomplete. */
  method SendLine(line: string) returns (error: Error)
    ensures |line| >= MESSAGE_LENGTH ==> error == BufferTooSmall
    ensures error in {Ok, Internal, BufferTooSmall}
  {
    if |line| >= MESSAGE_LENGTH {
      return BufferTooSmall;
    }
    var offset := 0;
    error := Ok;
    while offset < |line| && error == Ok
      invariant 0 <= offset <= |line|
      invariant error == Ok || error == Internal
      decreases |line| - offset, error == Ok
    {
      var works: bool, count: nat := *, *;
      if !works {
        error := Internal;
      } else {
        offset := if 1 <= count <= |line| - offset then offset + count else |line|;
      }
    }
  }

  /** `AcceptNativeAppPeerConnection` with nobody else at the table.  A registration that succeeds, and only one
      whose whole assignment line was sent, appends the entry with the ids that the line carried. */
  method AcceptPeer(table: Table, base: Settings, stream: string, socketAddress: string, addresses: Addresses)
      returns (error: Error, sent: Option<string>)
    requires table.Valid()
    modifies table`count, table.profiles
    ensures table.Valid() && table.profiles == old(table.profiles)
    ensures error == Ok <==> sent.Some?
    ensures error != Ok ==> table.Entries() == old(table.Entries())
    ensures error == Ok ==>
              var ids := Sequence(|old(table.Entries())|);
              var end := Next(stream, 0, '\n');
              var address := ParseRegister(stream[..end], socketAddress, addresses);
              && address.Some?
              && sent == Some(AssignLine(ids, base) + "\n")
              && BuildProfile(base, ids, base.localAddress, address.value, base.localId, PeerId(ids)).Some?
              && table.Entries() == old(table.Entries())
                                    + [BuildProfile(base, ids, base.localAddress, address.value, base.localId, PeerId(ids)).value]
    ensures error == Ok ==> base.role == Initiator && IsToken(base.localId) && IsToken(base.ike) && IsToken(base.esp)
  {
    sent := None;
    if base.role != Initiator || !IsToken(base.localId) || !IsToken(base.ike) || !IsToken(base.esp) {
      return InvalidArgument, None;
    }
    var line: string;
    error, line := ReceiveLine(stream, MESSAGE_LENGTH);
    if error != Ok {
      return;
    }
    var address := ParseRegister(line, socketAddress, addresses);
    if address.None? {
      return InvalidArgument, None;
    }
    var ids: Ids;
    error, ids := table.AllocateIds();
    if error != Ok {
      return;
    }
    var profile := BuildProfile(base, ids, base.localAddress, address.value, base.localId, PeerId(ids));
    if profile.None? {
      return BufferTooSmall, None;
    }
    var reply := AssignLine(ids, base) + "\n";
    error := SendLine(reply);
    if error == Ok {
      assert profile.value.ids == ids && profile.value.settings.role == Initiator;
      error := table.Append(profile.value);
      sent := Some(reply);
    }
  }

  /** `RegisterNativeAppPeer` behind the connection: `stream` is what the server sends. */
  method RegisterPeer(table: Table, base: Settings, stream: string, addresses: Addresses) returns (error: Error)
    requires table.Valid()
    modifies table`count, table.profiles
    ensures table.Valid() && table.profiles == old(table.profiles)
    ensures error != Ok ==> table.Entries() == old(table.Entries())
    ensures error == Ok ==>
              var assignment := ParseAssign(stream[..Next(stream, 0, '\n')], addresses);
              && assignment.Some? && Registered(base, assignment.value).Some?
              && table.Entries() == old(table.Entries()) + [Registered(base, assignment.value).value]
  {
    if base.role != Responder || table.count >= CAPACITY {
      return InvalidArgument;
    }
    error := SendLine(RegisterLine(base.localAddress) + "\n");
    if error != Ok {
      return;
    }
    var line: string;
    error, line := ReceiveLine(stream, MESSAGE_LENGTH);
    if error != Ok {
      return;
    }
    var assignment := ParseAssign(line, addresses);
    if assignment.None? {
      return InvalidArgument;
    }
    var profile := Registered(base, assignment.value);
    if profile.None? {
      return BufferTooSmall;
    }
    error := table.Append(profile.value);
  }

  /** The responder's profile from an assignment. */
  function Registered(base: Settings, a: Assignment): Option<Profile> {
    if |a.ike| >= PROPOSAL_TEXT_LENGTH || |a.esp| >= PROPOSAL_TEXT_LENGTH then None
    else BuildProfile(base.(mode := a.mode, ike := a.ike, esp := a.esp), a.ids, base.localAddress, a.address, PeerId(a.ids), a.id)
  }

  /** A line read back from the stream it was written to. */
  lemma {:induction false} LineBack(line: string, rest: string)
    requires '\n' !in line
    ensures var stream := line + "\n" + rest; Next(stream, 0, '\n') == |line| && stream[..|line|] == line
  {
    var stream := line + "\n" + rest;
    assert forall i :: 0 <= i < |line| ==> stream[i] == line[i];
    NextBehind(stream, 0, |line|, '\n');
  }

  lemma {:induction false} AssignLineBack(ids: Ids, base: Settings)
    requires IsToken(base.localAddress) && IsToken(base.localId) && IsToken(base.ike) && IsToken(base.esp)
    ensures var stream := AssignLine(ids, base) + "\n";
            stream[..Next(stream, 0, '\n')] == AssignLine(ids, base)
  {
    AssignFieldsClean(ids, base);
    GlueHasNo(AssignFields(ids, base), ' ', '\n');
    LineBack(AssignLine(ids, base), []);
    assert AssignLine(ids, base) + "\n" + [] == AssignLine(ids, base) + "\n";
  }

  lemma {:induction false} RegisterReads(address: string, socketAddress: string, addresses: Addresses)
    requires IsToken(address)
    ensures var stream := RegisterLine(address) + "\n";
            ParseRegister(stream[..Next(stream, 0, '\n')], socketAddress, addresses) ==
            if addresses.valid(address) && addresses.same(address, socketAddress) then Some(address) else None
  {
    var fields := [PROTOCOL, "REGISTER", address];
    TokenClean(address);
    assert Clean(PROTOCOL, ' ') && Clean("REGISTER", ' ');
    ReadBackIffClean(fields, ' ');
    GlueHasNo(fields, ' ', '\n');
    LineBack(RegisterLine(address), []);
    assert RegisterLine(address) + "\n" + [] == RegisterLine(address) + "\n";
  }

  /** One registration, both ends: if both succeed, the stored profiles mirror each other. */
  method RegisterBoth(server: Table, client: Table, initiator: Settings, responder: Settings, socketAddress: string, addresses: Addresses)
      returns (accepted: Error, registered: Error)
    requires server.Valid() && client.Valid() && server != client && server.profiles != client.profiles
    requires IsToken(initiator.localAddress) && IsToken(responder.localAddress)
    requires initiator.mode == Tunnel || initiator.mode == Transport
    modifies server`count, server.profiles, client`count, client.profiles
    ensures server.Valid() && client.Valid()
    ensures accepted == Ok && registered == Ok ==>
              && server.Entries() != [] && client.Entries() != []
              && Mirror(server.Entries()[|server.Entries()| - 1], client.Entries()[|client.Entries()| - 1])
  {
    hide Sequence, Next, Glue, ParseRegister, ParseAssign, AssignFields, RegisterLine, AssignLine;
    var sent: Option<string>;
    accepted, sent := AcceptPeer(server, initiator, RegisterLine(responder.localAddress) + "\n", socketAddress, addresses);
    RegisterReads(responder.localAddress, socketAddress, addresses);
    registered := RegisterPeer(client, responder, if sent.Some? then sent.value else [], addresses);
    if accepted == Ok && registered == Ok {
      ghost var ids := Sequence(|old(server.Entries())|);
      AssignLineBack(ids, initiator);
      AssignReads(ids, initiator, addresses);
    }
  }

  // ---------- Several acceptors at one table

  // Between its two critical sections an acceptor holds ids that nobody has reserved.
  datatype Acceptor = Idle | Holding(ids: Ids) | Told(ids: Ids)

  datatype System = System(entries: seq<Ids>, acceptors: seq<Acceptor>, lines: seq<Ids>)

  predicate Initial(s: System) {
    s.entries == [] && s.lines == [] && forall t :: 0 <= t < |s.acceptors| ==> s.acceptors[t] == Idle
  }

  /** Acceptor `t` takes a step: allocate, send the whole line or a part of it, append or be refused. */
  predicate Step(s: System, t: nat, s': System) {
    && t < |s.acceptors|
    && match s.acceptors[t]
       case Idle =>
         |s.entries| < CAPACITY && s' == s.(acceptors := s.acceptors[t := Holding(Sequence(|s.entries|))])
       case Holding(ids) =>
         || s' == s.(acceptors := s.acceptors[t := Told(ids)], lines := s.lines + [ids])
         || s' == s.(acceptors := s.acceptors[t := Idle])
       case Told(ids) =>
         if |s.entries| < CAPACITY && ids == Sequence(|s.entries|)
         then s' == s.(acceptors := s.acceptors[t := Idle], entries := s.entries + [ids])
         else s' == s.(acceptors := s.acceptors[t := Idle])
  }

  ghost predicate Moves(s: System, s': System) {
    exists t: nat :: Step(s, t, s')
  }

  ghost predicate Run(states: seq<System>) {
    states != [] && Initial(states[0]) && forall i :: 0 < i < |states| ==> Moves(states[i - 1], states[i])
  }

  /** Entry i carries group i/100+1 and logon i%100+1, and its line was sent. */
  predicate InSequence(s: System) {
    && (forall i :: 0 <= i < |s.entries| ==> s.entries[i] == Sequence(i) && s.entries[i] in s.lines)
    && (forall t :: 0 <= t < |s.acceptors| && s.acceptors[t].Told? ==> s.acceptors[t].ids in s.lines)
  }

  lemma {:induction false} StepInSequence(s: System, t: nat, s': System)
    requires InSequence(s) && Step(s, t, s')
    ensures InSequence(s') && |s'.acceptors| == |s.acceptors|
  {
  }

  /** Under every interleaving of any number of acceptors the table stays in sequence. */
  lemma {:induction false} TableInSequence(states: seq<System>)
    requires Run(states)
    ensures InSequence(states[|states| - 1]) && |states[|states| - 1].acceptors| == |states[0].acceptors|
    decreases |states|
  {
    if |states| > 1 {
      var n := |states| - 1;
      var before := states[..n];
      assert forall i :: 0 <= i < n ==> before[i] == states[i];
      TableInSequence(before);
      assert Moves(states[n - 1], states[n]);
      var t: nat :| Step(states[n - 1], t, states[n]);
      StepInSequence(states[n - 1], t, states[n]);
    }
  }

  /** With one acceptor the lines are the entries, and one more between sending and appending. */
  predicate LinesAreEntries(s: System) {
    && |s.acceptors| == 1 && |s.entries| <= CAPACITY
    && (s.acceptors[0].Holding? || s.acceptors[0].Told? ==> s.acceptors[0].ids == Sequence(|s.entries|) && |s.entries| < CAPACITY)
    && s.lines == (if s.acceptors[0].Told? then s.entries + [Sequence(|s.entries|)] else s.entries)
  }

  lemma {:induction false} OneAcceptor(states: seq<System>)
    requires Run(states) && |states[0].acceptors| == 1
    ensures LinesAreEntries(states[|states| - 1])
    decreases |states|
  {
    if |states| > 1 {
      var n := |states| - 1;
      var before := states[..n];
      assert forall i :: 0 <= i < n ==> before[i] == states[i];
      OneAcceptor(before);
      assert Moves(states[n - 1], states[n]);
      var t: nat :| Step(states[n - 1], t, states[n]);
    }
  }

  /** With one listener no two complete assignment lines carry the same ids. */
  lemma {:induction false} OneListenerNeverRepeats(states: seq<System>, i: nat, j: nat)
    requires Run(states) && |states[0].acceptors| == 1
    requires i < j < |states[|states| - 1].lines|
    ensures states[|states| - 1].lines[i] != states[|states| - 1].lines[j]
    ensures PeerId(states[|states| - 1].lines[i]) != PeerId(states[|states| - 1].lines[j])
  {
    var s := states[|states| - 1];
    TableInSequence(states);
    OneAcceptor(states);
    assert s.lines[i] == Sequence(i) && s.lines[j] == Sequence(j);
    if PeerId(s.lines[i]) == PeerId(s.lines[j]) {
      PeerIdsDiffer(i, j);
    }
  }

  lemma {:induction false} NoAcceptor(states: seq<System>)
    requires Run(states) && |states[0].acceptors| == 0
    ensures states[|states| - 1].lines == []
  {
    if |states| > 1 {
      NobodyMoves(states[1 - 1], states[1]);
      assert false;
    }
  }

  lemma {:induction false} NobodyMoves(s: System, s': System)
    requires |s.acceptors| == 0
    ensures !Moves(s, s')
  {
  }

  lemma {:induction false} Chain(states: seq<System>)
    requires |states| == 7 && Initial(states[0])
    requires Moves(states[0], states[1]) && Moves(states[1], states[2]) && Moves(states[2], states[3])
    requires Moves(states[3], states[4]) && Moves(states[4], states[5]) && Moves(states[5], states[6])
    ensures Run(states)
  {
    hide Moves, Initial;
  }

  /** With two or more acceptors at one table the same ids can be promised twice; only one of the two is stored. */
  lemma {:induction false} ManyAcceptorsRepeat(n: nat) returns (states: seq<System>)
    requires 2 <= n
    ensures Run(states) && |states[0].acceptors| == n
    ensures states[|states| - 1].lines == [Sequence(0), Sequence(0)] && states[|states| - 1].entries == [Sequence(0)]
  {
    hide Sequence;
    var first, idle := Sequence(0), seq(n, _ => Idle);
    var s0 := System([], idle, []);
    var s1 := s0.(acceptors := idle[0 := Holding(first)]);
    var s2 := s1.(acceptors := s1.acceptors[1 := Holding(first)]);
    var s3 := s2.(acceptors := s2.acceptors[0 := Told(first)], lines := [first]);
    var s4 := s3.(acceptors := s3.acceptors[1 := Told(first)], lines := [first, first]);
    var s5 := s4.(acceptors := s4.acceptors[0 := Idle], entries := [first]);
    var s6 := s5.(acceptors := s5.acceptors[1 := Idle]);
    states := [s0, s1, s2, s3, s4, s5, s6];
    assert [] + [first] == [first] && [first] + [first] == [first, first];
    assert Step(s0, 0, s1) && Step(s1, 1, s2) && Step(s2, 0, s3) && Step(s3, 1, s4) && Step(s4, 0, s5);
    SecondRefused(s5, s6);
    Chain(states);
  }

  lemma {:induction false} SecondRefused(s: System, s': System)
    requires 2 <= |s.acceptors| && s.acceptors[1] == Told(Sequence(0)) && |s.entries| == 1
    requires s' == s.(acceptors := s.acceptors[1 := Idle])
    ensures Step(s, 1, s')
  {
    assert Sequence(1) != Sequence(0);
  }

  predicate Repeats(s: System) {
    exists i, j :: 0 <= i < j < |s.lines| && s.lines[i] == s.lines[j]
  }

  ghost predicate NeverRepeats(n: nat) {
    forall states: seq<System> :: Run(states) && |states[0].acceptors| == n ==> !Repeats(states[|states| - 1])
  }

  /** No run of `n` acceptors at one table promises the same ids twice exactly when there is at most one. */
  lemma {:induction false} NeverRepeatsIff(n: nat)
    ensures NeverRepeats(n) <==> n <= 1
  {
    if n <= 1 {
      forall states: seq<System> | Run(states) && |states[0].acceptors| == n
        ensures !Repeats(states[|states| - 1])
      {
        AtMostOneNeverRepeats(states);
      }
    } else {
      var states := ManyAcceptorsRepeat(n);
      assert states[|states| - 1].lines[0] == states[|states| - 1].lines[1];
      assert Repeats(states[|states| - 1]);
    }
  }

  lemma {:induction false} AtMostOneNeverRepeats(states: seq<System>)
    requires Run(states) && |states[0].acceptors| <= 1
    ensures !Repeats(states[|states| - 1])
  {
    var s := states[|states| - 1];
    if |states[0].acceptors| == 0 {
      NoAcceptor(states);
    } else {
      forall i, j | 0 <= i < j < |s.lines|
        ensures s.lines[i] != s.lines[j]
      {
        OneListenerNeverRepeats(states, i, j);
      }
    }
  }
}
