/** Folding the `list-sa` event stream back into lists of IKE and CHILD security associations. */
module SaCollector {
  import opened Core
  import opened ViciGrammar
  import ViciParser
  import ViciClient
  import ViciTransport

  datatype Ike = Ike(
    name: Bytes, state: Bytes, established: bool, initiator: bool, natLocal: bool, natRemote: bool,
    localAddress: Bytes, remoteAddress: Bytes, localId: Bytes, remoteId: Bytes, proposal: Bytes,
    uniqueId: nat, establishedTimeMs: nat, rekeyTimeMs: nat)

  datatype Child = Child(
    ikeName: Bytes, name: Bytes, state: Bytes, proposal: Bytes, localSelectors: Bytes, remoteSelectors: Bytes,
    mode: Mode, esn: bool, encapsulation: bool, reqid: nat, inboundSpi: nat, outboundSpi: nat,
    bytesIn: nat, bytesOut: nat, packetsIn: nat, packetsOut: nat,
    installTimeMs: nat, rekeyTimeMs: nat, lifetimeMs: nat)

  function NewIke(name: Bytes): Ike {
    Ike(name, [], false, false, false, false, [], [], [], [], [], 0, 0, 0)
  }

  function NewChild(ikeName: Bytes, name: Bytes): Child {
    Child(ikeName, name, [], [], [], [], Unknown, false, false, 0, 0, 0, 0, 0, 0, 0, 0, 0, 0)
  }

  // ---------- Fields

  function ReadSeconds(value: Bytes): (nat, Error) {
    var (n, error) := ReadUint64(value);
    if error != Ok then (0, error) else if n > U64_MAX / 1000 then (0, ViciProtocol) else (n * 1000, Ok)
  }

  function ReadBoolean(value: Bytes): (bool, Error) {
    if value == "yes" || value == "1" then (true, Ok)
    else if value == "no" || value == "0" then (false, Ok)
    else (false, ViciProtocol)
  }

  function AppendProposal(proposal: Bytes, name: Bytes, value: Bytes): (Bytes, Error) {
    if |proposal| >= PROPOSAL_LENGTH then (proposal, BufferTooSmall)
    else if name == "encr-keysize" then
      var (size, error) := ReadUint32(value);
      if error != Ok then (proposal, error)
      else if size == 0 then (proposal, ViciProtocol)
      else AppendText(PROPOSAL_LENGTH, proposal, value, "-")
    else AppendText(PROPOSAL_LENGTH, proposal, value, "/")
  }

  predicate IsProposalField(name: Bytes) {
    name == "encr-alg" || name == "integ-alg" || name == "prf-alg" || name == "dh-group" || name == "encr-keysize"
  }

  /** `CollectIkeValue` on the current entry. */
  function IkeField(ike: Ike, name: Bytes, value: Bytes): (Ike, Error) {
    if name == "uniqueid" then
      var (n, error) := ReadUint64(value); (ike.(uniqueId := if error == Ok then n else ike.uniqueId), error)
    else if name == "state" then
      var (text, error) := CopyText(STATE_LENGTH, value);
      (ike.(state := text, established := if error == Ok then value == "ESTABLISHED" else ike.established), error)
    else if name == "local-host" then
      var (text, error) := CopyText(ADDRESS_LENGTH, value); (ike.(localAddress := text), error)
    else if name == "remote-host" then
      var (text, error) := CopyText(ADDRESS_LENGTH, value); (ike.(remoteAddress := text), error)
    else if name == "local-id" then
      var (text, error) := CopyText(ID_LENGTH, value); (ike.(localId := text), error)
    else if name == "remote-id" then
      var (text, error) := CopyText(ID_LENGTH, value); (ike.(remoteId := text), error)
    else if name == "initiator" then
      var (b, error) := ReadBoolean(value); (ike.(initiator := if error == Ok then b else ike.initiator), error)
    else if name == "nat-local" then
      var (b, error) := ReadBoolean(value); (ike.(natLocal := if error == Ok then b else ike.natLocal), error)
    else if name == "nat-remote" then
      var (b, error) := ReadBoolean(value); (ike.(natRemote := if error == Ok then b else ike.natRemote), error)
    else if name == "established" then
      var (n, error) := ReadSeconds(value); (ike.(establishedTimeMs := if error == Ok then n else ike.establishedTimeMs), error)
    else if name == "rekey-time" then
      var (n, error) := ReadSeconds(value); (ike.(rekeyTimeMs := if error == Ok then n else ike.rekeyTimeMs), error)
    else if IsProposalField(name) then
      var (text, error) := AppendProposal(ike.proposal, name, value); (ike.(proposal := text), error)
    else (ike, Ok)
  }

  function ModeOf(value: Bytes): Mode {
    if value == "tunnel" || value == "TUNNEL" then Tunnel
    else if value == "transport" || value == "TRANSPORT" then Transport
    else if value == "beet" || value == "BEET" then Beet
    else Unknown
  }

  /** `CollectChildValue` on the current entry. */
  function ChildField(child: Child, name: Bytes, value: Bytes): (Child, Error) {
    if name == "name" then
      var (text, error) := CopyText(NAME_LENGTH, value); (child.(name := text), error)
    else if name == "state" then
      var (text, error) := CopyText(STATE_LENGTH, value); (child.(state := text), error)
    else if name == "reqid" then
      var (n, error) := ReadUint32(value); (child.(reqid := if error == Ok then n else child.reqid), error)
    else if name == "spi-in" then
      var (n, error) := ReadHex32(value); (child.(inboundSpi := if error == Ok then n else child.inboundSpi), error)
    else if name == "spi-out" then
      var (n, error) := ReadHex32(value); (child.(outboundSpi := if error == Ok then n else child.outboundSpi), error)
    else if name == "mode" then (child.(mode := ModeOf(value)), Ok)
    else if name == "encap" then
      var (b, error) := ReadBoolean(value); (child.(encapsulation := if error == Ok then b else child.encapsulation), error)
    else if name == "esn" then
      var (b, error) := ReadBoolean(value); (child.(esn := if error == Ok then b else child.esn), error)
    else if name == "bytes-in" then
      var (n, error) := ReadUint64(value); (child.(bytesIn := if error == Ok then n else child.bytesIn), error)
    else if name == "bytes-out" then
      var (n, error) := ReadUint64(value); (child.(bytesOut := if error == Ok then n else child.bytesOut), error)
    else if name == "packets-in" then
      var (n, error) := ReadUint64(value); (child.(packetsIn := if error == Ok then n else child.packetsIn), error)
    else if name == "packets-out" then
      var (n, error) := ReadUint64(value); (child.(packetsOut := if error == Ok then n else child.packetsOut), error)
    else if name == "install-time" then
      var (n, error) := ReadSeconds(value); (child.(installTimeMs := if error == Ok then n else child.installTimeMs), error)
    else if name == "rekey-time" then
      var (n, error) := ReadSeconds(value); (child.(rekeyTimeMs := if error == Ok then n else child.rekeyTimeMs), error)
    else if name == "life-time" then
      var (n, error) := ReadSeconds(value); (child.(lifetimeMs := if error == Ok then n else child.lifetimeMs), error)
    else if IsProposalField(name) then
      var (text, error) := AppendProposal(child.proposal, name, value); (child.(proposal := text), error)
    else (child, Ok)
  }

  /** One item of a list inside a CHILD section. */
  function ChildItem(child: Child, list: Bytes, value: Bytes): (Child, Error) {
    if list == "local-ts" && |child.localSelectors| < SELECTOR_LIST_LENGTH then
      var (text, error) := AppendText(SELECTOR_LIST_LENGTH, child.localSelectors, value, ",");
      (child.(localSelectors := text), error)
    else if list == "remote-ts" && |child.remoteSelectors| < SELECTOR_LIST_LENGTH then
      var (text, error) := AppendText(SELECTOR_LIST_LENGTH, child.remoteSelectors, value, ",");
      (child.(remoteSelectors := text), error)
    else (child, Ok)
  }

  // ---------- The collector's state and its step

  // The lists and the memory left for them.  `grants` is how many more reallocations will succeed.
  datatype Lists = Lists(ikes: seq<Ike>, children: seq<Child>, grants: nat)

  // Where the collector stands in the message.  A pointer into a list is an index.
  datatype Place = Place(currentIke: Option<nat>, currentChild: Option<nat>, ikeName: Bytes,
                         sections: seq<Bytes>, listName: Bytes)

  datatype Wanted = Wanted(ikes: bool, children: bool)

  datatype State = State(wanted: Wanted, lists: Lists, place: Place)

  // Between two messages nothing is current.
  const REST := Place(None, None, [], NoSections(), [])

  function AppendIke(s: State, name: Bytes): (State, Error) {
    if !s.wanted.ikes then (s.(place := s.place.(currentIke := None)), Ok)
    else if |s.lists.ikes| == U32_MAX || s.lists.grants == 0 then (s, NoMemory)
    else
      (s.(lists := s.lists.(ikes := s.lists.ikes + [NewIke(name)], grants := s.lists.grants - 1),
          place := s.place.(currentIke := Some(|s.lists.ikes|))), Ok)
  }

  function AppendChild(s: State, name: Bytes): (State, Error) {
    if !s.wanted.children then (s.(place := s.place.(currentChild := None)), Ok)
    else if |s.lists.children| == U32_MAX || s.lists.grants == 0 then (s, NoMemory)
    else
      (s.(lists := s.lists.(children := s.lists.children + [NewChild(s.place.ikeName, name)], grants := s.lists.grants - 1),
          place := s.place.(currentChild := Some(|s.lists.children|))), Ok)
  }

  /** `CollectSaSectionStart`. */
  function StartSection(s: State, name: Bytes, depth: nat): (State, Error)
    requires 1 <= depth <= |s.place.sections|
  {
    var (text, error) := CopyText(NAME_LENGTH, name);
    var entered := s.(place := s.place.(sections := s.place.sections[depth - 1 := text]));
    if error != Ok then (entered, error)
    else if depth == 1 then AppendIke(entered.(place := entered.place.(ikeName := text)), text)
    else if depth == 3 && entered.place.sections[1] == "child-sas" then AppendChild(entered, text)
    else (entered, Ok)
  }

  function EndSection(s: State, depth: nat): State
    requires 1 <= depth <= |s.place.sections|
  {
    var p := s.place.(sections := s.place.sections[depth - 1 := []]);
    s.(place := if depth == 3 then p.(currentChild := None)
                else if depth == 1 then p.(currentIke := None, ikeName := [])
                else p)
  }

  function UpdateIke(s: State, name: Bytes, value: Bytes): (State, Error) {
    if s.place.currentIke.Some? && s.place.currentIke.value < |s.lists.ikes| then
      var i := s.place.currentIke.value;
      var (ike, error) := IkeField(s.lists.ikes[i], name, value);
      (s.(lists := s.lists.(ikes := s.lists.ikes[i := ike])), error)
    else (s, Ok)
  }

  function UpdateChild(s: State, update: Child -> (Child, Error)): (State, Error) {
    if s.place.currentChild.Some? && s.place.currentChild.value < |s.lists.children| then
      var i := s.place.currentChild.value;
      var (child, error) := update(s.lists.children[i]);
      (s.(lists := s.lists.(children := s.lists.children[i := child])), error)
    else (s, Ok)
  }

  /** `CollectSaElement`. */
  function Collect(s: State, e: Event): (State, Error) {
    match e
    case SectionStart(name, depth) =>
      if 1 <= depth <= |s.place.sections| then StartSection(s, name, depth) else (s, ViciProtocol)
    case SectionEnd(depth) =>
      if 1 <= depth <= |s.place.sections| then (EndSection(s, depth), Ok) else (s, ViciProtocol)
    case ListStart(name, _) =>
      var (text, error) := CopyText(NAME_LENGTH, name);
      (s.(place := s.place.(listName := text)), error)
    case ListEnd(_) => (s.(place := s.place.(listName := [])), Ok)
    case ListItem(value, depth) =>
      if depth == 3 then UpdateChild(s, child => ChildItem(child, s.place.listName, value)) else (s, Ok)
    case KeyValue(name, value, depth) =>
      if depth == 1 then UpdateIke(s, name, value)
      else if depth == 3 && 1 < |s.place.sections| && s.place.sections[1] == "child-sas" then
        UpdateChild(s, child => ChildField(child, name, value))
      else (s, Ok)
  }

  /** The pointers are null or point at the last entry of their list, whatever events arrive. */
  predicate PointersAtEnd(s: State) {
    && (s.place.currentIke.Some? ==> s.place.currentIke.value == |s.lists.ikes| - 1)
    && (s.place.currentChild.Some? ==> s.place.currentChild.value == |s.lists.children| - 1)
  }

  lemma {:induction false} PointersStayAtEnd(s: State, e: Event)
    requires PointersAtEnd(s)
    ensures PointersAtEnd(Collect(s, e).0)
  {
  }

  // ---------- What the lists mean, read off the message trees

  /** Every section and list name must fit its buffer, wherever it stands. */
  predicate NamesFit(f: Forest) {
    match f
    case Empty => true
    case Section(name, body, rest) => |name| < NAME_LENGTH && NamesFit(body) && NamesFit(rest)
    case Pair(_, _, rest) => NamesFit(rest)
    case List(name, _, rest) => |name| < NAME_LENGTH && NamesFit(rest)
  }

  /** An IKE entry is built from the pairs directly inside its section. */
  function IkeOf(ike: Ike, body: Forest): Option<Ike>
    decreases body
  {
    match body
    case Empty => Some(ike)
    case Pair(name, value, rest) =>
      var (next, error) := IkeField(ike, name, value);
      if error != Ok then None else IkeOf(next, rest)
    case Section(_, _, rest) => IkeOf(ike, rest)
    case List(_, _, rest) => IkeOf(ike, rest)
  }

  function ItemsOf(child: Child, list: Bytes, items: seq<Bytes>): Option<Child>
    decreases |items|
  {
    if items == [] then Some(child)
    else
      var (next, error) := ChildItem(child, list, items[0]);
      if error != Ok then None else ItemsOf(next, list, items[1..])
  }

  /** A CHILD entry is built from the pairs and lists directly inside its section. */
  function ChildOf(child: Child, body: Forest): Option<Child>
    decreases body
  {
    match body
    case Empty => Some(child)
    case Pair(name, value, rest) =>
      var (next, error) := ChildField(child, name, value);
      if error != Ok then None else ChildOf(next, rest)
    case Section(_, _, rest) => ChildOf(child, rest)
    case List(name, items, rest) =>
      var next := ItemsOf(child, CText(name), items);
      if next.None? then None else ChildOf(next.value, rest)
  }

  /** One CHILD entry per section inside "child-sas". */
  function ChildrenIn(ikeName: Bytes, f: Forest): Option<seq<Child>> {
    match f
    case Empty => Some([])
    case Section(name, body, rest) =>
      var child := ChildOf(NewChild(ikeName, CText(name)), body);
      var others := ChildrenIn(ikeName, rest);
      if child.None? || others.None? then None else Some([child.value] + others.value)
    case Pair(_, _, rest) => ChildrenIn(ikeName, rest)
    case List(_, _, rest) => ChildrenIn(ikeName, rest)
  }

  function ChildrenOfIke(ikeName: Bytes, body: Forest): Option<seq<Child>> {
    match body
    case Empty => Some([])
    case Section(name, inner, rest) =>
      var here := if CText(name) == "child-sas" then ChildrenIn(ikeName, inner) else Some([]);
      var others := ChildrenOfIke(ikeName, rest);
      if here.None? || others.None? then None else Some(here.value + others.value)
    case Pair(_, _, rest) => ChildrenOfIke(ikeName, rest)
    case List(_, _, rest) => ChildrenOfIke(ikeName, rest)
  }

  /** The IKE entries of a message: one per top-level section. */
  function Ikes(f: Forest): Option<seq<Ike>> {
    match f
    case Empty => Some([])
    case Section(name, body, rest) =>
      var ike := IkeOf(NewIke(CText(name)), body);
      var others := Ikes(rest);
      if ike.None? || others.None? then None else Some([ike.value] + others.value)
    case Pair(_, _, rest) => Ikes(rest)
    case List(_, _, rest) => Ikes(rest)
  }

  /** The CHILD entries of a message, each with the name of the top-level section around it. */
  function Children(f: Forest): Option<seq<Child>> {
    match f
    case Empty => Some([])
    case Section(name, body, rest) =>
      var here := ChildrenOfIke(CText(name), body);
      var others := Children(rest);
      if here.None? || others.None? then None else Some(here.value + others.value)
    case Pair(_, _, rest) => Children(rest)
    case List(_, _, rest) => Children(rest)
  }

  // ---------- Running the collector over a tree

  function Run(s: State, es: seq<Event>): Option<State> {
    ViciParser.Run(Collect, s, es)
  }

  function Then(s: Option<State>, es: seq<Event>): Option<State> {
    ViciParser.Then(Collect, s, es)
  }

  // ---------- Levels whose contents are not represented

  /** Inside `depth` sections, between two elements: no list is open and no deeper section is named. */
  predicate Tidy(s: State, depth: nat) {
    && |s.place.sections| == MAX_DEPTH
    && s.place.listName == []
    && (forall i :: depth <= i < MAX_DEPTH ==> s.place.sections[i] == [])
  }

  predicate Ignored(s: State, depth: nat) {
    depth >= 4 || (2 <= depth <= 3 && Tidy(s, depth) && s.place.currentChild.None? && s.place.sections[1] != "child-sas")
  }

  lemma {:induction false} ItemsIgnored(s: State, items: seq<Bytes>, depth: nat)
    requires depth != 3 || s.place.currentChild.None?
    ensures Run(s, ItemEvents(items, depth)) == Some(s.(place := s.place.(listName := [])))
    decreases |items|
  {
    if items == [] {
      ViciParser.RunOne(Collect, s, ListEnd(depth));
    } else {
      ViciParser.RunItems(Collect, s, items, depth);
      ItemsIgnored(s, items[1..], depth);
    }
  }

  lemma {:induction false} ListIgnored(s: State, name: Bytes, items: seq<Bytes>, rest: Forest, depth: nat)
    requires Tidy(s, depth) && (depth != 3 || s.place.currentChild.None?)
    ensures Run(s, Events(List(name, items, rest), depth)) ==
            if |name| < NAME_LENGTH then Run(s, Events(rest, depth)) else None
  {
    ViciParser.RunList(Collect, s, name, items, rest, depth);
    var named := s.(place := s.place.(listName := CText(name)));
    if |name| < NAME_LENGTH {
      ItemsIgnored(named, items, depth);
      assert named.(place := named.place.(listName := [])) == s;
    }
  }

  lemma {:induction false} LevelIgnored(s: State, f: Forest, depth: nat)
    requires Valid(f, depth) && Tidy(s, depth) && Ignored(s, depth)
    ensures Run(s, Events(f, depth)) == if NamesFit(f) then Some(s) else None
    decreases f, 0
  {
    match f
    case Empty =>
    case Pair(name, value, rest) =>
      ViciParser.RunPair(Collect, s, name, value, rest, depth);
      LevelIgnored(s, rest, depth);
    case List(name, items, rest) =>
      ListIgnored(s, name, items, rest, depth);
      LevelIgnored(s, rest, depth);
    case Section(name, body, rest) =>
      SectionIgnored(s, name, body, rest, depth);
      LevelIgnored(s, rest, depth);
  }

  lemma {:induction false} EntersIgnored(s: State, name: Bytes, depth: nat)
    requires ValidName(name) && depth < MAX_DEPTH && Tidy(s, depth) && Ignored(s, depth)
    ensures var entered := Entered(s, depth, CText(name));
            && ViciParser.Kept(Collect(s, SectionStart(name, depth + 1))) == (if |name| < NAME_LENGTH then Some(entered) else None)
            && (|name| < NAME_LENGTH ==> Tidy(entered, depth + 1) && Ignored(entered, depth + 1))
  {
  }

  lemma {:induction false} LeavesIgnored(s: State, text: Bytes, depth: nat)
    requires depth < MAX_DEPTH && Tidy(s, depth) && Ignored(s, depth)
    ensures Run(Entered(s, depth, text), [SectionEnd(depth + 1)]) == Some(s)
  {
    ViciParser.RunOne(Collect, Entered(s, depth, text), SectionEnd(depth + 1));
    Restored(s, depth, text);
  }

  lemma {:induction false} SectionIgnored(s: State, name: Bytes, body: Forest, rest: Forest, depth: nat)
    requires Valid(Section(name, body, rest), depth) && Tidy(s, depth) && Ignored(s, depth)
    ensures Run(s, Events(Section(name, body, rest), depth)) ==
            if |name| < NAME_LENGTH && NamesFit(body) then Run(s, Events(rest, depth)) else None
    decreases body, 1
  {
    hide Collect, Ignored, Entered;
    ViciParser.RunSection(Collect, s, name, body, rest, depth);
    EntersIgnored(s, name, depth);
    LeavesIgnored(s, CText(name), depth);
    if |name| < NAME_LENGTH {
      LevelIgnored(Entered(s, depth, CText(name)), body, depth + 1);
    }
  }

  function Entered(s: State, depth: nat, text: Bytes): State
    requires depth < |s.place.sections|
  {
    s.(place := s.place.(sections := s.place.sections[depth := text]))
  }

  lemma {:induction false} Restored(s: State, depth: nat, text: Bytes)
    requires depth < MAX_DEPTH && Tidy(s, depth)
    ensures s.place.sections[depth := text][depth := []] == s.place.sections
  {
  }

  // ---------- Inside one CHILD section

  function WithChild(s: State, child: Child): State
    requires s.wanted.children ==> s.lists.children != []
  {
    if !s.wanted.children then s
    else s.(lists := s.lists.(children := s.lists.children[|s.lists.children| - 1 := child]))
  }

  /** Inside a CHILD section that is being collected if CHILDs are wanted. */
  predicate InChild(s: State) {
    && Tidy(s, 3)
    && s.place.sections[1] == "child-sas"
    && (s.wanted.children ==> s.lists.children != [])
    && s.place.currentChild == if s.wanted.children then Some(|s.lists.children| - 1) else None
  }

  function Current(s: State): Child {
    if s.wanted.children && s.lists.children != [] then s.lists.children[|s.lists.children| - 1] else NewChild([], [])
  }

  /** What a CHILD body should lead to; nothing is parsed when CHILDs are not wanted. */
  function ChildBodyResult(s: State, names: bool, child: Option<Child>): Option<State>
    requires InChild(s)
  {
    if !names then None
    else if !s.wanted.children then Some(s)
    else if child.None? then None
    else Some(WithChild(s, child.value))
  }

  lemma {:induction false} WrittenBack(s: State)
    requires InChild(s)
    ensures WithChild(s, Current(s)) == s
  {
  }

  lemma {:induction false} WrittenTwice(s: State, first: Child, child: Option<Child>)
    requires InChild(s)
    ensures InChild(WithChild(s, first))
    ensures s.wanted.children ==> Current(WithChild(s, first)) == first
    ensures ChildBodyResult(WithChild(s, first), true, child) == ChildBodyResult(s, true, child)
  {
    if s.wanted.children && child.Some? {
      assert WithChild(WithChild(s, first), child.value).lists.children == WithChild(s, child.value).lists.children;
    }
  }

  lemma {:induction false} ItemStep(s: State, value: Bytes)
    requires InChild(s.(place := s.place.(listName := []))) && s.wanted.children
    ensures var (next, error) := ChildItem(Current(s), s.place.listName, value);
            Collect(s, ListItem(value, 3)) == (WithChild(s, next), error)
  {
  }

  lemma {:induction false} ItemsCollected(s: State, list: Bytes, items: seq<Bytes>)
    requires InChild(s.(place := s.place.(listName := []))) && s.place.listName == list
    ensures var closed := s.(place := s.place.(listName := []));
            Run(s, ItemEvents(items, 3)) == ChildBodyResult(closed, true, ItemsOf(Current(s), list, items))
    decreases |items|
  {
    var closed := s.(place := s.place.(listName := []));
    if items == [] {
      ViciParser.RunOne(Collect, s, ListEnd(3));
      WrittenBack(closed);
    } else {
      ViciParser.RunItems(Collect, s, items, 3);
      if s.wanted.children {
        var (next, error) := ChildItem(Current(s), list, items[0]);
        ItemStep(s, items[0]);
        if error == Ok {
          ItemsCollected(WithChild(s, next), list, items[1..]);
          WrittenTwice(closed, next, ItemsOf(next, list, items[1..]));
        }
      } else {
        ItemsCollected(s, list, items[1..]);
      }
    }
  }

  lemma {:induction false} ChildCollected(s: State, f: Forest)
    requires Valid(f, 3) && InChild(s)
    ensures Run(s, Events(f, 3)) == ChildBodyResult(s, NamesFit(f), ChildOf(Current(s), f))
    decreases f, 0
  {
    match f
    case Empty => WrittenBack(s);
    case Pair(name, value, rest) => ChildPairCollected(s, name, value, rest);
    case List(name, items, rest) => ChildListCollected(s, name, items, rest);
    case Section(name, body, rest) =>
      ViciParser.RunSection(Collect, s, name, body, rest, 3);
      if |name| < NAME_LENGTH {
        var entered := Entered(s, 3, CText(name));
        LevelIgnored(entered, body, 4);
        ViciParser.RunOne(Collect, entered, SectionEnd(4));
        Restored(s, 3, CText(name));
        ChildCollected(s, rest);
      }
  }

  lemma {:induction false} ChildPair(s: State, name: Bytes, value: Bytes)
    requires InChild(s)
    ensures Collect(s, KeyValue(name, value, 3)) ==
            if s.wanted.children then
              (WithChild(s, ChildField(Current(s), name, value).0), ChildField(Current(s), name, value).1)
            else (s, Ok)
  {
    hide ChildField;
  }

  lemma {:induction false} ChildPairCollected(s: State, name: Bytes, value: Bytes, rest: Forest)
    requires Valid(Pair(name, value, rest), 3) && InChild(s)
    ensures Run(s, Events(Pair(name, value, rest), 3)) ==
            ChildBodyResult(s, NamesFit(rest), ChildOf(Current(s), Pair(name, value, rest)))
    decreases rest, 1
  {
    hide ChildField;
    ViciParser.RunPair(Collect, s, name, value, rest, 3);
    ChildPair(s, name, value);
    var (next, error) := ChildField(Current(s), name, value);
    if !s.wanted.children {
      ChildCollected(s, rest);
    } else if error == Ok {
      WrittenTwice(s, next, ChildOf(next, rest));
      ChildCollected(WithChild(s, next), rest);
    }
  }

  lemma {:induction false} ChildListCollected(s: State, name: Bytes, items: seq<Bytes>, rest: Forest)
    requires Valid(List(name, items, rest), 3) && InChild(s)
    ensures Run(s, Events(List(name, items, rest), 3)) ==
            ChildBodyResult(s, NamesFit(List(name, items, rest)), ChildOf(Current(s), List(name, items, rest)))
    decreases rest, 1
  {
    ViciParser.RunList(Collect, s, name, items, rest, 3);
    if |name| < NAME_LENGTH {
      var named := s.(place := s.place.(listName := CText(name)));
      assert named.(place := named.place.(listName := [])) == s;
      ItemsCollected(named, CText(name), items);
      var next := ItemsOf(Current(s), CText(name), items);
      if !s.wanted.children {
        ChildCollected(s, rest);
      } else if next.Some? {
        WrittenTwice(s, next.value, ChildOf(next.value, rest));
        ChildCollected(WithChild(s, next.value), rest);
      }
    }
  }

  // ---------- The sections in "child-sas", in an IKE section, in a message

  /** Whether the collector can still take this many entries. */
  predicate Room(l: Lists, ikes: nat, children: nat) {
    && |l.ikes| + ikes <= U32_MAX
    && |l.children| + children <= U32_MAX
    && ikes + children <= l.grants
  }

  function Extend(s: State, ikes: seq<Ike>, children: seq<Child>): State
    requires Room(s.lists, |ikes|, |children|)
  {
    s.(lists := Lists(s.lists.ikes + ikes, s.lists.children + children, s.lists.grants - |ikes| - |children|))
  }

  function IfWanted<T>(wanted: bool, entries: Option<seq<T>>): Option<seq<T>> {
    if wanted then entries else Some([])
  }

  function Extended(s: State, names: bool, ikes: Option<seq<Ike>>, children: Option<seq<Child>>): Option<State> {
    var i, c := IfWanted(s.wanted.ikes, ikes), IfWanted(s.wanted.children, children);
    if !names || i.None? || c.None? || !Room(s.lists, |i.value|, |c.value|) then None
    else Some(Extend(s, i.value, c.value))
  }

  predicate InChildSas(s: State) {
    && Tidy(s, 2)
    && s.place.sections[1] == "child-sas"
    && s.place.currentChild.None?
    && Room(s.lists, 0, 0)
  }

  /** The state inside a section of "child-sas" just opened. */
  function OpenedChild(s: State, text: Bytes): State
    requires InChildSas(s) && Room(s.lists, 0, if s.wanted.children then 1 else 0)
  {
    var added := Entered(Extend(s, [], if s.wanted.children then [NewChild(s.place.ikeName, text)] else []), 2, text);
    added.(place := added.place.(currentChild := if s.wanted.children then Some(|s.lists.children|) else None))
  }

  lemma {:induction false} ChildOpens(s: State, name: Bytes)
    requires ValidName(name) && InChildSas(s)
    ensures ViciParser.Kept(Collect(s, SectionStart(name, 3))) ==
            if |name| < NAME_LENGTH && Room(s.lists, 0, if s.wanted.children then 1 else 0)
            then Some(OpenedChild(s, CText(name))) else None
  {
    assert s.lists.ikes + [] == s.lists.ikes && s.lists.children + [] == s.lists.children;
  }

  lemma {:induction false} ChildCloses(s: State, t: State, text: Bytes)
    requires InChildSas(s) && Room(s.lists, 0, if s.wanted.children then 1 else 0)
    requires t.place == OpenedChild(s, text).place
    ensures Run(t, [SectionEnd(3)]) == Some(t.(place := s.place))
  {
    ViciParser.RunOne(Collect, t, SectionEnd(3));
    Restored(s, 2, text);
  }

  lemma {:induction false} OpenedThenChild(s: State, text: Bytes, names: bool, child: Option<Child>)
    requires InChildSas(s) && Room(s.lists, 0, if s.wanted.children then 1 else 0)
    ensures InChild(OpenedChild(s, text))
    ensures s.wanted.children ==> Current(OpenedChild(s, text)) == NewChild(s.place.ikeName, text)
    ensures var end := ChildBodyResult(OpenedChild(s, text), names, child);
            && (end.Some? ==> end.value.place == OpenedChild(s, text).place)
            && (if end.None? then None else Some(end.value.(place := s.place))) ==
               Extended(s, names, Some([]), if child.None? then None else Some([child.value]))
  {
    assert s.lists.ikes + [] == s.lists.ikes && s.lists.children + [] == s.lists.children;
    if s.wanted.children && child.Some? {
      assert WithChild(OpenedChild(s, text), child.value).lists.children == s.lists.children + [child.value];
    }
  }

  /** One section inside "child-sas": an entry is opened, filled and closed again. */
  lemma {:induction false} OneChild(s: State, name: Bytes, body: Forest)
    requires Valid(Section(name, body, Empty), 2) && InChildSas(s)
    ensures var one := ChildOf(NewChild(s.place.ikeName, CText(name)), body);
            Then(Then(ViciParser.Kept(Collect(s, SectionStart(name, 3))), Events(body, 3)), [SectionEnd(3)]) ==
            Extended(s, |name| < NAME_LENGTH && NamesFit(body), Some([]), if one.None? then None else Some([one.value]))
  {
    var text := CText(name);
    ChildOpens(s, name);
    if |name| < NAME_LENGTH && Room(s.lists, 0, if s.wanted.children then 1 else 0) {
      var start := OpenedChild(s, text);
      var child := ChildOf(NewChild(s.place.ikeName, text), body);
      OpenedThenChild(s, text, NamesFit(body), child);
      ChildCollected(start, body);
      var end := Run(start, Events(body, 3));
      assert end == ChildBodyResult(start, NamesFit(body), child);
      if end.Some? {
        ChildCloses(s, end.value, text);
      }
    }
  }

  /** `a` and then `b`, when both are there. */
  function Both<T>(a: Option<seq<T>>, b: Option<seq<T>>): Option<seq<T>> {
    if a.None? || b.None? then None else Some(a.value + b.value)
  }

  lemma {:induction false} ExtendedTwice(s: State, names: bool, ikes: Option<seq<Ike>>, children: Option<seq<Child>>,
                                         moreNames: bool, moreIkes: Option<seq<Ike>>, moreChildren: Option<seq<Child>>)
    ensures var first := Extended(s, names, ikes, children);
            (if first.None? then None else Extended(first.value, moreNames, moreIkes, moreChildren)) ==
            Extended(s, names && moreNames, Both(ikes, moreIkes), Both(children, moreChildren))
  {
    var first := Extended(s, names, ikes, children);
    if first.Some? {
      var i, c := IfWanted(s.wanted.ikes, ikes).value, IfWanted(s.wanted.children, children).value;
      var second := Extended(first.value, moreNames, moreIkes, moreChildren);
      if second.Some? {
        var j, d := IfWanted(s.wanted.ikes, moreIkes).value, IfWanted(s.wanted.children, moreChildren).value;
        Regroup(s.lists.ikes, i, j);
        Regroup(s.lists.children, c, d);
      }
    }
  }

  lemma {:induction false} BothNothing<T>()
    ensures Both<T>(Some([]), Some([])) == Some([])
  {
    var none: seq<T> := [];
    assert none + none == none;
  }

  lemma {:induction false} ExtendedByNothing(s: State)
    requires Room(s.lists, 0, 0)
    ensures Extended(s, true, Some([]), Some([])) == Some(s)
  {
    assert s.lists.ikes + [] == s.lists.ikes && s.lists.children + [] == s.lists.children;
  }

  lemma {:induction false} ChildSectionRun(s: State, name: Bytes, body: Forest, rest: Forest)
    requires Valid(Section(name, body, rest), 2) && InChildSas(s)
    ensures var one := ChildOf(NewChild(s.place.ikeName, CText(name)), body);
            var first := Extended(s, |name| < NAME_LENGTH && NamesFit(body), Some([]), if one.None? then None else Some([one.value]));
            Run(s, Events(Section(name, body, rest), 2)) ==
            if first.None? then None else Run(first.value, Events(rest, 2))
  {
    hide Extended, ChildOf, Collect;
    ViciParser.RunSection(Collect, s, name, body, rest, 2);
    OneChild(s, name, body);
  }

  lemma {:induction false} StillInChildSas(s: State, names: bool, ikes: Option<seq<Ike>>, children: Option<seq<Child>>)
    requires InChildSas(s)
    ensures var first := Extended(s, names, ikes, children);
            first.Some? ==> InChildSas(first.value) && first.value.place == s.place && first.value.wanted == s.wanted
  {
  }

  lemma {:induction false} ChildSasCollected(s: State, f: Forest)
    requires Valid(f, 2) && InChildSas(s)
    ensures Run(s, Events(f, 2)) == Extended(s, NamesFit(f), Some([]), ChildrenIn(s.place.ikeName, f))
    decreases f, 0
  {
    match f
    case Empty => ExtendedByNothing(s);
    case Pair(name, value, rest) =>
      ViciParser.RunPair(Collect, s, name, value, rest, 2);
      ChildSasCollected(s, rest);
    case List(name, items, rest) =>
      ListIgnored(s, name, items, rest, 2);
      ChildSasCollected(s, rest);
    case Section(name, body, rest) => ChildSasSectionCollected(s, name, body, rest);
  }

  lemma {:induction false} ChildSasSectionCollected(s: State, name: Bytes, body: Forest, rest: Forest)
    requires Valid(Section(name, body, rest), 2) && InChildSas(s)
    ensures var f := Section(name, body, rest);
            Run(s, Events(f, 2)) == Extended(s, NamesFit(f), Some([]), ChildrenIn(s.place.ikeName, f))
    decreases rest, 1
  {
    hide Run, Extended, InChildSas, ChildOf;
    var names := |name| < NAME_LENGTH && NamesFit(body);
    var one := ChildOf(NewChild(s.place.ikeName, CText(name)), body);
    var entry := if one.None? then None else Some([one.value]);
    ChildSectionRun(s, name, body, rest);
    StillInChildSas(s, names, Some([]), entry);
    var first := Extended(s, names, Some([]), entry);
    if first.Some? {
      ChildSasCollected(first.value, rest);
    }
    ExtendedTwice(s, names, Some([]), entry, NamesFit(rest), Some([]), ChildrenIn(s.place.ikeName, rest));
    BothNothing<Ike>();
  }

  // ---------- Inside one IKE section

  function WithIke(s: State, ike: Ike): State
    requires s.wanted.ikes ==> s.lists.ikes != []
  {
    if !s.wanted.ikes then s else s.(lists := s.lists.(ikes := s.lists.ikes[|s.lists.ikes| - 1 := ike]))
  }

  function CurrentIke(s: State): Ike {
    if s.wanted.ikes && s.lists.ikes != [] then s.lists.ikes[|s.lists.ikes| - 1] else NewIke([])
  }

  predicate InIke(s: State) {
    && Tidy(s, 1)
    && Room(s.lists, 0, 0)
    && s.place.currentChild.None?
    && (s.wanted.ikes ==> s.lists.ikes != [])
    && s.place.currentIke == if s.wanted.ikes then Some(|s.lists.ikes| - 1) else None
  }

  /** What an IKE body should lead to: its own fields in the open entry, its CHILDs appended. */
  function IkeBodyResult(s: State, names: bool, ike: Option<Ike>, children: Option<seq<Child>>): Option<State>
    requires InIke(s)
  {
    if s.wanted.ikes && ike.None? then None
    else Extended(if s.wanted.ikes then WithIke(s, ike.value) else s, names, Some([]), children)
  }

  lemma {:induction false} IkePair(s: State, name: Bytes, value: Bytes)
    requires InIke(s)
    ensures Collect(s, KeyValue(name, value, 1)) ==
            if s.wanted.ikes then
              (WithIke(s, IkeField(CurrentIke(s), name, value).0), IkeField(CurrentIke(s), name, value).1)
            else (s, Ok)
  {
    hide IkeField;
  }

  lemma {:induction false} IkeWrittenTwice(s: State, first: Ike, names: bool, ike: Option<Ike>, children: Option<seq<Child>>)
    requires InIke(s)
    ensures InIke(WithIke(s, first))
    ensures s.wanted.ikes ==> CurrentIke(WithIke(s, first)) == first
    ensures s.wanted.ikes ==> IkeBodyResult(WithIke(s, first), names, ike, children) == IkeBodyResult(s, names, ike, children)
  {
    if s.wanted.ikes && ike.Some? {
      assert WithIke(WithIke(s, first), ike.value).lists.ikes == WithIke(s, ike.value).lists.ikes;
    }
  }

  lemma {:induction false} IkePairCollected(s: State, name: Bytes, value: Bytes, rest: Forest)
    requires Valid(Pair(name, value, rest), 1) && InIke(s)
    ensures var f := Pair(name, value, rest);
            Run(s, Events(f, 1)) ==
            IkeBodyResult(s, NamesFit(f), IkeOf(CurrentIke(s), f), ChildrenOfIke(s.place.ikeName, f))
    decreases rest, 1
  {
    hide IkeField;
    ViciParser.RunPair(Collect, s, name, value, rest, 1);
    IkePair(s, name, value);
    var (next, error) := IkeField(CurrentIke(s), name, value);
    if !s.wanted.ikes {
      IkeCollected(s, rest);
    } else if error == Ok {
      IkeWrittenTwice(s, next, NamesFit(rest), IkeOf(next, rest), ChildrenOfIke(s.place.ikeName, rest));
      IkeCollected(WithIke(s, next), rest);
    }
  }

  lemma {:induction false} ChildSasSection(s: State, name: Bytes, body: Forest)
    requires Valid(body, 2) && InIke(s) && |name| < NAME_LENGTH && CText(name) == "child-sas"
    ensures Then(Then(ViciParser.Kept(Collect(s, SectionStart(name, 2))), Events(body, 2)), [SectionEnd(2)]) ==
            Extended(s, NamesFit(body), Some([]), ChildrenIn(s.place.ikeName, body))
  {
    hide NamesFit, ChildrenIn, Events;
    var entered := Entered(s, 1, CText(name));
    ChildSasCollected(entered, body);
    var end := Run(entered, Events(body, 2));
    if end.Some? {
      ViciParser.RunOne(Collect, end.value, SectionEnd(2));
      Restored(s, 1, CText(name));
    }
  }

  lemma {:induction false} OtherSection(s: State, name: Bytes, body: Forest)
    requires Valid(body, 2) && InIke(s) && |name| < NAME_LENGTH && CText(name) != "child-sas"
    ensures Then(Then(ViciParser.Kept(Collect(s, SectionStart(name, 2))), Events(body, 2)), [SectionEnd(2)]) ==
            Extended(s, NamesFit(body), Some([]), Some([]))
  {
    var entered := Entered(s, 1, CText(name));
    LevelIgnored(entered, body, 2);
    ViciParser.RunOne(Collect, entered, SectionEnd(2));
    Restored(s, 1, CText(name));
    ExtendedByNothing(s);
  }

  /** A section inside an IKE section: CHILDs if it is "child-sas", nothing otherwise. */
  lemma {:induction false} IkeSection(s: State, name: Bytes, body: Forest)
    requires Valid(Section(name, body, Empty), 1) && InIke(s)
    ensures Then(Then(ViciParser.Kept(Collect(s, SectionStart(name, 2))), Events(body, 2)), [SectionEnd(2)]) ==
            Extended(s, |name| < NAME_LENGTH && NamesFit(body), Some([]),
                     if CText(name) == "child-sas" then ChildrenIn(s.place.ikeName, body) else Some([]))
  {
    if |name| < NAME_LENGTH {
      if CText(name) == "child-sas" {
        ChildSasSection(s, name, body);
      } else {
        OtherSection(s, name, body);
      }
    }
  }

  lemma {:induction false} IkeCollected(s: State, f: Forest)
    requires Valid(f, 1) && InIke(s)
    ensures Run(s, Events(f, 1)) ==
            IkeBodyResult(s, NamesFit(f), IkeOf(CurrentIke(s), f), ChildrenOfIke(s.place.ikeName, f))
    decreases f, 0
  {
    match f
    case Empty =>
      assert WithIke(s, CurrentIke(s)) == s;
      ExtendedByNothing(s);
    case Pair(name, value, rest) => IkePairCollected(s, name, value, rest);
    case List(name, items, rest) =>
      ListIgnored(s, name, items, rest, 1);
      IkeCollected(s, rest);
    case Section(name, body, rest) => IkeSectionCollected(s, name, body, rest);
  }

  /** Appending CHILDs first and going on with the IKE body comes to the same as doing it all at once. */
  lemma {:induction false} ChildrenFirst(s: State, names: bool, here: Option<seq<Child>>,
                                         moreNames: bool, ike: Option<Ike>, others: Option<seq<Child>>)
    requires InIke(s)
    ensures var first := Extended(s, names, Some([]), here);
            && (first.Some? ==> InIke(first.value) && CurrentIke(first.value) == CurrentIke(s) && first.value.place == s.place)
            && (if first.None? then None else IkeBodyResult(first.value, moreNames, ike, others)) ==
               IkeBodyResult(s, names && moreNames, ike, Both(here, others))
  {
    var first := Extended(s, names, Some([]), here);
    if first.Some? {
      assert first.value.lists.ikes == s.lists.ikes;
    }
    if s.wanted.ikes && ike.Some? {
      ExtendedTwice(WithIke(s, ike.value), names, Some([]), here, moreNames, Some([]), others);
      if first.Some? {
        assert Extended(WithIke(s, ike.value), names, Some([]), here).value == WithIke(first.value, ike.value);
      }
    } else if !s.wanted.ikes {
      ExtendedTwice(s, names, Some([]), here, moreNames, Some([]), others);
    }
  }

  lemma {:induction false} IkeSectionRun(s: State, name: Bytes, body: Forest, rest: Forest)
    requires Valid(Section(name, body, rest), 1) && InIke(s)
    ensures var first := Extended(s, |name| < NAME_LENGTH && NamesFit(body), Some([]),
                                  if CText(name) == "child-sas" then ChildrenIn(s.place.ikeName, body) else Some([]));
            Run(s, Events(Section(name, body, rest), 1)) ==
            if first.None? then None else Run(first.value, Events(rest, 1))
  {
    hide Collect, Extended, NamesFit, ChildrenIn, InIke;
    ViciParser.RunSection(Collect, s, name, body, rest, 1);
    IkeSection(s, name, body);
  }

  lemma {:induction false} IkeSectionCollected(s: State, name: Bytes, body: Forest, rest: Forest)
    requires Valid(Section(name, body, rest), 1) && InIke(s)
    ensures var f := Section(name, body, rest);
            Run(s, Events(f, 1)) ==
            IkeBodyResult(s, NamesFit(f), IkeOf(CurrentIke(s), f), ChildrenOfIke(s.place.ikeName, f))
    decreases rest, 1
  {
    hide Run, Extended, IkeBodyResult, InIke, ChildrenIn, CurrentIke;
    var ike := IkeOf(CurrentIke(s), rest);
    var names := |name| < NAME_LENGTH && NamesFit(body);
    var here := if CText(name) == "child-sas" then ChildrenIn(s.place.ikeName, body) else Some([]);
    var others := ChildrenOfIke(s.place.ikeName, rest);
    IkeSectionRun(s, name, body, rest);
    ChildrenFirst(s, names, here, NamesFit(rest), ike, others);
    var first := Extended(s, names, Some([]), here);
    if first.Some? {
      IkeCollected(first.value, rest);
    }
  }

  // ---------- Whole messages

  predicate AtRest(s: State) {
    s.place == REST && Room(s.lists, 0, 0)
  }

  /** The state inside a top-level section just opened. */
  function Opened(s: State, text: Bytes): State
    requires AtRest(s) && Room(s.lists, if s.wanted.ikes then 1 else 0, 0)
  {
    var added := Extend(s, if s.wanted.ikes then [NewIke(text)] else [], []);
    added.(place := Place(if s.wanted.ikes then Some(|s.lists.ikes|) else None, None, text, NoSections()[0 := text], []))
  }

  lemma {:induction false} IkeOpens(s: State, name: Bytes)
    requires ValidName(name) && AtRest(s)
    ensures ViciParser.Kept(Collect(s, SectionStart(name, 1))) ==
            if |name| < NAME_LENGTH && Room(s.lists, if s.wanted.ikes then 1 else 0, 0)
            then Some(Opened(s, CText(name))) else None
  {
    assert s.lists.ikes + [] == s.lists.ikes && s.lists.children + [] == s.lists.children;
  }

  lemma {:induction false} IkeCloses(s: State, t: State, text: Bytes)
    requires AtRest(s) && Room(s.lists, if s.wanted.ikes then 1 else 0, 0)
    requires t.place == Opened(s, text).place
    ensures Run(t, [SectionEnd(1)]) == Some(t.(place := REST))
  {
    ViciParser.RunOne(Collect, t, SectionEnd(1));
    assert NoSections()[0 := text][0 := []] == NoSections();
  }

  /** Opening the entry, filling it and appending its CHILDs is extending both lists by what the section denotes. */
  lemma {:induction false} OpenedThenFilled(s: State, text: Bytes, names: bool, ike: Option<Ike>, children: Option<seq<Child>>)
    requires AtRest(s) && Room(s.lists, if s.wanted.ikes then 1 else 0, 0)
    ensures InIke(Opened(s, text)) && (s.wanted.ikes ==> CurrentIke(Opened(s, text)) == NewIke(text))
    ensures var end := IkeBodyResult(Opened(s, text), names, ike, children);
            && (end.Some? ==> end.value.place == Opened(s, text).place)
            && (if end.None? then None else Some(end.value.(place := REST))) ==
               Extended(s, names, if ike.None? then None else Some([ike.value]), children)
  {
    assert s.lists.ikes + [] == s.lists.ikes && s.lists.children + [] == s.lists.children;
    if s.wanted.ikes && ike.Some? {
      assert WithIke(Opened(s, text), ike.value).lists.ikes == s.lists.ikes + [ike.value];
      assert s.lists.ikes + [ike.value] + [] == s.lists.ikes + [ike.value];
    }
  }

  lemma {:induction false} OneIke(s: State, name: Bytes, body: Forest)
    requires Valid(Section(name, body, Empty), 0) && AtRest(s)
    ensures var ike := IkeOf(NewIke(CText(name)), body);
            Then(Then(ViciParser.Kept(Collect(s, SectionStart(name, 1))), Events(body, 1)), [SectionEnd(1)]) ==
            Extended(s, |name| < NAME_LENGTH && NamesFit(body),
                     if ike.None? then None else Some([ike.value]), ChildrenOfIke(CText(name), body))
  {
    var text := CText(name);
    IkeOpens(s, name);
    if |name| < NAME_LENGTH && Room(s.lists, if s.wanted.ikes then 1 else 0, 0) {
      var start := Opened(s, text);
      var ike, children := IkeOf(NewIke(text), body), ChildrenOfIke(text, body);
      OpenedThenFilled(s, text, NamesFit(body), ike, children);
      IkeCollected(start, body);
      var end := Run(start, Events(body, 1));
      assert end == IkeBodyResult(start, NamesFit(body), ike, children);
      if end.Some? {
        IkeCloses(s, end.value, text);
      }
    }
  }

  lemma {:induction false} MessageSectionRun(s: State, name: Bytes, body: Forest, rest: Forest)
    requires Valid(Section(name, body, rest), 0) && AtRest(s)
    ensures var ike := IkeOf(NewIke(CText(name)), body);
            var first := Extended(s, |name| < NAME_LENGTH && NamesFit(body),
                                  if ike.None? then None else Some([ike.value]), ChildrenOfIke(CText(name), body));
            Run(s, Events(Section(name, body, rest), 0)) ==
            if first.None? then None else Run(first.value, Events(rest, 0))
  {
    hide Extended, IkeOf, Collect, AtRest;
    ViciParser.RunSection(Collect, s, name, body, rest, 0);
    OneIke(s, name, body);
  }

  lemma {:induction false} StillAtRest(s: State, names: bool, ikes: Option<seq<Ike>>, children: Option<seq<Child>>)
    requires AtRest(s)
    ensures var first := Extended(s, names, ikes, children);
            first.Some? ==> AtRest(first.value) && first.value.wanted == s.wanted
  {
  }

  /** The streaming collector computes the lists that a message tree denotes.  It succeeds exactly when the
      names fit, the fields of the wanted entries parse, and there is room; and it is then at rest again. */
  lemma {:induction false} CollectsMessage(s: State, f: Forest)
    requires Valid(f, 0) && AtRest(s)
    ensures Run(s, Events(f, 0)) == Extended(s, NamesFit(f), Ikes(f), Children(f))
    decreases f, 0
  {
    match f
    case Empty => ExtendedByNothing(s);
    case Pair(name, value, rest) =>
      ViciParser.RunPair(Collect, s, name, value, rest, 0);
      CollectsMessage(s, rest);
    case List(name, items, rest) =>
      ListIgnored(s, name, items, rest, 0);
      CollectsMessage(s, rest);
    case Section(name, body, rest) => SectionCollected(s, name, body, rest);
  }

  lemma {:induction false} SectionCollected(s: State, name: Bytes, body: Forest, rest: Forest)
    requires Valid(Section(name, body, rest), 0) && AtRest(s)
    ensures var f := Section(name, body, rest); Run(s, Events(f, 0)) == Extended(s, NamesFit(f), Ikes(f), Children(f))
    decreases rest, 1
  {
    hide Run, Extended, AtRest, IkeOf, ChildrenOfIke;
    var names := |name| < NAME_LENGTH && NamesFit(body);
    var ike := IkeOf(NewIke(CText(name)), body);
    var entry := if ike.None? then None else Some([ike.value]);
    var here := ChildrenOfIke(CText(name), body);
    MessageSectionRun(s, name, body, rest);
    StillAtRest(s, names, entry, here);
    var first := Extended(s, names, entry, here);
    if first.Some? {
      CollectsMessage(first.value, rest);
    }
    ExtendedTwice(s, names, entry, here, NamesFit(rest), Ikes(rest), Children(rest));
  }

  /** `CollectSaEvent`: the callback for one `list-sa` message. */
  function CollectMessage(s: State, message: Bytes): (State, Error) {
    ViciParser.Deliver(message, ViciParser.START, Collect, s)
  }

  predicate AllValid(fs: seq<Forest>) {
    forall i :: 0 <= i < |fs| ==> Valid(fs[i], 0)
  }

  function AllNamesFit(fs: seq<Forest>): bool {
    forall i :: 0 <= i < |fs| ==> NamesFit(fs[i])
  }

  function Messages(fs: seq<Forest>): seq<Bytes>
    requires AllValid(fs)
  {
    seq(|fs|, i requires 0 <= i < |fs| => Encode(fs[i], 0))
  }

  function AllIkes(fs: seq<Forest>): Option<seq<Ike>> {
    if fs == [] then Some([]) else Both(AllIkes(fs[..|fs| - 1]), Ikes(fs[|fs| - 1]))
  }

  function AllChildren(fs: seq<Forest>): Option<seq<Child>> {
    if fs == [] then Some([]) else Both(AllChildren(fs[..|fs| - 1]), Children(fs[|fs| - 1]))
  }

  /** A whole `list-sas` answer: the collector's lists are the entries of all message trees in order. */
  lemma {:induction false} CollectsAnswer(s: State, fs: seq<Forest>)
    requires AllValid(fs) && AtRest(s)
    ensures ViciParser.Kept(ViciClient.FoldMessages(CollectMessage, s, Messages(fs))) ==
            Extended(s, AllNamesFit(fs), AllIkes(fs), AllChildren(fs))
    decreases |fs|
  {
    hide Extended, NamesFit, AtRest, CollectMessage, Messages, AllNamesFit, AllIkes, AllChildren, Both, Ikes, Children;
    if fs == [] {
      AnswerOfNone(s);
    } else {
      var n := |fs| - 1;
      var before, last := fs[..n], fs[n];
      AnswerStep(fs);
      CollectsAnswer(s, before);
      ViciClient.FoldMessagesAppend(CollectMessage, s, Messages(before), Encode(last, 0));
      StillAtRest(s, AllNamesFit(before), AllIkes(before), AllChildren(before));
      var first := Extended(s, AllNamesFit(before), AllIkes(before), AllChildren(before));
      if first.Some? {
        MessageCollected(first.value, last);
      }
      ExtendedTwice(s, AllNamesFit(before), AllIkes(before), AllChildren(before), NamesFit(last), Ikes(last), Children(last));
    }
  }

  /** The last message of an answer. */
  lemma {:induction false} AnswerStep(fs: seq<Forest>)
    requires AllValid(fs) && fs != []
    ensures var before, last := fs[..|fs| - 1], fs[|fs| - 1];
            && AllValid(before) && Valid(last, 0)
            && Messages(fs) == Messages(before) + [Encode(last, 0)]
            && AllNamesFit(fs) == (AllNamesFit(before) && NamesFit(last))
            && AllIkes(fs) == Both(AllIkes(before), Ikes(last))
            && AllChildren(fs) == Both(AllChildren(before), Children(last))
  {
    hide NamesFit, Ikes, Children, Both, Valid, Encode;
    var n := |fs| - 1;
    var before, last := fs[..n], fs[n];
    assert forall i :: 0 <= i < |fs| ==> fs[i] == if i < n then before[i] else last;
  }

  lemma {:induction false} AnswerOfNone(s: State)
    requires AtRest(s)
    ensures ViciParser.Kept(ViciClient.FoldMessages(CollectMessage, s, Messages([]))) ==
            Extended(s, AllNamesFit([]), AllIkes([]), AllChildren([]))
  {
    assert Messages([]) == [];
    ExtendedByNothing(s);
  }

  lemma {:induction false} MessageCollected(s: State, f: Forest)
    requires Valid(f, 0) && AtRest(s)
    ensures ViciParser.Kept(CollectMessage(s, Encode(f, 0))) == Extended(s, NamesFit(f), Ikes(f), Children(f))
  {
    hide Extended;
    CollectsMessage(s, f);
    ViciParser.ParseDeliversEvents(f, Collect, s);
  }

  function Fresh(ikes: bool, children: bool, grants: nat): State {
    State(Wanted(ikes, children), Lists([], [], grants), REST)
  }

  /** The IKE-only and CHILD-only queries return the two halves of the combined query's result. */
  lemma {:induction false} QueriesAreProjections(fs: seq<Forest>, grants: nat)
    requires AllValid(fs)
    ensures var both := ViciClient.FoldMessages(CollectMessage, Fresh(true, true, grants), Messages(fs));
            var ikes := ViciClient.FoldMessages(CollectMessage, Fresh(true, false, grants), Messages(fs));
            var children := ViciClient.FoldMessages(CollectMessage, Fresh(false, true, grants), Messages(fs));
            both.1 == Ok ==>
              && ikes.1 == Ok && children.1 == Ok
              && ikes.0.lists.ikes == both.0.lists.ikes && ikes.0.lists.children == []
              && children.0.lists.children == both.0.lists.children && children.0.lists.ikes == []
  {
    CollectsAnswer(Fresh(true, true, grants), fs);
    CollectsAnswer(Fresh(true, false, grants), fs);
    CollectsAnswer(Fresh(false, true, grants), fs);
  }

  // ---------- The collector as the library keeps it, and the query

  class Collector {
    const wanted: Wanted
    var ikes: seq<Ike>
    var children: seq<Child>
    var grants: nat
    var currentIke: Option<nat>
    var currentChild: Option<nat>
    var ikeName: Bytes
    var sections: seq<Bytes>
    var listName: Bytes

    function Model(): State
      reads this
    {
      State(wanted, Lists(ikes, children, grants), Place(currentIke, currentChild, ikeName, sections, listName))
    }

    constructor (wanted: Wanted, grants: nat)
      ensures Model() == Fresh(wanted.ikes, wanted.children, grants)
      ensures PointersAtEnd(Model())
    {
      this.wanted, this.grants := wanted, grants;
      ikes, children, currentIke, currentChild := [], [], None, None;
      ikeName, sections, listName := [], NoSections(), [];
    }

    /** `AppendIkeSa` and the copy of the section name into the new entry. */
    method Append(name: Bytes) returns (error: Error)
      modifies this
      ensures (Model(), error) == AppendIke(old(Model()), name)
    {
      error := Ok;
      if !wanted.ikes {
        currentIke := None;
      } else if |ikes| == U32_MAX {
        error := NoMemory;
      } else if grants == 0 {
        error := NoMemory;
      } else {
        grants := grants - 1;
        ikes := ikes + [NewIke([])];
        currentIke := Some(|ikes| - 1);
      }
      if error == Ok && currentIke.Some? {
        ikes := ikes[|ikes| - 1 := ikes[|ikes| - 1].(name := name)];
        assert ikes == old(ikes) + [NewIke(name)];
      }
    }

    /** `AppendChildSa` and the copies of the two names into the new entry. */
    method AppendBelow(name: Bytes) returns (error: Error)
      modifies this
      ensures (Model(), error) == AppendChild(old(Model()), name)
    {
      error := Ok;
      if !wanted.children {
        currentChild := None;
      } else if |children| == U32_MAX {
        error := NoMemory;
      } else if grants == 0 {
        error := NoMemory;
      } else {
        grants := grants - 1;
        children := children + [NewChild([], [])];
        currentChild := Some(|children| - 1);
      }
      if error == Ok && currentChild.Some? {
        var i := |children| - 1;
        children := children[i := children[i].(ikeName := ikeName)];
        children := children[i := children[i].(name := name)];
        assert children == old(children) + [NewChild(ikeName, name)];
      }
    }

    method SectionStarts(name: Bytes, depth: nat) returns (error: Error)
      requires 1 <= depth <= |sections|
      modifies this
      ensures (Model(), error) == StartSection(old(Model()), name, depth)
    {
      var (text, copied) := CopyText(NAME_LENGTH, name);
      error := copied;
      sections := sections[depth - 1 := text];
      if error == Ok && depth == 1 {
        ikeName := text;
        error := Append(text);
      } else if error == Ok && depth == 3 && sections[1] == "child-sas" {
        error := AppendBelow(text);
      }
    }

    /** `CollectSaElement` computes the step function on the collector's fields. */
    method Element(e: Event) returns (error: Error)
      requires PointersAtEnd(Model())
      modifies this
      ensures (Model(), error) == Collect(old(Model()), e)
      ensures PointersAtEnd(Model())
    {
      PointersStayAtEnd(Model(), e);
      error := Ok;
      match e
      case SectionStart(name, depth) =>
        if 1 <= depth <= |sections| {
          error := SectionStarts(name, depth);
        } else {
          error := ViciProtocol;
        }
      case SectionEnd(depth) =>
        if 1 <= depth <= |sections| {
          if depth == 3 {
            currentChild := None;
          } else if depth == 1 {
            currentIke, ikeName := None, [];
          }
          sections := sections[depth - 1 := []];
        } else {
          error := ViciProtocol;
        }
      case ListStart(name, _) =>
        var (text, copied) := CopyText(NAME_LENGTH, name);
        listName, error := text, copied;
      case ListEnd(_) => listName := [];
      case ListItem(value, depth) =>
        if depth == 3 && currentChild.Some? && currentChild.value < |children| {
          var (child, verdict) := ChildItem(children[currentChild.value], listName, value);
          children, error := children[currentChild.value := child], verdict;
        }
      case KeyValue(name, value, depth) =>
        if depth == 1 && currentIke.Some? && currentIke.value < |ikes| {
          var (ike, verdict) := IkeField(ikes[currentIke.value], name, value);
          ikes, error := ikes[currentIke.value := ike], verdict;
        } else if depth == 3 && 1 < |sections| && sections[1] == "child-sas"
                  && currentChild.Some? && currentChild.value < |children| {
          var (child, verdict) := ChildField(children[currentChild.value], name, value);
          children, error := children[currentChild.value := child], verdict;
        }
    }
  }

  /** The collector accepts only well-formed messages. */
  lemma {:induction false} AcceptedMessages(s: State, ms: seq<Bytes>)
    requires ViciClient.FoldMessages(CollectMessage, s, ms).1 == Ok
    ensures forall i :: 0 <= i < |ms| ==> ViciParser.Accepts(ms[i])
  {
    ViciClient.FoldMessagesAccepted(CollectMessage, s, ms);
    forall i | 0 <= i < |ms|
      ensures ViciParser.Accepts(ms[i])
    {
      assert ViciClient.Accepted(CollectMessage, ms[i]);
      var before: State :| CollectMessage(before, ms[i]).1 == Ok;
      ViciParser.DeliverFolds(ms[i], ViciParser.START, Collect, before);
    }
  }

  lemma {:induction false} MessageTrees(ms: seq<Bytes>) returns (fs: seq<Forest>)
    requires forall i :: 0 <= i < |ms| ==> ViciParser.Accepts(ms[i])
    ensures AllValid(fs) && Messages(fs) == ms
    decreases |ms|
  {
    hide ViciParser.Accepts, AllValid, Messages;
    if ms == [] {
      fs := [];
      NoMessages();
    } else {
      var n := |ms| - 1;
      var before := MessageTrees(ms[..n]);
      var last := MessageTree(ms[n]);
      fs := before + [last];
      OneMoreMessage(before, last);
      assert ms == ms[..n] + [ms[n]];
    }
  }

  lemma {:induction false} NoMessages()
    ensures AllValid([]) && Messages([]) == []
  {
  }

  lemma {:induction false} MessageTree(m: Bytes) returns (f: Forest)
    requires ViciParser.Accepts(m)
    ensures Valid(f, 0) && Encode(f, 0) == m
  {
    hide ViciParser.Accepts, Valid, Encode;
    ViciParser.AcceptsExactlyTrees(m);
    f :| Valid(f, 0) && Encode(f, 0) == m;
  }

  lemma {:induction false} OneMoreMessage(before: seq<Forest>, last: Forest)
    requires AllValid(before) && Valid(last, 0)
    ensures AllValid(before + [last]) && Messages(before + [last]) == Messages(before) + [Encode(last, 0)]
  {
  }

  /** What the collector's lists mean after a list of accepted messages. */
  lemma {:induction false} AnswerDenotes(wanted: Wanted, grants: nat, ms: seq<Bytes>) returns (fs: seq<Forest>)
    requires ViciClient.FoldMessages(CollectMessage, Fresh(wanted.ikes, wanted.children, grants), ms).1 == Ok
    ensures AllValid(fs) && Messages(fs) == ms
    ensures var lists := ViciClient.FoldMessages(CollectMessage, Fresh(wanted.ikes, wanted.children, grants), ms).0.lists;
            && (wanted.ikes ==> AllIkes(fs) == Some(lists.ikes))
            && (wanted.children ==> AllChildren(fs) == Some(lists.children))
  {
    hide ViciClient.FoldMessages, AllIkes, AllChildren, AllNamesFit, Messages, AllValid;
    var start := Fresh(wanted.ikes, wanted.children, grants);
    AcceptedMessages(start, ms);
    fs := MessageTrees(ms);
    CollectsAnswer(start, fs);
    FreshExtended(wanted, grants, AllNamesFit(fs), AllIkes(fs), AllChildren(fs));
  }

  /** Extending empty lists leaves exactly the wanted entries in them. */
  lemma {:induction false} FreshExtended(wanted: Wanted, grants: nat, names: bool, ikes: Option<seq<Ike>>, children: Option<seq<Child>>)
    ensures var end := Extended(Fresh(wanted.ikes, wanted.children, grants), names, ikes, children);
            end.Some? ==>
              && (wanted.ikes ==> ikes == Some(end.value.lists.ikes))
              && (wanted.children ==> children == Some(end.value.lists.children))
  {
    assert ikes.Some? ==> [] + ikes.value == ikes.value;
    assert children.Some? ==> [] + children.value == children.value;
  }

  /** The response of `list-sas` holds nothing of interest. */
  function Unread(s: State, message: Bytes): (State, Error) {
    (s, Ok)
  }

  lemma {:induction false} AnswerProcessed(taken: seq<Bytes>, start: State, state: State, result: ViciClient.CommandResult)
    requires ViciClient.IsTransaction(taken, true)
    requires ViciClient.Processed(ViciClient.StreamOf(taken, true), Some("list-sa"), CollectMessage, Unread, start, state, result)
    ensures ViciClient.FoldMessages(CollectMessage, start, AnswerMessages(taken)) == (state, Ok)
  {
    hide ViciClient.IsTransaction, ViciClient.FoldMessages, CollectMessage;
  }

  /** `QueryIpsecSas` and the callers that free the lists on an error: a successful query returns the entries
      that the daemon's `list-sa` messages denote, one IKE per top-level section, one CHILD per section
      inside "child-sas". */
  method QuerySas(ctx: ViciTransport.Transport, wanted: Wanted, grants: nat, reply: Option<Bytes>)
      returns (error: Error, lists: Lists, ghost taken: seq<Bytes>, ghost trees: seq<Forest>)
    requires ctx.Valid()
    modifies ctx
    ensures ctx.Valid()
    ensures !wanted.ikes && !wanted.children ==> error == InvalidArgument
    ensures error != Ok ==> lists.ikes == [] && lists.children == []
    ensures error == Ok ==>
              && ViciTransport.ValidPackets(taken) && ViciClient.IsTransaction(taken, true)
              && (if old(ctx.open) then Some(old(ctx.inbound)) else reply) == Some(ViciTransport.Frames(taken) + ctx.inbound)
              && AllValid(trees) && Messages(trees) == AnswerMessages(taken)
              && (wanted.ikes ==> AllIkes(trees) == Some(lists.ikes))
              && (wanted.children ==> AllChildren(trees) == Some(lists.children))
  {
    taken, trees := [], [];
    lists := Lists([], [], grants);
    var granted: bool := *;
    if !wanted.ikes && !wanted.children {
      error := InvalidArgument;
    } else if !granted {
      error := NoMemory;
    } else {
      hide ViciClient.Processed, ViciClient.FoldMessages, ViciClient.IsTransaction, AllValid, Messages, AnswerMessages, AllIkes, AllChildren;
      var start := Fresh(wanted.ikes, wanted.children, grants);
      var state: State, result: ViciClient.CommandResult;
      ghost var written;
      var job := ViciClient.Job("list-sas", [], Some("list-sa"));
      error, state, result, taken, written := ViciClient.ExecuteCommand(ctx, job, CollectMessage, Unread, start, reply);
      if error == Ok {
        AnswerProcessed(taken, start, state, result);
        trees := AnswerDenotes(wanted, grants, AnswerMessages(taken));
        lists := state.lists;
      }
    }
  }

  /** The messages of the `list-sa` events in a transaction. */
  function AnswerMessages(taken: seq<Bytes>): seq<Bytes>
    requires ViciClient.IsTransaction(taken, true)
  {
    var stream := ViciClient.StreamOf(taken, true);
    ViciClient.NamedEvents(stream[..|stream| - 1], Some("list-sa"))
  }
}
