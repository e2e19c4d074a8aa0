/** Reading connections back: the collector that folds `list-conn` events into connection records. */
module ConnectionList {
  import opened Core
  import opened ViciGrammar
  import opened Connection
  import ViciParser
  import Text

  datatype Info = Info(name: Bytes, localAddresses: Bytes, remoteAddresses: Bytes, localId: Bytes, remoteId: Bytes,
                       childNames: Bytes, rekeyMs: nat, reauthMs: nat)

  function NewInfo(name: Bytes): Info {
    Info(name, [], [], [], [], [], 0, 0)
  }

  // The list, the memory left for it, and the place in the message.  The current entry is an index.
  datatype State = State(infos: seq<Info>, grants: nat, current: Option<nat>, sections: seq<Bytes>, listName: Bytes)

  /** `ParseConnectionSeconds`. */
  function ReadSeconds(value: Bytes): (nat, Error) {
    var (n, error) := ReadUint64(value);
    if error != Ok then (0, error) else if n > U64_MAX / 1000 then (0, ViciProtocol) else (n * 1000, Ok)
  }

  /** `MatchConnectionAuthSection`: "local" and also "local-1", "local-ecdsa" and so on. */
  predicate IsAuthSection(section: Bytes, expected: Bytes) {
    expected <= section && (|section| == |expected| || section[|expected|] == '-')
  }

  function AppendAddress(info: Info, list: Bytes, value: Bytes): (Info, Error) {
    if list == "local_addrs" && |info.localAddresses| < SELECTOR_LIST_LENGTH then
      var (text, error) := AppendText(SELECTOR_LIST_LENGTH, info.localAddresses, value, ",");
      (info.(localAddresses := text), error)
    else if list == "remote_addrs" && |info.remoteAddresses| < SELECTOR_LIST_LENGTH then
      var (text, error) := AppendText(SELECTOR_LIST_LENGTH, info.remoteAddresses, value, ",");
      (info.(remoteAddresses := text), error)
    else (info, Ok)
  }

  function Field(info: Info, section: Bytes, name: Bytes, value: Bytes, depth: nat): (Info, Error) {
    if depth == 1 && name == "rekey_time" then
      var (n, error) := ReadSeconds(value); (info.(rekeyMs := if error == Ok then n else info.rekeyMs), error)
    else if depth == 1 && name == "reauth_time" then
      var (n, error) := ReadSeconds(value); (info.(reauthMs := if error == Ok then n else info.reauthMs), error)
    else if depth == 2 && name == "id" && IsAuthSection(section, "local") then
      var (text, error) := CopyText(ID_LENGTH, value); (info.(localId := text), error)
    else if depth == 2 && name == "id" && IsAuthSection(section, "remote") then
      var (text, error) := CopyText(ID_LENGTH, value); (info.(remoteId := text), error)
    else (info, Ok)
  }

  predicate HasCurrent(s: State) {
    s.current.Some? && s.current.value < |s.infos|
  }

  function Update(s: State, r: (Info, Error)): (State, Error)
    requires HasCurrent(s)
  {
    (s.(infos := s.infos[s.current.value := r.0]), r.1)
  }

  function StartSection(s: State, name: Bytes, depth: nat): (State, Error)
    requires 1 <= depth <= |s.sections|
  {
    var (text, error) := CopyText(NAME_LENGTH, name);
    var entered := s.(sections := s.sections[depth - 1 := text]);
    if error != Ok then (entered, error)
    else if depth == 1 then
      if |s.infos| == U32_MAX || s.grants == 0 then (entered, NoMemory)
      else (entered.(infos := s.infos + [NewInfo(text)], grants := s.grants - 1, current := Some(|s.infos|)), Ok)
    else if depth == 3 && entered.sections[1] == "children" && HasCurrent(entered) then
      var info := entered.infos[entered.current.value];
      if |info.childNames| >= SELECTOR_LIST_LENGTH then (entered, BufferTooSmall)
      else
        var (names, appended) := AppendText(SELECTOR_LIST_LENGTH, info.childNames, name, ",");
        Update(entered, (info.(childNames := names), appended))
    else (entered, Ok)
  }

  /** `CollectConnectionElement`. */
  function Collect(s: State, e: Event): (State, Error) {
    match e
    case SectionStart(name, depth) =>
      if 1 <= depth <= |s.sections| then StartSection(s, name, depth) else (s, ViciProtocol)
    case SectionEnd(depth) =>
      if 1 <= depth <= |s.sections| then (s.(sections := s.sections[depth - 1 := []]), Ok) else (s, ViciProtocol)
    case ListStart(name, _) =>
      var (text, error) := CopyText(NAME_LENGTH, name);
      (s.(listName := text), error)
    case ListEnd(_) => (s.(listName := []), Ok)
    case ListItem(value, depth) =>
      if HasCurrent(s) && depth == 1 then Update(s, AppendAddress(s.infos[s.current.value], s.listName, value)) else (s, Ok)
    case KeyValue(name, value, depth) =>
      if HasCurrent(s) && 1 < |s.sections| then
        Update(s, Field(s.infos[s.current.value], s.sections[1], name, value, depth))
      else (s, Ok)
  }

  // ---------- The collector as the library keeps it

  class Collector {
    var infos: seq<Info>
    var grants: nat
    var current: Option<nat>
    var sections: seq<Bytes>
    var listName: Bytes

    function Model(): State
      reads this
    {
      State(infos, grants, current, sections, listName)
    }

    constructor (grants: nat)
      ensures Model() == State([], grants, None, NoSections(), [])
    {
      infos, this.grants, current, sections, listName := [], grants, None, NoSections(), [];
    }

    /** `AppendConnectionInfo`. */
    method AppendInfo() returns (error: Error)
      modifies this
      ensures error == if |old(infos)| == U32_MAX || old(grants) == 0 then NoMemory else Ok
      ensures error == Ok ==>
                Model() == old(Model()).(infos := old(infos) + [NewInfo([])], grants := old(grants) - 1, current := Some(|old(infos)|))
      ensures error != Ok ==> Model() == old(Model())
    {
      error := Ok;
      if |infos| == U32_MAX {
        error := NoMemory;
      } else if grants == 0 {
        error := NoMemory;
      } else {
        grants := grants - 1;
        infos := infos + [NewInfo([])];
        current := Some(|infos| - 1);
      }
    }

    method SectionStarts(name: Bytes, depth: nat) returns (error: Error)
      requires 1 <= depth <= |sections|
      modifies this
      ensures (Model(), error) == StartSection(old(Model()), name, depth)
    {
      var (text, copied) := CopyText(NAME_LENGTH, name);
      error := copied;
      sections := sections[depth - 1 := text];
      if error == Ok && depth == 1 {
        error := AppendInfo();
        if error == Ok {
          var i := current.value;
          infos := infos[i := infos[i].(name := text)];
          assert infos == old(infos) + [NewInfo(text)];
        }
      } else if error == Ok && depth == 3 && sections[1] == "children" && HasCurrent(Model()) {
        var i := current.value;
        if |infos[i].childNames| >= SELECTOR_LIST_LENGTH {
          error := BufferTooSmall;
        } else {
          var (names, appended) := AppendText(SELECTOR_LIST_LENGTH, infos[i].childNames, name, ",");
          infos, error := infos[i := infos[i].(childNames := names)], appended;
        }
      }
    }

    /** `CollectConnectionElement` computes the step function on the collector's fields. */
    method Element(e: Event) returns (error: Error)
      modifies this
      ensures (Model(), error) == Collect(old(Model()), e)
    {
      error := Ok;
      match e
      case SectionStart(name, depth) =>
        if 1 <= depth <= |sections| {
          error := SectionStarts(name, depth);
        } else {
          error := ViciProtocol;
        }
      case SectionEnd(depth) =>
        if 1 <= depth <= |sections| {
          sections := sections[depth - 1 := []];
        } else {
          error := ViciProtocol;
        }
      case ListStart(name, _) =>
        var (text, copied) := CopyText(NAME_LENGTH, name);
        listName, error := text, copied;
      case ListEnd(_) => listName := [];
      case ListItem(value, depth) =>
        if HasCurrent(Model()) && depth == 1 {
          var (info, appended) := AppendAddress(infos[current.value], listName, value);
          infos, error := infos[current.value := info], appended;
        }
      case KeyValue(name, value, depth) =>
        if HasCurrent(Model()) && 1 < |sections| {
          var (info, verdict) := Field(infos[current.value], sections[1], name, value, depth);
          infos, error := infos[current.value := info], verdict;
        }
    }
  }

  // ---------- Reading a built message back

  predicate AtRest(s: State) {
    s.sections == NoSections() && s.listName == [] && |s.infos| <= U32_MAX
  }

  function Run(s: State, es: seq<Event>): Option<State> {
    ViciParser.Run(Collect, s, es)
  }

  // Where the reader stands: the entries before this message's, and the open sections.
  datatype Spot = Spot(infos: seq<Info>, grants: nat, sections: seq<Bytes>) {
    function With(info: Info): State {
      State(infos + [info], grants, Some(|infos|), sections, [])
    }

    function Named(list: Bytes, info: Info): State {
      State(infos + [info], grants, Some(|infos|), sections, list)
    }

    predicate Valid() {
      |sections| == MAX_DEPTH
    }
  }

  lemma {:induction false} UpdateSpot(at: Spot, list: Bytes, info: Info, next: Info)
    ensures HasCurrent(at.Named(list, info))
    ensures at.Named(list, info).infos[|at.infos|] == info
    ensures at.Named(list, info).infos[|at.infos| := next] == at.infos + [next]
  {
  }

  /** A pair read inside the connection section. */
  lemma {:induction false} PairRead(at: Spot, info: Info, name: Bytes, value: Bytes, rest: Forest, depth: nat)
    requires at.Valid()
    ensures var (next, error) := Field(info, at.sections[1], name, value, depth);
            Run(at.With(info), Events(Pair(name, value, rest), depth)) ==
            if error == Ok then Run(at.With(next), Events(rest, depth)) else None
  {
    ViciParser.RunPair(Collect, at.With(info), name, value, rest, depth);
    UpdateSpot(at, [], info, Field(info, at.sections[1], name, value, depth).0);
  }

  // The text behind appending these items, if they fit.
  function AppendAll(text: Bytes, items: seq<Bytes>): Option<Bytes>
    requires |text| < SELECTOR_LIST_LENGTH
    decreases |items|
  {
    if items == [] then Some(text)
    else
      var (next, error) := AppendText(SELECTOR_LIST_LENGTH, text, items[0], ",");
      if error != Ok || |next| >= SELECTOR_LIST_LENGTH then None else AppendAll(next, items[1..])
  }

  /** The items with commas between them. */
  function Joined(items: seq<CString>): (r: CString)
    ensures r == Text.Glue(items, ',')
  {
    if items == [] then [] else if |items| == 1 then items[0] else items[0] + "," + Joined(items[1..])
  }

  function Limited(text: Bytes): Option<Bytes> {
    if |text| < SELECTOR_LIST_LENGTH then Some(text) else None
  }

  lemma {:induction false} AppendsBehind(text: CString, items: seq<CString>)
    requires text != [] && |text| < SELECTOR_LIST_LENGTH
    ensures AppendAll(text, items) == Limited(Joined([text] + items))
    decreases |items|
  {
    if items == [] {
      assert [text] + items == [text];
    } else {
      var joined := text + "," + items[0];
      GlueHead(text, items);
      assert AppendText(SELECTOR_LIST_LENGTH, text, items[0], ",") ==
             if |joined| < SELECTOR_LIST_LENGTH then (joined, Ok) else (text, BufferTooSmall);
      if |joined| < SELECTOR_LIST_LENGTH {
        AppendsBehind(joined, items[1..]);
      }
    }
  }

  /** Appending non-empty items one by one joins them with commas, up to the size of the buffer. */
  lemma {:induction false} AppendJoins(items: seq<CString>)
    requires forall i :: 0 <= i < |items| ==> items[i] != []
    ensures AppendAll([], items) == Limited(Joined(items))
  {
    if items != [] {
      assert [] + [] + items[0] == items[0];
      assert AppendText(SELECTOR_LIST_LENGTH, [], items[0], ",") ==
             if |items[0]| < SELECTOR_LIST_LENGTH then (items[0], Ok) else ([], BufferTooSmall);
      assert [items[0]] + items[1..] == items;
      if |items[0]| < SELECTOR_LIST_LENGTH {
        AppendsBehind(items[0], items[1..]);
      }
    }
  }

  /** Gluing a text and the first item with a comma beforehand changes nothing, and only makes the text longer. */
  lemma {:induction false} GlueHead(text: CString, items: seq<CString>)
    requires items != []
    ensures var joined := text + "," + items[0];
            && Joined([joined] + items[1..]) == Joined([text] + items)
            && |joined| <= |Joined([text] + items)|
  {
    var joined := text + "," + items[0];
    assert ([joined] + items[1..])[1..] == items[1..];
    assert ([text] + items)[1..] == items;
    if |items| > 1 {
      assert text + [','] + (items[0] + [','] + Joined(items[1..])) == joined + [','] + Joined(items[1..]);
    }
  }

  // ---------- Lists and sections of a connection

  /** What the items of a list directly inside the connection section do to the record. */
  function ItemsResult(info: Info, list: Bytes, items: seq<Bytes>): Option<Info>
    decreases |items|
  {
    if items == [] then Some(info)
    else
      var (next, error) := AppendAddress(info, list, items[0]);
      if error != Ok then None else ItemsResult(next, list, items[1..])
  }

  lemma {:induction false} ItemsRead(at: Spot, list: Bytes, info: Info, items: seq<Bytes>, depth: nat)
    requires at.Valid()
    ensures var result := if depth == 1 then ItemsResult(info, list, items) else Some(info);
            Run(at.Named(list, info), ItemEvents(items, depth)) ==
            if result.None? then None else Some(at.With(result.value))
    decreases |items|
  {
    if items == [] {
      ViciParser.RunOne(Collect, at.Named(list, info), ListEnd(depth));
    } else {
      ViciParser.RunItems(Collect, at.Named(list, info), items, depth);
      var next := if depth == 1 then AppendAddress(info, list, items[0]) else (info, Ok);
      UpdateSpot(at, list, info, next.0);
      if next.1 == Ok {
        ItemsRead(at, list, next.0, items[1..], depth);
      }
    }
  }

  lemma {:induction false} ListRead(at: Spot, info: Info, name: CString, items: seq<Bytes>, rest: Forest, depth: nat)
    requires at.Valid() && |name| < NAME_LENGTH
    ensures var result := if depth == 1 then ItemsResult(info, name, items) else Some(info);
            Run(at.With(info), Events(List(name, items, rest), depth)) ==
            if result.None? then None else Run(at.With(result.value), Events(rest, depth))
  {
    ViciParser.RunList(Collect, at.With(info), name, items, rest, depth);
    ItemsRead(at, name, info, items, depth);
  }

  lemma {:induction false} LocalItems(info: Info, items: seq<Bytes>)
    requires |info.localAddresses| < SELECTOR_LIST_LENGTH
    ensures var text := AppendAll(info.localAddresses, items);
            ItemsResult(info, "local_addrs", items) ==
            if text.None? then None else Some(info.(localAddresses := text.value))
    decreases |items|
  {
    if items != [] {
      var (next, error) := AppendText(SELECTOR_LIST_LENGTH, info.localAddresses, items[0], ",");
      if error == Ok {
        LocalItems(info.(localAddresses := next), items[1..]);
      }
    }
  }

  lemma {:induction false} RemoteItems(info: Info, items: seq<Bytes>)
    requires |info.remoteAddresses| < SELECTOR_LIST_LENGTH
    ensures var text := AppendAll(info.remoteAddresses, items);
            ItemsResult(info, "remote_addrs", items) ==
            if text.None? then None else Some(info.(remoteAddresses := text.value))
    decreases |items|
  {
    if items != [] {
      var (next, error) := AppendText(SELECTOR_LIST_LENGTH, info.remoteAddresses, items[0], ",");
      if error == Ok {
        RemoteItems(info.(remoteAddresses := next), items[1..]);
      }
    }
  }

  lemma {:induction false} OtherItems(info: Info, list: Bytes, items: seq<Bytes>)
    requires list != "local_addrs" && list != "remote_addrs"
    ensures ItemsResult(info, list, items) == Some(info)
    decreases |items|
  {
    if items != [] {
      OtherItems(info, list, items[1..]);
    }
  }

  /** A written time never reads back: its unit is not part of a number. */
  lemma {:induction false} SecondsUnreadable(ms: nat)
    ensures ReadSeconds(Seconds(ms)).1 != Ok
  {
    ParseDecimal((ms + 999) / 1000, "s");
  }

  lemma {:induction false} TimeRead(at: Spot, info: Info, name: CString, ms: nat, rest: Forest, depth: nat)
    requires at.Valid()
    requires depth == 1 || depth == 3
    ensures Run(at.With(info), Events(Duration(name, ms, rest), depth)) ==
            if ms != 0 && depth == 1 && (name == "rekey_time" || name == "reauth_time") then None
            else Run(at.With(info), Events(rest, depth))
  {
    if ms != 0 {
      PairRead(at, info, name, Seconds(ms), rest, depth);
      SecondsUnreadable(ms);
    }
  }

  // ---------- The parts of the built tree

  lemma {:induction false} AddressesRead(at: Spot, info: Info, c: Config)
    requires at.Valid() && GoodLists(c) && info.localAddresses == [] && info.remoteAddresses == []
    ensures var local, remote := Limited(Joined(c.localAddresses)), Limited(Joined(c.remoteAddresses));
            Run(at.With(info), Events(Body(c), 1)) ==
            if local.None? || remote.None? then None
            else Run(at.With(info.(localAddresses := local.value, remoteAddresses := remote.value)), Events(Switches(c), 1))
  {
    hide Switches, Run, AppendAll, ItemsResult;
    var proposals := List("proposals", c.ikeProposals, Switches(c));
    var remoteList := List("remote_addrs", c.remoteAddresses, proposals);
    PairRead(at, info, "version", "2", List("local_addrs", c.localAddresses, remoteList), 1);
    ListRead(at, info, "local_addrs", c.localAddresses, remoteList, 1);
    LocalItems(info, c.localAddresses);
    AppendJoins(c.localAddresses);
    AppendJoins(c.remoteAddresses);
    var local := Limited(Joined(c.localAddresses));
    if local.Some? {
      var withLocal := info.(localAddresses := local.value);
      ListRead(at, withLocal, "remote_addrs", c.remoteAddresses, proposals, 1);
      RemoteItems(withLocal, c.remoteAddresses);
      var remote := Limited(Joined(c.remoteAddresses));
      if remote.Some? {
        var withBoth := withLocal.(remoteAddresses := remote.value);
        ListRead(at, withBoth, "proposals", c.ikeProposals, Switches(c), 1);
        OtherItems(withBoth, "proposals", c.ikeProposals);
      }
    }
  }

  lemma {:induction false} ForceSwitchesRead(at: Spot, info: Info, c: Config)
    requires at.Valid()
    ensures Run(at.With(info), Events(ForceSwitches(c), 1)) == Run(at.With(info), Events(Times(c), 1))
  {
    hide Times, Run, YesNo;
    var word: CString := if c.forceChildless then "force" else "allow";
    PairRead(at, info, "encap", YesNo(c.forceEncapsulation), Pair("childless", word, Times(c)), 1);
    PairRead(at, info, "childless", word, Times(c), 1);
  }

  lemma {:induction false} SwitchesRead(at: Spot, info: Info, c: Config)
    requires at.Valid()
    ensures Run(at.With(info), Events(Switches(c), 1)) == Run(at.With(info), Events(Times(c), 1))
  {
    hide Times, ForceSwitches, Run, YesNo;
    PairRead(at, info, "mobike", YesNo(c.mobike), Pair("fragmentation", YesNo(c.fragmentation), ForceSwitches(c)), 1);
    PairRead(at, info, "fragmentation", YesNo(c.fragmentation), ForceSwitches(c), 1);
    ForceSwitchesRead(at, info, c);
  }

  lemma {:induction false} TimesRead(at: Spot, info: Info, c: Config)
    requires at.Valid()
    ensures Run(at.With(info), Events(Times(c), 1)) ==
            if c.ikeRekeyMs == 0 && c.ikeLifetimeMs == 0 then Run(at.With(info), Events(Sections(c), 1)) else None
  {
    hide Sections, Duration, Run;
    var reauth := Duration("reauth_time", c.ikeLifetimeMs, Sections(c));
    TimeRead(at, info, "dpd_delay", c.dpdDelayMs, Duration("dpd_timeout", c.dpdTimeoutMs, IkeTimes(c)), 1);
    TimeRead(at, info, "dpd_timeout", c.dpdTimeoutMs, IkeTimes(c), 1);
    TimeRead(at, info, "rekey_time", c.ikeRekeyMs, reauth, 1);
    TimeRead(at, info, "reauth_time", c.ikeLifetimeMs, Sections(c), 1);
  }

  /** Entering a section that is not a CHILD section, and leaving it again. */
  lemma {:induction false} SectionRead(at: Spot, info: Info, name: CString, body: Forest, rest: Forest, next: Info)
    requires at.Valid() && at.sections[1] == [] && 1 <= |name| < NAME_LENGTH
    requires var inner := at.(sections := at.sections[1 := name]); Run(inner.With(info), Events(body, 2)) == Some(inner.With(next))
    ensures Run(at.With(info), Events(Section(name, body, rest), 1)) == Run(at.With(next), Events(rest, 1))
  {
    var inner := at.(sections := at.sections[1 := name]);
    ViciParser.RunSection(Collect, at.With(info), name, body, rest, 1);
    ViciParser.RunOne(Collect, inner.With(next), SectionEnd(2));
    assert at.sections[1 := name][1 := []] == at.sections;
  }

  lemma {:induction false} AuthRead(at: Spot, info: Info, side: CString, id: CString, rest: Forest)
    requires at.Valid() && at.sections[1] == [] && (side == "local" || side == "remote") && |id| < ID_LENGTH
    ensures Run(at.With(info), Events(Section(side, AuthBody(id), rest), 1)) ==
            Run(at.With(if side == "local" then info.(localId := id) else info.(remoteId := id)), Events(rest, 1))
  {
    var inner := at.(sections := at.sections[1 := side]);
    var next := if side == "local" then info.(localId := id) else info.(remoteId := id);
    PairRead(inner, info, "auth", "psk", Pair("id", id, Empty), 2);
    PairRead(inner, info, "id", id, Empty, 2);
    SectionRead(at, info, side, AuthBody(id), rest, next);
  }

  lemma {:induction false} ChildTimesRead(at: Spot, info: Info, c: Config)
    requires at.Valid()
    ensures Run(at.With(info), Events(ChildTimes(c), 3)) == Some(at.With(info))
  {
    hide Duration;
    var life := Duration("life_time", c.childLifetimeMs, Empty);
    TimeRead(at, info, "rekey_time", c.childRekeyMs, life, 3);
    TimeRead(at, info, "life_time", c.childLifetimeMs, Empty, 3);
  }

  lemma {:induction false} ChildActionsRead(at: Spot, info: Info, c: Config)
    requires at.Valid()
    ensures Run(at.With(info), Events(ChildActions(c), 3)) == Run(at.With(info), Events(ChildTimes(c), 3))
  {
    hide ChildTimes, Run;
    var dpd := Pair("dpd_action", "clear", ChildTimes(c));
    var close := Pair("close_action", "none", dpd);
    PairRead(at, info, "start_action", "none", close, 3);
    PairRead(at, info, "close_action", "none", dpd, 3);
    PairRead(at, info, "dpd_action", "clear", ChildTimes(c), 3);
  }

  lemma {:induction false} ChildBodyRead(at: Spot, info: Info, c: Config)
    requires at.Valid()
    ensures Run(at.With(info), Events(ChildBody(c), 3)) == Some(at.With(info))
  {
    hide ChildActions, Run;
    var mode: CString := if c.mode == Tunnel then "tunnel" else "transport";
    var esp := List("esp_proposals", c.espProposals, ChildActions(c));
    ListRead(at, info, "local_ts", c.localSelectors, List("remote_ts", c.remoteSelectors, Pair("mode", mode, esp)), 3);
    ListRead(at, info, "remote_ts", c.remoteSelectors, Pair("mode", mode, esp), 3);
    PairRead(at, info, "mode", mode, esp, 3);
    ListRead(at, info, "esp_proposals", c.espProposals, ChildActions(c), 3);
    ChildActionsRead(at, info, c);
    ChildTimesRead(at, info, c);
  }

  lemma {:induction false} ChildEnters(at: Spot, info: Info, name: CString)
    requires at.Valid() && at.sections[1] == "children" && 1 <= |name| < NAME_LENGTH && info.childNames == []
    ensures Collect(at.With(info), SectionStart(name, 3)) ==
            (at.(sections := at.sections[2 := name]).With(info.(childNames := name)), Ok)
  {
    assert [] + [] + name == name;
    UpdateSpot(at.(sections := at.sections[2 := name]), [], info, info.(childNames := name));
  }

  lemma {:induction false} ChildRead(at: Spot, info: Info, c: Config)
    requires at.Valid() && at.sections[1] == "children" && at.sections[2] == [] && GoodName(c.childName) && info.childNames == []
    ensures Run(at.With(info), Events(ChildSection(c), 2)) == Some(at.With(info.(childNames := c.childName)))
  {
    hide ChildBody, StartSection;
    var inner := at.(sections := at.sections[2 := c.childName]);
    var next := info.(childNames := c.childName);
    ViciParser.RunSection(Collect, at.With(info), c.childName, ChildBody(c), Empty, 2);
    ChildEnters(at, info, c.childName);
    ChildBodyRead(inner, next, c);
    ViciParser.RunOne(Collect, inner.With(next), SectionEnd(3));
    assert at.sections[2 := c.childName][2 := []] == at.sections;
  }

  lemma {:induction false} SectionsRead(at: Spot, info: Info, c: Config)
    requires at.Valid() && at.sections[1] == [] && at.sections[2] == [] && GoodBasics(c) && GoodLists(c) && info.childNames == []
    ensures Run(at.With(info), Events(Sections(c), 1)) ==
            Some(at.With(info.(localId := c.localId, remoteId := c.remoteId, childNames := c.childName)))
  {
    hide ChildSection, AuthBody, Run;
    var withLocal := info.(localId := c.localId);
    var withBoth := withLocal.(remoteId := c.remoteId);
    AuthRead(at, info, "local", c.localId, Section("remote", AuthBody(c.remoteId), Children(c)));
    AuthRead(at, withLocal, "remote", c.remoteId, Children(c));
    ChildrenRead(at, withBoth, c);
  }

  lemma {:induction false} ChildrenRead(at: Spot, info: Info, c: Config)
    requires at.Valid() && at.sections[1] == [] && at.sections[2] == [] && GoodName(c.childName) && info.childNames == []
    ensures Run(at.With(info), Events(Children(c), 1)) == Some(at.With(info.(childNames := c.childName)))
  {
    hide ChildSection;
    ChildRead(at.(sections := at.sections[1 := "children"]), info, c);
    SectionRead(at, info, "children", ChildSection(c), Empty, info.(childNames := c.childName));
  }

  lemma {:induction false} BodyRead(at: Spot, c: Config)
    requires at.Valid() && at.sections == NoSections()[0 := c.name] && ValidConfig(c)
    ensures Run(at.With(NewInfo(c.name)), Events(Body(c), 1)) == if Readable(c) then Some(at.With(InfoOf(c))) else None
  {
    hide Body, Switches, Times, Sections;
    var info := NewInfo(c.name);
    AddressesRead(at, info, c);
    if Limited(Joined(c.localAddresses)).Some? && Limited(Joined(c.remoteAddresses)).Some? {
      var filled := info.(localAddresses := Joined(c.localAddresses), remoteAddresses := Joined(c.remoteAddresses));
      SwitchesRead(at, filled, c);
      TimesRead(at, filled, c);
      SectionsRead(at, filled, c);
    }
  }

  /** When the collector can read a built message back: no IKE time is set, and the address lists fit. */
  predicate Readable(c: Config) {
    && c.ikeRekeyMs == 0 && c.ikeLifetimeMs == 0
    && |Joined(c.localAddresses)| < SELECTOR_LIST_LENGTH
    && |Joined(c.remoteAddresses)| < SELECTOR_LIST_LENGTH
  }

  function InfoOf(c: Config): Info {
    Info(c.name, Joined(c.localAddresses), Joined(c.remoteAddresses), c.localId, c.remoteId, c.childName, 0, 0)
  }

  lemma {:induction false} ConnectionOpens(s: State, name: CString)
    requires AtRest(s) && GoodName(name)
    ensures ViciParser.Kept(Collect(s, SectionStart(name, 1))) ==
            if 0 < s.grants && |s.infos| < U32_MAX
            then Some(Spot(s.infos, s.grants - 1, NoSections()[0 := name]).With(NewInfo(name))) else None
  {
  }

  lemma {:induction false} ConnectionCloses(at: Spot, info: Info, name: CString)
    requires at.sections == NoSections()[0 := name]
    ensures Run(at.With(info), [SectionEnd(1)]) == Some(at.(sections := NoSections()).With(info))
  {
    ViciParser.RunOne(Collect, at.With(info), SectionEnd(1));
    assert NoSections()[0 := name][0 := []] == NoSections();
  }

  /** Reading a built message back: exactly the configuration's name, addresses, identities and CHILD name,
      exactly when no IKE time is set, the address lists fit and there is room for one more entry. */
  lemma {:induction false} ReadsBack(s: State, c: Config)
    requires AtRest(s) && ValidConfig(c)
    ensures Run(s, Events(Tree(c), 0)) ==
            if Readable(c) && 0 < s.grants && |s.infos| < U32_MAX
            then Some(State(s.infos + [InfoOf(c)], s.grants - 1, Some(|s.infos|), s.sections, []))
            else None
  {
    hide Body, Collect, Readable, InfoOf;
    ViciParser.RunSection(Collect, s, c.name, Body(c), Empty, 0);
    ConnectionOpens(s, c.name);
    if 0 < s.grants && |s.infos| < U32_MAX {
      var at := Spot(s.infos, s.grants - 1, NoSections()[0 := c.name]);
      BodyRead(at, c);
      ConnectionCloses(at, InfoOf(c), c.name);
    }
  }

  /** `CollectConnectionEvent` on the bytes that `BuildConnectionMessage` writes. */
  lemma {:induction false} MessageReadsBack(s: State, c: Config)
    requires AtRest(s) && ValidConfig(c) && Sized(c)
    ensures Valid(Tree(c), 0)
    ensures var (after, error) := ViciParser.Deliver(Encode(Tree(c), 0), ViciParser.START, Collect, s);
            && (error == Ok <==> Readable(c) && 0 < s.grants && |s.infos| < U32_MAX)
            && (error == Ok ==> after.infos == s.infos + [InfoOf(c)] && AtRest(after))
  {
    TreeSmall(c);
    ViciParser.ParseDeliversEvents(Tree(c), Collect, s);
    ReadsBack(s, c);
  }
}
