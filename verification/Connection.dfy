/** Connection configurations: validation, the `load-conn` message, and the collector that reads
    `list-conn` messages back. */
module Connection {
  import opened Core
  import opened ViciGrammar
  import opened ViciBuffer
  import Proposals
  import Text

  const MAX_LIST_ITEMS: nat := 64
  const MAX_INPUT_LENGTH: nat := 1024

  datatype Esn = EsnAuto | EsnDisabled | EsnEnabled | EsnOther

  datatype Auth = Psk | OtherAuth

  datatype Config = Config(
    name: CString, childName: CString,
    localAddresses: seq<CString>, remoteAddresses: seq<CString>,
    localAuth: Auth, remoteAuth: Auth, localId: CString, remoteId: CString,
    ikeProposals: seq<CString>, espProposals: seq<CString>,
    localSelectors: seq<CString>, remoteSelectors: seq<CString>,
    mode: Mode, esn: Esn,
    pfs: bool, mobike: bool, fragmentation: bool, forceEncapsulation: bool, forceChildless: bool,
    dpdDelayMs: nat, dpdTimeoutMs: nat, ikeRekeyMs: nat, ikeLifetimeMs: nat, childRekeyMs: nat, childLifetimeMs: nat)

  // ---------- Validation

  predicate NameCharacter(c: char) {
    '!' <= c <= '~' && c != '{' && c != '}'
  }

  predicate GoodName(name: CString) {
    1 <= |name| < NAME_LENGTH && forall i :: 0 <= i < |name| ==> NameCharacter(name[i])
  }

  predicate GoodList(items: seq<CString>) {
    1 <= |items| <= MAX_LIST_ITEMS && forall i :: 0 <= i < |items| ==> 1 <= |items[i]| <= MAX_INPUT_LENGTH
  }

  predicate GoodBasics(c: Config) {
    && 1 <= |c.localId| < ID_LENGTH && 1 <= |c.remoteId| < ID_LENGTH
    && (c.mode == Tunnel || c.mode == Transport)
    && c.esn != EsnOther
    && GoodName(c.name)
  }

  predicate GoodLists(c: Config) {
    && GoodName(c.childName)
    && GoodList(c.localAddresses) && GoodList(c.remoteAddresses)
    && GoodList(c.ikeProposals) && GoodList(c.espProposals)
    && GoodList(c.localSelectors) && GoodList(c.remoteSelectors)
  }

  /** The ESN and PFS settings agree with the ESP proposals. */
  predicate IntentMatches(c: Config) {
    && (c.esn == EsnEnabled ==> Proposals.AnyHasComponent(c.espProposals, "esn"))
    && (c.esn == EsnDisabled ==> Proposals.AnyHasComponent(c.espProposals, "noesn"))
    && (c.pfs ==> exists i :: 0 <= i < |c.espProposals| && Proposals.HasLaterKe(c.espProposals[i]))
  }

  predicate ValidConfig(c: Config) {
    GoodBasics(c) && c.localAuth == Psk && c.remoteAuth == Psk && GoodLists(c) && IntentMatches(c)
  }

  /** The proposals name the opposite of the ESN setting. */
  predicate Contradicts(c: Config) {
    || (c.esn == EsnEnabled && Proposals.AnyHasComponent(c.espProposals, "noesn"))
    || (c.esn == EsnDisabled && Proposals.AnyHasComponent(c.espProposals, "esn"))
  }

  predicate BothEsnTokens(c: Config) {
    Proposals.AnyHasComponent(c.espProposals, "esn") && Proposals.AnyHasComponent(c.espProposals, "noesn")
  }

  /** An accepted configuration contradicts itself exactly if ESN is set either way and both tokens are there; and with
      both tokens there every setting is accepted. */
  lemma {:induction false} ContradictionAccepted(c: Config)
    requires ValidConfig(c)
    ensures Contradicts(c) <==> c.esn != EsnAuto && BothEsnTokens(c)
    ensures BothEsnTokens(c) ==> ValidConfig(c.(esn := EsnEnabled)) && ValidConfig(c.(esn := EsnDisabled))
  {
  }

  /** There is such a configuration. */
  lemma {:induction false} ContradictionExists() returns (c: Config)
    ensures ValidConfig(c) && Contradicts(c)
  {
    hide Proposals.HasComponent, GoodName, GoodList;
    var one: CString, esp: CString := "x", "esn-noesn";
    OneCharacter();
    OneItem(one);
    OneItem(esp);
    BothInOne();
    c := Config(one, one, [one], [one], Psk, Psk, one, one, [one], [esp], [one], [one], Tunnel, EsnEnabled,
                false, false, false, false, false, 0, 0, 0, 0, 0, 0);
    assert c.espProposals[0] == esp;
  }

  lemma {:induction false} OneCharacter()
    ensures GoodName("x")
  {
  }

  lemma {:induction false} OneItem(item: CString)
    requires 1 <= |item| <= MAX_INPUT_LENGTH
    ensures GoodList([item])
  {
  }

  lemma {:induction false} BothInOne()
    ensures Proposals.HasComponent("esn-noesn", "esn") && Proposals.HasComponent("esn-noesn", "noesn")
  {
    hide Text.PartsFrom;
    var parts: seq<string> := ["esn", "noesn"];
    assert Text.Glue(parts, '-') == "esn-noesn";
    Text.PartsOfGlue(parts, '-');
    assert parts[0] == "esn" && parts[1] == "noesn";
  }

  /** `ValidateConnectionName`. */
  method ValidateName(name: CString) returns (error: Error)
    ensures error == if GoodName(name) then Ok else InvalidArgument
  {
    error := Ok;
    if |name| == 0 || NAME_LENGTH <= |name| {
      error := InvalidArgument;
    } else {
      var i := 0;
      while i < |name| && error == Ok
        invariant 0 <= i <= |name|
        invariant error == Ok ==> forall j :: 0 <= j < i ==> NameCharacter(name[j])
        invariant error != Ok ==> error == InvalidArgument && i < |name| && !NameCharacter(name[i])
        decreases |name| - i, error == Ok
      {
        if name[i] < '\U{21}' || name[i] > '\U{7e}' || name[i] == '{' || name[i] == '}' {
          error := InvalidArgument;
        } else {
          i := i + 1;
        }
      }
    }
  }

  /** `ValidateConnectionList` of a required list. */
  method ValidateList(items: seq<CString>) returns (error: Error)
    ensures error == if GoodList(items) then Ok else InvalidArgument
  {
    error := Ok;
    if MAX_LIST_ITEMS < |items| || |items| == 0 {
      error := InvalidArgument;
    } else {
      var i := 0;
      while i < |items| && error == Ok
        invariant 0 <= i <= |items|
        invariant error == Ok ==> forall j :: 0 <= j < i ==> 1 <= |items[j]| <= MAX_INPUT_LENGTH
        invariant error != Ok ==> error == InvalidArgument && 0 < i && !(1 <= |items[i - 1]| <= MAX_INPUT_LENGTH)
      {
        if |items[i]| == 0 || MAX_INPUT_LENGTH < |items[i]| {
          error := InvalidArgument;
        }
        i := i + 1;
      }
    }
  }

  method ValidateLists(c: Config) returns (error: Error)
    ensures error == if GoodLists(c) then Ok else InvalidArgument
  {
    error := ValidateName(c.childName);
    if error == Ok {
      error := ValidateList(c.localAddresses);
    }
    if error == Ok {
      error := ValidateList(c.remoteAddresses);
    }
    if error == Ok {
      error := ValidateList(c.ikeProposals);
    }
    if error == Ok {
      error := ValidateList(c.espProposals);
    }
    if error == Ok {
      error := ValidateList(c.localSelectors);
    }
    if error == Ok {
      error := ValidateList(c.remoteSelectors);
    }
  }

  method ValidateIntent(c: Config) returns (error: Error)
    ensures error == if IntentMatches(c) then Ok else InvalidArgument
  {
    var esn := Proposals.ContainsToken(c.espProposals, "esn");
    var noEsn := Proposals.ContainsToken(c.espProposals, "noesn");
    var pfs := Proposals.ContainsPfsToken(c.espProposals);
    if c.esn == EsnEnabled && !esn {
      error := InvalidArgument;
    } else if c.esn == EsnDisabled && !noEsn {
      error := InvalidArgument;
    } else if c.pfs && !pfs {
      error := InvalidArgument;
    } else {
      error := Ok;
    }
  }

  /** `ValidateConnectionConfig`. */
  method Validate(c: Config) returns (error: Error)
    ensures error == Ok <==> ValidConfig(c)
    ensures error == NotSupported <==> GoodBasics(c) && !(c.localAuth == Psk && c.remoteAuth == Psk)
    ensures error in {Ok, InvalidArgument, NotSupported}
  {
    if |c.localId| == 0 || |c.remoteId| == 0 || ID_LENGTH <= |c.localId| || ID_LENGTH <= |c.remoteId|
       || !(c.mode == Tunnel || c.mode == Transport)
       || !(c.esn == EsnAuto || c.esn == EsnDisabled || c.esn == EsnEnabled) {
      error := InvalidArgument;
    } else {
      error := ValidateName(c.name);
    }
    if error == Ok && (c.localAuth != Psk || c.remoteAuth != Psk) {
      error := NotSupported;
    }
    if error == Ok {
      error := ValidateLists(c);
    }
    if error == Ok {
      error := ValidateIntent(c);
    }
  }

  // ---------- The message

  function YesNo(b: bool): CString {
    if b then "yes" else "no"
  }

  /** A time in whole seconds, rounded up. */
  function Seconds(ms: nat): CString {
    Decimal((ms + 999) / 1000) + "s"
  }

  lemma {:induction false} SecondsShort(ms: nat)
    requires ms <= U64_MAX
    ensures 2 <= |Seconds(ms)| < 32
  {
    assert Pow10(6) == 1000000;
    assert Pow10(12) == 1000000 * Pow10(6) by {
      assert Pow10(12) == 1000 * Pow10(9) && Pow10(9) == 1000 * Pow10(6);
    }
    assert Pow10(18) == 1000000 * Pow10(12) by {
      assert Pow10(18) == 1000 * Pow10(15) && Pow10(15) == 1000 * Pow10(12);
    }
    assert Pow10(20) == 100 * Pow10(18);
    DecimalLength((ms + 999) / 1000, 20);
  }

  /** A time of zero is left out, which keeps the daemon's default. */
  function Duration(name: CString, ms: nat, rest: Forest): Forest {
    if ms == 0 then rest else Pair(name, Seconds(ms), rest)
  }

  function AuthBody(id: CString): Forest {
    Pair("auth", "psk", Pair("id", id, Empty))
  }

  function ChildTimes(c: Config): Forest {
    Duration("rekey_time", c.childRekeyMs, Duration("life_time", c.childLifetimeMs, Empty))
  }

  function ChildActions(c: Config): Forest {
    Pair("start_action", "none", Pair("close_action", "none", Pair("dpd_action", "clear", ChildTimes(c))))
  }

  function ChildMode(c: Config): Forest {
    Pair("mode", if c.mode == Tunnel then "tunnel" else "transport",
      List("esp_proposals", c.espProposals, ChildActions(c)))
  }

  function ChildBody(c: Config): Forest {
    List("local_ts", c.localSelectors, List("remote_ts", c.remoteSelectors, ChildMode(c)))
  }

  function ChildSection(c: Config): Forest {
    Section(c.childName, ChildBody(c), Empty)
  }

  function Children(c: Config): Forest {
    Section("children", ChildSection(c), Empty)
  }

  function Sections(c: Config): Forest {
    Section("local", AuthBody(c.localId), Section("remote", AuthBody(c.remoteId), Children(c)))
  }

  function IkeTimes(c: Config): Forest {
    Duration("rekey_time", c.ikeRekeyMs, Duration("reauth_time", c.ikeLifetimeMs, Sections(c)))
  }

  function Times(c: Config): Forest {
    Duration("dpd_delay", c.dpdDelayMs, Duration("dpd_timeout", c.dpdTimeoutMs, IkeTimes(c)))
  }

  function ForceSwitches(c: Config): Forest {
    Pair("encap", YesNo(c.forceEncapsulation), Pair("childless", if c.forceChildless then "force" else "allow", Times(c)))
  }

  function Switches(c: Config): Forest {
    Pair("mobike", YesNo(c.mobike), Pair("fragmentation", YesNo(c.fragmentation), ForceSwitches(c)))
  }

  function Body(c: Config): Forest {
    Pair("version", "2", List("local_addrs", c.localAddresses, List("remote_addrs", c.remoteAddresses,
      List("proposals", c.ikeProposals, Switches(c)))))
  }

  /** The tree of a `load-conn` request. */
  function Tree(c: Config): Forest {
    Section(c.name, Body(c), Empty)
  }

  const MAX_TIME_MS: nat := U64_MAX - 999

  predicate TimesFit(c: Config) {
    && c.dpdDelayMs <= MAX_TIME_MS && c.dpdTimeoutMs <= MAX_TIME_MS
    && c.ikeRekeyMs <= MAX_TIME_MS && c.ikeLifetimeMs <= MAX_TIME_MS
    && c.childRekeyMs <= MAX_TIME_MS && c.childLifetimeMs <= MAX_TIME_MS
  }

  /** In the middle of writing a tree: the bytes so far and the bytes of what remains make up the whole.
      An error means that memory ran out, that the whole is too big, or that some time does not `fit`. */
  ghost predicate Writing(total: Bytes, contents: Bytes, error: Error, top: Forest, outer: seq<Forest>, fits: bool) {
    && Remainder(None, [top] + outer).Valid()
    && (error == Ok ==> total == contents + RemainderBytes(Remainder(None, [top] + outer)))
    && (error != Ok ==> error == NoMemory || (error == BufferTooSmall && (|total| > MAX_SEGMENT || !fits)))
  }

  lemma {:induction false} Written(total: Bytes, before: Bytes, after: Bytes, error: Error, r: Remainder)
    requires r.Valid() && Uncons(r).Front? && total == before + RemainderBytes(r)
    requires ValidEvent(Uncons(r).event)
    requires before <= after && Outcome(error, |before|, |EventBytes(Uncons(r).event)|)
    requires error == Ok ==> after == before + EventBytes(Uncons(r).event)
    ensures Uncons(r).next.Valid()
    ensures error == Ok ==> total == after + RemainderBytes(Uncons(r).next)
    ensures error != Ok ==> error == NoMemory || (error == BufferTooSmall && |total| > MAX_SEGMENT)
  {
    UnconsBytes(r);
    Regroup(before, EventBytes(Uncons(r).event), RemainderBytes(Uncons(r).next));
  }

  method PutPair(buffer: Buffer, prior: Error, ghost total: Bytes, ghost outer: seq<Forest>, ghost fits: bool,
                 name: CString, value: CString, ghost rest: Forest) returns (error: Error)
    requires buffer.Valid()
    requires Writing(total, buffer.Contents(), prior, Pair(name, value, rest), outer, fits)
    modifies buffer, buffer.data
    ensures buffer.Valid() && (buffer.data == old(buffer.data) || fresh(buffer.data))
    ensures Writing(total, buffer.Contents(), error, rest, outer, fits)
    ensures error == Ok ==> prior == Ok
  {
    ghost var before := buffer.Contents();
    ghost var r := Remainder(None, [Pair(name, value, rest)] + outer);
    UnconsBytes(r);
    assert [rest] + r.stack[1..] == [rest] + outer;
    error := prior;
    if error == Ok {
      error := buffer.AddKeyValue(name, value);
      Written(total, before, buffer.Contents(), error, r);
    }
  }

  /** `AddConnectionDuration`. */
  method PutDuration(buffer: Buffer, prior: Error, ghost total: Bytes, ghost outer: seq<Forest>, ghost fits: bool,
                     name: CString, ms: nat, ghost rest: Forest) returns (error: Error)
    requires buffer.Valid() && ms <= U64_MAX && (fits ==> ms <= MAX_TIME_MS)
    requires Writing(total, buffer.Contents(), prior, Duration(name, ms, rest), outer, fits)
    modifies buffer, buffer.data
    ensures buffer.Valid() && (buffer.data == old(buffer.data) || fresh(buffer.data))
    ensures Writing(total, buffer.Contents(), error, rest, outer, fits)
    ensures error == Ok ==> prior == Ok && ms <= MAX_TIME_MS
  {
    error := prior;
    if error == Ok && 0 < ms {
      if MAX_TIME_MS < ms {
        error := BufferTooSmall;
        assert [Pair(name, Seconds(ms), rest)] + outer != [] by { PairRest(name, Seconds(ms), rest, outer); }
      } else {
        SecondsShort(ms);
        var text := Decimal((ms + 999) / 1000) + "s";
        error := PutPair(buffer, error, total, outer, fits, name, text, rest);
      }
    } else if 0 < ms {
      PairRest(name, Seconds(ms), rest, outer);
    }
  }

  lemma {:induction false} PairRest(name: CString, value: CString, rest: Forest, outer: seq<Forest>)
    requires Remainder(None, [Pair(name, value, rest)] + outer).Valid()
    ensures Remainder(None, [rest] + outer).Valid()
  {
    var r := Remainder(None, [Pair(name, value, rest)] + outer);
    UnconsBytes(r);
    assert [rest] + r.stack[1..] == [rest] + outer;
  }

  lemma {:induction false} ListNext(name: CString, items: seq<CString>, rest: Forest, outer: seq<Forest>)
    requires Remainder(None, [List(name, items, rest)] + outer).Valid()
    ensures var next := Remainder(Some(items), [rest] + outer);
            && next.Valid() && ValidName(name)
            && Uncons(Remainder(None, [List(name, items, rest)] + outer)) == Front(ListStart(name, |outer|), next)
  {
    var r := Remainder(None, [List(name, items, rest)] + outer);
    UnconsBytes(r);
    assert [rest] + r.stack[1..] == [rest] + outer;
  }

  lemma {:induction false} ListOver(items: seq<Bytes>, stack: seq<Forest>)
    requires Remainder(Some(items), stack).Valid()
    ensures Remainder(None, stack).Valid()
  {
  }

  ghost predicate WritingItems(total: Bytes, contents: Bytes, error: Error, items: seq<Bytes>, stack: seq<Forest>) {
    && Remainder(Some(items), stack).Valid()
    && (error == Ok ==> total == contents + RemainderBytes(Remainder(Some(items), stack)))
    && (error != Ok ==> error == NoMemory || (error == BufferTooSmall && |total| > MAX_SEGMENT))
  }

  method PutItem(buffer: Buffer, ghost total: Bytes, ghost stack: seq<Forest>, ghost items: seq<Bytes>, item: CString)
      returns (error: Error)
    requires buffer.Valid() && items != [] && items[0] == item
    requires WritingItems(total, buffer.Contents(), Ok, items, stack)
    modifies buffer, buffer.data
    ensures buffer.Valid() && (buffer.data == old(buffer.data) || fresh(buffer.data))
    ensures WritingItems(total, buffer.Contents(), error, items[1..], stack)
  {
    ghost var before, r := buffer.Contents(), Remainder(Some(items), stack);
    UnconsBytes(r);
    error := buffer.AddListItem(item);
    Written(total, before, buffer.Contents(), error, r);
  }

  method PutItems(buffer: Buffer, prior: Error, ghost total: Bytes, ghost stack: seq<Forest>, items: seq<CString>)
      returns (error: Error)
    requires buffer.Valid() && WritingItems(total, buffer.Contents(), prior, items, stack)
    modifies buffer, buffer.data
    ensures buffer.Valid() && (buffer.data == old(buffer.data) || fresh(buffer.data))
    ensures WritingItems(total, buffer.Contents(), error, if error == Ok then [] else items, stack)
    ensures error == Ok ==> prior == Ok
  {
    error := prior;
    var i := 0;
    while i < |items| && error == Ok
      invariant 0 <= i <= |items|
      invariant buffer.Valid() && (buffer.data == old(buffer.data) || fresh(buffer.data))
      invariant WritingItems(total, buffer.Contents(), error, items[i..], stack)
      invariant error == Ok ==> prior == Ok
    {
      error := PutItem(buffer, total, stack, items[i..], items[i]);
      assert items[i..][1..] == items[i + 1..];
      i := i + 1;
    }
    assert error == Ok ==> items[i..] == [];
  }

  method PutListEnd(buffer: Buffer, ghost total: Bytes, ghost stack: seq<Forest>) returns (error: Error)
    requires buffer.Valid()
    requires WritingItems(total, buffer.Contents(), Ok, [], stack)
    modifies buffer, buffer.data
    ensures buffer.Valid() && (buffer.data == old(buffer.data) || fresh(buffer.data))
    ensures error == Ok ==> total == buffer.Contents() + RemainderBytes(Remainder(None, stack))
    ensures error != Ok ==> error == NoMemory || (error == BufferTooSmall && |total| > MAX_SEGMENT)
  {
    ghost var before, r := buffer.Contents(), Remainder(Some([]), stack);
    UnconsBytes(r);
    error := buffer.Append([TAG_LIST_END]);
    Written(total, before, buffer.Contents(), error, r);
  }

  /** `AddConnectionList`. */
  method PutList(buffer: Buffer, prior: Error, ghost total: Bytes, ghost outer: seq<Forest>, ghost fits: bool,
                 name: CString, items: seq<CString>, ghost rest: Forest) returns (error: Error)
    requires buffer.Valid()
    requires Writing(total, buffer.Contents(), prior, List(name, items, rest), outer, fits)
    modifies buffer, buffer.data
    ensures buffer.Valid() && (buffer.data == old(buffer.data) || fresh(buffer.data))
    ensures Writing(total, buffer.Contents(), error, rest, outer, fits)
    ensures error == Ok ==> prior == Ok
  {
    ghost var stack, before := [rest] + outer, buffer.Contents();
    ListNext(name, items, rest, outer);
    ListOver(items, stack);
    error := prior;
    if error == Ok {
      error := buffer.AddNamed(TAG_LIST_START, name);
      Written(total, before, buffer.Contents(), error, Remainder(None, [List(name, items, rest)] + outer));
      error := PutItems(buffer, error, total, stack, items);
      if error == Ok {
        error := PutListEnd(buffer, total, stack);
      }
    }
  }

  lemma {:induction false} BehindHead(head: Forest, outer: seq<Forest>)
    ensures ([head] + outer)[0] == head && ([head] + outer)[1..] == outer && |[head] + outer| == 1 + |outer|
  {
  }

  lemma {:induction false} SectionNext(name: CString, body: Forest, rest: Forest, outer: seq<Forest>)
    requires Remainder(None, [Section(name, body, rest)] + outer).Valid()
    ensures var next := Remainder(None, [body] + ([rest] + outer));
            && next.Valid() && ValidName(name)
            && Uncons(Remainder(None, [Section(name, body, rest)] + outer)) == Front(SectionStart(name, |outer| + 1), next)
  {
    var r := Remainder(None, [Section(name, body, rest)] + outer);
    UnconsBytes(r);
    BehindHead(Section(name, body, rest), outer);
    Regroup([body], [rest], outer);
    assert [body] + [rest] == [body, rest];
  }

  /** `AddViciSectionStart`. */
  method Open(buffer: Buffer, prior: Error, ghost total: Bytes, ghost outer: seq<Forest>, ghost fits: bool,
              name: CString, ghost body: Forest, ghost rest: Forest) returns (error: Error)
    requires buffer.Valid()
    requires Writing(total, buffer.Contents(), prior, Section(name, body, rest), outer, fits)
    modifies buffer, buffer.data
    ensures buffer.Valid() && (buffer.data == old(buffer.data) || fresh(buffer.data))
    ensures Writing(total, buffer.Contents(), error, body, [rest] + outer, fits)
    ensures error == Ok ==> prior == Ok
  {
    ghost var before := buffer.Contents();
    SectionNext(name, body, rest, outer);
    error := prior;
    if error == Ok {
      error := buffer.AddNamed(TAG_SECTION_START, name);
      Written(total, before, buffer.Contents(), error, Remainder(None, [Section(name, body, rest)] + outer));
    }
  }

  /** `AddViciSectionEnd`. */
  method Close(buffer: Buffer, prior: Error, ghost total: Bytes, ghost outer: seq<Forest>, ghost fits: bool,
               ghost rest: Forest) returns (error: Error)
    requires buffer.Valid()
    requires Writing(total, buffer.Contents(), prior, Empty, [rest] + outer, fits)
    modifies buffer, buffer.data
    ensures buffer.Valid() && (buffer.data == old(buffer.data) || fresh(buffer.data))
    ensures Writing(total, buffer.Contents(), error, rest, outer, fits)
    ensures error == Ok ==> prior == Ok
  {
    ghost var before := buffer.Contents();
    ghost var r := Remainder(None, [Empty] + ([rest] + outer));
    UnconsBytes(r);
    assert r.stack[1..] == [rest] + outer;
    error := prior;
    if error == Ok {
      error := buffer.Append([TAG_SECTION_END]);
      Written(total, before, buffer.Contents(), error, r);
    }
  }

  method PutSwitches(buffer: Buffer, prior: Error, ghost total: Bytes, ghost outer: seq<Forest>, c: Config)
      returns (error: Error)
    requires buffer.Valid()
    requires Writing(total, buffer.Contents(), prior, Switches(c), outer, TimesFit(c))
    modifies buffer, buffer.data
    ensures buffer.Valid() && (buffer.data == old(buffer.data) || fresh(buffer.data))
    ensures Writing(total, buffer.Contents(), error, ForceSwitches(c), outer, TimesFit(c))
    ensures error == Ok ==> prior == Ok
  {
    hide Writing, ForceSwitches, YesNo, TimesFit;
    ghost var fragmentation := Pair("fragmentation", YesNo(c.fragmentation), ForceSwitches(c));
    error := PutPair(buffer, prior, total, outer, TimesFit(c), "mobike", YesNo(c.mobike), fragmentation);
    error := PutPair(buffer, error, total, outer, TimesFit(c), "fragmentation", YesNo(c.fragmentation), ForceSwitches(c));
  }

  method PutForceSwitches(buffer: Buffer, prior: Error, ghost total: Bytes, ghost outer: seq<Forest>, c: Config)
      returns (error: Error)
    requires buffer.Valid()
    requires Writing(total, buffer.Contents(), prior, ForceSwitches(c), outer, TimesFit(c))
    modifies buffer, buffer.data
    ensures buffer.Valid() && (buffer.data == old(buffer.data) || fresh(buffer.data))
    ensures Writing(total, buffer.Contents(), error, Times(c), outer, TimesFit(c))
    ensures error == Ok ==> prior == Ok
  {
    hide Writing, Times, YesNo, TimesFit;
    var word: CString := if c.forceChildless then "force" else "allow";
    error := PutPair(buffer, prior, total, outer, TimesFit(c), "encap", YesNo(c.forceEncapsulation), Pair("childless", word, Times(c)));
    error := PutPair(buffer, error, total, outer, TimesFit(c), "childless", word, Times(c));
  }

  method PutTimes(buffer: Buffer, prior: Error, ghost total: Bytes, ghost outer: seq<Forest>, c: Config)
      returns (error: Error)
    requires buffer.Valid() && Sized(c)
    requires Writing(total, buffer.Contents(), prior, Times(c), outer, TimesFit(c))
    modifies buffer, buffer.data
    ensures buffer.Valid() && (buffer.data == old(buffer.data) || fresh(buffer.data))
    ensures Writing(total, buffer.Contents(), error, IkeTimes(c), outer, TimesFit(c))
    ensures error == Ok ==> prior == Ok && c.dpdDelayMs <= MAX_TIME_MS && c.dpdTimeoutMs <= MAX_TIME_MS
  {
    hide Writing, Duration, IkeTimes;
    ghost var timeout := Duration("dpd_timeout", c.dpdTimeoutMs, IkeTimes(c));
    error := PutDuration(buffer, prior, total, outer, TimesFit(c), "dpd_delay", c.dpdDelayMs, timeout);
    error := PutDuration(buffer, error, total, outer, TimesFit(c), "dpd_timeout", c.dpdTimeoutMs, IkeTimes(c));
  }

  method PutIkeTimes(buffer: Buffer, prior: Error, ghost total: Bytes, ghost outer: seq<Forest>, c: Config)
      returns (error: Error)
    requires buffer.Valid() && Sized(c)
    requires Writing(total, buffer.Contents(), prior, IkeTimes(c), outer, TimesFit(c))
    modifies buffer, buffer.data
    ensures buffer.Valid() && (buffer.data == old(buffer.data) || fresh(buffer.data))
    ensures Writing(total, buffer.Contents(), error, Sections(c), outer, TimesFit(c))
    ensures error == Ok ==> prior == Ok && c.ikeRekeyMs <= MAX_TIME_MS && c.ikeLifetimeMs <= MAX_TIME_MS
  {
    hide Writing, Duration, Sections;
    ghost var reauth := Duration("reauth_time", c.ikeLifetimeMs, Sections(c));
    error := PutDuration(buffer, prior, total, outer, TimesFit(c), "rekey_time", c.ikeRekeyMs, reauth);
    error := PutDuration(buffer, error, total, outer, TimesFit(c), "reauth_time", c.ikeLifetimeMs, Sections(c));
  }

  method PutAllSwitches(buffer: Buffer, prior: Error, ghost total: Bytes, ghost outer: seq<Forest>, c: Config)
      returns (error: Error)
    requires buffer.Valid()
    requires Writing(total, buffer.Contents(), prior, Switches(c), outer, TimesFit(c))
    modifies buffer, buffer.data
    ensures buffer.Valid() && (buffer.data == old(buffer.data) || fresh(buffer.data))
    ensures Writing(total, buffer.Contents(), error, Times(c), outer, TimesFit(c))
    ensures error == Ok ==> prior == Ok
  {
    hide Writing, Switches, ForceSwitches, Times, TimesFit;
    error := PutSwitches(buffer, prior, total, outer, c);
    error := PutForceSwitches(buffer, error, total, outer, c);
  }

  method PutAllTimes(buffer: Buffer, prior: Error, ghost total: Bytes, ghost outer: seq<Forest>, c: Config)
      returns (error: Error)
    requires buffer.Valid() && Sized(c)
    requires Writing(total, buffer.Contents(), prior, Times(c), outer, TimesFit(c))
    modifies buffer, buffer.data
    ensures buffer.Valid() && (buffer.data == old(buffer.data) || fresh(buffer.data))
    ensures Writing(total, buffer.Contents(), error, Sections(c), outer, TimesFit(c))
    ensures error == Ok ==>
              && prior == Ok && c.dpdDelayMs <= MAX_TIME_MS && c.dpdTimeoutMs <= MAX_TIME_MS
              && c.ikeRekeyMs <= MAX_TIME_MS && c.ikeLifetimeMs <= MAX_TIME_MS
  {
    hide Writing, Times, IkeTimes, Sections, TimesFit;
    error := PutTimes(buffer, prior, total, outer, c);
    error := PutIkeTimes(buffer, error, total, outer, c);
  }

  method PutAuth(buffer: Buffer, prior: Error, ghost total: Bytes, ghost outer: seq<Forest>, ghost fits: bool,
                 side: CString, id: CString, ghost rest: Forest) returns (error: Error)
    requires buffer.Valid()
    requires Writing(total, buffer.Contents(), prior, Section(side, AuthBody(id), rest), outer, fits)
    modifies buffer, buffer.data
    ensures buffer.Valid() && (buffer.data == old(buffer.data) || fresh(buffer.data))
    ensures Writing(total, buffer.Contents(), error, rest, outer, fits)
    ensures error == Ok ==> prior == Ok
  {
    hide Writing;
    ghost var inner := [rest] + outer;
    error := Open(buffer, prior, total, outer, fits, side, AuthBody(id), rest);
    error := PutPair(buffer, error, total, inner, fits, "auth", "psk", Pair("id", id, Empty));
    error := PutPair(buffer, error, total, inner, fits, "id", id, Empty);
    error := Close(buffer, error, total, outer, fits, rest);
  }

  method PutSelectors(buffer: Buffer, prior: Error, ghost total: Bytes, ghost outer: seq<Forest>, c: Config)
      returns (error: Error)
    requires buffer.Valid()
    requires Writing(total, buffer.Contents(), prior, ChildBody(c), outer, TimesFit(c))
    modifies buffer, buffer.data
    ensures buffer.Valid() && (buffer.data == old(buffer.data) || fresh(buffer.data))
    ensures Writing(total, buffer.Contents(), error, ChildMode(c), outer, TimesFit(c))
    ensures error == Ok ==> prior == Ok
  {
    hide Writing, ChildMode, TimesFit;
    ghost var remote := List("remote_ts", c.remoteSelectors, ChildMode(c));
    error := PutList(buffer, prior, total, outer, TimesFit(c), "local_ts", c.localSelectors, remote);
    error := PutList(buffer, error, total, outer, TimesFit(c), "remote_ts", c.remoteSelectors, ChildMode(c));
  }

  method PutChildMode(buffer: Buffer, prior: Error, ghost total: Bytes, ghost outer: seq<Forest>, c: Config)
      returns (error: Error)
    requires buffer.Valid()
    requires Writing(total, buffer.Contents(), prior, ChildMode(c), outer, TimesFit(c))
    modifies buffer, buffer.data
    ensures buffer.Valid() && (buffer.data == old(buffer.data) || fresh(buffer.data))
    ensures Writing(total, buffer.Contents(), error, ChildActions(c), outer, TimesFit(c))
    ensures error == Ok ==> prior == Ok
  {
    hide Writing, ChildActions, TimesFit;
    ghost var esp := List("esp_proposals", c.espProposals, ChildActions(c));
    error := PutPair(buffer, prior, total, outer, TimesFit(c), "mode", if c.mode == Tunnel then "tunnel" else "transport", esp);
    error := PutList(buffer, error, total, outer, TimesFit(c), "esp_proposals", c.espProposals, ChildActions(c));
  }

  method PutChildActions(buffer: Buffer, prior: Error, ghost total: Bytes, ghost outer: seq<Forest>, c: Config)
      returns (error: Error)
    requires buffer.Valid()
    requires Writing(total, buffer.Contents(), prior, ChildActions(c), outer, TimesFit(c))
    modifies buffer, buffer.data
    ensures buffer.Valid() && (buffer.data == old(buffer.data) || fresh(buffer.data))
    ensures Writing(total, buffer.Contents(), error, ChildTimes(c), outer, TimesFit(c))
    ensures error == Ok ==> prior == Ok
  {
    hide Writing, ChildTimes, TimesFit;
    ghost var fits := TimesFit(c);
    ghost var dpd := Pair("dpd_action", "clear", ChildTimes(c));
    ghost var close := Pair("close_action", "none", dpd);
    error := PutPair(buffer, prior, total, outer, fits, "start_action", "none", close);
    error := PutPair(buffer, error, total, outer, fits, "close_action", "none", dpd);
    error := PutPair(buffer, error, total, outer, fits, "dpd_action", "clear", ChildTimes(c));
  }

  method PutChildTimes(buffer: Buffer, prior: Error, ghost total: Bytes, ghost outer: seq<Forest>, c: Config)
      returns (error: Error)
    requires buffer.Valid() && Sized(c)
    requires Writing(total, buffer.Contents(), prior, ChildTimes(c), outer, TimesFit(c))
    modifies buffer, buffer.data
    ensures buffer.Valid() && (buffer.data == old(buffer.data) || fresh(buffer.data))
    ensures Writing(total, buffer.Contents(), error, Empty, outer, TimesFit(c))
    ensures error == Ok ==> prior == Ok && c.childRekeyMs <= MAX_TIME_MS && c.childLifetimeMs <= MAX_TIME_MS
  {
    hide Writing, Duration;
    ghost var life := Duration("life_time", c.childLifetimeMs, Empty);
    error := PutDuration(buffer, prior, total, outer, TimesFit(c), "rekey_time", c.childRekeyMs, life);
    error := PutDuration(buffer, error, total, outer, TimesFit(c), "life_time", c.childLifetimeMs, Empty);
  }

  method PutChildBody(buffer: Buffer, prior: Error, ghost total: Bytes, ghost outer: seq<Forest>, c: Config)
      returns (error: Error)
    requires buffer.Valid() && Sized(c)
    requires Writing(total, buffer.Contents(), prior, ChildBody(c), outer, TimesFit(c))
    modifies buffer, buffer.data
    ensures buffer.Valid() && (buffer.data == old(buffer.data) || fresh(buffer.data))
    ensures Writing(total, buffer.Contents(), error, Empty, outer, TimesFit(c))
    ensures error == Ok ==> prior == Ok && c.childRekeyMs <= MAX_TIME_MS && c.childLifetimeMs <= MAX_TIME_MS
  {
    hide Writing, ChildBody, ChildMode, ChildActions, ChildTimes;
    error := PutSelectors(buffer, prior, total, outer, c);
    error := PutChildMode(buffer, error, total, outer, c);
    error := PutChildActions(buffer, error, total, outer, c);
    error := PutChildTimes(buffer, error, total, outer, c);
  }

  method PutChild(buffer: Buffer, prior: Error, ghost total: Bytes, ghost outer: seq<Forest>, c: Config)
      returns (error: Error)
    requires buffer.Valid() && Sized(c)
    requires Writing(total, buffer.Contents(), prior, ChildSection(c), outer, TimesFit(c))
    modifies buffer, buffer.data
    ensures buffer.Valid() && (buffer.data == old(buffer.data) || fresh(buffer.data))
    ensures Writing(total, buffer.Contents(), error, Empty, outer, TimesFit(c))
    ensures error == Ok ==> prior == Ok && c.childRekeyMs <= MAX_TIME_MS && c.childLifetimeMs <= MAX_TIME_MS
  {
    hide Writing, ChildBody;
    ghost var inner := [Empty] + outer;
    error := Open(buffer, prior, total, outer, TimesFit(c), c.childName, ChildBody(c), Empty);
    error := PutChildBody(buffer, error, total, inner, c);
    error := Close(buffer, error, total, outer, TimesFit(c), Empty);
  }

  method PutChildren(buffer: Buffer, prior: Error, ghost total: Bytes, ghost outer: seq<Forest>, c: Config)
      returns (error: Error)
    requires buffer.Valid() && Sized(c)
    requires Writing(total, buffer.Contents(), prior, Children(c), outer, TimesFit(c))
    modifies buffer, buffer.data
    ensures buffer.Valid() && (buffer.data == old(buffer.data) || fresh(buffer.data))
    ensures Writing(total, buffer.Contents(), error, Empty, outer, TimesFit(c))
    ensures error == Ok ==> prior == Ok && c.childRekeyMs <= MAX_TIME_MS && c.childLifetimeMs <= MAX_TIME_MS
  {
    hide Writing, ChildSection;
    ghost var inner := [Empty] + outer;
    error := Open(buffer, prior, total, outer, TimesFit(c), "children", ChildSection(c), Empty);
    error := PutChild(buffer, error, total, inner, c);
    error := Close(buffer, error, total, outer, TimesFit(c), Empty);
  }

  method PutSections(buffer: Buffer, prior: Error, ghost total: Bytes, ghost outer: seq<Forest>, c: Config)
      returns (error: Error)
    requires buffer.Valid() && Sized(c)
    requires Writing(total, buffer.Contents(), prior, Sections(c), outer, TimesFit(c))
    modifies buffer, buffer.data
    ensures buffer.Valid() && (buffer.data == old(buffer.data) || fresh(buffer.data))
    ensures Writing(total, buffer.Contents(), error, Empty, outer, TimesFit(c))
    ensures error == Ok ==> prior == Ok && c.childRekeyMs <= MAX_TIME_MS && c.childLifetimeMs <= MAX_TIME_MS
  {
    hide Writing, AuthBody, Children;
    ghost var remote := Section("remote", AuthBody(c.remoteId), Children(c));
    error := PutAuth(buffer, prior, total, outer, TimesFit(c), "local", c.localId, remote);
    error := PutAuth(buffer, error, total, outer, TimesFit(c), "remote", c.remoteId, Children(c));
    error := PutChildren(buffer, error, total, outer, c);
  }

  method PutAddresses(buffer: Buffer, prior: Error, ghost total: Bytes, ghost outer: seq<Forest>, c: Config)
      returns (error: Error)
    requires buffer.Valid()
    requires Writing(total, buffer.Contents(), prior, Body(c), outer, TimesFit(c))
    modifies buffer, buffer.data
    ensures buffer.Valid() && (buffer.data == old(buffer.data) || fresh(buffer.data))
    ensures Writing(total, buffer.Contents(), error, Switches(c), outer, TimesFit(c))
    ensures error == Ok ==> prior == Ok
  {
    hide Writing, Switches, TimesFit;
    ghost var fits := TimesFit(c);
    ghost var proposals := List("proposals", c.ikeProposals, Switches(c));
    ghost var remote := List("remote_addrs", c.remoteAddresses, proposals);
    ghost var local := List("local_addrs", c.localAddresses, remote);
    error := PutPair(buffer, prior, total, outer, fits, "version", "2", local);
    error := PutList(buffer, error, total, outer, fits, "local_addrs", c.localAddresses, remote);
    error := PutList(buffer, error, total, outer, fits, "remote_addrs", c.remoteAddresses, proposals);
    error := PutList(buffer, error, total, outer, fits, "proposals", c.ikeProposals, Switches(c));
  }

  method PutBody(buffer: Buffer, prior: Error, ghost total: Bytes, ghost outer: seq<Forest>, c: Config)
      returns (error: Error)
    requires buffer.Valid() && Sized(c)
    requires Writing(total, buffer.Contents(), prior, Body(c), outer, TimesFit(c))
    modifies buffer, buffer.data
    ensures buffer.Valid() && (buffer.data == old(buffer.data) || fresh(buffer.data))
    ensures Writing(total, buffer.Contents(), error, Empty, outer, TimesFit(c))
    ensures error == Ok ==> prior == Ok && TimesFit(c)
  {
    hide Writing, Body, Switches, Times, Sections;
    error := PutAddresses(buffer, prior, total, outer, c);
    error := PutAllSwitches(buffer, error, total, outer, c);
    error := PutAllTimes(buffer, error, total, outer, c);
    error := PutSections(buffer, error, total, outer, c);
  }

  /** The widths of the time fields. */
  predicate Sized(c: Config) {
    && c.dpdDelayMs <= U32_MAX && c.dpdTimeoutMs <= U32_MAX
    && c.ikeRekeyMs <= U64_MAX && c.ikeLifetimeMs <= U64_MAX
    && c.childRekeyMs <= U64_MAX && c.childLifetimeMs <= U64_MAX
  }

  /** `BuildConnectionMessage`: the bytes of the tree, unless memory runs out or a time is out of range. */
  method BuildMessage(c: Config) returns (error: Error, message: Bytes)
    requires ValidConfig(c) && Sized(c)
    ensures Valid(Tree(c), 0) && |Encode(Tree(c), 0)| <= MAX_SEGMENT
    ensures error == Ok ==> TimesFit(c) && message == Encode(Tree(c), 0)
    ensures error != Ok ==> error == NoMemory || (error == BufferTooSmall && !TimesFit(c))
    ensures error != Ok ==> message == []
  {
    hide Writing, Valid, Encode, Body;
    TreeSmall(c);
    ghost var total := Encode(Tree(c), 0);
    message := [];
    var buffer := new Buffer();
    error := buffer.Initialize(2048, false);
    StartWriting(c, error);
    error := Open(buffer, error, total, [], TimesFit(c), c.name, Body(c), Empty);
    error := PutBody(buffer, error, total, [Empty] + [], c);
    error := Close(buffer, error, total, [], TimesFit(c), Empty);
    EndWriting(total, buffer.Contents(), error, TimesFit(c));
    if error == Ok {
      message := buffer.data[..buffer.length];
    }
  }

  lemma {:induction false} EndWriting(total: Bytes, contents: Bytes, error: Error, fits: bool)
    requires Writing(total, contents, error, Empty, [], fits)
    ensures error == Ok ==> contents == total
    ensures error != Ok ==> error == NoMemory || (error == BufferTooSmall && (|total| > MAX_SEGMENT || !fits))
  {
    assert [Empty] + [] == [Empty];
    WholeMessage(Empty);
    assert contents + [] == contents;
  }

  lemma {:induction false} StartWriting(c: Config, error: Error)
    requires Valid(Tree(c), 0) && (error == Ok || error == NoMemory)
    ensures Writing(Encode(Tree(c), 0), [], error, Tree(c), [], TimesFit(c))
  {
    WholeMessage(Tree(c));
    assert [Tree(c)] + [] == [Tree(c)];
    assert [] + Encode(Tree(c), 0) == Encode(Tree(c), 0);
  }

  // ---------- The tree is valid and small

  lemma {:induction false} DurationValid(name: CString, ms: nat, rest: Forest, depth: nat)
    requires ValidName(name) && ms <= U64_MAX && Valid(rest, depth)
    ensures Valid(Duration(name, ms, rest), depth)
    ensures |Encode(Duration(name, ms, rest), depth)| <= 36 + |name| + |Encode(rest, depth)|
  {
    SecondsShort(ms);
  }

  lemma {:induction false} ItemsSmall(items: seq<CString>)
    requires forall i :: 0 <= i < |items| ==> |items[i]| <= MAX_INPUT_LENGTH
    ensures ValidItems(items) && |ItemsBytes(items)| <= 1 + 1027 * |items|
  {
    if items != [] {
      ItemsSmall(items[1..]);
    }
  }

  lemma {:induction false} ListSmall(name: CString, items: seq<CString>, rest: Forest, depth: nat)
    requires ValidName(name) && GoodList(items) && Valid(rest, depth)
    ensures Valid(List(name, items, rest), depth)
    ensures |Encode(List(name, items, rest), depth)| <= 65731 + |name| + |Encode(rest, depth)|
  {
    ItemsSmall(items);
  }

  lemma {:induction false} PairSmall(name: CString, value: CString, rest: Forest, depth: nat)
    requires ValidName(name) && ValidValue(value) && Valid(rest, depth)
    ensures Valid(Pair(name, value, rest), depth)
    ensures |Encode(Pair(name, value, rest), depth)| == 4 + |name| + |value| + |Encode(rest, depth)|
  {
  }

  lemma {:induction false} SectionSmall(name: CString, body: Forest, rest: Forest, depth: nat)
    requires ValidName(name) && depth < MAX_DEPTH && Valid(body, depth + 1) && Valid(rest, depth)
    ensures Valid(Section(name, body, rest), depth)
    ensures |Encode(Section(name, body, rest), depth)| == 3 + |name| + |Encode(body, depth + 1)| + |Encode(rest, depth)|
  {
  }

  lemma {:induction false} EmptySmall(depth: nat)
    ensures Valid(Empty, depth) && Encode(Empty, depth) == []
  {
  }

  lemma {:induction false} ActionsSmall(c: Config)
    requires Sized(c)
    ensures Valid(ChildActions(c), 3) && |Encode(ChildActions(c), 3)| <= 300
  {
    hide Encode, Valid, Duration;
    EmptySmall(3);
    DurationValid("life_time", c.childLifetimeMs, Empty, 3);
    var life := Duration("life_time", c.childLifetimeMs, Empty);
    DurationValid("rekey_time", c.childRekeyMs, life, 3);
    var rekey := Duration("rekey_time", c.childRekeyMs, life);
    PairSmall("dpd_action", "clear", rekey, 3);
    var dpd := Pair("dpd_action", "clear", rekey);
    PairSmall("close_action", "none", dpd, 3);
    PairSmall("start_action", "none", Pair("close_action", "none", dpd), 3);
  }

  lemma {:induction false} ChildSmall(c: Config)
    requires GoodLists(c) && Sized(c)
    ensures Valid(ChildBody(c), 3) && |Encode(ChildBody(c), 3)| <= 197700
  {
    hide Encode, Valid, ChildActions;
    ActionsSmall(c);
    var end := ChildActions(c);
    ListSmall("esp_proposals", c.espProposals, end, 3);
    var esp := List("esp_proposals", c.espProposals, end);
    var mode: CString := if c.mode == Tunnel then "tunnel" else "transport";
    PairSmall("mode", mode, esp, 3);
    ListSmall("remote_ts", c.remoteSelectors, Pair("mode", mode, esp), 3);
    ListSmall("local_ts", c.localSelectors, List("remote_ts", c.remoteSelectors, Pair("mode", mode, esp)), 3);
  }

  lemma {:induction false} AuthSmall(id: CString)
    requires |id| < ID_LENGTH
    ensures Valid(AuthBody(id), 2) && |Encode(AuthBody(id), 2)| <= 150
  {
    hide Encode, Valid;
    EmptySmall(2);
    PairSmall("id", id, Empty, 2);
    PairSmall("auth", "psk", Pair("id", id, Empty), 2);
  }

  lemma {:induction false} SectionsSmall(c: Config)
    requires GoodLists(c) && GoodBasics(c) && Sized(c)
    ensures Valid(Sections(c), 1) && |Encode(Sections(c), 1)| <= 198300
  {
    hide Encode, Valid, ChildBody, AuthBody;
    ChildSmall(c);
    AuthSmall(c.localId);
    AuthSmall(c.remoteId);
    EmptySmall(2);
    EmptySmall(1);
    SectionSmall(c.childName, ChildBody(c), Empty, 2);
    SectionSmall("children", ChildSection(c), Empty, 1);
    var children := Children(c);
    SectionSmall("remote", AuthBody(c.remoteId), children, 1);
    SectionSmall("local", AuthBody(c.localId), Section("remote", AuthBody(c.remoteId), children), 1);
  }

  lemma {:induction false} IkeTimesSmall(c: Config)
    requires GoodLists(c) && GoodBasics(c) && Sized(c)
    ensures Valid(IkeTimes(c), 1) && |Encode(IkeTimes(c), 1)| <= 198400
  {
    hide Encode, Valid, Sections, Duration;
    SectionsSmall(c);
    DurationValid("reauth_time", c.ikeLifetimeMs, Sections(c), 1);
    DurationValid("rekey_time", c.ikeRekeyMs, Duration("reauth_time", c.ikeLifetimeMs, Sections(c)), 1);
  }

  lemma {:induction false} TimesSmall(c: Config)
    requires GoodLists(c) && GoodBasics(c) && Sized(c)
    ensures Valid(Times(c), 1) && |Encode(Times(c), 1)| <= 198500
  {
    hide Encode, Valid, IkeTimes, Duration;
    IkeTimesSmall(c);
    DurationValid("dpd_timeout", c.dpdTimeoutMs, IkeTimes(c), 1);
    DurationValid("dpd_delay", c.dpdDelayMs, Duration("dpd_timeout", c.dpdTimeoutMs, IkeTimes(c)), 1);
  }

  lemma {:induction false} YesNoSmall(name: CString, b: bool, rest: Forest)
    requires ValidName(name) && |name| <= 20 && Valid(rest, 1)
    ensures Valid(Pair(name, YesNo(b), rest), 1) && |Encode(Pair(name, YesNo(b), rest), 1)| <= 27 + |Encode(rest, 1)|
  {
    hide Encode, Valid;
    PairSmall(name, YesNo(b), rest, 1);
  }

  lemma {:induction false} ForceSwitchesSmall(c: Config)
    requires GoodLists(c) && GoodBasics(c) && Sized(c)
    ensures Valid(ForceSwitches(c), 1) && |Encode(ForceSwitches(c), 1)| <= 198600
  {
    hide Encode, Valid, Times, YesNo;
    TimesSmall(c);
    var word: CString := if c.forceChildless then "force" else "allow";
    PairSmall("childless", word, Times(c), 1);
    YesNoSmall("encap", c.forceEncapsulation, Pair("childless", word, Times(c)));
  }

  lemma {:induction false} SwitchesSmall(c: Config)
    requires GoodLists(c) && GoodBasics(c) && Sized(c)
    ensures Valid(Switches(c), 1) && |Encode(Switches(c), 1)| <= 198700
  {
    hide Encode, Valid, ForceSwitches, YesNo;
    ForceSwitchesSmall(c);
    YesNoSmall("fragmentation", c.fragmentation, ForceSwitches(c));
    YesNoSmall("mobike", c.mobike, Pair("fragmentation", YesNo(c.fragmentation), ForceSwitches(c)));
  }

  /** The message of a validated configuration is well formed and stays below the size limit. */
  lemma {:induction false} TreeSmall(c: Config)
    requires GoodLists(c) && GoodBasics(c) && Sized(c)
    ensures Valid(Tree(c), 0) && |Encode(Tree(c), 0)| <= 396400 < MAX_SEGMENT
  {
    hide Encode, Valid, Switches;
    SwitchesSmall(c);
    EmptySmall(0);
    ListSmall("proposals", c.ikeProposals, Switches(c), 1);
    var proposals := List("proposals", c.ikeProposals, Switches(c));
    ListSmall("remote_addrs", c.remoteAddresses, proposals, 1);
    var remote := List("remote_addrs", c.remoteAddresses, proposals);
    ListSmall("local_addrs", c.localAddresses, remote, 1);
    var local := List("local_addrs", c.localAddresses, remote);
    PairSmall("version", "2", local, 1);
    SectionSmall(c.name, Pair("version", "2", local), Empty, 0);
  }
}
