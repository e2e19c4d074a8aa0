/** Proposal texts: the comma splitter, the three token searches and the two key-exchange searches. */
module Proposals {
  import opened Core
  import opened Text

  const PROPOSAL_COUNT: nat := 32
  const ALGORITHM_LENGTH: nat := 128

  /** The hyphen-separated components of a proposal contain the token. */
  predicate HasComponent(proposal: string, token: string) {
    token in Parts(proposal, '-')
  }

  predicate AnyHasComponent(proposals: seq<string>, token: string) {
    exists i :: 0 <= i < |proposals| && HasComponent(proposals[i], token)
  }

  // A name that a component search can look for.
  predicate IsToken(token: string) {
    token != [] && '-' !in token
  }

  // ---------- The skip-ahead searches

  /** Jumping behind an occurrence loses nothing: a token cannot stand across a hyphen-free text. */
  lemma {:induction false} NothingSkipped(s: string, t: string, p: nat, i: nat)
    requires IsToken(t) && OccursAt(s, t, p) && p < i < p + |t|
    ensures !StandsAt(s, t, '-', i)
  {
    Letters(s, t, p);
    assert s[i - 1] == t[i - 1 - p];
  }

  lemma {:induction false} NothingBefore(s: string, t: string, cursor: nat, p: nat)
    requires IsToken(t) && cursor <= |s| && Strstr(s, t, cursor) == Some(p) && !StandsAt(s, t, '-', p)
    requires forall i: nat :: i < cursor ==> !StandsAt(s, t, '-', i)
    ensures forall i: nat :: i < p + |t| ==> !StandsAt(s, t, '-', i)
  {
    forall i: nat | i < p + |t|
      ensures !StandsAt(s, t, '-', i)
    {
      if p < i {
        NothingSkipped(s, t, p, i);
      }
    }
  }

  /** `HasNativeAppAlgorithmToken`. */
  method HasToken(proposal: string, token: string) returns (found: bool)
    requires IsToken(token)
    ensures found <==> HasComponent(proposal, token)
  {
    hide Strstr;
    found := false;
    var cursor := 0;
    var hit := Strstr(proposal, token, cursor);
    while hit.Some? && !found
      invariant cursor <= |proposal| && hit == Strstr(proposal, token, cursor)
      invariant found ==> hit.Some? && StandsAt(proposal, token, '-', hit.value)
      invariant forall i: nat :: i < cursor ==> !StandsAt(proposal, token, '-', i)
      decreases |proposal| - cursor, !found
    {
      var p := hit.value;
      var left := p == 0 || proposal[p - 1] == '-';
      var right := p + |token| == |proposal| || proposal[p + |token|] == '-';
      if left && right {
        found := true;
      } else {
        NothingBefore(proposal, token, cursor, p);
        cursor := p + |token|;
        hit := Strstr(proposal, token, cursor);
      }
    }
    hide Parts;
    StandsIffPart(proposal, token, '-');
  }

  /** `HasNativeAppProposalToken`. */
  method HasProposalToken(proposals: seq<string>, token: string) returns (found: bool)
    requires IsToken(token)
    ensures found <==> AnyHasComponent(proposals, token)
  {
    found := false;
    var i := 0;
    while i < |proposals| && !found
      invariant 0 <= i <= |proposals|
      invariant found ==> 0 < i && HasComponent(proposals[i - 1], token)
      invariant !found ==> forall j :: 0 <= j < i ==> !HasComponent(proposals[j], token)
    {
      found := HasToken(proposals[i], token);
      i := i + 1;
    }
  }

  // ---------- The component search

  /** One proposal of `ContainsConnectionProposalToken`: compare component after component. */
  method VisitComponents(proposal: string, token: string) returns (found: bool)
    requires IsToken(token)
    ensures found <==> HasComponent(proposal, token)
  {
    found := false;
    var cursor := 0;
    while cursor < |proposal| && !found
      invariant cursor <= |proposal|
      invariant found ==> HasComponent(proposal, token)
      invariant !found ==> (HasComponent(proposal, token) <==> token in PartsFrom(proposal, cursor, '-'))
      decreases |proposal| - cursor, !found
    {
      var end := Next(proposal, cursor, '-');
      if proposal[cursor..end] == token {
        found := true;
      } else if end == |proposal| {
        return;
      } else {
        cursor := end + 1;
      }
    }
  }

  /** `ContainsConnectionProposalToken`. */
  method ContainsToken(proposals: seq<string>, token: string) returns (found: bool)
    requires IsToken(token)
    ensures found <==> AnyHasComponent(proposals, token)
  {
    found := false;
    var i := 0;
    while i < |proposals| && !found
      invariant 0 <= i <= |proposals|
      invariant found ==> 0 < i && HasComponent(proposals[i - 1], token)
      invariant !found ==> forall j :: 0 <= j < i ==> !HasComponent(proposals[j], token)
    {
      found := VisitComponents(proposals[i], token);
      i := i + 1;
    }
  }

  // ---------- Key exchanges

  predicate IsKe(component: string) {
    "modp" <= component || "ecp" <= component || "curve" <= component
  }

  /** The last component the loop looks at: an empty one at the very end is not looked at. */
  function LastVisited(proposal: string, from: nat): Option<string>
    requires from <= |proposal|
    decreases |proposal| - from
  {
    if from == |proposal| then None
    else
      var end := Next(proposal, from, '-');
      if end == |proposal| || end + 1 == |proposal| then Some(proposal[from..end])
      else LastVisited(proposal, end + 1)
  }

  /** The last component, not counting an empty one at the very end. */
  function LastOf(components: seq<string>): string
    requires components != []
  {
    var n := |components|;
    if n > 1 && components[n - 1] == [] then components[n - 2] else components[n - 1]
  }

  predicate EndsInKe(proposal: string) {
    IsKe(LastOf(Parts(proposal, '-')))
  }

  lemma {:induction false} LastOfBehind(component: string, rest: seq<string>)
    requires rest != [] && (|rest| > 1 || rest[0] != [])
    ensures LastOf([component] + rest) == LastOf(rest)
  {
  }

  /** What the loop looks at last is the last component. */
  lemma {:induction false} LastVisitedIs(s: string, from: nat)
    requires from < |s|
    ensures LastVisited(s, from) == Some(LastOf(PartsFrom(s, from, '-')))
    decreases |s| - from
  {
    var end := Next(s, from, '-');
    if end + 1 < |s| {
      LastVisitedIs(s, end + 1);
      LastOfBehind(s[from..end], PartsFrom(s, end + 1, '-'));
    } else if end < |s| {
      assert Next(s, |s|, '-') == |s|;
      assert s[|s|..|s|] == [];
      assert PartsFrom(s, |s|, '-') == [s[|s|..|s|]];
    }
  }

  lemma {:induction false} NothingEnds()
    ensures !EndsInKe([])
  {
    FirstPart([], 0, 0, '-');
  }

  predicate HasKe(proposal: string) {
    exists k :: 0 <= k < |Parts(proposal, '-')| && IsKe(Parts(proposal, '-')[k])
  }

  predicate HasLaterKe(proposal: string) {
    LaterStarts(proposal, 0, "modp", '-') || LaterStarts(proposal, 0, "ecp", '-') || LaterStarts(proposal, 0, "curve", '-')
  }

  /** One proposal of `HasNativeAppPfsToken`.  Every component overwrites the flag. */
  method VisitForPfs(proposal: string) returns (found: bool)
    ensures found <==> EndsInKe(proposal)
  {
    found := false;
    var cursor := 0;
    if proposal == [] {
      NothingEnds();
    } else {
      LastVisitedIs(proposal, 0);
    }
    hide EndsInKe, LastOf, Parts;
    while cursor < |proposal|
      invariant cursor <= |proposal|
      invariant cursor < |proposal| ==> LastVisited(proposal, cursor) == LastVisited(proposal, 0)
      invariant cursor == |proposal| ==> (found <==> EndsInKe(proposal))
    {
      var end := Next(proposal, cursor, '-');
      var component := proposal[cursor..end];
      found := (4 <= |component| && component[..4] == "modp")
               || (3 <= |component| && component[..3] == "ecp")
               || (5 <= |component| && component[..5] == "curve");
      if end == |proposal| {
        return;
      }
      cursor := end + 1;
    }
  }

  /** `HasNativeAppPfsToken`. */
  method HasPfsToken(proposals: seq<string>) returns (found: bool)
    ensures found <==> SomeEndsInKe(proposals)
  {
    found := false;
    var i := 0;
    while i < |proposals| && !found
      invariant 0 <= i <= |proposals|
      invariant found ==> 0 < i && EndsInKe(proposals[i - 1])
      invariant !found ==> forall j :: 0 <= j < i ==> !EndsInKe(proposals[j])
    {
      found := VisitForPfs(proposals[i]);
      i := i + 1;
    }
  }

  /** `ContainsConnectionPfsToken`: finds a key exchange behind a hyphen, never a leading one. */
  method ContainsPfsToken(proposals: seq<string>) returns (found: bool)
    ensures found <==> exists i :: 0 <= i < |proposals| && HasLaterKe(proposals[i])
  {
    found := false;
    var i := 0;
    while i < |proposals| && !found
      invariant 0 <= i <= |proposals|
      invariant found ==> 0 < i && HasLaterKe(proposals[i - 1])
      invariant !found ==> forall j :: 0 <= j < i ==> !HasLaterKe(proposals[j])
    {
      LaterPartStarts(proposals[i], "modp", '-');
      LaterPartStarts(proposals[i], "ecp", '-');
      LaterPartStarts(proposals[i], "curve", '-');
      assert ['-'] + "modp" == "-modp" && ['-'] + "ecp" == "-ecp" && ['-'] + "curve" == "-curve";
      found := Strstr(proposals[i], "-modp", 0).Some?
               || Strstr(proposals[i], "-ecp", 0).Some?
               || Strstr(proposals[i], "-curve", 0).Some?;
      i := i + 1;
    }
  }

  /** What the search finds is a key exchange among the components. */
  lemma {:induction false} PfsSearchSound(proposal: string)
    ensures EndsInKe(proposal) ==> HasKe(proposal)
  {
    var parts := Parts(proposal, '-');
    assert LastOf(parts) in parts;
    if EndsInKe(proposal) {
      var k :| 0 <= k < |parts| && parts[k] == LastOf(parts);
      assert IsKe(parts[k]);
    }
  }

  predicate SomeEndsInKe(proposals: seq<string>) {
    exists i :: 0 <= i < |proposals| && EndsInKe(proposals[i])
  }

  predicate SomeHasKe(proposals: seq<string>) {
    exists i :: 0 <= i < |proposals| && HasKe(proposals[i])
  }

  /** A key exchange with a hyphen behind it. */
  predicate FollowedKe(proposal: string) {
    exists k :: 0 <= k < |Parts(proposal, '-')| - 1 && IsKe(Parts(proposal, '-')[k])
  }

  predicate SomeFollowedKe(proposals: seq<string>) {
    exists i :: 0 <= i < |proposals| && FollowedKe(proposals[i])
  }

  /** A key exchange that is not at the end has a hyphen behind it. */
  lemma {:induction false} KeEndsOrIsFollowed(proposal: string)
    ensures HasKe(proposal) <==> EndsInKe(proposal) || FollowedKe(proposal)
  {
    PfsSearchSound(proposal);
    var parts := Parts(proposal, '-');
    if k :| 0 <= k < |parts| && IsKe(parts[k]) {
      if k == |parts| - 1 {
        assert LastOf(parts) == parts[k];
      }
    }
  }

  /** The search of `HasNativeAppPfsToken` says whether some component is a key exchange, unless every proposal with a
      key exchange has more components behind it: then, and only then, it overlooks them. */
  lemma {:induction false} PfsSearchAgrees(proposals: seq<string>)
    ensures (SomeEndsInKe(proposals) <==> SomeHasKe(proposals)) <==> !SomeFollowedKe(proposals) || SomeEndsInKe(proposals)
    ensures SomeEndsInKe(proposals) ==> SomeHasKe(proposals)
  {
    hide HasKe, EndsInKe, FollowedKe;
    forall i | 0 <= i < |proposals|
      ensures HasKe(proposals[i]) <==> EndsInKe(proposals[i]) || FollowedKe(proposals[i])
    {
      KeEndsOrIsFollowed(proposals[i]);
    }
  }

  predicate SomeHasLaterKe(proposals: seq<string>) {
    exists i :: 0 <= i < |proposals| && HasLaterKe(proposals[i])
  }

  predicate SomeStartsWithKe(proposals: seq<string>) {
    exists i :: 0 <= i < |proposals| && IsKe(proposals[i])
  }

  /** A key exchange is at the start of a proposal or behind a hyphen. */
  lemma {:induction false} KeStartsOrIsLater(proposal: string)
    ensures HasKe(proposal) <==> IsKe(proposal) || HasLaterKe(proposal)
  {
    StartsPart(proposal, 0, "modp", '-');
    StartsPart(proposal, 0, "ecp", '-');
    StartsPart(proposal, 0, "curve", '-');
    StartOf(proposal, "modp");
    StartOf(proposal, "ecp");
    StartOf(proposal, "curve");
    var parts := Parts(proposal, '-');
    if HasLaterKe(proposal) {
      var k :| 1 <= k < |parts| && ("modp" <= parts[k] || "ecp" <= parts[k] || "curve" <= parts[k]);
      assert IsKe(parts[k]);
    }
    if k :| 0 <= k < |parts| && IsKe(parts[k]) {
      assert k == 0 ==> IsKe(proposal);
    }
    if IsKe(proposal) {
      assert IsKe(parts[0]);
    }
  }

  lemma {:induction false} StartOf(s: string, t: string)
    ensures OccursAt(s, t, 0) <==> t <= s
  {
  }

  /** The library's search, which skips first components, says whether some component is a key exchange exactly when no
      proposal starts with one, or when it finds one elsewhere. */
  lemma {:induction false} LibrarySearchAgrees(proposals: seq<string>)
    ensures (SomeHasLaterKe(proposals) <==> SomeHasKe(proposals)) <==> !SomeStartsWithKe(proposals) || SomeHasLaterKe(proposals)
    ensures SomeHasLaterKe(proposals) ==> SomeHasKe(proposals)
  {
    hide HasKe, IsKe, HasLaterKe;
    forall i | 0 <= i < |proposals|
      ensures HasKe(proposals[i]) <==> IsKe(proposals[i]) || HasLaterKe(proposals[i])
    {
      KeStartsOrIsLater(proposals[i]);
    }
  }

  /** So a key exchange that another component follows is missed. */
  lemma {:induction false} PfsSearchMissesMiddle(before: string, ke: string, after: string)
    requires '-' !in before && '-' !in ke && '-' !in after
    requires IsKe(ke) && !IsKe(after) && after != []
    ensures var s := before + "-" + ke + "-" + after;
            HasKe(s) && !EndsInKe(s)
  {
    hide IsKe;
    var parts := [before, ke, after];
    PartsOfGlue(parts, '-');
    GlueThree(before, ke, after);
    assert IsKe(parts[1]) && LastOf(parts) == after;
  }

  lemma {:induction false} GlueThree(a: string, b: string, c: string)
    ensures Glue([a, b, c], '-') == a + "-" + b + "-" + c
  {
    assert [a, b, c][1..] == [b, c] && [b, c][1..] == [c];
    assert Glue([b, c], '-') == b + ['-'] + c;
  }

  // The proposal is one key exchange, with or without a hyphen behind it.
  predicate IsLoneKe(proposal: string) {
    var end := Next(proposal, 0, '-');
    IsKe(proposal[..end]) && end + 1 >= |proposal|
  }

  /** A proposal that ends in a key exchange has it behind a hyphen, unless it is a lone key exchange. */
  lemma {:induction false} EndsInKeCases(s: string)
    ensures EndsInKe(s) ==> HasLaterKe(s) || IsLoneKe(s)
    ensures IsLoneKe(s) ==> EndsInKe(s) && !HasLaterKe(s)
  {
    var parts, end := Parts(s, '-'), Next(s, 0, '-');
    assert s[0..end] == s[..end] == parts[0];
    if end == |s| {
      assert parts == [parts[0]];
    } else if end + 1 == |s| {
      assert s[|s|..|s|] == [] && PartsFrom(s, |s|, '-') == [s[|s|..|s|]];
      assert parts == [parts[0], []];
    } else if EndsInKe(s) {
      var rest := PartsFrom(s, end + 1, '-');
      assert parts == [parts[0]] + rest && (|rest| > 1 || rest[0] != []);
      var k := if parts[|parts| - 1] == [] then |parts| - 2 else |parts| - 1;
      assert LastOf(parts) == parts[k] && 1 <= k;
    }
  }

  /** The PFS setting derived from the proposals passes the library's check unless the only key
      exchanges at the end of a proposal are lone ones and no proposal has one behind a hyphen. */
  lemma {:induction false} DerivedPfsPasses(proposals: seq<string>)
    ensures ((exists i :: 0 <= i < |proposals| && EndsInKe(proposals[i])) ==>
               exists i :: 0 <= i < |proposals| && HasLaterKe(proposals[i]))
            <==>
            !((exists i :: 0 <= i < |proposals| && IsLoneKe(proposals[i]))
              && forall i :: 0 <= i < |proposals| ==> !HasLaterKe(proposals[i]))
  {
    forall i | 0 <= i < |proposals|
      ensures EndsInKe(proposals[i]) ==> HasLaterKe(proposals[i]) || IsLoneKe(proposals[i])
      ensures IsLoneKe(proposals[i]) ==> EndsInKe(proposals[i]) && !HasLaterKe(proposals[i])
    {
      EndsInKeCases(proposals[i]);
    }
  }

  // ---------- What an algorithm case expects to be negotiated

  datatype KeAlgorithm = KeAlgorithm(keyword: string, observedName: string)

  datatype Expected = Expected(childKe: string, separateExchange: bool, esn: bool, noEsn: bool)

  predicate FirstMatch(esp: string, table: seq<KeAlgorithm>, i: nat) {
    && i < |table| && HasComponent(esp, table[i].keyword)
    && forall j :: 0 <= j < i ==> !HasComponent(esp, table[j].keyword)
  }

  /** `SetNativeAppExpectedChildKe`: the first key exchange of the table that the ESP proposal names. */
  method ExpectedChild(esp: string, table: seq<KeAlgorithm>) returns (error: Error, expected: Expected)
    requires forall i :: 0 <= i < |table| ==> IsToken(table[i].keyword)
    ensures error == Ok ==>
              && (expected.separateExchange <==> exists i: nat :: FirstMatch(esp, table, i))
              && (expected.separateExchange ==> exists i: nat :: FirstMatch(esp, table, i) && expected.childKe == table[i].observedName)
              && (!expected.separateExchange ==>
                    expected.childKe == [] && forall j :: 0 <= j < |table| ==> !HasComponent(esp, table[j].keyword))
              && (expected.esn <==> HasComponent(esp, "esn"))
              && (expected.noEsn <==> HasComponent(esp, "noesn"))
    ensures error == BufferTooSmall <==> exists i: nat :: FirstMatch(esp, table, i) && |table[i].observedName| >= ALGORITHM_LENGTH
    ensures error in {Ok, BufferTooSmall}
  {
    error, expected := Ok, Expected([], false, false, false);
    var i := 0;
    while i < |table| && !expected.separateExchange
      invariant 0 <= i <= |table|
      invariant !expected.esn && !expected.noEsn
      invariant if expected.separateExchange then
                  0 < i && FirstMatch(esp, table, i - 1) && expected.childKe == table[i - 1].observedName
                  && |expected.childKe| < ALGORITHM_LENGTH
                else
                  expected.childKe == [] && forall j :: 0 <= j < i ==> !HasComponent(esp, table[j].keyword)
    {
      var found := HasToken(esp, table[i].keyword);
      if found {
        assert FirstMatch(esp, table, i);
        if |table[i].observedName| >= ALGORITHM_LENGTH {
          error := BufferTooSmall;
          return;
        }
        expected := expected.(separateExchange := true, childKe := table[i].observedName);
      }
      i := i + 1;
    }
    var esn := HasToken(esp, "esn");
    var noEsn := HasToken(esp, "noesn");
    expected := expected.(esn := esn, noEsn := noEsn);
  }

  // ---------- The comma splitter

  function TrimRight(s: string): (r: string)
    ensures r != [] ==> !IsSpace(r[|r| - 1])
  {
    if s != [] && IsSpace(s[|s| - 1]) then TrimRight(s[..|s| - 1]) else s
  }

  function TrimLeft(s: string): string {
    if s != [] && IsSpace(s[0]) then TrimLeft(s[1..]) else s
  }

  function Trim(s: string): string {
    TrimLeft(TrimRight(s))
  }

  predicate Trimmed(s: string) {
    s != [] && !IsSpace(s[0]) && !IsSpace(s[|s| - 1])
  }

  predicate GoodItem(item: string) {
    1 <= |item| < PROPOSAL_LENGTH
  }

  /** `xs` without a last element that is empty. */
  function DropEmptyLast(xs: seq<string>): seq<string> {
    if xs != [] && xs[|xs| - 1] == [] then xs[..|xs| - 1] else xs
  }

  function Mapped(f: string -> string, xs: seq<string>): seq<string> {
    if xs == [] then [] else [f(xs[0])] + Mapped(f, xs[1..])
  }

  /** The pieces between the commas, each changed by `f`; an empty piece at the very end does not count. */
  function Items(f: string -> string, s: string, from: nat): seq<string>
    requires from <= |s|
  {
    Mapped(f, DropEmptyLast(PartsFrom(s, from, ',')))
  }

  /** The items, if they can be a proposal list. */
  function Checked(items: seq<string>): Option<seq<string>> {
    if 1 <= |items| <= PROPOSAL_COUNT && (forall i :: 0 <= i < |items| ==> GoodItem(items[i])) then Some(items) else None
  }

  /** What a proposal list text denotes, if it is one. */
  function ProposalList(text: string): Option<seq<string>> {
    Checked(Items(Trim, text, 0))
  }

  lemma {:induction false} TrimRightStep(text: string, from: nat, end: nat)
    requires from <= end <= |text|
    ensures TrimRight(text[from..end]) ==
            if from < end && IsSpace(text[end - 1]) then TrimRight(text[from..end - 1]) else text[from..end]
  {
    if from < end {
      assert text[from..end][..end - from - 1] == text[from..end - 1];
    }
  }

  lemma {:induction false} TrimLeftStep(text: string, start: nat, end: nat)
    requires start <= end <= |text|
    ensures TrimLeft(text[start..end]) ==
            if start < end && IsSpace(text[start]) then TrimLeft(text[start + 1..end]) else text[start..end]
  {
    if start < end {
      assert text[start..end][1..] == text[start + 1..end];
    }
  }

  /** The loop that moves the end of a segment back over white space. */
  method TrimEnd(text: string, from: nat, to: nat) returns (end: nat)
    requires from <= to <= |text|
    ensures from <= end <= to && TrimRight(text[from..to]) == text[from..end]
    ensures from < end ==> !IsSpace(text[end - 1])
  {
    hide TrimRight;
    end := to;
    while from < end && IsSpace(text[end - 1])
      invariant from <= end <= to
      invariant TrimRight(text[from..end]) == TrimRight(text[from..to])
    {
      TrimRightStep(text, from, end);
      end := end - 1;
    }
    TrimRightStep(text, from, end);
  }

  /** The loop that moves the start of a segment forward; a blank one moves it past the end. */
  method TrimStart(text: string, from: nat, end: nat) returns (start: nat)
    requires from <= end <= |text| && (from < end ==> !IsSpace(text[end - 1]))
    ensures from <= start <= |text|
    ensures from < end ==> start < end && TrimLeft(text[from..end]) == text[start..end]
  {
    hide TrimLeft;
    start := from;
    while start < |text| && IsSpace(text[start])
      invariant from <= start <= |text|
      invariant from < end ==> start < end && TrimLeft(text[start..end]) == TrimLeft(text[from..end])
    {
      if from < end {
        TrimLeftStep(text, start, end);
      }
      start := start + 1;
    }
    if from < end {
      TrimLeftStep(text, start, end);
    }
  }

  method TrimCursors(text: string, from: nat, to: nat) returns (start: nat, end: nat)
    requires from <= to <= |text|
    ensures start <= |text| && end <= to
    ensures Trim(text[from..to]) == if start < end then text[start..end] else []
  {
    end := TrimEnd(text, from, to);
    start := TrimStart(text, from, end);
  }

  lemma {:induction false} DropBehind(x: string, rest: seq<string>)
    requires rest != []
    ensures DropEmptyLast([x] + rest) == [x] + DropEmptyLast(rest)
  {
  }

  lemma {:induction false} MappedNone(f: string -> string)
    ensures Mapped(f, []) == []
  {
  }

  lemma {:induction false} MappedBehind(f: string -> string, x: string, rest: seq<string>)
    ensures Mapped(f, [x] + rest) == [f(x)] + Mapped(f, rest)
  {
    assert ([x] + rest)[1..] == rest;
  }

  lemma {:induction false} MappedSame(f: string -> string, xs: seq<string>)
    requires forall i :: 0 <= i < |xs| ==> f(xs[i]) == xs[i]
    ensures Mapped(f, xs) == xs
  {
    if xs != [] {
      MappedSame(f, xs[1..]);
      assert xs == [xs[0]] + xs[1..];
    }
  }

  lemma {:induction false} ItemsStep(f: string -> string, s: string, from: nat)
    requires from <= |s|
    ensures var end := Next(s, from, ',');
            Items(f, s, from) ==
            if from == |s| then [] else [f(s[from..end])] + (if end == |s| then [] else Items(f, s, end + 1))
  {
    hide PartsFrom, Next, Mapped;
    var end := Next(s, from, ',');
    FirstPart(s, from, end, ',');
    if end < |s| {
      DropBehind(s[from..end], PartsFrom(s, end + 1, ','));
      MappedBehind(f, s[from..end], DropEmptyLast(PartsFrom(s, end + 1, ',')));
    } else if from == |s| {
      assert s[from..end] == [];
      MappedNone(f);
    } else {
      MappedBehind(f, s[from..end], []);
      MappedNone(f);
      assert [s[from..end]] + [] == [s[from..end]];
      assert [f(s[from..end])] + [] == [f(s[from..end])];
    }
  }

  lemma {:induction false} Moved(items: seq<string>, item: string, rest: seq<string>)
    ensures items + ([item] + rest) == items + [item] + rest
  {
  }

  function Left(text: string, cursor: nat, more: bool): seq<string>
    requires cursor <= |text|
  {
    if more then Items(Trim, text, cursor) else []
  }

  lemma {:induction false} LeftStep(text: string, cursor: nat, comma: nat, item: string)
    requires cursor < |text| && comma == Next(text, cursor, ',') && item == Trim(text[cursor..comma])
    ensures Left(text, cursor, true) ==
            [item] + (if comma < |text| then Left(text, comma + 1, true) else Left(text, comma, false))
  {
    ItemsStep(Trim, text, cursor);
  }

  lemma {:induction false} AllLeft(text: string)
    ensures ProposalList(text) == Checked(Left(text, 0, true))
  {
  }

  lemma {:induction false} NothingLeft(text: string, cursor: nat, more: bool)
    requires cursor <= |text| && (cursor == |text| || !more)
    ensures Left(text, cursor, more) == []
  {
    ItemsStep(Trim, text, cursor);
  }

  /** The items are made of characters of the text. */
  ghost predicate Drawn(items: seq<string>, text: string) {
    forall i :: 0 <= i < |items| ==> forall c :: c in items[i] ==> c in text
  }

  lemma {:induction false} DrawnNone(text: string)
    ensures Drawn([], text)
  {
  }

  lemma {:induction false} DrawnMore(items: seq<string>, item: string, text: string)
    requires Drawn(items, text) && Drawn([item], text)
    ensures Drawn(items + [item], text)
  {
    assert [item][0] == item;
  }

  /** One turn of the splitter's loop. */
  method TakeItem(text: string, cursor: nat) returns (item: Option<string>, next: nat, more: bool)
    requires cursor < |text|
    ensures cursor < next <= |text| || !more
    ensures next <= |text|
    ensures Left(text, cursor, true) != []
    ensures item.Some? <==> GoodItem(Left(text, cursor, true)[0])
    ensures item.Some? ==> Left(text, cursor, true) == [item.value] + Left(text, next, more)
    ensures item.Some? ==> Drawn([item.value], text)
  {
    var comma := Next(text, cursor, ',');
    var start, end := TrimCursors(text, cursor, comma);
    LeftStep(text, cursor, comma, Trim(text[cursor..comma]));
    item := if start < end && end - start < PROPOSAL_LENGTH then Some(text[start..end]) else None;
    more := comma < |text|;
    next := if more then comma + 1 else comma;
  }

  lemma {:induction false} CheckedFails(items: seq<string>, item: string, rest: seq<string>)
    requires !GoodItem(item) || |items| >= PROPOSAL_COUNT
    ensures Checked(items + ([item] + rest)).None?
  {
    assert (items + ([item] + rest))[|items|] == item;
  }

  /** `SplitNativeAppProposals`. */
  method SplitProposals(text: string) returns (error: Error, items: seq<string>)
    ensures error == (if ProposalList(text).Some? then Ok else InvalidArgument)
    ensures error == Ok ==> items == ProposalList(text).value
    ensures Drawn(items, text)
  {
    hide Drawn, Left, GoodItem;
    items := [];
    var cursor := 0;
    var more := true;
    DrawnNone(text);
    AllLeft(text);
    ghost var all := Left(text, cursor, more);
    while cursor < |text| && more
      invariant 0 <= cursor <= |text| && |items| <= PROPOSAL_COUNT
      invariant forall i :: 0 <= i < |items| ==> GoodItem(items[i])
      invariant all == items + Left(text, cursor, more)
      invariant Drawn(items, text)
      decreases more, |text| - cursor
    {
      ghost var rest := Left(text, cursor, true);
      var item, next, another := TakeItem(text, cursor);
      assert rest == [rest[0]] + rest[1..];
      if item.None? || |items| >= PROPOSAL_COUNT {
        CheckedFails(items, rest[0], rest[1..]);
        error := InvalidArgument;
        return;
      }
      Moved(items, item.value, Left(text, next, another));
      DrawnMore(items, item.value, text);
      items := items + [item.value];
      cursor, more := next, another;
    }
    NothingLeft(text, cursor, more);
    assert items + [] == items;
    error := if 0 < |items| then Ok else InvalidArgument;
  }

  lemma {:induction false} TrimTrimmed(s: string)
    requires Trimmed(s)
    ensures Trim(s) == s
  {
  }

  /** Splitting inverts joining with commas. */
  lemma {:induction false} SplitInvertsJoin(items: seq<string>)
    requires 1 <= |items| <= PROPOSAL_COUNT
    requires forall i :: 0 <= i < |items| ==> Trimmed(items[i]) && ',' !in items[i] && |items[i]| < PROPOSAL_LENGTH
    ensures ProposalList(Glue(items, ',')) == Some(items)
  {
    var text := Glue(items, ',');
    PartsOfGlue(items, ',');
    forall i | 0 <= i < |items|
      ensures Trim(items[i]) == items[i]
    {
      TrimTrimmed(items[i]);
    }
    assert DropEmptyLast(items) == items;
    MappedSame(Trim, items);
  }
}
