/** Splitting text at a separator, and searching it, the way `strchr` and `strstr` do with a cursor. */
module Text {
  import opened Core

  /** `strchr(s + from, c) - s`, or the end of the text. */
  function Next(s: string, from: nat, c: char): (k: nat)
    requires from <= |s|
    ensures from <= k <= |s|
    ensures forall i :: from <= i < k ==> s[i] != c
    ensures k < |s| ==> s[k] == c
    decreases |s| - from
  {
    if from == |s| || s[from] == c then from else Next(s, from + 1, c)
  }

  /** The pieces between the separators from here on; one more than there are separators. */
  function PartsFrom(s: string, from: nat, c: char): (r: seq<string>)
    requires from <= |s|
    ensures r != []
    decreases |s| - from
  {
    var k := Next(s, from, c);
    if k == |s| then [s[from..k]] else [s[from..k]] + PartsFrom(s, k + 1, c)
  }

  function Parts(s: string, c: char): (r: seq<string>)
    ensures r != []
  {
    PartsFrom(s, 0, c)
  }

  function Glue(parts: seq<string>, c: char): string {
    if parts == [] then []
    else if |parts| == 1 then parts[0]
    else parts[0] + [c] + Glue(parts[1..], c)
  }

  lemma {:induction false} NextBehind(s: string, from: nat, k: nat, c: char)
    requires from <= k <= |s| && (forall i :: from <= i < k ==> s[i] != c) && (k < |s| ==> s[k] == c)
    ensures Next(s, from, c) == k
  {
  }

  lemma {:induction false} FirstPart(s: string, from: nat, k: nat, c: char)
    requires from <= k <= |s| && (forall i :: from <= i < k ==> s[i] != c) && (k < |s| ==> s[k] == c)
    ensures PartsFrom(s, from, c) == if k == |s| then [s[from..k]] else [s[from..k]] + PartsFrom(s, k + 1, c)
  {
    NextBehind(s, from, k, c);
  }

  lemma {:induction false} GlueStep(before: string, parts: seq<string>, c: char)
    requires |parts| > 1
    ensures before + Glue(parts, c) == before + parts[0] + [c] + Glue(parts[1..], c)
  {
  }

  lemma {:induction false} FirstPiece(before: string, parts: seq<string>, c: char)
    requires parts != []
    ensures var s := before + Glue(parts, c);
            var k := |before| + |parts[0]|;
            && k <= |s| && s[|before|..k] == parts[0]
            && (forall i :: |before| <= i < k ==> s[i] == parts[0][i - |before|])
            && (if |parts| == 1 then k == |s| else k < |s| && s[k] == c)
  {
  }

  lemma {:induction false} PartsOfGlueFrom(before: string, parts: seq<string>, c: char)
    requires parts != [] && forall i :: 0 <= i < |parts| ==> c !in parts[i]
    ensures PartsFrom(before + Glue(parts, c), |before|, c) == parts
    decreases |parts|
  {
    var s := before + Glue(parts, c);
    FirstPiece(before, parts, c);
    FirstPart(s, |before|, |before| + |parts[0]|, c);
    if |parts| > 1 {
      var behind := before + parts[0] + [c];
      GlueStep(before, parts, c);
      PartsOfGlueFrom(behind, parts[1..], c);
      assert PartsFrom(s, |behind|, c) == parts[1..];
    }
    FirstAndRest(parts);
  }

  lemma {:induction false} FirstAndRest(parts: seq<string>)
    requires parts != []
    ensures parts == [parts[0]] + parts[1..]
    ensures |parts| == 1 ==> parts == [parts[0]]
  {
  }

  /** Splitting what was joined gives the pieces back. */
  lemma {:induction false} PartsOfGlue(parts: seq<string>, c: char)
    requires parts != [] && forall i :: 0 <= i < |parts| ==> c !in parts[i]
    ensures Parts(Glue(parts, c), c) == parts
  {
    PartsOfGlueFrom([], parts, c);
    assert [] + Glue(parts, c) == Glue(parts, c);
  }

  predicate OccursAt(s: string, t: string, i: nat) {
    i + |t| <= |s| && s[i..i + |t|] == t
  }

  /** `strstr(s + from, t) - s`. */
  function Strstr(s: string, t: string, from: nat): (r: Option<nat>)
    requires from <= |s|
    ensures r.Some? ==> from <= r.value && OccursAt(s, t, r.value)
    ensures forall i :: from <= i < (if r.Some? then r.value else |s| + 1) ==> !OccursAt(s, t, i)
    decreases |s| - from
  {
    if OccursAt(s, t, from) then Some(from)
    else if from == |s| then None
    else Strstr(s, t, from + 1)
  }

  /** An occurrence that starts and ends at a separator or at the ends of the text. */
  predicate StandsAt(s: string, t: string, c: char, i: nat) {
    && OccursAt(s, t, i)
    && (i == 0 || s[i - 1] == c)
    && (i + |t| == |s| || s[i + |t|] == c)
  }

  lemma {:induction false} Letters(s: string, t: string, i: nat)
    requires OccursAt(s, t, i)
    ensures forall j :: i <= j < i + |t| ==> s[j] == t[j - i]
  {
    assert forall j :: i <= j < i + |t| ==> s[j] == s[i..i + |t|][j - i];
  }

  /** What stands somewhere behind a separator starts a part, or stands behind that part's separator. */
  lemma {:induction false} StandsLater(s: string, from: nat, t: string, c: char, i: nat)
    requires from <= i && StandsAt(s, t, c, i) && c !in t
    ensures if i == from then t == s[from..Next(s, from, c)] else Next(s, from, c) < i
  {
    Letters(s, t, i);
    if i == from {
      NextBehind(s, from, i + |t|, c);
    }
  }

  lemma {:induction false} StandsIsPart(s: string, from: nat, t: string, c: char, i: nat)
    requires from <= i && c !in t && StandsAt(s, t, c, i)
    ensures t in PartsFrom(s, from, c)
    decreases |s| - from
  {
    StandsLater(s, from, t, c, i);
    if i != from {
      StandsIsPart(s, Next(s, from, c) + 1, t, c, i);
    }
  }

  lemma {:induction false} PartStands(s: string, from: nat, t: string, c: char) returns (i: nat)
    requires from <= |s| && (from == 0 || s[from - 1] == c) && t in PartsFrom(s, from, c)
    ensures StandsAt(s, t, c, i)
    decreases |s| - from
  {
    var k := Next(s, from, c);
    if t == s[from..k] {
      i := from;
    } else {
      i := PartStands(s, k + 1, t, c);
    }
  }

  /** A separator-free text stands somewhere exactly if it is one of the parts. */
  lemma {:induction false} StandsIffPart(s: string, t: string, c: char)
    requires c !in t
    ensures t in Parts(s, c) <==> exists i: nat :: StandsAt(s, t, c, i)
  {
    if t in Parts(s, c) {
      var i := PartStands(s, 0, t, c);
    }
    if i: nat :| StandsAt(s, t, c, i) {
      StandsIsPart(s, 0, t, c, i);
    }
  }

  /** Some part, but not the first one, starts with `t`. */
  predicate LaterStarts(s: string, from: nat, t: string, c: char)
    requires from <= |s|
  {
    exists k :: 1 <= k < |PartsFrom(s, from, c)| && t <= PartsFrom(s, from, c)[k]
  }

  lemma {:induction false} LaterStep(s: string, from: nat, t: string, c: char)
    requires from <= |s| && Next(s, from, c) < |s|
    ensures var behind := Next(s, from, c) + 1;
            LaterStarts(s, from, t, c) <==> t <= PartsFrom(s, behind, c)[0] || LaterStarts(s, behind, t, c)
  {
    var behind := PartsFrom(s, Next(s, from, c) + 1, c);
    var all := PartsFrom(s, from, c);
    assert all[1..] == behind;
    if j :| 1 <= j < |all| && t <= all[j] {
      assert all[j] == behind[j - 1];
    }
    if t <= behind[0] {
      assert all[1] == behind[0];
    }
    if j :| 1 <= j < |behind| && t <= behind[j] {
      assert all[j + 1] == behind[j];
    }
  }

  lemma {:induction false} StartsPart(s: string, from: nat, t: string, c: char)
    requires from <= |s| && c !in t
    ensures OccursAt(s, t, from) <==> t <= PartsFrom(s, from, c)[0]
  {
    var k := Next(s, from, c);
    assert PartsFrom(s, from, c)[0] == s[from..k];
    if OccursAt(s, t, from) {
      Letters(s, t, from);
      PrefixOfSlice(s, from, k, |t|);
    }
    if t <= s[from..k] {
      PrefixOfSlice(s, from, k, |t|);
    }
  }

  lemma {:induction false} PrefixOfSlice(s: string, from: nat, to: nat, n: nat)
    requires from + n <= to <= |s|
    ensures s[from..to][..n] == s[from..from + n]
  {
  }

  lemma {:induction false} BehindSeparator(s: string, t: string, c: char, i: nat)
    ensures OccursAt(s, [c] + t, i) <==> i < |s| && s[i] == c && OccursAt(s, t, i + 1)
  {
    if i + 1 + |t| <= |s| {
      assert s[i..i + 1 + |t|] == [s[i]] + s[i + 1..i + 1 + |t|];
      assert ([c] + t)[0] == c && ([c] + t)[1..] == t;
      assert s[i..i + 1 + |t|][1..] == s[i + 1..i + 1 + |t|];
    }
  }

  lemma {:induction false} FoundStarts(s: string, from: nat, t: string, c: char, i: nat)
    requires from <= i && c !in t && OccursAt(s, [c] + t, i)
    ensures LaterStarts(s, from, t, c)
    decreases |s| - from
  {
    BehindSeparator(s, t, c, i);
    var k := Next(s, from, c);
    LaterStep(s, from, t, c);
    if i == k {
      StartsPart(s, k + 1, t, c);
    } else {
      FoundStarts(s, k + 1, t, c, i);
    }
  }

  lemma {:induction false} StartsFound(s: string, from: nat, t: string, c: char) returns (i: nat)
    requires from <= |s| && c !in t && LaterStarts(s, from, t, c)
    ensures OccursAt(s, [c] + t, i)
    decreases |s| - from
  {
    var k := Next(s, from, c);
    LaterStep(s, from, t, c);
    StartsPart(s, k + 1, t, c);
    if t <= PartsFrom(s, k + 1, c)[0] {
      i := k;
      BehindSeparator(s, t, c, i);
    } else {
      i := StartsFound(s, k + 1, t, c);
    }
  }

  /** A search for the separator followed by `t` finds exactly the later parts that start with `t`. */
  lemma {:induction false} LaterPartStarts(s: string, t: string, c: char)
    requires c !in t
    ensures Strstr(s, [c] + t, 0).Some? <==> LaterStarts(s, 0, t, c)
  {
    if Strstr(s, [c] + t, 0).Some? {
      FoundStarts(s, 0, t, c, Strstr(s, [c] + t, 0).value);
    }
    if LaterStarts(s, 0, t, c) {
      var i := StartsFound(s, 0, t, c);
    }
  }

  // ---------- Fields, as `strtok_r` with one separator yields them

  function NonEmpty(xs: seq<string>): seq<string> {
    if xs == [] then [] else (if xs[0] == [] then [] else [xs[0]]) + NonEmpty(xs[1..])
  }

  /** What `strtok_r` yields from here on: the pieces between the separators, without the empty ones. */
  function TokensFrom(text: string, from: nat, sep: char): seq<string>
    requires from <= |text|
  {
    NonEmpty(PartsFrom(text, from, sep))
  }

  /** What the string functions see of a buffer. */
  function UpToNul(text: string): (r: string)
    ensures r <= text && '\0' !in r && ('\0' !in text ==> r == text)
  {
    text[..Next(text, 0, '\0')]
  }

  /** What `strtok_r` yields for a buffer. */
  function Tokens(text: string, sep: char): seq<string> {
    TokensFrom(UpToNul(text), 0, sep)
  }

  predicate Clean(field: string, sep: char) {
    field != [] && sep !in field && '\0' !in field
  }

  predicate AllClean(fields: seq<string>, sep: char) {
    forall i :: 0 <= i < |fields| ==> Clean(fields[i], sep)
  }

  lemma {:induction false} NonEmptyOfFull(xs: seq<string>)
    requires forall i :: 0 <= i < |xs| ==> xs[i] != []
    ensures NonEmpty(xs) == xs
  {
    if xs != [] {
      NonEmptyOfFull(xs[1..]);
      assert xs == [xs[0]] + xs[1..];
    }
  }

  lemma {:induction false} PiecesClean(text: string, from: nat, sep: char)
    requires from <= |text| && '\0' !in text
    ensures forall i :: 0 <= i < |PartsFrom(text, from, sep)| ==>
                          sep !in PartsFrom(text, from, sep)[i] && '\0' !in PartsFrom(text, from, sep)[i]
    decreases |text| - from
  {
    var k := Next(text, from, sep);
    if k < |text| {
      PiecesClean(text, k + 1, sep);
    }
  }

  lemma {:induction false} NonEmptyClean(xs: seq<string>, sep: char)
    requires forall i :: 0 <= i < |xs| ==> sep !in xs[i] && '\0' !in xs[i]
    ensures AllClean(NonEmpty(xs), sep)
  {
    if xs != [] {
      NonEmptyClean(xs[1..], sep);
    }
  }

  lemma {:induction false} TokensClean(text: string, sep: char)
    ensures AllClean(Tokens(text, sep), sep)
  {
    PiecesClean(UpToNul(text), 0, sep);
    NonEmptyClean(Parts(UpToNul(text), sep), sep);
  }

  lemma {:induction false} GlueHasNo(fields: seq<string>, sep: char, c: char)
    requires c != sep && forall i :: 0 <= i < |fields| ==> c !in fields[i]
    ensures c !in Glue(fields, sep)
  {
    if |fields| > 1 {
      GlueHasNo(fields[1..], sep, c);
    }
  }

  /** Joined fields are read back exactly when none is empty and none holds a separator or a NUL. */
  lemma {:induction false} ReadBackIffClean(fields: seq<string>, sep: char)
    requires fields != [] && sep != '\0'
    ensures Tokens(Glue(fields, sep), sep) == fields <==> AllClean(fields, sep)
  {
    if AllClean(fields, sep) {
      GlueHasNo(fields, sep, '\0');
      PartsOfGlue(fields, sep);
      NonEmptyOfFull(fields);
    }
    if Tokens(Glue(fields, sep), sep) == fields {
      TokensClean(Glue(fields, sep), sep);
    }
  }

  // ---------- The tokens of a joined text, whatever its fields hold

  lemma {:induction false} PartsBehind(before: string, text: string, from: nat, c: char)
    requires from <= |text|
    ensures PartsFrom(before + text, |before| + from, c) == PartsFrom(text, from, c)
    decreases |text| - from
  {
    hide PartsFrom, Next;
    var s, k := before + text, Next(text, from, c);
    assert s[|before| + from..|before| + k] == text[from..k];
    assert forall i :: 0 <= i < |text| ==> s[|before| + i] == text[i];
    FirstPart(s, |before| + from, |before| + k, c);
    FirstPart(text, from, k, c);
    if k < |text| {
      PartsBehind(before, text, k + 1, c);
    }
  }

  lemma {:induction false} PartsCut(s: string, n: nat, from: nat, c: char)
    requires from <= n < |s| && s[n] == c
    ensures PartsFrom(s, from, c) == PartsFrom(s[..n], from, c) + PartsFrom(s, n + 1, c)
    decreases n - from
  {
    hide PartsFrom, Next;
    var a := s[..n];
    var k := Next(a, from, c);
    assert a[from..k] == s[from..k];
    assert forall i :: from <= i < n ==> a[i] == s[i];
    FirstPart(s, from, k, c);
    FirstPart(a, from, k, c);
    if k < n {
      PartsCut(s, n, k + 1, c);
      PutFirst(s[from..k], PartsFrom(a, k + 1, c), PartsFrom(s, n + 1, c));
    }
  }

  lemma {:induction false} PutFirst(x: string, xs: seq<string>, ys: seq<string>)
    ensures [x] + (xs + ys) == [x] + xs + ys
  {
  }

  lemma {:induction false} PartsJoined(a: string, b: string, c: char)
    ensures Parts(a + [c] + b, c) == Parts(a, c) + Parts(b, c)
  {
    hide PartsFrom;
    var s := a + [c] + b;
    PartsCut(s, |a|, 0, c);
    PartsBehind(a + [c], b, 0, c);
    assert s[..|a|] == a;
  }

  lemma {:induction false} NonEmptyConcat(xs: seq<string>, ys: seq<string>)
    ensures NonEmpty(xs + ys) == NonEmpty(xs) + NonEmpty(ys)
    decreases |xs|
  {
    hide NonEmpty;
    if xs == [] {
      assert xs + ys == ys;
      NonEmptyOfFull(xs);
      assert [] + NonEmpty(ys) == NonEmpty(ys);
    } else {
      NonEmptyConcat(xs[1..], ys);
      assert (xs + ys)[1..] == xs[1..] + ys;
      NonEmptyStep(xs);
      NonEmptyStep(xs + ys);
      Regroup(if xs[0] == [] then [] else [xs[0]], NonEmpty(xs[1..]), NonEmpty(ys));
    }
  }

  lemma {:induction false} NonEmptyStep(xs: seq<string>)
    requires xs != []
    ensures NonEmpty(xs) == (if xs[0] == [] then [] else [xs[0]]) + NonEmpty(xs[1..])
  {
  }

  lemma {:induction false} Regroup(a: seq<string>, b: seq<string>, c: seq<string>)
    ensures a + (b + c) == a + b + c
  {
  }

  function AllTokens(fields: seq<string>, sep: char): seq<string> {
    if fields == [] then [] else Tokens(fields[0], sep) + AllTokens(fields[1..], sep)
  }

  /** Joined fields are read as the tokens of each. */
  lemma {:induction false} TokensOfGlue(fields: seq<string>, sep: char)
    requires fields != [] && sep != '\0' && forall i :: 0 <= i < |fields| ==> '\0' !in fields[i]
    ensures Tokens(Glue(fields, sep), sep) == AllTokens(fields, sep)
    decreases |fields|
  {
    hide PartsFrom, NonEmpty;
    GlueHasNo(fields, sep, '\0');
    if |fields| == 1 {
      assert fields[1..] == [];
    } else {
      var rest := Glue(fields[1..], sep);
      GlueHasNo(fields[1..], sep, '\0');
      TokensOfGlue(fields[1..], sep);
      PartsJoined(fields[0], rest, sep);
      NonEmptyConcat(Parts(fields[0], sep), Parts(rest, sep));
    }
  }

  lemma {:induction false} TokenOfClean(field: string, sep: char)
    requires sep != '\0'
    ensures Tokens(field, sep) == [field] <==> Clean(field, sep)
  {
    ReadBackIffClean([field], sep);
    assert AllClean([field], sep) <==> Clean([field][0], sep);
  }

  /** A separator before a text is not seen. */
  lemma {:induction false} LeadingDropped(text: string, sep: char)
    requires sep != '\0' && '\0' !in text
    ensures Tokens([sep] + text, sep) == Tokens(text, sep)
  {
    hide NonEmpty;
    EmptyPiece([sep] + text, 0, sep);
    PartsBehind([sep], text, 0, sep);
  }

  /** One `strtok_r` call: skip separators, then take everything up to the next one. */
  method NextToken(text: string, from: nat, sep: char) returns (token: Option<string>, next: nat)
    requires from <= |text|
    ensures from <= next <= |text| && (token.Some? ==> from < next)
    ensures TokensFrom(text, from, sep) == if token.None? then [] else [token.value] + TokensFrom(text, next, sep)
  {
    next := from;
    while next < |text| && text[next] == sep
      invariant from <= next <= |text|
      invariant TokensFrom(text, next, sep) == TokensFrom(text, from, sep)
    {
      EmptyPiece(text, next, sep);
      next := next + 1;
    }
    if next == |text| {
      token := None;
      NoTokens(text, sep);
    } else {
      var end := Next(text, next, sep);
      token := Some(text[next..end]);
      FullPiece(text, next, sep);
      next := if end < |text| then end + 1 else end;
    }
  }

  lemma {:induction false} NoTokens(text: string, sep: char)
    ensures TokensFrom(text, |text|, sep) == []
  {
    var last := text[|text|..|text|];
    assert last == [];
    FirstPart(text, |text|, |text|, sep);
    OnlyEmpty(last);
  }

  lemma {:induction false} OnlyEmpty(x: string)
    requires x == []
    ensures NonEmpty([x]) == []
  {
    assert [x][1..] == [];
    assert NonEmpty([x][1..]) == [];
  }

  lemma {:induction false} EmptyPiece(text: string, at: nat, sep: char)
    requires at < |text| && text[at] == sep
    ensures TokensFrom(text, at, sep) == TokensFrom(text, at + 1, sep)
  {
    FirstPart(text, at, at, sep);
    assert ([text[at..at]] + PartsFrom(text, at + 1, sep))[1..] == PartsFrom(text, at + 1, sep);
  }

  lemma {:induction false} FullPiece(text: string, at: nat, sep: char)
    requires at < |text| && text[at] != sep
    ensures var end := Next(text, at, sep);
            TokensFrom(text, at, sep) == [text[at..end]] + TokensFrom(text, if end < |text| then end + 1 else end, sep)
  {
    var end := Next(text, at, sep);
    if end < |text| {
      assert PartsFrom(text, at, sep)[1..] == PartsFrom(text, end + 1, sep);
    } else {
      assert PartsFrom(text, at, sep)[1..] == [];
      assert Next(text, end, sep) == end;
      assert [text[end..end]][1..] == [];
    }
  }
}
