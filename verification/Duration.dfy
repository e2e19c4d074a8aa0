/** Durations such as "2 hours, 5 minutes": a cursor over number and unit pairs with exact 64 bit checks. */
module Duration {
  import opened Core

  const DURATION_TEXT_LENGTH: nat := 128

  predicate IsAlpha(c: char) {
    'a' <= c <= 'z' || 'A' <= c <= 'Z'
  }

  /** Where a run of characters of this kind, from here on, ends. */
  function SkipSpaces(s: string, from: nat): (k: nat)
    requires from <= |s|
    ensures from <= k <= |s| && (k < |s| ==> s[k] != ' ')
    ensures forall i :: from <= i < k ==> s[i] == ' '
    decreases |s| - from
  {
    if from < |s| && s[from] == ' ' then SkipSpaces(s, from + 1) else from
  }

  function SkipSeparators(s: string, from: nat): (k: nat)
    requires from <= |s|
    ensures from <= k <= |s| && (k < |s| ==> s[k] != ' ' && s[k] != ',')
    decreases |s| - from
  {
    if from < |s| && (s[from] == ' ' || s[from] == ',') then SkipSeparators(s, from + 1) else from
  }

  function SkipLetters(s: string, from: nat): (k: nat)
    requires from <= |s|
    ensures from <= k <= |s| && (k < |s| ==> !IsAlpha(s[k]))
    ensures forall i :: from <= i < k ==> IsAlpha(s[i])
    decreases |s| - from
  {
    if from < |s| && IsAlpha(s[from]) then SkipLetters(s, from + 1) else from
  }

  /** `GetIpsecDurationMultiplier`. */
  function Multiplier(unit: string): Option<nat> {
    var singular := if 1 < |unit| && unit[|unit| - 1] == 's' then unit[..|unit| - 1] else unit;
    if singular == "second" then Some(1)
    else if singular == "minute" then Some(60)
    else if singular == "hour" then Some(3600)
    else if singular == "day" then Some(86400)
    else if singular == "week" then Some(604800)
    else None
  }

  // A unit's seconds, and the cursor behind it and its spaces.
  datatype UnitRead = UnitRead(multiplier: nat, next: nat)

  /** The unit behind a number.  A comma or the end must follow it. */
  function UnitAt(s: string, from: nat): (r: Option<UnitRead>)
    requires from <= |s|
    ensures r.Some? ==> from <= r.value.next <= |s|
  {
    var unit := SkipSpaces(s, from);
    var end := SkipLetters(s, unit);
    var multiplier := Multiplier(s[unit..end]);
    var next := SkipSpaces(s, end);
    if multiplier.None? || (next < |s| && s[next] != ',') then None else Some(UnitRead(multiplier.value, next))
  }

  // One number and its unit, in seconds, and the cursor behind it.
  datatype Pair = Pair(seconds: nat, next: nat)

  /** A number of units in seconds, if it fits 64 bits. */
  function Scaled(value: nat, multiplier: nat): (seconds: Option<nat>)
    ensures seconds.Some? ==> seconds.value <= U64_MAX
  {
    if value * multiplier > U64_MAX then None else Some(value * multiplier)
  }

  /** The pair at the cursor. */
  function PairAt(s: string, from: nat): (r: Option<Pair>)
    requires from <= |s|
    ensures r.Some? ==> from < r.value.next <= |s| && r.value.seconds <= U64_MAX
  {
    hide ParseUnsigned, UnitAt, Scaled;
    var n := ParseUnsigned(s[from..]);
    if n.outOfRange || n.taken == 0 then None
    else
      var unit := UnitAt(s, from + n.taken);
      if unit.None? then None
      else
        var seconds := Scaled(n.value, unit.value.multiplier);
        if seconds.None? then None else Some(Pair(seconds.value, unit.value.next))
  }

  /** The sum of the pairs from here on and what came before, as long as it fits 64 bits. */
  function SumFrom(s: string, from: nat, total: nat): Option<nat>
    requires from <= |s|
    decreases |s| - from
  {
    var at := SkipSeparators(s, from);
    if at == |s| then Some(total)
    else
      var pair := PairAt(s, at);
      if pair.None? || total + pair.value.seconds > U64_MAX then None
      else SumFrom(s, pair.value.next, total + pair.value.seconds)
  }

  function DurationOf(s: string): Option<nat> {
    if s == "less than a second" then Some(0) else SumFrom(s, 0, 0)
  }

  lemma {:induction false} DivisionCheck(value: nat, multiplier: nat)
    requires 0 < value
    ensures U64_MAX / value < multiplier <==> value * multiplier > U64_MAX
  {
    var q := U64_MAX / value;
    assert q * value <= U64_MAX < (q + 1) * value;
    if q < multiplier {
      Monotone(q + 1, multiplier, value);
    } else {
      Monotone(multiplier, q, value);
    }
  }

  lemma {:induction false} Monotone(a: nat, b: nat, c: nat)
    requires a <= b
    ensures a * c <= b * c
  {
  }

  lemma {:induction false} NoUnit(text: string, at: nat)
    requires at <= |text|
    ensures Multiplier(text[at..at]).None?
  {
    assert text[at..at] == [];
  }

  /** One turn of the parser's loop behind the separators. */
  method ReadPair(text: string, from: nat, total: nat) returns (error: Error, sum: nat, next: nat)
    requires from < |text| && total <= U64_MAX
    ensures error == if PairAt(text, from).Some? && total + PairAt(text, from).value.seconds <= U64_MAX then Ok else ViciProtocol
    ensures error == Ok ==> sum == total + PairAt(text, from).value.seconds && next == PairAt(text, from).value.next
  {
    hide ParseUnsigned, Multiplier, SkipSpaces, SkipLetters;
    error, sum, next := Ok, total, from;
    var n := ParseUnsigned(text[from..]);
    if n.outOfRange || n.taken == 0 {
      return ViciProtocol, total, from;
    }
    var unit := SkipSpaces(text, from + n.taken);
    var end := SkipLetters(text, unit);
    var multiplier := Multiplier(text[unit..end]);
    NoUnit(text, unit);
    if n.value != 0 && multiplier.Some? {
      DivisionCheck(n.value, multiplier.value);
    }
    if unit == end || multiplier.None? || (n.value != 0 && U64_MAX / n.value < multiplier.value) {
      error := ViciProtocol;
    } else if U64_MAX - total < n.value * multiplier.value {
      error := ViciProtocol;
    } else {
      sum := total + n.value * multiplier.value;
    }
    next := SkipSpaces(text, end);
    if next < |text| && text[next] != ',' {
      error := ViciProtocol;
    }
  }

  /** `ParseIpsecDurationSeconds`.  The output keeps its value unless the whole text is a duration that fits. */
  method ParseDuration(value: Bytes, output: nat) returns (error: Error, seconds: nat)
    ensures error == InvalidArgument <==> |value| == 0 || |value| >= DURATION_TEXT_LENGTH
    ensures 0 < |value| < DURATION_TEXT_LENGTH ==> error == if DurationOf(CText(value)).Some? then Ok else ViciProtocol
    ensures seconds == if error == Ok then DurationOf(CText(value)).value else output
  {
    seconds := output;
    if |value| == 0 || |value| >= DURATION_TEXT_LENGTH {
      return InvalidArgument, output;
    }
    var text: string := CText(value);
    if text == "less than a second" {
      return Ok, 0;
    }
    hide SumFrom;
    var total: nat;
    error, total := SumPairs(text);
    if error == Ok {
      seconds := total;
    }
  }

  /** The loop over the pairs. */
  method SumPairs(text: string) returns (error: Error, total: nat)
    ensures error == if SumFrom(text, 0, 0).Some? then Ok else ViciProtocol
    ensures error == Ok ==> SumFrom(text, 0, 0) == Some(total)
  {
    hide PairAt;
    error, total := Ok, 0;
    var cursor := 0;
    while cursor < |text| && error == Ok
      invariant 0 <= cursor <= |text| && total <= U64_MAX
      invariant error == Ok ==> SumFrom(text, 0, 0) == SumFrom(text, cursor, total)
      invariant error != Ok ==> error == ViciProtocol && SumFrom(text, 0, 0).None?
      decreases |text| - cursor, error == Ok
    {
      var at := SkipSeparators(text, cursor);
      if at == |text| {
        return;
      }
      var sum: nat, next: nat;
      error, sum, next := ReadPair(text, at, total);
      if error == Ok {
        total, cursor := sum, next;
      }
    }
  }

  // ---------- Rendered durations

  datatype Unit = Second | Minute | Hour | Day | Week {
    function Seconds(): (n: nat)
      ensures 1 <= n
    {
      match this
      case Second => 1
      case Minute => 60
      case Hour => 3600
      case Day => 86400
      case Week => 604800
    }

    function Name(): string {
      match this
      case Second => "second"
      case Minute => "minute"
      case Hour => "hour"
      case Day => "day"
      case Week => "week"
    }
  }

  // What `strtoull` takes for a number behind separators: white space of the other kinds first, a sign, and digits.
  datatype Numeral = Numeral(blank: string, sign: Sign, digits: string) {
    predicate Valid() {
      AllSpace(blank) && (blank != [] ==> blank[0] != ' ') && digits != [] && AllDigits(digits)
    }

    function Text(): string {
      blank + (SignText(sign) + digits)
    }

    function Value(): nat
      requires AllDigits(digits)
    {
      Signed(sign, DigitValue(digits))
    }

    /** The digits themselves fit 64 bits, whatever the sign makes of them. */
    predicate InRange()
      requires AllDigits(digits)
    {
      DigitValue(digits) <= U64_MAX
    }
  }

  // Separators, a number, spaces, a unit in the singular or the plural, and spaces again, as in ", 05  minutes ".
  datatype Item = Item(before: string, number: Numeral, gap: nat, unit: Unit, plural: bool, trail: nat)

  function Spaces(n: nat): (s: string)
    ensures |s| == n && forall i :: 0 <= i < n ==> s[i] == ' '
  {
    if n == 0 then "" else " " + Spaces(n - 1)
  }

  function UnitText(unit: Unit, plural: bool): string {
    unit.Name() + (if plural then "s" else "")
  }

  function RenderItem(i: Item): string {
    i.before + (i.number.Text() + (Spaces(i.gap) + (UnitText(i.unit, i.plural) + Spaces(i.trail))))
  }

  /** The items one behind the other, and separators behind the last one. */
  function Render(items: seq<Item>, tail: string): string {
    if items == [] then tail else RenderItem(items[0]) + Render(items[1..], tail)
  }

  predicate IsSeparator(c: char) {
    c == ' ' || c == ','
  }

  predicate Separators(text: string) {
    forall i :: 0 <= i < |text| ==> IsSeparator(text[i])
  }

  predicate GoodItem(i: Item) {
    Separators(i.before) && i.number.Valid()
  }

  /** What stands behind an item starts with a comma, if anything does. */
  predicate StartsWithComma(text: string) {
    text == [] || text[0] == ','
  }

  predicate Behind(items: seq<Item>, tail: string) {
    && Separators(tail) && (forall k :: 0 <= k < |items| ==> GoodItem(items[k]))
    && (forall k :: 1 <= k < |items| ==> items[k].before != [] && items[k].before[0] == ',')
    && (items != [] ==> StartsWithComma(tail))
  }

  function Seconds(i: Item): nat
    requires AllDigits(i.number.digits)
  {
    i.number.Value() * i.unit.Seconds()
  }

  predicate AllNumbers(items: seq<Item>) {
    forall k :: 0 <= k < |items| ==> AllDigits(items[k].number.digits)
  }

  /** The mathematical sum. */
  function Total(items: seq<Item>): nat
    requires AllNumbers(items)
  {
    if items == [] then 0 else Seconds(items[0]) + Total(items[1..])
  }

  /** Every number fits 64 bits. */
  predicate InRange(items: seq<Item>)
    requires AllNumbers(items)
  {
    forall k :: 0 <= k < |items| ==> items[k].number.InRange()
  }

  lemma {:induction false} UnitKnown(unit: Unit, plural: bool)
    ensures Multiplier(UnitText(unit, plural)) == Some(unit.Seconds())
    ensures UnitText(unit, plural) != [] && forall k :: 0 <= k < |UnitText(unit, plural)| ==> IsAlpha(UnitText(unit, plural)[k])
  {
    var name := unit.Name();
    assert (name + "s")[..|name|] == name;
  }

  lemma {:induction false} SpacesEnd(s: string, from: nat, k: nat)
    requires from <= k <= |s| && (forall i :: from <= i < k ==> s[i] == ' ') && (k < |s| ==> s[k] != ' ')
    ensures SkipSpaces(s, from) == k
    decreases k - from
  {
    if from < k {
      SpacesEnd(s, from + 1, k);
    }
  }

  lemma {:induction false} LettersEnd(s: string, from: nat, k: nat)
    requires from <= k <= |s| && (forall i :: from <= i < k ==> IsAlpha(s[i])) && (k < |s| ==> !IsAlpha(s[k]))
    ensures SkipLetters(s, from) == k
    decreases k - from
  {
    if from < k {
      LettersEnd(s, from + 1, k);
    }
  }

  lemma {:induction false} SeparatorsEnd(s: string, from: nat, k: nat)
    requires from <= k <= |s| && (forall i :: from <= i < k ==> IsSeparator(s[i])) && (k < |s| ==> !IsSeparator(s[k]))
    ensures SkipSeparators(s, from) == k
    decreases k - from
  {
    if from < k {
      SeparatorsEnd(s, from + 1, k);
    }
  }

  /** A text stands in another one from an offset on. */
  predicate StandsAt(s: string, at: nat, text: string) {
    at + |text| <= |s| && forall k :: 0 <= k < |text| ==> s[at + k] == text[k]
  }

  lemma {:induction false} StandsSlice(s: string, at: nat, text: string)
    requires StandsAt(s, at, text)
    ensures s[at..at + |text|] == text
  {
  }

  lemma {:induction false} PartStands(head: string, part: string, rest: string)
    ensures StandsAt(head + (part + rest), |head|, part)
    ensures StandsAt(head + (part + rest), |head| + |part|, rest)
  {
  }

  lemma {:induction false} StandsInside(s: string, at: nat, part: string, rest: string)
    requires StandsAt(s, at, part + rest)
    ensures StandsAt(s, at, part) && StandsAt(s, at + |part|, rest)
  {
    forall k | 0 <= k < |part|
      ensures s[at + k] == part[k]
    {
      assert s[at + k] == (part + rest)[k];
    }
    forall k | 0 <= k < |rest|
      ensures s[at + |part| + k] == rest[k]
    {
      assert s[at + (|part| + k)] == (part + rest)[|part| + k];
    }
  }

  lemma {:induction false} SpacesStand(s: string, at: nat, n: nat)
    requires StandsAt(s, at, Spaces(n))
    ensures at + n <= |s| && forall k :: at <= k < at + n ==> s[k] == ' '
  {
    forall k | at <= k < at + n
      ensures s[k] == ' '
    {
      assert s[at + (k - at)] == Spaces(n)[k - at];
    }
  }

  lemma {:induction false} TextStands(s: string, at: nat, unit: Unit, plural: bool)
    requires StandsAt(s, at, UnitText(unit, plural))
    ensures at < at + |UnitText(unit, plural)| <= |s| && forall k :: at <= k < at + |UnitText(unit, plural)| ==> IsAlpha(s[k])
  {
    hide UnitText, Multiplier;
    UnitKnown(unit, plural);
    assert s[at + 0] == UnitText(unit, plural)[0];
    forall k | at <= k < at + |UnitText(unit, plural)|
      ensures IsAlpha(s[k])
    {
      assert s[at + (k - at)] == UnitText(unit, plural)[k - at];
    }
  }

  /** A unit with its spaces reads as its seconds. */
  lemma {:induction false} UnitReads(s: string, from: nat, gap: nat, unit: Unit, plural: bool, trail: nat)
    requires StandsAt(s, from, Spaces(gap)) && StandsAt(s, from + gap, UnitText(unit, plural))
    requires var end := from + gap + |UnitText(unit, plural)|;
             StandsAt(s, end, Spaces(trail)) && (end + trail < |s| ==> s[end + trail] == ',')
    ensures UnitAt(s, from) == Some(UnitRead(unit.Seconds(), from + gap + |UnitText(unit, plural)| + trail))
  {
    hide Multiplier, UnitText, StandsAt, Spaces;
    var start, end := from + gap, from + gap + |UnitText(unit, plural)|;
    UnitKnown(unit, plural);
    SpacesStand(s, from, gap);
    SpacesStand(s, end, trail);
    TextStands(s, start, unit, plural);
    StandsSlice(s, start, UnitText(unit, plural));
    assert IsAlpha(s[start]);
    assert end < |s| ==> s[end] == (if trail == 0 then ',' else ' ');
    SpacesEnd(s, from, start);
    LettersEnd(s, start, end);
    SpacesEnd(s, end, end + trail);
  }

  /** The pieces of an item, wherever it stands. */
  lemma {:induction false} ItemPieces(s: string, at: nat, i: Item)
    requires StandsAt(s, at, RenderItem(i))
    ensures var unit := UnitText(i.unit, i.plural);
            var digits, gap := at + |i.before|, at + |i.before| + |i.number.Text()|;
            && StandsAt(s, at, i.before) && StandsAt(s, digits, i.number.Text()) && StandsAt(s, gap, Spaces(i.gap))
            && StandsAt(s, gap + i.gap, unit) && StandsAt(s, gap + i.gap + |unit|, Spaces(i.trail))
            && at + |RenderItem(i)| == gap + i.gap + |unit| + i.trail
  {
    hide StandsAt, UnitText, Spaces, Numeral.Text;
    var unit := UnitText(i.unit, i.plural);
    var digits, gap := at + |i.before|, at + |i.before| + |i.number.Text()|;
    StandsInside(s, at, i.before, i.number.Text() + (Spaces(i.gap) + (unit + Spaces(i.trail))));
    StandsInside(s, digits, i.number.Text(), Spaces(i.gap) + (unit + Spaces(i.trail)));
    StandsInside(s, gap, Spaces(i.gap), unit + Spaces(i.trail));
    StandsInside(s, gap + i.gap, unit, Spaces(i.trail));
  }

  lemma {:induction false} SeparatorsStand(s: string, at: nat, before: string)
    requires StandsAt(s, at, before) && Separators(before)
    requires at + |before| < |s| && !IsSeparator(s[at + |before|])
    ensures SkipSeparators(s, at) == at + |before|
  {
    forall k | at <= k < at + |before|
      ensures IsSeparator(s[k])
    {
      assert s[at + (k - at)] == before[k - at];
    }
    SeparatorsEnd(s, at, at + |before|);
  }

  /** A number that stands before spaces or a unit reads as what it denotes. */
  lemma {:induction false} NumberReads(s: string, at: nat, n: Numeral, gap: nat, unit: Unit, plural: bool)
    requires n.Valid()
    requires StandsAt(s, at, n.Text()) && StandsAt(s, at + |n.Text()|, Spaces(gap)) && StandsAt(s, at + |n.Text()| + gap, UnitText(unit, plural))
    ensures at < |s| && !IsSeparator(s[at])
    ensures var r := ParseUnsigned(s[at..]);
            && r.taken == |n.Text()| && (r.outOfRange <==> !n.InRange())
            && (n.InRange() ==> r.value == n.Value())
  {
    hide ParseUnsigned, DigitValue, UnitText, Spaces, Signed;
    var end := at + |n.Text()|;
    NumeralStarts(n);
    assert s[at + 0] == n.Text()[0];
    SpacesStand(s, end, gap);
    TextStands(s, end + gap, unit, plural);
    assert s[end] == ' ' || IsAlpha(s[end]);
    StandsSlice(s, at, n.Text());
    Regrouped(n, s[end..]);
    assert s[at..] == n.Text() + s[end..];
    ParseNumeral(n.blank, n.sign, n.digits, s[end..]);
  }

  lemma {:induction false} NumeralStarts(n: Numeral)
    requires n.Valid()
    ensures n.Text() != [] && !IsSeparator(n.Text()[0])
  {
    var rest := SignText(n.sign) + n.digits;
    assert n.sign == NoSign ==> rest[0] == n.digits[0];
    assert n.Text()[0] == if n.blank != [] then n.blank[0] else rest[0];
  }

  lemma {:induction false} Regrouped(n: Numeral, rest: string)
    ensures n.Text() + rest == n.blank + (SignText(n.sign) + (n.digits + rest))
  {
  }

  /** An item reads as its number of seconds, if they fit, and the cursor then stands behind it. */
  lemma {:induction false} ItemReads(s: string, from: nat, i: Item)
    requires GoodItem(i) && StandsAt(s, from, RenderItem(i))
    requires from + |RenderItem(i)| < |s| ==> s[from + |RenderItem(i)|] == ','
    ensures var at := from + |i.before|;
            && at < |s| && SkipSeparators(s, from) == at
            && PairAt(s, at) == if i.number.InRange() && Seconds(i) <= U64_MAX
                                then Some(Pair(Seconds(i), from + |RenderItem(i)|)) else None
  {
    hide ParseUnsigned, UnitAt, UnitText, DigitValue, StandsAt, Spaces, RenderItem, SkipSeparators, Numeral.Text, Numeral.Value, Numeral.InRange;
    var at := from + |i.before|;
    ItemPieces(s, from, i);
    NumeralStarts(i.number);
    NumberReads(s, at, i.number, i.gap, i.unit, i.plural);
    SeparatorsStand(s, from, i.before);
    UnitReads(s, at + |i.number.Text()|, i.gap, i.unit, i.plural, i.trail);
  }

  /** What stands behind an item of a list. */
  lemma {:induction false} RestStarts(items: seq<Item>, tail: string)
    requires items != [] && Behind(items, tail)
    ensures GoodItem(items[0]) && Behind(items[1..], tail) && StartsWithComma(Render(items[1..], tail))
  {
    if |items| > 1 {
      assert items[1..][0] == items[1];
    }
  }

  lemma {:induction false} RenderedStep(s: string, from: nat, i: Item, total: nat)
    requires GoodItem(i) && StandsAt(s, from, RenderItem(i))
    requires from + |RenderItem(i)| < |s| ==> s[from + |RenderItem(i)|] == ','
    ensures from + |RenderItem(i)| <= |s|
    ensures SumFrom(s, from, total) ==
            if !i.number.InRange() || Seconds(i) > U64_MAX || total + Seconds(i) > U64_MAX then None
            else SumFrom(s, from + |RenderItem(i)|, total + Seconds(i))
  {
    hide PairAt, RenderItem, Seconds, SkipSeparators, GoodItem, StandsAt, SumFrom, Numeral.InRange;
    ItemReads(s, from, i);
    SumStep(s, from, total);
    PartFits(s, from, RenderItem(i));
  }

  lemma {:induction false} PartFits(s: string, at: nat, part: string)
    requires StandsAt(s, at, part)
    ensures at + |part| <= |s|
  {
  }

  lemma {:induction false} SumStep(s: string, from: nat, total: nat)
    requires from <= |s| && SkipSeparators(s, from) < |s|
    ensures var pair := PairAt(s, SkipSeparators(s, from));
            SumFrom(s, from, total) ==
            if pair.None? || total + pair.value.seconds > U64_MAX then None
            else SumFrom(s, pair.value.next, total + pair.value.seconds)
  {
    hide PairAt, SkipSeparators;
  }

  lemma {:induction false} BehindPart(head: string, part: string, rest: string)
    requires StartsWithComma(rest)
    ensures var s, end := head + (part + rest), |head| + |part|; end < |s| ==> s[end] == ','
  {
  }

  lemma {:induction false} Joined(head: string, part: string, rest: string)
    ensures head + (part + rest) == head + part + rest && |head + part| == |head| + |part|
  {
  }

  lemma {:induction false} TotalStep(items: seq<Item>)
    requires AllNumbers(items)
    ensures Total(items) == if items == [] then 0 else Seconds(items[0]) + Total(items[1..])
    ensures items == [] ==> InRange(items)
    ensures items != [] ==> (InRange(items) <==> items[0].number.InRange() && InRange(items[1..]))
  {
    hide Numeral.InRange;
    if items != [] {
      assert forall k :: 1 <= k < |items| ==> items[k] == items[1..][k - 1];
    }
  }

  lemma {:induction false} RenderedOne(head: string, i: Item, rest: string, total: nat)
    requires GoodItem(i) && StartsWithComma(rest)
    ensures var s := head + RenderItem(i) + rest;
            && head + (RenderItem(i) + rest) == s
            && SumFrom(s, |head|, total) ==
               if !i.number.InRange() || Seconds(i) > U64_MAX || total + Seconds(i) > U64_MAX then None
               else SumFrom(s, |head + RenderItem(i)|, total + Seconds(i))
  {
    hide SumFrom, RenderItem, Seconds, StandsAt, GoodItem, Numeral.InRange, StartsWithComma;
    PartStands(head, RenderItem(i), rest);
    BehindPart(head, RenderItem(i), rest);
    Joined(head, RenderItem(i), rest);
    RenderedStep(head + (RenderItem(i) + rest), |head|, i, total);
  }

  lemma {:induction false} RenderedFrom(head: string, items: seq<Item>, tail: string, total: nat)
    requires AllNumbers(items) && Behind(items, tail) && total <= U64_MAX
    ensures SumFrom(head + Render(items, tail), |head|, total) ==
            if InRange(items) && total + Total(items) <= U64_MAX then Some(total + Total(items)) else None
    decreases |items|
  {
    hide SumFrom, RenderItem, Seconds, Total, InRange, Numeral.InRange, Behind, GoodItem, StartsWithComma;
    TotalStep(items);
    if items == [] {
      BehindEmpty(tail);
      TailReads(head, tail, total);
    } else {
      var i, rest := items[0], Render(items[1..], tail);
      RestStarts(items, tail);
      RenderedOne(head, i, rest, total);
      if i.number.InRange() && total + Seconds(i) <= U64_MAX {
        RenderedFrom(head + RenderItem(i), items[1..], tail, total + Seconds(i));
      }
    }
  }

  lemma {:induction false} BehindNumbers(items: seq<Item>, tail: string)
    requires Behind(items, tail)
    ensures AllNumbers(items)
  {
  }

  lemma {:induction false} BehindEmpty(tail: string)
    requires Behind([], tail)
    ensures Separators(tail)
  {
  }

  lemma {:induction false} TailReads(head: string, tail: string, total: nat)
    requires Separators(tail)
    ensures SumFrom(head + tail, |head|, total) == Some(total)
  {
    SeparatorsEnd(head + tail, |head|, |head + tail|);
  }

  // ---------- Exact acceptance

  lemma {:induction false} UnitOf(text: string) returns (unit: Unit, plural: bool)
    requires Multiplier(text).Some?
    ensures UnitText(unit, plural) == text && Multiplier(text) == Some(unit.Seconds())
  {
    plural := 1 < |text| && text[|text| - 1] == 's';
    var singular := if plural then text[..|text| - 1] else text;
    unit := if singular == "second" then Second else if singular == "minute" then Minute
            else if singular == "hour" then Hour else if singular == "day" then Day else Week;
    assert plural ==> text == singular + "s";
  }

  lemma {:induction false} SpacesAre(s: string)
    requires forall i :: 0 <= i < |s| ==> s[i] == ' '
    ensures s == Spaces(|s|)
  {
  }

  /** What the parser has skipped between two cursors. */
  lemma {:induction false} SkippedSeparators(s: string, from: nat)
    requires from <= |s|
    ensures Separators(s[from..SkipSeparators(s, from)])
    decreases |s| - from
  {
    if from < |s| && IsSeparator(s[from]) {
      SkippedSeparators(s, from + 1);
      assert s[from..SkipSeparators(s, from)] == [s[from]] + s[from + 1..SkipSeparators(s, from)];
    }
  }

  lemma {:induction false} SkippedSpaces(s: string, from: nat)
    requires from <= |s|
    ensures s[from..SkipSpaces(s, from)] == Spaces(SkipSpaces(s, from) - from)
  {
    SpacesAre(s[from..SkipSpaces(s, from)]);
  }

  /** Every unit that is read is a rendered one. */
  lemma {:induction false} UnitParsed(s: string, from: nat) returns (gap: nat, unit: Unit, plural: bool, trail: nat)
    requires from <= |s| && UnitAt(s, from).Some?
    ensures var r := UnitAt(s, from).value;
            && r.multiplier == unit.Seconds()
            && s[from..r.next] == Spaces(gap) + (UnitText(unit, plural) + Spaces(trail))
  {
    hide Multiplier, UnitText;
    var start := SkipSpaces(s, from);
    var end := SkipLetters(s, start);
    var next := SkipSpaces(s, end);
    unit, plural := UnitOf(s[start..end]);
    SkippedSpaces(s, from);
    SkippedSpaces(s, end);
    gap, trail := start - from, next - end;
    CutThree(s, from, start, end, next);
  }

  lemma {:induction false} CutThree(s: string, from: nat, start: nat, end: nat, next: nat)
    requires from <= start <= end <= next <= |s|
    ensures s[from..next] == s[from..start] + (s[start..end] + s[end..next])
  {
  }

  lemma {:induction false} PairParsed(s: string, at: nat, before: string) returns (i: Item)
    requires at < |s| && !IsSeparator(s[at]) && PairAt(s, at).Some? && Separators(before)
    ensures GoodItem(i) && i.before == before && i.number.InRange() && Seconds(i) == PairAt(s, at).value.seconds
    ensures before + s[at..PairAt(s, at).value.next] == RenderItem(i)
  {
    hide ParseUnsigned, UnitAt, UnitText, DigitValue, Signed;
    var taken := ParseUnsigned(s[at..]).taken;
    var blank, sign, digits := NumeralOf(s[at..]);
    var n := Numeral(blank, sign, digits);
    assert s[at..][..taken] == n.Text();
    assert blank != [] ==> blank[0] == n.Text()[0] == s[at];
    var gap, unit, plural, trail := UnitParsed(s, at + taken);
    i := Item(before, n, gap, unit, plural, trail);
    var next := PairAt(s, at).value.next;
    assert s[at..next] == n.Text() + s[at + taken..next];
  }

  /** From a cursor at which a sum is read, the text is a list of items and separators behind them. */
  lemma {:induction false} Parsed(s: string, from: nat, total: nat) returns (items: seq<Item>, tail: string)
    requires from <= |s| && SumFrom(s, from, total).Some?
    ensures Behind(items, tail) && InRange(items) && s[from..] == Render(items, tail)
    decreases |s| - from
  {
    hide PairAt, RenderItem, Seconds;
    var at := SkipSeparators(s, from);
    SkippedSeparators(s, from);
    if at == |s| {
      items, tail := [], s[from..];
    } else {
      var pair := PairAt(s, at).value;
      var i := PairParsed(s, at, s[from..at]);
      PairEnds(s, at);
      var more: seq<Item>;
      more, tail := Parsed(s, pair.next, total + pair.seconds);
      items := PutBefore(s, from, at, pair.next, i, more, tail);
    }
  }

  lemma {:induction false} PairEnds(s: string, at: nat)
    requires at <= |s| && PairAt(s, at).Some?
    ensures StartsWithComma(s[PairAt(s, at).value.next..])
  {
    hide ParseUnsigned, Multiplier;
  }

  lemma {:induction false} PutBefore(s: string, from: nat, at: nat, next: nat, i: Item, more: seq<Item>, tail: string)
      returns (items: seq<Item>)
    requires from <= at <= next <= |s| && GoodItem(i) && i.number.InRange() && s[from..at] + s[at..next] == RenderItem(i)
    requires Behind(more, tail) && InRange(more) && s[next..] == Render(more, tail) && StartsWithComma(s[next..])
    ensures Behind(items, tail) && InRange(items) && s[from..] == Render(items, tail)
  {
    hide RenderItem, Numeral.InRange, Numeral.Text;
    items := [i] + more;
    assert items[1..] == more;
    if more != [] {
      FirstCharacter(more[0], Render(more[1..], tail));
    }
    Cut(s, from, at, next);
  }

  lemma {:induction false} Cut(s: string, from: nat, at: nat, next: nat)
    requires from <= at <= next <= |s|
    ensures s[from..] == s[from..at] + s[at..next] + s[next..]
  {
  }

  lemma {:induction false} FirstCharacter(i: Item, rest: string)
    requires GoodItem(i)
    ensures var s := RenderItem(i) + rest;
            s != [] && (s[0] == ',' ==> i.before != [] && i.before[0] == ',')
  {
    NumeralStarts(i.number);
    assert i.before == [] ==> (RenderItem(i) + rest)[0] == i.number.Text()[0];
    assert i.before != [] ==> (RenderItem(i) + rest)[0] == i.before[0];
  }

  /** A list of items reads as the exact sum of its parts, or fails exactly when a number or that sum exceeds 64 bits. */
  lemma {:induction false} RenderedReads(items: seq<Item>, tail: string)
    requires Behind(items, tail)
    ensures SumFrom(Render(items, tail), 0, 0) == if InRange(items) && Total(items) <= U64_MAX then Some(Total(items)) else None
  {
    hide SumFrom, Render, Behind, Total, InRange;
    BehindNumbers(items, tail);
    RenderedFrom([], items, tail, 0);
    assert [] + Render(items, tail) == Render(items, tail);
  }

  ghost predicate Denotes(s: string, seconds: nat) {
    exists items, tail ::
      Behind(items, tail) && s == Render(items, tail) && InRange(items) && seconds == Total(items) && seconds <= U64_MAX
  }

  /** A text is read as a number of seconds exactly if it is a list of items with that sum, or the one special text. */
  lemma {:induction false} ReadsExactly(s: string, seconds: nat)
    ensures DurationOf(s) == Some(seconds) <==> (if s == "less than a second" then seconds == 0 else Denotes(s, seconds))
  {
    hide SumFrom, InRange;
    if s != "less than a second" && SumFrom(s, 0, 0).Some? {
      var items, tail := Parsed(s, 0, 0);
      assert s[0..] == s;
      RenderedReads(items, tail);
    }
    if Denotes(s, seconds) {
      var items, tail :|
        Behind(items, tail) && s == Render(items, tail) && InRange(items) && seconds == Total(items) && seconds <= U64_MAX;
      RenderedReads(items, tail);
    }
  }
}
