/** The VICI message grammar: trees, their bytes, and the events a parser reports for them. */
module ViciGrammar {
  import opened Core

  const MAX_SEGMENT: nat := 512 * 1024
  const MAX_DEPTH: nat := 32

  const TAG_SECTION_START: byte := '\U{1}'
  const TAG_SECTION_END: byte := '\U{2}'
  const TAG_KEY_VALUE: byte := '\U{3}'
  const TAG_LIST_START: byte := '\U{4}'
  const TAG_LIST_ITEM: byte := '\U{5}'
  const TAG_LIST_END: byte := '\U{6}'

  /** The section names a collector keeps, one for each depth, when no section is open. */
  function NoSections(): (b: seq<Bytes>)
    ensures |b| == MAX_DEPTH
  {
    seq(MAX_DEPTH, _ => [])
  }

  // A message, or the body of a section: its first element and the elements after it.
  datatype Forest =
    | Empty
    | Section(name: Bytes, body: Forest, rest: Forest)
    | Pair(name: Bytes, value: Bytes, rest: Forest)
    | List(name: Bytes, items: seq<Bytes>, rest: Forest)

  // One callback of the parser.  A section counts as one level deeper than the elements around it.
  datatype Event =
    | SectionStart(name: Bytes, depth: nat)
    | SectionEnd(depth: nat)
    | KeyValue(name: Bytes, value: Bytes, depth: nat)
    | ListStart(name: Bytes, depth: nat)
    | ListItem(value: Bytes, depth: nat)
    | ListEnd(depth: nat)

  predicate ValidName(name: Bytes) {
    1 <= |name| <= U8_MAX
  }

  predicate ValidValue(value: Bytes) {
    |value| <= U16_MAX
  }

  predicate ValidItems(items: seq<Bytes>) {
    forall i :: 0 <= i < |items| ==> ValidValue(items[i])
  }

  /** A tree that VICI can carry when its elements stand inside `depth` sections. */
  predicate Valid(f: Forest, depth: nat) {
    match f
    case Empty => true
    case Section(name, body, rest) =>
      ValidName(name) && depth < MAX_DEPTH && Valid(body, depth + 1) && Valid(rest, depth)
    case Pair(name, value, rest) => ValidName(name) && ValidValue(value) && Valid(rest, depth)
    case List(name, items, rest) => ValidName(name) && ValidItems(items) && Valid(rest, depth)
  }

  // ---------- Bytes

  function NameBytes(name: Bytes): Bytes
    requires ValidName(name)
  {
    [|name| as char] + name
  }

  function ValueBytes(value: Bytes): Bytes
    requires ValidValue(value)
  {
    U16Bytes(|value|) + value
  }

  function ItemsBytes(items: seq<Bytes>): Bytes
    requires ValidItems(items)
  {
    if items == [] then [TAG_LIST_END]
    else [TAG_LIST_ITEM] + ValueBytes(items[0]) + ItemsBytes(items[1..])
  }

  function Encode(f: Forest, depth: nat): Bytes
    requires Valid(f, depth)
  {
    match f
    case Empty => []
    case Section(name, body, rest) =>
      [TAG_SECTION_START] + NameBytes(name) + Encode(body, depth + 1) + [TAG_SECTION_END] + Encode(rest, depth)
    case Pair(name, value, rest) =>
      [TAG_KEY_VALUE] + NameBytes(name) + ValueBytes(value) + Encode(rest, depth)
    case List(name, items, rest) =>
      [TAG_LIST_START] + NameBytes(name) + ItemsBytes(items) + Encode(rest, depth)
  }

  predicate ValidEvent(e: Event) {
    match e
    case SectionStart(name, _) => ValidName(name)
    case KeyValue(name, value, _) => ValidName(name) && ValidValue(value)
    case ListStart(name, _) => ValidName(name)
    case ListItem(value, _) => ValidValue(value)
    case _ => true
  }

  /** What the matching `AddVici*` call appends. */
  function EventBytes(e: Event): Bytes
    requires ValidEvent(e)
  {
    match e
    case SectionStart(name, _) => [TAG_SECTION_START] + NameBytes(name)
    case SectionEnd(_) => [TAG_SECTION_END]
    case KeyValue(name, value, _) => [TAG_KEY_VALUE] + NameBytes(name) + ValueBytes(value)
    case ListStart(name, _) => [TAG_LIST_START] + NameBytes(name)
    case ListItem(value, _) => [TAG_LIST_ITEM] + ValueBytes(value)
    case ListEnd(_) => [TAG_LIST_END]
  }

  predicate ValidEvents(es: seq<Event>) {
    forall i :: 0 <= i < |es| ==> ValidEvent(es[i])
  }

  function EventsBytes(es: seq<Event>): Bytes
    requires ValidEvents(es)
  {
    if es == [] then [] else EventBytes(es[0]) + EventsBytes(es[1..])
  }

  // ---------- Events

  function ItemEvents(items: seq<Bytes>, depth: nat): seq<Event> {
    if items == [] then [ListEnd(depth)] else [ListItem(items[0], depth)] + ItemEvents(items[1..], depth)
  }

  function Events(f: Forest, depth: nat): seq<Event> {
    match f
    case Empty => []
    case Section(name, body, rest) =>
      [SectionStart(name, depth + 1)] + Events(body, depth + 1) + [SectionEnd(depth + 1)] + Events(rest, depth)
    case Pair(name, value, rest) => [KeyValue(name, value, depth)] + Events(rest, depth)
    case List(name, items, rest) => [ListStart(name, depth)] + ItemEvents(items, depth) + Events(rest, depth)
  }

  // ---------- What is left of a message in the middle of parsing it

  // `stack[0]` is what is left of the innermost open section, `stack[1]` of the one around it, and so on;
  // `open` holds the items left in an open list.
  datatype Remainder = Remainder(open: Option<seq<Bytes>>, stack: seq<Forest>) {
    predicate Valid() {
      && 1 <= |stack| <= MAX_DEPTH + 1
      && (open.Some? ==> ValidItems(open.value))
      && ValidStack(stack)
    }
  }

  predicate ValidStack(stack: seq<Forest>) {
    stack == [] || (Valid(stack[0], |stack| - 1) && ValidStack(stack[1..]))
  }

  /** The events after the innermost section's own: its end, and then the sections around it. */
  function OuterEvents(stack: seq<Forest>): seq<Event>
    decreases |stack|, 0
  {
    if |stack| <= 1 then [] else [SectionEnd(|stack| - 1)] + StackEvents(stack[1..])
  }

  function StackEvents(stack: seq<Forest>): seq<Event>
    requires stack != []
    decreases |stack|, 1
  {
    Events(stack[0], |stack| - 1) + OuterEvents(stack)
  }

  function OuterBytes(stack: seq<Forest>): Bytes
    requires ValidStack(stack)
    decreases |stack|, 0
  {
    if |stack| <= 1 then [] else [TAG_SECTION_END] + StackBytes(stack[1..])
  }

  function StackBytes(stack: seq<Forest>): Bytes
    requires stack != [] && ValidStack(stack)
    decreases |stack|, 1
  {
    Encode(stack[0], |stack| - 1) + OuterBytes(stack)
  }

  function RemainderEvents(r: Remainder): seq<Event>
    requires 1 <= |r.stack|
  {
    if r.open.None? then StackEvents(r.stack)
    else ItemEvents(r.open.value, |r.stack| - 1) + StackEvents(r.stack)
  }

  function RemainderBytes(r: Remainder): Bytes
    requires r.Valid()
  {
    if r.open.None? then StackBytes(r.stack) else ItemsBytes(r.open.value) + StackBytes(r.stack)
  }

  // The first event of a remainder and what remains after it.
  datatype Front = Last | Front(event: Event, next: Remainder)

  /** Takes the first element off a remainder. */
  function Uncons(r: Remainder): (f: Front)
    requires 1 <= |r.stack|
    ensures f.Front? ==> 1 <= |f.next.stack|
  {
    var d := |r.stack| - 1;
    match r.open
    case Some(items) =>
      if items == [] then Front(ListEnd(d), Remainder(None, r.stack))
      else Front(ListItem(items[0], d), Remainder(Some(items[1..]), r.stack))
    case None =>
      match r.stack[0]
      case Empty =>
        if d == 0 then Last else Front(SectionEnd(d), Remainder(None, r.stack[1..]))
      case Section(name, body, rest) =>
        Front(SectionStart(name, d + 1), Remainder(None, [body, rest] + r.stack[1..]))
      case Pair(name, value, rest) =>
        Front(KeyValue(name, value, d), Remainder(None, [rest] + r.stack[1..]))
      case List(name, items, rest) =>
        Front(ListStart(name, d), Remainder(Some(items), [rest] + r.stack[1..]))
  }

  lemma {:induction false} Regroup<T>(a: seq<T>, b: seq<T>, c: seq<T>)
    ensures (a + b) + c == a + (b + c)
  {
  }

  lemma {:induction false} RegroupSection<T>(a: seq<T>, b: seq<T>, c: seq<T>, d: seq<T>, e: seq<T>)
    ensures (a + b + c + d) + e == a + (b + (c + (d + e)))
  {
  }

  /** Replacing the innermost forest leaves what is outside it alone. */
  lemma {:induction false} Replaced(stack: seq<Forest>, head: Forest)
    requires stack != []
    ensures StackEvents([head] + stack[1..]) == Events(head, |stack| - 1) + OuterEvents(stack)
    ensures ValidStack(stack) && Valid(head, |stack| - 1) ==>
              && ValidStack([head] + stack[1..])
              && StackBytes([head] + stack[1..]) == Encode(head, |stack| - 1) + OuterBytes(stack)
  {
    assert ([head] + stack[1..])[1..] == stack[1..];
  }

  /** One level of an open stack. */
  lemma {:induction false} Opened(inner: seq<Forest>, outer: seq<Forest>)
    requires 2 <= |inner| && inner[1..] == outer
    ensures StackEvents(inner) == Events(inner[0], |outer|) + ([SectionEnd(|outer|)] + StackEvents(outer))
    ensures ValidStack(inner) ==>
              && ValidStack(outer)
              && StackBytes(inner) == Encode(inner[0], |outer|) + ([TAG_SECTION_END] + StackBytes(outer))
  {
  }

  lemma {:induction false} SectionFront(stack: seq<Forest>, name: Bytes, body: Forest, rest: Forest)
    requires stack != [] && stack[0] == Section(name, body, rest)
    ensures StackEvents(stack) == [SectionStart(name, |stack|)] + StackEvents([body, rest] + stack[1..])
  {
    var d := |stack| - 1;
    Replaced(stack, rest);
    Opened([body, rest] + stack[1..], [rest] + stack[1..]);
    RegroupSection([SectionStart(name, d + 1)], Events(body, d + 1), [SectionEnd(d + 1)], Events(rest, d),
                   OuterEvents(stack));
  }

  lemma {:induction false} SectionParts(name: Bytes, body: Forest, rest: Forest, depth: nat)
    requires Valid(Section(name, body, rest), depth)
    ensures ValidName(name) && Valid(body, depth + 1) && Valid(rest, depth)
    ensures Encode(Section(name, body, rest), depth) ==
            [TAG_SECTION_START] + NameBytes(name) + Encode(body, depth + 1) + [TAG_SECTION_END] + Encode(rest, depth)
  {
  }

  lemma {:induction false} SectionFrontBytes(stack: seq<Forest>, name: Bytes, body: Forest, rest: Forest)
    requires stack != [] && stack[0] == Section(name, body, rest) && ValidStack(stack)
    ensures ValidName(name) && ValidStack([body, rest] + stack[1..])
    ensures StackBytes(stack) == [TAG_SECTION_START] + NameBytes(name) + StackBytes([body, rest] + stack[1..])
  {
    hide Encode, Valid, NameBytes, OuterBytes;
    var d := |stack| - 1;
    SectionParts(name, body, rest, d);
    Replaced(stack, rest);
    EnteredValid([body, rest] + stack[1..], [rest] + stack[1..]);
    Opened([body, rest] + stack[1..], [rest] + stack[1..]);
    RegroupSection([TAG_SECTION_START] + NameBytes(name), Encode(body, d + 1), [TAG_SECTION_END], Encode(rest, d),
                   OuterBytes(stack));
  }

  lemma {:induction false} EnteredValid(inner: seq<Forest>, outer: seq<Forest>)
    requires 2 <= |inner| && inner[1..] == outer && ValidStack(outer) && Valid(inner[0], |outer|)
    ensures ValidStack(inner)
  {
  }

  lemma {:induction false} ListFront(stack: seq<Forest>, name: Bytes, items: seq<Bytes>, rest: Forest)
    requires stack != [] && stack[0] == List(name, items, rest)
    ensures StackEvents(stack) ==
            [ListStart(name, |stack| - 1)] + (ItemEvents(items, |stack| - 1) + StackEvents([rest] + stack[1..]))
  {
    var d := |stack| - 1;
    Replaced(stack, rest);
    Regroup([ListStart(name, d)] + ItemEvents(items, d), Events(rest, d), OuterEvents(stack));
    Regroup([ListStart(name, d)], ItemEvents(items, d), Events(rest, d) + OuterEvents(stack));
  }

  lemma {:induction false} ListFrontBytes(stack: seq<Forest>, name: Bytes, items: seq<Bytes>, rest: Forest)
    requires stack != [] && stack[0] == List(name, items, rest) && ValidStack(stack)
    ensures ValidStack([rest] + stack[1..])
    ensures StackBytes(stack) ==
            [TAG_LIST_START] + NameBytes(name) + (ItemsBytes(items) + StackBytes([rest] + stack[1..]))
  {
    var d := |stack| - 1;
    Replaced(stack, rest);
    Regroup([TAG_LIST_START] + NameBytes(name) + ItemsBytes(items), Encode(rest, d), OuterBytes(stack));
    Regroup([TAG_LIST_START] + NameBytes(name), ItemsBytes(items), Encode(rest, d) + OuterBytes(stack));
  }

  lemma {:induction false} PairFront(stack: seq<Forest>, name: Bytes, value: Bytes, rest: Forest)
    requires stack != [] && stack[0] == Pair(name, value, rest)
    ensures StackEvents(stack) == [KeyValue(name, value, |stack| - 1)] + StackEvents([rest] + stack[1..])
  {
    Replaced(stack, rest);
    Regroup([KeyValue(name, value, |stack| - 1)], Events(rest, |stack| - 1), OuterEvents(stack));
  }

  lemma {:induction false} PairFrontBytes(stack: seq<Forest>, name: Bytes, value: Bytes, rest: Forest)
    requires stack != [] && stack[0] == Pair(name, value, rest) && ValidStack(stack)
    ensures ValidStack([rest] + stack[1..])
    ensures StackBytes(stack) ==
            [TAG_KEY_VALUE] + NameBytes(name) + ValueBytes(value) + StackBytes([rest] + stack[1..])
  {
    Replaced(stack, rest);
    Regroup([TAG_KEY_VALUE] + NameBytes(name) + ValueBytes(value), Encode(rest, |stack| - 1), OuterBytes(stack));
  }

  /** The events of a remainder are its first event and then the events of what remains. */
  lemma {:induction false} UnconsEvents(r: Remainder)
    requires 1 <= |r.stack|
    ensures Uncons(r).Last? ==> RemainderEvents(r) == []
    ensures Uncons(r).Front? ==> RemainderEvents(r) == [Uncons(r).event] + RemainderEvents(Uncons(r).next)
  {
    if r.open.None? {
      match r.stack[0]
      case Empty => assert StackEvents(r.stack) == OuterEvents(r.stack);
      case Section(name, body, rest) => SectionFront(r.stack, name, body, rest);
      case Pair(name, value, rest) => PairFront(r.stack, name, value, rest);
      case List(name, items, rest) => ListFront(r.stack, name, items, rest);
    } else if r.open.value != [] {
      var items, d := r.open.value, |r.stack| - 1;
      Regroup([ListItem(items[0], d)], ItemEvents(items[1..], d), StackEvents(r.stack));
    }
  }

  /** The same for the bytes; what remains stays within the grammar. */
  lemma {:induction false} UnconsBytes(r: Remainder)
    requires r.Valid()
    ensures Uncons(r).Last? ==> RemainderBytes(r) == []
    ensures Uncons(r).Front? ==>
              var f := Uncons(r);
              f.next.Valid() && ValidEvent(f.event) && RemainderBytes(r) == EventBytes(f.event) + RemainderBytes(f.next)
  {
    if r.open.None? {
      match r.stack[0]
      case Empty => assert StackBytes(r.stack) == OuterBytes(r.stack);
      case Section(name, body, rest) => SectionFrontBytes(r.stack, name, body, rest);
      case Pair(name, value, rest) => PairFrontBytes(r.stack, name, value, rest);
      case List(name, items, rest) => ListFrontBytes(r.stack, name, items, rest);
    } else if r.open.value != [] {
      var items := r.open.value;
      Regroup([TAG_LIST_ITEM] + ValueBytes(items[0]), ItemsBytes(items[1..]), StackBytes(r.stack));
    }
  }

  // ---------- Reading a tree back out of its events

  function Whole(f: Forest): Remainder {
    Remainder(None, [f])
  }

  /** The inverse of `Uncons`, read from the last event to the first. */
  function Cons(e: Event, r: Remainder): Remainder
    requires 1 <= |r.stack|
    ensures 1 <= |Cons(e, r).stack|
  {
    match e
    case SectionStart(name, _) =>
      if |r.stack| == 1 then r else Remainder(None, [Section(name, r.stack[0], r.stack[1])] + r.stack[2..])
    case SectionEnd(_) => Remainder(None, [Empty] + r.stack)
    case KeyValue(name, value, _) => Remainder(None, [Pair(name, value, r.stack[0])] + r.stack[1..])
    case ListStart(name, _) =>
      if r.open.None? then r else Remainder(None, [List(name, r.open.value, r.stack[0])] + r.stack[1..])
    case ListItem(value, _) => if r.open.None? then r else Remainder(Some([value] + r.open.value), r.stack)
    case ListEnd(_) => Remainder(Some([]), r.stack)
  }

  function Assemble(es: seq<Event>): (r: Remainder)
    ensures 1 <= |r.stack|
  {
    if es == [] then Whole(Empty) else Cons(es[0], Assemble(es[1..]))
  }

  lemma {:induction false} UnconsCons(r: Remainder)
    requires 1 <= |r.stack|
    ensures Uncons(r).Last? ==> r == Whole(Empty)
    ensures Uncons(r).Front? ==> Cons(Uncons(r).event, Uncons(r).next) == r
  {
    assert r.stack == [r.stack[0]] + r.stack[1..];
    if r.open.Some? {
      if r.open.value != [] {
        assert r.open.value == [r.open.value[0]] + r.open.value[1..];
      }
    } else {
      match r.stack[0]
      case Empty =>
      case Section(name, body, rest) => assert ([body, rest] + r.stack[1..])[2..] == r.stack[1..];
      case Pair(name, value, rest) => assert ([rest] + r.stack[1..])[1..] == r.stack[1..];
      case List(name, items, rest) => assert ([rest] + r.stack[1..])[1..] == r.stack[1..];
    }
  }

  lemma {:induction false} AssembleInvertsEvents(r: Remainder)
    requires 1 <= |r.stack|
    ensures Assemble(RemainderEvents(r)) == r
    decreases |RemainderEvents(r)|
  {
    UnconsEvents(r);
    UnconsCons(r);
    if Uncons(r).Front? {
      var f := Uncons(r);
      assert RemainderEvents(r)[1..] == RemainderEvents(f.next);
      AssembleInvertsEvents(f.next);
    }
  }

  lemma {:induction false} WholeMessage(f: Forest)
    ensures RemainderEvents(Whole(f)) == Events(f, 0)
    ensures Valid(f, 0) ==> Whole(f).Valid() && RemainderBytes(Whole(f)) == Encode(f, 0)
  {
    assert OuterEvents([f]) == [];
    assert Events(f, 0) + [] == Events(f, 0);
    if Valid(f, 0) {
      assert ValidStack([f]);
      assert OuterBytes([f]) == [];
      assert Encode(f, 0) + [] == Encode(f, 0);
    }
  }

  /** A message is determined by its events. */
  lemma {:induction false} EventsInjective(f: Forest, g: Forest)
    requires Events(f, 0) == Events(g, 0)
    ensures f == g
  {
    AssembleInvertsEvents(Whole(f));
    AssembleInvertsEvents(Whole(g));
    WholeMessage(f);
    WholeMessage(g);
  }

  /** Replaying the events through the encoder gives the bytes of the tree. */
  lemma {:induction false} ReplayedEvents(r: Remainder)
    requires r.Valid()
    ensures ValidEvents(RemainderEvents(r)) && EventsBytes(RemainderEvents(r)) == RemainderBytes(r)
    decreases |RemainderEvents(r)|
  {
    UnconsEvents(r);
    UnconsBytes(r);
    if Uncons(r).Front? {
      var f := Uncons(r);
      ReplayedEvents(f.next);
      assert RemainderEvents(r)[1..] == RemainderEvents(f.next);
    }
  }

  // ---------- The example message of the protocol's documentation

  const ITEMS: seq<Bytes> := ["item1", "item2"]
  const INNER := Pair("key2", "value2", Empty)
  const OUTER := Section("sub-section", INNER, List("list1", ITEMS, Empty))
  const EXAMPLE := Pair("key1", "value1", Section("section1", OUTER, Empty))

  lemma {:induction false} ExampleItems()
    ensures ValidItems(ITEMS) && ItemsBytes(ITEMS) == "\U{5}\U{0}\U{5}item1" + "\U{5}\U{0}\U{5}item2" + "\U{6}"
  {
    var last: seq<Bytes> := ["item2"];
    assert ITEMS[1..] == last && last[1..] == [];
    assert ItemsBytes([]) == [TAG_LIST_END];
    assert ItemsBytes(last) == [TAG_LIST_ITEM] + ValueBytes("item2") + ItemsBytes([]);
  }

  const INNER_BYTES: Bytes := "\U{3}\U{4}key2\U{0}\U{6}value2"
  const LIST_BYTES: Bytes := "\U{4}\U{5}list1" + "\U{5}\U{0}\U{5}item1" + "\U{5}\U{0}\U{5}item2" + "\U{6}"
  const OUTER_BYTES: Bytes := "\U{1}\U{B}sub-section" + INNER_BYTES + "\U{2}" + LIST_BYTES

  lemma {:induction false} ExampleInner()
    ensures Valid(INNER, 2) && Encode(INNER, 2) == INNER_BYTES
    ensures Valid(List("list1", ITEMS, Empty), 1) && Encode(List("list1", ITEMS, Empty), 1) == LIST_BYTES
  {
    ExampleItems();
    assert Encode(Empty, 1) == [] && Encode(Empty, 2) == [];
  }

  lemma {:induction false} ExampleOuter()
    ensures Valid(OUTER, 1) && Encode(OUTER, 1) == OUTER_BYTES
  {
    ExampleInner();
    assert Encode(OUTER, 1) ==
           [TAG_SECTION_START] + NameBytes("sub-section") + Encode(INNER, 2) + [TAG_SECTION_END]
           + Encode(List("list1", ITEMS, Empty), 1);
    assert [TAG_SECTION_START] + NameBytes("sub-section") == "\U{1}\U{B}sub-section";
  }

  /** The grammar's bytes for that message are the published ones. */
  lemma {:induction false} ExampleBytes()
    ensures Valid(EXAMPLE, 0)
    ensures Encode(EXAMPLE, 0) ==
            "\U{3}\U{4}key1\U{0}\U{6}value1" + ("\U{1}\U{8}section1" + OUTER_BYTES + "\U{2}")
  {
    ExampleOuter();
    var section := Section("section1", OUTER, Empty);
    assert Encode(Empty, 0) == [];
    assert [TAG_SECTION_START] + NameBytes("section1") == "\U{1}\U{8}section1";
    assert Encode(section, 0) == "\U{1}\U{8}section1" + OUTER_BYTES + "\U{2}";
    assert [TAG_KEY_VALUE] + NameBytes("key1") + ValueBytes("value1") == "\U{3}\U{4}key1\U{0}\U{6}value1";
  }
}
