/** The event parser: one pass over the bytes, a depth count and a flag for an open list. */
module ViciParser {
  import opened Core
  import opened Folding
  import opened ViciGrammar
  import opened ViciNames

  // ---------- Reading one element

  function NameAt(msg: Bytes, offset: nat): (r: Option<Bytes>)
    ensures r.Some? ==> ValidName(r.value) && offset + |NameBytes(r.value)| <= |msg|
                        && msg[offset..offset + |NameBytes(r.value)|] == NameBytes(r.value)
  {
    if offset >= |msg| then None else
      var length := msg[offset] as int;
      if length == 0 || length > |msg| - offset - 1 then None
      else
        var name := msg[offset + 1..offset + 1 + length];
        assert msg[offset..offset + 1 + length] == [msg[offset]] + name;
        Some(name)
  }

  function ValueAt(msg: Bytes, offset: nat): (r: Option<Bytes>)
    requires offset <= |msg|
    ensures r.Some? ==> ValidValue(r.value) && offset + |ValueBytes(r.value)| <= |msg|
                        && msg[offset..offset + |ValueBytes(r.value)|] == ValueBytes(r.value)
  {
    if 2 > |msg| - offset then None else
      var length := U16(msg[offset], msg[offset + 1]);
      if length > |msg| - offset - 2 then None
      else
        var value := msg[offset + 2..offset + 2 + length];
        U16RoundTrip(length, msg[offset], msg[offset + 1]);
        assert msg[offset..offset + 2 + length] == [msg[offset], msg[offset + 1]] + value;
        Some(value)
  }

  method ReadName(msg: Bytes, offset: nat) returns (error: Error, name: Bytes, next: nat)
    ensures error == if NameAt(msg, offset).Some? then Ok else ViciProtocol
    ensures error == Ok ==> name == NameAt(msg, offset).value && next == offset + 1 + |name| <= |msg|
  {
    name, next := [], offset;
    if next >= |msg| {
      error := ViciProtocol;
    } else {
      var length := msg[next] as int;
      next := next + 1;
      if length == 0 || length > |msg| - next {
        error := ViciProtocol;
      } else {
        name := msg[next..next + length];
        next := next + length;
        error := Ok;
      }
    }
  }

  method ReadValue(msg: Bytes, offset: nat) returns (error: Error, value: Bytes, next: nat)
    requires offset <= |msg|
    ensures error == if ValueAt(msg, offset).Some? then Ok else ViciProtocol
    ensures error == Ok ==> value == ValueAt(msg, offset).value && next == offset + 2 + |value| <= |msg|
  {
    value, next := [], offset;
    if 2 > |msg| - next {
      error := ViciProtocol;
    } else {
      var length := U16(msg[next], msg[next + 1]);
      next := next + 2;
      if length > |msg| - next {
        error := ViciProtocol;
      } else {
        value := msg[next..next + length];
        next := next + length;
        error := Ok;
      }
    }
  }

  // The parser's state between two elements.
  datatype Cursor = Cursor(offset: nat, depth: nat, listOpen: bool)

  const START := Cursor(0, 0, false)

  /** The element at the cursor and the cursor behind it, unless the bytes there are malformed. */
  function Element(msg: Bytes, c: Cursor): (r: Option<(Event, Cursor)>)
    requires c.offset < |msg|
    ensures r.Some? ==> c.offset < r.value.1.offset <= |msg|
  {
    var next := c.offset + 1;
    var tag := msg[c.offset];
    if tag == TAG_SECTION_START then
      if c.listOpen || MAX_DEPTH <= c.depth then None else
        var name := NameAt(msg, next);
        if name.None? then None else
          Some((SectionStart(name.value, c.depth + 1), Cursor(next + 1 + |name.value|, c.depth + 1, false)))
    else if tag == TAG_SECTION_END then
      if c.listOpen || c.depth == 0 then None else
        Some((SectionEnd(c.depth), Cursor(next, c.depth - 1, false)))
    else if tag == TAG_KEY_VALUE then
      if c.listOpen then None else
        var name := NameAt(msg, next);
        if name.None? then None else
          var value := ValueAt(msg, next + 1 + |name.value|);
          if value.None? then None else
            Some((KeyValue(name.value, value.value, c.depth),
                  Cursor(next + 1 + |name.value| + 2 + |value.value|, c.depth, false)))
    else if tag == TAG_LIST_START then
      if c.listOpen then None else
        var name := NameAt(msg, next);
        if name.None? then None else
          Some((ListStart(name.value, c.depth), Cursor(next + 1 + |name.value|, c.depth, true)))
    else if tag == TAG_LIST_ITEM then
      if !c.listOpen then None else
        var value := ValueAt(msg, next);
        if value.None? then None else
          Some((ListItem(value.value, c.depth), Cursor(next + 2 + |value.value|, c.depth, true)))
    else if tag == TAG_LIST_END then
      if !c.listOpen then None else Some((ListEnd(c.depth), Cursor(next, c.depth, false)))
    else None
  }

  // ---------- The whole message

  type Callback<!S> = Fallible<S, Event>

  /** The parser's meaning: deliver elements until one is malformed or refused, then check the balance. */
  function Deliver<S>(msg: Bytes, c: Cursor, callback: Callback<S>, data: S): (S, Error)
    decreases |msg| - c.offset
  {
    if c.offset >= |msg| then (data, if c.listOpen || c.depth != 0 then ViciProtocol else Ok)
    else match Element(msg, c)
      case None => (data, ViciProtocol)
      case Some((event, next)) =>
        var (after, error) := callback(data, event);
        if error != Ok then (after, error) else Deliver(msg, next, callback, after)
  }

  /** One turn of the parser's loop: the tag, the state it may appear in, and its operands. */
  method ReadElement(msg: Bytes, c: Cursor) returns (error: Error, event: Event, next: Cursor)
    requires c.offset < |msg|
    ensures error == if Element(msg, c).Some? then Ok else ViciProtocol
    ensures error == Ok ==> (event, next) == Element(msg, c).value
  {
    var offset, depth, listOpen := c.offset + 1, c.depth, c.listOpen;
    var tag := msg[c.offset];
    var name: Bytes, value: Bytes;
    error, event, next := Ok, ListEnd(depth), c;
    if tag == TAG_SECTION_START {
      if listOpen || MAX_DEPTH <= depth {
        error := ViciProtocol;
      } else {
        error, name, offset := ReadName(msg, offset);
        if error == Ok {
          depth := depth + 1;
          event := SectionStart(name, depth);
        }
      }
    } else if tag == TAG_SECTION_END {
      if listOpen || depth == 0 {
        error := ViciProtocol;
      } else {
        event := SectionEnd(depth);
        depth := depth - 1;
      }
    } else if tag == TAG_KEY_VALUE {
      if listOpen {
        error := ViciProtocol;
      } else {
        error, name, offset := ReadName(msg, offset);
        if error == Ok {
          error, value, offset := ReadValue(msg, offset);
          event := KeyValue(name, value, depth);
        }
      }
    } else if tag == TAG_LIST_START {
      if listOpen {
        error := ViciProtocol;
      } else {
        error, name, offset := ReadName(msg, offset);
        if error == Ok {
          listOpen := true;
          event := ListStart(name, depth);
        }
      }
    } else if tag == TAG_LIST_ITEM {
      if !listOpen {
        error := ViciProtocol;
      } else {
        error, value, offset := ReadValue(msg, offset);
        event := ListItem(value, depth);
      }
    } else if tag == TAG_LIST_END {
      if !listOpen {
        error := ViciProtocol;
      } else {
        listOpen := false;
      }
    } else {
      error := ViciProtocol;
    }
    next := Cursor(offset, depth, listOpen);
  }

  method ParseMessage<S>(msg: Bytes, callback: Callback<S>, initial: S) returns (data: S, error: Error)
    ensures (data, error) == Deliver(msg, START, callback, initial)
  {
    var cursor := START;
    data, error := initial, Ok;
    while cursor.offset < |msg| && error == Ok
      invariant error == Ok ==> Deliver(msg, START, callback, initial) == Deliver(msg, cursor, callback, data)
      invariant error != Ok ==> Deliver(msg, START, callback, initial) == (data, error)
      decreases |msg| - cursor.offset, error == Ok
    {
      var event: Event, next: Cursor;
      error, event, next := ReadElement(msg, cursor);
      if error == Ok {
        var (after, verdict) := callback(data, event);
        data, error, cursor := after, verdict, next;
      }
    }
    if error == Ok && (cursor.listOpen || cursor.depth != 0) {
      error := ViciProtocol;
    }
  }

  /** The events of a message, if it is well formed. */
  function Scan(msg: Bytes, c: Cursor): Option<seq<Event>>
    decreases |msg| - c.offset
  {
    if c.offset >= |msg| then if c.listOpen || c.depth != 0 then None else Some([])
    else match Element(msg, c)
      case None => None
      case Some((event, next)) =>
        var rest := Scan(msg, next);
        if rest.None? then None else Some([event] + rest.value)
  }

  predicate Accepts(msg: Bytes) {
    Scan(msg, START).Some?
  }

  /** On a well-formed message the parser folds the callback over its events; a malformed one is never accepted. */
  lemma {:induction false} DeliverFolds<S>(msg: Bytes, c: Cursor, callback: Callback<S>, data: S)
    ensures match Scan(msg, c)
            case Some(es) => Deliver(msg, c, callback, data) == Fold(callback, data, es)
            case None => Deliver(msg, c, callback, data).1 != Ok
    decreases |msg| - c.offset
  {
    if c.offset < |msg| && Element(msg, c).Some? {
      var (event, next) := Element(msg, c).value;
      DeliverFolds(msg, next, callback, callback(data, event).0);
      if Scan(msg, next).Some? {
        assert ([event] + Scan(msg, next).value)[1..] == Scan(msg, next).value;
      }
    }
  }

  // ---------- Trees to events

  /** When the parser accepts an event's element at a cursor. */
  predicate Allowed(c: Cursor, e: Event) {
    match e
    case SectionStart(_, d) => d == c.depth + 1 && !c.listOpen && c.depth < MAX_DEPTH
    case SectionEnd(d) => d == c.depth && !c.listOpen && 0 < c.depth
    case KeyValue(_, _, d) => d == c.depth && !c.listOpen
    case ListStart(_, d) => d == c.depth && !c.listOpen
    case ListItem(_, d) => d == c.depth && c.listOpen
    case ListEnd(d) => d == c.depth && c.listOpen
  }

  function Advance(c: Cursor, e: Event): Cursor
    requires Allowed(c, e) && ValidEvent(e)
  {
    var depth := if e.SectionStart? then c.depth + 1 else if e.SectionEnd? then c.depth - 1 else c.depth;
    var listOpen := if e.ListStart? then true else if e.ListEnd? then false else c.listOpen;
    Cursor(c.offset + |EventBytes(e)|, depth, listOpen)
  }

  predicate Matches(c: Cursor, r: Remainder) {
    r.Valid() && c.depth == |r.stack| - 1 && c.listOpen == r.open.Some?
  }

  predicate At(msg: Bytes, c: Cursor, r: Remainder) {
    Matches(c, r) && c.offset <= |msg| && msg[c.offset..] == RemainderBytes(r)
  }

  lemma {:induction false} NameBack(msg: Bytes, offset: nat, name: Bytes, rest: Bytes)
    requires ValidName(name) && offset <= |msg| && msg[offset..] == NameBytes(name) + rest
    ensures NameAt(msg, offset) == Some(name)
    ensures offset + 1 + |name| <= |msg| && msg[offset + 1 + |name|..] == rest
  {
    assert msg[offset] == msg[offset..][0] == |name| as char;
    assert msg[offset + 1..offset + 1 + |name|] == msg[offset..][1..1 + |name|] == name;
    assert msg[offset + 1 + |name|..] == msg[offset..][1 + |name|..] == rest;
  }

  lemma {:induction false} ValueBack(msg: Bytes, offset: nat, value: Bytes, rest: Bytes)
    requires ValidValue(value) && offset <= |msg| && msg[offset..] == ValueBytes(value) + rest
    ensures ValueAt(msg, offset) == Some(value)
    ensures offset + 2 + |value| <= |msg| && msg[offset + 2 + |value|..] == rest
  {
    assert msg[offset] == msg[offset..][0] && msg[offset + 1] == msg[offset..][1];
    U16RoundTrip(|value|, msg[offset], msg[offset + 1]);
    assert msg[offset + 2..offset + 2 + |value|] == msg[offset..][2..2 + |value|] == value;
    assert msg[offset + 2 + |value|..] == msg[offset..][2 + |value|..] == rest;
  }

  predicate Before(msg: Bytes, c: Cursor, e: Event, rest: Bytes) {
    && Allowed(c, e) && ValidEvent(e)
    && c.offset < |msg| && msg[c.offset..] == EventBytes(e) + rest
  }

  predicate After(msg: Bytes, c: Cursor, e: Event, rest: Bytes)
    requires Allowed(c, e) && ValidEvent(e)
  {
    Advance(c, e).offset <= |msg| && msg[Advance(c, e).offset..] == rest
  }

  lemma {:induction false} ReadsEnd(msg: Bytes, c: Cursor, e: Event, rest: Bytes)
    requires Before(msg, c, e, rest) && (e.SectionEnd? || e.ListEnd?)
    ensures Element(msg, c) == Some((e, Advance(c, e))) && After(msg, c, e, rest)
  {
    assert msg[c.offset] == msg[c.offset..][0];
    assert msg[c.offset + 1..] == msg[c.offset..][1..] == EventBytes(e)[1..] + rest;
  }

  lemma {:induction false} NamedBack(msg: Bytes, offset: nat, tag: byte, name: Bytes, rest: Bytes)
    requires ValidName(name) && offset < |msg| && msg[offset..] == [tag] + NameBytes(name) + rest
    ensures msg[offset] == tag
    ensures NameAt(msg, offset + 1) == Some(name)
    ensures offset + 2 + |name| <= |msg| && msg[offset + 2 + |name|..] == rest
  {
    Regroup([tag], NameBytes(name), rest);
    assert msg[offset] == msg[offset..][0];
    assert msg[offset + 1..] == msg[offset..][1..];
    NameBack(msg, offset + 1, name, rest);
  }

  lemma {:induction false} EventSize(e: Event)
    requires ValidEvent(e)
    ensures |EventBytes(e)| == match e
                               case SectionStart(name, _) => 2 + |name|
                               case SectionEnd(_) => 1
                               case KeyValue(name, value, _) => 4 + |name| + |value|
                               case ListStart(name, _) => 2 + |name|
                               case ListItem(value, _) => 3 + |value|
                               case ListEnd(_) => 1
  {
  }

  lemma {:induction false} ReadsSectionStart(msg: Bytes, c: Cursor, e: Event, rest: Bytes)
    requires Before(msg, c, e, rest) && e.SectionStart?
    ensures Element(msg, c) == Some((e, Advance(c, e))) && After(msg, c, e, rest)
  {
    hide NameAt, ValueAt, NameBytes, ValueBytes;
    NamedBack(msg, c.offset, TAG_SECTION_START, e.name, rest);
    EventSize(e);
  }

  lemma {:induction false} ReadsListStart(msg: Bytes, c: Cursor, e: Event, rest: Bytes)
    requires Before(msg, c, e, rest) && e.ListStart?
    ensures Element(msg, c) == Some((e, Advance(c, e))) && After(msg, c, e, rest)
  {
    hide NameAt, ValueAt, NameBytes, ValueBytes;
    NamedBack(msg, c.offset, TAG_LIST_START, e.name, rest);
    EventSize(e);
  }

  lemma {:induction false} ReadsListItem(msg: Bytes, c: Cursor, e: Event, rest: Bytes)
    requires Before(msg, c, e, rest) && e.ListItem?
    ensures Element(msg, c) == Some((e, Advance(c, e))) && After(msg, c, e, rest)
  {
    hide NameAt, ValueAt, NameBytes, ValueBytes;
    EventSize(e);
    Regroup([TAG_LIST_ITEM], ValueBytes(e.value), rest);
    assert msg[c.offset] == msg[c.offset..][0];
    assert msg[c.offset + 1..] == msg[c.offset..][1..];
    ValueBack(msg, c.offset + 1, e.value, rest);
  }

  lemma {:induction false} PairBack(msg: Bytes, offset: nat, name: Bytes, value: Bytes, rest: Bytes)
    requires ValidName(name) && ValidValue(value) && offset < |msg|
    requires msg[offset..] == [TAG_KEY_VALUE] + NameBytes(name) + ValueBytes(value) + rest
    ensures msg[offset] == TAG_KEY_VALUE
    ensures NameAt(msg, offset + 1) == Some(name)
    ensures offset + 4 + |name| + |value| <= |msg|
    ensures ValueAt(msg, offset + 2 + |name|) == Some(value)
    ensures msg[offset + 4 + |name| + |value|..] == rest
  {
    Regroup([TAG_KEY_VALUE] + NameBytes(name), ValueBytes(value), rest);
    Regroup([TAG_KEY_VALUE], NameBytes(name), ValueBytes(value) + rest);
    assert msg[offset] == msg[offset..][0];
    assert msg[offset + 1..] == msg[offset..][1..];
    NameBack(msg, offset + 1, name, ValueBytes(value) + rest);
    ValueBack(msg, offset + 2 + |name|, value, rest);
  }

  lemma {:induction false} ReadsKeyValue(msg: Bytes, c: Cursor, e: Event, rest: Bytes)
    requires Before(msg, c, e, rest) && e.KeyValue?
    ensures Element(msg, c) == Some((e, Advance(c, e))) && After(msg, c, e, rest)
  {
    hide NameAt, ValueAt, NameBytes, ValueBytes;
    PairBack(msg, c.offset, e.name, e.value, rest);
    EventSize(e);
  }

  /** Standing before an event's bytes, the parser reads that event. */
  lemma {:induction false} ElementOfBytes(msg: Bytes, c: Cursor, e: Event, rest: Bytes)
    requires Before(msg, c, e, rest)
    ensures Element(msg, c) == Some((e, Advance(c, e))) && After(msg, c, e, rest)
  {
    match e
    case SectionStart(_, _) => ReadsSectionStart(msg, c, e, rest);
    case KeyValue(_, _, _) => ReadsKeyValue(msg, c, e, rest);
    case ListStart(_, _) => ReadsListStart(msg, c, e, rest);
    case ListItem(_, _) => ReadsListItem(msg, c, e, rest);
    case _ => ReadsEnd(msg, c, e, rest);
  }

  lemma {:induction false} FrontAllowed(c: Cursor, r: Remainder)
    requires Matches(c, r) && Uncons(r).Front?
    ensures var Front(e, next) := Uncons(r);
            Allowed(c, e) && ValidEvent(e) && Matches(Advance(c, e), next)
  {
    UnconsBytes(r);
  }

  lemma {:induction false} ScanRemainder(msg: Bytes, c: Cursor, r: Remainder)
    requires At(msg, c, r)
    ensures Scan(msg, c) == Some(RemainderEvents(r))
    decreases |msg| - c.offset
  {
    UnconsEvents(r);
    UnconsBytes(r);
    if Uncons(r).Front? {
      FrontAllowed(c, r);
      ElementOfBytes(msg, c, Uncons(r).event, RemainderBytes(Uncons(r).next));
      ScanRemainder(msg, Advance(c, Uncons(r).event), Uncons(r).next);
    }
  }

  /** Parsing the bytes of a tree delivers exactly the tree's events, in order and with their depths. */
  lemma {:induction false} ParseDeliversEvents<S>(f: Forest, callback: Callback<S>, data: S)
    requires Valid(f, 0)
    ensures Scan(Encode(f, 0), START) == Some(Events(f, 0))
    ensures Deliver(Encode(f, 0), START, callback, data) == Fold(callback, data, Events(f, 0))
  {
    WholeMessage(f);
    ScanRemainder(Encode(f, 0), START, Whole(f));
    DeliverFolds(Encode(f, 0), START, callback, data);
  }

  // ---------- Accepted bytes to trees

  lemma {:induction false} ElementAllowed(msg: Bytes, c: Cursor)
    requires c.offset < |msg| && Element(msg, c).Some?
    ensures var (e, next) := Element(msg, c).value;
            Allowed(c, e) && ValidEvent(e) && next == Advance(c, e)
  {
  }

  lemma {:induction false} PairElement(msg: Bytes, c: Cursor, name: Bytes, value: Bytes)
    requires c.offset < |msg| && Element(msg, c).Some? && Element(msg, c).value.0 == KeyValue(name, value, c.depth)
    ensures ValidName(name) && ValidValue(value)
    ensures var next := Element(msg, c).value.1;
            msg[c.offset..] == [TAG_KEY_VALUE] + NameBytes(name) + ValueBytes(value) + msg[next.offset..]
  {
    var o, next := c.offset + 1, Element(msg, c).value.1;
    assert msg[c.offset..] == [msg[c.offset]] + msg[o..];
    Cut(msg, o, NameBytes(name));
    Cut(msg, o + 1 + |name|, ValueBytes(value));
    Regroup([TAG_KEY_VALUE], NameBytes(name), ValueBytes(value) + msg[next.offset..]);
    Regroup([TAG_KEY_VALUE] + NameBytes(name), ValueBytes(value), msg[next.offset..]);
  }

  lemma {:induction false} TaggedPart(msg: Bytes, offset: nat, part: Bytes)
    requires offset < |msg| && offset + 1 + |part| <= |msg| && msg[offset + 1..offset + 1 + |part|] == part
    ensures msg[offset..] == [msg[offset]] + part + msg[offset + 1 + |part|..]
  {
    Cut(msg, offset + 1, part);
  }

  lemma {:induction false} NamedElement(msg: Bytes, c: Cursor, e: Event, next: Cursor)
    requires c.offset < |msg| && Element(msg, c) == Some((e, next)) && (e.SectionStart? || e.ListStart?)
    ensures ValidEvent(e) && msg[c.offset..] == EventBytes(e) + msg[next.offset..]
  {
    TaggedPart(msg, c.offset, NameBytes(e.name));
  }

  lemma {:induction false} ItemElement(msg: Bytes, c: Cursor, e: Event, next: Cursor)
    requires c.offset < |msg| && Element(msg, c) == Some((e, next)) && e.ListItem?
    ensures ValidEvent(e) && msg[c.offset..] == EventBytes(e) + msg[next.offset..]
  {
    TaggedPart(msg, c.offset, ValueBytes(e.value));
  }

  lemma {:induction false} EndElement(msg: Bytes, c: Cursor, e: Event, next: Cursor)
    requires c.offset < |msg| && Element(msg, c) == Some((e, next)) && (e.SectionEnd? || e.ListEnd?)
    ensures ValidEvent(e) && msg[c.offset..] == EventBytes(e) + msg[next.offset..]
  {
    TaggedPart(msg, c.offset, []);
  }

  /** An element's event re-encodes to the bytes it was read from. */
  lemma {:induction false} ElementBytes(msg: Bytes, c: Cursor)
    requires c.offset < |msg| && Element(msg, c).Some?
    ensures var (e, next) := Element(msg, c).value;
            && Allowed(c, e) && ValidEvent(e) && next == Advance(c, e)
            && msg[c.offset..] == EventBytes(e) + msg[next.offset..]
  {
    ElementAllowed(msg, c);
    var (e, next) := Element(msg, c).value;
    match e
    case KeyValue(name, value, _) => PairElement(msg, c, name, value);
    case ListItem(_, _) => ItemElement(msg, c, e, next);
    case SectionEnd(_) => EndElement(msg, c, e, next);
    case ListEnd(_) => EndElement(msg, c, e, next);
    case _ => NamedElement(msg, c, e, next);
  }

  lemma {:induction false} Cut(msg: Bytes, offset: nat, part: Bytes)
    requires offset + |part| <= |msg| && msg[offset..offset + |part|] == part
    ensures msg[offset..] == part + msg[offset + |part|..]
  {
  }

  lemma {:induction false} SplitFirst<T>(s: seq<T>)
    requires s != []
    ensures [s[0]] + s[1..] == s
  {
  }

  /** Putting an allowed event in front of a remainder. */
  lemma {:induction false} ConsAllowed(c: Cursor, e: Event, tail: Remainder)
    requires Allowed(c, e) && ValidEvent(e) && c.depth <= MAX_DEPTH && Matches(Advance(c, e), tail)
    ensures Matches(c, Cons(e, tail)) && Uncons(Cons(e, tail)) == Front(e, tail)
  {
    SplitFirst(tail.stack);
    match e
    case SectionStart(name, _) => ConsSection(c, name, tail);
    case SectionEnd(_) => assert ([Empty] + tail.stack)[1..] == tail.stack;
    case KeyValue(name, value, _) => ConsReplaced(tail.stack, Pair(name, value, tail.stack[0]));
    case ListStart(name, _) => ConsReplaced(tail.stack, List(name, tail.open.value, tail.stack[0]));
    case ListItem(value, _) => assert ([value] + tail.open.value)[1..] == tail.open.value;
    case ListEnd(_) =>
  }

  lemma {:induction false} ConsReplaced(stack: seq<Forest>, head: Forest)
    requires stack != [] && ValidStack(stack) && Valid(head, |stack| - 1)
    ensures ValidStack([head] + stack[1..]) && ([head] + stack[1..])[1..] == stack[1..]
  {
    assert ([head] + stack[1..])[1..] == stack[1..];
  }

  lemma {:induction false} ConsSection(c: Cursor, name: Bytes, tail: Remainder)
    requires var e := SectionStart(name, c.depth + 1);
             Allowed(c, e) && ValidEvent(e) && c.depth <= MAX_DEPTH && Matches(Advance(c, e), tail)
    ensures var e := SectionStart(name, c.depth + 1);
            Matches(c, Cons(e, tail)) && Uncons(Cons(e, tail)) == Front(e, tail)
  {
    var s := tail.stack;
    SplitFirst(s);
    SplitFirst(s[1..]);
    ConsReplaced(s[1..], Section(name, s[0], s[1]));
    assert [s[0], s[1]] + s[2..] == s;
  }

  /** The tree left at the cursor of an accepted message. */
  lemma {:induction false} RemainderAt(msg: Bytes, c: Cursor) returns (r: Remainder)
    requires c.offset <= |msg| && c.depth <= MAX_DEPTH && Scan(msg, c).Some?
    ensures At(msg, c, r)
    decreases |msg| - c.offset
  {
    if c.offset == |msg| {
      r := Whole(Empty);
      WholeMessage(Empty);
    } else {
      var (e, next) := Element(msg, c).value;
      ElementBytes(msg, c);
      var tail := RemainderAt(msg, next);
      r := Cons(e, tail);
      ConsAllowed(c, e, tail);
      UnconsBytes(r);
    }
  }

  /** The parser accepts exactly the encodings of trees. */
  lemma {:induction false} AcceptsExactlyTrees(msg: Bytes)
    ensures Accepts(msg) <==> exists f :: Valid(f, 0) && Encode(f, 0) == msg
  {
    if Accepts(msg) {
      var r := RemainderAt(msg, START);
      assert r == Whole(r.stack[0]);
      WholeMessage(r.stack[0]);
      assert msg[0..] == msg;
      assert Valid(r.stack[0], 0) && Encode(r.stack[0], 0) == msg;
    }
    forall f | Valid(f, 0) && Encode(f, 0) == msg
      ensures Accepts(msg)
    {
      ParseDeliversEvents(f, (s, e) => (s, Ok), 0);
    }
  }

  /** The same said of the parser itself: with a callback that writes the events down it succeeds exactly on the
      encodings of trees, and what is written down are the tree's events in order. */
  lemma {:induction false} ParserAcceptsExactly(msg: Bytes, log: seq<Event>)
    ensures Deliver(msg, START, Record, []) == (log, Ok) <==> exists f :: Valid(f, 0) && Encode(f, 0) == msg && log == Events(f, 0)
  {
    DeliverFolds(msg, START, Record, []);
    if Scan(msg, START).Some? {
      FoldRecords([], Scan(msg, START).value);
      assert [] + Scan(msg, START).value == Scan(msg, START).value;
      AcceptsExactlyTrees(msg);
      var f :| Valid(f, 0) && Encode(f, 0) == msg;
      ParseDeliversEvents(f, Record, []);
    }
    forall f | Valid(f, 0) && Encode(f, 0) == msg
      ensures Scan(msg, START) == Some(Events(f, 0))
    {
      ParseDeliversEvents(f, Record, []);
    }
  }

  /** The tree of an accepted message is unique. */
  lemma {:induction false} EncodeInjective(f: Forest, g: Forest)
    requires Valid(f, 0) && Valid(g, 0) && Encode(f, 0) == Encode(g, 0)
    ensures f == g
  {
    ParseDeliversEvents(f, (s, e) => (s, Ok), 0);
    ParseDeliversEvents(g, (s, e) => (s, Ok), 0);
    EventsInjective(f, g);
  }

  /** Encoding the delivered events, names with their lengths, gives the message back. */
  lemma {:induction false} ReencodedMessage(msg: Bytes)
    requires Accepts(msg)
    ensures ValidEvents(Scan(msg, START).value) && EventsBytes(Scan(msg, START).value) == msg
  {
    var r := RemainderAt(msg, START);
    ScanRemainder(msg, START, r);
    ReplayedEvents(r);
    assert msg[0..] == msg;
  }

  /** Giving the delivered events to the calls, which see a name up to its first NUL, gives the message back exactly if
      no delivered name holds one. */
  lemma {:induction false} ReplayReproducesMessage(msg: Bytes)
    requires Accepts(msg)
    ensures var es := Scan(msg, START).value;
            ValidEvents(AllSeen(es)) && EventsBytes(AllSeen(es)) == msg <==> WholeNames(es)
  {
    ReencodedMessage(msg);
    SeenBytes(Scan(msg, START).value);
  }

  /** A message whose names the calls cannot write: its one name is a NUL. */
  lemma {:induction false} NulNameAccepted()
    ensures Scan("\U{3}\U{1}\U{0}\U{0}\U{0}", START) == Some([KeyValue("\0", [], 0)])
    ensures !ValidEvent(Seen(KeyValue("\0", [], 0)))
  {
    hide Scan, Deliver;
    var f := Pair("\0", [], Empty);
    assert NameBytes("\0") == "\U{1}\U{0}" && ValueBytes([]) == "\U{0}\U{0}";
    assert Encode(f, 0) == "\U{3}\U{1}\U{0}\U{0}\U{0}";
    assert Events(f, 0) == [KeyValue("\0", [], 0)];
    ParseDeliversEvents(f, Record, []);
  }

  /** A list may have any number of items. */
  lemma {:induction false} AnyListAccepted(name: Bytes, items: seq<Bytes>)
    requires ValidName(name) && ValidItems(items)
    ensures Valid(List(name, items, Empty), 0) && Accepts(Encode(List(name, items, Empty), 0))
  {
    AcceptsExactlyTrees(Encode(List(name, items, Empty), 0));
  }

  // ---------- Folding a callback over a tree, element by element

  /** The data after these events, if the callback refuses none of them. */
  function Run<S>(callback: Callback<S>, data: S, es: seq<Event>): Option<S> {
    Kept(Fold(callback, data, es))
  }

  function Kept<S>(r: (S, Error)): Option<S> {
    if r.1 == Ok then Some(r.0) else None
  }

  function Then<S>(callback: Callback<S>, data: Option<S>, es: seq<Event>): Option<S> {
    if data.None? then None else Run(callback, data.value, es)
  }

  lemma {:induction false} RunConcat<S>(callback: Callback<S>, data: S, a: seq<Event>, b: seq<Event>)
    ensures Run(callback, data, a + b) == Then(callback, Run(callback, data, a), b)
  {
    FoldConcat(callback, data, a, b);
  }

  lemma {:induction false} RunOne<S>(callback: Callback<S>, data: S, e: Event)
    ensures Run(callback, data, [e]) == Kept(callback(data, e))
  {
    var (after, error) := callback(data, e);
    assert [e][1..] == [];
    assert Fold(callback, after, []) == (after, Ok);
  }

  lemma {:induction false} RunSection<S>(callback: Callback<S>, data: S, name: Bytes, body: Forest, rest: Forest, depth: nat)
    ensures Run(callback, data, Events(Section(name, body, rest), depth)) ==
            Then(callback,
                 Then(callback,
                      Then(callback, Kept(callback(data, SectionStart(name, depth + 1))), Events(body, depth + 1)),
                      [SectionEnd(depth + 1)]),
                 Events(rest, depth))
  {
    var start := [SectionStart(name, depth + 1)];
    RunConcat(callback, data, start + Events(body, depth + 1) + [SectionEnd(depth + 1)], Events(rest, depth));
    RunConcat(callback, data, start + Events(body, depth + 1), [SectionEnd(depth + 1)]);
    RunConcat(callback, data, start, Events(body, depth + 1));
    RunOne(callback, data, SectionStart(name, depth + 1));
  }

  lemma {:induction false} RunPair<S>(callback: Callback<S>, data: S, name: Bytes, value: Bytes, rest: Forest, depth: nat)
    ensures Run(callback, data, Events(Pair(name, value, rest), depth)) ==
            Then(callback, Kept(callback(data, KeyValue(name, value, depth))), Events(rest, depth))
  {
    RunConcat(callback, data, [KeyValue(name, value, depth)], Events(rest, depth));
    RunOne(callback, data, KeyValue(name, value, depth));
  }

  lemma {:induction false} RunList<S>(callback: Callback<S>, data: S, name: Bytes, items: seq<Bytes>, rest: Forest, depth: nat)
    ensures Run(callback, data, Events(List(name, items, rest), depth)) ==
            Then(callback,
                 Then(callback, Kept(callback(data, ListStart(name, depth))), ItemEvents(items, depth)),
                 Events(rest, depth))
  {
    RunConcat(callback, data, [ListStart(name, depth)] + ItemEvents(items, depth), Events(rest, depth));
    RunConcat(callback, data, [ListStart(name, depth)], ItemEvents(items, depth));
    RunOne(callback, data, ListStart(name, depth));
  }

  lemma {:induction false} RunItems<S>(callback: Callback<S>, data: S, items: seq<Bytes>, depth: nat)
    requires items != []
    ensures Run(callback, data, ItemEvents(items, depth)) ==
            Then(callback, Kept(callback(data, ListItem(items[0], depth))), ItemEvents(items[1..], depth))
  {
    RunConcat(callback, data, [ListItem(items[0], depth)], ItemEvents(items[1..], depth));
    RunOne(callback, data, ListItem(items[0], depth));
  }
}
