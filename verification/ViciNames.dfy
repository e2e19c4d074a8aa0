/** The names of a message as the encoder's calls see them.  A call takes a name as a C string, so it sees what stands
    before the first NUL; the parser hands out names with their lengths, NULs included. */
module ViciNames {
  import opened Core
  import opened ViciGrammar

  /** What an `AddVici*` call sees of an event. */
  function Seen(e: Event): Event {
    match e
    case SectionStart(name, depth) => SectionStart(CText(name), depth)
    case KeyValue(name, value, depth) => KeyValue(CText(name), value, depth)
    case ListStart(name, depth) => ListStart(CText(name), depth)
    case _ => e
  }

  function AllSeen(es: seq<Event>): (r: seq<Event>)
    ensures |r| == |es| && forall i :: 0 <= i < |es| ==> r[i] == Seen(es[i])
  {
    if es == [] then [] else [Seen(es[0])] + AllSeen(es[1..])
  }

  /** The name has no NUL, if there is one. */
  predicate WholeName(e: Event) {
    match e
    case SectionStart(name, _) => '\0' !in name
    case KeyValue(name, _, _) => '\0' !in name
    case ListStart(name, _) => '\0' !in name
    case _ => true
  }

  predicate WholeNames(es: seq<Event>) {
    forall i :: 0 <= i < |es| ==> WholeName(es[i])
  }

  lemma {:induction false} SeenSame(e: Event)
    ensures Seen(e) == e <==> WholeName(e)
    ensures ValidEvent(e) && ValidEvent(Seen(e)) ==> |EventBytes(Seen(e))| <= |EventBytes(e)|
    ensures ValidEvent(e) && ValidEvent(Seen(e)) && !WholeName(e) ==> |EventBytes(Seen(e))| < |EventBytes(e)|
  {
  }

  /** The calls write the bytes of the events exactly if no name holds a NUL; otherwise what they write is shorter. */
  lemma {:induction false} SeenBytes(es: seq<Event>)
    requires ValidEvents(es)
    ensures AllSeen(es) == es <==> WholeNames(es)
    ensures ValidEvents(AllSeen(es)) ==> |EventsBytes(AllSeen(es))| <= |EventsBytes(es)|
    ensures ValidEvents(AllSeen(es)) && !WholeNames(es) ==> |EventsBytes(AllSeen(es))| < |EventsBytes(es)|
    decreases |es|
  {
    if es != [] {
      SeenSame(es[0]);
      SeenBytes(es[1..]);
      assert AllSeen(es) == [Seen(es[0])] + AllSeen(es[1..]);
      assert AllSeen(es)[1..] == AllSeen(es[1..]);
      assert forall i :: 1 <= i < |es| ==> es[i] == es[1..][i - 1];
      assert WholeNames(es) <==> WholeName(es[0]) && WholeNames(es[1..]);
    }
  }

  /** The tree that the calls see. */
  function Spoken(f: Forest): Forest {
    match f
    case Empty => Empty
    case Section(name, body, rest) => Section(CText(name), Spoken(body), Spoken(rest))
    case Pair(name, value, rest) => Pair(CText(name), value, Spoken(rest))
    case List(name, items, rest) => List(CText(name), items, Spoken(rest))
  }

  /** No name of the tree holds a NUL. */
  predicate NulFree(f: Forest) {
    match f
    case Empty => true
    case Section(name, body, rest) => '\0' !in name && NulFree(body) && NulFree(rest)
    case Pair(name, _, rest) => '\0' !in name && NulFree(rest)
    case List(name, _, rest) => '\0' !in name && NulFree(rest)
  }

  lemma {:induction false} SpokenSame(f: Forest)
    ensures Spoken(f) == f <==> NulFree(f)
    decreases f
  {
    match f
    case Empty =>
    case Section(name, body, rest) =>
      SpokenSame(body);
      SpokenSame(rest);
    case Pair(name, value, rest) => SpokenSame(rest);
    case List(name, items, rest) => SpokenSame(rest);
  }

  lemma {:induction false} SeenConcat(a: seq<Event>, b: seq<Event>)
    ensures AllSeen(a + b) == AllSeen(a) + AllSeen(b)
  {
  }

  lemma {:induction false} SeenOne(e: Event)
    ensures AllSeen([e]) == [Seen(e)]
  {
  }

  lemma {:induction false} SeenItems(items: seq<Bytes>, depth: nat)
    ensures AllSeen(ItemEvents(items, depth)) == ItemEvents(items, depth)
    decreases |items|
  {
    if items == [] {
      SeenOne(ListEnd(depth));
    } else {
      SeenOne(ListItem(items[0], depth));
      SeenItems(items[1..], depth);
      SeenConcat([ListItem(items[0], depth)], ItemEvents(items[1..], depth));
    }
  }

  /** What the calls see of a tree's events are the events of the tree they see. */
  lemma {:induction false} SpokenEvents(f: Forest, depth: nat)
    ensures Events(Spoken(f), depth) == AllSeen(Events(f, depth))
    decreases f
  {
    hide AllSeen;
    match f
    case Empty =>
      assert AllSeen([]) == [];
    case Section(name, body, rest) =>
      SpokenEvents(body, depth + 1);
      SpokenEvents(rest, depth);
      var first, last := SectionStart(name, depth + 1), SectionEnd(depth + 1);
      SeenOne(first);
      SeenOne(last);
      SeenConcat([first] + Events(body, depth + 1) + [last], Events(rest, depth));
      SeenConcat([first] + Events(body, depth + 1), [last]);
      SeenConcat([first], Events(body, depth + 1));
    case Pair(name, value, rest) =>
      SpokenEvents(rest, depth);
      SeenOne(KeyValue(name, value, depth));
      SeenConcat([KeyValue(name, value, depth)], Events(rest, depth));
    case List(name, items, rest) =>
      SpokenEvents(rest, depth);
      SeenItems(items, depth);
      SeenOne(ListStart(name, depth));
      SeenConcat([ListStart(name, depth)] + ItemEvents(items, depth), Events(rest, depth));
      SeenConcat([ListStart(name, depth)], ItemEvents(items, depth));
  }

  lemma {:induction false} ValidConcat(a: seq<Event>, b: seq<Event>)
    ensures ValidEvents(a + b) <==> ValidEvents(a) && ValidEvents(b)
  {
    if ValidEvents(a + b) {
      assert forall i :: 0 <= i < |a| ==> a[i] == (a + b)[i];
      assert forall i :: 0 <= i < |b| ==> b[i] == (a + b)[|a| + i];
    }
  }

  lemma {:induction false} ValidItemEvents(items: seq<Bytes>, depth: nat)
    requires ValidItems(items)
    ensures ValidEvents(ItemEvents(items, depth))
    decreases |items|
  {
    if items != [] {
      ValidItemEvents(items[1..], depth);
      ValidConcat([ListItem(items[0], depth)], ItemEvents(items[1..], depth));
    }
  }

  lemma {:induction false} ValidOne(e: Event)
    ensures ValidEvents([e]) <==> ValidEvent(e)
  {
    assert [e][0] == e;
  }

  /** The calls accept what they see of a tree's events exactly if the tree that they see is within the limits. */
  lemma {:induction false} SpokenValid(f: Forest, depth: nat)
    requires Valid(f, depth)
    ensures Valid(Spoken(f), depth) <==> ValidEvents(Events(Spoken(f), depth))
    decreases f
  {
    hide ValidEvents;
    match f
    case Empty =>
      NothingValid();
    case Section(name, body, rest) =>
      SpokenValid(body, depth + 1);
      SpokenValid(rest, depth);
      var first, inner, last := SectionStart(CText(name), depth + 1), Events(Spoken(body), depth + 1), SectionEnd(depth + 1);
      ValidOne(first);
      ValidOne(last);
      ValidConcat([first] + inner + [last], Events(Spoken(rest), depth));
      ValidConcat([first] + inner, [last]);
      ValidConcat([first], inner);
    case Pair(name, value, rest) =>
      SpokenValid(rest, depth);
      ValidOne(KeyValue(CText(name), value, depth));
      ValidConcat([KeyValue(CText(name), value, depth)], Events(Spoken(rest), depth));
    case List(name, items, rest) =>
      SpokenValid(rest, depth);
      ValidItemEvents(items, depth);
      ValidOne(ListStart(CText(name), depth));
      ValidConcat([ListStart(CText(name), depth)] + ItemEvents(items, depth), Events(Spoken(rest), depth));
      ValidConcat([ListStart(CText(name), depth)], ItemEvents(items, depth));
  }

  lemma {:induction false} NothingValid()
    ensures ValidEvents([])
  {
  }
}
