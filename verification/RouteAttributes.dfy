/** Routing attributes: the aligned attribute walk, the values collected on it, and the first next hop of a
    multipath route. */
module RouteAttributes {
  import opened Core
  import opened Folding
  import opened Netlink

  const ATTRIBUTE_HEADER: nat := 4
  const NEXT_HOP_LENGTH: nat := 8

  const RTA_DST: nat := 1
  const RTA_OIF: nat := 4
  const RTA_GATEWAY: nat := 5
  const RTA_PRIORITY: nat := 6
  const RTA_PREFSRC: nat := 7
  const RTA_MULTIPATH: nat := 9
  const RTA_TABLE: nat := 15

  // ---------- Attributes

  datatype Attribute = Attribute(kind: nat, data: Bytes)

  // An attribute as it stands in a message: with the bytes that pad it.
  datatype Padded = Padded(attribute: Attribute, pad: Bytes) {
    function Length(): nat {
      ATTRIBUTE_HEADER + |attribute.data|
    }

    predicate Valid() {
      attribute.kind <= U16_MAX && Length() <= U16_MAX && Length() + |pad| == Align4(Length())
    }
  }

  function EncodeAttribute(p: Padded): (b: Bytes)
    requires p.Valid()
    ensures |b| == Align4(p.Length())
  {
    U16Little(p.Length()) + U16Little(p.attribute.kind) + p.attribute.data + p.pad
  }

  predicate AllPadded(ps: seq<Padded>) {
    forall i :: 0 <= i < |ps| ==> ps[i].Valid()
  }

  function AttributeStream(ps: seq<Padded>): Bytes
    requires AllPadded(ps)
  {
    if ps == [] then [] else EncodeAttribute(ps[0]) + AttributeStream(ps[1..])
  }

  function AttributesOf(ps: seq<Padded>): seq<Attribute> {
    if ps == [] then [] else [ps[0].attribute] + AttributesOf(ps[1..])
  }

  /** `RTA_OK` and the attribute it lets through. */
  function AttributeAt(b: Bytes, at: nat): (a: Option<Attribute>)
    requires at <= |b|
    ensures a.Some? ==> ATTRIBUTE_HEADER + |a.value.data| <= |b| - at
  {
    if |b| - at < ATTRIBUTE_HEADER then None
    else
      var length := U16At(b, at);
      if length < ATTRIBUTE_HEADER || length > |b| - at then None
      else Some(Attribute(U16At(b, at + 2), b[at + ATTRIBUTE_HEADER..at + length]))
  }

  type Visitor<!S> = Fallible<S, Attribute>

  /** The meaning of an attribute loop from an offset on: it must end with nothing left. */
  function Visit<S>(b: Bytes, at: nat, visitor: Visitor<S>, data: S): (S, Error)
    requires at <= |b|
    decreases |b| - at
  {
    var a := AttributeAt(b, at);
    if a.None? then (data, if at == |b| then Ok else NetlinkParse)
    else
      var (after, error) := visitor(data, a.value);
      var step := Align4(ATTRIBUTE_HEADER + |a.value.data|);
      if error != Ok then (after, error)
      else if step > |b| - at then (after, NetlinkParse)     // the length goes below zero
      else Visit(b, at + step, visitor, after)
  }

  // ---------- Route values

  datatype Values = Values(destination: Option<Bytes>, gateway: Option<Bytes>, source: Option<Bytes>,
                           interface: nat, metric: nat, table: nat)

  function NoValues(table: nat): Values {
    Values(None, None, None, 0, 0, table)
  }

  /** `ReadRouteUint32`. */
  function ReadUint32(data: Bytes): Option<nat> {
    if |data| == 4 then Some(U32At(data, 0)) else None
  }

  function NestedAttribute(v: Values, a: Attribute): (Values, Error) {
    (if a.kind == RTA_GATEWAY then v.(gateway := Some(a.data)) else v, Ok)
  }

  /** `ParseRouteMultipath`: the first next hop, whose attributes must end with nothing left. */
  function Multipath(v: Values, data: Bytes): (Values, Error) {
    if |data| < NEXT_HOP_LENGTH then (v, NetlinkParse)
    else
      var length := U16At(data, 0);
      if length < NEXT_HOP_LENGTH || length > |data| then (v, NetlinkParse)
      else Visit(data[NEXT_HOP_LENGTH..length], 0, NestedAttribute, v.(interface := U32At(data, 4)))
  }

  /** One turn of the loop in `ParseRouteAttributes`. */
  function RouteAttribute(v: Values, a: Attribute): (Values, Error) {
    if a.kind == RTA_DST then (v.(destination := Some(a.data)), Ok)
    else if a.kind == RTA_GATEWAY then (v.(gateway := Some(a.data)), Ok)
    else if a.kind == RTA_PREFSRC then (v.(source := Some(a.data)), Ok)
    else if a.kind == RTA_OIF then
      var n := ReadUint32(a.data); if n.None? then (v, NetlinkParse) else (v.(interface := n.value), Ok)
    else if a.kind == RTA_PRIORITY then
      var n := ReadUint32(a.data); if n.None? then (v, NetlinkParse) else (v.(metric := n.value), Ok)
    else if a.kind == RTA_TABLE then
      var n := ReadUint32(a.data); if n.None? then (v, NetlinkParse) else (v.(table := n.value), Ok)
    else if a.kind == RTA_MULTIPATH && v.interface == 0 then Multipath(v, a.data)
    else (v, Ok)
  }

  /** The loop over the attributes nested in a next hop. */
  method ParseMultipath(data: Bytes, before: Values) returns (v: Values, error: Error)
    ensures (v, error) == Multipath(before, data)
  {
    v, error := before, Ok;
    if |data| < NEXT_HOP_LENGTH || U16At(data, 0) < NEXT_HOP_LENGTH || U16At(data, 0) > |data| {
      return before, NetlinkParse;
    }
    v := v.(interface := U32At(data, 4));
    var nested := data[NEXT_HOP_LENGTH..U16At(data, 0)];
    ghost var start := v;
    var remaining: int := |nested|;
    while ATTRIBUTE_HEADER <= remaining && AttributeAt(nested, |nested| - remaining).Some?
      invariant remaining <= |nested|
      invariant Visit(nested, 0, NestedAttribute, start) ==
                if remaining >= 0 then Visit(nested, |nested| - remaining, NestedAttribute, v) else (v, NetlinkParse)
    {
      var a := AttributeAt(nested, |nested| - remaining).value;
      if a.kind == RTA_GATEWAY {
        v := v.(gateway := Some(a.data));
      }
      remaining := remaining - Align4(ATTRIBUTE_HEADER + |a.data|);
    }
    if remaining != 0 {
      error := NetlinkParse;
    }
  }

  /** `ParseRouteAttributes` on the attributes behind the route header. */
  method ParseAttributes(b: Bytes, table: nat) returns (v: Values, error: Error)
    ensures (v, error) == Visit(b, 0, RouteAttribute, NoValues(table))
  {
    v, error := NoValues(table), Ok;
    var remaining: int := |b|;
    while ATTRIBUTE_HEADER <= remaining && AttributeAt(b, |b| - remaining).Some? && error == Ok
      invariant remaining <= |b|
      invariant Visit(b, 0, RouteAttribute, NoValues(table)) ==
                if error != Ok then (v, error)
                else if remaining >= 0 then Visit(b, |b| - remaining, RouteAttribute, v) else (v, NetlinkParse)
      decreases remaining, error == Ok
    {
      var a := AttributeAt(b, |b| - remaining).value;
      ghost var before := v;
      v, error := ApplyAttribute(v, a);
      remaining := remaining - Align4(ATTRIBUTE_HEADER + |a.data|);
    }
    if error == Ok && remaining != 0 {
      error := NetlinkParse;
    }
  }

  /** The switch over the attribute's kind. */
  method ApplyAttribute(before: Values, a: Attribute) returns (v: Values, error: Error)
    ensures (v, error) == RouteAttribute(before, a)
  {
    v, error := before, Ok;
    if a.kind == RTA_DST {
      v := v.(destination := Some(a.data));
    } else if a.kind == RTA_GATEWAY {
      v := v.(gateway := Some(a.data));
    } else if a.kind == RTA_PREFSRC {
      v := v.(source := Some(a.data));
    } else if a.kind == RTA_OIF || a.kind == RTA_PRIORITY || a.kind == RTA_TABLE {
      if |a.data| != 4 {
        error := NetlinkParse;
      } else {
        var n := U32At(a.data, 0);
        v := if a.kind == RTA_OIF then v.(interface := n) else if a.kind == RTA_PRIORITY then v.(metric := n) else v.(table := n);
      }
    } else if a.kind == RTA_MULTIPATH && v.interface == 0 {
      v, error := ParseMultipath(a.data, v);
    }
  }

  // ---------- Reading back what was written

  lemma {:induction false} AttributeBack(b: Bytes, at: nat, p: Padded, rest: Bytes)
    requires p.Valid() && at <= |b| && b[at..] == EncodeAttribute(p) + rest
    ensures AttributeAt(b, at) == Some(p.attribute)
    ensures at + Align4(p.Length()) <= |b| && b[at + Align4(p.Length())..] == rest
  {
    var e := EncodeAttribute(p);
    assert forall k :: 0 <= k < ATTRIBUTE_HEADER ==> b[at + k] == b[at..][k] == e[k];
    assert U16At(b, at) == U16At(U16Little(p.Length()), 0);
    assert U16At(b, at + 2) == U16At(U16Little(p.attribute.kind), 0);
    assert b[at + ATTRIBUTE_HEADER..at + p.Length()] == b[at..][ATTRIBUTE_HEADER..p.Length()] == p.attribute.data;
    assert b[at + Align4(p.Length())..] == b[at..][Align4(p.Length())..];
  }

  lemma {:induction false} VisitEnd<S>(b: Bytes, visitor: Visitor<S>, data: S)
    ensures Visit(b, |b|, visitor, data) == (data, Ok)
  {
  }

  lemma {:induction false} VisitStep<S>(b: Bytes, at: nat, p: Padded, rest: Bytes, visitor: Visitor<S>, data: S)
    requires p.Valid() && at <= |b| && b[at..] == EncodeAttribute(p) + rest
    ensures at + Align4(p.Length()) <= |b| && b[at + Align4(p.Length())..] == rest
    ensures var (after, error) := visitor(data, p.attribute);
            Visit(b, at, visitor, data) ==
            if error != Ok then (after, error) else Visit(b, at + Align4(p.Length()), visitor, after)
  {
    hide EncodeAttribute;
    AttributeBack(b, at, p, rest);
  }

  /** Visiting a stream of padded attributes folds the visitor over them, whatever the padding holds. */
  lemma {:induction false} VisitStream<S>(b: Bytes, at: nat, ps: seq<Padded>, visitor: Visitor<S>, data: S)
    requires AllPadded(ps) && at <= |b| && b[at..] == AttributeStream(ps)
    ensures Visit(b, at, visitor, data) == Fold(visitor, data, AttributesOf(ps))
    decreases |ps|
  {
    hide EncodeAttribute, Visit;
    if ps == [] {
      assert |b[at..]| == 0;
      VisitEnd(b, visitor, data);
    } else {
      var p := ps[0];
      VisitStep(b, at, p, AttributeStream(ps[1..]), visitor, data);
      var (after, error) := visitor(data, p.attribute);
      assert AttributesOf(ps)[1..] == AttributesOf(ps[1..]);
      if error == Ok {
        VisitStream(b, at + Align4(p.Length()), ps[1..], visitor, after);
      }
    }
  }

  lemma {:induction false} AttributeCut(b: Bytes, at: nat) returns (p: Padded)
    requires at <= |b| && AttributeAt(b, at).Some?
    requires at + Align4(ATTRIBUTE_HEADER + |AttributeAt(b, at).value.data|) <= |b|
    ensures p.Valid() && p.attribute == AttributeAt(b, at).value
    ensures b[at..] == EncodeAttribute(p) + b[at + Align4(p.Length())..]
  {
    var a := AttributeAt(b, at).value;
    var end, next := at + ATTRIBUTE_HEADER + |a.data|, at + Align4(ATTRIBUTE_HEADER + |a.data|);
    p := Padded(a, b[end..next]);
    U16Back(b, at);
    U16Back(b, at + 2);
    assert b[at..] == b[at..at + 2] + b[at + 2..at + 4] + b[at + 4..end] + b[end..next] + b[next..];
  }

  /** The attributes of a payload that was visited to its end. */
  lemma {:induction false} VisitedAttributes<S>(b: Bytes, at: nat, visitor: Visitor<S>, data: S) returns (ps: seq<Padded>)
    requires at <= |b| && Visit(b, at, visitor, data).1 == Ok
    ensures AllPadded(ps) && AttributeStream(ps) == b[at..]
    decreases |b| - at
  {
    hide EncodeAttribute;
    if AttributeAt(b, at).None? {
      ps := [];
      assert b[at..] == [];
    } else {
      var p := AttributeCut(b, at);
      var rest := VisitedAttributes(b, at + Align4(p.Length()), visitor, visitor(data, p.attribute).0);
      ps := [p] + rest;
      assert ps[1..] == rest;
    }
  }

  /** An attribute loop ends with zero bytes left and no error exactly if the payload is a sequence of attributes
      padded to four bytes and the visitor refuses none of them. */
  lemma {:induction false} AcceptsExactly<S>(b: Bytes, visitor: Visitor<S>, data: S)
    ensures Visit(b, 0, visitor, data).1 == Ok <==>
            exists ps :: AllPadded(ps) && AttributeStream(ps) == b && Fold(visitor, data, AttributesOf(ps)).1 == Ok
  {
    hide Visit, Fold;
    assert b[0..] == b;
    if Visit(b, 0, visitor, data).1 == Ok {
      var ps := VisitedAttributes(b, 0, visitor, data);
      VisitStream(b, 0, ps, visitor, data);
    }
    forall ps | AllPadded(ps) && AttributeStream(ps) == b && Fold(visitor, data, AttributesOf(ps)).1 == Ok
      ensures Visit(b, 0, visitor, data).1 == Ok
    {
      VisitStream(b, 0, ps, visitor, data);
    }
  }

  /** A next hop's attributes, of which none is refused, are accepted exactly if they are padded attributes. */
  lemma {:induction false} EndsExactly(b: Bytes, v: Values)
    ensures Visit(b, 0, NestedAttribute, v).1 == Ok <==> exists ps :: AllPadded(ps) && AttributeStream(ps) == b
  {
    hide Visit, Fold;
    AcceptsExactly(b, NestedAttribute, v);
    forall ps | AllPadded(ps) && AttributeStream(ps) == b
      ensures Fold(NestedAttribute, v, AttributesOf(ps)).1 == Ok
    {
      NestedAccepted(v, AttributesOf(ps));
    }
  }

  lemma {:induction false} NestedAccepted(v: Values, attributes: seq<Attribute>)
    ensures Fold(NestedAttribute, v, attributes).1 == Ok
    decreases |attributes|
  {
    if attributes != [] {
      NestedAccepted(NestedAttribute(v, attributes[0]).0, attributes[1..]);
    }
  }

  // ---------- The last attribute of a kind wins

  function LastOf(attributes: seq<Attribute>, kind: nat): Option<Bytes> {
    if attributes == [] then None
    else
      var later := LastOf(attributes[1..], kind);
      if later.Some? then later else if attributes[0].kind == kind then Some(attributes[0].data) else None
  }

  function NumberOf(attributes: seq<Attribute>, kind: nat, default: nat): nat {
    var last := LastOf(attributes, kind);
    if last.None? || |last.value| != 4 then default else U32At(last.value, 0)
  }

  /** Numbers have four bytes, and there is one way out. */
  predicate Plain(a: Attribute) {
    && (a.kind == RTA_OIF || a.kind == RTA_PRIORITY || a.kind == RTA_TABLE ==> |a.data| == 4)
    && a.kind != RTA_MULTIPATH
  }

  predicate AllPlain(attributes: seq<Attribute>) {
    forall i :: 0 <= i < |attributes| ==> Plain(attributes[i])
  }

  function Or(later: Option<Bytes>, earlier: Option<Bytes>): Option<Bytes> {
    if later.Some? then later else earlier
  }

  lemma {:induction false} LastWins(v: Values, attributes: seq<Attribute>)
    requires AllPlain(attributes)
    ensures Fold(RouteAttribute, v, attributes) ==
            (Values(Or(LastOf(attributes, RTA_DST), v.destination), Or(LastOf(attributes, RTA_GATEWAY), v.gateway),
                    Or(LastOf(attributes, RTA_PREFSRC), v.source), NumberOf(attributes, RTA_OIF, v.interface),
                    NumberOf(attributes, RTA_PRIORITY, v.metric), NumberOf(attributes, RTA_TABLE, v.table)), Ok)
    decreases |attributes|
  {
    if attributes != [] {
      var rest := attributes[1..];
      LastPlain(rest, RTA_OIF);
      LastPlain(rest, RTA_PRIORITY);
      LastPlain(rest, RTA_TABLE);
      LastWins(RouteAttribute(v, attributes[0]).0, rest);
    }
  }

  lemma {:induction false} LastPlain(attributes: seq<Attribute>, kind: nat)
    requires AllPlain(attributes) && (kind == RTA_OIF || kind == RTA_PRIORITY || kind == RTA_TABLE)
    ensures LastOf(attributes, kind).Some? ==> |LastOf(attributes, kind).value| == 4
  {
    if attributes != [] {
      LastPlain(attributes[1..], kind);
    }
  }

  /** What plain attributes say about a route. */
  function ValuesOf(attributes: seq<Attribute>, table: nat): Values {
    Values(LastOf(attributes, RTA_DST), LastOf(attributes, RTA_GATEWAY), LastOf(attributes, RTA_PREFSRC),
           NumberOf(attributes, RTA_OIF, 0), NumberOf(attributes, RTA_PRIORITY, 0), NumberOf(attributes, RTA_TABLE, table))
  }

  // ---------- Routes with next hops

  // The first next hop of a multipath attribute: two octets that nobody reads, its interface, its attributes.
  datatype Hop = Hop(flags: byte, hops: byte, interface: nat, nested: seq<Padded>) {
    predicate Valid() {
      interface <= U32_MAX && AllPadded(nested) && Length() <= U16_MAX
    }

    function Length(): nat
      requires AllPadded(nested)
    {
      NEXT_HOP_LENGTH + |AttributeStream(nested)|
    }
  }

  function EncodeHop(h: Hop): (b: Bytes)
    requires h.Valid()
    ensures |b| == h.Length()
  {
    U16Little(h.Length()) + [h.flags, h.hops] + U32Little(h.interface) + AttributeStream(h.nested)
  }

  // An attribute of a route: a plain one, a multipath one with its first next hop and whatever other hops stand behind
  // it, or a multipath one that is not looked at, with any bytes.
  datatype Entry = Single(attribute: Attribute) | Multi(hop: Hop, others: Bytes) | Skipped(data: Bytes) {
    predicate Valid() {
      match this
      case Single(attribute) => Plain(attribute)
      case Multi(hop, _) => hop.Valid()
      case Skipped(_) => true
    }
  }

  predicate AllEntries(es: seq<Entry>) {
    forall i :: 0 <= i < |es| ==> es[i].Valid()
  }

  function AttributeOf(e: Entry): Attribute
    requires e.Valid()
  {
    match e
    case Single(attribute) => attribute
    case Multi(hop, others) => Attribute(RTA_MULTIPATH, EncodeHop(hop) + others)
    case Skipped(data) => Attribute(RTA_MULTIPATH, data)
  }

  function EntryAttributes(es: seq<Entry>): seq<Attribute>
    requires AllEntries(es)
  {
    if es == [] then [] else [AttributeOf(es[0])] + EntryAttributes(es[1..])
  }

  /** The interface that is known behind an entry. */
  function InterfaceBehind(e: Entry, interface: nat): nat
    requires e.Valid()
  {
    match e
    case Single(a) => if a.kind == RTA_OIF then U32At(a.data, 0) else interface
    case Multi(hop, _) => if interface != 0 then interface else hop.interface
    case Skipped(_) => interface
  }

  /** A multipath attribute is not looked at only behind a known interface. */
  predicate Fits(es: seq<Entry>, interface: nat)
    requires AllEntries(es)
  {
    es != [] ==> (es[0].Skipped? ==> interface != 0) && Fits(es[1..], InterfaceBehind(es[0], interface))
  }

  function Gateways(attributes: seq<Attribute>): seq<Attribute> {
    if attributes == [] then []
    else (if attributes[0].kind == RTA_GATEWAY then [attributes[0]] else []) + Gateways(attributes[1..])
  }

  /** What a first next hop stands for: its interface and its gateways. */
  function HopAttributes(h: Hop): seq<Attribute>
    requires h.Valid()
  {
    [Attribute(RTA_OIF, U32Little(h.interface))] + Gateways(AttributesOf(h.nested))
  }

  /** The plain attributes that a route's entries stand for.  A next hop counts only while no interface is known. */
  function Flat(es: seq<Entry>, interface: nat): seq<Attribute>
    requires AllEntries(es)
  {
    if es == [] then []
    else
      (if es[0].Single? then [es[0].attribute]
       else if es[0].Multi? && interface == 0 then HopAttributes(es[0].hop)
       else [])
      + Flat(es[1..], InterfaceBehind(es[0], interface))
  }

  lemma {:induction false} GatewaysFold(v: Values, attributes: seq<Attribute>)
    ensures Fold(NestedAttribute, v, attributes) == Fold(RouteAttribute, v, Gateways(attributes))
    ensures AllPlain(Gateways(attributes)) && Fold(RouteAttribute, v, Gateways(attributes)).1 == Ok
    ensures Fold(RouteAttribute, v, Gateways(attributes)).0.interface == v.interface
    decreases |attributes|
  {
    if attributes != [] {
      var a, rest := attributes[0], Gateways(attributes[1..]);
      GatewaysFold(NestedAttribute(v, a).0, attributes[1..]);
      assert Gateways(attributes) == (if a.kind == RTA_GATEWAY then [a] + rest else rest);
      assert a.kind == RTA_GATEWAY ==> ([a] + rest)[1..] == rest;
    }
  }

  lemma {:induction false} HopBack(h: Hop, others: Bytes)
    requires h.Valid()
    ensures var data := EncodeHop(h) + others;
            && U16At(data, 0) == h.Length() <= |data| && U32At(data, 4) == h.interface
            && data[NEXT_HOP_LENGTH..h.Length()] == AttributeStream(h.nested)
  {
    var length, interface, nested := U16Little(h.Length()), U32Little(h.interface), AttributeStream(h.nested);
    var data := EncodeHop(h) + others;
    assert data[0] == length[0] && data[1] == length[1];
    assert data[4] == interface[0] && data[5] == interface[1] && data[6] == interface[2] && data[7] == interface[3];
    assert U32At(data, 4) == U32At(interface, 0);
  }

  /** Reading a first next hop is reading what it stands for. */
  lemma {:induction false} HopReads(v: Values, h: Hop, others: Bytes)
    requires h.Valid()
    ensures Multipath(v, EncodeHop(h) + others) == Fold(RouteAttribute, v, HopAttributes(h))
    ensures AllPlain(HopAttributes(h)) && Multipath(v, EncodeHop(h) + others).1 == Ok
    ensures Multipath(v, EncodeHop(h) + others).0.interface == h.interface
  {
    hide Visit, Fold, EncodeHop;
    var data, start := EncodeHop(h) + others, v.(interface := h.interface);
    var oif, gateways := Attribute(RTA_OIF, U32Little(h.interface)), Gateways(AttributesOf(h.nested));
    HopBack(h, others);
    assert AttributeStream(h.nested)[0..] == AttributeStream(h.nested);
    VisitStream(AttributeStream(h.nested), 0, h.nested, NestedAttribute, start);
    GatewaysFold(start, AttributesOf(h.nested));
    FoldFirst(v, oif, gateways);
  }

  lemma {:induction false} FoldFirst(v: Values, a: Attribute, rest: seq<Attribute>)
    ensures Fold(RouteAttribute, v, [a] + rest) ==
            var (after, error) := RouteAttribute(v, a);
            if error != Ok then (after, error) else Fold(RouteAttribute, after, rest)
  {
    assert ([a] + rest)[1..] == rest;
  }

  lemma {:induction false} PlainMore(a: seq<Attribute>, b: seq<Attribute>)
    requires AllPlain(a) && AllPlain(b)
    ensures AllPlain(a + b)
  {
  }

  /** Reading a route's entries is reading the plain attributes that they stand for. */
  lemma {:induction false} EntriesFold(v: Values, es: seq<Entry>)
    requires AllEntries(es) && Fits(es, v.interface)
    ensures AllPlain(Flat(es, v.interface))
    ensures Fold(RouteAttribute, v, EntryAttributes(es)) == Fold(RouteAttribute, v, Flat(es, v.interface))
    decreases |es|
  {
    hide Fold, Multipath, EncodeHop, HopAttributes;
    if es != [] {
      var e, rest := es[0], es[1..];
      FoldFirst(v, AttributeOf(e), EntryAttributes(rest));
      if e.Single? {
        var after := RouteAttribute(v, e.attribute).0;
        EntriesFold(after, rest);
        FoldFirst(v, e.attribute, Flat(rest, after.interface));
        PlainMore([e.attribute], Flat(rest, after.interface));
      } else if v.interface != 0 {
        EntriesFold(v, rest);
        assert [] + Flat(rest, v.interface) == Flat(rest, v.interface);
      } else {
        var after := Multipath(v, EncodeHop(e.hop) + e.others).0;
        HopReads(v, e.hop, e.others);
        EntriesFold(after, rest);
        FoldConcat(RouteAttribute, v, HopAttributes(e.hop), Flat(rest, after.interface));
        PlainMore(HopAttributes(e.hop), Flat(rest, after.interface));
      }
    }
  }

  /** A route with any number of multipath attributes reads back with the last one of each kind, where a first next
      hop stands for its interface and its gateways, and for nothing if an interface is already known. */
  lemma {:induction false} RouteReads(ps: seq<Padded>, es: seq<Entry>, table: nat)
    requires AllPadded(ps) && AllEntries(es) && Fits(es, 0) && AttributesOf(ps) == EntryAttributes(es)
    ensures Visit(AttributeStream(ps), 0, RouteAttribute, NoValues(table)) == (ValuesOf(Flat(es, 0), table), Ok)
  {
    hide Visit, Fold;
    assert AttributeStream(ps)[0..] == AttributeStream(ps);
    VisitStream(AttributeStream(ps), 0, ps, RouteAttribute, NoValues(table));
    EntriesFold(NoValues(table), es);
    LastWins(NoValues(table), Flat(es, 0));
  }

  /** The first next hop of a multipath attribute that was read. */
  lemma {:induction false} HopCut(v: Values, data: Bytes) returns (h: Hop, others: Bytes)
    requires Multipath(v, data).1 == Ok
    ensures h.Valid() && EncodeHop(h) + others == data
  {
    hide Visit;
    var length := U16At(data, 0);
    var inner := data[NEXT_HOP_LENGTH..length];
    var nested := VisitedAttributes(inner, 0, NestedAttribute, v.(interface := U32At(data, 4)));
    assert inner[0..] == inner;
    h, others := Hop(data[2], data[3], U32At(data, 4), nested), data[length..];
    U16Back(data, 0);
    U32Back(data, 4);
    assert data == data[0..2] + [data[2], data[3]] + data[4..8] + inner + others;
  }

  /** The entries of attributes that were read without an error. */
  lemma {:induction false} ReadEntries(v: Values, attributes: seq<Attribute>) returns (es: seq<Entry>)
    requires Fold(RouteAttribute, v, attributes).1 == Ok
    ensures AllEntries(es) && Fits(es, v.interface) && EntryAttributes(es) == attributes
    decreases |attributes|
  {
    hide Multipath, EncodeHop;
    if attributes == [] {
      es := [];
    } else {
      var a := attributes[0];
      var (after, error) := RouteAttribute(v, a);
      var rest := ReadEntries(after, attributes[1..]);
      var e := Single(a);
      if a.kind == RTA_MULTIPATH && v.interface != 0 {
        e := Skipped(a.data);
      } else if a.kind == RTA_MULTIPATH {
        var h, others := HopCut(v, a.data);
        HopReads(v, h, others);
        e := Multi(h, others);
      }
      es := EntriesMore(e, rest, a, attributes, v.interface);
    }
  }

  lemma {:induction false} EntriesMore(e: Entry, rest: seq<Entry>, a: Attribute, attributes: seq<Attribute>, interface: nat)
      returns (es: seq<Entry>)
    requires e.Valid() && AllEntries(rest) && AttributeOf(e) == a && (e.Skipped? ==> interface != 0)
    requires attributes != [] && attributes[0] == a && EntryAttributes(rest) == attributes[1..]
    requires Fits(rest, InterfaceBehind(e, interface))
    ensures AllEntries(es) && Fits(es, interface) && EntryAttributes(es) == attributes
  {
    es := [e] + rest;
    assert es[1..] == rest;
  }

  /** A route is read without an error exactly if its payload is a sequence of padded entries, with a multipath
      attribute malformed only behind a known interface; and what is read is what the entries stand for. */
  lemma {:induction false} RouteReadsExactly(b: Bytes, table: nat, v: Values)
    ensures Visit(b, 0, RouteAttribute, NoValues(table)) == (v, Ok) <==>
            exists ps, es :: && AllPadded(ps) && AttributeStream(ps) == b
                             && AllEntries(es) && Fits(es, 0) && AttributesOf(ps) == EntryAttributes(es)
                             && v == ValuesOf(Flat(es, 0), table)
  {
    hide Visit, Fold, ValuesOf, Flat, Fits;
    if Visit(b, 0, RouteAttribute, NoValues(table)) == (v, Ok) {
      AcceptsExactly(b, RouteAttribute, NoValues(table));
      var ps :| AllPadded(ps) && AttributeStream(ps) == b && Fold(RouteAttribute, NoValues(table), AttributesOf(ps)).1 == Ok;
      var es := ReadEntries(NoValues(table), AttributesOf(ps));
      RouteReads(ps, es, table);
    }
    forall ps, es | && AllPadded(ps) && AttributeStream(ps) == b
                    && AllEntries(es) && Fits(es, 0) && AttributesOf(ps) == EntryAttributes(es)
                    && v == ValuesOf(Flat(es, 0), table)
      ensures Visit(b, 0, RouteAttribute, NoValues(table)) == (v, Ok)
    {
      RouteReads(ps, es, table);
    }
  }

  // ---------- The encoder the repository's tests use

  function ZeroPadded(a: Attribute): (p: Padded)
    ensures p.attribute == a && p.Length() + |p.pad| == Align4(p.Length())
  {
    Padded(a, Zeros(Align4(ATTRIBUTE_HEADER + |a.data|) - ATTRIBUTE_HEADER - |a.data|))
  }

  /** An attribute with zero padding behind what is there. */
  method AddAttribute(b: Bytes, capacity: nat, kind: nat, data: Bytes) returns (added: bool, result: Bytes)
    requires |b| % 4 == 0 && kind <= U16_MAX
    ensures added <==> |b| + Align4(ATTRIBUTE_HEADER + |data|) <= capacity && ATTRIBUTE_HEADER + |data| <= U16_MAX
    ensures added ==> ZeroPadded(Attribute(kind, data)).Valid() && result == b + EncodeAttribute(ZeroPadded(Attribute(kind, data)))
    ensures !added ==> result == b
  {
    var length := ATTRIBUTE_HEADER + |data|;
    var aligned := Align4(length);
    if capacity < |b| || capacity - |b| < aligned || U16_MAX < length {
      added, result := false, b;
    } else {
      added := true;
      result := b + (U16Little(length) + U16Little(kind) + data + Zeros(aligned - length));
    }
  }

  lemma {:induction false} StreamAppend(ps: seq<Padded>, p: Padded)
    requires AllPadded(ps) && p.Valid()
    ensures AllPadded(ps + [p]) && AttributeStream(ps + [p]) == AttributeStream(ps) + EncodeAttribute(p)
    ensures AttributesOf(ps + [p]) == AttributesOf(ps) + [p.attribute]
    decreases |ps|
  {
    hide EncodeAttribute;
    if ps == [] {
      assert ps + [p] == [p] && [p][1..] == [];
      assert EncodeAttribute(p) + [] == EncodeAttribute(p);
    } else {
      assert (ps + [p])[1..] == ps[1..] + [p];
      StreamAppend(ps[1..], p);
      assert EncodeAttribute(ps[0]) + (AttributeStream(ps[1..]) + EncodeAttribute(p)) ==
             EncodeAttribute(ps[0]) + AttributeStream(ps[1..]) + EncodeAttribute(p);
    }
  }

  lemma {:induction false} StreamAligned(ps: seq<Padded>)
    requires AllPadded(ps)
    ensures |AttributeStream(ps)| % 4 == 0
    decreases |ps|
  {
    if ps != [] {
      StreamAligned(ps[1..]);
    }
  }

  predicate AllKinds(attributes: seq<Attribute>) {
    forall i :: 0 <= i < |attributes| ==> attributes[i].kind <= U16_MAX
  }

  /** The bytes that a list of attributes takes. */
  function Size(attributes: seq<Attribute>): nat {
    if attributes == [] then 0
    else Size(attributes[..|attributes| - 1]) + Align4(ATTRIBUTE_HEADER + |attributes[|attributes| - 1].data|)
  }

  lemma {:induction false} SizeGrows(attributes: seq<Attribute>, n: nat)
    requires n <= |attributes|
    ensures Size(attributes[..n]) <= Size(attributes)
    decreases |attributes|
  {
    if n < |attributes| {
      var shorter := attributes[..|attributes| - 1];
      assert shorter[..n] == attributes[..n];
      SizeGrows(shorter, n);
    } else {
      assert attributes[..n] == attributes;
    }
  }

  lemma {:induction false} NothingWritten()
    ensures AttributeStream([]) == [] && AttributesOf([]) == [] && Size([]) == 0
  {
  }

  lemma {:induction false} SizeStep(attributes: seq<Attribute>, i: nat)
    requires i < |attributes|
    ensures Size(attributes[..i + 1]) == Size(attributes[..i]) + Align4(ATTRIBUTE_HEADER + |attributes[i].data|)
    ensures Size(attributes[..i + 1]) <= Size(attributes)
    ensures attributes[..i + 1] == attributes[..i] + [attributes[i]]
  {
    assert attributes[..i + 1][..i] == attributes[..i];
    SizeGrows(attributes, i + 1);
  }

  /** Repeated calls of the encoder, each behind the last.  They succeed exactly if every attribute has a length and
      all of them fit. */
  method AddAttributes(attributes: seq<Attribute>, capacity: nat) returns (added: bool, b: Bytes, ghost ps: seq<Padded>)
    requires AllKinds(attributes)
    ensures added <==> Size(attributes) <= capacity && forall i :: 0 <= i < |attributes| ==> ATTRIBUTE_HEADER + |attributes[i].data| <= U16_MAX
    ensures added ==> AllPadded(ps) && AttributesOf(ps) == attributes && b == AttributeStream(ps)
  {
    hide EncodeAttribute, ZeroPadded, Size, AttributeStream, AttributesOf, Align4;
    added, b, ps := true, [], [];
    var i := 0;
    assert attributes[..0] == [];
    NothingWritten();
    while i < |attributes|
      invariant 0 <= i <= |attributes|
      invariant AllPadded(ps) && AttributesOf(ps) == attributes[..i] && b == AttributeStream(ps)
      invariant |b| == Size(attributes[..i]) <= capacity
      invariant forall j :: 0 <= j < i ==> ATTRIBUTE_HEADER + |attributes[j].data| <= U16_MAX
    {
      StreamAligned(ps);
      SizeStep(attributes, i);
      added, b := AddAttribute(b, capacity, attributes[i].kind, attributes[i].data);
      if !added {
        return;
      }
      var p := ZeroPadded(attributes[i]);
      StreamAppend(ps, p);
      ps := ps + [p];
      i := i + 1;
    }
    assert attributes[..i] == attributes;
  }

  /** What the encoder writes, the parser reads back. */
  method WriteAndParse(es: seq<Entry>, capacity: nat, table: nat) returns (added: bool, v: Values, error: Error)
    requires AllEntries(es) && AllKinds(EntryAttributes(es))
    ensures added && Fits(es, 0) ==> (v, error) == (ValuesOf(Flat(es, 0), table), Ok)
  {
    hide Visit, Flat, Fits, ValuesOf, Fold;
    v, error := NoValues(table), Ok;
    var b: Bytes;
    ghost var ps;
    added, b, ps := AddAttributes(EntryAttributes(es), capacity);
    if added {
      v, error := ParseAttributes(b, table);
      if Fits(es, 0) {
        RouteReads(ps, es, table);
      }
    }
  }

  function Zeros(n: nat): (b: Bytes)
    ensures |b| == n
  {
    seq(n, _ => '\0')
  }
}
