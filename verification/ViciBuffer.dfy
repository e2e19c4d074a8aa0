/** The growable message buffer and the length-prefixed encoders that append to it. */
module ViciBuffer {
  import opened Core
  import opened ViciGrammar
  import opened ViciNames
  import Folding
  import ViciParser

  datatype PacketType =
    | CommandRequest
    | CommandResponse
    | CommandUnknown
    | EventRegister
    | EventUnregister
    | EventConfirm
    | EventUnknown
    | EventMessage

  // A decoded packet; an unnamed packet has an empty name.
  datatype PacketView = PacketView(kind: PacketType, name: Bytes, message: Bytes)

  /** 64 doubled some number of times, up to the segment limit of 64 * 2^13. */
  predicate Doubled(capacity: nat) {
    || capacity == 64 || capacity == 128 || capacity == 256 || capacity == 512 || capacity == 1024
    || capacity == 2048 || capacity == 4096 || capacity == 8192 || capacity == 16384 || capacity == 32768
    || capacity == 65536 || capacity == 131072 || capacity == 262144 || capacity == MAX_SEGMENT
  }

  predicate CapacityOk(capacity: nat) {
    capacity == 0 || Doubled(capacity)
  }

  /** How an encoder call on valid arguments ends: only the size limit or the allocator can stop it. */
  predicate Outcome(error: Error, used: nat, added: nat) {
    error == NoMemory || error == (if used + added <= MAX_SEGMENT then Ok else BufferTooSmall)
  }

  class Buffer {
    var data: array<byte>
    var length: nat
    var sensitive: bool

    ghost predicate Valid()
      reads this
    {
      length <= data.Length && CapacityOk(data.Length)
    }

    ghost function Contents(): Bytes
      reads this, data
      requires Valid()
    {
      data[..length]
    }

    /** A zeroed buffer. */
    constructor ()
      ensures Valid() && fresh(data)
      ensures Contents() == [] && !sensitive
    {
      data := new byte[0];
      length := 0;
      sensitive := false;
    }

    /** `InitializeViciBuffer`: an empty buffer with room for what was asked for, or the reason why there is none. */
    method Initialize(initialCapacity: nat, isSensitive: bool) returns (error: Error)
      requires Valid()
      modifies this
      ensures Valid() && (data == old(data) || fresh(data))
      ensures error == InvalidArgument <==> initialCapacity > MAX_SEGMENT
      ensures error == InvalidArgument ==> unchanged(this)
      ensures error != InvalidArgument ==> Contents() == [] && sensitive == isSensitive && Outcome(error, 0, initialCapacity)
      ensures error == Ok ==> initialCapacity <= data.Length
    {
      if MAX_SEGMENT < initialCapacity {
        error := InvalidArgument;
      } else {
        data := new byte[0];
        length := 0;
        sensitive := isSensitive;
        error := Reserve(initialCapacity);
      }
    }

    /** Makes room for more bytes.  The allocator may refuse; the contents survive either way. */
    method Reserve(additional: nat) returns (error: Error)
      requires Valid()
      modifies this
      ensures Valid() && length == old(length) && sensitive == old(sensitive)
      ensures Contents() == old(Contents())
      ensures data == old(data) || fresh(data)
      ensures error == Ok ==> length + additional <= data.Length
      ensures error == BufferTooSmall <==> old(length) + additional > MAX_SEGMENT
      ensures error in {Ok, NoMemory, BufferTooSmall}
      ensures error == NoMemory ==> old(length) + additional > old(data.Length)
      ensures error != Ok || old(length) + additional <= old(data.Length) ==> data == old(data)
      ensures data != old(data) ==> data.Length == 64 || data.Length < 2 * (old(length) + additional)
    {
      error := Ok;
      if additional > U32_MAX - length {
        error := BufferTooSmall;
      } else {
        var required := length + additional;
        if MAX_SEGMENT < required {
          error := BufferTooSmall;
        } else if data.Length < required {
          var capacity: nat := if data.Length == 0 then 64 else data.Length;
          assert Doubled(capacity);
          while capacity < required
            invariant Doubled(capacity) && (capacity == 64 || capacity < 2 * required)
            decreases MAX_SEGMENT - capacity
          {
            if capacity > MAX_SEGMENT / 2 {
              capacity := MAX_SEGMENT;
            } else {
              capacity := capacity * 2;
            }
          }
          var granted: bool := *;
          if !granted {
            error := NoMemory;
          } else {
            var grown := new byte[capacity];
            forall i | 0 <= i < length {
              grown[i] := data[i];
            }
            data := grown;
          }
        }
      }
    }

    /** `AppendViciBuffer`: all of the bytes or none of them. */
    method Append(bytes: Bytes) returns (error: Error)
      requires Valid()
      modifies this, data
      ensures Valid() && sensitive == old(sensitive)
      ensures data == old(data) || fresh(data)
      ensures Contents() == if error == Ok then old(Contents()) + bytes else old(Contents())
      ensures error == BufferTooSmall <==> old(length) + |bytes| > MAX_SEGMENT
      ensures error in {Ok, NoMemory, BufferTooSmall}
      ensures error == NoMemory ==> old(length) + |bytes| > old(data.Length)
    {
      error := Reserve(|bytes|);
      if error == Ok && 0 < |bytes| {
        ghost var before := Contents();
        forall i | 0 <= i < |bytes| {
          data[length + i] := bytes[i];
        }
        length := length + |bytes|;
        assert data[..length] == before + bytes;
      }
    }

    /** `AppendViciName`: one length byte and then the name, which ends at its first NUL. */
    method AppendName(memory: Bytes) returns (error: Error)
      requires Valid()
      modifies this, data
      ensures Valid() && sensitive == old(sensitive)
      ensures data == old(data) || fresh(data)
      ensures error == InvalidArgument <==> !ValidName(CText(memory))
      ensures error == Ok ==> Contents() == old(Contents()) + NameBytes(CText(memory))
      ensures old(Contents()) <= Contents()
      ensures ValidName(CText(memory)) ==> Outcome(error, old(length), 1 + |CText(memory)|)
    {
      var name := CText(memory);
      if !(1 <= |name| <= U8_MAX) {
        error := InvalidArgument;
      } else {
        error := Append([|name| as char]);
        if error == Ok {
          error := Append(name);
          Regroup(old(Contents()), [|name| as char], name);
        }
      }
    }

    /** The length and the bytes of a value, in network byte order. */
    method AppendValue(value: Bytes) returns (error: Error)
      requires Valid() && ValidValue(value)
      modifies this, data
      ensures Valid() && sensitive == old(sensitive)
      ensures data == old(data) || fresh(data)
      ensures error == Ok ==> Contents() == old(Contents()) + ValueBytes(value)
      ensures old(Contents()) <= Contents()
      ensures Outcome(error, old(length), 2 + |value|)
    {
      error := Append(U16Bytes(|value|));
      if error == Ok {
        error := Append(value);
        Regroup(old(Contents()), U16Bytes(|value|), value);
      }
    }

    /** The `AddVici*` call that matches an event.  A failed call may have appended a part, never
        changed what was there. */
    method Add(e: Event) returns (error: Error)
      requires Valid()
      modifies this, data
      ensures Valid() && sensitive == old(sensitive)
      ensures data == old(data) || fresh(data)
      ensures error == Ok ==> ValidEvent(Seen(e)) && Contents() == old(Contents()) + EventBytes(Seen(e))
      ensures old(Contents()) <= Contents()
      ensures ValidEvent(Seen(e)) ==> Outcome(error, old(length), |EventBytes(Seen(e))|)
    {
      match e
      case SectionStart(name, _) => error := AddNamed(TAG_SECTION_START, name);
      case SectionEnd(_) => error := Append([TAG_SECTION_END]);
      case KeyValue(name, value, _) => error := AddKeyValue(name, value);
      case ListStart(name, _) => error := AddNamed(TAG_LIST_START, name);
      case ListItem(value, _) => error := AddListItem(value);
      case ListEnd(_) => error := Append([TAG_LIST_END]);
    }

    /** `AddViciSectionStart` and `AddViciListStart`. */
    method AddNamed(tag: byte, memory: Bytes) returns (error: Error)
      requires Valid()
      modifies this, data
      ensures Valid() && sensitive == old(sensitive)
      ensures data == old(data) || fresh(data)
      ensures var name := CText(memory);
              && (error == Ok ==> ValidName(name) && Contents() == old(Contents()) + ([tag] + NameBytes(name)))
              && (!ValidName(name) ==> error in {InvalidArgument, NoMemory, BufferTooSmall})
              && (!ValidName(name) && error == BufferTooSmall ==> old(length) == MAX_SEGMENT)
              && (ValidName(name) ==> Outcome(error, old(length), 2 + |name|))
      ensures old(Contents()) <= Contents()
    {
      error := Append([tag]);
      if error == Ok {
        error := AppendName(memory);
        if error == Ok {
          Regroup(old(Contents()), [tag], NameBytes(CText(memory)));
        }
      }
    }

    /** `AddViciKeyValue`. */
    method AddKeyValue(memory: Bytes, value: Bytes) returns (error: Error)
      requires Valid()
      modifies this, data
      ensures Valid() && sensitive == old(sensitive)
      ensures data == old(data) || fresh(data)
      ensures var name := CText(memory);
              && (error == Ok ==>
                    && ValidName(name) && ValidValue(value)
                    && Contents() == old(Contents()) + ([TAG_KEY_VALUE] + NameBytes(name) + ValueBytes(value)))
              && (ValidName(name) && ValidValue(value) ==> Outcome(error, old(length), 4 + |name| + |value|))
      ensures old(Contents()) <= Contents()
    {
      if U16_MAX < |value| {
        error := InvalidArgument;
      } else {
        error := AddNamed(TAG_KEY_VALUE, memory);
        if error == Ok {
          error := AppendValue(value);
          Regroup(old(Contents()), [TAG_KEY_VALUE] + NameBytes(CText(memory)), ValueBytes(value));
        }
      }
    }

    method AddListItem(value: Bytes) returns (error: Error)
      requires Valid()
      modifies this, data
      ensures Valid() && sensitive == old(sensitive)
      ensures data == old(data) || fresh(data)
      ensures error == Ok ==>
                ValidValue(value) && Contents() == old(Contents()) + ([TAG_LIST_ITEM] + ValueBytes(value))
      ensures old(Contents()) <= Contents()
      ensures ValidValue(value) ==> Outcome(error, old(length), 3 + |value|)
    {
      if U16_MAX < |value| {
        error := InvalidArgument;
      } else {
        error := Append([TAG_LIST_ITEM]);
        if error == Ok {
          error := AppendValue(value);
          Regroup(old(Contents()), [TAG_LIST_ITEM], ValueBytes(value));
        }
      }
    }

    /** The next call of a list. */
    method AddNext(es: seq<Event>, i: nat, ghost start: Bytes) returns (error: Error)
      requires Valid() && i < |es| && Written(AllSeen(es), i, start, Contents())
      modifies this, data
      ensures Valid() && sensitive == old(sensitive)
      ensures data == old(data) || fresh(data)
      ensures start <= Contents()
      ensures error == Ok ==> Written(AllSeen(es), i + 1, start, Contents())
      ensures error != Ok && ValidEvents(AllSeen(es)) ==> Outcome(error, |start|, |EventsBytes(AllSeen(es))|)
    {
      hide EventsBytes, EventBytes, AllSeen;
      ghost var before, seen := Contents(), AllSeen(es);
      error := Add(es[i]);
      PrefixTwice(start, before, Contents());
      if error == Ok {
        OneMoreWritten(seen, i, start, before, Contents());
      } else if ValidEvents(seen) {
        EventsBytesPrefix(seen, i);
      }
    }

    /** Issues the `AddVici*` calls of a list of events, as every request builder does. */
    method AddAll(es: seq<Event>) returns (error: Error)
      requires Valid()
      modifies this, data
      ensures Valid() && sensitive == old(sensitive)
      ensures data == old(data) || fresh(data)
      ensures error == Ok ==> ValidEvents(AllSeen(es)) && Contents() == old(Contents()) + EventsBytes(AllSeen(es))
      ensures old(Contents()) <= Contents()
      ensures ValidEvents(AllSeen(es)) ==> Outcome(error, old(length), |EventsBytes(AllSeen(es))|)
    {
      ghost var start, seen := Contents(), AllSeen(es);
      error := Ok;
      var i := 0;
      NothingWritten(seen, start);
      hide EventsBytes, ValidEvents, Outcome, Written, AllSeen;
      while i < |es| && error == Ok
        invariant 0 <= i <= |es|
        invariant Valid() && sensitive == old(sensitive)
        invariant data == old(data) || fresh(data)
        invariant start <= Contents()
        invariant error == Ok ==> Written(seen, i, start, Contents())
        invariant error != Ok && ValidEvents(seen) ==> Outcome(error, |start|, |EventsBytes(seen)|)
      {
        error := AddNext(es, i, start);
        i := i + 1;
      }
      if error == Ok {
        AllWritten(seen, start, Contents());
        Fits(start, EventsBytes(seen));
      }
    }

    lemma {:induction false} Fits(start: Bytes, added: Bytes)
      requires Valid() && Contents() == start + added
      ensures Outcome(Ok, |start|, |added|)
    {
    }
  }

  /** The first so many events stand behind what was there. */
  ghost predicate Written(es: seq<Event>, i: nat, start: Bytes, contents: Bytes)
    requires i <= |es|
  {
    ValidEvents(es[..i]) && contents == start + EventsBytes(es[..i])
  }

  lemma {:induction false} NothingWritten(es: seq<Event>, start: Bytes)
    ensures Written(es, 0, start, start)
  {
    assert es[..0] == [];
  }

  lemma {:induction false} AllWritten(es: seq<Event>, start: Bytes, contents: Bytes)
    requires Written(es, |es|, start, contents)
    ensures ValidEvents(es) && contents == start + EventsBytes(es)
  {
    assert es[..|es|] == es;
  }

  lemma {:induction false} OneMoreWritten(es: seq<Event>, i: nat, start: Bytes, before: Bytes, after: Bytes)
    requires i < |es| && Written(es, i, start, before) && ValidEvent(es[i]) && after == before + EventBytes(es[i])
    ensures Written(es, i + 1, start, after)
  {
    hide EventBytes;
    var first := es[..i + 1];
    assert first[..i] == es[..i] && first[..i + 1] == first && first[i] == es[i];
    assert ValidEvents(first);
    EventsBytesPrefix(first, i);
    Regroup(start, EventsBytes(es[..i]), EventBytes(es[i]));
  }

  lemma {:induction false} PrefixTwice(a: Bytes, b: Bytes, c: Bytes)
    requires a <= b <= c
    ensures a <= c
  {
  }

  /** `BuildViciNamedPacket`: the packet's bytes, or nothing when it could not be built. */
  method BuildNamedPacket(kind: PacketType, name: CString, message: Bytes) returns (error: Error, packet: Bytes)
    ensures error == Ok ==> ValidName(name) && packet == NamedPacket(kind, name, message)
    ensures error == InvalidArgument <==> !ValidName(name) && error != NoMemory
    ensures ValidName(name) ==> Outcome(error, 0, 2 + |name| + |message|)
  {
    packet := [];
    var buffer := new Buffer();
    error := buffer.Initialize(64, false);
    if error == Ok {
      error := buffer.AddNamed(TypeByte(kind), name);
    }
    if error == Ok {
      ghost var header := [TypeByte(kind)] + NameBytes(name);
      assert buffer.Contents() == header;
      error := buffer.Append(message);
      if error == Ok {
        packet := buffer.data[..buffer.length];
        assert packet == header + message;
      }
    }
  }

  lemma {:induction false} EventsBytesPrefix(es: seq<Event>, i: nat)
    requires ValidEvents(es) && i < |es|
    ensures EventsBytes(es[..i + 1]) == EventsBytes(es[..i]) + EventBytes(es[i])
    ensures |EventsBytes(es[..i + 1])| <= |EventsBytes(es)|
    decreases i
  {
    hide EventBytes;
    if i == 0 {
      assert es[..1] == [es[0]];
    } else {
      EventsBytesPrefix(es[1..], i - 1);
      assert es[..i + 1][1..] == es[1..][..i] && es[..i][1..] == es[1..][..i - 1];
      Regroup(EventBytes(es[0]), EventsBytes(es[1..][..i - 1]), EventBytes(es[i]));
    }
  }

  // ---------- Packets

  function TypeByte(kind: PacketType): (b: byte)
    ensures b as int <= 7
  {
    match kind
    case CommandRequest => '\U{0}'
    case CommandResponse => '\U{1}'
    case CommandUnknown => '\U{2}'
    case EventRegister => '\U{3}'
    case EventUnregister => '\U{4}'
    case EventConfirm => '\U{5}'
    case EventUnknown => '\U{6}'
    case EventMessage => '\U{7}'
  }

  function TypeOf(b: byte): PacketType
    requires b as int <= 7
  {
    [CommandRequest, CommandResponse, CommandUnknown, EventRegister,
     EventUnregister, EventConfirm, EventUnknown, EventMessage][b as int]
  }

  predicate Named(kind: PacketType) {
    kind in {CommandRequest, EventRegister, EventUnregister, EventMessage}
  }

  function NamedPacket(kind: PacketType, name: Bytes, message: Bytes): Bytes
    requires ValidName(name)
  {
    [TypeByte(kind)] + NameBytes(name) + message
  }

  function EncodePacket(v: PacketView): Bytes
    requires Named(v.kind) ==> ValidName(v.name)
  {
    if Named(v.kind) then NamedPacket(v.kind, v.name, v.message) else [TypeByte(v.kind)] + v.message
  }

  /** `DecodeViciPacket`. */
  function DecodePacket(packet: Bytes): (r: Option<PacketView>)
    ensures r.Some? ==> if Named(r.value.kind) then ValidName(r.value.name) else r.value.name == []
  {
    if |packet| < 1 || packet[0] as int > 7 then None
    else
      var kind := TypeOf(packet[0]);
      if Named(kind) then
        var name := ViciParser.NameAt(packet, 1);
        if name.None? then None else Some(PacketView(kind, name.value, packet[2 + |name.value|..]))
      else Some(PacketView(kind, [], packet[1..]))
  }

  lemma {:induction false} DecodeEncodedPacket(v: PacketView)
    requires if Named(v.kind) then ValidName(v.name) else v.name == []
    ensures DecodePacket(EncodePacket(v)) == Some(v)
  {
    var p := EncodePacket(v);
    assert TypeOf(p[0]) == v.kind;
    if Named(v.kind) {
      assert p[1..] == NameBytes(v.name) + v.message;
      ViciParser.NameBack(p, 1, v.name, v.message);
    }
  }

  lemma {:induction false} EncodeDecodedPacket(packet: Bytes)
    requires DecodePacket(packet).Some?
    ensures EncodePacket(DecodePacket(packet).value) == packet
  {
    var v := DecodePacket(packet).value;
    assert [TypeByte(v.kind)] == [packet[0]];
    if Named(v.kind) {
      ViciParser.TaggedPart(packet, 0, NameBytes(v.name));
      assert packet[0..] == packet;
    }
  }

  /** Making the calls of any tree within the limits succeeds unless an allocation fails or some name starts with a
      NUL, and parsing the built bytes delivers exactly the events of the tree that the calls saw. */
  method BuildAndParse<S>(f: Forest, callback: ViciParser.Callback<S>, initial: S) returns (built: Error, data: S, parsed: Error)
    requires Valid(f, 0)
    ensures Valid(Spoken(f), 0) ==> Outcome(built, 0, |Encode(Spoken(f), 0)|)
    ensures built == Ok ==>
              Valid(Spoken(f), 0) && (data, parsed) == Folding.Fold(callback, initial, Events(Spoken(f), 0))
    ensures built == Ok && NulFree(f) ==> (data, parsed) == Folding.Fold(callback, initial, Events(f, 0))
  {
    SpokenEvents(f, 0);
    SpokenValid(f, 0);
    SpokenSame(f);
    if Valid(Spoken(f), 0) {
      WholeMessage(Spoken(f));
      ReplayedEvents(Whole(Spoken(f)));
    }
    data, parsed := initial, Ok;
    var buffer := new Buffer();
    built := buffer.Initialize(128, false);
    if built == Ok {
      built := buffer.AddAll(Events(f, 0));
    }
    if built == Ok {
      assert buffer.Contents() == Encode(Spoken(f), 0);
      data, parsed := ViciParser.ParseMessage(buffer.data[..buffer.length], callback, initial);
      ViciParser.ParseDeliversEvents(Spoken(f), callback, initial);
    }
  }
}
