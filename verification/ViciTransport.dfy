/** Length-framed packets over a stream socket that may move any number of bytes at a time. */
module ViciTransport {
  import opened Core
  import opened ViciGrammar

  // What one poll and the send or recv after it do, in the order the kernel decides.
  datatype Io =
    | NotReady         // the poll fails or reports an error condition
    | Interrupted      // EINTR, EAGAIN or EWOULDBLOCK
    | Moved(count: nat) // at least one byte moves, and no more than asked for
    | Closed           // the transfer returns zero
    | Failed

  // ---------- Frames

  function U32Bytes(n: nat): (r: Bytes)
    requires n <= U32_MAX
    ensures |r| == 4
  {
    U16Bytes(n / 0x1_0000) + U16Bytes(n % 0x1_0000)
  }

  function U32(b: Bytes): (n: nat)
    requires |b| == 4
    ensures n <= U32_MAX
  {
    U16(b[0], b[1]) * 0x1_0000 + U16(b[2], b[3])
  }

  lemma {:induction false} U32RoundTrip(n: nat)
    requires n <= U32_MAX
    ensures U32(U32Bytes(n)) == n
  {
    var high, low := n / 0x1_0000, n % 0x1_0000;
    U16RoundTrip(high, U16Bytes(high)[0], U16Bytes(high)[1]);
    U16RoundTrip(low, U16Bytes(low)[0], U16Bytes(low)[1]);
  }

  predicate ValidPacket(p: Bytes) {
    1 <= |p| <= MAX_SEGMENT
  }

  predicate ValidPackets(ps: seq<Bytes>) {
    forall i :: 0 <= i < |ps| ==> ValidPacket(ps[i])
  }

  function Frame(p: Bytes): Bytes
    requires |p| <= MAX_SEGMENT
  {
    U32Bytes(|p|) + p
  }

  function Frames(ps: seq<Bytes>): Bytes
    requires ValidPackets(ps)
  {
    if ps == [] then [] else Frame(ps[0]) + Frames(ps[1..])
  }

  lemma {:induction false} FramesAppend(ps: seq<Bytes>, p: Bytes)
    requires ValidPackets(ps) && ValidPacket(p)
    ensures Frames(ps + [p]) == Frames(ps) + Frame(p)
  {
    if ps == [] {
      assert ps + [p] == [p];
      assert Frame(p) + [] == Frame(p);
    } else {
      assert (ps + [p])[1..] == ps[1..] + [p];
      FramesAppend(ps[1..], p);
      Regroup(Frame(ps[0]), Frames(ps[1..]), Frame(p));
    }
  }

  /** Taking one more frame off a stream. */
  lemma {:induction false} FramesStep(start: Bytes, ps: seq<Bytes>, x: Bytes, p: Bytes, y: Bytes)
    requires ValidPackets(ps) && ValidPacket(p) && start == Frames(ps) + x && x == Frame(p) + y
    ensures ValidPackets(ps + [p]) && start == Frames(ps + [p]) + y
  {
    FramesAppend(ps, p);
    Regroup(Frames(ps), Frame(p), y);
  }

  /** The first frame of a stream is determined by the stream. */
  lemma {:induction false} FrameUnique(p: Bytes, x: Bytes, q: Bytes, y: Bytes)
    requires |p| <= MAX_SEGMENT && |q| <= MAX_SEGMENT
    requires Frame(p) + x == Frame(q) + y
    ensures p == q && x == y
  {
    assert (Frame(p) + x)[..4] == U32Bytes(|p|) && (Frame(q) + y)[..4] == U32Bytes(|q|);
    U32RoundTrip(|p|);
    U32RoundTrip(|q|);
    assert (Frame(p) + x)[4..][..|p|] == p && (Frame(q) + y)[4..][..|q|] == q;
    assert (Frame(p) + x)[4..][|p|..] == x && (Frame(q) + y)[4..][|q|..] == y;
  }

  /** Reading fewer packets than a stream holds reads a prefix of them. */
  lemma {:induction false} FramesPrefix(ps: seq<Bytes>, x: Bytes, qs: seq<Bytes>, y: Bytes)
    requires ValidPackets(ps) && ValidPackets(qs) && |ps| <= |qs|
    requires Frames(ps) + x == Frames(qs) + y
    ensures ps == qs[..|ps|]
    ensures x == Frames(qs[|ps|..]) + y
  {
    if ps == [] {
      assert qs[0..] == qs;
    } else {
      Regroup(Frame(ps[0]), Frames(ps[1..]), x);
      Regroup(Frame(qs[0]), Frames(qs[1..]), y);
      FrameUnique(ps[0], Frames(ps[1..]) + x, qs[0], Frames(qs[1..]) + y);
      FramesPrefix(ps[1..], x, qs[1..], y);
      assert ps == [ps[0]] + ps[1..];
      assert qs[1..][|ps| - 1..] == qs[|ps|..];
    }
  }

  // ---------- One end of a connection

  class Transport {
    var open: bool
    var schedule: seq<Io>   // the outcomes still to come; the command deadline passes when they run out
    var inbound: Bytes      // what the peer has sent on this connection and nobody has read yet
    var outbound: Bytes     // what has been written to this connection

    // The packets moved on the current connection, and the bytes read from it.
    ghost var sent: seq<Bytes>
    ghost var received: seq<Bytes>
    ghost var consumed: Bytes

    /** An open socket always stands between two frames, in both directions. */
    ghost predicate Valid()
      reads this
    {
      open ==>
        && SmallPackets(sent)
        && outbound == AllFrames(sent)
        && ValidPackets(received)
        && consumed == Frames(received)
    }

    constructor (initialSchedule: seq<Io>)
      ensures Valid() && !open && schedule == initialSchedule
    {
      open, schedule, inbound, outbound := false, initialSchedule, [], [];
    }

    /** One `send` that the kernel cuts short after `count` bytes. */
    method SendChunk(data: array<byte>, offset: nat, count: nat, ghost before: Bytes) returns (moved: nat)
      requires offset < data.Length && outbound == before + data[..offset]
      modifies `outbound
      ensures 1 <= moved <= data.Length - offset
      ensures outbound == before + data[..offset + moved]
    {
      moved := Clamp(count, data.Length - offset);
      outbound := outbound + data[offset..offset + moved];
      assert data[..offset + moved] == data[..offset] + data[offset..offset + moved];
    }

    /** One `recv` that the kernel cuts short after `count` bytes. */
    method ReceiveChunk(data: array<byte>, offset: nat, count: nat, ghost before: Bytes) returns (moved: nat)
      requires offset < data.Length && inbound != [] && consumed == before + data[..offset]
      modifies `inbound, `consumed, data
      ensures 1 <= moved <= data.Length - offset
      ensures consumed + inbound == old(consumed) + old(inbound)
      ensures consumed == before + data[..offset + moved]
    {
      moved := Clamp(count, if |inbound| < data.Length - offset then |inbound| else data.Length - offset);
      ghost var start := data[..offset];
      var chunk := inbound[..moved];
      forall i | 0 <= i < moved {
        data[offset + i] := chunk[i];
      }
      assert data[..offset + moved] == start + chunk;
      assert inbound == chunk + inbound[moved..];
      consumed := consumed + chunk;
      inbound := inbound[moved..];
    }

    /** `TransferViciBytes`: moves all of `data` one way, in chunks, or stops at the first failure. */
    method TransferBytes(data: array<byte>, send: bool) returns (error: Error)
      requires open
      modifies this`schedule, this`inbound, this`outbound, this`consumed, data
      ensures error in {Ok, ViciTimeout, ViciTransport}
      ensures send ==> data[..] == old(data[..]) && inbound == old(inbound) && consumed == old(consumed)
      ensures send ==> old(outbound) <= outbound <= old(outbound) + data[..]
      ensures send && error == Ok ==> outbound == old(outbound) + data[..]
      ensures !send ==> outbound == old(outbound)
      ensures !send ==> old(consumed) <= consumed && old(consumed) + old(inbound) == consumed + inbound
      ensures !send ==> |consumed| <= |old(consumed)| + data.Length
      ensures !send && error == Ok ==> consumed == old(consumed) + data[..]
      ensures |schedule| <= |old(schedule)|
      ensures error == Ok && 0 < data.Length ==> |schedule| < |old(schedule)|
    {
      var offset := 0;
      error := Ok;
      while offset < data.Length && error == Ok
        invariant 0 <= offset <= data.Length
        invariant error in {Ok, ViciTimeout, ViciTransport}
        invariant send ==> data[..] == old(data[..]) && inbound == old(inbound) && consumed == old(consumed)
        invariant send ==> outbound == old(outbound) + data[..offset]
        invariant !send ==> outbound == old(outbound)
        invariant !send ==> consumed == old(consumed) + data[..offset]
        invariant !send ==> consumed + inbound == old(consumed) + old(inbound)
        invariant |schedule| <= |old(schedule)|
        invariant 0 < offset ==> |schedule| < |old(schedule)|
        decreases |schedule|, error == Ok
      {
        if schedule == [] {
          error := ViciTimeout;
        } else {
          var outcome := schedule[0];
          schedule := schedule[1..];
          match outcome
          case NotReady => error := ViciTransport;
          case Interrupted =>
          case Closed => error := ViciTransport;
          case Failed => error := ViciTransport;
          case Moved(count) =>
            if send {
              var moved := SendChunk(data, offset, count, old(outbound));
              offset := offset + moved;
            } else if inbound == [] {
              error := ViciTransport;
            } else {
              var moved := ReceiveChunk(data, offset, count, old(consumed));
              offset := offset + moved;
            }
        }
      }
      assert data[..data.Length] == data[..];
    }

    /** `DisconnectViciTransport`. */
    method Disconnect()
      modifies `open
      ensures Valid() && !open
    {
      open := false;
    }

    /** `ConnectViciTransport`: keeps an open socket, or opens a new one whose peer will send `reply`.
        A connection that fails does so for any of four reasons. */
    method Connect(reply: Option<Bytes>) returns (error: Error)
      requires Valid()
      modifies this
      ensures Valid() && unchanged(`schedule)
      ensures old(open) ==> error == Ok && unchanged(this)
      ensures !old(open) ==> (error == Ok <==> reply.Some?)
      ensures error in {Ok, ViciConnect, Permission, ViciTimeout, ViciTransport}
      ensures error == Ok <==> open
      ensures !old(open) && open ==> inbound == reply.value && outbound == [] && received == [] && sent == []
    {
      if open {
        error := Ok;
      } else if reply.None? {
        var refused: bool, late: bool, broken: bool := *, *, *;
        error := if refused then Permission else if late then ViciTimeout else if broken then ViciTransport else ViciConnect;
      } else {
        open, inbound, outbound := true, reply.value, [];
        sent, received, consumed := [], [], [];
        error := Ok;
      }
    }

    /** Header and body of one packet over an open socket. */
    method SendFrame(packet: Bytes) returns (error: Error)
      requires open && |packet| <= MAX_SEGMENT
      modifies `schedule, `outbound, `inbound, `consumed
      ensures unchanged(`inbound) && unchanged(`consumed)
      ensures error in {Ok, ViciTimeout, ViciTransport}
      ensures error == Ok ==> outbound == old(outbound) + Frame(packet)
    {
      var header := new byte[4](i requires 0 <= i < 4 => U32Bytes(|packet|)[i]);
      var body := new byte[|packet|](i requires 0 <= i < |packet| => packet[i]);
      assert header[..] == U32Bytes(|packet|) && body[..] == packet;
      error := TransferBytes(header, true);
      if error == Ok {
        error := TransferBytes(body, true);
        Regroup(old(outbound), U32Bytes(|packet|), packet);
      }
    }

    /** Header and body of one packet from an open socket. */
    method ReceiveFrame() returns (error: Error, packet: Bytes)
      requires open
      modifies `schedule, `outbound, `inbound, `consumed
      ensures unchanged(`outbound) && |schedule| <= |old(schedule)|
      ensures old(consumed) + old(inbound) == consumed + inbound
      ensures error == Ok ==> ValidPacket(packet) && consumed == old(consumed) + Frame(packet)
      ensures error == Ok ==> |schedule| < |old(schedule)|
    {
      packet := [];
      var header := new byte[4];
      error := TransferBytes(header, false);
      if error == Ok {
        var length := U32(header[..]);
        U32Back(header[..]);
        if length == 0 || MAX_SEGMENT < length {
          error := ViciProtocol;
        } else {
          var granted: bool := *;
          if !granted {
            error := NoMemory;
          } else {
            var body := new byte[length];
            error := TransferBytes(body, false);
            packet := body[..];
            Regroup(old(consumed), U32Bytes(length), packet);
          }
        }
      }
    }

    method SendConnected(packet: Bytes) returns (error: Error)
      requires Valid() && open && |packet| <= MAX_SEGMENT
      modifies this
      ensures Valid() && unchanged(`inbound) && unchanged(`received)
      ensures error !in {Ok, InvalidArgument} ==> !open
      ensures error != InvalidArgument
      ensures error == Ok ==> open && outbound == old(outbound) + Frame(packet) && sent == old(sent) + [packet]
    {
      AllFramesAppend(sent, packet);
      error := SendFrame(packet);
      if error == Ok {
        sent := sent + [packet];
      } else {
        Disconnect();
      }
    }

    /** `SendViciTransportPacket`: the whole frame leaves, or the socket is closed. */
    method Send(packet: Bytes, reply: Option<Bytes>) returns (error: Error)
      requires Valid()
      modifies this
      ensures Valid()
      ensures error == InvalidArgument <==> |packet| > MAX_SEGMENT
      ensures error == InvalidArgument ==> unchanged(this)
      ensures error == Ok ==> open && outbound == (if old(open) then old(outbound) else []) + Frame(packet)
      ensures error == Ok ==> sent == (if old(open) then old(sent) else []) + [packet]
      ensures error == Ok && old(open) ==> inbound == old(inbound) && received == old(received)
      ensures error !in {Ok, InvalidArgument} ==> !open
    {
      if MAX_SEGMENT < |packet| {
        error := InvalidArgument;
      } else {
        error := Connect(reply);
        if error == Ok {
          error := SendConnected(packet);
        } else {
          Disconnect();
        }
      }
    }

    /** `ReceiveViciTransportPacket`: exactly one packet, or the socket is closed. */
    method Receive() returns (error: Error, packet: Bytes)
      requires Valid()
      modifies this
      ensures Valid() && unchanged(`outbound) && unchanged(`sent) && |schedule| <= |old(schedule)|
      ensures !old(open) ==> error == InvalidArgument && unchanged(this)
      ensures error == Ok ==>
                && open && ValidPacket(packet)
                && old(inbound) == Frame(packet) + inbound
                && received == old(received) + [packet]
                && |schedule| < |old(schedule)|
      ensures old(open) && error != Ok ==> !open
    {
      packet := [];
      if !open {
        error := InvalidArgument;
      } else {
        error, packet := ReceiveFrame();
        if error == Ok {
          Regroup(old(consumed), Frame(packet), inbound);
          CancelPrefix(old(consumed), old(inbound), Frame(packet) + inbound);
          FramesAppend(received, packet);
          received := received + [packet];
        } else {
          packet := [];
          Disconnect();
        }
      }
    }

    /** Error-free receives return exactly the packets at the head of the stream, in order. */
    method ReceiveMany(count: nat) returns (error: Error, packets: seq<Bytes>)
      requires Valid()
      modifies this
      ensures Valid()
      ensures ValidPackets(packets) && |packets| <= count
      ensures error == Ok ==> |packets| == count && old(inbound) == Frames(packets) + inbound
      ensures error != Ok ==> !open
    {
      packets, error := [], Ok;
      while |packets| < count && error == Ok
        invariant Valid() && ValidPackets(packets) && |packets| <= count
        invariant error == Ok ==> old(inbound) == Frames(packets) + inbound
        invariant error != Ok ==> !open
        decreases count - |packets|, error == Ok
      {
        var packet: Bytes;
        ghost var before := inbound;
        error, packet := Receive();
        if error == Ok {
          FramesStep(old(inbound), packets, before, packet, inbound);
          packets := packets + [packet];
        }
      }
    }
  }

  // Sent packets may be empty: only the receiver insists on one byte.
  predicate SmallPackets(ps: seq<Bytes>) {
    forall i :: 0 <= i < |ps| ==> |ps[i]| <= MAX_SEGMENT
  }

  function AllFrames(ps: seq<Bytes>): Bytes
    requires SmallPackets(ps)
  {
    if ps == [] then [] else AllFrames(ps[..|ps| - 1]) + Frame(ps[|ps| - 1])
  }

  lemma {:induction false} AllFramesAppend(ps: seq<Bytes>, p: Bytes)
    requires SmallPackets(ps) && |p| <= MAX_SEGMENT
    ensures SmallPackets(ps + [p]) && AllFrames(ps + [p]) == AllFrames(ps) + Frame(p)
  {
    assert (ps + [p])[..|ps|] == ps;
  }

  function Clamp(count: nat, limit: nat): (n: nat)
    requires 0 < limit
    ensures 1 <= n <= limit
  {
    if count == 0 then 1 else if count > limit then limit else count
  }

  lemma {:induction false} CancelPrefix(p: Bytes, x: Bytes, y: Bytes)
    requires p + x == p + y
    ensures x == y
  {
    assert (p + x)[|p|..] == x && (p + y)[|p|..] == y;
  }

  lemma {:induction false} U32Back(b: Bytes)
    requires |b| == 4
    ensures U32Bytes(U32(b)) == b
  {
    U16RoundTrip(0, b[0], b[1]);
    U16RoundTrip(0, b[2], b[3]);
    var high, low := U16(b[0], b[1]), U16(b[2], b[3]);
    assert U32(b) / 0x1_0000 == high && U32(b) % 0x1_0000 == low;
    assert [b[0], b[1]] + [b[2], b[3]] == b;
  }

  /** Packets sent without error and read without error arrive as they were sent, whatever chunks the
      two sockets move. */
  method Carry(sender: Transport, receiver: Transport, packets: seq<Bytes>) returns (error: Error, arrived: seq<Bytes>)
    requires sender != receiver && sender.Valid() && !sender.open && receiver.Valid() && !receiver.open
    requires ValidPackets(packets)
    modifies sender, receiver
    ensures error == Ok ==> arrived == packets
  {
    arrived := [];
    error := sender.Connect(Some([]));
    var i := 0;
    while i < |packets| && error == Ok
      invariant 0 <= i <= |packets| && sender.Valid() && receiver.Valid() && !receiver.open
      invariant error == Ok ==> sender.open && sender.outbound == Frames(packets[..i])
    {
      error := sender.Send(packets[i], None);
      FramesAppend(packets[..i], packets[i]);
      assert packets[..i + 1] == packets[..i] + [packets[i]];
      i := i + 1;
    }
    if error == Ok {
      assert packets[..|packets|] == packets;
      error := receiver.Connect(Some(sender.outbound));
      if error == Ok {
        error, arrived := receiver.ReceiveMany(|packets|);
        if error == Ok {
          assert Frames(packets) + [] == Frames(packets);
          FramesPrefix(arrived, receiver.inbound, packets, []);
        }
      }
    }
  }
}
