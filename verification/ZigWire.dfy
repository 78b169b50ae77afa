/** The Zig wire format: a 32-bit big-endian payload length, then the payload;
    and the two ways a frame travels, through a Context and through a switch. */
module ZigWire {
  import opened Bytes

  const HEADER_SIZE := 4
  const MAX_MESSAGE_SIZE := 100_000 - HEADER_SIZE
  const SWITCH_BUFFER_SIZE := 100_000

  // ----- Message.write and Message.read -----

  /** The bytes Message.write produces when nothing limits the writer: the
      length is truncated to 32 bits, the payload is not. */
  function Frame(payload: seq<Byte>): (f: seq<Byte>)
    ensures |f| == HEADER_SIZE + |payload|
  {
    PutBig32(|payload| % TWO_32) + payload
  }

  /** Byte by byte, for what fits the length field; and the sizes as numbers. */
  lemma FrameBytes(payload: seq<Byte>)
    requires |payload| < TWO_32
    ensures var f, n := Frame(payload), |payload|;
            && |f| == 4 + n
            && f[0] as int == n / 16_777_216 && f[1] as int == n / 65_536 % 256
            && f[2] as int == n / 256 % 256 && f[3] as int == n % 256
            && forall k :: 0 <= k < n ==> f[4 + k] == payload[k]
    ensures MAX_MESSAGE_SIZE == 99_996 && SWITCH_BUFFER_SIZE == 100_000
  {
  }

  datatype Decoded = Payload(bytes: seq<Byte>) | EndOfStream | WrongLength

  /** Message.read on a buffer. */
  function Decode(buffer: seq<Byte>): Decoded {
    if |buffer| < HEADER_SIZE then EndOfStream
    else
      var len := GetBig32(buffer);
      if len > |buffer| - HEADER_SIZE then WrongLength
      else Payload(buffer[HEADER_SIZE..HEADER_SIZE + len])
  }

  // ----- Context.write and Context.read over whole packets -----

  /** The packet Context.write sends: its fixed buffer keeps the first
      MAX_MESSAGE_SIZE bytes of the frame. */
  function ContextPacket(payload: seq<Byte>): seq<Byte> {
    Take(Frame(payload), MAX_MESSAGE_SIZE)
  }

  datatype Received = NoMessage | Got(payload: seq<Byte>) | Refused

  /** Context.read: the packet lands in a zeroed buffer of MAX_MESSAGE_SIZE
      bytes and the whole buffer, not just the packet, is decoded. */
  function ContextRead(packet: seq<Byte>): Received {
    var got := Take(packet, MAX_MESSAGE_SIZE);
    if |got| <= HEADER_SIZE then NoMessage
    else match Decode(got + Zeros(MAX_MESSAGE_SIZE - |got|))
      case Payload(bytes) => Got(bytes)
      case _ => Refused
  }

  /** What a Context delivers, for every payload. The length seen by the reader
      is the real one modulo 2^32. */
  lemma DeliveryExact(payload: seq<Byte>)
    ensures ContextRead(ContextPacket(payload)) ==
            if payload == [] then NoMessage
            else if |payload| % TWO_32 > MAX_MESSAGE_SIZE - HEADER_SIZE then Refused
            else Got(payload[..|payload| % TWO_32])
  {
    var len := |payload| % TWO_32;
    var packet := ContextPacket(payload);
    var body := Take(payload, MAX_MESSAGE_SIZE - HEADER_SIZE);
    assert packet == PutBig32(len) + body;
    assert Take(packet, MAX_MESSAGE_SIZE) == packet;
    if payload != [] {
      var rest := body + Zeros(MAX_MESSAGE_SIZE - |packet|);
      var buffer := packet + Zeros(MAX_MESSAGE_SIZE - |packet|);
      assert buffer == PutBig32(len) + rest;
      GetPutBig32(len, rest);
      assert |packet| > HEADER_SIZE && |buffer| == MAX_MESSAGE_SIZE;
      if len <= MAX_MESSAGE_SIZE - HEADER_SIZE {
        assert rest[..len] == payload[..len];
        assert Decode(buffer) == Payload(rest[..len]) by {
          assert buffer[HEADER_SIZE..HEADER_SIZE + len] == rest[..len];
        }
      } else {
        assert Decode(buffer) == WrongLength;
      }
    }
  }

  /** Delivery is faithful exactly for payloads of 1 to 99992 bytes. */
  lemma DeliveryFaithful(payload: seq<Byte>)
    ensures ContextRead(ContextPacket(payload)) == Got(payload)
            <==> 1 <= |payload| <= MAX_MESSAGE_SIZE - HEADER_SIZE
  {
    DeliveryExact(payload);
    if |payload| < TWO_32 {
      assert payload[..|payload|] == payload;
    }
  }

  /** Which packets are accepted, and what a short packet is read as: the bytes
      it lacks are zeros. */
  lemma AcceptedPackets(packet: seq<Byte>)
    ensures ContextRead(packet).Got?
            <==> |packet| > HEADER_SIZE && GetBig32(packet) <= MAX_MESSAGE_SIZE - HEADER_SIZE
    ensures ContextRead(packet).NoMessage? <==> |packet| <= HEADER_SIZE
    ensures ContextRead(packet).Got? ==>
              var len := GetBig32(packet);
              var p := ContextRead(packet).payload;
              && |p| == len
              && forall k :: 0 <= k < len ==>
                   p[k] == if HEADER_SIZE + k < |packet| then packet[HEADER_SIZE + k] else 0
  {
    var got := Take(packet, MAX_MESSAGE_SIZE);
    var buffer := got + Zeros(MAX_MESSAGE_SIZE - |got|);
    if |got| > HEADER_SIZE {
      assert forall k :: 0 <= k < HEADER_SIZE ==> buffer[k] == packet[k];
    }
  }

  // ----- the switch path -----

  /** The length in the header fits what has been received. */
  predicate Fits(got: seq<Byte>) {
    |got| >= HEADER_SIZE && GetBig32(got) <= |got| - HEADER_SIZE
  }

  /** Header and announced payload, without what may follow. */
  function FramePrefix(got: seq<Byte>): seq<Byte>
    requires Fits(got)
  {
    got[..HEADER_SIZE + GetBig32(got)]
  }

  /** The bytes SwitchDB.write hands to default_out. */
  function SwitchPacket(payload: seq<Byte>): seq<Byte> {
    Take(Frame(payload), SWITCH_BUFFER_SIZE)
  }

  /** Forwarding is transparent: a packet whose header length fits is written on
      the other side as its own frame prefix, any other packet is refused. */
  lemma ForwardingTransparent(received: seq<Byte>)
    requires HEADER_SIZE <= |received| <= SWITCH_BUFFER_SIZE
    ensures if Fits(received)
            then && Decode(received).Payload?
                 && Frame(Decode(received).bytes) == FramePrefix(received)
                 && SwitchPacket(Decode(received).bytes) == FramePrefix(received)
            else Decode(received) == WrongLength
  {
    if Fits(received) {
      var payload := Decode(received).bytes;
      assert |payload| % TWO_32 == GetBig32(received);
      assert GetBig32(received) == GetBig32(received[..HEADER_SIZE]);
      PutGetBig32(received[..HEADER_SIZE]);
      assert Frame(payload) == received[..HEADER_SIZE] + payload;
      assert FramePrefix(received) == Frame(payload);
    }
  }

  // ----- the writer -----

  /** std.io.fixedBufferStream: a cursor over a fixed buffer. */
  class FixedBufferStream {
    const buffer: array<Byte>
    var pos: nat

    ghost predicate Valid()
      reads this
    {
      pos <= buffer.Length
    }

    ghost function Written(): seq<Byte>
      requires Valid()
      reads this, buffer
    {
      buffer[..pos]
    }

    ghost function Room(): nat
      requires Valid()
      reads this
    {
      buffer.Length - pos
    }

    constructor (capacity: nat)
      ensures Valid() && pos == 0 && buffer.Length == capacity && fresh(buffer)
    {
      buffer := new Byte[capacity](_ => 0);
      pos := 0;
    }

    /** Copies what fits; the result is None (NoSpaceLeft) when nothing does. */
    method Write(bytes: seq<Byte>) returns (ok: bool, n: nat)
      requires Valid()
      modifies this`pos, buffer
      ensures Valid()
      ensures n == Min(|bytes|, old(Room()))
      ensures ok <==> bytes == [] || old(Room()) > 0
      ensures Written() == old(Written()) + bytes[..n]
    {
      if |bytes| == 0 {
        return true, 0;
      }
      if pos >= buffer.Length {
        return false, 0;
      }
      n := if pos + |bytes| <= buffer.Length then |bytes| else buffer.Length - pos;
      forall k | 0 <= k < n {
        buffer[pos + k] := bytes[k];
      }
      pos := pos + n;
      ok := n != 0;
    }

    /** Message.write: header, then payload. Whatever the room, the buffer ends
        up with the longest prefix of the frame that fits; only a cut header, or
        a payload with no room at all, is reported. */
    method WriteMessage(payload: seq<Byte>) returns (ok: bool, count: nat)
      requires Valid()
      modifies this`pos, buffer
      ensures Valid()
      ensures Written() == old(Written()) + Take(Frame(payload), old(Room()))
      ensures ok <==> HEADER_SIZE < old(Room()) || (HEADER_SIZE == old(Room()) && payload == [])
      ensures ok ==> count == Min(|Frame(payload)|, old(Room()))
    {
      ghost var room := Room();
      ghost var before := Written();
      var header := PutBig32(|payload| % TWO_32);
      var wrote, n := Write(header);
      if n < |header| {
        assert Take(Frame(payload), room) == header[..n];
        return false, 0;
      }
      assert Written() == before + header;
      var m;
      ok, m := Write(payload);
      count := HEADER_SIZE + m;
      assert Take(Frame(payload), room) == header + payload[..m];
    }
  }

  /** Context.write up to the system call: the message is laid out in a buffer
      of MAX_MESSAGE_SIZE bytes, which never reports an error. */
  method LayOut(payload: seq<Byte>) returns (packet: seq<Byte>)
    ensures packet == ContextPacket(payload)
  {
    var stream := new FixedBufferStream(MAX_MESSAGE_SIZE);
    var ok, _ := stream.WriteMessage(payload);
    assert ok;
    packet := stream.buffer[..stream.pos];
  }

  /** SwitchDB.write up to the callback, on its larger buffer. */
  method LayOutSwitched(payload: seq<Byte>) returns (packet: seq<Byte>)
    ensures packet == SwitchPacket(payload)
  {
    var stream := new FixedBufferStream(SWITCH_BUFFER_SIZE);
    var ok, _ := stream.WriteMessage(payload);
    assert ok;
    packet := stream.buffer[..stream.pos];
  }
}
