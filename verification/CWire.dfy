/** The C wire format: type (1 byte), payload length (4 bytes, network order),
    user type (1 byte), payload. */
module CWire {
  import opened Wrappers
  import opened Bytes

  const IPC_HEADER_SIZE := 6
  const IPC_MAX_MESSAGE_SIZE := 2_000_000 - IPC_HEADER_SIZE

  datatype Content = Content(msgType: Byte, userType: Byte, payload: seq<Byte>)

  function Frame(c: Content): (f: seq<Byte>)
    ensures |f| == IPC_HEADER_SIZE + |c.payload|
  {
    [c.msgType] + PutBig32(|c.payload| % TWO_32) + [c.userType] + c.payload
  }

  /** Byte by byte, for what fits the length field; and the limits as numbers. */
  lemma FrameBytes(c: Content)
    requires |c.payload| < TWO_32
    ensures var f, n := Frame(c), |c.payload|;
            && |f| == 6 + n && f[0] == c.msgType && f[5] == c.userType
            && f[1] as int == n / 16_777_216 && f[2] as int == n / 65_536 % 256
            && f[3] as int == n / 256 % 256 && f[4] as int == n % 256
            && forall k :: 0 <= k < n ==> f[6 + k] == c.payload[k]
    ensures IPC_MAX_MESSAGE_SIZE == 1_999_994
  {
  }

  /** ipc_message_format_write on a large enough buffer. */
  function Encode(c: Content): Option<seq<Byte>> {
    if |c.payload| > IPC_MAX_MESSAGE_SIZE then None else Some(Frame(c))
  }

  /** size_t subtraction. */
  function Minus64(a: nat, b: nat): nat {
    (a - b) % TWO_64
  }

  /** ipc_message_format_read on the first msize bytes of a buffer that always
      has room for a header. A zero length is accepted whatever msize is. */
  function Decode(buf: seq<Byte>, msize: nat): Option<Content>
    requires IPC_HEADER_SIZE <= |buf| && msize <= |buf|
  {
    if msize > IPC_MAX_MESSAGE_SIZE then None
    else
      var length := GetBig32(buf[1..5]);
      if length > IPC_MAX_MESSAGE_SIZE then None
      else if length != Minus64(msize, IPC_HEADER_SIZE) && length != 0 then None
      else Some(Content(buf[0], buf[5], buf[IPC_HEADER_SIZE..IPC_HEADER_SIZE + length]))
  }

  /** Which buffers are accepted, and what is read from them. */
  lemma DecodeExact(buf: seq<Byte>, msize: nat)
    requires IPC_HEADER_SIZE <= |buf| && msize <= |buf|
    ensures var n := 16_777_216 * buf[1] as int + 65_536 * buf[2] as int + 256 * buf[3] as int + buf[4] as int;
            && (Decode(buf, msize).Some? <==> msize <= 1_999_994 && (n == 0 || n == msize - 6))
            && (Decode(buf, msize).Some? ==>
                  Decode(buf, msize).value == Content(buf[0], buf[5], buf[6..6 + n]))
  {
    assert buf[1..5] == [buf[1], buf[2], buf[3], buf[4]];
  }

  /** Decoding an encoding gives the message back exactly when the whole frame,
      not just the payload, is within IPC_MAX_MESSAGE_SIZE: the six lengths above
      are encoded and then refused. */
  lemma RoundTrip(c: Content)
    ensures Encode(c).Some? <==> |c.payload| <= IPC_MAX_MESSAGE_SIZE
    ensures Encode(c).Some? ==>
              var f := Encode(c).value;
              && (Decode(f, |f|) == Some(c) <==> |c.payload| <= IPC_MAX_MESSAGE_SIZE - IPC_HEADER_SIZE)
              && (Decode(f, |f|) == Some(c) || Decode(f, |f|) == None)
  {
    if |c.payload| <= IPC_MAX_MESSAGE_SIZE {
      var f := Frame(c);
      assert |c.payload| % TWO_32 == |c.payload|;
      assert f[1..5] == PutBig32(|c.payload|) + [];
      GetPutBig32(|c.payload|, []);
      assert f[IPC_HEADER_SIZE..IPC_HEADER_SIZE + |c.payload|] == c.payload;
      assert f[0] == c.msgType && f[5] == c.userType;
      assert Minus64(|f|, IPC_HEADER_SIZE) == |c.payload|;
    }
  }

  /** An accepted buffer re-encodes to its own bytes, except that an announced
      length of zero hides whatever follows the header (or what the header
      lacks). The wrapping subtraction accepts nothing else. */
  lemma Reencode(buf: seq<Byte>, msize: nat)
    requires IPC_HEADER_SIZE <= |buf| && msize <= |buf| && Decode(buf, msize).Some?
    ensures var c := Decode(buf, msize).value;
            && Encode(c).Some?
            && (Encode(c).value == buf[..msize] <==> c.payload != [] || msize == IPC_HEADER_SIZE)
            && (c.payload != [] ==> msize == IPC_HEADER_SIZE + |c.payload|)
  {
    var c := Decode(buf, msize).value;
    Reframe(buf, c);
    AcceptedSize(buf, msize);
    if c.payload == [] {
      assert buf[..msize] == buf[..IPC_HEADER_SIZE] <==> msize == IPC_HEADER_SIZE;
    }
  }

  lemma Reframe(buf: seq<Byte>, c: Content)
    requires IPC_HEADER_SIZE + |c.payload| <= |buf| && |c.payload| == GetBig32(buf[1..5])
    requires c == Content(buf[0], buf[5], buf[IPC_HEADER_SIZE..IPC_HEADER_SIZE + |c.payload|])
    ensures Frame(c) == buf[..IPC_HEADER_SIZE + |c.payload|]
  {
    PutGetBig32(buf[1..5]);
    assert Frame(c) == [buf[0]] + buf[1..5] + [buf[5]] + c.payload;
  }

  lemma AcceptedSize(buf: seq<Byte>, msize: nat)
    requires IPC_HEADER_SIZE <= |buf| && msize <= |buf| && Decode(buf, msize).Some?
    ensures var c := Decode(buf, msize).value;
            c.payload != [] ==> msize == IPC_HEADER_SIZE + |c.payload|
  {
  }

  // ----- the buffers -----

  /** memcpy into a buffer at an offset. */
  method CopyAt(buffer: array<Byte>, at: nat, bytes: seq<Byte>)
    requires at + |bytes| <= buffer.Length
    modifies buffer
    ensures buffer[..] == old(buffer[..at]) + bytes + old(buffer[at + |bytes|..])
    ensures forall k :: 0 <= k < buffer.Length ==>
              buffer[k] == if at <= k < at + |bytes| then bytes[k - at] else old(buffer[k])
  {
    var i := 0;
    while i < |bytes|
      invariant i <= |bytes|
      invariant forall k :: 0 <= k < buffer.Length ==>
        buffer[k] == if at <= k < at + i then bytes[k - at] else old(buffer[k])
    {
      buffer[at + i] := bytes[i];
      i := i + 1;
    }
  }

  /** The header and payload both serialisers lay out. */
  method LayOut(buffer: array<Byte>, c: Content)
    requires IPC_HEADER_SIZE + |c.payload| <= buffer.Length
    modifies buffer
    ensures buffer[..] == Frame(c) + old(buffer[IPC_HEADER_SIZE + |c.payload|..])
  {
    LayOutHeader(buffer, c.msgType, |c.payload| % TWO_32, c.userType);
    var header := [c.msgType] + PutBig32(|c.payload| % TWO_32) + [c.userType];
    assert buffer[..IPC_HEADER_SIZE] == header;
    assert buffer[IPC_HEADER_SIZE + |c.payload|..] == old(buffer[IPC_HEADER_SIZE + |c.payload|..]);
    CopyAt(buffer, IPC_HEADER_SIZE, c.payload);
    assert header + c.payload == Frame(c);
  }

  method LayOutHeader(buffer: array<Byte>, msgType: Byte, length: nat, userType: Byte)
    requires IPC_HEADER_SIZE <= buffer.Length && length < TWO_32
    modifies buffer
    ensures buffer[..IPC_HEADER_SIZE] == [msgType] + PutBig32(length) + [userType]
    ensures forall k :: IPC_HEADER_SIZE <= k < buffer.Length ==> buffer[k] == old(buffer[k])
  {
    CopyAt(buffer, 0, [msgType]);
    CopyAt(buffer, 1, PutBig32(length));
    CopyAt(buffer, 5, [userType]);
  }

  /** ipc_message_raw_serialize: the bytes of format_write, without its limit;
      the returned size is a 32-bit number. */
  method RawSerialize(buffer: array<Byte>, msgType: Byte, userType: Byte, message: seq<Byte>) returns (msize: nat)
    requires IPC_HEADER_SIZE + |message| <= buffer.Length
    modifies buffer
    ensures msize == (IPC_HEADER_SIZE + |message|) % TWO_32
    ensures var c := Content(msgType, userType, message);
            && buffer[..IPC_HEADER_SIZE + |message|] == Frame(c)
            && (Encode(c).Some? ==> buffer[..msize] == Encode(c).value)
    ensures buffer[IPC_HEADER_SIZE + |message|..] == old(buffer[IPC_HEADER_SIZE + |message|..])
  {
    msize := (IPC_HEADER_SIZE + |message|) % TWO_32;
    LayOut(buffer, Content(msgType, userType, message));
  }

  /** What ipc_message_format_write ends with: a refusal, the message laid out,
      or bytes written past the end of the buffer it was given. */
  datatype Written = Refused | LaidOut | Overrun

  /** ipc_message_format_write: a missing buffer is allocated, the size of a given
      one is not known to it. */
  method FormatWrite(c: Content, given: array?<Byte>) returns (r: Written, buffer: array?<Byte>, msize: nat)
    modifies if given == null then {} else {given}
    ensures r.Refused? <==> Encode(c).None?
    ensures r.Overrun? <==> Encode(c).Some? && given != null && given.Length < IPC_HEADER_SIZE + |c.payload|
    ensures r.LaidOut? ==> buffer != null && (given != null ==> buffer == given) && (given == null ==> fresh(buffer))
    ensures r.LaidOut? ==> msize <= buffer.Length && buffer[..msize] == Encode(c).value
    ensures r.Refused? ==> msize == 0 && buffer == given && (given != null ==> given[..] == old(given[..]))
  {
    r, buffer, msize := Refused, given, 0;
    if |c.payload| > IPC_MAX_MESSAGE_SIZE {
      return;
    }
    if buffer == null {
      buffer := new Byte[IPC_HEADER_SIZE + |c.payload|](_ => 0);
    }
    if IPC_HEADER_SIZE + |c.payload| > buffer.Length {
      r := Overrun;  // the C code writes on
      return;
    }
    LayOut(buffer, c);
    r, msize := LaidOut, IPC_HEADER_SIZE + |c.payload|;
  }

  /** ipc_write_fd and default_cb_out up to send: what is sent, or None when the
      local buffer of IPC_MAX_MESSAGE_SIZE bytes is overrun. The answer of
      ipc_message_format_write is not looked at. */
  function Sent(c: Content): Option<seq<Byte>> {
    match Encode(c)
    case None => Some([])
    case Some(f) => if |f| <= IPC_MAX_MESSAGE_SIZE then Some(f) else None
  }

  method WriteFd(c: Content) returns (sent: Option<seq<Byte>>)
    ensures sent == Sent(c)
  {
    var buf := new Byte[IPC_MAX_MESSAGE_SIZE](_ => 0);
    var r, _, msize := FormatWrite(c, buf);
    sent := if r.Overrun? then None else Some(buf[..msize]);
  }

  /** What is sent is read back as the message exactly up to six bytes less than
      the limit. The six lengths above overrun the buffer; a longer message is
      refused, but nobody looks: nothing is sent and the message is lost. */
  lemma SendExact(c: Content)
    ensures var n := |c.payload|;
            && (Sent(c).Some? && |Sent(c).value| >= IPC_HEADER_SIZE
                && Decode(Sent(c).value, |Sent(c).value|) == Some(c)
                <==> n <= IPC_MAX_MESSAGE_SIZE - IPC_HEADER_SIZE)
            && (Sent(c) == None <==> IPC_MAX_MESSAGE_SIZE - IPC_HEADER_SIZE < n <= IPC_MAX_MESSAGE_SIZE)
            && (Sent(c) == Some([]) <==> n > IPC_MAX_MESSAGE_SIZE)
  {
    RoundTrip(c);
  }

  /** struct ipc_message, as far as the codec fills it. */
  class Record {
    var msgType: Byte
    var userType: Byte
    var length: nat
    var payload: seq<Byte>

    constructor ()
      ensures msgType == 0 && userType == 0 && length == 0 && payload == []
    {
      msgType, userType, length, payload := 0, 0, 0, [];
    }

    /** ipc_message_format_read: fields are filled before the checks, so a
        refused buffer may leave a header behind, but never a payload. */
    method FormatRead(buf: array<Byte>, msize: nat) returns (ok: bool)
      requires IPC_HEADER_SIZE <= buf.Length && msize <= buf.Length
      modifies this
      ensures ok <==> Decode(buf[..], msize).Some?
      ensures ok ==> Decode(buf[..], msize) == Some(Content(msgType, userType, payload)) && length == |payload|
      ensures !ok ==> payload == old(payload)
    {
      if msize > IPC_MAX_MESSAGE_SIZE {
        return false;
      }
      msgType := buf[0];
      assert buf[..][1..5] == buf[1..5];
      length := GetBig32(buf[1..5]);
      userType := buf[5];
      if length > IPC_MAX_MESSAGE_SIZE {
        return false;
      }
      if length != Minus64(msize, IPC_HEADER_SIZE) && length != 0 {
        return false;
      }
      payload := buf[IPC_HEADER_SIZE..IPC_HEADER_SIZE + length];
      assert buf[..][IPC_HEADER_SIZE..IPC_HEADER_SIZE + length] == payload;
      ok := true;
    }
  }
}
