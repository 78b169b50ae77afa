/** SwitchDB: the table of switched descriptors and the default callbacks. */
module ZigSwitch {
  import opened Wrappers
  import opened SendQueue
  import opened Bytes
  import opened ZigTypes
  import opened SwitchTable
  import ZigWire

  datatype CallbackEvent = NO_ERROR | CB_ERROR | FD_CLOSING | IGNORE

  /** default_in: one read into the switch buffer; less than a header counts as
      a disconnection. */
  function DefaultIn(recv: Recv): (CallbackEvent, seq<Byte>) {
    match recv
    case Arrived(bytes) =>
      var got := Take(bytes, ZigWire.SWITCH_BUFFER_SIZE);
      if |got| < ZigWire.HEADER_SIZE then (FD_CLOSING, []) else (NO_ERROR, got)
    case _ => (CB_ERROR, [])
  }

  /** default_out: one write. */
  function DefaultOut(sent: bool): CallbackEvent {
    if sent then NO_ERROR else CB_ERROR
  }

  datatype SwitchResult<+T> = Fine(value: T) | CloseFd | Generic | UnregisteredFd

  /** SwitchDB.read. */
  function Read(db: Table, fd: Fd, got: (CallbackEvent, seq<Byte>)): SwitchResult<Option<Packet>> {
    if fd !in db then UnregisteredFd
    else match got.0
      case IGNORE => Fine(None)
      case NO_ERROR => (
        match ZigWire.Decode(got.1)
        case Payload(p) => Fine(Some(Message(db[fd], p)))
        case _ => Generic)
      case FD_CLOSING => CloseFd
      case CB_ERROR => Generic
  }

  /** SwitchDB.write: only the outcome; the bytes are ZigWire.SwitchPacket. */
  function Write(db: Table, fd: Fd, out: CallbackEvent): SwitchResult<()> {
    if fd !in db then UnregisteredFd
    else match out
      case NO_ERROR => Fine(())
      case FD_CLOSING => CloseFd
      case IGNORE => Generic
      case CB_ERROR => Generic
  }

  function EventOfRead(index: nat, fd: Fd, r: SwitchResult<Option<Packet>>): Event {
    match r
    case Fine(m) => Event(SWITCH_RX, index, fd, m)
    case CloseFd => Event(DISCONNECTION, index, fd, None)
    case _ => Event(ERROR, index, fd, None)
  }

  function EventOfWrite(index: nat, fd: Fd, r: SwitchResult<()>): Event {
    match r
    case Fine(_) => Event(SWITCH_TX, index, fd, None)
    case CloseFd => Event(DISCONNECTION, index, fd, None)
    case _ => Event(ERROR, index, fd, None)
  }

  function HandleEventRead(db: Table, index: nat, fd: Fd, recv: Recv): Event {
    EventOfRead(index, fd, Read(db, fd, DefaultIn(recv)))
  }

  function HandleEventWrite(db: Table, index: nat, m: Packet, sent: bool): Event {
    EventOfWrite(index, m.fd, Write(db, m.fd, DefaultOut(sent)))
  }

  /** The part of a packet a switched read can use, if there is one. */
  function SwitchedIn(recv: Recv): Option<seq<Byte>> {
    if recv.Arrived? && ZigWire.Fits(Take(recv.bytes, ZigWire.SWITCH_BUFFER_SIZE))
    then Some(ZigWire.FramePrefix(Take(recv.bytes, ZigWire.SWITCH_BUFFER_SIZE)))
    else None
  }

  /** Less than a header has arrived. */
  predicate FallsShort(recv: Recv) {
    recv.Arrived? && |recv.bytes| < ZigWire.HEADER_SIZE
  }

  /** What SwitchDB makes of what a switched descriptor receives. */
  lemma SwitchedEvent(db: Table, i: nat, fd: Fd, recv: Recv)
    requires fd in db
    ensures var e := HandleEventRead(db, i, fd, recv);
            if SwitchedIn(recv).Some? then
              e == Event(SWITCH_RX, i, fd,
                         Some(Message(db[fd], SwitchedIn(recv).value[ZigWire.HEADER_SIZE..])))
            else
              e == Event(if FallsShort(recv) then DISCONNECTION else ERROR, i, fd, None)
  {
    if SwitchedIn(recv).Some? {
      var got := Take(recv.bytes, ZigWire.SWITCH_BUFFER_SIZE);
      assert ZigWire.FramePrefix(got)[ZigWire.HEADER_SIZE..]
          == got[ZigWire.HEADER_SIZE..ZigWire.HEADER_SIZE + GetBig32(got)];
    }
  }

  /** What a callback answers decides the event, for whatever callback. A read
      that is ignored is reported like a message, without one. */
  lemma CallbackEvents(db: Table, i: nat, fd: Fd, answer: CallbackEvent, got: seq<Byte>)
    ensures var e := EventOfRead(i, fd, Read(db, fd, (answer, got)));
            && e.index == i && e.origin == fd
            && (e.t == SWITCH_RX <==> fd in db && (answer == IGNORE || (answer == NO_ERROR && ZigWire.Fits(got))))
            && (e.t == DISCONNECTION <==> fd in db && answer == FD_CLOSING)
            && e.t in {SWITCH_RX, DISCONNECTION, ERROR}
            && (e.m.Some? <==> e.t == SWITCH_RX && answer == NO_ERROR)
            && (e.m.Some? ==> e.m.value == Message(db[fd], ZigWire.FramePrefix(got)[ZigWire.HEADER_SIZE..]))
    ensures var e := EventOfWrite(i, fd, Write(db, fd, answer));
            && e.index == i && e.origin == fd && e.m == None
            && (e.t == SWITCH_TX <==> fd in db && answer == NO_ERROR)
            && (e.t == DISCONNECTION <==> fd in db && answer == FD_CLOSING)
            && e.t in {SWITCH_TX, DISCONNECTION, ERROR}
  {
    if ZigWire.Fits(got) {
      assert ZigWire.FramePrefix(got)[ZigWire.HEADER_SIZE..]
          == got[ZigWire.HEADER_SIZE..ZigWire.HEADER_SIZE + GetBig32(got)];
    }
  }

  class SwitchDB {
    var db: Table

    constructor ()
      ensures db == map[]
    {
      db := map[];
    }

    method AddSwitch(fd1: Fd, fd2: Fd)
      modifies this
      ensures db == Put(old(db), fd1, fd2)
      ensures Symmetric(old(db)) ==> (Symmetric(db) <==> PairFree(old(db), fd1, fd2))
    {
      if Symmetric(db) {
        PutSymmetric(db, fd1, fd2);
      }
      db := db[fd1 := fd2];
      db := db[fd2 := fd1];
    }

    /** None stands for the unwrapping of a null entry. In a symmetric table the
        answer is the other end of the pair: asking for it leads back to fd. */
    method GetDest(fd: Fd) returns (dest: Option<Fd>)
      ensures dest.None? <==> fd !in db
      ensures dest.Some? ==> (fd, dest.value) in db.Items
      ensures dest.Some? && Symmetric(db) ==> (dest.value, fd) in db.Items
    {
      dest := if fd in db then Some(db[fd]) else None;
    }

    /** fetchSwapRemove of the key, then swapRemove of the value it held. */
    method Nuke(fd: Fd)
      modifies this
      ensures db == SwitchTable.Nuke(old(db), fd)
      ensures Symmetric(old(db)) ==> Symmetric(db) && fd !in db
    {
      if fd in db {
        var dest := db[fd];
        db := db - {fd};
        db := db - {dest};
      }
    }

    method OnRead(index: nat, fd: Fd, recv: Recv) returns (e: Event)
      ensures e == HandleEventRead(db, index, fd, recv)
      ensures e.t == SWITCH_RX <==> fd in db && SwitchedIn(recv).Some?
      ensures e.index == index && e.origin == fd
      ensures e.t == DISCONNECTION <==> fd in db && FallsShort(recv)
      ensures e.t in {SWITCH_RX, DISCONNECTION, ERROR}
      ensures e.t == SWITCH_RX ==>
                e.m == Some(Message(db[fd], SwitchedIn(recv).value[ZigWire.HEADER_SIZE..]))
    {
      if fd in db {
        SwitchedEvent(db, index, fd, recv);
      }
      var got := DefaultIn(recv);
      var r := Read(db, fd, got);
      match r {
        case Fine(m) => e := Event(SWITCH_RX, index, fd, m);
        case CloseFd => e := Event(DISCONNECTION, index, fd, None);
        case UnregisteredFd => e := Event(ERROR, index, fd, None);
        case Generic => e := Event(ERROR, index, fd, None);
      }
    }

    /** The packet is what default_out was given, if it was called at all. */
    method OnWrite(index: nat, m: Packet, sent: bool) returns (e: Event, packet: Option<seq<Byte>>)
      ensures e == HandleEventWrite(db, index, m, sent)
      ensures e == Event(if m.fd in db && sent then SWITCH_TX else ERROR, index, m.fd, None)
      ensures packet == if m.fd in db then Some(ZigWire.SwitchPacket(m.payload)) else None
    {
      if m.fd !in db {
        return Event(ERROR, index, m.fd, None), None;
      }
      var bytes := ZigWire.LayOutSwitched(m.payload);
      packet := Some(bytes);
      match DefaultOut(sent) {
        case NO_ERROR => e := Event(SWITCH_TX, index, m.fd, None);
        case FD_CLOSING => e := Event(DISCONNECTION, index, m.fd, None);
        case IGNORE => e := Event(ERROR, index, m.fd, None);
        case CB_ERROR => e := Event(ERROR, index, m.fd, None);
      }
    }
  }
}
