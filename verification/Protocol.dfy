/** The messages of a netevent 2 session and their bytes. */
module Protocol {
  import opened Bytes
  import opened Devices
  import opened AddDevice

  const KEEP_ALIVE := 0
  const ADD_DEVICE := 1
  const REMOVE_DEVICE := 2
  const DEVICE_EVENT := 3
  const HELLO := 4
  const VERSION := 2
  /** "NE2Hello" */
  const MAGIC: seq<byte> := [0x4e, 0x45, 0x32, 0x48, 0x65, 0x6c, 0x6c, 0x6f]

  datatype Message =
    | Hello
    | KeepAlive
    | Add(id: u16, device: Device)
    | Remove(id: u16)
    | Event(id: u16, event: InputEvent)

  function EncodeEvent(e: InputEvent): (s: seq<byte>)
    ensures |s| == 24
  {
    U64(e.sec) + U32(e.usec) + U16(e.kind) + U16(e.code) + I32(e.value) + Zeros(4)
  }

  function DecodeEvent(s: seq<byte>): InputEvent
    requires |s| == 24
  {
    InputEvent(FromU64(s[0..8]), FromU32(s[8..12]), FromU16(s[12..14]), FromU16(s[14..16]), FromI32(s[16..20]))
  }

  lemma EventRoundTrip(e: InputEvent)
    ensures DecodeEvent(EncodeEvent(e)) == e
  {
    var s := EncodeEvent(e);
    assert s[0..8] == U64(e.sec) && s[8..12] == U32(e.usec) && s[12..14] == U16(e.kind);
    assert s[14..16] == U16(e.code) && s[16..20] == I32(e.value);
    U64RoundTrip(e.sec);
    U32RoundTrip(e.usec);
    I32RoundTrip(e.value);
  }

  /** The first 28 bytes of every message. */
  function Packet(m: Message): (s: seq<byte>)
    ensures |s| == PACKET_SIZE
  {
    match m
    case Hello => U16(HELLO) + U16(VERSION) + MAGIC + Zeros(16)
    case KeepAlive => U16(KEEP_ALIVE) + Zeros(26)
    case Add(id, _) => AddPacket(id)
    case Remove(id) => U16(REMOVE_DEVICE) + U16(id) + Zeros(24)
    case Event(id, e) => U16(DEVICE_EVENT) + U16(id) + EncodeEvent(e)
  }

  function Encode(m: Message): (s: seq<byte>)
    ensures |s| >= PACKET_SIZE
  {
    Packet(m) + (if m.Add? then Body(m.device) else [])
  }

  function EncodeAll(ms: seq<Message>): seq<byte> {
    if ms == [] then [] else Encode(ms[0]) + EncodeAll(ms[1..])
  }

  lemma {:induction false} EncodeAllAppend(ms: seq<Message>, more: seq<Message>)
    ensures EncodeAll(ms + more) == EncodeAll(ms) + EncodeAll(more)
  {
    if ms == [] {
      assert ms + more == more;
    } else {
      assert (ms + more)[1..] == ms[1..] + more;
      EncodeAllAppend(ms[1..], more);
    }
  }

  // The fields a receiver looks at.
  function Command(pkt: seq<byte>): u16
    requires |pkt| == PACKET_SIZE
  {
    FromU16(pkt[0..2])
  }

  function IdOf(pkt: seq<byte>): u16
    requires |pkt| == PACKET_SIZE
  {
    FromU16(pkt[2..4])
  }

  /** The hello check; `None` is a good packet. */
  function HelloError(pkt: seq<byte>): Option<Error>
    requires |pkt| == PACKET_SIZE
  {
    if Command(pkt) != HELLO then Some(NotHello)
    else if pkt[4..12] != MAGIC then Some(BadMagic)
    else if FromU16(pkt[2..4]) != VERSION then Some(VersionMismatch)
    else None
  }

  lemma PacketFields(m: Message)
    ensures Command(Packet(m)) == match m case Hello => HELLO case KeepAlive => KEEP_ALIVE case Add(_, _) => ADD_DEVICE
                                          case Remove(_) => REMOVE_DEVICE case Event(_, _) => DEVICE_EVENT
    ensures m.Add? || m.Remove? || m.Event? ==> IdOf(Packet(m)) == m.id
    ensures m.Hello? ==> HelloError(Packet(m)) == None
    ensures m.Event? ==> DecodeEvent(Packet(m)[4..]) == m.event
  {
    var p := Packet(m);
    match m
    case Hello =>
      assert p[0..2] == U16(HELLO) && p[2..4] == U16(VERSION) && p[4..12] == MAGIC;
    case KeepAlive =>
      assert p[0..2] == U16(KEEP_ALIVE);
    case Add(id, _) =>
      AddPacketFields(id);
    case Remove(id) =>
      assert p[0..2] == U16(REMOVE_DEVICE) && p[2..4] == U16(id);
    case Event(id, e) =>
      assert p[0..2] == U16(DEVICE_EVENT) && p[2..4] == U16(id) && p[4..] == EncodeEvent(e);
      EventRoundTrip(e);
  }
}
