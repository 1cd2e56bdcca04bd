/** The bytes on the wire as numbers: where each field stands and how it is written there. */
module Wire {
  import opened Bytes
  import opened BitField
  import opened Devices
  import opened AddDevice
  import opened Protocol
  import opened Legacy

  // ----- network and host order -----

  /** The number some bytes are, the most significant first. */
  function Big(s: seq<byte>): nat {
    if s == [] then 0 else 0x100 * Big(s[..|s| - 1]) + s[|s| - 1]
  }

  /** The number some bytes are, the least significant first. */
  function Little(s: seq<byte>): nat {
    if s == [] then 0 else s[0] + 0x100 * Little(s[1..])
  }

  /** What a 32-bit number is worth with its sign. */
  function Signed(x: nat): int {
    if x < 0x8000_0000 then x else x - 0x1_0000_0000
  }

  lemma BigTwo(s: seq<byte>)
    requires |s| == 2
    ensures Big(s) == 0x100 * s[0] as int + s[1] as int
  {
    assert s[..1][..0] == [] && s[..1][0] == s[0];
    assert Big(s[..1]) == s[0];
  }

  lemma BigFour(s: seq<byte>)
    requires |s| == 4
    ensures Big(s) == 0x1_0000 * Big(s[..2]) + Big(s[2..])
  {
    BigTwo(s[2..]);
    assert s[..3][..2] == s[..2] && s[..3][2] == s[2];
    assert Big(s[..3]) == 0x100 * Big(s[..2]) + s[2] as int;
  }

  lemma BigEight(s: seq<byte>)
    requires |s| == 8
    ensures Big(s) == 0x1_0000_0000 * Big(s[..4]) + Big(s[4..])
  {
    var t := s[4..];
    BigFour(t);
    BigTwo(t[..2]);
    BigTwo(t[2..]);
    assert s[..7][..6] == s[..6] && s[..6][..5] == s[..5] && s[..5][..4] == s[..4];
    assert Big(s[..5]) == 0x100 * Big(s[..4]) + s[4] as int;
    assert Big(s[..6]) == 0x100 * Big(s[..5]) + s[5] as int;
    assert Big(s[..7]) == 0x100 * Big(s[..6]) + s[6] as int;
  }

  lemma U16IsBig(x: u16)
    ensures Big(U16(x)) == x
  {
    BigTwo(U16(x));
  }

  lemma U32IsBig(x: u32)
    ensures Big(U32(x)) == x
  {
    var s := U32(x);
    BigFour(s);
    assert s[..2] == U16(x / 0x1_0000) && s[2..] == U16(x % 0x1_0000);
    U16IsBig(x / 0x1_0000);
    U16IsBig(x % 0x1_0000);
  }

  lemma U64IsBig(x: u64)
    ensures Big(U64(x)) == x
  {
    var s := U64(x);
    BigEight(s);
    assert s[..4] == U32(x / 0x1_0000_0000) && s[4..] == U32(x % 0x1_0000_0000);
    U32IsBig(x / 0x1_0000_0000);
    U32IsBig(x % 0x1_0000_0000);
  }

  lemma I32IsBig(x: i32)
    ensures Signed(Big(I32(x))) == x
  {
    U32IsBig(x % 0x1_0000_0000);
  }

  lemma LittleTwo(s: seq<byte>)
    requires |s| == 2
    ensures Little(s) == s[0] as int + 0x100 * s[1] as int
  {
    assert s[1..][1..] == [] && s[1..][0] == s[1];
    assert Little(s[1..]) == s[1];
  }

  lemma LittleFour(s: seq<byte>)
    requires |s| == 4
    ensures Little(s) == s[0] as int + 0x100 * s[1] as int + 0x1_0000 * s[2] as int + 0x100_0000 * s[3] as int
  {
    var t := s[1..][1..];
    assert t == s[2..];
    LittleTwo(t);
    assert Little(s[1..]) == s[1] as int + 0x100 * Little(t);
  }

  lemma HostU16IsLittle(x: u16)
    ensures Little(HostU16(x)) == x
  {
    LittleTwo(HostU16(x));
  }

  lemma SwappedIsLittle(s: seq<byte>)
    requires |s| == 4
    ensures Little(Swapped(s)) == Big(s)
  {
    LittleFour(Swapped(s));
    BigFour(s);
    BigTwo(s[..2]);
    BigTwo(s[2..]);
    assert Big(s[..2]) == 0x100 * s[0] as int + s[1] as int && Big(s[2..]) == 0x100 * s[2] as int + s[3] as int;
    assert Swapped(s)[0] == s[3] && Swapped(s)[1] == s[2] && Swapped(s)[2] == s[1] && Swapped(s)[3] == s[0];
  }

  lemma HostI32IsLittle(x: i32)
    ensures Signed(Little(HostI32(x))) == x
  {
    SwappedIsLittle(I32(x));
    I32IsBig(x);
  }

  // ----- packets -----

  predicate ZeroFrom(s: seq<byte>, i: nat) {
    forall j :: i <= j < |s| ==> s[j] == 0
  }

  /** The command, and the number after it, of every packet. */
  ghost predicate Starts(p: seq<byte>, command: nat, second: nat) {
    |p| == 28 && Big(p[0..2]) == command && Big(p[2..4]) == second
  }

  lemma StartNumbers(command: u16, second: u16, rest: seq<byte>)
    requires |rest| == 24
    ensures Starts(U16(command) + U16(second) + rest, command, second)
    ensures (U16(command) + U16(second) + rest)[4..] == rest
  {
    var p := U16(command) + U16(second) + rest;
    assert p[0..2] == U16(command) && p[2..4] == U16(second);
    U16IsBig(command);
    U16IsBig(second);
  }

  lemma HelloNumbers()
    ensures var p := Packet(Hello);
            && Starts(p, 4, 2) && ZeroFrom(p, 12)
            && forall i :: 0 <= i < 8 ==> p[4 + i] == "NE2Hello"[i] as int
  {
    var rest := MAGIC + Zeros(16);
    Regroup(U16(HELLO) + U16(VERSION), MAGIC, Zeros(16), []);
    StartNumbers(4, 2, rest);
    var p := Packet(Hello);
    assert p == U16(4) + U16(2) + rest;
    assert forall i :: 0 <= i < 8 ==> p[4 + i] == MAGIC[i];
    assert forall j :: 12 <= j < 28 ==> p[j] == Zeros(16)[j - 12];
  }

  lemma KeepAliveNumbers()
    ensures |Packet(KeepAlive)| == 28 && ZeroFrom(Packet(KeepAlive), 0)
  {}

  lemma RemoveNumbers(id: u16)
    ensures Starts(Packet(Remove(id)), 2, id) && ZeroFrom(Packet(Remove(id)), 4)
  {
    StartNumbers(2, id, Zeros(24));
    var p := Packet(Remove(id));
    assert forall j :: 4 <= j < 28 ==> p[j] == p[4..][j - 4];
  }

  /** Followed by the size of the user device structure and that of the name. */
  lemma AddNumbers(id: u16, d: Device)
    ensures var p := Packet(Add(id, d));
            Starts(p, 1, id) && Big(p[4..6]) == 1116 && Big(p[6..8]) == 80 && ZeroFrom(p, 8)
  {
    var rest := U16(USER_DEV_SIZE) + (U16(NAME_SIZE) + Zeros(20));
    var p := Packet(Add(id, d));
    Regroup(U16(1) + U16(id), U16(USER_DEV_SIZE), U16(NAME_SIZE), Zeros(20));
    assert p == U16(1) + U16(id) + rest;
    StartNumbers(1, id, rest);
    assert p[4..6] == rest[0..2] == U16(USER_DEV_SIZE) && p[6..8] == rest[2..4] == U16(NAME_SIZE);
    U16IsBig(USER_DEV_SIZE);
    U16IsBig(NAME_SIZE);
    assert forall j :: 8 <= j < 28 ==> p[j] == rest[j - 4] == Zeros(20)[j - 8];
  }

  /** The fields of an event, with the padding the sender leaves zero. */
  ghost predicate EventAt(s: seq<byte>, e: InputEvent) {
    && |s| == 24 && Big(s[0..8]) == e.sec && Big(s[8..12]) == e.usec && Big(s[12..14]) == e.kind
    && Big(s[14..16]) == e.code && Signed(Big(s[16..20])) == e.value && ZeroFrom(s, 20)
  }

  lemma EventFields(e: InputEvent)
    ensures EventAt(EncodeEvent(e), e)
  {
    var s := EncodeEvent(e);
    assert s[0..8] == U64(e.sec) && s[8..12] == U32(e.usec) && s[12..14] == U16(e.kind);
    assert s[14..16] == U16(e.code) && s[16..20] == I32(e.value);
    assert forall j :: 20 <= j < 24 ==> s[j] == Zeros(4)[j - 20];
    U64IsBig(e.sec);
    U32IsBig(e.usec);
    U16IsBig(e.kind);
    U16IsBig(e.code);
    I32IsBig(e.value);
  }

  lemma EventNumbers(id: u16, e: InputEvent)
    ensures Starts(Packet(Event(id, e)), 3, id) && EventAt(Packet(Event(id, e))[4..], e)
  {
    StartNumbers(3, id, EncodeEvent(e));
    EventFields(e);
  }

  // ----- the netevent 2 description -----

  /** The name, four numbers of the id, the number of types, and the event bytes. */
  lemma HeadNumbers(d: Device)
    ensures var s := Body(d);
            && |s| >= 94 && s[0..80] == d.name
            && Big(s[80..82]) == d.id.bustype && Big(s[82..84]) == d.id.vendor
            && Big(s[84..86]) == d.id.product && Big(s[86..88]) == d.id.version
            && Big(s[88..90]) == 31 && s[90..94] == d.evbits
  {
    var s, h, i := Body(d), Head(d), EncodeId(d.id);
    assert s[..80] == h[..80] && s[80..88] == h[80..88] && s[88..90] == h[88..90] && s[90..94] == h[90..];
    Four(U16(d.id.bustype), U16(d.id.vendor), U16(d.id.product), U16(d.id.version));
    assert s[80..82] == s[80..88][0..2] && s[82..84] == s[80..88][2..4];
    assert s[84..86] == s[80..88][4..6] && s[86..88] == s[80..88][6..8];
    U16IsBig(d.id.bustype);
    U16IsBig(d.id.vendor);
    U16IsBig(d.id.product);
    U16IsBig(d.id.version);
    U16IsBig(EV_MAX);
  }

  /** A section: the number of bits, the smallest whole number of longs above the greatest code, and
      the bitmap of that size. */
  lemma SectionNumbers(d: Device, t: nat)
    requires t < EV_MAX
    ensures var s := Sections(d, t);
            if d.evbits[t / 8] / Pow2(t % 8) % 2 == 1 && HasCodes(t) then
              var size := CodeCount(t);
              && |s| >= 2 + size / 8 && Big(s[0..2]) == size && CodeMax(t) < size <= CodeMax(t) + 64 && size % 64 == 0
              && s[2..2 + size / 8] == d.codes[t] && s[2 + size / 8..] == Sections(d, t + 1)
            else s == Sections(d, t + 1)
  {
    SentIsDigit(d.evbits, t);
    if Sent(d.evbits, t) {
      U16IsBig(CodeCount(t));
      CountIsLeast(t);
      ThreeParts(U16(CodeCount(t)), d.codes[t], Sections(d, t + 1));
    }
  }

  /** The types with a section, and how many bits each has. */
  lemma SectionSizes(t: nat)
    ensures HasCodes(t) <==> t in {1, 2, 3, 4, 5, 17, 18, 21}
    ensures HasCodes(t) ==> CodeCount(t) == if t == 1 then 768 else if t == 21 then 128 else 64
  {}

  lemma CountIsLeast(t: nat)
    requires HasCodes(t)
    ensures CodeMax(t) < CodeCount(t) <= CodeMax(t) + 64 && CodeCount(t) % 64 == 0
    ensures ByteSize(CodeCount(t)) == CodeCount(t) / 8
  {}

  lemma ThreeParts<T>(a: seq<T>, b: seq<T>, c: seq<T>)
    ensures var s := a + b + c;
            s[0..|a|] == a && s[|a|..|a| + |b|] == b && s[|a| + |b|..] == c
  {
    Middle(a, b, c);
    Split(a + b, c);
    Split(a, b + c);
    Regroup(a, b, c, []);
  }

  lemma AxisNumbers(a: Axis)
    ensures var s := EncodeAxis(a);
            && Signed(Big(s[0..4])) == a.value && Signed(Big(s[4..8])) == a.minimum
            && Signed(Big(s[8..12])) == a.maximum && Signed(Big(s[12..16])) == a.fuzz
            && Signed(Big(s[16..20])) == a.flat && Signed(Big(s[20..24])) == a.resolution
  {
    Six(I32(a.value), I32(a.minimum), I32(a.maximum), I32(a.fuzz), I32(a.flat), I32(a.resolution));
    I32IsBig(a.value);
    I32IsBig(a.minimum);
    I32IsBig(a.maximum);
    I32IsBig(a.fuzz);
    I32IsBig(a.flat);
    I32IsBig(a.resolution);
  }

  /** Behind the sections stand the axis records, and four zero bytes. */
  lemma TailNumbers(d: Device)
    ensures var records := AxisRecords(AbsBits(d).bytes, d.axes, 0, AbsBits(d).count);
            Body(d) == Body(d)[..94] + Sections(d, 0) + records + [0, 0, 0, 0]
  {
    var records := AxisRecords(AbsBits(d).bytes, d.axes, 0, AbsBits(d).count);
    assert Zeros(4) == [0, 0, 0, 0];
    Regroup(Head(d), Sections(d, 0), records, Zeros(4));
    Split(Head(d), Sections(d, 0) + Tail(d));
  }

  // ----- the netevent 1 header -----

  lemma HeaderNumbers(d: Device, states: map<nat, seq<byte>>)
    requires StateShape(states)
    ensures var s := Header(d, states);
            && Little(s[0..2]) == 1116 && s[2..82] == d.name
            && Little(s[82..84]) == d.id.bustype && Little(s[84..86]) == d.id.vendor
            && Little(s[86..88]) == d.id.product && Little(s[88..90]) == d.id.version && s[90..94] == d.evbits
  {
    var s, h := Header(d, states), HeaderHead(d);
    HeaderBegins(d, states);
    Four(HostU16(USER_DEV_SIZE), d.name, HostId(d.id), d.evbits);
    assert s[0..2] == h[0..2] && s[2..82] == h[2..82] && s[90..94] == h[90..94];
    HostU16IsLittle(USER_DEV_SIZE);
    HostIdNumbers(d.id);
    assert s[82..84] == h[82..90][0..2] && s[84..86] == h[82..90][2..4];
    assert s[86..88] == h[82..90][4..6] && s[88..90] == h[82..90][6..8];
  }

  lemma HeaderBegins(d: Device, states: map<nat, seq<byte>>)
    requires StateShape(states)
    ensures |Header(d, states)| >= 94 && Header(d, states)[..94] == HeaderHead(d)
  {
    ListsFit();
    Split(HeaderHead(d), Entries(d, ENTRIES) + (StateDump(d, states, STATES) + AnyAxisDump(d)));
  }

  lemma HostIdNumbers(id: InputId)
    ensures var s := HostId(id);
            && Little(s[0..2]) == id.bustype && Little(s[2..4]) == id.vendor
            && Little(s[4..6]) == id.product && Little(s[6..8]) == id.version
  {
    Four(HostU16(id.bustype), HostU16(id.vendor), HostU16(id.product), HostU16(id.version));
    HostU16IsLittle(id.bustype);
    HostU16IsLittle(id.vendor);
    HostU16IsLittle(id.product);
    HostU16IsLittle(id.version);
  }

  /** The array of a type, if its event bit is set. */
  function Array(d: Device, t: nat, bytes: seq<byte>): seq<byte>
    requires t < EV_MAX
  {
    if d.evbits[t / 8] / Pow2(t % 8) % 2 == 1 then bytes else []
  }

  /** The order of the arrays: keys, absolute axes, relative axes, the rest by number; then the states
      of keys, leds and switches, each with as many bytes as its greatest code asks for. */
  lemma HeaderOrder(d: Device, states: map<nat, seq<byte>>)
    requires StateShape(states)
    ensures Header(d, states)[94..]
            == Array(d, 1, d.codes[1][..96]) + Array(d, 3, d.codes[3][..8]) + Array(d, 2, d.codes[2][..2])
               + Array(d, 4, d.codes[4][..1]) + Array(d, 5, d.codes[5][..3]) + Array(d, 17, d.codes[17][..2])
               + Array(d, 1, states[1]) + Array(d, 17, states[17]) + Array(d, 5, states[5])
               + Array(d, 3, AxisDump(d, 0))
    ensures |states[1]| == 96 && |states[17]| == 2 && |states[5]| == 3
  {
    ListsFit();
    EntriesOrder(d);
    StatesOrder(d, states);
    BitIsDigit(d.evbits[0], 3);
    var a, b, c := Entries(d, ENTRIES), StateDump(d, states, STATES), AnyAxisDump(d);
    Split(HeaderHead(d), a + (b + c));
    assert c == Array(d, 3, AxisDump(d, 0));
    var s1, s2, s3 := Array(d, 1, states[1]), Array(d, 17, states[17]), Array(d, 5, states[5]);
    Regroup(a, s1, s2, s3);
    Regroup(s1, s2, s3, []);
    Regroup(a, b, c, []);
  }

  lemma FirstEntry(d: Device, ts: seq<nat>)
    requires ts != [] && EntryTypes(ts)
    ensures Entries(d, ts) == Array(d, ts[0], EntryBytes(d, ts[0])) + Entries(d, ts[1..])
  {
    assert HasEntry(ts[0]);
    BitIsDigit(d.evbits[ts[0] / 8], ts[0] % 8);
  }

  lemma SixEntries(d: Device, ts: seq<nat>)
    requires EntryTypes(ts) && |ts| == 6
    ensures Entries(d, ts)
            == Array(d, ts[0], EntryBytes(d, ts[0])) + Array(d, ts[1], EntryBytes(d, ts[1]))
               + Array(d, ts[2], EntryBytes(d, ts[2])) + Array(d, ts[3], EntryBytes(d, ts[3]))
               + Array(d, ts[4], EntryBytes(d, ts[4])) + Array(d, ts[5], EntryBytes(d, ts[5]))
  {
    FirstEntry(d, ts);
    FirstEntry(d, ts[1..]);
    assert ts[1..][1..] == ts[2..] && ts[2..][1..] == ts[3..] && ts[3..][1..] == ts[4..];
    assert ts[4..][1..] == ts[5..] && ts[5..][1..] == [];
    FirstEntry(d, ts[2..]);
    FirstEntry(d, ts[3..]);
    FirstEntry(d, ts[4..]);
    FirstEntry(d, ts[5..]);
    Nested(Array(d, ts[0], EntryBytes(d, ts[0])), Array(d, ts[1], EntryBytes(d, ts[1])),
           Array(d, ts[2], EntryBytes(d, ts[2])), Array(d, ts[3], EntryBytes(d, ts[3])),
           Array(d, ts[4], EntryBytes(d, ts[4])), Array(d, ts[5], EntryBytes(d, ts[5])));
  }

  lemma EntriesOrder(d: Device)
    requires EntryTypes(ENTRIES)
    ensures Entries(d, ENTRIES)
            == Array(d, 1, d.codes[1][..96]) + Array(d, 3, d.codes[3][..8]) + Array(d, 2, d.codes[2][..2])
               + Array(d, 4, d.codes[4][..1]) + Array(d, 5, d.codes[5][..3]) + Array(d, 17, d.codes[17][..2])
  {
    SixEntries(d, ENTRIES);
    ArraySizes(d, 1, 96);
    ArraySizes(d, 3, 8);
    ArraySizes(d, 2, 2);
    ArraySizes(d, 4, 1);
    ArraySizes(d, 5, 3);
    ArraySizes(d, 17, 2);
  }

  lemma ArraySizes(d: Device, t: nat, size: nat)
    requires HasEntry(t) && size == 1 + CodeMax(t) / 8
    ensures EntryBytes(d, t) == d.codes[t][..size]
  {}

  lemma Nested<T>(a: seq<T>, b: seq<T>, c: seq<T>, d: seq<T>, e: seq<T>, f: seq<T>)
    ensures a + (b + (c + (d + (e + (f + []))))) == a + b + c + d + e + f
  {
    assert f + [] == f;
    Regroup(c, d, e, f);
    Regroup(a, b, c + d + e + f, []);
    Regroup(a + b, c + d + e, f, []);
    Regroup(a + b, c, d, e);
    Regroup(a + b + c, d, e, []);
  }

  lemma FirstState(d: Device, states: map<nat, seq<byte>>, ts: seq<nat>)
    requires ts != [] && StateShape(states) && StateTypes(ts)
    ensures HasState(ts[0])
    ensures StateDump(d, states, ts) == Array(d, ts[0], states[ts[0]]) + StateDump(d, states, ts[1..])
  {
    assert HasState(ts[0]);
    BitIsDigit(d.evbits[ts[0] / 8], ts[0] % 8);
  }

  lemma StatesOrder(d: Device, states: map<nat, seq<byte>>)
    requires StateShape(states) && StateTypes(STATES)
    ensures StateDump(d, states, STATES) == Array(d, 1, states[1]) + Array(d, 17, states[17]) + Array(d, 5, states[5])
  {
    var ts := STATES;
    FirstState(d, states, ts);
    FirstState(d, states, ts[1..]);
    assert ts[1..][1..] == ts[2..] && ts[2..][1..] == [];
    FirstState(d, states, ts[2..]);
    Regroup(Array(d, 1, states[1]), Array(d, 17, states[17]), Array(d, 5, states[5]), []);
    assert Array(d, 5, states[5]) + [] == Array(d, 5, states[5]);
  }

  lemma HostAxisNumbers(a: Axis)
    ensures var s := HostAxis(a);
            && Signed(Little(s[0..4])) == a.value && Signed(Little(s[4..8])) == a.minimum
            && Signed(Little(s[8..12])) == a.maximum && Signed(Little(s[12..16])) == a.fuzz
            && Signed(Little(s[16..20])) == a.flat && Signed(Little(s[20..24])) == a.resolution
  {
    Six(HostI32(a.value), HostI32(a.minimum), HostI32(a.maximum),
        HostI32(a.fuzz), HostI32(a.flat), HostI32(a.resolution));
    HostI32IsLittle(a.value);
    HostI32IsLittle(a.minimum);
    HostI32IsLittle(a.maximum);
    HostI32IsLittle(a.fuzz);
    HostI32IsLittle(a.flat);
    HostI32IsLittle(a.resolution);
  }
}
