/** The self-delimiting device description that follows an AddDevice packet. */
module AddDevice {
  import opened Bytes
  import opened BitField
  import opened Devices

  const PACKET_SIZE := 28

  // ----- what the sender writes -----

  function EncodeId(id: InputId): (s: seq<byte>)
    ensures |s| == 8
  {
    U16(id.bustype) + U16(id.vendor) + U16(id.product) + U16(id.version)
  }

  function DecodeId(s: seq<byte>): InputId
    requires |s| == 8
  {
    InputId(FromU16(s[0..2]), FromU16(s[2..4]), FromU16(s[4..6]), FromU16(s[6..8]))
  }

  function EncodeAxis(a: Axis): (s: seq<byte>)
    ensures |s| == 24
  {
    I32(a.value) + I32(a.minimum) + I32(a.maximum) + I32(a.fuzz) + I32(a.flat) + I32(a.resolution)
  }

  function DecodeAxis(s: seq<byte>): Axis
    requires |s| == 24
  {
    Axis(FromI32(s[0..4]), FromI32(s[4..8]), FromI32(s[8..12]),
         FromI32(s[12..16]), FromI32(s[16..20]), FromI32(s[20..24]))
  }

  lemma IdRoundTrip(id: InputId)
    ensures DecodeId(EncodeId(id)) == id
  {
    Four(U16(id.bustype), U16(id.vendor), U16(id.product), U16(id.version));
    U16RoundTrip(id.bustype);
    U16RoundTrip(id.vendor);
    U16RoundTrip(id.product);
    U16RoundTrip(id.version);
  }

  lemma AxisRoundTrip(a: Axis)
    ensures DecodeAxis(EncodeAxis(a)) == a
  {
    Six(I32(a.value), I32(a.minimum), I32(a.maximum), I32(a.fuzz), I32(a.flat), I32(a.resolution));
    I32RoundTrip(a.value);
    I32RoundTrip(a.minimum);
    I32RoundTrip(a.maximum);
    I32RoundTrip(a.fuzz);
    I32RoundTrip(a.flat);
    I32RoundTrip(a.resolution);
  }

  function AddPacket(id: u16): (p: seq<byte>)
    ensures |p| == PACKET_SIZE
  {
    U16(1) + U16(id) + U16(USER_DEV_SIZE) + U16(NAME_SIZE) + Zeros(20)
  }

  /** Whether type `t` gets a bitmap section. */
  predicate Sent(evbits: seq<byte>, t: nat)
    requires t < 8 * |evbits|
  {
    BitAt(evbits, t) && HasCodes(t)
  }

  /** The types with a section are those of the table whose digit in the event bytes is one. */
  lemma SentIsDigit(evbits: seq<byte>, t: nat)
    requires t < 8 * |evbits|
    ensures Sent(evbits, t) <==> evbits[t / 8] / Pow2(t % 8) % 2 == 1 && HasCodes(t)
  {
    BitIsDigit(evbits[t / 8], t % 8);
  }

  /** The bitmap sections of the types `t..EV_MAX`. */
  function Sections(d: Device, t: nat): seq<byte>
    requires t <= EV_MAX
    decreases d, EV_MAX - t
  {
    if t == EV_MAX then []
    else if Sent(d.evbits, t) then U16(CodeCount(t)) + d.codes[t] + Sections(d, t + 1)
    else Sections(d, t + 1)
  }

  /** A bitmap together with how many of its bits count. */
  datatype Bitmap = Bitmap(bytes: seq<byte>, count: nat)

  predicate ValidBitmap(b: Bitmap) {
    b.count <= 8 * |b.bytes|
  }

  const NO_BITS := Bitmap([], 0)

  function AbsBits(d: Device): (b: Bitmap)
    ensures ValidBitmap(b) && b.count <= |d.axes|
  {
    if BitAt(d.evbits, EV_ABS) then Bitmap(d.codes[EV_ABS], CodeCount(EV_ABS)) else NO_BITS
  }

  /** The axis records of the set bits `i..n`. */
  function AxisRecords(bits: seq<byte>, axes: seq<Axis>, i: nat, n: nat): seq<byte>
    requires i <= n <= 8 * |bits| && n <= |axes|
    decreases n - i
  {
    if i == n then []
    else (if BitAt(bits, i) then EncodeAxis(axes[i]) else []) + AxisRecords(bits, axes, i + 1, n)
  }

  function Head(d: Device): (s: seq<byte>)
    ensures |s| == 94
    ensures s[..80] == d.name && s[80..88] == EncodeId(d.id) && s[88..90] == U16(EV_MAX) && s[90..] == d.evbits
  {
    d.name + EncodeId(d.id) + U16(EV_MAX) + d.evbits
  }

  function Tail(d: Device): seq<byte> {
    AxisRecords(AbsBits(d).bytes, d.axes, 0, AbsBits(d).count) + Zeros(ByteSize(EV_MAX))
  }

  function Body(d: Device): seq<byte> {
    Head(d) + (Sections(d, 0) + Tail(d))
  }

  // ----- what the receiver reads, on any bytes at all -----

  datatype Error =
    | ReadError | InfoSizeMismatch | NameSizeMismatch | NameTooLong | TypeCountMismatch
    | NotHello | BadMagic | VersionMismatch | DuplicateDevice | MissingDevice | UnknownPacket

  datatype Sectioned = Sectioned(calls: seq<Call>, abs: Bitmap, rest: seq<byte>) | NoSections

  /** Reads the bitmap sections of types `t..EV_MAX`; `skip` records no request. */
  function ReadSections(skip: bool, evbits: seq<byte>, t: nat, s: seq<byte>,
                        calls: seq<Call>, abs: Bitmap): (r: Sectioned)
    requires t <= EV_MAX <= 8 * |evbits| && ValidBitmap(abs)
    ensures r.Sectioned? ==> ValidBitmap(r.abs) && |r.rest| <= |s|
    decreases evbits, EV_MAX - t
  {
    if t == EV_MAX then Sectioned(calls, abs, s)
    else if !Sent(evbits, t) then ReadSections(skip, evbits, t + 1, s, calls, abs)
    else if |s| < 2 then NoSections
    else
      var count := FromU16(s[..2]);
      var size := ByteSize(count);
      if |s| - 2 < size then NoSections
      else
        var bits := s[2..2 + size];
        ReadSections(skip, evbits, t + 1, s[2 + size..],
                     if skip then calls else calls + CodeCalls(t, bits, count),
                     if t == EV_ABS then Bitmap(bits, count) else abs)
  }

  datatype Axed = Axed(calls: seq<Call>, rest: seq<byte>) | NoAxes

  function ReadAxes(skip: bool, abs: Bitmap, i: nat, s: seq<byte>, calls: seq<Call>): (r: Axed)
    requires ValidBitmap(abs) && i <= abs.count
    ensures r.Axed? ==> |r.rest| <= |s|
    decreases abs.count - i
  {
    if i == abs.count then Axed(calls, s)
    else if !BitAt(abs.bytes, i) then ReadAxes(skip, abs, i + 1, s, calls)
    else if |s| < 24 then NoAxes
    else ReadAxes(skip, abs, i + 1, s[24..],
                  if skip then calls else calls + [AbsAxis(i, DecodeAxis(s[..24]))])
  }

  datatype AddResult = Added(device: Option<OutDevice>, rest: seq<byte>) | Refused(error: Error)

  /** Everything after the event type bits. */
  function ReadTail(skip: bool, name: seq<byte>, id: InputId, evbits: seq<byte>, s: seq<byte>): AddResult
    requires |evbits| == ByteSize(EV_MAX)
  {
    var sections := ReadSections(skip, evbits, 0, s, if skip then [] else EventCalls(evbits, EV_MAX), NO_BITS);
    if sections.NoSections? then Refused(ReadError)
    else
      var axes := ReadAxes(skip, sections.abs, 0, sections.rest, sections.calls);
      if axes.NoAxes? || |axes.rest| < ByteSize(EV_MAX) then Refused(ReadError)
      else Added(if skip then None else Some(OutDevice(name[..NameLength(name)], id, axes.calls, [])),
                 axes.rest[ByteSize(EV_MAX)..])
  }

  /** The two sizes an AddDevice packet carries. */
  function InfoSize(pkt: seq<byte>): u16
    requires |pkt| == PACKET_SIZE
  {
    FromU16(pkt[4..6])
  }

  function NameSize(pkt: seq<byte>): u16
    requires |pkt| == PACKET_SIZE
  {
    FromU16(pkt[6..8])
  }

  /** The receiver's AddDevice, creating a device or skipping over its description. */
  function ReadAdd(pkt: seq<byte>, s: seq<byte>, skip: bool): (r: AddResult)
    requires |pkt| == PACKET_SIZE
    ensures r.Added? ==> |r.rest| <= |s| && (r.device.Some? <==> !skip)
  {
    if InfoSize(pkt) != USER_DEV_SIZE then Refused(InfoSizeMismatch)
    else if NameSize(pkt) != NAME_SIZE then Refused(NameSizeMismatch)
    else if |s| < 88 then Refused(ReadError)
    else if !skip && NameLength(s[..80]) >= NAME_SIZE then Refused(NameTooLong)
    else if |s| < 90 then Refused(ReadError)
    else if FromU16(s[88..90]) != EV_MAX then Refused(TypeCountMismatch)
    else if |s| < 94 then Refused(ReadError)
    else ReadTail(skip, s[..80], DecodeId(s[80..88]), s[90..94], s[94..])
  }

  // ----- skipping and creating read the same bytes -----

  lemma {:induction false} SectionsAligned(evbits: seq<byte>, t: nat, s: seq<byte>,
                                           calls: seq<Call>, calls': seq<Call>, abs: Bitmap)
    requires t <= EV_MAX <= 8 * |evbits| && ValidBitmap(abs)
    ensures var c := ReadSections(false, evbits, t, s, calls, abs);
            var k := ReadSections(true, evbits, t, s, calls', abs);
            c.Sectioned? == k.Sectioned? && (c.Sectioned? ==> c.abs == k.abs && c.rest == k.rest)
    decreases EV_MAX - t
  {
    if t == EV_MAX {
    } else if !Sent(evbits, t) {
      SectionsAligned(evbits, t + 1, s, calls, calls', abs);
    } else if |s| >= 2 {
      var count := FromU16(s[..2]);
      var size := ByteSize(count);
      if |s| - 2 >= size {
        var bits := s[2..2 + size];
        SectionsAligned(evbits, t + 1, s[2 + size..], calls + CodeCalls(t, bits, count), calls',
                        if t == EV_ABS then Bitmap(bits, count) else abs);
      }
    }
  }

  lemma {:induction false} AxesAligned(abs: Bitmap, i: nat, s: seq<byte>, calls: seq<Call>, calls': seq<Call>)
    requires ValidBitmap(abs) && i <= abs.count
    ensures var c := ReadAxes(false, abs, i, s, calls);
            var k := ReadAxes(true, abs, i, s, calls');
            c.Axed? == k.Axed? && (c.Axed? ==> c.rest == k.rest)
    decreases abs.count - i
  {
    if i == abs.count {
    } else if !BitAt(abs.bytes, i) {
      AxesAligned(abs, i + 1, s, calls, calls');
    } else if |s| >= 24 {
      AxesAligned(abs, i + 1, s[24..], calls + [AbsAxis(i, DecodeAxis(s[..24]))], calls');
    }
  }

  lemma TailAligned(name: seq<byte>, id: InputId, evbits: seq<byte>, s: seq<byte>)
    requires |evbits| == ByteSize(EV_MAX)
    ensures var c := ReadTail(false, name, id, evbits, s);
            var k := ReadTail(true, name, id, evbits, s);
            c.Added? == k.Added? && (c.Added? ==> c.rest == k.rest)
  {
    var calls := EventCalls(evbits, EV_MAX);
    SectionsAligned(evbits, 0, s, calls, [], NO_BITS);
    var c := ReadSections(false, evbits, 0, s, calls, NO_BITS);
    var k := ReadSections(true, evbits, 0, s, [], NO_BITS);
    if c.Sectioned? {
      AxesAligned(c.abs, 0, c.rest, c.calls, k.calls);
    }
  }

  // ----- round trip -----

  function SectionCalls(d: Device, t: nat): seq<Call>
    requires t <= EV_MAX
    decreases d, EV_MAX - t
  {
    if t == EV_MAX then []
    else (if Sent(d.evbits, t) then CodeCalls(t, d.codes[t], CodeCount(t)) else []) + SectionCalls(d, t + 1)
  }

  /** The uinput device a receiver ends up with. */
  function Mirror(d: Device): OutDevice {
    OutDevice(d.name[..NameLength(d.name)], d.id,
              EventCalls(d.evbits, EV_MAX) + SectionCalls(d, 0)
              + AxisCalls(AbsBits(d).bytes, d.axes, 0, AbsBits(d).count),
              [])
  }

  /** The requests of the sections `t..EV_MAX`, added to those before. */
  function SectionCallsAfter(d: Device, t: nat, calls: seq<Call>): seq<Call>
    requires t <= EV_MAX
    decreases d, EV_MAX - t
  {
    if t == EV_MAX then calls
    else SectionCallsAfter(d, t + 1,
                           if Sent(d.evbits, t) then calls + CodeCalls(t, d.codes[t], CodeCount(t)) else calls)
  }

  lemma {:induction false} SectionCallsAppend(d: Device, t: nat, calls: seq<Call>)
    requires t <= EV_MAX
    ensures SectionCallsAfter(d, t, calls) == calls + SectionCalls(d, t)
    decreases EV_MAX - t
  {
    if t == EV_MAX {
      assert calls + SectionCalls(d, t) == calls;
    } else {
      var here := if Sent(d.evbits, t) then CodeCalls(t, d.codes[t], CodeCount(t)) else [];
      assert calls + here == if Sent(d.evbits, t) then calls + CodeCalls(t, d.codes[t], CodeCount(t)) else calls;
      SectionCallsAppend(d, t + 1, calls + here);
      assert calls + here + SectionCalls(d, t + 1) == calls + (here + SectionCalls(d, t + 1));
    }
  }

  lemma {:induction false} SectionsRoundTrip(d: Device, t: nat, rest: seq<byte>, calls: seq<Call>, abs: Bitmap)
    requires t <= EV_MAX && ValidBitmap(abs)
    ensures ReadSections(false, d.evbits, t, Sections(d, t) + rest, calls, abs)
            == Sectioned(SectionCallsAfter(d, t, calls),
                         if t <= EV_ABS && BitAt(d.evbits, EV_ABS) then AbsBits(d) else abs, rest)
    decreases EV_MAX - t
  {
    if t == EV_MAX {
      assert Sections(d, t) + rest == rest;
    } else if !Sent(d.evbits, t) {
      SectionsRoundTrip(d, t + 1, rest, calls, abs);
    } else {
      var calls' := calls + CodeCalls(t, d.codes[t], CodeCount(t));
      var abs' := if t == EV_ABS then Bitmap(d.codes[t], CodeCount(t)) else abs;
      SectionStep(d, t, rest, calls, abs, calls', abs');
      SectionsRoundTrip(d, t + 1, rest, calls', abs');
    }
  }

  lemma SectionStep(d: Device, t: nat, rest: seq<byte>, calls: seq<Call>, abs: Bitmap, calls': seq<Call>, abs': Bitmap)
    requires t < EV_MAX && Sent(d.evbits, t) && ValidBitmap(abs)
    requires calls' == calls + CodeCalls(t, d.codes[t], CodeCount(t))
    requires abs' == if t == EV_ABS then Bitmap(d.codes[t], CodeCount(t)) else abs
    ensures ReadSections(false, d.evbits, t, Sections(d, t) + rest, calls, abs)
            == ReadSections(false, d.evbits, t + 1, Sections(d, t + 1) + rest, calls', abs')
  {
    SectionSplits(d, t, rest);
  }

  lemma SectionSplits(d: Device, t: nat, rest: seq<byte>)
    requires t < EV_MAX && Sent(d.evbits, t)
    ensures var s := Sections(d, t) + rest;
            var size := ByteSize(CodeCount(t));
            && |s| >= 2 + size && FromU16(s[..2]) == CodeCount(t) && s[2..2 + size] == d.codes[t]
            && s[2 + size..] == Sections(d, t + 1) + rest
  {
    var bits := d.codes[t];
    assert Sections(d, t) + rest == U16(CodeCount(t)) + (bits + (Sections(d, t + 1) + rest));
    Split(U16(CodeCount(t)), bits + (Sections(d, t + 1) + rest));
    Split(bits, Sections(d, t + 1) + rest);
    U16RoundTrip(CodeCount(t));
  }

  function AxisCallsAfter(bits: seq<byte>, axes: seq<Axis>, i: nat, n: nat, calls: seq<Call>): seq<Call>
    requires i <= n <= 8 * |bits| && n <= |axes|
    decreases n - i
  {
    if i == n then calls
    else AxisCallsAfter(bits, axes, i + 1, n, if BitAt(bits, i) then calls + [AbsAxis(i, axes[i])] else calls)
  }

  lemma {:induction false} AxisCallsAppend(bits: seq<byte>, axes: seq<Axis>, i: nat, n: nat, calls: seq<Call>)
    requires i <= n <= 8 * |bits| && n <= |axes|
    ensures AxisCallsAfter(bits, axes, i, n, calls) == calls + AxisCalls(bits, axes, i, n)
    decreases n - i
  {
    if i == n {
      assert calls + AxisCalls(bits, axes, i, n) == calls;
    } else {
      AxisCallsFrom(bits, axes, i, n, calls);
      AxisCallsAppend(bits, axes, i + 1, n, calls + AxisCallAt(bits, axes, i));
      Regroup(calls, AxisCallAt(bits, axes, i), AxisCalls(bits, axes, i + 1, n), []);
    }
  }

  function AxisCallAt(bits: seq<byte>, axes: seq<Axis>, i: nat): seq<Call>
    requires i < 8 * |bits| && i < |axes|
  {
    if BitAt(bits, i) then [AbsAxis(i, axes[i])] else []
  }

  lemma AxisCallsFrom(bits: seq<byte>, axes: seq<Axis>, i: nat, n: nat, calls: seq<Call>)
    requires i < n <= 8 * |bits| && n <= |axes|
    ensures AxisCalls(bits, axes, i, n) == AxisCallAt(bits, axes, i) + AxisCalls(bits, axes, i + 1, n)
    ensures AxisCallsAfter(bits, axes, i, n, calls)
            == AxisCallsAfter(bits, axes, i + 1, n, calls + AxisCallAt(bits, axes, i))
  {
    assert calls + [] == calls;
  }

  lemma {:induction false} AxesRoundTrip(abs: Bitmap, axes: seq<Axis>, i: nat, rest: seq<byte>, calls: seq<Call>)
    requires ValidBitmap(abs) && i <= abs.count <= |axes|
    ensures ReadAxes(false, abs, i, AxisRecords(abs.bytes, axes, i, abs.count) + rest, calls)
            == Axed(AxisCallsAfter(abs.bytes, axes, i, abs.count, calls), rest)
    decreases abs.count - i
  {
    if i == abs.count {
      assert AxisRecords(abs.bytes, axes, i, abs.count) + rest == rest;
    } else {
      var calls' := calls + AxisCallAt(abs.bytes, axes, i);
      AxisStep(abs, axes, i, rest, calls);
      AxisCallsFrom(abs.bytes, axes, i, abs.count, calls);
      AxesRoundTrip(abs, axes, i + 1, rest, calls');
    }
  }

  lemma AxisStep(abs: Bitmap, axes: seq<Axis>, i: nat, rest: seq<byte>, calls: seq<Call>)
    requires ValidBitmap(abs) && i < abs.count <= |axes|
    ensures ReadAxes(false, abs, i, AxisRecords(abs.bytes, axes, i, abs.count) + rest, calls)
            == ReadAxes(false, abs, i + 1, AxisRecords(abs.bytes, axes, i + 1, abs.count) + rest,
                        calls + AxisCallAt(abs.bytes, axes, i))
  {
    if BitAt(abs.bytes, i) {
      AxisSplits(abs, axes, i, rest);
    } else {
      assert calls + [] == calls;
      assert AxisRecords(abs.bytes, axes, i, abs.count) + rest == AxisRecords(abs.bytes, axes, i + 1, abs.count) + rest;
    }
  }

  lemma AxisSplits(abs: Bitmap, axes: seq<Axis>, i: nat, rest: seq<byte>)
    requires ValidBitmap(abs) && i < abs.count <= |axes| && BitAt(abs.bytes, i)
    ensures var s := AxisRecords(abs.bytes, axes, i, abs.count) + rest;
            && |s| >= 24 && DecodeAxis(s[..24]) == axes[i]
            && s[24..] == AxisRecords(abs.bytes, axes, i + 1, abs.count) + rest
  {
    var later := AxisRecords(abs.bytes, axes, i + 1, abs.count) + rest;
    assert AxisRecords(abs.bytes, axes, i, abs.count) + rest == EncodeAxis(axes[i]) + later;
    Split(EncodeAxis(axes[i]), later);
    AxisRoundTrip(axes[i]);
  }

  lemma TailRoundTrip(skip: bool, d: Device, rest: seq<byte>)
    ensures ReadTail(skip, d.name, d.id, d.evbits, Sections(d, 0) + Tail(d) + rest)
            == Added(if skip then None else Some(Mirror(d)), rest)
  {
    var calls := EventCalls(d.evbits, EV_MAX);
    var abs := AbsBits(d);
    var state := Zeros(ByteSize(EV_MAX)) + rest;
    var axes := AxisRecords(abs.bytes, d.axes, 0, abs.count);
    assert Sections(d, 0) + Tail(d) + rest == Sections(d, 0) + (axes + state);
    SectionsRoundTrip(d, 0, axes + state, calls, NO_BITS);
    SectionCallsAppend(d, 0, calls);
    AxesRoundTrip(abs, d.axes, 0, state, calls + SectionCalls(d, 0));
    AxisCallsAppend(abs.bytes, d.axes, 0, abs.count, calls + SectionCalls(d, 0));
    assert state[ByteSize(EV_MAX)..] == rest;
    TailAligned(d.name, d.id, d.evbits, Sections(d, 0) + Tail(d) + rest);
  }

  lemma AddPacketFields(id: u16)
    ensures FromU16(AddPacket(id)[..2]) == 1 && FromU16(AddPacket(id)[2..4]) == id
    ensures InfoSize(AddPacket(id)) == USER_DEV_SIZE && NameSize(AddPacket(id)) == NAME_SIZE
  {
    var p := AddPacket(id);
    assert p[..2] == U16(1) && p[2..4] == U16(id) && p[4..6] == U16(USER_DEV_SIZE) && p[6..8] == U16(NAME_SIZE);
  }

  /** A description is consumed exactly, and mirrored exactly when its name has a terminator. */
  lemma AddRoundTrip(d: Device, id: u16, rest: seq<byte>, skip: bool)
    ensures ReadAdd(AddPacket(id), Body(d) + rest, skip)
            == if skip then Added(None, rest)
               else if Terminated(d) then Added(Some(Mirror(d)), rest)
               else Refused(NameTooLong)
  {
    AddPacketFields(id);
    var s := Body(d) + rest;
    var after := Sections(d, 0) + Tail(d) + rest;
    assert s == Head(d) + after;
    assert s[..80] == d.name && s[80..88] == EncodeId(d.id) && s[88..90] == U16(EV_MAX);
    assert s[90..94] == d.evbits && s[94..] == after;
    IdRoundTrip(d.id);
    TailRoundTrip(skip, d, rest);
    TerminatedLength(d);
  }

  lemma {:induction false} SectionCallsExact(d: Device, t: nat, c: Call)
    requires t <= EV_MAX
    ensures c in SectionCalls(d, t)
            <==> c.CodeBit? && t <= c.of < EV_MAX && Sent(d.evbits, c.of)
                 && c.code < CodeCount(c.of) && BitAt(d.codes[c.of], c.code)
    decreases EV_MAX - t
  {
    if t < EV_MAX {
      SectionCallsExact(d, t + 1, c);
      if Sent(d.evbits, t) {
        CodeCallsExact(t, d.codes[t], CodeCount(t), c);
      }
    }
  }

  /** What the description says a device can do. */
  predicate Able(d: Device, c: Call) {
    match c
    case EventBit(k) => k < EV_MAX && k != EV_FF && BitAt(d.evbits, k)
    case CodeBit(t, code) => t < EV_MAX && Sent(d.evbits, t) && code < CodeCount(t) && BitAt(d.codes[t], code)
    case AbsAxis(i, info) =>
      BitAt(d.evbits, EV_ABS) && i <= ABS_MAX && BitAt(d.codes[EV_ABS], i) && info == d.axes[i]
  }

  /** The requests of the mirrored device say exactly what the description says. */
  lemma MirrorExact(d: Device, c: Call)
    ensures c in Mirror(d).calls <==> Able(d, c)
  {
    match c
    case EventBit(_) => MirrorEvents(d, c);
    case CodeBit(_, _) => MirrorCodes(d, c);
    case AbsAxis(_, _) => MirrorAxes(d, c);
  }

  lemma MirrorParts(d: Device, c: Call)
    ensures c in Mirror(d).calls
            <==> c in EventCalls(d.evbits, EV_MAX) || c in SectionCalls(d, 0)
                 || c in AxisCalls(AbsBits(d).bytes, d.axes, 0, AbsBits(d).count)
  {}

  lemma MirrorEvents(d: Device, c: Call)
    requires c.EventBit?
    ensures c in Mirror(d).calls <==> Able(d, c)
  {
    MirrorParts(d, c);
    EventCallsExact(d.evbits, EV_MAX, c);
    SectionCallsExact(d, 0, c);
    AxisCallsExact(AbsBits(d).bytes, d.axes, 0, AbsBits(d).count, c);
  }

  lemma MirrorCodes(d: Device, c: Call)
    requires c.CodeBit?
    ensures c in Mirror(d).calls <==> Able(d, c)
  {
    MirrorParts(d, c);
    EventCallsExact(d.evbits, EV_MAX, c);
    SectionCallsExact(d, 0, c);
    AxisCallsExact(AbsBits(d).bytes, d.axes, 0, AbsBits(d).count, c);
  }

  lemma MirrorAxes(d: Device, c: Call)
    requires c.AbsAxis?
    ensures c in Mirror(d).calls <==> Able(d, c)
  {
    var abs := AbsBits(d);
    assert c in Mirror(d).calls <==> c in AxisCalls(abs.bytes, d.axes, 0, abs.count) by {
      MirrorParts(d, c);
      EventCallsExact(d.evbits, EV_MAX, c);
      SectionCallsExact(d, 0, c);
    }
    if BitAt(d.evbits, EV_ABS) {
      assert abs == Bitmap(d.codes[EV_ABS], ABS_MAX + 1);
    }
    AxisCallsExact(abs.bytes, d.axes, 0, abs.count, c);
  }

  // ----- locality: bytes after the description do not matter -----

  lemma {:induction false} SectionsLocal(skip: bool, evbits: seq<byte>, t: nat, s: seq<byte>, more: seq<byte>,
                                         calls: seq<Call>, abs: Bitmap)
    requires t <= EV_MAX <= 8 * |evbits| && ValidBitmap(abs)
    requires ReadSections(skip, evbits, t, s, calls, abs).Sectioned?
    ensures var r := ReadSections(skip, evbits, t, s, calls, abs);
            ReadSections(skip, evbits, t, s + more, calls, abs) == r.(rest := r.rest + more)
    decreases EV_MAX - t
  {
    if t == EV_MAX {
    } else if !Sent(evbits, t) {
      SectionsLocal(skip, evbits, t + 1, s, more, calls, abs);
    } else {
      var count := FromU16(s[..2]);
      var size := ByteSize(count);
      var bits := s[2..2 + size];
      Followed(s, more, 2, 2 + size);
      SectionsLocal(skip, evbits, t + 1, s[2 + size..], more,
                    if skip then calls else calls + CodeCalls(t, bits, count),
                    if t == EV_ABS then Bitmap(bits, count) else abs);
    }
  }

  lemma {:induction false} AxesLocal(skip: bool, abs: Bitmap, i: nat, s: seq<byte>, more: seq<byte>, calls: seq<Call>)
    requires ValidBitmap(abs) && i <= abs.count
    requires ReadAxes(skip, abs, i, s, calls).Axed?
    ensures var r := ReadAxes(skip, abs, i, s, calls);
            ReadAxes(skip, abs, i, s + more, calls) == r.(rest := r.rest + more)
    decreases abs.count - i
  {
    if i == abs.count {
    } else if !BitAt(abs.bytes, i) {
      AxesLocal(skip, abs, i + 1, s, more, calls);
    } else {
      Followed(s, more, 0, 24);
      AxesLocal(skip, abs, i + 1, s[24..], more,
                if skip then calls else calls + [AbsAxis(i, DecodeAxis(s[..24]))]);
    }
  }

  lemma TailLocal(skip: bool, name: seq<byte>, id: InputId, evbits: seq<byte>, s: seq<byte>, more: seq<byte>)
    requires |evbits| == ByteSize(EV_MAX) && ReadTail(skip, name, id, evbits, s).Added?
    ensures var r := ReadTail(skip, name, id, evbits, s);
            ReadTail(skip, name, id, evbits, s + more) == r.(rest := r.rest + more)
  {
    var calls := if skip then [] else EventCalls(evbits, EV_MAX);
    var sections := ReadSections(skip, evbits, 0, s, calls, NO_BITS);
    var axes := ReadAxes(skip, sections.abs, 0, sections.rest, sections.calls);
    assert ReadSections(skip, evbits, 0, s + more, calls, NO_BITS) == sections.(rest := sections.rest + more) by {
      SectionsLocal(skip, evbits, 0, s, more, calls, NO_BITS);
    }
    assert ReadAxes(skip, sections.abs, 0, sections.rest + more, sections.calls) == axes.(rest := axes.rest + more) by {
      AxesLocal(skip, sections.abs, 0, sections.rest, more, sections.calls);
    }
    assert (axes.rest + more)[4..] == axes.rest[4..] + more;
  }

  /** On every byte stream, an accepted description is accepted the same whatever follows it. */
  lemma AddLocal(pkt: seq<byte>, s: seq<byte>, more: seq<byte>, skip: bool)
    requires |pkt| == PACKET_SIZE && ReadAdd(pkt, s, skip).Added?
    ensures var r := ReadAdd(pkt, s, skip);
            ReadAdd(pkt, s + more, skip) == r.(rest := r.rest + more)
  {
    assert (s + more)[..80] == s[..80] && (s + more)[80..88] == s[80..88] && (s + more)[88..90] == s[88..90];
    assert (s + more)[90..94] == s[90..94] && (s + more)[94..] == s[94..] + more;
    TailLocal(skip, s[..80], DecodeId(s[80..88]), s[90..94], s[94..], more);
  }

  /** What is wrong with the first `k` bytes of a description. */
  function CutError(d: Device, k: nat, skip: bool): Error {
    if !skip && !Terminated(d) && k >= 88 then NameTooLong else ReadError
  }

  lemma CutRefused(d: Device, id: u16, k: nat, skip: bool)
    requires k < |Body(d)|
    ensures ReadAdd(AddPacket(id), Body(d)[..k], skip).Refused?
  {
    var pkt, body := AddPacket(id), Body(d);
    var cut, more := body[..k], body[k..];
    assert cut + more == body;
    assert ReadAdd(pkt, body, skip).Added? ==> ReadAdd(pkt, body, skip).rest == [] by {
      AddRoundTrip(d, id, [], skip);
      assert body + [] == body;
    }
    if ReadAdd(pkt, cut, skip).Added? {
      AddLocal(pkt, cut, more, skip);
      assert false;
    }
  }

  lemma CutHead(d: Device, k: nat)
    requires k <= |Body(d)|
    ensures var cut := Body(d)[..k];
            (k >= 88 ==> cut[..80] == d.name) && (k >= 90 ==> FromU16(cut[88..90]) == EV_MAX)
  {
    var body := Body(d);
    Split(Head(d), Sections(d, 0) + Tail(d));
    assert body[..94] == Head(d);
    assert k >= 88 ==> body[..k][..80] == body[..94][..80];
    assert k >= 90 ==> body[..k][88..90] == body[..94][88..90];
    U16RoundTrip(EV_MAX);
  }

  /** Cut anywhere inside, a description is refused, never misread; the error is that of the read that
      fails, unless the name is looked at and found unterminated before. */
  lemma TruncatedAddRefused(d: Device, id: u16, k: nat, skip: bool)
    requires k < |Body(d)|
    ensures ReadAdd(AddPacket(id), Body(d)[..k], skip) == Refused(CutError(d, k, skip))
  {
    CutRefused(d, id, k, skip);
    CutHead(d, k);
    AddPacketFields(id);
    TerminatedLength(d);
  }

  /** The guard of the one check only the creating reader makes. */
  predicate NameUnterminated(s: seq<byte>) {
    |s| >= NAME_SIZE && 0 !in s[..NAME_SIZE]
  }

  /** On every byte stream: creating succeeds exactly when skipping does and the name has its
      terminator, and then both leave the same bytes. */
  lemma SkipCreateAligned(pkt: seq<byte>, s: seq<byte>)
    requires |pkt| == PACKET_SIZE
    ensures var create := ReadAdd(pkt, s, false);
            var skip := ReadAdd(pkt, s, true);
            && (create.Added? <==> skip.Added? && !NameUnterminated(s))
            && (create.Added? ==> create.rest == skip.rest)
            && (skip.Added? && create.Refused? ==> create.error == NameTooLong)
  {
    if |s| >= 94 {
      TailAligned(s[..80], DecodeId(s[80..88]), s[90..94], s[94..]);
    }
  }

  /** The two readers do part on an unterminated name, which the sender does write. */
  lemma SkipCreatePart()
    ensures var d: Device := BLANK.(name := seq(NAME_SIZE, i => 0x41));
            && ReadAdd(AddPacket(0), Body(d), true) == Added(None, [])
            && ReadAdd(AddPacket(0), Body(d), false) == Refused(NameTooLong)
  {
    var d: Device := BLANK.(name := seq(NAME_SIZE, i => 0x41));
    AddRoundTrip(d, 0, [], true);
    AddRoundTrip(d, 0, [], false);
    assert Body(d) + [] == Body(d);
  }
}
