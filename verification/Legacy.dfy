/** The netevent 1 header: fixed arrays in host byte order, sized by the type's maximum. */
module Legacy {
  import opened Bytes
  import opened BitField
  import opened Devices
  import opened AddDevice

  const ENTRIES: seq<nat> := [EV_KEY, EV_ABS, EV_REL, EV_MSC, EV_SW, EV_LED]
  const STATES: seq<nat> := [EV_KEY, EV_LED, EV_SW]

  predicate EntryTypes(ts: seq<nat>) {
    forall i :: 0 <= i < |ts| ==> HasEntry(ts[i])
  }

  predicate NoRepeat(ts: seq<nat>) {
    forall i, j :: 0 <= i < j < |ts| ==> ts[i] != ts[j]
  }

  predicate StateTypes(ts: seq<nat>) {
    forall i :: 0 <= i < |ts| ==> HasState(ts[i])
  }

  lemma ListsFit()
    ensures EntryTypes(ENTRIES) && StateTypes(STATES) && NoRepeat(ENTRIES) && EV_ABS in ENTRIES
    ensures forall t :: t in ENTRIES <==> HasEntry(t)
  {
    assert ENTRIES[1] == EV_ABS && ENTRIES[0] == EV_KEY && ENTRIES[2] == EV_REL;
    assert ENTRIES[3] == EV_MSC && ENTRIES[4] == EV_SW && ENTRIES[5] == EV_LED;
  }

  // Host byte order is little endian, and the same on both ends.
  function Swapped(s: seq<byte>): (r: seq<byte>)
    ensures |r| == |s| && forall i :: 0 <= i < |s| ==> r[i] == s[|s| - 1 - i]
  {
    seq(|s|, i requires 0 <= i < |s| => s[|s| - 1 - i])
  }

  function HostU16(x: u16): (s: seq<byte>)
    ensures |s| == 2
  {
    Swapped(U16(x))
  }

  function FromHostU16(s: seq<byte>): u16
    requires |s| == 2
  {
    FromU16(Swapped(s))
  }

  function HostI32(x: i32): (s: seq<byte>)
    ensures |s| == 4
  {
    Swapped(I32(x))
  }

  function FromHostI32(s: seq<byte>): i32
    requires |s| == 4
  {
    FromI32(Swapped(s))
  }

  lemma HostU16RoundTrip(x: u16)
    ensures FromHostU16(HostU16(x)) == x
  {
    assert Swapped(HostU16(x)) == U16(x);
    U16RoundTrip(x);
  }

  lemma HostI32RoundTrip(x: i32)
    ensures FromHostI32(HostI32(x)) == x
  {
    assert Swapped(HostI32(x)) == I32(x);
    I32RoundTrip(x);
  }

  function HostId(id: InputId): (s: seq<byte>)
    ensures |s| == 8
  {
    HostU16(id.bustype) + HostU16(id.vendor) + HostU16(id.product) + HostU16(id.version)
  }

  function FromHostId(s: seq<byte>): InputId
    requires |s| == 8
  {
    InputId(FromHostU16(s[0..2]), FromHostU16(s[2..4]), FromHostU16(s[4..6]), FromHostU16(s[6..8]))
  }

  lemma HostIdRoundTrip(id: InputId)
    ensures FromHostId(HostId(id)) == id
  {
    Four(HostU16(id.bustype), HostU16(id.vendor), HostU16(id.product), HostU16(id.version));
    HostU16RoundTrip(id.bustype);
    HostU16RoundTrip(id.vendor);
    HostU16RoundTrip(id.product);
    HostU16RoundTrip(id.version);
  }

  function HostAxis(a: Axis): (s: seq<byte>)
    ensures |s| == 24
  {
    HostI32(a.value) + HostI32(a.minimum) + HostI32(a.maximum)
    + HostI32(a.fuzz) + HostI32(a.flat) + HostI32(a.resolution)
  }

  function FromHostAxis(s: seq<byte>): Axis
    requires |s| == 24
  {
    Axis(FromHostI32(s[0..4]), FromHostI32(s[4..8]), FromHostI32(s[8..12]),
         FromHostI32(s[12..16]), FromHostI32(s[16..20]), FromHostI32(s[20..24]))
  }

  lemma HostAxisRoundTrip(a: Axis)
    ensures FromHostAxis(HostAxis(a)) == a
  {
    Six(HostI32(a.value), HostI32(a.minimum), HostI32(a.maximum),
        HostI32(a.fuzz), HostI32(a.flat), HostI32(a.resolution));
    HostI32RoundTrip(a.value);
    HostI32RoundTrip(a.minimum);
    HostI32RoundTrip(a.maximum);
    HostI32RoundTrip(a.fuzz);
    HostI32RoundTrip(a.flat);
    HostI32RoundTrip(a.resolution);
  }

  // ----- what the sender writes -----

  /** The kernel fills as many bytes as the netevent 1 array has. */
  function EntryBytes(d: Device, t: nat): (s: seq<byte>)
    requires HasEntry(t)
    ensures |s| == NE1Size(CodeMax(t)) && CodeMax(t) <= 8 * |s|
  {
    d.codes[t][..NE1Size(CodeMax(t))]
  }

  function Entries(d: Device, ts: seq<nat>): seq<byte>
    requires EntryTypes(ts)
  {
    if ts == [] then []
    else (if BitAt(d.evbits, ts[0]) then EntryBytes(d, ts[0]) else []) + Entries(d, ts[1..])
  }

  /** What the kernel answers for the state of each type, as many bytes as its array has. */
  ghost predicate StateShape(states: map<nat, seq<byte>>) {
    forall t: nat :: HasState(t) ==> t in states && |states[t]| == NE1Size(CodeMax(t))
  }

  ghost function StateDump(d: Device, states: map<nat, seq<byte>>, ts: seq<nat>): seq<byte>
    requires StateTypes(ts)
    requires StateShape(states)
  {
    if ts == [] then []
    else (if BitAt(d.evbits, ts[0]) then states[ts[0]] else []) + StateDump(d, states, ts[1..])
  }

  /** Every axis below the maximum, present or not. */
  function AxisDump(d: Device, i: nat): seq<byte>
    requires i <= ABS_MAX
    decreases d, ABS_MAX - i
  {
    if i == ABS_MAX then [] else HostAxis(d.axes[i]) + AxisDump(d, i + 1)
  }

  function AnyAxisDump(d: Device): seq<byte> {
    if BitAt(d.evbits, EV_ABS) then AxisDump(d, 0) else []
  }

  function HeaderHead(d: Device): (s: seq<byte>)
    ensures |s| == 94
  {
    HostU16(USER_DEV_SIZE) + d.name + HostId(d.id) + d.evbits
  }

  ghost function HeaderFor(ts: seq<nat>, us: seq<nat>, d: Device, states: map<nat, seq<byte>>): (s: seq<byte>)
    requires EntryTypes(ts) && StateTypes(us) && StateShape(states)
    ensures |s| >= 94
  {
    HeaderHead(d)
    + (Entries(d, ts) + (StateDump(d, states, us) + AnyAxisDump(d)))
  }

  ghost function Header(d: Device, states: map<nat, seq<byte>>): seq<byte>
    requires StateShape(states)
  {
    ListsFit();
    HeaderFor(ENTRIES, STATES, d, states)
  }

  // ----- what the receiver reads, on any bytes at all -----

  /** Reads the code arrays; a code equal to the type's maximum is cut off. */
  function ReadEntries(evbits: seq<byte>, ts: seq<nat>, s: seq<byte>, calls: seq<Call>, abs: seq<byte>): (r: Sectioned)
    requires EntryTypes(ts)
    requires EV_MAX <= 8 * |evbits|
    requires BitAt(evbits, EV_ABS) && EV_ABS !in ts ==> |abs| == NE1Size(ABS_MAX)
    ensures r.Sectioned? && BitAt(evbits, EV_ABS) ==> |r.abs.bytes| == NE1Size(ABS_MAX)
    decreases |ts|
  {
    if ts == [] then Sectioned(calls, Bitmap(abs, ABS_MAX), s)
    else
      var t := ts[0];
      var size := NE1Size(CodeMax(t));
      if !BitAt(evbits, t) then ReadEntries(evbits, ts[1..], s, calls, abs)
      else if |s| < size then NoSections
      else ReadEntries(evbits, ts[1..], s[size..], calls + CodeCalls(t, s[..size], CodeMax(t)),
                       if t == EV_ABS then s[..size] else abs)
  }

  function SkipStates(evbits: seq<byte>, ts: seq<nat>, s: seq<byte>): Option<seq<byte>>
    requires StateTypes(ts)
    requires EV_MAX <= 8 * |evbits|
    decreases |ts|
  {
    if ts == [] then Some(s)
    else
      var size := NE1Size(CodeMax(ts[0]));
      if !BitAt(evbits, ts[0]) then SkipStates(evbits, ts[1..], s)
      else if |s| < size then None
      else SkipStates(evbits, ts[1..], s[size..])
  }

  function ReadAxisDump(abs: seq<byte>, i: nat, s: seq<byte>, calls: seq<Call>): Axed
    requires i <= ABS_MAX <= 8 * |abs|
    decreases abs, ABS_MAX - i
  {
    if i == ABS_MAX then Axed(calls, s)
    else if |s| < 24 then NoAxes
    else ReadAxisDump(abs, i + 1, s[24..],
                      if BitAt(abs, i) then calls + [AbsAxis(i, FromHostAxis(s[..24]))] else calls)
  }

  /** Axis records follow only when the device reports axes at all. */
  function ReadAnyAxes(evbits: seq<byte>, abs: seq<byte>, s: seq<byte>, calls: seq<Call>): Axed
    requires EV_MAX <= 8 * |evbits| && (BitAt(evbits, EV_ABS) ==> ABS_MAX <= 8 * |abs|)
  {
    if BitAt(evbits, EV_ABS) then ReadAxisDump(abs, 0, s, calls) else Axed(calls, s)
  }

  /** Everything after the event type bits, for the given lists of arrays. */
  function ReadArrays(ts: seq<nat>, us: seq<nat>, name: seq<byte>, id: InputId, evbits: seq<byte>,
                      s: seq<byte>): AddResult
    requires EntryTypes(ts) && EV_ABS in ts && StateTypes(us) && |evbits| == NE1Size(EV_MAX)
  {
    var entries := ReadEntries(evbits, ts, s, EventCalls(evbits, EV_MAX), []);
    if entries.NoSections? then Refused(ReadError)
    else
      var states := SkipStates(evbits, us, entries.rest);
      if states.None? then Refused(ReadError)
      else
        var axes := ReadAnyAxes(evbits, entries.abs.bytes, states.value, entries.calls);
        if axes.NoAxes? then Refused(ReadError)
        else Added(Some(OutDevice(name[..NameLength(name)], id, axes.calls, [])), axes.rest)
  }

  /** Everything after the size. */
  function ReadNamed(s: seq<byte>): AddResult {
    if |s| < 88 then Refused(ReadError)
    else if NameLength(s[..80]) >= NAME_SIZE then Refused(NameTooLong)
    else if |s| < 92 then Refused(ReadError)
    else
      ListsFit();
      ReadArrays(ENTRIES, STATES, s[..80], FromHostId(s[80..88]), s[88..92], s[92..])
  }

  function ReadHeader(s: seq<byte>): AddResult {
    if |s| < 2 then Refused(ReadError)
    else if FromHostU16(s[..2]) != USER_DEV_SIZE then Refused(InfoSizeMismatch)
    else ReadNamed(s[2..])
  }

  // ----- round trip -----

  /** The requests of the arrays `ts`, added to those before. */
  function EntryCallsAfter(d: Device, ts: seq<nat>, calls: seq<Call>): seq<Call>
    requires EntryTypes(ts)
    decreases |ts|
  {
    if ts == [] then calls
    else
      var t := ts[0];
      EntryCallsAfter(d, ts[1..],
                      if BitAt(d.evbits, t) then calls + CodeCalls(t, EntryBytes(d, t), CodeMax(t)) else calls)
  }

  /** The device a receiver with the given list of arrays ends up with. */
  function MirrorOf(ts: seq<nat>, d: Device): OutDevice
    requires EntryTypes(ts)
  {
    var calls := EntryCallsAfter(d, ts, EventCalls(d.evbits, EV_MAX));
    OutDevice(d.name[..NameLength(d.name)], d.id,
              if BitAt(d.evbits, EV_ABS) then AxisCallsAfter(EntryBytes(d, EV_ABS), d.axes, 0, ABS_MAX, calls)
              else calls,
              [])
  }

  function LegacyMirror(d: Device): OutDevice {
    ListsFit();
    MirrorOf(ENTRIES, d)
  }

  lemma {:induction false} EntriesRoundTrip(d: Device, ts: seq<nat>, rest: seq<byte>, calls: seq<Call>, abs: seq<byte>)
    requires EntryTypes(ts)
    requires BitAt(d.evbits, EV_ABS) && EV_ABS !in ts ==> |abs| == NE1Size(ABS_MAX)
    requires NoRepeat(ts)
    ensures ReadEntries(d.evbits, ts, Entries(d, ts) + rest, calls, abs)
            == Sectioned(EntryCallsAfter(d, ts, calls),
                         Bitmap(if EV_ABS in ts && BitAt(d.evbits, EV_ABS) then EntryBytes(d, EV_ABS) else abs,
                                ABS_MAX),
                         rest)
    decreases |ts|
  {
    if ts == [] {
      assert Entries(d, ts) + rest == rest;
    } else {
      var t, later := ts[0], Entries(d, ts[1..]) + rest;
      if BitAt(d.evbits, t) {
        assert Entries(d, ts) + rest == EntryBytes(d, t) + later;
        Split(EntryBytes(d, t), later);
        EntriesRoundTrip(d, ts[1..], rest, calls + CodeCalls(t, EntryBytes(d, t), CodeMax(t)),
                         if t == EV_ABS then EntryBytes(d, t) else abs);
      } else {
        assert Entries(d, ts) + rest == later;
        EntriesRoundTrip(d, ts[1..], rest, calls, abs);
      }
    }
  }

  lemma {:induction false} StatesRoundTrip(d: Device, states: map<nat, seq<byte>>, ts: seq<nat>, rest: seq<byte>)
    requires StateTypes(ts)
    requires StateShape(states)
    ensures SkipStates(d.evbits, ts, StateDump(d, states, ts) + rest) == Some(rest)
    decreases |ts|
  {
    if ts == [] {
      assert StateDump(d, states, ts) + rest == rest;
    } else {
      StatesRoundTrip(d, states, ts[1..], rest);
      var later := StateDump(d, states, ts[1..]) + rest;
      if BitAt(d.evbits, ts[0]) {
        assert StateDump(d, states, ts) + rest == states[ts[0]] + later;
        Split(states[ts[0]], later);
      } else {
        assert StateDump(d, states, ts) + rest == later;
      }
    }
  }

  lemma {:induction false} AxisDumpRoundTrip(d: Device, abs: seq<byte>, i: nat, rest: seq<byte>, calls: seq<Call>)
    requires i <= ABS_MAX <= 8 * |abs|
    ensures ReadAxisDump(abs, i, AxisDump(d, i) + rest, calls)
            == Axed(AxisCallsAfter(abs, d.axes, i, ABS_MAX, calls), rest)
    decreases ABS_MAX - i
  {
    if i == ABS_MAX {
      assert AxisDump(d, i) + rest == rest;
    } else {
      var later := AxisDump(d, i + 1) + rest;
      assert AxisDump(d, i) + rest == HostAxis(d.axes[i]) + later;
      Split(HostAxis(d.axes[i]), later);
      HostAxisRoundTrip(d.axes[i]);
      AxisDumpRoundTrip(d, abs, i + 1, rest, if BitAt(abs, i) then calls + [AbsAxis(i, d.axes[i])] else calls);
    }
  }

  lemma AnyAxesRoundTrip(d: Device, abs: seq<byte>, rest: seq<byte>, calls: seq<Call>)
    requires BitAt(d.evbits, EV_ABS) ==> abs == EntryBytes(d, EV_ABS)
    ensures ReadAnyAxes(d.evbits, abs, AnyAxisDump(d) + rest, calls)
            == Axed(if BitAt(d.evbits, EV_ABS) then AxisCallsAfter(EntryBytes(d, EV_ABS), d.axes, 0, ABS_MAX, calls)
                    else calls,
                    rest)
  {
    if BitAt(d.evbits, EV_ABS) {
      AxisDumpRoundTrip(d, abs, 0, rest, calls);
    } else {
      assert AnyAxisDump(d) + rest == rest;
    }
  }

  lemma ArraysRoundTrip(ts: seq<nat>, us: seq<nat>, d: Device, states: map<nat, seq<byte>>, rest: seq<byte>)
    requires EntryTypes(ts) && NoRepeat(ts) && EV_ABS in ts && StateTypes(us) && StateShape(states)
    ensures ReadArrays(ts, us, d.name, d.id, d.evbits,
                       Entries(d, ts) + (StateDump(d, states, us) + (AnyAxisDump(d) + rest)))
            == Added(Some(MirrorOf(ts, d)), rest)
  {
    var after := AnyAxisDump(d) + rest;
    var s := Entries(d, ts) + (StateDump(d, states, us) + after);
    var entries := ReadEntries(d.evbits, ts, s, EventCalls(d.evbits, EV_MAX), []);
    var told := EntryCallsAfter(d, ts, EventCalls(d.evbits, EV_MAX));
    assert entries.Sectioned? && entries.calls == told && entries.rest == StateDump(d, states, us) + after
           && (BitAt(d.evbits, EV_ABS) ==> entries.abs.bytes == EntryBytes(d, EV_ABS)) by {
      EntriesRoundTrip(d, ts, StateDump(d, states, us) + after, EventCalls(d.evbits, EV_MAX), []);
    }
    assert SkipStates(d.evbits, us, entries.rest) == Some(after) by {
      StatesRoundTrip(d, states, us, after);
    }
    AnyAxesRoundTrip(d, entries.abs.bytes, rest, told);
  }

  /** The header is consumed exactly, whichever event types the device has. */
  lemma HeaderRoundTrip(d: Device, states: map<nat, seq<byte>>, rest: seq<byte>)
    requires StateShape(states)
    ensures ReadHeader(Header(d, states) + rest)
            == if Terminated(d) then Added(Some(LegacyMirror(d)), rest) else Refused(NameTooLong)
  {
    ListsFit();
    var after := Entries(d, ENTRIES) + (StateDump(d, states, STATES) + (AnyAxisDump(d) + rest));
    Renest(HeaderHead(d), Entries(d, ENTRIES), StateDump(d, states, STATES), AnyAxisDump(d), rest);
    HeadSplits(d, after);
    NamedRoundTrip(ENTRIES, STATES, d, states, rest, (HeaderHead(d) + after)[2..]);
    TerminatedLength(d);
  }

  lemma NamedRoundTrip(ts: seq<nat>, us: seq<nat>, d: Device, states: map<nat, seq<byte>>, rest: seq<byte>,
                       s: seq<byte>)
    requires EntryTypes(ts) && NoRepeat(ts) && EV_ABS in ts && StateTypes(us) && StateShape(states)
    requires s == d.name + HostId(d.id) + d.evbits
                  + (Entries(d, ts) + (StateDump(d, states, us) + (AnyAxisDump(d) + rest)))
    ensures |s| >= 92 && s[..80] == d.name
    ensures ReadArrays(ts, us, s[..80], FromHostId(s[80..88]), s[88..92], s[92..]) == Added(Some(MirrorOf(ts, d)), rest)
  {
    var after := Entries(d, ts) + (StateDump(d, states, us) + (AnyAxisDump(d) + rest));
    assert s[..80] == d.name && s[80..88] == HostId(d.id) && s[88..92] == d.evbits && s[92..] == after;
    HostIdRoundTrip(d.id);
    ArraysRoundTrip(ts, us, d, states, rest);
  }

  lemma HeadSplits(d: Device, after: seq<byte>)
    ensures var s := HeaderHead(d) + after;
            FromHostU16(s[..2]) == USER_DEV_SIZE && s[2..] == d.name + HostId(d.id) + d.evbits + after
  {
    var s := HeaderHead(d) + after;
    assert s[..2] == HostU16(USER_DEV_SIZE);
    HostU16RoundTrip(USER_DEV_SIZE);
  }

  // ----- what the legacy device was told -----

  lemma {:induction false} EntryCallsExact(d: Device, ts: seq<nat>, calls: seq<Call>, c: Call)
    requires EntryTypes(ts)
    ensures c in EntryCallsAfter(d, ts, calls) <==>
            || c in calls
            || (c.CodeBit? && c.of in ts && BitAt(d.evbits, c.of)
                && c.code < CodeMax(c.of) && BitAt(d.codes[c.of], c.code))
    decreases |ts|
  {
    if ts != [] {
      var t := ts[0];
      CodeCallsExact(t, EntryBytes(d, t), CodeMax(t), c);
      EntryCallsExact(d, ts[1..],
                      if BitAt(d.evbits, t) then calls + CodeCalls(t, EntryBytes(d, t), CodeMax(t)) else calls, c);
    }
  }

  lemma LegacyAxesExact(d: Device, calls: seq<Call>, c: Call)
    ensures c in AxisCallsAfter(EntryBytes(d, EV_ABS), d.axes, 0, ABS_MAX, calls) <==>
            c in calls || (c.AbsAxis? && c.axis < ABS_MAX && BitAt(d.codes[EV_ABS], c.axis) && c.info == d.axes[c.axis])
  {
    AxisCallsAppend(EntryBytes(d, EV_ABS), d.axes, 0, ABS_MAX, calls);
    AxisCallsExact(EntryBytes(d, EV_ABS), d.axes, 0, ABS_MAX, c);
  }

  /** The legacy device is told what a netevent 2 device is told, below each maximum. */
  lemma LegacyMirrorExact(d: Device, c: Call)
    ensures c in LegacyMirror(d).calls <==>
            && c in Mirror(d).calls
            && (c.CodeBit? ==> HasEntry(c.of) && c.code < CodeMax(c.of))
            && (c.AbsAxis? ==> c.axis < ABS_MAX)
  {
    var events := EventCalls(d.evbits, EV_MAX);
    MirrorExact(d, c);
    EventCallsExact(d.evbits, EV_MAX, c);
    ListsFit();
    EntryCallsExact(d, ENTRIES, events, c);
    LegacyAxesExact(d, EntryCallsAfter(d, ENTRIES, events), c);
  }
}
