/** What an event device is made of, and what a uinput device is told. */
module Devices {
  import opened Bytes
  import opened BitField

  // Event types and code counts of the Linux input interface.
  const EV_KEY := 0x01
  const EV_REL := 0x02
  const EV_ABS := 0x03
  const EV_MSC := 0x04
  const EV_SW := 0x05
  const EV_LED := 0x11
  const EV_SND := 0x12
  const EV_FF := 0x15
  const EV_MAX := 0x1f
  const EV_CNT := 0x20
  const KEY_MAX := 0x2ff
  const REL_MAX := 0x0f
  const ABS_MAX := 0x3f
  const MSC_MAX := 0x07
  const LED_MAX := 0x0f
  const SND_MAX := 0x07
  const FF_MAX := 0x7f
  const SW_MAX := 0x10

  const NAME_SIZE := 80
  /** `sizeof(struct uinput_user_dev)`: name, id, ff_effects_max, four arrays of ABS_CNT ints. */
  const USER_DEV_SIZE := NAME_SIZE + 8 + 4 + 4 * 4 * (ABS_MAX + 1)
  const LONG_BITS := 64

  /** The types with an entry in the table of uinput bit requests. */
  predicate HasCodes(t: nat) {
    t == EV_KEY || t == EV_REL || t == EV_ABS || t == EV_MSC || t == EV_SW
    || t == EV_LED || t == EV_SND || t == EV_FF
  }

  /** The types with a netevent 1 code array, and those with a state array. */
  predicate HasEntry(t: nat) {
    t == EV_KEY || t == EV_ABS || t == EV_REL || t == EV_MSC || t == EV_SW || t == EV_LED
  }

  predicate HasState(t: nat) {
    t == EV_KEY || t == EV_LED || t == EV_SW
  }

  function CodeMax(t: nat): nat
    requires HasCodes(t)
  {
    if t == EV_KEY then KEY_MAX
    else if t == EV_REL then REL_MAX
    else if t == EV_ABS then ABS_MAX
    else if t == EV_MSC then MSC_MAX
    else if t == EV_SW then SW_MAX
    else if t == EV_LED then LED_MAX
    else if t == EV_SND then SND_MAX
    else FF_MAX
  }

  /** How many bits the kernel reports for a type: whole longs. */
  function CodeCount(t: nat): (n: nat)
    requires HasCodes(t)
    ensures n % LONG_BITS == 0 && CodeMax(t) < n < 0x1_0000
  {
    (CodeMax(t) + LONG_BITS) / LONG_BITS * LONG_BITS
  }

  datatype InputEvent = InputEvent(sec: u64, usec: u32, kind: u16, code: u16, value: i32)

  datatype InputId = InputId(bustype: u16, vendor: u16, product: u16, version: u16)

  datatype Axis = Axis(value: i32, minimum: i32, maximum: i32, fuzz: i32, flat: i32, resolution: i32)

  /** Everything the kernel answers about a device; `codes` and `axes` are its bitmaps and axes. */
  datatype Description = Description(
    name: seq<byte>, id: InputId, evbits: seq<byte>, codes: seq<seq<byte>>, axes: seq<Axis>)

  predicate Shape(d: Description) {
    && |d.name| == NAME_SIZE
    && |d.evbits| == ByteSize(EV_MAX)
    && |d.codes| == EV_MAX
    && (forall t: nat :: t < EV_MAX && HasCodes(t) ==> |d.codes[t]| == ByteSize(CodeCount(t)))
    && |d.axes| == ABS_MAX + 1
  }

  const BLANK := Description(
    Zeros(NAME_SIZE), InputId(0, 0, 0, 0), Zeros(ByteSize(EV_MAX)),
    seq(EV_MAX, t requires 0 <= t => if HasCodes(t) then Zeros(ByteSize(CodeCount(t))) else []),
    seq(ABS_MAX + 1, i => Axis(0, 0, 0, 0, 0, 0)))

  type Device = d: Description | Shape(d) witness BLANK

  /** The number of bytes before the first NUL, or all of them. */
  function NameLength(name: seq<byte>): (n: nat)
    ensures n <= |name|
    ensures n < |name| ==> name[n] == 0
    ensures forall i :: 0 <= i < n ==> name[i] != 0
  {
    if name == [] || name[0] == 0 then 0 else 1 + NameLength(name[1..])
  }

  predicate Terminated(d: Device) {
    0 in d.name
  }

  lemma TerminatedLength(d: Device)
    ensures Terminated(d) <==> NameLength(d.name) < NAME_SIZE
  {}

  /** `device rename`: refuses a name that would not leave room for its terminator. */
  function Renamed(d: Device, name: seq<byte>): (r: Option<Device>)
    ensures r.Some? <==> |name| < NAME_SIZE
    ensures r.Some? ==> Terminated(r.value) && r.value == d.(name := r.value.name)
    ensures r.Some? ==> name <= r.value.name && forall i :: |name| <= i < NAME_SIZE ==> r.value.name[i] == 0
  {
    if |name| >= NAME_SIZE then None
    else
      var padded := name + Zeros(NAME_SIZE - |name|);
      assert padded[|name|] == 0;
      Some(d.(name := padded))
  }

  /** One request a uinput device receives before it is created. */
  datatype Call = EventBit(kind: nat) | CodeBit(of: nat, code: nat) | AbsAxis(axis: nat, info: Axis)

  /** A created uinput device, and the events it was given since. */
  datatype OutDevice = OutDevice(name: seq<byte>, id: InputId, calls: seq<Call>, written: seq<InputEvent>)

  /** The requests for the set event types below `n`; force feedback is never enabled. */
  function EventCalls(evbits: seq<byte>, n: nat): seq<Call>
    requires n <= 8 * |evbits|
  {
    if n == 0 then []
    else EventCalls(evbits, n - 1)
         + (if BitAt(evbits, n - 1) && n - 1 != EV_FF then [EventBit(n - 1)] else [])
  }

  /** The requests for the set codes below `n` of type `t`. */
  function CodeCalls(t: nat, bits: seq<byte>, n: nat): seq<Call>
    requires n <= 8 * |bits|
  {
    if n == 0 then []
    else CodeCalls(t, bits, n - 1) + (if BitAt(bits, n - 1) then [CodeBit(t, n - 1)] else [])
  }

  /** The requests for the axes `i..n` whose bit is set. */
  function AxisCalls(bits: seq<byte>, axes: seq<Axis>, i: nat, n: nat): seq<Call>
    requires i <= n <= 8 * |bits| && n <= |axes|
    decreases n - i
  {
    if i == n then []
    else (if BitAt(bits, i) then [AbsAxis(i, axes[i])] else []) + AxisCalls(bits, axes, i + 1, n)
  }

  lemma {:induction false} EventCallsExact(evbits: seq<byte>, n: nat, c: Call)
    requires n <= 8 * |evbits|
    ensures c in EventCalls(evbits, n) <==> c.EventBit? && c.kind < n && c.kind != EV_FF && BitAt(evbits, c.kind)
  {
    if n > 0 {
      EventCallsExact(evbits, n - 1, c);
    }
  }

  lemma {:induction false} CodeCallsExact(t: nat, bits: seq<byte>, n: nat, c: Call)
    requires n <= 8 * |bits|
    ensures c in CodeCalls(t, bits, n) <==> c.CodeBit? && c.of == t && c.code < n && BitAt(bits, c.code)
  {
    if n > 0 {
      CodeCallsExact(t, bits, n - 1, c);
    }
  }

  lemma {:induction false} AxisCallsExact(bits: seq<byte>, axes: seq<Axis>, i: nat, n: nat, c: Call)
    requires i <= n <= 8 * |bits| && n <= |axes|
    ensures c in AxisCalls(bits, axes, i, n)
            <==> c.AbsAxis? && i <= c.axis < n && BitAt(bits, c.axis) && c.info == axes[c.axis]
    decreases n - i
  {
    if i < n {
      var here: seq<Call> := if BitAt(bits, i) then [AbsAxis(i, axes[i])] else [];
      var later := AxisCalls(bits, axes, i + 1, n);
      assert c in AxisCalls(bits, axes, i, n) <==> c in here || c in later;
      AxisCallsExact(bits, axes, i + 1, n, c);
    }
  }
}
