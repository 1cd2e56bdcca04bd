/** Device ids, and what a stream tells its receiver of them. */
module DaemonSync {
  import opened Bytes
  import opened Devices
  import opened AddDevice
  import opened Protocol
  import opened Receiver
  import opened DaemonState
  import opened DaemonInvariant

  // ----- ids -----

  function Ids(inputs: seq<Input>): (r: seq<u16>)
    ensures |r| == |inputs| && forall k :: 0 <= k < |inputs| ==> r[k] == inputs[k].id
  {
    seq(|inputs|, k requires 0 <= k < |inputs| => inputs[k].id)
  }

  ghost predicate Unique(xs: seq<u16>) {
    forall i, j :: 0 <= i < j < |xs| ==> xs[i] != xs[j]
  }

  ghost predicate Below(xs: seq<u16>, n: nat) {
    forall i :: 0 <= i < |xs| ==> xs[i] < n
  }

  ghost predicate Apart(xs: seq<u16>, ys: seq<u16>) {
    forall i, j :: 0 <= i < |xs| && 0 <= j < |ys| ==> xs[i] != ys[j]
  }

  /** Live ids and free ids: no repeats, no overlap, and all below their number. */
  ghost predicate IdsOk(ids: seq<u16>, free: seq<u16>) {
    var n := |ids| + |free|;
    n <= 0x1_0000 && Unique(ids) && Unique(free) && Apart(ids, free) && Below(ids, n) && Below(free, n)
  }

  lemma {:induction false} Pigeonhole(s: set<u16>, n: nat, x: u16)
    requires |s| == n <= 0x1_0000 && (forall y :: y in s ==> y < n) && x < n
    ensures x in s
    decreases n
  {
    var top: u16 := n - 1;
    if top !in s {
      TooMany(s, n - 1);
    } else if x != top {
      Pigeonhole(s - {top}, n - 1, x);
    }
  }

  lemma {:induction false} TooMany(s: set<u16>, n: nat)
    requires forall x :: x in s ==> x < n
    ensures |s| <= n
  {
    if n > 0 {
      TooMany(s - {n - 1}, n - 1);
    } else {
      assert s == {};
    }
  }

  function Elements(xs: seq<u16>): set<u16> {
    set x | x in xs
  }

  lemma {:induction false} UniqueSize(xs: seq<u16>)
    requires Unique(xs)
    ensures |Elements(xs)| == |xs|
  {
    if xs == [] {
      assert Elements(xs) == {};
    } else {
      var front, last := xs[..|xs| - 1], xs[|xs| - 1];
      UniqueSize(front);
      assert last !in Elements(front) && xs == front + [last];
      assert Elements(xs) == Elements(front) + {last};
    }
  }

  /** Together they are exactly the numbers below their number. */
  lemma IdsCovered(ids: seq<u16>, free: seq<u16>)
    requires IdsOk(ids, free)
    ensures forall x: u16 :: x < |ids| + |free| <==> x in ids || x in free
  {
    var all := ids + free;
    assert Unique(all);
    UniqueSize(all);
    var s := Elements(all);
    assert forall x :: x in s ==> x < |all|;
    forall x: u16
      ensures x < |ids| + |free| <==> x in ids || x in free
    {
      assert x in s <==> x in ids || x in free;
      if x < |all| {
        Pigeonhole(s, |all|, x);
      }
    }
  }

  /** The id handed out is not live, fits in 16 bits, and the tables stay in order with it. */
  lemma AllocateOk(ids: seq<u16>, free: seq<u16>, k: nat)
    requires IdsOk(ids, free) && |ids| <= 0xffff && k <= |ids|
    ensures var (id, free') := NextId(|ids|, free);
            id !in ids && IdsOk(Insert(ids, k, id), free') && IdsOk(ids, free' + [id])
  {
    var (id, free') := NextId(|ids|, free);
    if free == [] {
      assert free' + [id] == [id];
    } else {
      assert free' + [id] == free;
      assert free[|free| - 1] == id;
    }
    var ids' := Insert(ids, k, id);
    assert forall j :: 0 <= j < |ids'| && j != k ==> ids'[j] == ids[if j < k then j else j - 1];
  }

  /** Giving the id of a removed input back keeps the tables in order. */
  lemma FreeOk(ids: seq<u16>, free: seq<u16>, k: nat)
    requires IdsOk(ids, free) && k < |ids|
    ensures IdsOk(Erase(ids, k), free + [ids[k]])
  {
    var ids' := Erase(ids, k);
    assert forall j :: 0 <= j < |ids'| ==> ids'[j] == ids[if j < k then j else j + 1];
  }

  /** Not giving it back keeps them in order exactly when it was the greatest id. */
  lemma DropOk(ids: seq<u16>, free: seq<u16>, k: nat)
    requires IdsOk(ids, free) && k < |ids|
    ensures IdsOk(Erase(ids, k), free) <==> ids[k] == |ids| + |free| - 1
  {
    var ids', top: u16 := Erase(ids, k), |ids| + |free| - 1;
    assert forall j :: 0 <= j < |ids'| ==> ids'[j] == ids[if j < k then j else j + 1];
    if ids[k] != top {
      IdsCovered(ids, free);
      if top in ids {
        var j :| 0 <= j < |ids| && ids[j] == top;
        assert ids'[if j < k then j else j - 1] == top;
      }
    }
  }

  lemma ErasedKeeps(xs: seq<u16>, k: nat, x: u16)
    requires k < |xs| && x in xs && x != xs[k]
    ensures x in Erase(xs, k)
  {
    var j :| 0 <= j < |xs| && xs[j] == x;
    assert Erase(xs, k)[if j < k then j else j - 1] == x;
  }

  /** The greatest id stays live or free when another input is removed. */
  lemma TopStays(ids: seq<u16>, free: seq<u16>, k: nat, top: u16)
    requires IdsOk(ids, free) && k < |ids| && ids[k] != top == |ids| + |free| - 1
    ensures top in Erase(ids, k) || top in free
  {
    IdsCovered(ids, free);
    if top in ids {
      ErasedKeeps(ids, k, top);
    }
  }

  // ----- what a stream tells a receiver about ids -----

  /** The ids a receiver holds after a message, or none if it would reject it. */
  function KnownStep(mode: Mode, ids: set<u16>, m: Message): Option<set<u16>> {
    match m
    case Hello => Some(ids)
    case KeepAlive => Some(ids)
    case Add(id, d) =>
      if id in ids && mode == Reject then None
      else if (id in ids && mode == Resume) || Terminated(d) then Some(ids + {id})
      else None
    case Remove(id) => if id !in ids then None else Some(ids - {id})
    case Event(id, _) => if id !in ids then None else Some(ids)
  }

  function Known(mode: Mode, ids: set<u16>, ms: seq<Message>): Option<set<u16>>
    decreases |ms|
  {
    if ms == [] then Some(ids)
    else
      var first := KnownStep(mode, ids, ms[0]);
      if first.None? then None else Known(mode, first.value, ms[1..])
  }

  lemma {:induction false} KnownAppend(mode: Mode, ids: set<u16>, ms: seq<Message>, m: Message)
    requires Known(mode, ids, ms).Some?
    ensures Known(mode, ids, ms + [m]) == KnownStep(mode, Known(mode, ids, ms).value, m)
    decreases |ms|
  {
    if ms == [] {
      assert ms + [m] == [m];
    } else {
      assert (ms + [m])[0] == ms[0] && (ms + [m])[1..] == ms[1..] + [m];
      KnownAppend(mode, KnownStep(mode, ids, ms[0]).value, ms[1..], m);
    }
  }

  lemma {:induction false} KnownPrefix(mode: Mode, ids: set<u16>, ms: seq<Message>, more: seq<Message>)
    requires Known(mode, ids, ms + more).Some?
    ensures Known(mode, ids, ms).Some?
    decreases |ms|
  {
    if ms != [] {
      assert (ms + more)[0] == ms[0] && (ms + more)[1..] == ms[1..] + more;
      KnownPrefix(mode, KnownStep(mode, ids, ms[0]).value, ms[1..], more);
    }
  }

  /** The ids a stream removes. */
  function RemovedIn(ms: seq<Message>): set<u16> {
    set m | m in ms && m.Remove? :: m.id
  }

  /** A resuming receiver that holds more than it needs accepts the same streams, and keeps what it
      holds beyond that unless the stream removes it. */
  lemma {:induction false} ResumeWithMore(ids: set<u16>, held: set<u16>, ms: seq<Message>)
    requires ids <= held && Known(Resume, ids, ms).Some?
    ensures Known(Resume, held, ms)
            == Some(Known(Resume, ids, ms).value + (held - RemovedIn(ms)))
    decreases |ms|
  {
    if ms == [] {
      assert ids + (held - RemovedIn(ms)) == held;
    } else {
      var m, rest := ms[0], ms[1..];
      var ids', held' := KnownStep(Resume, ids, m).value, KnownStep(Resume, held, m).value;
      ResumeWithMore(ids', held', rest);
      RemovedFirst(ms);
      KnownKeeps(ids', rest);
      var value := Known(Resume, ids', rest).value;
      assert value + (held' - RemovedIn(rest)) == value + (held - RemovedIn(ms));
    }
  }

  lemma RemovedFirst(ms: seq<Message>)
    requires ms != []
    ensures RemovedIn(ms) == RemovedIn(ms[1..]) + (if ms[0].Remove? then {ms[0].id} else {})
  {
    assert ms == [ms[0]] + ms[1..];
    assert forall m :: m in ms <==> m == ms[0] || m in ms[1..];
  }

  /** What is not removed stays held. */
  lemma {:induction false} KnownKeeps(ids: set<u16>, ms: seq<Message>)
    requires Known(Resume, ids, ms).Some?
    ensures ids - RemovedIn(ms) <= Known(Resume, ids, ms).value
    decreases |ms|
  {
    if ms != [] {
      KnownKeeps(KnownStep(Resume, ids, ms[0]).value, ms[1..]);
      RemovedFirst(ms);
    }
  }

  /** The events a receiver wrote to its devices. */
  function WroteOf(log: seq<Deed>): seq<(u16, InputEvent)> {
    if log == [] then []
    else
      var last := log[|log| - 1];
      WroteOf(log[..|log| - 1]) + (if last.Wrote? then [(last.id, last.event)] else [])
  }

  lemma WroteAppend(log: seq<Deed>, deed: Deed)
    ensures WroteOf(log + [deed]) == WroteOf(log) + (if deed.Wrote? then [(deed.id, deed.event)] else [])
  {
    assert (log + [deed])[..|log|] == log;
  }

  function EventOf(m: Message): seq<(u16, InputEvent)> {
    if m.Event? then [(m.id, m.event)] else []
  }

  lemma {:induction false} EventsOfConcat(a: seq<Message>, b: seq<Message>)
    ensures EventsOf(a + b) == EventsOf(a) + EventsOf(b)
    decreases |b|
  {
    if b == [] {
      assert a + b == a;
    } else {
      var front, last := b[..|b| - 1], b[|b| - 1];
      EventsOfConcat(a, front);
      JoinLast(a, b);
      EventsOfAppend(a + front, last);
      EventsOfAppend(front, last);
      Regroup(EventsOf(a), EventsOf(front), EventOf(last), []);
    }
  }

  lemma JoinLast(a: seq<Message>, b: seq<Message>)
    requires b != []
    ensures a + b == a + b[..|b| - 1] + [b[|b| - 1]] && b == b[..|b| - 1] + [b[|b| - 1]]
  {}

  lemma EventsOfFirst(m: Message, ms: seq<Message>)
    ensures EventsOf([m] + ms) == EventOf(m) + EventsOf(ms)
  {
    EventsOfConcat([m], ms);
    EventsOfAppend([], m);
    assert [] + [m] == [m];
  }

  /** A receiver applies exactly what the ids allow, and holds the ids that leaves. */
  lemma AppliedStep(mode: Mode, devices: DeviceMap, m: Message)
    ensures var r := Apply(mode, devices, m);
            && (r.Applied? <==> KnownStep(mode, devices.Keys, m).Some?)
            && (r.Applied? ==> r.devices.Keys == KnownStep(mode, devices.Keys, m).value)
            && (r.Applied? ==> (r.deed.Wrote? <==> m.Event?))
            && (r.Applied? && m.Event? ==> r.deed.id == m.id && r.deed.event == m.event)
  {}

  /** A receiver accepts a stream whole if and only if its ids are in order; then it ends up with
      exactly those ids and has handed exactly the stream's events to its devices. */
  lemma {:induction false} KnownAccepted(mode: Mode, devices: DeviceMap, log: seq<Deed>, ms: seq<Message>)
    ensures var r := ApplyAll(mode, devices, log, ms);
            var known := Known(mode, devices.Keys, ms);
            && (r.ending == Eof <==> known.Some?)
            && (known.Some? ==> r.devices.Keys == known.value && WroteOf(r.log) == WroteOf(log) + EventsOf(ms))
    decreases |ms|
  {
    if ms == [] {
      assert WroteOf(log) + EventsOf(ms) == WroteOf(log);
    } else {
      var m, rest := ms[0], ms[1..];
      AppliedStep(mode, devices, m);
      var r := Apply(mode, devices, m);
      if r.Applied? {
        KnownAccepted(mode, r.devices, log + [r.deed], rest);
        WroteAppend(log, r.deed);
        assert ms == [m] + rest;
        EventsOfFirst(m, rest);
        Regroup(WroteOf(log), EventOf(m), EventsOf(rest), []);
      }
    }
  }

  /** The same for the bytes, whatever devices the receiver held before. */
  lemma StreamAccepted(mode: Mode, held: DeviceMap, log: seq<Message>)
    ensures var r := Session(mode, held, [], EncodeAll(log));
            var known := Known(mode, held.Keys, log);
            && (r.ending == Eof <==> known.Some?)
            && (known.Some? ==> r.devices.Keys == known.value && WroteOf(r.log) == EventsOf(log))
  {
    SessionRoundTrip(mode, held, [], log);
    KnownAccepted(mode, held, [], log);
    assert WroteOf([]) + EventsOf(log) == EventsOf(log);
  }

  /** An announcement the ids do not allow ends the session with its error, whatever follows it. */
  lemma AnnouncementRejected(held: DeviceMap, log: seq<Message>, id: u16, d: Device, more: seq<Message>)
    requires var known := Known(Reject, held.Keys, log); known.Some? && (id in known.value || !Terminated(d))
    ensures Session(Reject, held, [], EncodeAll(log + [Add(id, d)] + more)).ending
            == Thrown(if id in Known(Reject, held.Keys, log).value then DuplicateDevice else NameTooLong)
  {
    var tail := [Add(id, d)] + more;
    assert log + [Add(id, d)] + more == log + tail;
    SessionRoundTrip(Reject, held, [], log + tail);
    RejectedAfter(held, log, Add(id, d), more);
  }

  lemma RejectedAfter(held: DeviceMap, log: seq<Message>, m: Message, more: seq<Message>)
    requires Known(Reject, held.Keys, log).Some? && m.Add?
    requires KnownStep(Reject, Known(Reject, held.Keys, log).value, m).None?
    ensures ApplyAll(Reject, held, [], log + ([m] + more)).ending
            == Thrown(if m.id in Known(Reject, held.Keys, log).value then DuplicateDevice else NameTooLong)
  {
    KnownAccepted(Reject, held, [], log);
    var r := ApplyAll(Reject, held, [], log);
    ApplyAllAppend(Reject, held, [], log, [m] + more);
    ApplyFirst(Reject, r.devices, r.log, m, more);
  }

  // ----- what a stream says of each device -----

  /** The last description announced under an id that was not removed since. */
  function LastAdd(log: seq<Message>, id: u16): Option<Device> {
    if log == [] then None
    else
      var last := log[|log| - 1];
      if last.Add? && last.id == id then Some(last.device)
      else if last.Remove? && last.id == id then None
      else LastAdd(log[..|log| - 1], id)
  }

  /** The events sent for an id since it was last announced, without force feedback. */
  function SentTo(log: seq<Message>, id: u16): seq<InputEvent> {
    if log == [] then []
    else
      var last, front := log[|log| - 1], log[..|log| - 1];
      if last.Add? && last.id == id then []
      else SentTo(front, id) + (if last.Event? && last.id == id && last.event.kind != EV_FF then [last.event] else [])
  }

  /** Each device announced in a stream mirrors the last description announced under its id, and was
      written exactly the events sent for it since; the others are those held before, written those. */
  ghost predicate Stand(devices: DeviceMap, held: DeviceMap, log: seq<Message>) {
    forall id :: id in devices ==> StandsFor(devices[id], id, held, log)
  }

  ghost predicate StandsFor(device: OutDevice, id: u16, held: DeviceMap, log: seq<Message>) {
    var d := LastAdd(log, id);
    if d.Some? then device == Mirror(d.value).(written := SentTo(log, id))
    else id in held && device == held[id].(written := held[id].written + SentTo(log, id))
  }

  lemma LogStep(log: seq<Message>, m: Message, id: u16)
    ensures LastAdd(log + [m], id)
            == if m.Add? && m.id == id then Some(m.device)
               else if m.Remove? && m.id == id then None
               else LastAdd(log, id)
    ensures SentTo(log + [m], id)
            == if m.Add? && m.id == id then []
               else SentTo(log, id) + (if m.Event? && m.id == id && m.event.kind != EV_FF then [m.event] else [])
  {
    assert (log + [m])[..|log|] == log;
  }

  lemma StandStep(devices: DeviceMap, held: DeviceMap, log: seq<Message>, m: Message)
    requires Stand(devices, held, log) && Apply(Reject, devices, m).Applied?
    ensures Stand(Apply(Reject, devices, m).devices, held, log + [m])
  {
    var devices' := Apply(Reject, devices, m).devices;
    forall id | id in devices'
      ensures StandsFor(devices'[id], id, held, log + [m])
    {
      StandsForStep(devices, held, log, m, id);
    }
  }

  lemma StandsForStep(devices: DeviceMap, held: DeviceMap, log: seq<Message>, m: Message, id: u16)
    requires Apply(Reject, devices, m).Applied? && id in Apply(Reject, devices, m).devices
    requires id in devices ==> StandsFor(devices[id], id, held, log)
    ensures StandsFor(Apply(Reject, devices, m).devices[id], id, held, log + [m])
  {
    LogStep(log, m, id);
    var written := if id in held then held[id].written else [];
    Regroup(written, SentTo(log, id), [], []);
    if m.Event? {
      Regroup(written, SentTo(log, id), [m.event], []);
    }
    DeviceStep(devices, m, id);
    assert SentTo(log, id) + [] == SentTo(log, id);
  }

  /** What a message does to the device with an id. */
  lemma DeviceStep(devices: DeviceMap, m: Message, id: u16)
    requires Apply(Reject, devices, m).Applied? && id in Apply(Reject, devices, m).devices
    ensures var device := Apply(Reject, devices, m).devices[id];
            if m.Add? && m.id == id then device == Mirror(m.device)
            else
              && id in devices && !(m.Remove? && m.id == id)
              && device == (if m.Event? && m.id == id && m.event.kind != EV_FF
                            then devices[id].(written := devices[id].written + [m.event]) else devices[id])
  {}

  lemma {:induction false} DevicesExact(held: DeviceMap, log: seq<Message>)
    requires Known(Reject, held.Keys, log).Some?
    ensures Stand(ApplyAll(Reject, held, [], log).devices, held, log)
    decreases |log|
  {
    if log == [] {
      assert forall id :: id in held ==> held[id].written + [] == held[id].written;
    } else {
      var front, m := log[..|log| - 1], log[|log| - 1];
      assert log == front + [m];
      KnownPrefix(Reject, held.Keys, front, [m]);
      DevicesExact(held, front);
      var devices := AppliedLast(held, front, m);
      StandStep(devices, held, front, m);
    }
  }

  /** The devices before the last message of an accepted stream. */
  lemma AppliedLast(held: DeviceMap, front: seq<Message>, m: Message) returns (devices: DeviceMap)
    requires Known(Reject, held.Keys, front).Some? && Known(Reject, held.Keys, front + [m]).Some?
    ensures devices == ApplyAll(Reject, held, [], front).devices
    ensures Apply(Reject, devices, m).Applied?
    ensures ApplyAll(Reject, held, [], front + [m]).devices == Apply(Reject, devices, m).devices
  {
    KnownAccepted(Reject, held, [], front);
    ApplyAllAppend(Reject, held, [], front, [m]);
    var r := ApplyAll(Reject, held, [], front);
    KnownAppend(Reject, held.Keys, front, m);
    AppliedStep(Reject, r.devices, m);
    LastApplied(r.devices, r.log, m);
    devices := r.devices;
  }

  lemma LastApplied(devices: DeviceMap, log: seq<Deed>, m: Message)
    requires Apply(Reject, devices, m).Applied?
    ensures ApplyAll(Reject, devices, log, [m]).devices == Apply(Reject, devices, m).devices
  {
    assert [m][1..] == [];
  }

  /** A rejecting receiver accepts a stream if and only if the ids are in order; then it holds exactly
      those ids, and each device stands for what the stream says of it. */
  lemma ReceiverExact(held: DeviceMap, log: seq<Message>)
    ensures var r := Session(Reject, held, [], EncodeAll(log));
            var known := Known(Reject, held.Keys, log);
            && (r.ending == Eof <==> known.Some?)
            && (known.Some? ==>
                  r.devices.Keys == known.value && WroteOf(r.log) == EventsOf(log) && Stand(r.devices, held, log))
  {
    StreamAccepted(Reject, held, log);
    if Known(Reject, held.Keys, log).Some? {
      SessionRoundTrip(Reject, held, [], log);
      DevicesExact(held, log);
    }
  }

  // ----- a resuming receiver -----

  /** All events a stream sends for an id, without force feedback. */
  function SentAll(ms: seq<Message>, id: u16): seq<InputEvent>
    decreases |ms|
  {
    if ms == [] then []
    else
      var m := ms[0];
      (if m.Event? && m.id == id && m.event.kind != EV_FF then [m.event] else []) + SentAll(ms[1..], id)
  }

  /** It keeps a device that the stream does not remove, also when the stream announces it again, and
      writes all events sent for its id to it. */
  lemma {:induction false} HeldKept(devices: DeviceMap, log: seq<Deed>, ms: seq<Message>, id: u16)
    requires id in devices && id !in RemovedIn(ms) && Known(Resume, devices.Keys, ms).Some?
    ensures var r := ApplyAll(Resume, devices, log, ms);
            id in r.devices && r.devices[id] == devices[id].(written := devices[id].written + SentAll(ms, id))
    decreases |ms|
  {
    if ms == [] {
      assert devices[id].written + [] == devices[id].written;
    } else {
      var m, rest := ms[0], ms[1..];
      AppliedStep(Resume, devices, m);
      RemovedFirst(ms);
      HeldStep(devices, m, id);
      SentFirst(ms, id);
      var r := Apply(Resume, devices, m);
      HeldKept(r.devices, log + [r.deed], rest, id);
      Regroup(devices[id].written, SentAll([m], id), SentAll(rest, id), []);
    }
  }

  lemma SentFirst(ms: seq<Message>, id: u16)
    requires ms != []
    ensures SentAll(ms, id) == SentAll([ms[0]], id) + SentAll(ms[1..], id)
  {
    assert [ms[0]][1..] == [];
  }

  lemma HeldStep(devices: DeviceMap, m: Message, id: u16)
    requires id in devices && !(m.Remove? && m.id == id) && Apply(Resume, devices, m).Applied?
    ensures var r := Apply(Resume, devices, m);
            id in r.devices && r.devices[id] == devices[id].(written := devices[id].written + SentAll([m], id))
  {
    assert [m][1..] == [];
    var none: seq<InputEvent> := [];
    assert SentAll([], id) == none;
    assert devices[id].written + none == devices[id].written;
  }

  // ----- a new receiver -----

  /** It reads the hello packet first and then the rest of the stream. */
  lemma ReceiveIsApply(log: seq<Message>)
    requires log != [] && log[0] == Hello
    ensures Receive(Reject, [EncodeAll(log)]) == ApplyAll(Reject, map[], [], log[1..])
  {
    var rest := log[1..];
    var bytes := EncodeAll(log);
    PacketFields(Hello);
    assert bytes[..PACKET_SIZE] == Packet(Hello) && bytes[PACKET_SIZE..] == EncodeAll(rest);
    assert [bytes[PACKET_SIZE..]] + [bytes][1..] == [EncodeAll(rest)];
    SessionRoundTrip(Reject, map[], [], rest);
    var served := Session(Reject, map[], [], EncodeAll(rest));
    assert Serve(Reject, served.devices, served.log, []) == Finished(served.devices, served.log, Eof);
  }

  /** That makes no difference to a session that starts with nothing held. */
  lemma NewReceiver(log: seq<Message>)
    requires log != [] && log[0] == Hello
    ensures var r := Receive(Reject, [EncodeAll(log)]);
            var s := Session(Reject, map[], [], EncodeAll(log));
            r.devices == s.devices && r.ending == s.ending
  {
    var nothing: DeviceMap := map[];
    ReceiveIsApply(log);
    SessionRoundTrip(Reject, nothing, [], log);
    assert log == [Hello] + log[1..];
    ApplyFirst(Reject, nothing, [], Hello, log[1..]);
    LogDoesNotMatter(nothing, [], [] + [Deed.Greeted], log[1..]);
  }

  lemma {:induction false} LogDoesNotMatter(devices: DeviceMap, a: seq<Deed>, b: seq<Deed>, ms: seq<Message>)
    ensures var r, s := ApplyAll(Reject, devices, a, ms), ApplyAll(Reject, devices, b, ms);
            r.devices == s.devices && r.ending == s.ending
    decreases |ms|
  {
    if ms != [] {
      var r := Apply(Reject, devices, ms[0]);
      if r.Applied? {
        LogDoesNotMatter(r.devices, a + [r.deed], b + [r.deed], ms[1..]);
      }
    }
  }
}
