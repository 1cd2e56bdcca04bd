/** `netevent create`: the packet loop, its duplicate modes, and reconnects. */
module Receiver {
  import opened Bytes
  import opened Devices
  import opened AddDevice
  import opened Protocol

  datatype Mode = Reject | Resume | Replace

  type DeviceMap = map<u16, OutDevice>

  /** What the receiver did with one packet. */
  datatype Deed =
    | Greeted
    | KeptAlive
    | Created(id: u16, device: OutDevice)
    | Skipped(id: u16)
    | Removed(id: u16)
    | Wrote(id: u16, event: InputEvent)

  datatype Receipt =
    | Continue(devices: DeviceMap, deed: Deed, rest: seq<byte>)
    | End
    | Fail(error: Error)

  datatype Ending = Eof | Thrown(error: Error)
  datatype Finished = Finished(devices: DeviceMap, log: seq<Deed>, ending: Ending)

  /** Writing an event; force feedback events are dropped. */
  function Write(d: OutDevice, e: InputEvent): OutDevice {
    if e.kind == EV_FF then d else d.(written := d.written + [e])
  }

  /** One turn of the packet loop, on any bytes at all. */
  function ReadPacket(mode: Mode, devices: DeviceMap, s: seq<byte>): (r: Receipt)
    ensures r.Continue? ==> |r.rest| < |s|
  {
    if |s| < PACKET_SIZE then End
    else
      var pkt, rest := s[..PACKET_SIZE], s[PACKET_SIZE..];
      var command := Command(pkt);
      if command == HELLO then
        var error := HelloError(pkt);
        if error.Some? then Fail(error.value) else Continue(devices, Greeted, rest)
      else if command == KEEP_ALIVE then Continue(devices, KeptAlive, rest)
      else if command == ADD_DEVICE then
        var id := IdOf(pkt);
        if mode == Replace || id !in devices then
          var r := ReadAdd(pkt, rest, false);
          if r.Refused? then Fail(r.error)
          else Continue(devices[id := r.device.value], Created(id, r.device.value), r.rest)
        else if mode == Reject then Fail(DuplicateDevice)
        else
          var r := ReadAdd(pkt, rest, true);
          if r.Refused? then Fail(r.error) else Continue(devices, Skipped(id), r.rest)
      else if command == REMOVE_DEVICE then
        var id := IdOf(pkt);
        if id !in devices then Fail(MissingDevice) else Continue(devices - {id}, Removed(id), rest)
      else if command == DEVICE_EVENT then
        var id := IdOf(pkt);
        if id !in devices then Fail(MissingDevice)
        else
          var e := DecodeEvent(pkt[4..]);
          Continue(devices[id := Write(devices[id], e)], Wrote(id, e), rest)
      else Fail(UnknownPacket)
  }

  /** The packet loop over one connection. */
  function Session(mode: Mode, devices: DeviceMap, log: seq<Deed>, s: seq<byte>): Finished
    decreases |s|
  {
    var r := ReadPacket(mode, devices, s);
    if r.End? then Finished(devices, log, Eof)
    else if r.Fail? then Finished(devices, log, Thrown(r.error))
    else Session(mode, r.devices, log + [r.deed], r.rest)
  }

  /** The packet loop over the connections accepted one after another. */
  function Serve(mode: Mode, devices: DeviceMap, log: seq<Deed>, connections: seq<seq<byte>>): Finished
    decreases |connections|
  {
    if connections == [] then Finished(devices, log, Eof)
    else
      var r := Session(mode, devices, log, connections[0]);
      if r.ending.Thrown? then r else Serve(mode, r.devices, r.log, connections[1..])
  }

  /** The whole command: the first connection must start with a hello packet. */
  function Receive(mode: Mode, connections: seq<seq<byte>>): Finished
    requires connections != []
  {
    var first := connections[0];
    if |first| < PACKET_SIZE then Finished(map[], [], Thrown(ReadError))
    else if HelloError(first[..PACKET_SIZE]).Some? then
      Finished(map[], [], Thrown(HelloError(first[..PACKET_SIZE]).value))
    else Serve(mode, map[], [], [first[PACKET_SIZE..]] + connections[1..])
  }

  // ----- the same on messages -----

  datatype Applied = Applied(devices: DeviceMap, deed: Deed) | Rejected(error: Error)

  function Apply(mode: Mode, devices: DeviceMap, m: Message): Applied {
    match m
    case Hello => Applied(devices, Greeted)
    case KeepAlive => Applied(devices, KeptAlive)
    case Add(id, d) =>
      if mode == Replace || id !in devices then
        if Terminated(d) then Applied(devices[id := Mirror(d)], Created(id, Mirror(d))) else Rejected(NameTooLong)
      else if mode == Reject then Rejected(DuplicateDevice)
      else Applied(devices, Skipped(id))
    case Remove(id) =>
      if id in devices then Applied(devices - {id}, Removed(id)) else Rejected(MissingDevice)
    case Event(id, e) =>
      if id in devices then Applied(devices[id := Write(devices[id], e)], Wrote(id, e)) else Rejected(MissingDevice)
  }

  function ApplyAll(mode: Mode, devices: DeviceMap, log: seq<Deed>, ms: seq<Message>): Finished
    decreases |ms|
  {
    if ms == [] then Finished(devices, log, Eof)
    else
      var r := Apply(mode, devices, ms[0]);
      if r.Rejected? then Finished(devices, log, Thrown(r.error))
      else ApplyAll(mode, r.devices, log + [r.deed], ms[1..])
  }

  /** One encoded message is acted on as itself, and exactly its bytes are consumed. */
  lemma PacketRoundTrip(mode: Mode, devices: DeviceMap, m: Message, rest: seq<byte>)
    ensures ReadPacket(mode, devices, Encode(m) + rest)
            == match Apply(mode, devices, m)
               case Applied(devices', deed) => Continue(devices', deed, rest)
               case Rejected(error) => Fail(error)
  {
    PacketFields(m);
    if m.Add? {
      AddPacketRoundTrip(mode, devices, m, rest);
    } else {
      assert Encode(m) + rest == Packet(m) + rest;
      Split(Packet(m), rest);
    }
  }

  lemma AddPacketRoundTrip(mode: Mode, devices: DeviceMap, m: Message, rest: seq<byte>)
    requires m.Add?
    ensures ReadPacket(mode, devices, Encode(m) + rest)
            == match Apply(mode, devices, m)
               case Applied(devices', deed) => Continue(devices', deed, rest)
               case Rejected(error) => Fail(error)
  {
    var pkt, after := Packet(m), Body(m.device) + rest;
    assert Encode(m) + rest == pkt + after;
    Split(pkt, after);
    PacketFields(m);
    assert pkt == AddPacket(m.id);
    AddRoundTrip(m.device, m.id, rest, mode == Resume && m.id in devices);
  }

  /** A whole session of messages is decoded to exactly itself. */
  lemma {:induction false} SessionRoundTrip(mode: Mode, devices: DeviceMap, log: seq<Deed>, ms: seq<Message>)
    ensures Session(mode, devices, log, EncodeAll(ms)) == ApplyAll(mode, devices, log, ms)
    decreases |ms|
  {
    if ms != [] {
      SessionFirst(mode, devices, log, ms[0], EncodeAll(ms[1..]));
      var r := Apply(mode, devices, ms[0]);
      if r.Applied? {
        SessionRoundTrip(mode, r.devices, log + [r.deed], ms[1..]);
      }
    }
  }

  lemma {:induction false} ApplyAllAppend(mode: Mode, devices: DeviceMap, log: seq<Deed>,
                                          ms: seq<Message>, more: seq<Message>)
    ensures var r := ApplyAll(mode, devices, log, ms);
            ApplyAll(mode, devices, log, ms + more)
            == if r.ending.Thrown? then r else ApplyAll(mode, r.devices, r.log, more)
    decreases |ms|
  {
    if ms == [] {
      assert ms + more == more;
    } else {
      assert (ms + more)[0] == ms[0] && (ms + more)[1..] == ms[1..] + more;
      var r := Apply(mode, devices, ms[0]);
      if r.Applied? {
        ApplyAllAppend(mode, r.devices, log + [r.deed], ms[1..], more);
      }
    }
  }

  // ----- truncated streams -----

  /** How many whole messages fit in the first `k` bytes. */
  function Fitting(ms: seq<Message>, k: nat): (j: nat)
    ensures j <= |ms|
  {
    if ms == [] || k < |Encode(ms[0])| then 0 else 1 + Fitting(ms[1..], k - |Encode(ms[0])|)
  }

  lemma PrefixBytes(ms: seq<Message>, j: nat)
    requires j < |ms|
    ensures EncodeAll(ms[..j + 1]) == Encode(ms[0]) + EncodeAll(ms[1..][..j])
  {
    assert ms[..j + 1][1..] == ms[1..][..j];
  }

  lemma {:induction false} FittingExact(ms: seq<Message>, k: nat)
    ensures |EncodeAll(ms[..Fitting(ms, k)])| <= k
    ensures Fitting(ms, k) < |ms| ==> k < |EncodeAll(ms[..Fitting(ms, k) + 1])|
  {
    if ms == [] || k < |Encode(ms[0])| {
      NoneFits(ms, k);
    } else {
      var rest, left := ms[1..], k - |Encode(ms[0])|;
      FittingFirst(ms, k);
      FittingExact(rest, left);
      FittingMore(ms, left, Fitting(rest, left));
    }
  }

  lemma NoneFits(ms: seq<Message>, k: nat)
    requires ms == [] || k < |Encode(ms[0])|
    ensures Fitting(ms, k) == 0 && EncodeAll(ms[..0]) == []
    ensures ms != [] ==> k < |EncodeAll(ms[..1])|
  {
    if ms != [] {
      PrefixBytes(ms, 0);
    }
  }

  lemma FittingMore(ms: seq<Message>, left: nat, j: nat)
    requires ms != [] && j <= |ms| - 1 && |EncodeAll(ms[1..][..j])| <= left
    requires j < |ms| - 1 ==> left < |EncodeAll(ms[1..][..j + 1])|
    ensures |EncodeAll(ms[..j + 1])| <= left + |Encode(ms[0])|
    ensures j + 1 < |ms| ==> left + |Encode(ms[0])| < |EncodeAll(ms[..j + 2])|
  {
    PrefixBytes(ms, j);
    if j < |ms| - 1 {
      PrefixBytes(ms, j + 1);
    }
  }

  lemma CutBody(m: Message, k: nat)
    requires PACKET_SIZE <= k < |Encode(m)|
    ensures m.Add? && Packet(m) == AddPacket(m.id)
    ensures var s := Encode(m)[..k];
            s[..PACKET_SIZE] == AddPacket(m.id) && s[PACKET_SIZE..] == Body(m.device)[..k - PACKET_SIZE]
  {
    OnlyAddsHaveBodies(m);
    CutSecond(Packet(m), Body(m.device), k);
  }

  lemma OnlyAddsHaveBodies(m: Message)
    ensures if m.Add? then Encode(m) == Packet(m) + Body(m.device) && Packet(m) == AddPacket(m.id)
            else |Encode(m)| == PACKET_SIZE
  {}

  /** How reading a message ends after its first `k` bytes: the end of the stream is only taken as
      such before a whole packet was read. */
  function CutEnding(mode: Mode, devices: DeviceMap, m: Message, k: nat): Ending {
    if k < PACKET_SIZE || !m.Add? then Eof
    else if mode == Reject && m.id in devices then Thrown(DuplicateDevice)
    else Thrown(CutError(m.device, k - PACKET_SIZE, mode == Resume && m.id in devices))
  }

  /** A message cut short is never acted on. */
  lemma CutPacketIgnored(mode: Mode, devices: DeviceMap, m: Message, k: nat)
    requires k < |Encode(m)|
    ensures ReadPacket(mode, devices, Encode(m)[..k])
            == match CutEnding(mode, devices, m, k) case Eof => End case Thrown(error) => Fail(error)
  {
    if k >= PACKET_SIZE {
      CutBody(m, k);
      PacketFields(m);
      TruncatedAddRefused(m.device, m.id, k - PACKET_SIZE, mode == Resume && m.id in devices);
    }
  }

  /** How a session ends whose stream is cut after `k` bytes and whose whole messages are accepted:
      as reading the message at the cut does. */
  function LastEnding(mode: Mode, devices: DeviceMap, ms: seq<Message>, k: nat): Ending
    decreases |ms|
  {
    if ms == [] then Eof
    else if k < |Encode(ms[0])| then CutEnding(mode, devices, ms[0], k)
    else LastEnding(mode, devices, ms[1..], k - |Encode(ms[0])|)
  }

  /** On a stream cut anywhere, exactly the whole messages before the cut are acted on, and the
      session ends with their error, or as the message at the cut says. */
  lemma {:induction false} TruncatedSession(mode: Mode, devices: DeviceMap, log: seq<Deed>, ms: seq<Message>, k: nat)
    requires k <= |EncodeAll(ms)|
    ensures var got := Session(mode, devices, log, EncodeAll(ms)[..k]);
            var whole := ApplyAll(mode, devices, log, ms[..Fitting(ms, k)]);
            got == whole.(ending := if whole.ending.Thrown? then whole.ending
                                    else LastEnding(mode, whole.devices, ms, k))
    decreases |ms|
  {
    if ms != [] {
      CutStream(ms, k);
      var left := k - |Encode(ms[0])|;
      if left < 0 {
        CutPacketIgnored(mode, devices, ms[0], k);
      } else {
        FirstFits(mode, devices, log, ms, k);
        var r := Apply(mode, devices, ms[0]);
        if r.Applied? {
          TruncatedSession(mode, r.devices, log + [r.deed], ms[1..], left);
        }
      }
    }
  }

  lemma FirstFits(mode: Mode, devices: DeviceMap, log: seq<Deed>, ms: seq<Message>, k: nat)
    requires ms != [] && |Encode(ms[0])| <= k <= |EncodeAll(ms)|
    ensures var rest, r, left := ms[1..], Apply(mode, devices, ms[0]), k - |Encode(ms[0])|;
            && left <= |EncodeAll(rest)|
            && Session(mode, devices, log, EncodeAll(ms)[..k])
               == (if r.Applied? then Session(mode, r.devices, log + [r.deed], EncodeAll(rest)[..left])
                   else Finished(devices, log, Thrown(r.error)))
            && ApplyAll(mode, devices, log, ms[..Fitting(ms, k)])
               == (if r.Applied? then ApplyAll(mode, r.devices, log + [r.deed], rest[..Fitting(rest, left)])
                   else Finished(devices, log, Thrown(r.error)))
  {
    FirstBytes(mode, devices, log, ms, k);
    ApplySome(mode, devices, log, ms, Fitting(ms[1..], k - |Encode(ms[0])|));
    FittingFirst(ms, k);
  }

  lemma FittingFirst(ms: seq<Message>, k: nat)
    requires ms != [] && |Encode(ms[0])| <= k
    ensures Fitting(ms, k) == Fitting(ms[1..], k - |Encode(ms[0])|) + 1
  {}

  lemma FirstBytes(mode: Mode, devices: DeviceMap, log: seq<Deed>, ms: seq<Message>, k: nat)
    requires ms != [] && |Encode(ms[0])| <= k <= |EncodeAll(ms)|
    ensures var r, left := Apply(mode, devices, ms[0]), k - |Encode(ms[0])|;
            && left <= |EncodeAll(ms[1..])|
            && Session(mode, devices, log, EncodeAll(ms)[..k])
               == if r.Applied? then Session(mode, r.devices, log + [r.deed], EncodeAll(ms[1..])[..left])
                  else Finished(devices, log, Thrown(r.error))
  {
    CutStream(ms, k);
    SessionFirst(mode, devices, log, ms[0], EncodeAll(ms[1..])[..k - |Encode(ms[0])|]);
  }

  lemma ApplySome(mode: Mode, devices: DeviceMap, log: seq<Deed>, ms: seq<Message>, n: nat)
    requires n < |ms|
    ensures var r := Apply(mode, devices, ms[0]);
            ApplyAll(mode, devices, log, ms[..n + 1])
            == if r.Applied? then ApplyAll(mode, r.devices, log + [r.deed], ms[1..][..n])
               else Finished(devices, log, Thrown(r.error))
  {
    assert ms[..n + 1] == [ms[0]] + ms[1..][..n];
    ApplyFirst(mode, devices, log, ms[0], ms[1..][..n]);
  }

  lemma SessionFirst(mode: Mode, devices: DeviceMap, log: seq<Deed>, m: Message, rest: seq<byte>)
    ensures var r := Apply(mode, devices, m);
            Session(mode, devices, log, Encode(m) + rest)
            == if r.Applied? then Session(mode, r.devices, log + [r.deed], rest)
               else Finished(devices, log, Thrown(r.error))
  {
    PacketRoundTrip(mode, devices, m, rest);
  }

  lemma {:induction false} ApplyFirst(mode: Mode, devices: DeviceMap, log: seq<Deed>, m: Message, ms: seq<Message>)
    ensures var r := Apply(mode, devices, m);
            ApplyAll(mode, devices, log, [m] + ms)
            == if r.Applied? then ApplyAll(mode, r.devices, log + [r.deed], ms)
               else Finished(devices, log, Thrown(r.error))
  {
    assert ([m] + ms)[1..] == ms;
  }

  lemma CutStream(ms: seq<Message>, k: nat)
    requires ms != [] && k <= |EncodeAll(ms)|
    ensures var first := Encode(ms[0]);
            EncodeAll(ms)[..k]
            == if k < |first| then first[..k] else first + EncodeAll(ms[1..])[..k - |first|]
  {}

  // ----- duplicate modes side by side -----

  /** What the two receivers part on: a description of a device already held, without the NUL that
      only the creating reader looks for. */
  predicate Parts(ids: set<u16>, s: seq<byte>) {
    && |s| >= PACKET_SIZE
    && Command(s[..PACKET_SIZE]) == ADD_DEVICE && IdOf(s[..PACKET_SIZE]) in ids
    && NameUnterminated(s[PACKET_SIZE..])
  }

  /** One packet, any bytes: replacing goes on exactly when resuming does and they do not part. */
  lemma PacketAligned(replace: DeviceMap, resume: DeviceMap, s: seq<byte>)
    requires replace.Keys == resume.Keys
    ensures var p := ReadPacket(Replace, replace, s);
            var q := ReadPacket(Resume, resume, s);
            && (p.Continue? <==> q.Continue? && !Parts(resume.Keys, s))
            && (p.Continue? ==> q.rest == p.rest && q.devices.Keys == p.devices.Keys)
            && (p.End? <==> q.End?)
            && (q.Fail? ==> p == q || (p == Fail(NameTooLong) && Parts(resume.Keys, s)))
            && (q.Continue? && Parts(resume.Keys, s) ==> p == Fail(NameTooLong))
  {
    if |s| >= PACKET_SIZE {
      SkipCreateAligned(s[..PACKET_SIZE], s[PACKET_SIZE..]);
      SameRefusal(s[..PACKET_SIZE], s[PACKET_SIZE..]);
    }
  }

  lemma SameRefusal(pkt: seq<byte>, s: seq<byte>)
    requires |pkt| == PACKET_SIZE
    ensures var create := ReadAdd(pkt, s, false);
            var skip := ReadAdd(pkt, s, true);
            create.Refused? && skip.Refused? ==> create == skip || (create.error == NameTooLong && NameUnterminated(s))
  {}

  /** The receivers part on some packet the resuming one gets to and reads on from. */
  predicate PartsAlong(devices: DeviceMap, s: seq<byte>)
    decreases |s|
  {
    var q := ReadPacket(Resume, devices, s);
    q.Continue? && (Parts(devices.Keys, s) || PartsAlong(q.devices, q.rest))
  }

  /** Any bytes: the two read the same number of packets if and only if they never part. Then they
      hold the same ids at the end, and both end alike or both with an error, the replacing one with
      the name error. If they part, that is where the replacing receiver ends. */
  lemma {:induction false} SessionAligned(replace: DeviceMap, resume: DeviceMap, plog: seq<Deed>, qlog: seq<Deed>,
                                          s: seq<byte>)
    requires replace.Keys == resume.Keys && |plog| == |qlog|
    ensures var p := Session(Replace, replace, plog, s);
            var q := Session(Resume, resume, qlog, s);
            && (!PartsAlong(resume, s) <==> |p.log| == |q.log|)
            && (!PartsAlong(resume, s) ==>
                  && p.devices.Keys == q.devices.Keys
                  && (p.ending == q.ending || (p.ending == Thrown(NameTooLong) && q.ending.Thrown?)))
            && (PartsAlong(resume, s) ==> p.ending == Thrown(NameTooLong) && |p.log| < |q.log|)
    decreases |s|
  {
    PacketAligned(replace, resume, s);
    var p, q := ReadPacket(Replace, replace, s), ReadPacket(Resume, resume, s);
    if p.Continue? {
      SessionAligned(p.devices, q.devices, plog + [p.deed], qlog + [q.deed], p.rest);
    } else if q.Continue? {
      LogGrows(Resume, q.devices, qlog + [q.deed], q.rest);
    }
  }

  lemma {:induction false} LogGrows(mode: Mode, devices: DeviceMap, log: seq<Deed>, s: seq<byte>)
    ensures log <= Session(mode, devices, log, s).log
    decreases |s|
  {
    var r := ReadPacket(mode, devices, s);
    if r.Continue? {
      LogGrows(mode, r.devices, log + [r.deed], r.rest);
    }
  }

  /** Any bytes: until the first duplicate, rejecting and resuming are the same receiver. */
  lemma {:induction false} RejectIsResumeWithoutDuplicates(devices: DeviceMap, log: seq<Deed>, s: seq<byte>)
    ensures var p := Session(Reject, devices, log, s);
            var q := Session(Resume, devices, log, s);
            && (p.ending != Thrown(DuplicateDevice) ==> p == q)
            && (p.ending == Thrown(DuplicateDevice) ==> p.log <= q.log)
    decreases |s|
  {
    var p, q := ReadPacket(Reject, devices, s), ReadPacket(Resume, devices, s);
    if p.Continue? {
      RejectIsResumeWithoutDuplicates(p.devices, log + [p.deed], p.rest);
    } else if q.Continue? {
      LogGrows(Resume, q.devices, log + [q.deed], q.rest);
    }
  }

  // ----- reconnecting -----

  /** The burst a restarted sender opens with. */
  function Burst(adds: seq<(u16, Device)>): seq<Message> {
    if adds == [] then [] else [Add(adds[0].0, adds[0].1)] + Burst(adds[1..])
  }

  lemma {:induction false} BurstSkipped(devices: DeviceMap, log: seq<Deed>, adds: seq<(u16, Device)>)
    requires forall i :: 0 <= i < |adds| ==> adds[i].0 in devices
    ensures var r := ApplyAll(Resume, devices, log, Burst(adds));
            r.devices == devices && r.ending == Eof && |r.log| == |log| + |adds|
    decreases |adds|
  {
    if adds != [] {
      assert Burst(adds)[1..] == Burst(adds[1..]);
      BurstSkipped(devices, log + [Skipped(adds[0].0)], adds[1..]);
    }
  }

  /** Resuming with ids already present changes nothing and reads the whole burst; rejecting
      stops at its first device. */
  lemma ReconnectIdempotent(devices: DeviceMap, log: seq<Deed>, adds: seq<(u16, Device)>)
    requires forall i :: 0 <= i < |adds| ==> adds[i].0 in devices
    ensures var bytes := EncodeAll([Hello] + Burst(adds));
            var resumed := Session(Resume, devices, log, bytes);
            var rejected := Session(Reject, devices, log, bytes);
            && resumed.devices == devices && resumed.ending == Eof && |resumed.log| == |log| + 1 + |adds|
            && rejected.devices == devices
            && rejected.log == log + [Greeted]
            && rejected.ending == if adds == [] then Eof else Thrown(DuplicateDevice)
  {
    var ms := [Hello] + Burst(adds);
    assert ms[0] == Hello && ms[1..] == Burst(adds);
    SessionRoundTrip(Resume, devices, log, ms);
    SessionRoundTrip(Reject, devices, log, ms);
    BurstSkipped(devices, log + [Greeted], adds);
  }

  lemma {:induction false} ServeAppend(mode: Mode, devices: DeviceMap, log: seq<Deed>,
                                       before: seq<seq<byte>>, s: seq<byte>)
    ensures var r := Serve(mode, devices, log, before);
            Serve(mode, devices, log, before + [s])
            == if r.ending.Thrown? then r else Session(mode, r.devices, r.log, s)
    decreases |before|
  {
    if before == [] {
      assert (before + [s])[1..] == [];
    } else {
      assert (before + [s])[1..] == before[1..] + [s];
      var r := Session(mode, devices, log, before[0]);
      if r.ending.Eof? {
        ServeAppend(mode, r.devices, r.log, before[1..], s);
      }
    }
  }

  /** The same after any earlier connections that did not fail, whatever bytes they carried. */
  lemma ReconnectAfterAnything(mode: Mode, before: seq<seq<byte>>, adds: seq<(u16, Device)>)
    requires mode != Replace && before != [] && Receive(mode, before).ending == Eof
    requires forall i :: 0 <= i < |adds| ==> adds[i].0 in Receive(mode, before).devices
    ensures var was := Receive(mode, before);
            var r := Receive(mode, before + [EncodeAll([Hello] + Burst(adds))]);
            && r.devices == was.devices
            && (mode == Resume ==> r.ending == Eof && |r.log| == |was.log| + 1 + |adds|)
            && (mode == Reject ==>
                  r.log == was.log + [Greeted] && r.ending == if adds == [] then Eof else Thrown(DuplicateDevice))
  {
    var s := EncodeAll([Hello] + Burst(adds));
    var after := [before[0][PACKET_SIZE..]] + before[1..];
    assert (before + [s])[0] == before[0] && [before[0][PACKET_SIZE..]] + (before + [s])[1..] == after + [s];
    ServeAppend(mode, map[], [], after, s);
    var r := Receive(mode, before);
    ReconnectIdempotent(r.devices, r.log, adds);
  }
}
