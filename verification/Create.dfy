/** The packet loop as it runs: one packet buffer, one device map, updated in place. */
module Create {
  import opened Bytes
  import opened Streams
  import opened AddDevice
  import opened OutDevices
  import opened Protocol
  import opened Receiver

  /** Reads one connection to its end or to the first protocol error. */
  method RunSession(mode: Mode, fd: Stream, devices0: DeviceMap, log0: seq<Deed>) returns (r: Finished)
    modifies fd
    ensures r == Session(mode, devices0, log0, old(fd.rest))
  {
    var devices, log := devices0, log0;
    var buffer := new byte[PACKET_SIZE];
    while true
      invariant Session(mode, devices0, log0, old(fd.rest)) == Session(mode, devices, log, fd.rest)
      decreases |fd.rest|
    {
      ghost var s := fd.rest;
      var ok := fd.MustRead(buffer, PACKET_SIZE);
      if !ok {
        return Finished(devices, log, Eof);
      }
      var pkt := buffer[..];
      assert pkt == s[..PACKET_SIZE];
      var command := Command(pkt);
      if command == HELLO {
        var error := HelloError(pkt);
        if error.Some? {
          return Finished(devices, log, Thrown(error.value));
        }
        log := log + [Greeted];
      } else if command == KEEP_ALIVE {
        log := log + [KeptAlive];
      } else if command == ADD_DEVICE {
        var id := IdOf(pkt);
        var known := id in devices;
        if mode == Reject && known {
          return Finished(devices, log, Thrown(DuplicateDevice));
        }
        var added := NewFromNE2AddCommand(fd, pkt, mode == Resume && known);
        if added.Refused? {
          return Finished(devices, log, Thrown(added.error));
        }
        if added.device.Some? {
          devices := devices[id := added.device.value];
          log := log + [Created(id, added.device.value)];
        } else {
          log := log + [Skipped(id)];
        }
      } else if command == REMOVE_DEVICE {
        var id := IdOf(pkt);
        if id !in devices {
          return Finished(devices, log, Thrown(MissingDevice));
        }
        devices := devices - {id};
        log := log + [Removed(id)];
      } else if command == DEVICE_EVENT {
        var id := IdOf(pkt);
        if id !in devices {
          return Finished(devices, log, Thrown(MissingDevice));
        }
        var event := DecodeEvent(pkt[4..]);
        devices := devices[id := Write(devices[id], event)];
        log := log + [Wrote(id, event)];
      } else {
        return Finished(devices, log, Thrown(UnknownPacket));
      }
    }
  }

  /** The first packet must be a hello of this version. */
  method ReadHello(fd: Stream) returns (error: Option<Error>)
    modifies fd
    ensures var s := old(fd.rest);
            && error == (if |s| < PACKET_SIZE then Some(ReadError) else HelloError(s[..PACKET_SIZE]))
            && (error.None? ==> fd.rest == s[PACKET_SIZE..])
  {
    var buffer := new byte[PACKET_SIZE];
    ghost var s := fd.rest;
    var ok := fd.MustRead(buffer, PACKET_SIZE);
    if !ok {
      return Some(ReadError);
    }
    assert buffer[..] == s[..PACKET_SIZE];
    return HelloError(buffer[..]);
  }

  ghost function Pending(connections: seq<Stream>): seq<seq<byte>>
    reads connections
  {
    seq(|connections|, i requires 0 <= i < |connections| reads connections => connections[i].rest)
  }

  /** Serves the connections in the order they are accepted; devices outlive each of them. */
  method RunCreate(mode: Mode, connections: seq<Stream>) returns (r: Finished)
    requires connections != [] && forall i, j :: 0 <= i < j < |connections| ==> connections[i] != connections[j]
    modifies connections
    ensures r == Receive(mode, old(Pending(connections)))
  {
    ghost var all := Pending(connections);
    var error := ReadHello(connections[0]);
    if error.Some? {
      return Finished(map[], [], Thrown(error.value));
    }
    var devices: DeviceMap, log: seq<Deed> := map[], [];
    ghost var left := [all[0][PACKET_SIZE..]] + all[1..];
    assert left == left[0..];
    for k := 0 to |connections|
      invariant forall i :: k <= i < |connections| ==> connections[i].rest == left[i]
      invariant Receive(mode, all) == Serve(mode, devices, log, left[k..])
    {
      assert left[k..][0] == left[k] && left[k..][1..] == left[k + 1..];
      r := RunSession(mode, connections[k], devices, log);
      if r.ending.Thrown? {
        return r;
      }
      devices, log := r.devices, r.log;
    }
    return Finished(devices, log, Eof);
  }
}
