/** The sending side: an opened event device, its name buffer and the two header writers. */
module InDevices {
  import opened Bytes
  import opened BitField
  import opened Devices
  import opened AddDevice
  import opened Legacy

  class InDevice {
    const id: InputId
    var name: array<byte>
    const realName: seq<byte>
    const evbits: Bits
    // What the kernel answers when asked for the bitmaps and the axes.
    const codes: seq<seq<byte>>
    const axes: seq<Axis>

    ghost predicate Valid()
      reads this, name, evbits, evbits.data
    {
      && name != evbits.data
      && evbits.bitcount == EV_MAX && evbits.data.Length == ByteSize(EV_MAX)
      && Shape(Describe())
    }

    ghost function Describe(): Description
      reads this, name, evbits, evbits.data
    {
      Description(name[..], id, evbits.data[..], codes, axes)
    }

    constructor (d: Device)
      ensures Valid() && fresh(name) && fresh(evbits) && fresh(evbits.data)
      ensures Describe() == d && realName == d.name[..NameLength(d.name)]
    {
      var bits := new Bits(EV_MAX);
      var buffer := new byte[NAME_SIZE](i requires 0 <= i < NAME_SIZE => d.name[i]);
      forall i | 0 <= i < bits.data.Length {
        bits.data[i] := d.evbits[i];
      }
      id, codes, axes := d.id, d.codes, d.axes;
      name, realName, evbits := buffer, d.name[..NameLength(d.name)], bits;
      new;
      assert name[..] == d.name && evbits.data[..] == d.evbits;
    }

    /** Overwrites the whole buffer, or refuses a name that would fill it. */
    method SetName(n: seq<byte>) returns (ok: bool)
      requires Valid()
      modifies name
      ensures Valid()
      ensures ok <==> Renamed(old(Describe()), n).Some?
      ensures Describe() == if ok then Renamed(old(Describe()), n).value else old(Describe())
    {
      if |n| >= NAME_SIZE {
        return false;
      }
      forall i | 0 <= i < |n| {
        name[i] := n[i];
      }
      forall i | |n| <= i < NAME_SIZE {
        name[i] := 0;
      }
      assert name[..] == n + Zeros(NAME_SIZE - |n|);
      return true;
    }

    method ResetName() returns (ok: bool)
      requires Valid()
      modifies name
      ensures Valid()
      ensures ok <==> |realName| < NAME_SIZE
      ensures ok ==> Describe() == Renamed(old(Describe()), realName).value
      ensures !ok ==> Describe() == old(Describe())
    {
      ok := SetName(realName);
    }

    method WriteNE2AddDevice(number: u16) returns (out: seq<byte>)
      requires Valid()
      ensures out == AddPacket(number) + Body(Describe())
    {
      ghost var d: Device := Describe();
      var head := name[..] + EncodeId(id) + U16(evbits.bitcount) + evbits.data[..];
      var sections, absbits := WriteSections(head, d);
      var axes := WriteAxes(sections, absbits);
      var statebits := new Bits(evbits.bitcount);
      Regroup(head, Sections(d, 0), AxisRecords(AbsBits(d).bytes, d.axes, 0, AbsBits(d).count), statebits.data[..]);
      out := AddPacket(number) + (axes + statebits.data[..]);
    }

    /** Asks for the bitmap of a type inside a larger buffer, whose count is changed for it. */
    method QueryCodes(t: nat, entrybits: Bits)
      requires Valid() && t < EV_MAX && HasCodes(t)
      requires entrybits.data.Length == ByteSize(0xffff) && entrybits.data != name && entrybits != evbits
      requires entrybits.data != evbits.data
      modifies entrybits`bitcount, entrybits.data
      ensures entrybits.Valid() && entrybits.bitcount == CodeCount(t)
      ensures entrybits.data[..ByteSize(CodeCount(t))] == codes[t]
    {
      entrybits.SetBitCount(CodeCount(t));
      var size := ByteSize(CodeCount(t));
      forall i | 0 <= i < size {
        entrybits.data[i] := codes[t][i];
      }
    }

    /** One bit count and bitmap for every type that has codes; remembers the one of the axes. */
    method WriteSections(before: seq<byte>, ghost d: Device) returns (out: seq<byte>, absbits: Bits)
      requires Valid() && d == Describe()
      ensures out == before + Sections(d, 0)
      ensures absbits.Valid() && absbits.bitcount == AbsBits(d).count
      ensures absbits.bitcount > 0 ==> absbits.data[..] == AbsBits(d).bytes
    {
      out := before;
      var entrybits := new Bits(0xffff);
      absbits := new Bits.Empty();
      for t := 0 to evbits.bitcount
        invariant fresh(entrybits) && fresh(entrybits.data) && entrybits.data.Length == ByteSize(0xffff)
        invariant absbits.Valid() && fresh(absbits) && absbits.data != entrybits.data
        invariant absbits.bitcount == if t > EV_ABS then AbsBits(d).count else 0
        invariant absbits.bitcount > 0 ==> absbits.data[..] == AbsBits(d).bytes
        invariant out + Sections(d, t) == before + Sections(d, 0)
      {
        if evbits.At(t) && HasCodes(t) {
          QueryCodes(t, entrybits);
          var section := U16(entrybits.bitcount) + entrybits.data[..entrybits.ByteCount()];
          Regroup(out, section, Sections(d, t + 1), []);
          out := out + section;
          if t == EV_ABS {
            absbits := entrybits.Dup();
          }
        }
      }
    }

    /** One record for every set axis bit, in order. */
    method WriteAxes(before: seq<byte>, absbits: Bits) returns (out: seq<byte>)
      requires absbits.Valid() && absbits.bitcount <= |axes|
      ensures out == before + AxisRecords(absbits.data[..], axes, 0, absbits.bitcount)
    {
      ghost var bits, n := absbits.data[..], absbits.bitcount;
      out := before;
      for i := 0 to absbits.bitcount
        invariant out + AxisRecords(bits, axes, i, n) == before + AxisRecords(bits, axes, 0, n)
      {
        ghost var later := AxisRecords(bits, axes, i + 1, n);
        if absbits.At(i) {
          Regroup(out, EncodeAxis(axes[i]), later, []);
          out := out + EncodeAxis(axes[i]);
        } else {
          assert [] + later == later;
        }
      }
    }

    /** Queries and writes the code arrays, then the state arrays, then every axis. */
    method WriteNeteventHeader(states: map<nat, seq<byte>>) returns (out: seq<byte>)
      requires Valid() && StateShape(states)
      ensures out == Header(Describe(), states)
    {
      ghost var d: Device := Describe();
      ListsFit();
      out := WriteHeader(ENTRIES, STATES, states, d);
    }

    method WriteHeader(ts: seq<nat>, us: seq<nat>, states: map<nat, seq<byte>>, ghost d: Device)
        returns (out: seq<byte>)
      requires Valid() && d == Describe() && EntryTypes(ts) && StateTypes(us) && StateShape(states)
      ensures out == HeaderFor(ts, us, d, states)
    {
      var head := HostU16(USER_DEV_SIZE) + name[..] + HostId(id) + evbits.data[..];
      out := WriteEntryArrays(head, ts, d);
      out := WriteStateArrays(out, us, states, d);
      if evbits.At(EV_ABS) {
        out := WriteAxisDump(out, d);
      }
      Regroup(head, Entries(d, ts), StateDump(d, states, us), AnyAxisDump(d));
    }

    method WriteAxisDump(before: seq<byte>, ghost d: Device) returns (out: seq<byte>)
      requires Valid() && d == Describe()
      ensures out == before + AxisDump(d, 0)
    {
      out := before;
      for i := 0 to ABS_MAX
        invariant out + AxisDump(d, i) == before + AxisDump(d, 0)
      {
        assert out + (HostAxis(axes[i]) + AxisDump(d, i + 1)) == out + HostAxis(axes[i]) + AxisDump(d, i + 1);
        out := out + HostAxis(axes[i]);
      }
    }

    /** Resizes the array for the greatest code of a type and has the kernel fill it. */
    static method QueryArray(max: nat, answer: seq<byte>, entrybits: Bits)
      requires entrybits.Valid() && NE1Size(max) <= |answer|
      modifies entrybits
      ensures entrybits.Valid() && fresh(entrybits.data)
      ensures entrybits.data[..] == answer[..NE1Size(max)]
    {
      entrybits.ResizeNE1Compat(max);
      forall i | 0 <= i < entrybits.data.Length {
        entrybits.data[i] := answer[i];
      }
    }

    method WriteEntryArrays(before: seq<byte>, ts: seq<nat>, ghost d: Device) returns (out: seq<byte>)
      requires Valid() && d == Describe() && EntryTypes(ts)
      ensures out == before + Entries(d, ts)
    {
      var entrybits := new Bits.Empty();
      out := before;
      for k := 0 to |ts|
        invariant entrybits.Valid() && fresh(entrybits) && fresh(entrybits.data)
        invariant out + Entries(d, ts[k..]) == before + Entries(d, ts)
      {
        var t := ts[k];
        assert ts[k..][1..] == ts[k + 1..];
        if evbits.At(t) {
          QueryArray(CodeMax(t), codes[t], entrybits);
          Regroup(out, EntryBytes(d, t), Entries(d, ts[k + 1..]), []);
          out := out + entrybits.data[..];
        } else {
          assert Entries(d, ts[k..]) == Entries(d, ts[k + 1..]);
        }
      }
    }

    method WriteStateArrays(before: seq<byte>, us: seq<nat>, states: map<nat, seq<byte>>, ghost d: Device)
        returns (out: seq<byte>)
      requires Valid() && d == Describe() && StateTypes(us) && StateShape(states)
      ensures out == before + StateDump(d, states, us)
    {
      var entrybits := new Bits.Empty();
      out := before;
      for k := 0 to |us|
        invariant entrybits.Valid() && fresh(entrybits) && fresh(entrybits.data)
        invariant out + StateDump(d, states, us[k..]) == before + StateDump(d, states, us)
      {
        var t := us[k];
        assert us[k..][1..] == us[k + 1..];
        if evbits.At(t) {
          QueryArray(CodeMax(t), states[t], entrybits);
          Regroup(out, states[t], StateDump(d, states, us[k + 1..]), []);
          out := out + entrybits.data[..];
        } else {
          assert StateDump(d, states, us[k..]) == StateDump(d, states, us[k + 1..]);
        }
      }
    }
  }
}
