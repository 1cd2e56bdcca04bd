/** The receiving side: building a uinput device from either header, read by read. */
module OutDevices {
  import opened Bytes
  import opened BitField
  import opened Streams
  import opened Devices
  import opened AddDevice
  import opened Legacy

  /** A fixed-size field read into a buffer of its own. */
  method ReadField(fd: Stream, n: nat) returns (ok: bool, field: seq<byte>)
    modifies fd
    ensures ok <==> n <= |old(fd.rest)|
    ensures ok ==> field == old(fd.rest)[..n] && fd.rest == old(fd.rest)[n..]
  {
    var buffer := new byte[n];
    ok := fd.MustRead(buffer, n);
    field := buffer[..];
    assert ok ==> field == buffer[..n];
  }

  /** Fills the bytes of a bit array. */
  method ReadBits(fd: Stream, bits: Bits) returns (ok: bool)
    requires bits.Valid() && bits.data.Length == ByteSize(bits.bitcount)
    modifies fd, bits.data
    ensures ok <==> bits.data.Length <= |old(fd.rest)|
    ensures ok ==> bits.data[..] == old(fd.rest)[..bits.data.Length] && fd.rest == old(fd.rest)[bits.data.Length..]
  {
    ok := fd.MustRead(bits.data, bits.ByteCount());
    assert ok ==> bits.data[..] == bits.data[..bits.data.Length];
  }

  /** Slices of what is left after `n` bytes. */
  lemma After<T>(s: seq<T>, n: nat, m: nat)
    requires n + m <= |s|
    ensures s[n..][..m] == s[n..n + m] && s[n..][m..] == s[n + m..]
  {}

  /** The requests for the set types, with force feedback left out. */
  method SetEventBits(evbits: Bits) returns (calls: seq<Call>)
    requires evbits.Valid() && evbits.bitcount == EV_MAX
    ensures calls == EventCalls(evbits.data[..], EV_MAX)
  {
    calls := [];
    for i := 0 to evbits.bitcount
      invariant calls == EventCalls(evbits.data[..], i)
    {
      if evbits.At(i) && i != EV_FF {
        calls := calls + [EventBit(i)];
      }
    }
  }

  /** The requests for the set codes of one type. */
  method SetCodeBits(t: nat, entrybits: Bits, before: seq<Call>) returns (calls: seq<Call>)
    requires entrybits.Valid()
    ensures calls == before + CodeCalls(t, entrybits.data[..], entrybits.bitcount)
  {
    calls := before;
    for i := 0 to entrybits.bitcount
      invariant calls == before + CodeCalls(t, entrybits.data[..], i)
    {
      if entrybits.At(i) {
        calls := calls + [CodeBit(t, i)];
      }
    }
  }

  /** A bit count and as many bits, into a resized array. */
  method ReadCounted(fd: Stream, bits: Bits) returns (ok: bool)
    requires bits.Valid()
    modifies fd, bits
    ensures bits.Valid() && (bits.data == old(bits.data) || fresh(bits.data))
    ensures ok <==> |old(fd.rest)| >= 2 && |old(fd.rest)| - 2 >= ByteSize(FromU16(old(fd.rest)[..2]))
    ensures ok ==> bits.bitcount == FromU16(old(fd.rest)[..2]) && bits.data.Length == ByteSize(bits.bitcount)
    ensures ok ==> bits.data[..] == old(fd.rest)[2..2 + ByteSize(bits.bitcount)]
    ensures ok ==> fd.rest == old(fd.rest)[2 + ByteSize(bits.bitcount)..]
  {
    ghost var s := fd.rest;
    var field;
    ok, field := ReadField(fd, 2);
    if ok {
      var count := FromU16(field);
      bits.Resize(count);
      ok := ReadBits(fd, bits);
      if ok {
        After(s, 2, ByteSize(count));
      }
    }
  }

  method ReadTypeSections(fd: Stream, skip: bool, evbits: Bits, before: seq<Call>) returns (r: Sectioned)
    requires evbits.Valid() && evbits.bitcount == EV_MAX
    modifies fd
    ensures r == ReadSections(skip, evbits.data[..], 0, old(fd.rest), before, NO_BITS)
    ensures r.Sectioned? ==> fd.rest == r.rest
  {
    ghost var bytes := evbits.data[..];
    var entrybits := new Bits.Empty();
    var calls, absbits := before, NO_BITS;
    for t := 0 to evbits.bitcount
      invariant entrybits.Valid() && fresh(entrybits) && fresh(entrybits.data)
      invariant ValidBitmap(absbits) && evbits.data[..] == bytes
      invariant ReadSections(skip, bytes, 0, old(fd.rest), before, NO_BITS)
             == ReadSections(skip, bytes, t, fd.rest, calls, absbits)
    {
      if evbits.At(t) && HasCodes(t) {
        var ok := ReadCounted(fd, entrybits);
        if !ok {
          return NoSections;
        }
        if !skip {
          calls := SetCodeBits(t, entrybits, calls);
        }
        if t == EV_ABS {
          absbits := Bitmap(entrybits.data[..], entrybits.bitcount);
        }
      }
    }
    return Sectioned(calls, absbits, fd.rest);
  }

  method ReadAxisRecords(fd: Stream, skip: bool, absbits: Bitmap, before: seq<Call>) returns (r: Axed)
    requires ValidBitmap(absbits)
    modifies fd
    ensures r == ReadAxes(skip, absbits, 0, old(fd.rest), before)
    ensures r.Axed? ==> fd.rest == r.rest
  {
    var calls := before;
    for i := 0 to absbits.count
      invariant ReadAxes(skip, absbits, 0, old(fd.rest), before) == ReadAxes(skip, absbits, i, fd.rest, calls)
    {
      if BitAt(absbits.bytes, i) {
        var ok, record := ReadField(fd, 24);
        if !ok {
          return NoAxes;
        }
        if !skip {
          calls := calls + [AbsAxis(i, DecodeAxis(record))];
        }
      }
    }
    return Axed(calls, fd.rest);
  }

  /** Creates a device from the stream, or skips over its description. */
  method NewFromNE2AddCommand(fd: Stream, pkt: seq<byte>, skip: bool) returns (r: AddResult)
    requires |pkt| == PACKET_SIZE
    modifies fd
    ensures r == ReadAdd(pkt, old(fd.rest), skip)
    ensures r.Added? ==> fd.rest == r.rest
  {
    if InfoSize(pkt) != USER_DEV_SIZE {
      return Refused(InfoSizeMismatch);
    }
    if NameSize(pkt) != NAME_SIZE {
      return Refused(NameSizeMismatch);
    }
    ghost var s := fd.rest;
    var ok, name := ReadField(fd, NAME_SIZE);
    if !ok {
      return Refused(ReadError);
    }
    var id;
    ok, id := ReadField(fd, 8);
    if !ok {
      return Refused(ReadError);
    }
    After(s, 80, 8);
    if !skip && NameLength(name) >= NAME_SIZE {
      return Refused(NameTooLong);
    }
    var size;
    ok, size := ReadField(fd, 2);
    if !ok {
      return Refused(ReadError);
    }
    After(s, 88, 2);
    if FromU16(size) != EV_MAX {
      return Refused(TypeCountMismatch);
    }
    var evbits := new Bits(EV_MAX);
    ok := ReadBits(fd, evbits);
    if !ok {
      return Refused(ReadError);
    }
    After(s, 90, 4);
    r := ReadRest(fd, skip, name, DecodeId(id), evbits);
  }

  method ReadRest(fd: Stream, skip: bool, name: seq<byte>, id: InputId, evbits: Bits) returns (r: AddResult)
    requires evbits.Valid() && evbits.bitcount == EV_MAX && evbits.data.Length == ByteSize(EV_MAX)
    modifies fd
    ensures r == ReadTail(skip, name, id, evbits.data[..], old(fd.rest))
    ensures r.Added? ==> fd.rest == r.rest
  {
    var calls := [];
    if !skip {
      calls := SetEventBits(evbits);
    }
    var sections := ReadTypeSections(fd, skip, evbits, calls);
    if sections.NoSections? {
      return Refused(ReadError);
    }
    var axes := ReadAxisRecords(fd, skip, sections.abs, sections.calls);
    if axes.NoAxes? {
      return Refused(ReadError);
    }
    var statebits := new Bits(EV_MAX);
    var ok := ReadBits(fd, statebits);
    if !ok {
      return Refused(ReadError);
    }
    r := Added(if skip then None else Some(OutDevice(name[..NameLength(name)], id, axes.calls, [])), fd.rest);
  }

  // ----- netevent 1 -----

  method ReadEntryArrays(fd: Stream, ts: seq<nat>, evbits: Bits, before: seq<Call>) returns (r: Sectioned)
    requires EntryTypes(ts) && EV_ABS in ts && evbits.Valid() && evbits.bitcount == EV_MAX
    modifies fd
    ensures r == ReadEntries(evbits.data[..], ts, old(fd.rest), before, [])
    ensures r.Sectioned? ==> fd.rest == r.rest
  {
    ghost var bytes := evbits.data[..];
    var entrybits := new Bits.Empty();
    var calls, abs: seq<byte> := before, [];
    for k := 0 to |ts|
      invariant entrybits.Valid() && fresh(entrybits) && fresh(entrybits.data) && evbits.data[..] == bytes
      invariant BitAt(bytes, EV_ABS) && EV_ABS !in ts[k..] ==> |abs| == NE1Size(ABS_MAX)
      invariant ReadEntries(bytes, ts, old(fd.rest), before, []) == ReadEntries(bytes, ts[k..], fd.rest, calls, abs)
    {
      var t := ts[k];
      assert ts[k..][1..] == ts[k + 1..];
      if evbits.At(t) {
        entrybits.ResizeNE1Compat(CodeMax(t));
        var ok := ReadBits(fd, entrybits);
        if !ok {
          return NoSections;
        }
        entrybits.ShrinkTo(CodeMax(t));
        calls := SetCodeBits(t, entrybits, calls);
        if t == EV_ABS {
          abs := entrybits.data[..];
        }
      }
    }
    return Sectioned(calls, Bitmap(abs, ABS_MAX), fd.rest);
  }

  method SkipStateArrays(fd: Stream, us: seq<nat>, evbits: Bits) returns (ok: bool)
    requires StateTypes(us) && evbits.Valid() && evbits.bitcount == EV_MAX
    modifies fd
    ensures var after := SkipStates(evbits.data[..], us, old(fd.rest));
            (ok <==> after.Some?) && (ok ==> fd.rest == after.value)
  {
    ghost var bytes := evbits.data[..];
    var entrybits := new Bits.Empty();
    for k := 0 to |us|
      invariant entrybits.Valid() && fresh(entrybits) && fresh(entrybits.data) && evbits.data[..] == bytes
      invariant SkipStates(bytes, us, old(fd.rest)) == SkipStates(bytes, us[k..], fd.rest)
    {
      assert us[k..][1..] == us[k + 1..];
      if evbits.At(us[k]) {
        entrybits.ResizeNE1Compat(CodeMax(us[k]));
        ok := ReadBits(fd, entrybits);
        if !ok {
          return false;
        }
      }
    }
    return true;
  }

  method ReadAxisArray(fd: Stream, abs: seq<byte>, before: seq<Call>) returns (r: Axed)
    requires ABS_MAX <= 8 * |abs|
    modifies fd
    ensures r == ReadAxisDump(abs, 0, old(fd.rest), before)
    ensures r.Axed? ==> fd.rest == r.rest
  {
    var calls := before;
    for i := 0 to ABS_MAX
      invariant ReadAxisDump(abs, 0, old(fd.rest), before) == ReadAxisDump(abs, i, fd.rest, calls)
    {
      var ok, record := ReadField(fd, 24);
      if !ok {
        return NoAxes;
      }
      if BitAt(abs, i) {
        calls := calls + [AbsAxis(i, FromHostAxis(record))];
      }
    }
    return Axed(calls, fd.rest);
  }

  method NewFromNeteventStream(fd: Stream) returns (r: AddResult)
    modifies fd
    ensures r == ReadHeader(old(fd.rest))
    ensures r.Added? ==> fd.rest == r.rest
  {
    var ok, size := ReadField(fd, 2);
    if !ok {
      return Refused(ReadError);
    }
    if FromHostU16(size) != USER_DEV_SIZE {
      return Refused(InfoSizeMismatch);
    }
    r := NewFromNamed(fd);
  }

  method NewFromNamed(fd: Stream) returns (r: AddResult)
    modifies fd
    ensures r == ReadNamed(old(fd.rest))
    ensures r.Added? ==> fd.rest == r.rest
  {
    ghost var s := fd.rest;
    var ok, name := ReadField(fd, NAME_SIZE);
    if !ok {
      return Refused(ReadError);
    }
    var id;
    ok, id := ReadField(fd, 8);
    if !ok {
      return Refused(ReadError);
    }
    After(s, 80, 8);
    if NameLength(name) >= NAME_SIZE {
      return Refused(NameTooLong);
    }
    var evbits := new Bits.Empty();
    evbits.ResizeNE1Compat(EV_MAX);
    ok := ReadBits(fd, evbits);
    if !ok {
      return Refused(ReadError);
    }
    After(s, 88, 4);
    evbits.ShrinkTo(EV_MAX);
    ListsFit();
    r := ReadArraysOf(fd, ENTRIES, STATES, name, FromHostId(id), evbits);
  }

  method ReadArraysOf(fd: Stream, ts: seq<nat>, us: seq<nat>, name: seq<byte>, id: InputId, evbits: Bits)
      returns (r: AddResult)
    requires EntryTypes(ts) && EV_ABS in ts && StateTypes(us)
    requires evbits.Valid() && evbits.bitcount == EV_MAX && evbits.data.Length == NE1Size(EV_MAX)
    modifies fd
    ensures r == ReadArrays(ts, us, name, id, evbits.data[..], old(fd.rest))
    ensures r.Added? ==> fd.rest == r.rest
  {
    var calls := SetEventBits(evbits);
    var entries := ReadEntryArrays(fd, ts, evbits, calls);
    if entries.NoSections? {
      return Refused(ReadError);
    }
    var ok := SkipStateArrays(fd, us, evbits);
    if !ok {
      return Refused(ReadError);
    }
    var axes := Axed(entries.calls, fd.rest);
    if evbits.At(EV_ABS) {
      axes := ReadAxisArray(fd, entries.abs.bytes, entries.calls);
      if axes.NoAxes? {
        return Refused(ReadError);
      }
    }
    r := Added(Some(OutDevice(name[..NameLength(name)], id, axes.calls, [])), fd.rest);
  }
}
