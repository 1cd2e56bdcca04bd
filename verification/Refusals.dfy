/** What a receiver makes of bytes the daemon does not send: every check, with its numbers. */
module Refusals {
  import opened Bytes
  import opened BitField
  import opened Devices
  import opened AddDevice
  import opened Protocol
  import opened Legacy
  import opened Receiver
  import opened Wire

  // ----- packets -----

  lemma TwoBytes(s: seq<byte>)
    requires |s| == 2
    ensures FromU16(s) == Big(s) && FromHostU16(s) == Little(s)
  {
    BigTwo(s);
    LittleTwo(s);
    assert Swapped(s)[0] == s[1] && Swapped(s)[1] == s[0];
  }

  /** Less than a packet ends the session quietly; a packet with another command than the five ends it
      with an error, and so does a removal or an event for an id that is not held. */
  lemma PacketAnswered(mode: Mode, devices: DeviceMap, s: seq<byte>)
    ensures var r := ReadPacket(mode, devices, s);
            if |s| < 28 then r == End
            else
              var command, id := Big(s[0..2]), Big(s[2..4]);
              && (command > 4 ==> r == Fail(UnknownPacket))
              && (command == 0 ==> r == Continue(devices, KeptAlive, s[28..]))
              && (command == 2 ==> r == if id in devices then Continue(devices - {id}, Removed(id), s[28..])
                                        else Fail(MissingDevice))
              && (command == 3 && id !in devices ==> r == Fail(MissingDevice))
  {
    if |s| >= 28 {
      var pkt := s[..28];
      assert pkt[0..2] == s[0..2] && pkt[2..4] == s[2..4];
      TwoBytes(s[0..2]);
      TwoBytes(s[2..4]);
    }
  }

  /** An event is handed to its device as the fields say; events of type 21, force feedback, are not. */
  lemma EventAnswered(mode: Mode, devices: DeviceMap, s: seq<byte>)
    requires |s| >= 28 && Big(s[0..2]) == 3 && Big(s[2..4]) in devices
    ensures var id := Big(s[2..4]);
            exists e: InputEvent :: DecodeEvent(s[4..28]) == e
              && ReadPacket(mode, devices, s)
                 == Continue(devices[id := if e.kind == 21 then devices[id]
                                           else devices[id].(written := devices[id].written + [e])],
                             Wrote(id, e), s[28..])
  {
    var pkt := s[..28];
    assert pkt[0..2] == s[0..2] && pkt[2..4] == s[2..4] && pkt[4..] == s[4..28];
    TwoBytes(s[0..2]);
    TwoBytes(s[2..4]);
    var e := DecodeEvent(s[4..28]);
    assert DecodeEvent(s[4..28]) == e;
  }

  /** A hello packet is looked at for its command, then for its magic, then for its version. */
  lemma HelloAnswered(pkt: seq<byte>)
    requires |pkt| == 28
    ensures HelloError(pkt)
            == if Big(pkt[0..2]) != 4 then Some(NotHello)
               else if exists i :: 0 <= i < 8 && pkt[4 + i] != "NE2Hello"[i] as int then Some(BadMagic)
               else if Big(pkt[2..4]) != 2 then Some(VersionMismatch)
               else None
  {
    TwoBytes(pkt[0..2]);
    TwoBytes(pkt[2..4]);
    MagicIsText();
    assert forall i :: 0 <= i < 8 ==> pkt[4..12][i] == pkt[4 + i];
  }

  lemma MagicIsText()
    ensures |MAGIC| == 8 && forall i :: 0 <= i < 8 ==> MAGIC[i] == "NE2Hello"[i] as int
  {}

  /** A new receiver needs a whole hello packet first, and takes the rest of that connection, and the
      connections after it, with nothing held. */
  lemma FirstAnswered(mode: Mode, connections: seq<seq<byte>>)
    requires connections != []
    ensures var first, r := connections[0], Receive(mode, connections);
            if |first| < 28 then r == Finished(map[], [], Thrown(ReadError))
            else
              var error := HelloError(first[..28]);
              if error.Some? then r == Finished(map[], [], Thrown(error.value))
              else r == Serve(mode, map[], [], [first[28..]] + connections[1..])
  {}

  /** A device that is held already: an error, nothing at all, or another device in its place. */
  lemma DuplicateAnswered(mode: Mode, devices: DeviceMap, id: u16, d: Device)
    requires id in devices
    ensures Apply(mode, devices, Add(id, d))
            == match mode
               case Reject => Rejected(DuplicateDevice)
               case Resume => Applied(devices, Skipped(id))
               case Replace => if Terminated(d) then Applied(devices[id := Mirror(d)], Created(id, Mirror(d)))
                               else Rejected(NameTooLong)
  {}

  // ----- descriptions -----

  lemma NoNul(name: seq<byte>)
    ensures NameLength(name) == |name| <==> 0 !in name
  {}

  /** The checks before the sections, in their order. */
  lemma HeadAnswered(pkt: seq<byte>, s: seq<byte>, skip: bool)
    requires |pkt| == 28
    ensures var r := ReadAdd(pkt, s, skip);
            if Big(pkt[4..6]) != 1116 then r == Refused(InfoSizeMismatch)
            else if Big(pkt[6..8]) != 80 then r == Refused(NameSizeMismatch)
            else if |s| < 88 then r == Refused(ReadError)
            else if !skip && 0 !in s[..80] then r == Refused(NameTooLong)
            else if |s| < 90 then r == Refused(ReadError)
            else if Big(s[88..90]) != 31 then r == Refused(TypeCountMismatch)
            else |s| < 94 ==> r == Refused(ReadError)
  {
    TwoBytes(pkt[4..6]);
    TwoBytes(pkt[6..8]);
    if |s| >= 88 {
      NoNul(s[..80]);
    }
    if |s| >= 90 {
      TwoBytes(s[88..90]);
    }
  }

  /** A name up to its first NUL. */
  ghost predicate NamedBy(name: seq<byte>, buffer: seq<byte>) {
    |name| < |buffer| && name == buffer[..|name|] && 0 !in name && buffer[|name|] == 0
  }

  lemma CutName(buffer: seq<byte>)
    requires 0 in buffer
    ensures NamedBy(buffer[..NameLength(buffer)], buffer)
  {
    NoNul(buffer);
  }

  lemma EightSlices(s: seq<byte>, i: nat)
    requires i + 8 <= |s|
    ensures var t := s[i..i + 8];
            && t[0..2] == s[i..i + 2] && t[2..4] == s[i + 2..i + 4]
            && t[4..6] == s[i + 4..i + 6] && t[6..8] == s[i + 6..i + 8]
  {
    var t := s[i..i + 8];
    assert forall k :: 0 <= k < 8 ==> t[k] == s[i + k];
  }

  /** A device that is created is called what stands before the first NUL of the name, has the four
      numbers of the id, and was handed nothing yet. */
  lemma DeviceAnswered(pkt: seq<byte>, s: seq<byte>)
    requires |pkt| == 28 && ReadAdd(pkt, s, false).Added?
    ensures var d := ReadAdd(pkt, s, false).device.value;
            && |s| >= 94 && NamedBy(d.name, s[..80]) && d.written == []
            && d.id.bustype == Big(s[80..82]) && d.id.vendor == Big(s[82..84])
            && d.id.product == Big(s[84..86]) && d.id.version == Big(s[86..88])
  {
    HeadAnswered(pkt, s, false);
    CutName(s[..80]);
    EightSlices(s, 80);
    TwoBytes(s[80..82]);
    TwoBytes(s[82..84]);
    TwoBytes(s[84..86]);
    TwoBytes(s[86..88]);
  }

  /** A type has a section if its digit is set and it is one of eight. */
  ghost predicate HasSection(evbits: seq<byte>, t: nat)
    requires t < 8 * |evbits|
  {
    evbits[t / 8] / Pow2(t % 8) % 2 == 1 && t in {1, 2, 3, 4, 5, 17, 18, 21}
  }

  /** Any number of bits is taken, with as many bytes as it asks for; if there are less the description
      is refused. */
  lemma SectionAnswered(skip: bool, evbits: seq<byte>, t: nat, s: seq<byte>, calls: seq<Call>, abs: Bitmap)
    requires t < EV_MAX <= 8 * |evbits| && ValidBitmap(abs)
    ensures var r := ReadSections(skip, evbits, t, s, calls, abs);
            if !HasSection(evbits, t) then r == ReadSections(skip, evbits, t + 1, s, calls, abs)
            else if |s| < 2 || |s| - 2 < (Big(s[0..2]) + 7) / 8 then r.NoSections?
            else
              var count := Big(s[0..2]);
              var bits, rest := s[2..2 + (count + 7) / 8], s[2 + (count + 7) / 8..];
              r == ReadSections(skip, evbits, t + 1, rest, if skip then calls else calls + CodeCalls(t, bits, count),
                                if t == 3 then Bitmap(bits, count) else abs)
  {
    SentIsDigit(evbits, t);
    if |s| >= 2 {
      TwoBytes(s[0..2]);
    }
  }

  /** The codes of a section are those of its set bits. */
  lemma AxisAnswered(skip: bool, abs: Bitmap, i: nat, s: seq<byte>, calls: seq<Call>)
    requires ValidBitmap(abs) && i < abs.count
    ensures var r := ReadAxes(skip, abs, i, s, calls);
            if abs.bytes[i / 8] / Pow2(i % 8) % 2 != 1 then r == ReadAxes(skip, abs, i + 1, s, calls)
            else if |s| < 24 then r.NoAxes?
            else
              exists a: Axis :: AxisAt(s, a)
                && r == ReadAxes(skip, abs, i + 1, s[24..], if skip then calls else calls + [AbsAxis(i, a)])
  {
    BitIsDigit(abs.bytes[i / 8], i % 8);
    if |s| >= 24 {
      var a := DecodeAxis(s[..24]);
      FourBytes(s[0..4]);
      FourBytes(s[4..8]);
      FourBytes(s[8..12]);
      FourBytes(s[12..16]);
      FourBytes(s[16..20]);
      FourBytes(s[20..24]);
      SameSlices(s);
      assert AxisAt(s, a);
    }
  }

  lemma SameSlices(s: seq<byte>)
    requires |s| >= 24
    ensures var t := s[..24];
            && t[0..4] == s[0..4] && t[4..8] == s[4..8] && t[8..12] == s[8..12]
            && t[12..16] == s[12..16] && t[16..20] == s[16..20] && t[20..24] == s[20..24]
  {}

  /** The six numbers of an axis, in their order. */
  ghost predicate AxisAt(s: seq<byte>, a: Axis)
    requires |s| >= 24
  {
    && a.value == Signed(Big(s[0..4])) && a.minimum == Signed(Big(s[4..8])) && a.maximum == Signed(Big(s[8..12]))
    && a.fuzz == Signed(Big(s[12..16])) && a.flat == Signed(Big(s[16..20])) && a.resolution == Signed(Big(s[20..24]))
  }

  lemma FourBytes(s: seq<byte>)
    requires |s| == 4
    ensures FromI32(s) == Signed(Big(s))
  {
    BigFour(s);
    TwoBytes(s[..2]);
    TwoBytes(s[2..]);
  }

  // ----- the netevent 1 header -----

  /** The checks before the arrays, in their order. */
  lemma HeaderAnswered(s: seq<byte>)
    ensures var r := ReadHeader(s);
            if |s| < 2 then r == Refused(ReadError)
            else if Little(s[0..2]) != 1116 then r == Refused(InfoSizeMismatch)
            else if |s| < 90 then r == Refused(ReadError)
            else if 0 !in s[2..82] then r == Refused(NameTooLong)
            else |s| < 94 ==> r == Refused(ReadError)
  {
    if |s| >= 2 {
      TwoBytes(s[0..2]);
    }
    if |s| >= 90 {
      assert s[2..][..80] == s[2..82];
      NoNul(s[2..82]);
    }
  }

  /** The device is called what stands before the first NUL, and has the four numbers in host order. */
  lemma HeaderDeviceAnswered(s: seq<byte>)
    requires ReadHeader(s).Added?
    ensures ReadHeader(s).device.Some? && |s| >= 94
    ensures var d := ReadHeader(s).device.value;
            && NamedBy(d.name, s[2..82]) && d.written == []
            && d.id.bustype == Little(s[82..84]) && d.id.vendor == Little(s[84..86])
            && d.id.product == Little(s[86..88]) && d.id.version == Little(s[88..90])
  {
    HeaderAnswered(s);
    NamedAnswered(s[2..]);
    assert s[2..][..80] == s[2..82] && s[2..][80..88] == s[82..90];
    EightSlices(s, 82);
    EightSlices(s[2..], 80);
  }

  lemma NamedAnswered(s: seq<byte>)
    requires ReadNamed(s).Added?
    ensures ReadNamed(s).device.Some? && |s| >= 92
    ensures var d := ReadNamed(s).device.value;
            && NamedBy(d.name, s[..80]) && d.written == []
            && d.id.bustype == Little(s[80..82]) && d.id.vendor == Little(s[82..84])
            && d.id.product == Little(s[84..86]) && d.id.version == Little(s[86..88])
  {
    NoNul(s[..80]);
    CutName(s[..80]);
    EightSlices(s, 80);
    TwoBytes(s[80..82]);
    TwoBytes(s[82..84]);
    TwoBytes(s[84..86]);
    TwoBytes(s[86..88]);
  }
}
