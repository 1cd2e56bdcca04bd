/** The packed bit array: arithmetic of single bits, and the class that stores them. */
module BitField {
  import opened Bytes

  /** Bit `k` of a number. */
  function BitOf(x: nat, k: nat): bool {
    if k == 0 then x % 2 == 1 else BitOf(x / 2, k - 1)
  }

  /** `1 << k` */
  function Pow2(k: nat): (r: nat)
    ensures r > 0
  {
    if k == 0 then 1 else 2 * Pow2(k - 1)
  }

  /** `x | y` */
  function Or(x: nat, y: nat): nat
    decreases x
  {
    if x == 0 then y
    else 2 * Or(x / 2, y / 2) + (if x % 2 == 1 || y % 2 == 1 then 1 else 0)
  }

  /** `x & ~y` */
  function AndNot(x: nat, y: nat): nat
    decreases x
  {
    if x == 0 then 0
    else 2 * AndNot(x / 2, y / 2) + (if x % 2 == 1 && y % 2 == 0 then 1 else 0)
  }

  lemma {:induction false} ZeroHasNoBit(k: nat)
    ensures !BitOf(0, k)
  {
    if k > 0 {
      ZeroHasNoBit(k - 1);
    }
  }

  lemma {:induction false} OrBit(x: nat, y: nat, k: nat)
    ensures BitOf(Or(x, y), k) == (BitOf(x, k) || BitOf(y, k))
  {
    if x == 0 {
      ZeroHasNoBit(k);
    } else if k > 0 {
      OrBit(x / 2, y / 2, k - 1);
    }
  }

  lemma {:induction false} AndNotBit(x: nat, y: nat, k: nat)
    ensures BitOf(AndNot(x, y), k) == (BitOf(x, k) && !BitOf(y, k))
  {
    if x == 0 {
      ZeroHasNoBit(k);
    } else if k > 0 {
      AndNotBit(x / 2, y / 2, k - 1);
    }
  }

  lemma {:induction false} Pow2Bit(k: nat, j: nat)
    ensures BitOf(Pow2(k), j) == (j == k)
  {
    if k == 0 && j > 0 {
      ZeroHasNoBit(j - 1);
    } else if k > 0 && j > 0 {
      Pow2Bit(k - 1, j - 1);
    }
  }

  lemma {:induction false} OrBound(x: nat, y: nat, n: nat)
    requires x < Pow2(n) && y < Pow2(n)
    ensures Or(x, y) < Pow2(n)
  {
    if x != 0 && n > 0 {
      OrBound(x / 2, y / 2, n - 1);
    }
  }

  lemma {:induction false} AndNotBound(x: nat, y: nat)
    ensures AndNot(x, y) <= x
  {
    if x != 0 {
      AndNotBound(x / 2, y / 2);
    }
  }

  lemma {:induction false} Pow2Mono(j: nat, k: nat)
    requires j <= k
    ensures Pow2(j) <= Pow2(k)
  {
    if j < k {
      Pow2Mono(j, k - 1);
    }
  }

  lemma MaskIsByte(k: nat)
    requires k < 8
    ensures Pow2(k) < 0x100 == Pow2(8)
  {
    Pow2Mono(k, 7);
    assert Pow2(8) == 2 * Pow2(7) == 4 * Pow2(6) == 8 * Pow2(5) == 16 * Pow2(4) == 32 * Pow2(3);
  }

  // ----- bits and values -----

  /** What the lowest `n` bits of a number are worth. */
  function Low(x: nat, n: nat): nat {
    if n == 0 then 0 else x % 2 + 2 * Low(x / 2, n - 1)
  }

  /** What bit `k` of a number is worth. */
  function Worth(on: bool, k: nat): nat {
    if on then Pow2(k) else 0
  }

  lemma {:induction false} LowStep(x: nat, n: nat)
    ensures Low(x, n + 1) == Low(x, n) + Worth(BitOf(x, n), n)
  {
    if n > 0 {
      LowStep(x / 2, n - 1);
    }
  }

  lemma {:induction false} LowAll(x: nat, n: nat)
    requires x < Pow2(n)
    ensures Low(x, n) == x
  {
    if n > 0 {
      LowAll(x / 2, n - 1);
    }
  }

  lemma HalfDivides(x: nat, m: nat)
    requires m > 0
    ensures x / (2 * m) == x / 2 / m
  {
    var q, r := x / 2 / m, x / 2 % m;
    assert x / 2 == m * q + r;
    assert x == 2 * m * q + (2 * r + x % 2) && 2 * r + x % 2 < 2 * m;
    DivUnique(x, 2 * m, q, 2 * r + x % 2);
  }

  lemma DivUnique(x: nat, d: nat, q: nat, r: nat)
    requires r < d && x == d * q + r
    ensures x / d == q
  {
    var q', r' := x / d, x % d;
    assert x == d * q' + r';
    assert q' < q ==> d * (q' + 1) <= d * q;
    assert q < q' ==> d * (q + 1) <= d * q';
  }

  /** Bit `k` is the binary digit that counts `1 << k`. */
  lemma {:induction false} BitIsDigit(x: nat, k: nat)
    ensures BitOf(x, k) <==> x / Pow2(k) % 2 == 1
  {
    if k > 0 {
      BitIsDigit(x / 2, k - 1);
      HalfDivides(x, Pow2(k - 1));
    }
  }

  lemma {:induction false} OrValue(x: nat, k: nat)
    ensures Or(x, Pow2(k)) == x + Pow2(k) - Worth(BitOf(x, k), k)
  {
    if x == 0 {
      ZeroHasNoBit(k);
    } else if k > 0 {
      OrValue(x / 2, k - 1);
    } else {
      OrNone(x / 2);
    }
  }

  lemma {:induction false} OrNone(x: nat)
    ensures Or(x, 0) == x
  {
    if x != 0 {
      OrNone(x / 2);
    }
  }

  lemma {:induction false} AndNotValue(x: nat, k: nat)
    ensures AndNot(x, Pow2(k)) == x - Worth(BitOf(x, k), k)
  {
    if x == 0 {
      ZeroHasNoBit(k);
    } else if k > 0 {
      AndNotValue(x / 2, k - 1);
    } else {
      AndNotNone(x / 2);
    }
  }

  lemma {:induction false} AndNotNone(x: nat)
    ensures AndNot(x, 0) == x
  {
    if x != 0 {
      AndNotNone(x / 2);
    }
  }

  /** One byte with bit `k` switched, as the bit accessor does it. */
  function Switch(b: byte, k: nat, on: bool): (r: byte)
    requires k < 8
    ensures forall j: nat :: BitOf(r, j) == if j == k then on else BitOf(b, j)
    ensures r == b + Worth(on, k) - Worth(BitOf(b, k), k)
  {
    MaskIsByte(k);
    OrValue(b, k);
    AndNotValue(b, k);
    OrBound(b, Pow2(k), 8);
    AndNotBound(b, Pow2(k));
    var r := if on then Or(b, Pow2(k)) else AndNot(b, Pow2(k));
    assert forall j: nat :: BitOf(r, j) == if j == k then on else BitOf(b, j) by {
      forall j: nat
        ensures BitOf(r, j) == if j == k then on else BitOf(b, j)
      {
        Pow2Bit(k, j);
        OrBit(b, Pow2(k), j);
        AndNotBit(b, Pow2(k), j);
      }
    }
    r
  }

  function ByteSize(bitcount: nat): nat {
    (bitcount + 7) / 8
  }

  /** netevent 1 sized every array as one byte more than the whole bytes below the maximum. */
  function NE1Size(bitcount: nat): nat {
    1 + bitcount / 8
  }

  /** The two sizes agree exactly for counts that do not fill their last byte. */
  lemma NE1SizeAgrees(n: nat)
    ensures ByteSize(n) == NE1Size(n) <==> n % 8 != 0
    ensures ByteSize(8 * NE1Size(n)) == NE1Size(n)
  {}

  function BitAt(bytes: seq<byte>, i: nat): bool
    requires i < 8 * |bytes|
  {
    BitOf(bytes[i / 8], i % 8)
  }

  /** The list of booleans a packed array stands for. */
  function Unpack(bytes: seq<byte>, n: nat): (r: seq<bool>)
    requires n <= 8 * |bytes|
    ensures |r| == n && forall i :: 0 <= i < n ==> r[i] == BitAt(bytes, i)
  {
    seq(n, i requires 0 <= i < n => BitAt(bytes, i))
  }

  /** The indices iteration reports as set, in the order it visits them. */
  function SetIndices(bytes: seq<byte>, n: nat): seq<nat>
    requires n <= 8 * |bytes|
  {
    if n == 0 then []
    else SetIndices(bytes, n - 1) + (if BitAt(bytes, n - 1) then [n - 1] else [])
  }

  lemma {:induction false} SetIndicesExact(bytes: seq<byte>, n: nat)
    requires n <= 8 * |bytes|
    ensures forall i: nat :: i in SetIndices(bytes, n) <==> i < n && BitAt(bytes, i)
    ensures forall i, j :: 0 <= i < j < |SetIndices(bytes, n)| ==> SetIndices(bytes, n)[i] < SetIndices(bytes, n)[j]
  {
    if n > 0 {
      SetIndicesExact(bytes, n - 1);
      var before := SetIndices(bytes, n - 1);
      assert forall k :: 0 <= k < |before| ==> before[k] in before;
    }
  }

  // ----- a packed array as numbers -----

  /** Each byte is the sum of what its eight booleans are worth, the first of them counting one. */
  lemma ByteIsSum(bytes: seq<byte>, i: nat)
    requires i < |bytes|
    ensures var bools := Unpack(bytes, 8 * |bytes|)[8 * i..8 * i + 8];
            bytes[i] == (if bools[0] then 1 else 0) + (if bools[1] then 2 else 0) + (if bools[2] then 4 else 0)
                        + (if bools[3] then 8 else 0) + (if bools[4] then 16 else 0) + (if bools[5] then 32 else 0)
                        + (if bools[6] then 64 else 0) + (if bools[7] then 128 else 0)
  {
    var bools := Unpack(bytes, 8 * |bytes|)[8 * i..8 * i + 8];
    forall k: nat | k < 8
      ensures bools[k] == BitOf(bytes[i], k)
    {
      assert bools[k] == Unpack(bytes, 8 * |bytes|)[8 * i + k];
      assert (8 * i + k) / 8 == i && (8 * i + k) % 8 == k;
    }
    EightBits(bytes[i]);
  }

  lemma EightBits(b: byte)
    ensures b == Worth(BitOf(b, 0), 0) + Worth(BitOf(b, 1), 1) + Worth(BitOf(b, 2), 2) + Worth(BitOf(b, 3), 3)
                 + Worth(BitOf(b, 4), 4) + Worth(BitOf(b, 5), 5) + Worth(BitOf(b, 6), 6) + Worth(BitOf(b, 7), 7)
    ensures Pow2(0) == 1 && Pow2(1) == 2 && Pow2(2) == 4 && Pow2(3) == 8
    ensures Pow2(4) == 16 && Pow2(5) == 32 && Pow2(6) == 64 && Pow2(7) == 128
  {
    MaskIsByte(7);
    LowAll(b, 8);
    LowStep(b, 0);
    LowStep(b, 1);
    LowStep(b, 2);
    LowStep(b, 3);
    LowStep(b, 4);
    LowStep(b, 5);
    LowStep(b, 6);
    LowStep(b, 7);
    assert Low(b, 0) == 0;
    assert Pow2(1) == 2 * Pow2(0) && Pow2(2) == 2 * Pow2(1) && Pow2(3) == 2 * Pow2(2) && Pow2(4) == 2 * Pow2(3);
    assert Pow2(5) == 2 * Pow2(4) && Pow2(6) == 2 * Pow2(5) && Pow2(7) == 2 * Pow2(6);
  }

  /** What the indices that lie in byte `i` are worth there. */
  function WorthIn(indices: seq<nat>, i: nat): nat {
    if indices == [] then 0
    else
      var last := indices[|indices| - 1];
      WorthIn(indices[..|indices| - 1], i) + Worth(last / 8 == i, last % 8)
  }

  /** The reported indices of a byte are worth exactly that byte. */
  lemma IndicesAreBytes(bytes: seq<byte>, n: nat, i: nat)
    requires 8 * i + 8 <= n <= 8 * |bytes|
    ensures WorthIn(SetIndices(bytes, n), i) == bytes[i]
  {
    WorthSoFar(bytes, n, i);
    MaskIsByte(7);
    LowAll(bytes[i], 8);
  }

  lemma {:induction false} WorthSoFar(bytes: seq<byte>, n: nat, i: nat)
    requires n <= 8 * |bytes| && i < |bytes|
    ensures WorthIn(SetIndices(bytes, n), i)
            == if n <= 8 * i then 0 else if n <= 8 * i + 8 then Low(bytes[i], n - 8 * i) else Low(bytes[i], 8)
  {
    if n > 0 {
      WorthSoFar(bytes, n - 1, i);
      LastIndex(bytes, n, i);
      if 8 * i < n <= 8 * i + 8 {
        assert (n - 1) / 8 == i && (n - 1) % 8 == n - 1 - 8 * i;
        LowStep(bytes[i], n - 1 - 8 * i);
      }
    }
  }

  lemma LastIndex(bytes: seq<byte>, n: nat, i: nat)
    requires 0 < n <= 8 * |bytes|
    ensures WorthIn(SetIndices(bytes, n), i)
            == WorthIn(SetIndices(bytes, n - 1), i) + Worth(BitAt(bytes, n - 1) && (n - 1) / 8 == i, (n - 1) % 8)
  {
    var before := SetIndices(bytes, n - 1);
    assert (before + [n - 1])[..|before|] == before;
    assert before + [] == before;
  }

  class Bits {
    var bitcount: nat
    var data: array<byte>

    /** The count may be smaller than what is allocated, never larger. */
    ghost predicate Valid()
      reads this
    {
      ByteSize(bitcount) <= data.Length
    }

    ghost function Bools(): seq<bool>
      requires Valid()
      reads this, data
    {
      Unpack(data[..], bitcount)
    }

    constructor Empty()
      ensures Valid() && fresh(data) && bitcount == 0
    {
      bitcount := 0;
      data := new byte[0];
    }

    constructor (size: nat)
      ensures Valid() && fresh(data) && bitcount == size && data[..] == Zeros(ByteSize(size))
    {
      bitcount := size;
      data := new byte[ByteSize(size)](i => 0);
    }

    function ByteCount(): nat
      reads this
    {
      ByteSize(bitcount)
    }

    function At(i: nat): bool
      requires Valid() && i < bitcount
      reads this, data
    {
      BitAt(data[..], i)
    }

    /** Changes the named bit of the whole allocation and no other. */
    method Put(i: nat, on: bool)
      requires Valid() && i < bitcount
      modifies data
      ensures Bools() == old(Bools())[i := on]
      ensures Unpack(data[..], 8 * data.Length) == old(Unpack(data[..], 8 * data.Length))[i := on]
      ensures forall j :: 0 <= j < data.Length && j != i / 8 ==> data[j] == old(data[j])
      ensures data[i / 8] == old(data[i / 8]) + (if on then Pow2(i % 8) else 0)
                             - (if old(Bools())[i] then Pow2(i % 8) else 0)
    {
      data[i / 8] := Switch(data[i / 8], i % 8, on);
      forall j | 0 <= j < 8 * data.Length
        ensures BitAt(data[..], j) == if j == i then on else old(BitAt(data[..], j))
      {
        if j / 8 == i / 8 && j % 8 == i % 8 {
          assert j == i;
        }
      }
    }

    /** Keeps the common bytes and zeroes the added whole ones. */
    method Resize(n: nat)
      requires Valid()
      modifies this
      ensures Valid() && fresh(data) && bitcount == n
      ensures data[..] == if ByteSize(n) <= ByteSize(old(bitcount))
                          then old(data[..ByteSize(n)])
                          else old(data[..ByteSize(bitcount)]) + Zeros(ByteSize(n) - ByteSize(old(bitcount)))
    {
      var old_size, new_size := ByteSize(bitcount), ByteSize(n);
      var keep := if new_size <= old_size then new_size else old_size;
      var fresh_data := new byte[new_size](i => 0);
      forall i | 0 <= i < keep {
        fresh_data[i] := data[i];
      }
      bitcount, data := n, fresh_data;
    }

    /** The same for the netevent 1 size, which fills its bytes exactly. */
    method ResizeNE1Compat(n: nat)
      requires Valid()
      modifies this
      ensures Valid() && fresh(data) && bitcount == 8 * NE1Size(n) && data.Length == NE1Size(n)
      ensures data[..] == if NE1Size(n) <= ByteSize(old(bitcount))
                          then old(data[..NE1Size(n)])
                          else old(data[..ByteSize(bitcount)]) + Zeros(NE1Size(n) - ByteSize(old(bitcount)))
    {
      Resize(8 * (1 + n / 8));
    }

    /** Only ever lowers the count; the bits stay where they are. */
    method ShrinkTo(n: nat)
      requires Valid()
      modifies this`bitcount
      ensures Valid() && bitcount <= n && bitcount <= old(bitcount)
      ensures Bools() == old(Bools())[..bitcount] && (n <= old(bitcount) ==> bitcount == n)
    {
      if n < bitcount {
        bitcount := n;
      }
    }

    /** A temporary change of the count inside the allocation. */
    method SetBitCount(n: nat)
      requires ByteSize(n) <= data.Length
      modifies this`bitcount
      ensures Valid() && Bools() == Unpack(data[..], n)
    {
      bitcount := n;
    }

    method Dup() returns (d: Bits)
      requires Valid()
      ensures fresh(d) && d.Valid() && fresh(d.data) && d.bitcount == bitcount
      ensures d.data[..] == data[..ByteSize(bitcount)] && d.Bools() == Bools()
    {
      d := new Bits(bitcount);
      var n := ByteSize(bitcount);
      forall i | 0 <= i < n {
        d.data[i] := data[i];
      }
      assert d.data[..] == data[..n];
    }

    /** Walks from `begin` to `end` and collects the indices that read as set. */
    method Iterate() returns (r: seq<nat>)
      requires Valid()
      ensures r == SetIndices(data[..], bitcount)
      ensures forall i :: 0 <= i && 8 * i + 8 <= bitcount ==> WorthIn(r, i) == data[i]
    {
      r := [];
      for i := 0 to bitcount
        invariant r == SetIndices(data[..], i)
      {
        if At(i) {
          r := r + [i];
        }
      }
      forall i | 0 <= i && 8 * i + 8 <= bitcount
        ensures WorthIn(r, i) == data[i]
      {
        IndicesAreBytes(data[..], bitcount, i);
      }
    }
  }

  /** Growing keeps every old boolean of the kept bytes and adds false after the old byte end. */
  lemma ResizedBools(bytes: seq<byte>, n: nat, m: nat)
    requires ByteSize(n) == |bytes| <= ByteSize(m)
    ensures forall i :: 0 <= i < m ==> BitAt(bytes + Zeros(ByteSize(m) - |bytes|), i)
                                       == (i < 8 * |bytes| && BitAt(bytes, i))
  {
    forall i | 0 <= i < m
      ensures BitAt(bytes + Zeros(ByteSize(m) - |bytes|), i) == (i < 8 * |bytes| && BitAt(bytes, i))
    {
      ZeroHasNoBit(i % 8);
    }
  }
}
