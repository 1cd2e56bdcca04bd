/** Bytes, fixed-width integers and their big-endian wire form. */
module Bytes {

  type byte = x: int | 0 <= x < 0x100
  type u16 = x: int | 0 <= x < 0x1_0000
  type u32 = x: int | 0 <= x < 0x1_0000_0000
  type u64 = x: int | 0 <= x < 0x1_0000_0000_0000_0000
  type i32 = x: int | -0x8000_0000 <= x < 0x8000_0000

  datatype Option<+T> = None | Some(value: T)

  function U16(x: u16): (s: seq<byte>)
    ensures |s| == 2
  {
    [x / 0x100, x % 0x100]
  }

  function FromU16(s: seq<byte>): u16
    requires |s| == 2
  {
    0x100 * (s[0] as int) + s[1]
  }

  function U32(x: u32): (s: seq<byte>)
    ensures |s| == 4
  {
    U16(x / 0x1_0000) + U16(x % 0x1_0000)
  }

  function FromU32(s: seq<byte>): u32
    requires |s| == 4
  {
    0x1_0000 * (FromU16(s[..2]) as int) + FromU16(s[2..])
  }

  function U64(x: u64): (s: seq<byte>)
    ensures |s| == 8
  {
    U32(x / 0x1_0000_0000) + U32(x % 0x1_0000_0000)
  }

  function FromU64(s: seq<byte>): u64
    requires |s| == 8
  {
    0x1_0000_0000 * (FromU32(s[..4]) as int) + FromU32(s[4..])
  }

  /** Two's complement: the remainder is never negative. */
  function I32(x: i32): (s: seq<byte>)
    ensures |s| == 4
  {
    U32(x % 0x1_0000_0000)
  }

  function FromI32(s: seq<byte>): i32
    requires |s| == 4
  {
    var u := FromU32(s);
    if u < 0x8000_0000 then u else u - 0x1_0000_0000
  }

  lemma U16RoundTrip(x: u16)
    ensures FromU16(U16(x)) == x
  {}

  lemma U32RoundTrip(x: u32)
    ensures FromU32(U32(x)) == x
  {
    assert U32(x)[..2] == U16(x / 0x1_0000) && U32(x)[2..] == U16(x % 0x1_0000);
  }

  lemma U64RoundTrip(x: u64)
    ensures FromU64(U64(x)) == x
  {
    assert U64(x)[..4] == U32(x / 0x1_0000_0000) && U64(x)[4..] == U32(x % 0x1_0000_0000);
    U32RoundTrip(x / 0x1_0000_0000);
    U32RoundTrip(x % 0x1_0000_0000);
  }

  lemma I32RoundTrip(x: i32)
    ensures FromI32(I32(x)) == x
  {
    U32RoundTrip(x % 0x1_0000_0000);
  }

  function Zeros(n: nat): (s: seq<byte>)
    ensures |s| == n && forall i :: 0 <= i < n ==> s[i] == 0
  {
    seq(n, i => 0)
  }

  /** Splitting a concatenation where the first part ends. */
  lemma Split<T>(a: seq<T>, b: seq<T>)
    ensures (a + b)[..|a|] == a && (a + b)[|a|..] == b
  {}

  /** The part in the middle of a concatenation. */
  lemma Middle<T>(before: seq<T>, part: seq<T>, after: seq<T>)
    ensures (before + part + after)[|before|..|before| + |part|] == part
  {}

  /** The parts of four. */
  lemma Four<T>(a: seq<T>, b: seq<T>, c: seq<T>, d: seq<T>)
    ensures var s := a + b + c + d;
            var i, j, k := |a|, |a| + |b|, |a| + |b| + |c|;
            s[0..i] == a && s[i..j] == b && s[j..k] == c && s[k..|s|] == d
  {
    var s := a + b + c + d;
    assert s == [] + a + (b + c + d) && s == a + b + (c + d) && s == (a + b + c) + d + [];
    Middle([], a, b + c + d);
    Middle(a, b, c + d);
    Middle(a + b, c, d);
    Middle(a + b + c, d, []);
  }

  /** The parts of six. */
  lemma Six<T>(a: seq<T>, b: seq<T>, c: seq<T>, d: seq<T>, e: seq<T>, f: seq<T>)
    ensures var s := a + b + c + d + e + f;
            var i, j, k := |a|, |a| + |b|, |a| + |b| + |c|;
            var l, m := k + |d|, k + |d| + |e|;
            && s[0..i] == a && s[i..j] == b && s[j..k] == c
            && s[k..l] == d && s[l..m] == e && s[m..|s|] == f
  {
    var s, i := a + b + c + d + e + f, |a| + |b| + |c|;
    Split(a + b + c + d, e + f);
    assert s == (a + b + c + d) + (e + f);
    Four(a, b, c, d);
    Split(e, f);
    var front, l := a + b + c + d, i + |d|;
    assert s[0..|a|] == front[0..|a|] && s[|a|..|a| + |b|] == front[|a|..|a| + |b|];
    assert s[|a| + |b|..i] == front[|a| + |b|..i] && s[i..l] == front[i..l];
    assert s[l..l + |e|] == (e + f)[..|e|] && s[l + |e|..|s|] == (e + f)[|e|..];
  }

  /** What follows a text does not change its parts. */
  lemma Followed<T>(s: seq<T>, more: seq<T>, i: nat, j: nat)
    requires i <= j <= |s|
    ensures (s + more)[i..j] == s[i..j] && (s + more)[..j] == s[..j] && (s + more)[..i] == s[..i]
    ensures (s + more)[j..] == s[j..] + more
  {}

  /** The beginning of a concatenation, cut in its second part. */
  lemma CutSecond<T>(a: seq<T>, b: seq<T>, k: nat)
    requires |a| <= k <= |a| + |b|
    ensures (a + b)[..k][..|a|] == a && (a + b)[..k][|a|..] == b[..k - |a|]
  {}

  lemma Regroup<T>(a: seq<T>, b: seq<T>, c: seq<T>, d: seq<T>)
    ensures a + b + c + d == a + (b + (c + d))
    ensures a + b + c == a + (b + c)
  {}

  lemma Renest<T>(a: seq<T>, b: seq<T>, c: seq<T>, d: seq<T>, e: seq<T>)
    ensures a + (b + (c + d)) + e == a + (b + (c + (d + e)))
  {}

  ghost predicate Climbs(p: nat -> bool, n: nat)
    requires n > 0
  {
    p(n - 1) ==> p(n)
  }

  /** Induction from one number to another. */
  lemma {:induction false} Climb(p: nat -> bool, from: nat, end: nat)
    requires from <= end && p(from) && forall n: nat :: from < n <= end ==> Climbs(p, n)
    ensures p(end)
    decreases end
  {
    if from < end {
      Climb(p, from, end - 1);
      assert Climbs(p, end);
    }
  }
}
