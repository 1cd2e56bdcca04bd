/** Numerals, event names, and the hotkey definitions written with them. */
module Numbers {
  import opened Bytes
  import opened Devices
  import opened Tokenizer

  const SIZE_MAX := 0xffff_ffff_ffff_ffff

  // ----- numerals, read from a pointer into a terminated text -----

  function DigitValue(base: nat, c: char): Option<nat> {
    if '0' <= c <= '9' && c as int - '0' as int < base then Some(c as int - '0' as int)
    else if base == 16 && 'a' <= c <= 'f' then Some(c as int - 'a' as int + 10)
    else if base == 16 && 'A' <= c <= 'F' then Some(c as int - 'A' as int + 10)
    else None
  }

  function Shifted(base: nat, acc: nat, digit: nat): nat {
    base * acc + digit
  }

  function Digits(base: nat, s: string, maxlen: nat, acc: nat): Option<nat>
    decreases |s|
  {
    if Ended(s) || maxlen == 0 then Some(acc)
    else
      var d := DigitValue(base, s[0]);
      if d.None? then None else Digits(base, s[1..], maxlen - 1, Shifted(base, acc, d.value))
  }

  /** `0x` is hexadecimal, another leading zero octal, the rest decimal. */
  function ParseMagnitude(s: string, maxlen: nat): Option<nat> {
    if At(s, 0) == '0' && maxlen > 1 && At(s, 1) == 'x' then Digits(16, s[2..], maxlen - 2, 0)
    else if At(s, 0) == '0' && maxlen > 1 then Digits(8, s[1..], maxlen - 1, 0)
    else Digits(10, s, maxlen, 0)
  }

  function SkipBlanks(s: string, maxlen: nat): (r: (string, nat))
    ensures |r.0| <= |s| && r.1 <= maxlen
    decreases |s|
  {
    if maxlen > 0 && (At(s, 0) == ' ' || At(s, 0) == '\t') then SkipBlanks(s[1..], maxlen - 1) else (s, maxlen)
  }

  function ParseInteger(s: string, maxlen: nat, signed: bool): Option<int> {
    if maxlen == 0 || Ended(s) then None
    else
      var (t, left) := SkipBlanks(s, maxlen);
      var sign := At(t, 0) == '+' || (signed && At(t, 0) == '-');
      // the unsigned length wraps when the blanks used it up
      var u, m := if sign then t[1..] else t, if !sign then left else if left == 0 then SIZE_MAX else left - 1;
      if m == 0 || !('0' <= At(u, 0) <= '9') then None
      else
        var r := ParseMagnitude(u, m);
        if r.None? then None else Some(if sign && t[0] == '-' then -(r.value as int) else r.value)
  }

  lemma DigitsStep(base: nat, s: string, p: nat, maxlen: nat, acc: nat)
    requires p < |s| && s[p] != NUL && maxlen > 0
    ensures Digits(base, s[p..], maxlen, acc)
            == var d := DigitValue(base, s[p]);
               if d.None? then None else Digits(base, s[p + 1..], maxlen - 1, Shifted(base, acc, d.value))
  {
    assert s[p..][1..] == s[p + 1..];
  }

  lemma DigitsEnd(base: nat, s: string, p: nat, maxlen: nat, acc: nat)
    requires p <= |s| && (At(s, p) == NUL || maxlen == 0)
    ensures Digits(base, s[p..], maxlen, acc) == Some(acc)
  {}

  /** The three digit loops, advancing the pointer and counting the length down. */
  method ParseDigits(base: nat, s: string, at: nat, maxlen: nat) returns (r: Option<nat>)
    requires at <= |s|
    ensures r == Digits(base, s[at..], maxlen, 0)
  {
    var out: nat, p, left := 0, at, maxlen;
    while At(s, p) != NUL && left > 0
      invariant at <= p <= |s| && 0 <= left
      invariant Digits(base, s[at..], maxlen, 0) == Digits(base, s[p..], left, out)
      decreases |s| - p
    {
      DigitsStep(base, s, p, left, out);
      var d := DigitValue(base, s[p]);
      if d.None? {
        return None;
      }
      out, p, left := Shifted(base, out, d.value), p + 1, left - 1;
    }
    DigitsEnd(base, s, p, left, out);
    return Some(out);
  }

  method SkipBlanksIn(s: string, maxlen: nat) returns (p: nat, left: nat)
    ensures p <= |s| && SkipBlanks(s, maxlen) == (s[p..], left)
  {
    p, left := 0, maxlen;
    assert s == s[0..];
    while left > 0 && (At(s, p) == ' ' || At(s, p) == '\t')
      invariant p <= |s|
      invariant SkipBlanks(s, maxlen) == SkipBlanks(s[p..], left)
      decreases |s| - p
    {
      assert s[p..][1..] == s[p + 1..];
      p, left := p + 1, left - 1;
    }
  }

  method ParseLong(s: string, maxlen: nat, signed: bool) returns (r: Option<int>)
    ensures r == ParseInteger(s, maxlen, signed)
  {
    if maxlen == 0 || At(s, 0) == NUL {
      return None;
    }
    var p, left := SkipBlanksIn(s, maxlen);
    var negative := false;
    ghost var t := s[p..];
    if At(s, p) == '+' || (signed && At(s, p) == '-') {
      negative := At(s, p) == '-';
      p, left := p + 1, if left == 0 then SIZE_MAX else left - 1;
      assert t[1..] == s[p..];
    }
    if left == 0 || !('0' <= At(s, p) <= '9') {
      return None;
    }
    var magnitude := ParseMagnitudeAt(s, p, left);
    if magnitude.None? {
      return None;
    }
    return Some(if negative then -(magnitude.value as int) else magnitude.value);
  }

  method ParseMagnitudeAt(s: string, p: nat, maxlen: nat) returns (r: Option<nat>)
    requires p < |s|
    ensures r == ParseMagnitude(s[p..], maxlen)
  {
    if At(s, p) == '0' && maxlen > 1 && At(s, p + 1) == 'x' {
      assert s[p..][2..] == s[p + 2..];
      r := ParseDigits(16, s, p + 2, maxlen - 2);
    } else if At(s, p) == '0' && maxlen > 1 {
      assert s[p..][1..] == s[p + 1..];
      r := ParseDigits(8, s, p + 1, maxlen - 1);
    } else {
      r := ParseDigits(10, s, p, maxlen);
    }
  }

  // ----- printing numerals -----

  function DigitChar(d: nat, upper: bool): (c: char)
    requires d < 16
  {
    if d < 10 then '0' + d as char
    else if upper then 'A' + (d - 10) as char
    else 'a' + (d - 10) as char
  }

  lemma DigitRoundTrip(base: nat, d: nat, upper: bool)
    requires d < base <= 16 && (base == 16 || d < 10)
    ensures DigitValue(base, DigitChar(d, upper)) == Some(d) && DigitChar(d, upper) != NUL
    ensures d < 10 ==> '0' <= DigitChar(d, upper) <= '9'
    ensures DigitChar(d, upper) == '0' <==> d == 0
    ensures DigitChar(d, upper) != 'x' && DigitChar(d, upper) != ':'
  {}

  function Numeral(base: nat, n: nat, upper: bool): (s: string)
    requires 2 <= base <= 16
    ensures |s| > 0
  {
    if n < base then [DigitChar(n, upper)] else Numeral(base, n / base, upper) + [DigitChar(n % base, upper)]
  }

  predicate Base(base: nat) {
    base == 8 || base == 10 || base == 16
  }

  lemma {:induction false} NumeralFirst(base: nat, n: nat, upper: bool)
    requires Base(base)
    ensures Numeral(base, n, upper)[0] == '0' <==> n == 0
    ensures base <= 10 ==> '0' <= Numeral(base, n, upper)[0] <= '9'
    ensures ':' !in Numeral(base, n, upper)
  {
    if n < base {
      DigitRoundTrip(base, n, upper);
    } else {
      NumeralFirst(base, n / base, upper);
      DigitRoundTrip(base, n % base, upper);
    }
  }

  lemma DigitStep(base: nat, c: char, s: string, maxlen: nat, acc: nat)
    requires c != NUL && maxlen > 0
    ensures Digits(base, [c] + s, maxlen, acc)
            == var d := DigitValue(base, c);
               if d.None? then None else Digits(base, s, maxlen - 1, Shifted(base, acc, d.value))
  {
    assert ([c] + s)[1..] == s;
  }

  lemma DivMod(base: nat, n: nat)
    requires Base(base)
    ensures n / base <= n && base * (n / base) + n % base == n && n % base < base
  {}

  /** A numeral in any of the three bases is read back as its value, up to the length or the end. */
  lemma LastDigit(base: nat, n: nat, upper: bool, rest: string, maxlen: nat)
    requires Base(base) && maxlen > 0
    ensures n % base < base && n / base >= 0
    ensures Digits(base, [DigitChar(n % base, upper)] + rest, maxlen, n / base) == Digits(base, rest, maxlen - 1, n)
  {
    DivMod(base, n);
    DigitRoundTrip(base, n % base, upper);
    DigitStep(base, DigitChar(n % base, upper), rest, maxlen, n / base);
  }

  lemma {:induction false} NumeralDigits(base: nat, n: nat, upper: bool, rest: string, maxlen: nat)
    requires Base(base) && |Numeral(base, n, upper)| <= maxlen
    ensures Digits(base, Numeral(base, n, upper) + rest, maxlen, 0)
            == Digits(base, rest, maxlen - |Numeral(base, n, upper)|, n)
    decreases n
  {
    if n < base {
      DigitRoundTrip(base, n, upper);
      DigitStep(base, DigitChar(n, upper), rest, maxlen, 0);
      assert base * 0 + n == n;
    } else {
      DivMod(base, n);
      var front, last := Numeral(base, n / base, upper), DigitChar(n % base, upper);
      Regroup(front, [last], rest, []);
      NumeralDigits(base, n / base, upper, [last] + rest, maxlen);
      LastDigit(base, n, upper, rest, maxlen - |front|);
    }
  }

  /** A whole numeral, stopped by the length or the end of the text. */
  lemma WholeNumeral(base: nat, n: nat, upper: bool, rest: string, maxlen: nat)
    requires Base(base)
    requires var size := |Numeral(base, n, upper)|; maxlen == size || (Ended(rest) && maxlen > size)
    ensures Digits(base, Numeral(base, n, upper) + rest, maxlen, 0) == Some(n)
  {
    NumeralDigits(base, n, upper, rest, maxlen);
  }

  lemma OctalMagnitude(base: nat, digits: string, maxlen: nat)
    requires base == 8 && digits != "" && digits[0] != 'x' && maxlen > 1
    ensures ParseMagnitude("0" + digits, maxlen) == Digits(base, digits, maxlen - 1, 0)
  {
    var s := "0" + digits;
    assert s[0] == '0' && s[1] == digits[0] && s[1..] == digits;
  }

  lemma HexMagnitude(base: nat, digits: string, maxlen: nat)
    requires base == 16 && maxlen > 1
    ensures ParseMagnitude("0x" + digits, maxlen) == Digits(base, digits, maxlen - 2, 0)
  {
    var s := "0x" + digits;
    assert s[0] == '0' && s[1] == 'x' && s[2..] == digits;
  }

  lemma OctalNumeral(base: nat, n: nat, upper: bool, rest: string, maxlen: nat)
    requires base == 8
    requires var size := 1 + |Numeral(base, n, upper)|; maxlen == size || (Ended(rest) && maxlen > size)
    ensures ParseMagnitude("0" + (Numeral(base, n, upper) + rest), maxlen) == Some(n)
  {
    NumeralFirst(base, n, upper);
    OctalMagnitude(base, Numeral(base, n, upper) + rest, maxlen);
    WholeNumeral(base, n, upper, rest, maxlen - 1);
  }

  /** Octal numerals are read as their value, up to the given length or the end of the text. */
  lemma OctalRoundTrip(n: nat, rest: string, maxlen: nat)
    requires var size := 1 + |Numeral(8, n, false)|; maxlen == size || (Ended(rest) && maxlen > size)
    ensures ParseMagnitude("0" + (Numeral(8, n, false) + rest), maxlen) == Some(n)
  {
    OctalNumeral(8, n, false, rest, maxlen);
  }

  lemma HexNumeral(base: nat, n: nat, upper: bool, rest: string, maxlen: nat)
    requires base == 16
    requires var size := 2 + |Numeral(base, n, upper)|; maxlen == size || (Ended(rest) && maxlen > size)
    ensures ParseMagnitude("0x" + (Numeral(base, n, upper) + rest), maxlen) == Some(n)
  {
    HexMagnitude(base, Numeral(base, n, upper) + rest, maxlen);
    WholeNumeral(base, n, upper, rest, maxlen - 2);
  }

  /** Hexadecimal numerals in either case are read as their value, up to the given length or the
      end of the text. */
  lemma HexRoundTrip(n: nat, upper: bool, rest: string, maxlen: nat)
    requires var size := 2 + |Numeral(16, n, upper)|; maxlen == size || (Ended(rest) && maxlen > size)
    ensures ParseMagnitude("0x" + (Numeral(16, n, upper) + rest), maxlen) == Some(n)
  {
    HexNumeral(16, n, upper, rest, maxlen);
  }

  /** Decimal numerals are read as their value, up to the given length or the end of the text. */
  lemma DecimalRoundTrip(n: nat, upper: bool, rest: string, maxlen: nat)
    requires maxlen == |Numeral(10, n, upper)| || (Ended(rest) && maxlen > |Numeral(10, n, upper)|)
    ensures ParseMagnitude(Numeral(10, n, upper) + rest, maxlen) == Some(n)
  {
    var s := Numeral(10, n, upper) + rest;
    NumeralFirst(10, n, upper);
    WholeNumeral(10, n, upper, rest, maxlen);
    if n == 0 && maxlen > 1 {
      assert s == "0" + rest && s[1..] == rest;
    }
  }

  // ----- event names -----

  function Lower(c: char): char {
    if 'A' <= c <= 'Z' then c + ' ' else c
  }

  /** `strncasecmp` says equal: up to `n` characters, or up to both terminators. */
  predicate SameUpTo(a: string, b: string, n: nat)
    decreases n
  {
    n == 0
    || (Lower(At(a, 0)) == Lower(At(b, 0))
        && (At(a, 0) == NUL || SameUpTo(a[1..], if b == "" then "" else b[1..], n - 1)))
  }

  /** The name table, in its order. */
  const EV_NAMES: seq<(nat, string)> := [
    (0x00, "SYN"), (0x01, "KEY"), (0x02, "REL"), (0x03, "ABS"), (0x04, "MSC"), (0x05, "SW "),
    (0x11, "LED"), (0x12, "SND"), (0x14, "REP"), (0x15, "FF"), (0x16, "PWR"), (0x17, "FF_STATUS")]

  /** The table is indexed by position, not searched by number. */
  function EV2String(kind: nat): string {
    if kind < |EV_NAMES| then EV_NAMES[kind].1 else "<Unknown>"
  }

  function FindName(names: seq<(nat, string)>, s: string, length: nat): Option<nat> {
    if names == [] then None
    else if SameUpTo(s, names[0].1, length) then Some(names[0].0)
    else FindName(names[1..], s, length)
  }

  /** A type given by name or by number, for a table of names. */
  function String2EV(names: seq<(nat, string)>, s: string, length: nat): Option<nat> {
    var prefixed := length > 3 && |s| >= 3 && SameUpTo(s, "EV_", 3);
    var t, n := if prefixed then s[3..] else s, if prefixed then length - 3 else length;
    var named := FindName(names, t, n);
    if named.Some? then named
    else
      var number := ParseInteger(t, n, false);
      if number.None? || number.value % 0x1_0000_0000 == 0xffff_ffff then None
      else Some(number.value % 0x1_0000_0000)
  }

  // ----- hotkey definitions -----

  datatype HotkeySpec = HotkeySpec(kind: u16, code: u16, value: i32)

  /** The index of the first `c` at or after `from`, or the length. */
  function Find(s: string, c: char, from: nat): (i: nat)
    requires from <= |s|
    ensures from <= i <= |s| && (i < |s| ==> s[i] == c)
    ensures forall j :: from <= j < i ==> s[j] != c
    decreases |s| - from
  {
    if from == |s| || s[from] == c then from else Find(s, c, from + 1)
  }

  /** The cast of a `long` to 32 bits. */
  function ToI32(x: int): i32 {
    var u := x % 0x1_0000_0000;
    if u < 0x8000_0000 then u else u - 0x1_0000_0000
  }

  /** The three fields, each checked in turn. */
  function SpecOf(kind: Option<nat>, code: Option<int>, value: Option<int>): Option<HotkeySpec> {
    if kind.None? || kind.value > EV_MAX then None
    else if code.None? || code.value < 0 || code.value > 0xffff then None
    else if value.None? then None
    else Some(HotkeySpec(kind.value, code.value, ToI32(value.value)))
  }

  /** TYPE:CODE:VALUE, with every error check of the command. */
  function ParseSpecIn(names: seq<(nat, string)>, def: string): Option<HotkeySpec> {
    var dot1 := Find(def, ':', 0);
    if dot1 + 1 >= |def| then None
    else
      var dot2 := Find(def, ':', dot1 + 1);
      if dot2 + 1 >= |def| then None
      else
        SpecBetween(names, def, dot1, dot2)
  }

  function SpecBetween(names: seq<(nat, string)>, def: string, dot1: nat, dot2: nat): Option<HotkeySpec>
    requires dot1 < dot2 < |def|
  {
    SpecOf(String2EV(names, def, dot1), ParseInteger(def[dot1 + 1..], dot2 - dot1 - 1, false),
           ParseInteger(def[dot2 + 1..], SIZE_MAX, true))
  }

  function ParseSpec(def: string): Option<HotkeySpec> {
    ParseSpecIn(EV_NAMES, def)
  }

  function Decimal(x: int): string {
    if x < 0 then "-" + Numeral(10, -x, false) else Numeral(10, x, false)
  }

  /** What `show` prints for an event. */
  function Show(kind: u16, code: u16, value: i32): string {
    EV2String(kind) + ":" + Decimal(code) + ":" + Decimal(value)
  }

  lemma NumeralLength(n: nat)
    requires n < 0x1_0000_0000
    ensures |Numeral(10, n, false)| <= 10
  {
    assert Ten(10) == 10 * Ten(9) == 100 * Ten(8) == 1000 * Ten(7) == 10000 * Ten(6) == 100000 * Ten(5);
    assert Ten(5) == 10 * Ten(4) == 100 * Ten(3) == 1000 * Ten(2) == 10000 * Ten(1) == 100000 * Ten(0);
    ShortNumeral(n, 10);
  }

  function Ten(k: nat): nat {
    if k == 0 then 1 else 10 * Ten(k - 1)
  }

  lemma {:induction false} ShortNumeral(n: nat, k: nat)
    requires k > 0 && n < Ten(k)
    ensures |Numeral(10, n, false)| <= k
    decreases k
  {
    if n >= 10 {
      assert k > 1 by {
        assert Ten(1) == 10 * Ten(0) == 10;
      }
      ShortNumeral(n / 10, k - 1);
    }
  }

  /** The first `c` after `before`, when it ends a part that has none. */
  lemma FindAfter(before: string, part: string, c: char, after: string)
    requires c !in part
    ensures Find(before + part + [c] + after, c, |before|) == |before| + |part|
  {
    var s := before + part + [c] + after;
    assert forall j :: |before| <= j < |before| + |part| ==> s[j] == part[j - |before|];
    FindAt(s, c, |before|, |before| + |part|);
  }

  lemma {:induction false} FindAt(s: string, c: char, from: nat, i: nat)
    requires from <= i < |s| && s[i] == c && forall j :: from <= j < i ==> s[j] != c
    ensures Find(s, c, from) == i
    decreases i - from
  {
    if from < i {
      FindAt(s, c, from + 1, i);
    }
  }

  /** The three fields of a printed event sit between its colons. */
  lemma ShowSplits(name: string, code: string, value: string)
    requires ':' !in name && ':' !in code && value != ""
    ensures var def := name + ":" + code + ":" + value;
            var dot1 := |name|;
            var dot2 := dot1 + 1 + |code|;
            && Find(def, ':', 0) == dot1 && Find(def, ':', dot1 + 1) == dot2 && dot2 + 1 < |def|
            && def[dot1 + 1..] == code + (":" + value) && def[dot2 + 1..] == value
  {
    var def := name + ":" + code + ":" + value;
    assert def == "" + name + ":" + (code + (":" + value));
    FindAfter("", name, ':', code + (":" + value));
    FindAfter(name + ":", code, ':', value);
    Split(name + ":", code + (":" + value));
    assert def == (name + ":") + (code + (":" + value)) == (name + ":" + code + ":") + value;
    Split(name + ":" + code + ":", value);
  }

  lemma CodeRoundTrip(code: u16, rest: string)
    ensures ParseInteger(Decimal(code) + rest, |Decimal(code)|, false) == Some(code)
  {
    NumeralFirst(10, code, false);
    DecimalRoundTrip(code, false, rest, |Decimal(code)|);
  }

  lemma UnsignedParses(digits: string, maxlen: nat, n: nat)
    requires digits != "" && '0' <= digits[0] <= '9' && maxlen > 0 && ParseMagnitude(digits, maxlen) == Some(n)
    ensures ParseInteger(digits, maxlen, true) == Some(n)
  {}

  lemma NegativeParses(digits: string, maxlen: nat, n: nat)
    requires digits != "" && '0' <= digits[0] <= '9' && maxlen > 1 && ParseMagnitude(digits, maxlen - 1) == Some(n)
    ensures ParseInteger("-" + digits, maxlen, true) == Some(-(n as int))
  {
    var s := "-" + digits;
    assert s[0] == '-' && s[1..] == digits;
  }

  lemma DecimalDigits(n: nat, maxlen: nat) returns (digits: string)
    requires n < 0x1_0000_0000 && maxlen > 10
    ensures digits == Numeral(10, n, false) && digits != "" && '0' <= digits[0] <= '9'
    ensures ParseMagnitude(digits, maxlen) == Some(n)
  {
    digits := Numeral(10, n, false);
    NumeralFirst(10, n, false);
    NumeralLength(n);
    assert digits + "" == digits;
    DecimalRoundTrip(n, false, "", maxlen);
  }

  lemma ValueParses(value: i32, maxlen: nat)
    requires maxlen > 11
    ensures ParseInteger(Decimal(value), maxlen, true) == Some(value)
  {
    if value < 0 {
      var n: nat := -(value as int);
      var digits := DecimalDigits(n, maxlen - 1);
      NegativeParses(digits, maxlen, n);
    } else {
      var digits := DecimalDigits(value, maxlen);
      UnsignedParses(digits, maxlen, value);
    }
  }

  lemma ValueRoundTrip(value: i32)
    ensures ParseInteger(Decimal(value), SIZE_MAX, true) == Some(value) && ToI32(value) == value
  {
    ValueParses(value, SIZE_MAX);
  }

  /** A bounded comparison inside two texts is a comparison of their characters. */
  lemma {:induction false} SameUpToExact(a: string, b: string, n: nat)
    requires n <= |a| && NUL !in a[..n] && NUL !in b
    ensures SameUpTo(a, b, n) <==> n <= |b| && forall i :: 0 <= i < n ==> Lower(a[i]) == Lower(b[i])
    decreases n
  {
    if n > 0 {
      var a', b' := a[1..], if b == "" then "" else b[1..];
      assert a[..n][0] == a[0] && a[..n][1..] == a'[..n - 1];
      SameUpToExact(a', b', n - 1);
      if n <= |b| && Lower(a[0]) == Lower(b[0]) {
        if forall i :: 0 <= i < n - 1 ==> Lower(a'[i]) == Lower(b'[i]) {
          assert forall i :: 0 < i < n ==> a[i] == a'[i - 1] && b[i] == b'[i - 1];
        }
      }
    }
  }

  lemma {:induction false} FindNameAt(names: seq<(nat, string)>, s: string, length: nat, k: nat)
    requires k <= |names| && forall j :: 0 <= j < k ==> !SameUpTo(s, names[j].1, length)
    requires k < |names| ==> SameUpTo(s, names[k].1, length)
    ensures FindName(names, s, length) == if k < |names| then Some(names[k].0) else None
    decreases k
  {
    if k > 0 {
      FindNameAt(names[1..], s, length, k - 1);
    }
  }

  /** No earlier name of the table starts with a later one. */
  lemma NamesDiffer(j: nat, k: nat)
    requires j < k < |EV_NAMES|
    ensures var a, b := EV_NAMES[j].1, EV_NAMES[k].1;
            |a| < |b| || exists i :: 0 <= i < |a| && i < |b| && Lower(a[i]) != Lower(b[i])
  {
    var a, b := EV_NAMES[j].1, EV_NAMES[k].1;
    assert |a| >= 2 && |b| >= 2;
    if Lower(a[0]) == Lower(b[0]) && Lower(a[1]) == Lower(b[1]) {
      assert (j == 2 && k == 8 && a[2] == 'L' && b[2] == 'P') || (j == 9 && k == 11);
    }
  }

  lemma PlainNames(k: nat)
    requires k < |EV_NAMES|
    ensures var b := EV_NAMES[k].1; |b| >= 2 && Lower(b[0]) != 'e' && b[0] != '<' && NUL !in b && ':' !in b
  {}

  lemma NoPrefix(names: seq<(nat, string)>, s: string, n: nat)
    requires s != "" && Lower(s[0]) != 'e' && s[0] != NUL
    ensures FindName(names, s, n).Some? ==> String2EV(names, s, n) == FindName(names, s, n)
    ensures FindName(names, s, n).None? && !('0' <= s[0] <= '9') && s[0] != '+' && s[0] != ' ' && s[0] != '\t'
            ==> String2EV(names, s, n) == None
  {}

  /** The number a printed name is read back as. */
  lemma NameRoundTrip(kind: u16, s: string)
    requires EV2String(kind) <= s
    ensures ':' !in EV2String(kind)
    ensures String2EV(EV_NAMES, s, |EV2String(kind)|) == if kind < |EV_NAMES| then Some(EV_NAMES[kind].0) else None
  {
    var name := EV2String(kind);
    var n := |name|;
    if kind < |EV_NAMES| {
      PlainNames(kind);
    }
    assert s[..n] == name && s[0] == name[0];
    var last := if kind < |EV_NAMES| then kind as nat else |EV_NAMES|;
    forall j | 0 <= j < |EV_NAMES| && j <= last
      ensures SameUpTo(s, EV_NAMES[j].1, n) <==> j == last
    {
      PlainNames(j);
      SameUpToExact(s, EV_NAMES[j].1, n);
      if last < |EV_NAMES| && j < last {
        NamesDiffer(j, last);
      }
    }
    FindNameAt(EV_NAMES, s, n, last);
    NoPrefix(EV_NAMES, s, n);
  }

  /** A printed event is read back as itself exactly when its type is one whose number is its
      position in the name table. */
  lemma ShowRoundTrip(kind: u16, code: u16, value: i32)
    ensures ParseSpec(Show(kind, code, value)) == Some(HotkeySpec(kind, code, value)) <==> kind <= EV_SW
  {
    NameRoundTrip(kind, Show(kind, code, value));
    FieldsRoundTrip(EV_NAMES, EV2String(kind), code, value);
    if kind < |EV_NAMES| {
      TypeNumbers(kind);
    }
  }

  lemma SpecParts(names: seq<(nat, string)>, def: string, dot1: nat, dot2: nat)
    requires Find(def, ':', 0) == dot1 && dot1 < dot2 && dot2 + 1 < |def| && Find(def, ':', dot1 + 1) == dot2
    ensures ParseSpecIn(names, def) == SpecBetween(names, def, dot1, dot2)
  {}

  lemma FieldsParse(names: seq<(nat, string)>, name: string, code: string, value: string)
    requires ':' !in name && ':' !in code && value != ""
    ensures var def := name + ":" + code + ":" + value;
            ParseSpecIn(names, def)
            == SpecOf(String2EV(names, def, |name|), ParseInteger(code + (":" + value), |code|, false),
                      ParseInteger(value, SIZE_MAX, true))
  {
    ShowSplits(name, code, value);
    SpecParts(names, name + ":" + code + ":" + value, |name|, |name| + 1 + |code|);
  }

  lemma SpecGiven(kind: Option<nat>, code: u16, value: i32)
    requires ToI32(value) == value
    ensures SpecOf(kind, Some(code), Some(value))
            == if kind.None? || kind.value > EV_MAX then None else Some(HotkeySpec(kind.value, code, value))
  {}

  /** The code and the value come back whatever the name is; the name decides the type. */
  lemma FieldsRoundTrip(names: seq<(nat, string)>, name: string, code: u16, value: i32)
    requires ':' !in name
    ensures var def := name + ":" + Decimal(code) + ":" + Decimal(value);
            var kind := String2EV(names, def, |name|);
            ParseSpecIn(names, def) == if kind.None? || kind.value > EV_MAX then None
                                       else Some(HotkeySpec(kind.value, code, value))
  {
    NumeralFirst(10, code, false);
    CodeRoundTrip(code, ":" + Decimal(value));
    ValueRoundTrip(value);
    FieldsParse(names, name, Decimal(code), Decimal(value));
    var def := name + ":" + Decimal(code) + ":" + Decimal(value);
    SpecGiven(String2EV(names, def, |name|), code, value);
  }

  lemma TypeNumbers(k: nat)
    requires k < |EV_NAMES|
    ensures EV_NAMES[k].0 <= EV_MAX && (EV_NAMES[k].0 == k <==> k <= EV_SW)
  {}
}
