/** The parts of a hotkey definition: which digits, signs, type names and ranges are read as what. */
module Definitions {
  import opened Bytes
  import opened Tokenizer
  import opened Numbers

  // ----- digits, signs and blanks -----

  const LOWER := "0123456789abcdef"
  const UPPER := "0123456789ABCDEF"

  /** A digit is worth its place in either row of digits, if that is below the base. */
  lemma DigitExact(base: nat, c: char, v: nat)
    requires base == 8 || base == 10 || base == 16
    ensures DigitValue(base, c) == Some(v) <==> v < base && (c == LOWER[v] || c == UPPER[v])
  {
    if v < 16 {
      RowsOfDigits(v);
    }
  }

  lemma RowsOfDigits(v: nat)
    requires v < 16
    ensures v < 10 ==> LOWER[v] == UPPER[v] && LOWER[v] as int == 48 + v
    ensures v >= 10 ==> LOWER[v] as int == 87 + v && UPPER[v] as int == 55 + v
  {}

  predicate Blank(s: string) {
    forall i :: 0 <= i < |s| ==> s[i] as int == 32 || s[i] as int == 9
  }

  predicate StartsWithDigit(s: string) {
    s != "" && 48 <= s[0] as int <= 57
  }

  lemma {:induction false} BlanksSkipped(blanks: string, s: string, n: nat)
    requires Blank(blanks) && s != "" && s[0] as int !in {9, 32}
    ensures SkipBlanks(blanks + s, |blanks| + n) == (s, n)
    decreases |blanks|
  {
    if blanks == "" {
      assert blanks + s == s;
    } else {
      assert (blanks + s)[1..] == blanks[1..] + s;
      BlanksSkipped(blanks[1..], s, n);
    }
  }

  /** Blanks and a sign in front of a number: a plus is always taken, a minus only where the number may
      have a sign, and no number may go without a digit. */
  lemma SignExact(blanks: string, sign: string, digits: string, n: nat, signed: bool)
    requires Blank(blanks) && sign in ["", "+", "-"] && StartsWithDigit(digits) && n > 0
    ensures ParseInteger(blanks + (sign + digits), |blanks| + (|sign| + n), signed)
            == (var r := ParseMagnitude(digits, n);
                if r.None? || (sign == "-" && !signed) then None
                else Some(if sign == "-" then -(r.value as int) else r.value))
  {
    var s := sign + digits;
    assert sign == "" ==> s == digits;
    assert sign != "" ==> s[0] == sign[0] && s[1..] == digits;
    BlanksSkipped(blanks, s, |sign| + n);
    assert !Ended(blanks + s);
    SignTaken(blanks + s, |blanks| + (|sign| + n), s, sign, digits, n, signed);
  }

  lemma SignTaken(text: string, maxlen: nat, s: string, sign: string, digits: string, n: nat, signed: bool)
    requires maxlen > 0 && !Ended(text) && SkipBlanks(text, maxlen) == (s, |sign| + n)
    requires sign in ["", "+", "-"] && StartsWithDigit(digits) && n > 0
    requires (sign == "" && s == digits) || (sign != "" && s != "" && s[0] == sign[0] && s[1..] == digits)
    ensures ParseInteger(text, maxlen, signed)
            == (var r := ParseMagnitude(digits, n);
                if r.None? || (sign == "-" && !signed) then None
                else Some(if sign == "-" then -(r.value as int) else r.value))
  {}

  /** If the blanks use up the length, a sign makes the rest of it wrap; without one there is no number. */
  lemma LengthWraps(blanks: string, sign: string, digits: string, signed: bool)
    requires Blank(blanks) && blanks != "" && sign in ["", "+", "-"] && StartsWithDigit(digits)
    ensures ParseInteger(blanks + (sign + digits), |blanks|, signed)
            == if sign == "" || (sign == "-" && !signed) then None
               else (var r := ParseMagnitude(digits, 0xffff_ffff_ffff_ffff);
                     if r.None? then None else Some(if sign == "-" then -(r.value as int) else r.value))
  {
    var s := sign + digits;
    assert sign == "" ==> s == digits;
    assert sign != "" ==> s[0] == sign[0] && s[1..] == digits;
    BlanksSkipped(blanks, s, 0);
    assert !Ended(blanks + s);
  }

  // ----- types -----

  /** The numbers of the named types. */
  const TYPES: seq<nat> := [0, 1, 2, 3, 4, 5, 17, 18, 20, 21, 22, 23]
  const NAMES: seq<string> := ["SYN", "KEY", "REL", "ABS", "MSC", "SW ", "LED", "SND", "REP", "FF", "PWR", "FF_STATUS"]

  lemma TableExact(k: nat)
    requires k < 12
    ensures |EV_NAMES| == 12 && EV_NAMES[k] == (TYPES[k], NAMES[k])
  {}

  /** Each name is read as its type, whatever follows it. */
  lemma NamedType(k: nat, rest: string)
    requires k < 12
    ensures String2EV(EV_NAMES, NAMES[k] + rest, |NAMES[k]|) == Some(TYPES[k])
  {
    TableExact(k);
    NameRoundTrip(k, NAMES[k] + rest);
  }

  /** `EV_` in front of a name or a number makes no difference, in capitals or not. */
  lemma PrefixIgnored(prefix: string, s: string, n: nat)
    requires prefix == "EV_" || prefix == "ev_"
    requires n > 0 && (s == "" || Lower(s[0]) != 'e')
    ensures String2EV(EV_NAMES, prefix + s, n + 3) == String2EV(EV_NAMES, s, n)
  {
    var text := prefix + s;
    assert text[..3] == prefix && text[3..] == s;
    SameUpToExact(text, "EV_", 3);
    assert Lower('E') == 'e' && Lower('V') == 'v' && Lower('_') == '_';
    NotPrefixed(s);
    Unprefixed(EV_NAMES, text, s, n);
  }

  lemma NotPrefixed(s: string)
    requires s == "" || Lower(s[0]) != 'e'
    ensures !SameUpTo(s, "EV_", 3)
  {
    assert Lower('E') == 'e';
    assert Lower(At("EV_", 0)) == 'e' && Lower(NUL) == NUL;
  }

  lemma Unprefixed(names: seq<(nat, string)>, text: string, s: string, n: nat)
    requires n > 0 && |text| >= 3 && SameUpTo(text, "EV_", 3) && text[3..] == s && !SameUpTo(s, "EV_", 3)
    ensures String2EV(names, text, n + 3) == String2EV(names, s, n)
  {}

  /** A decimal number is read as the type with that number, cut to 32 bits; all ones is the error. */
  lemma TypeByNumber(n: nat)
    ensures var digits, cut := Numeral(10, n, false), n % 0x1_0000_0000;
            String2EV(EV_NAMES, digits, |digits|) == if cut == 0xffff_ffff then None else Some(cut)
  {
    var digits := Numeral(10, n, false);
    NumeralFirst(10, n, false);
    NoNameStarts(digits);
    FindNameAt(EV_NAMES, digits, |digits|, |EV_NAMES|);
    DecimalRoundTrip(n, false, "", |digits|);
    assert digits + "" == digits;
    UnsignedReads(digits, |digits|, n);
    NotPrefixed(digits);
    NumberCut(EV_NAMES, digits, |digits|, n);
  }

  lemma NumberCut(names: seq<(nat, string)>, s: string, n: nat, value: nat)
    requires !SameUpTo(s, "EV_", 3) && FindName(names, s, n).None? && ParseInteger(s, n, false) == Some(value)
    ensures String2EV(names, s, n)
            == if value % 0x1_0000_0000 == 0xffff_ffff then None else Some(value % 0x1_0000_0000)
  {}

  lemma UnsignedReads(digits: string, maxlen: nat, n: nat)
    requires StartsWithDigit(digits) && maxlen > 0 && ParseMagnitude(digits, maxlen) == Some(n)
    ensures ParseInteger(digits, maxlen, false) == Some(n)
  {}

  lemma NoNameStarts(digits: string)
    requires StartsWithDigit(digits)
    ensures forall j :: 0 <= j < |EV_NAMES| ==> !SameUpTo(digits, EV_NAMES[j].1, |digits|)
  {
    forall j | 0 <= j < |EV_NAMES|
      ensures !SameUpTo(digits, EV_NAMES[j].1, |digits|)
    {
      TableExact(j);
      LetterFirst(j);
    }
  }

  lemma LetterFirst(k: nat)
    requires k < 12
    ensures NAMES[k] != "" && 'a' <= Lower(NAMES[k][0]) <= 'z'
  {}

  // ----- definitions -----

  /** A type, a code and a value are read if and only if the type is below 32 and the code fits in 16
      bits; the value is cut to 32 bits, with its sign. */
  lemma SpecExact(kind: Option<nat>, code: Option<int>, value: Option<int>)
    ensures var r := SpecOf(kind, code, value);
            && (r.Some? <==> kind.Some? && kind.value < 32 && code.Some? && 0 <= code.value < 65536 && value.Some?)
            && (r.Some? ==> r.value.kind == kind.value && r.value.code == code.value
                            && (r.value.value - value.value) % 0x1_0000_0000 == 0)
  {}

  /** A definition without two colons, each with something behind it, is refused. */
  lemma NoSpec(def: string)
    ensures ParseSpec(def).Some? ==>
              exists i, j :: 0 <= i < j < |def| - 1 && def[i] == ':' && def[j] == ':'
                && (forall k :: 0 <= k < j && k != i ==> def[k] != ':')
  {
    var i := Find(def, ':', 0);
    if i + 1 < |def| {
      var j := Find(def, ':', i + 1);
      if j + 1 >= |def| {
        NoSpecIn(EV_NAMES, def);
      } else {
        assert i < j && def[i] == ':' && def[j] == ':';
      }
    } else {
      NoSpecIn(EV_NAMES, def);
    }
  }

  lemma NoSpecIn(names: seq<(nat, string)>, def: string)
    requires Find(def, ':', 0) + 1 >= |def| || Find(def, ':', Find(def, ':', 0) + 1) + 1 >= |def|
    ensures ParseSpecIn(names, def) == None
  {}
}
