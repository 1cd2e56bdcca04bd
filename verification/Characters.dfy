/** What single characters do in a command text, said with their numbers. */
module Characters {
  import opened Bytes
  import opened Tokenizer
  import opened Replay

  predicate Letters(w: string) {
    w != "" && forall i :: 0 <= i < |w| ==> 'a' <= w[i] <= 'z'
  }

  lemma LettersPlain(w: string)
    requires Letters(w)
    ensures Plain(w) && '"' !in w && '\'' !in w && NUL !in w
  {}

  // ----- between two words -----

  /** Tab, newline, carriage return and space. */
  const BLANKS: set<int> := {9, 10, 13, 32}

  /** The argument lists two words are dispatched as with a character between them. */
  function Between(u: string, c: char, v: string): seq<seq<string>> {
    if c as int in BLANKS then [[u, v]]
    else if c as int == 59 then [[u], [v]]
    else if c as int == 0 then [[u]]
    else if c as int == 92 then [[u + v]]
    else [[u + [c] + v]]
  }

  /** Four characters separate arguments, the semicolon separates commands, a NUL ends the text, a
      backslash is left out, and every other character is part of the word. */
  lemma BetweenExact(u: string, c: char, v: string)
    requires Letters(u) && Letters(v)
    ensures Dispatches(u + [c] + v) == Between(u, c, v)
  {
    Regroup(u, [c], v, []);
    LettersPlain(u);
    LettersPlain(v);
    if c as int in BLANKS {
      BlankBetween(u, c, v);
    } else if c == ';' {
      SemicolonBetween(u, v);
    } else if c == NUL {
      PlainWord(u, [NUL] + v, []);
      AtEnd([NUL] + v, false, [u]);
      assert [] + [u] == [u];
    } else if c == '\\' {
      BackslashBetween(u, v);
    } else {
      OneWord(u + [c] + v);
    }
  }

  lemma OneWord(w: string)
    requires Plain(w)
    ensures Dispatches(w) == [[w]]
  {
    PlainWord(w, "", []);
    assert w + "" == w && [] + [w] == [w];
    NothingLeft("", [w]);
  }

  lemma BlankIgnored(c: char, s: string, args: seq<string>)
    requires c as int in BLANKS
    ensures Commands([c] + s, false, args) == Commands(s, false, args)
  {
    assert ([c] + s)[1..] == s;
    assert SkipWhite([c] + s) == SkipWhite(s);
    SkipTwice([c] + s, false, args);
    SkipTwice(s, false, args);
  }

  lemma BlankBetween(u: string, c: char, v: string)
    requires Plain(u) && Plain(v) && c as int in BLANKS
    ensures Dispatches(u + ([c] + v)) == [[u, v]]
  {
    PlainWord(u, [c] + v, []);
    BlankIgnored(c, v, [u]);
    PlainWord(v, "", [u]);
    assert v + "" == v && [] + [u] == [u] && [u] + [v] == [u, v];
    NothingLeft("", [u, v]);
  }

  lemma SemicolonBetween(u: string, v: string)
    requires Plain(u) && Plain(v)
    ensures Dispatches(u + (";" + v)) == [[u], [v]]
  {
    PlainWord(u, ";" + v, []);
    Semicolon(v, [u]);
    OneWord(v);
    assert [] + [u] == [u] && [[u]] + [[v]] == [[u], [v]];
  }

  /** Letters of a bare word are taken one by one. */
  lemma {:induction false} LettersTaken(w: string, escape: bool, acc: string, rest: string)
    requires Letters(w) && (Ended(rest) || rest[0] == '\\')
    ensures Word(w + rest, escape, acc) == if Ended(rest) then (acc + w, rest) else Word(rest, false, acc + w)
    decreases |w|
  {
    var later := w[1..];
    assert w + rest == [w[0]] + (later + rest);
    WordStep(w[0], later + rest, escape, acc);
    MoveFirst(acc, w);
    if later == "" {
      assert later + rest == rest && acc + [w[0]] + later == acc + [w[0]];
    } else {
      LettersTaken(later, false, acc + [w[0]], rest);
    }
  }

  lemma BackslashBetween(u: string, v: string)
    requires Letters(u) && Letters(v)
    ensures Dispatches(u + ("\\" + v)) == [[u + v]]
  {
    LettersTaken(u, false, "", "\\" + v);
    WordStep('\\', v, false, "" + u);
    assert v + "" == v;
    LettersTaken(v, true, "" + u, "");
    assert "" + u == u && u + v != "";
    OneArgument(u + ("\\" + v), u + v);
  }

  lemma OneArgument(s: string, arg: string)
    requires s != "" && 'a' <= s[0] <= 'z' && Word(s, false, "") == (arg, "")
    ensures Dispatches(s) == [[arg]]
  {
    assert SkipWhite(s) == s;
    assert [] + [arg] == [arg];
    NothingLeft("", [arg]);
  }

  // ----- around two words -----

  /** The double and the single quote make one argument of what they enclose, no other character does. */
  lemma QuotesExact(u: string, c: char, v: string)
    requires Letters(u) && Letters(v) && c as int !in BLANKS && c as int !in {0, 59, 92}
    ensures Dispatches([c] + (u + " " + v) + [c])
            == if c as int in {34, 39} then [[u + " " + v]] else [[[c] + u, v + [c]]]
  {
    LettersPlain(u);
    LettersPlain(v);
    if c as int in {34, 39} {
      var text := u + " " + v;
      EscapedPlain(text);
      QuotedArg(text, c, "", []);
      assert [c] + Escaped(text) + [c] + "" == [c] + text + [c] && [] + [text] == [text];
      NothingLeft("", [text]);
    } else {
      assert [c] + (u + " " + v) + [c] == ([c] + u) + ([' '] + (v + [c]));
      BlankBetween([c] + u, ' ', v + [c]);
    }
  }

  lemma {:induction false} EscapedPlain(a: string)
    requires '\\' !in a && NUL !in a
    ensures Escaped(a) == a
    decreases |a|
  {
    if a != "" {
      EscapedPlain(a[1..]);
      assert a == [a[0]] + a[1..];
    }
  }

  // ----- behind a backslash in a string -----

  /** The number of the character that a backslash and this one stand for. */
  const STANDS: map<char, int> := map[
    '\\' := 92, 't' := 9, 'r' := 13, 'n' := 10, 'f' := 12, 'v' := 11, 'b' := 8, '"' := 34, '\'' := 39, '0' := 0]

  /** Ten pairs stand for one character, every other pair for itself. */
  lemma EscapesExact(c: char, quote: char, acc: string, rest: string)
    requires c != NUL && c != quote && quote as int in {34, 39}
    ensures Quoted(['\\', c] + rest, quote, false, acc)
            == Quoted(rest, quote, false, acc + (if c in STANDS then [STANDS[c] as char] else ['\\', c]))
  {
    assert ['\\', c] + rest == ['\\'] + ([c] + rest);
    QuotedStep('\\', [c] + rest, quote, false, acc);
    QuotedStep(c, rest, quote, true, acc);
  }

  /** A backslash hides neither the closing quote nor the end of the text; it is dropped there. */
  lemma BackslashHidesNoEnd(quote: char, acc: string, rest: string)
    requires quote as int in {34, 39}
    ensures Quoted(['\\', quote] + rest, quote, false, acc) == (acc, rest)
    ensures Ended(rest) ==> Quoted(['\\'] + rest, quote, false, acc) == (acc, rest)
  {
    assert ['\\', quote] + rest == ['\\'] + ([quote] + rest) && ([quote] + rest)[1..] == rest;
    QuotedStep('\\', [quote] + rest, quote, false, acc);
    QuotedStep('\\', rest, quote, false, acc);
  }
}
