/** Commands stored as text by `hotkey add` and `action set`, and replayed later. */
module Replay {
  import opened Bytes
  import opened Tokenizer

  // ----- joining arguments -----

  /** The loop of `join`: the separator goes in once something non-empty is there. */
  function JoinFrom(acc: string, c: char, args: seq<string>): string
    decreases |args|
  {
    if args == [] then acc
    else JoinFrom((if acc != "" then acc + [c] else acc) + args[0], c, args[1..])
  }

  method Join(c: char, args: seq<string>) returns (s: string)
    ensures s == JoinFrom("", c, args)
  {
    s := "";
    for i := 0 to |args|
      invariant JoinFrom("", c, args) == JoinFrom(s, c, args[i..])
    {
      assert args[i..][1..] == args[i + 1..];
      if |s| > 0 {
        s := s + [c];
      }
      s := s + args[i];
    }
  }

  /** Words with single spaces between them. */
  function Spaced(words: seq<string>): string {
    if words == [] then "" else if |words| == 1 then words[0] else words[0] + " " + Spaced(words[1..])
  }

  predicate NoneEmpty(words: seq<string>) {
    forall i :: 0 <= i < |words| ==> words[i] != ""
  }

  lemma {:induction false} JoinedFrom(acc: string, words: seq<string>)
    requires acc != ""
    ensures JoinFrom(acc, ' ', words) == if words == [] then acc else acc + " " + Spaced(words)
    decreases |words|
  {
    if words != [] {
      JoinedFrom(acc + " " + words[0], words[1..]);
      if |words| > 1 {
        Regroup(acc, " ", words[0], " " + Spaced(words[1..]));
        assert acc + " " + words[0] + " " + Spaced(words[1..]) == acc + " " + (words[0] + " " + Spaced(words[1..]));
      }
    }
  }

  /** The characters of all words together. */
  function Total(words: seq<string>): nat {
    if words == [] then 0 else |words[0]| + Total(words[1..])
  }

  lemma {:induction false} SpacedLength(words: seq<string>)
    requires words != []
    ensures |Spaced(words)| == Total(words) + |words| - 1
    decreases |words|
  {
    if |words| > 1 {
      SpacedLength(words[1..]);
    } else {
      assert words[1..] == [];
    }
  }

  lemma {:induction false} JoinedLength(acc: string, words: seq<string>)
    ensures |JoinFrom(acc, ' ', words)| <= |acc| + Total(words) + |words|
    decreases |words|
  {
    if words != [] {
      JoinedLength((if acc != "" then acc + " " else acc) + words[0], words[1..]);
    }
  }

  /** A first argument that is empty costs its space. */
  lemma JoinShort(words: seq<string>)
    requires |words| > 1 && words[0] == ""
    ensures |JoinFrom("", ' ', words)| < |Spaced(words)|
  {
    var rest := words[1..];
    assert JoinFrom("", ' ', words) == JoinFrom("", ' ', rest) by {
      assert "" + words[0] == "";
    }
    assert JoinFrom("", ' ', rest) == JoinFrom(rest[0], ' ', rest[1..]) by {
      assert "" + rest[0] == rest[0];
    }
    JoinedLength(rest[0], rest[1..]);
    SpacedLength(words);
  }

  /** Parameters are joined with spaces, as documented, exactly when there are not several of them of
      which the first is empty. */
  lemma JoinIsSpaced(words: seq<string>)
    ensures JoinFrom("", ' ', words) == Spaced(words) <==> |words| <= 1 || words[0] != ""
  {
    if words != [] {
      assert "" + words[0] == words[0];
      if words[0] != "" {
        JoinedFrom(words[0], words[1..]);
      } else if |words| > 1 {
        JoinShort(words);
      }
    }
  }

  /** An input on which they are not. */
  lemma JoinDropsSpace()
    ensures JoinFrom("", ' ', ["", "x"]) == "x" && Spaced(["", "x"]) == " x"
  {
    var words := ["", "x"];
    assert words[1..] == ["x"] && words[1..][1..] == [];
    assert JoinFrom("", ' ', words) == JoinFrom("", ' ', words[1..]) == JoinFrom("x", ' ', []);
    assert Spaced(words) == "" + " " + Spaced(words[1..]);
  }

  // ----- typing words -----

  /** A word that needs no leading backslash. */
  predicate Typeable(w: string) {
    w != "" && Unspaced(w) && w[0] != '\\' && w[0] != ';' && !IsQuote(w[0])
  }

  predicate AllTypeable(words: seq<string>) {
    forall i :: 0 <= i < |words| ==> Typeable(words[i])
  }

  /** How each word is typed: `\` before every backslash and semicolon. */
  function Typed(words: seq<string>): (r: seq<string>)
    ensures |r| == |words| && forall i :: 0 <= i < |words| ==> r[i] == Bare(words[i])
  {
    seq(|words|, i requires 0 <= i < |words| => Bare(words[i]))
  }

  lemma WordTyped(w: string, rest: string, args: seq<string>)
    requires Typeable(w) && Stops(rest)
    ensures Commands(Bare(w) + rest, false, args) == Commands(rest, false, args + [w])
  {
    BareFirst(w, rest);
    WordRoundTrip(w, "", rest);
    assert "" + w == w;
  }

  lemma WordThenSpace(w: string, later: string, args: seq<string>)
    requires Typeable(w)
    ensures Commands(Bare(w) + (" " + later), false, args) == Commands(later, false, args + [w])
  {
    WordTyped(w, " " + later, args);
    SpaceIgnored(later, false, args + [w]);
  }

  lemma TypedFirst(words: seq<string>)
    requires |words| > 1
    ensures Spaced(Typed(words)) == Bare(words[0]) + (" " + Spaced(Typed(words[1..])))
  {
    assert Typed(words)[1..] == Typed(words[1..]);
    Regroup(Bare(words[0]), " ", Spaced(Typed(words[1..])), []);
  }

  lemma LastWordTyped(w: string, args: seq<string>)
    requires Typeable(w)
    ensures Commands(Spaced(Typed([w])), false, args) == [args + [w]]
  {
    assert Spaced(Typed([w])) == Bare(w) + "";
    WordTyped(w, "", args);
    NothingLeft("", args + [w]);
  }

  lemma NothingLeft(s: string, args: seq<string>)
    requires s == "" && args != []
    ensures Commands(s, false, args) == [args]
  {}

  /** Typing words with spaces between them makes them one argument list. */
  lemma {:induction false} WordsTyped(words: seq<string>, args: seq<string>)
    requires AllTypeable(words) && words != []
    ensures Commands(Spaced(Typed(words)), false, args) == [args + words]
    decreases |words|
  {
    var w, args' := words[0], args + [words[0]];
    if |words| == 1 {
      assert words == [w] && args' == args + words;
      LastWordTyped(w, args);
    } else {
      TypedFirst(words);
      WordThenSpace(w, Spaced(Typed(words[1..])), args);
      WordsTyped(words[1..], args');
      assert args' + words[1..] == args + words;
    }
  }

  // ----- plain commands -----

  /** A word without white space, quotes in front, backslashes or semicolons. */
  predicate Plain(w: string) {
    Typeable(w) && '\\' !in w && ';' !in w
  }

  predicate AllPlain(words: seq<string>) {
    forall i :: 0 <= i < |words| ==> Plain(words[i])
  }

  predicate PlainCommands(commands: seq<seq<string>>) {
    forall i :: 0 <= i < |commands| ==> commands[i] != [] && AllPlain(commands[i])
  }

  lemma {:induction false} PlainIsBare(w: string)
    requires '\\' !in w && ';' !in w
    ensures Bare(w) == w
    decreases |w|
  {
    if w != "" {
      PlainIsBare(w[1..]);
      assert w == [w[0]] + w[1..];
    }
  }

  /** The words of a command and those after it, each separator attached to the word before it. */
  function Marked(words: seq<string>, more: seq<seq<string>>): (r: seq<string>)
    requires words != [] && PlainCommands(more)
    ensures r != []
    decreases |more|, |words|
  {
    if |words| > 1 then [words[0]] + Marked(words[1..], more)
    else if more == [] then [words[0]]
    else [words[0] + ";"] + Marked(more[0], more[1..])
  }

  lemma {:induction false} MarkedTypeable(words: seq<string>, more: seq<seq<string>>)
    requires words != [] && AllPlain(words) && PlainCommands(more)
    ensures AllTypeable(Marked(words, more))
    decreases |more|, |words|
  {
    if |words| > 1 {
      MarkedTypeable(words[1..], more);
    } else if more != [] {
      assert Unspaced(words[0] + ";");
      MarkedTypeable(more[0], more[1..]);
    }
  }

  /** One plain word in the replayed text. */
  lemma PlainWord(w: string, rest: string, args: seq<string>)
    requires Plain(w) && Stops(rest)
    ensures Commands(w + rest, false, args) == Commands(rest, false, args + [w])
  {
    PlainIsBare(w);
    WordTyped(w, rest, args);
  }

  lemma PlainThenSemicolon(w: string, later: string, args: seq<string>)
    requires Plain(w)
    ensures Commands(w + (";" + (" " + later)), false, args) == [args + [w]] + Commands(later, false, [])
  {
    PlainWord(w, ";" + (" " + later), args);
    Semicolon(" " + later, args + [w]);
    SpaceIgnored(later, false, []);
  }

  /** The joined text of marked words dispatches the commands they mark. */
  lemma {:induction false} MarkedDispatches(words: seq<string>, more: seq<seq<string>>, args: seq<string>)
    requires words != [] && AllPlain(words) && PlainCommands(more)
    ensures Commands(Spaced(Marked(words, more)), false, args) == [args + words] + more
    decreases |more|, |words|
  {
    var w, args' := words[0], args + [words[0]];
    var marked := Marked(words, more);
    if |words| > 1 {
      var later := Spaced(Marked(words[1..], more));
      assert marked[1..] == Marked(words[1..], more);
      Regroup(w, " ", later, []);
      PlainIsBare(w);
      WordThenSpace(w, later, args);
      MarkedDispatches(words[1..], more, args');
      assert args' + words[1..] == args + words;
    } else if more == [] {
      assert Spaced(marked) == w + "";
      PlainWord(w, "", args);
      assert args' == args + words;
    } else {
      var later := Spaced(Marked(more[0], more[1..]));
      assert marked[1..] == Marked(more[0], more[1..]);
      assert Spaced(marked) == w + (";" + (" " + later));
      PlainThenSemicolon(w, later, args);
      MarkedDispatches(more[0], more[1..], []);
      assert args' == args + words && [] + more[0] == more[0];
      assert [more[0]] + more[1..] == more;
    }
  }

  /** Typed after any head words with `\;` between commands, commands are stored as one text
      that replays as exactly those commands. */
  lemma StoreAndReplay(head: seq<string>, commands: seq<seq<string>>)
    requires AllTypeable(head) && commands != [] && PlainCommands(commands)
    ensures var words := Marked(commands[0], commands[1..]);
            && Dispatches(Spaced(Typed(head + words))) == [head + words]
            && Dispatches(JoinFrom("", ' ', (head + words)[|head|..])) == commands
  {
    var words := Marked(commands[0], commands[1..]);
    MarkedTypeable(commands[0], commands[1..]);
    WordsTyped(head + words, []);
    assert [] + (head + words) == head + words && (head + words)[|head|..] == words;
    JoinIsSpaced(words);
    MarkedDispatches(commands[0], commands[1..], []);
    assert [] + commands[0] == commands[0] && [commands[0]] + commands[1..] == commands;
  }

  lemma JoinOne(text: string)
    ensures JoinFrom("", ' ', [text]) == text
  {
    assert "" + text == text;
  }

  /** Any text missing one quote can be stored as it is, inside that quote. */
  lemma StoreVerbatim(head: seq<string>, text: string)
    requires AllExpressible(head) && ('"' !in text || '\'' !in text)
    ensures Dispatches(PrintArgs(head + [text])) == [head + [text]]
    ensures JoinFrom("", ' ', (head + [text])[|head|..]) == text
  {
    CommandRoundTrip(head + [text]);
    assert (head + [text])[|head|..] == [text];
    JoinOne(text);
  }

  // ----- a stored hotkey is cut at its first NUL -----

  function CStr(s: string): (r: string)
    ensures |r| <= |s|
  {
    if Ended(s) then "" else [s[0]] + CStr(s[1..])
  }

  /** A text up to its first NUL. */
  lemma {:induction false} CStrExact(s: string)
    ensures CStr(s) <= s && NUL !in CStr(s) && (|CStr(s)| < |s| ==> s[|CStr(s)|] == NUL)
    decreases |s|
  {
    if !Ended(s) {
      CStrExact(s[1..]);
      assert s == [s[0]] + s[1..];
    }
  }

  lemma CStrTail(s: string)
    requires !Ended(s)
    ensures CStr(s)[0] == s[0] && CStr(s)[1..] == CStr(s[1..])
  {}

  lemma {:induction false} SkipWhiteCut(s: string)
    ensures SkipWhite(CStr(s)) == CStr(SkipWhite(s))
    decreases |s|
  {
    if !Ended(s) {
      CStrTail(s);
      SkipWhiteCut(s[1..]);
    }
  }

  lemma {:induction false} QuotedCut(s: string, quote: char, escape: bool, acc: string)
    requires quote != NUL
    ensures var whole := Quoted(s, quote, escape, acc);
            Quoted(CStr(s), quote, escape, acc) == (whole.0, CStr(whole.1))
    decreases |s|
  {
    if !Ended(s) {
      CStrTail(s);
      if s[0] != quote {
        if escape {
          QuotedCut(s[1..], quote, false, acc + Unescape(s[0]));
        } else if s[0] == '\\' {
          QuotedCut(s[1..], quote, true, acc);
        } else {
          QuotedCut(s[1..], quote, false, acc + [s[0]]);
        }
      }
    }
  }

  lemma {:induction false} WordCut(s: string, escape: bool, acc: string)
    requires !Ended(s)
    ensures var whole := Word(s, escape, acc);
            Word(CStr(s), escape, acc) == (whole.0, CStr(whole.1))
    decreases |s|
  {
    CStrTail(s);
    var escape' := !escape && s[0] == '\\';
    var acc' := if escape' then acc else acc + [s[0]];
    var s' := s[1..];
    if !Ended(s') {
      CStrTail(s');
      if !IsWhite(s'[0]) && (escape' || s'[0] != ';') {
        WordCut(s', escape', acc');
      }
    }
  }

  lemma {:induction false} CommandsCut(s: string, escape: bool, args: seq<string>)
    ensures Commands(CStr(s), escape, args) == Commands(s, escape, args)
    decreases |s|
  {
    var t := SkipWhite(s);
    SkipWhiteCut(s);
    if !Ended(t) {
      CStrTail(t);
      if !escape && t[0] == '\\' {
        CommandsCut(t[1..], true, args);
      } else if !escape && t[0] == ';' {
        CommandsCut(t[1..], false, []);
      } else if !escape && IsQuote(t[0]) {
        QuotedCut(t[1..], t[0], false, "");
        var (arg, rest) := Quoted(t[1..], t[0], false, "");
        CommandsCut(rest, false, args + [arg]);
      } else {
        WordCut(t, false, "");
        var (arg, rest) := Word(t, false, "");
        CommandsCut(rest, false, args + [arg]);
      }
    }
  }

  /** Cutting a stored text at its first NUL does not change what it replays as. */
  lemma CutReplays(text: string)
    ensures Dispatches(CStr(text)) == Dispatches(text)
  {
    CommandsCut(text, false, []);
  }
}
