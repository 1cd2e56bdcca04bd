/** The daemon's command language: the cursor tokenizer, as a function of the text still unread. */
module Tokenizer {
  import opened Bytes

  const NUL := '\0'

  predicate IsWhite(c: char) {
    c == ' ' || c == '\t' || c == '\r' || c == '\n'
  }

  predicate IsQuote(c: char) {
    c == '"' || c == '\''
  }

  /** True at the end of the text and at a NUL inside it, where every scan stops. */
  predicate Ended(s: string) {
    s == "" || s[0] == NUL
  }

  function SkipWhite(s: string): (r: string)
    ensures |r| <= |s|
    ensures r == "" || !IsWhite(r[0])
  {
    if s != "" && IsWhite(s[0]) then SkipWhite(s[1..]) else s
  }

  /** The character a backslash and `c` stand for; an unknown pair stands for itself. */
  function Unescape(c: char): string {
    match c
    case '\\' => "\\"
    case 't' => "\t"
    case 'r' => "\r"
    case 'n' => "\n"
    case 'f' => "\U{0C}"
    case 'v' => "\U{0B}"
    case 'b' => "\U{08}"
    case '"' => "\""
    case '\'' => "'"
    case '0' => "\0"
    case _ => ['\\', c]
  }

  /** The rest of a string after its opening quote; the closing quote is looked for before the escape. */
  function Quoted(s: string, quote: char, escape: bool, acc: string): (r: (string, string))
    ensures |r.1| <= |s|
    decreases |s|
  {
    if Ended(s) then (acc, s)
    else if s[0] == quote then (acc, s[1..])
    else if escape then Quoted(s[1..], quote, false, acc + Unescape(s[0]))
    else if s[0] == '\\' then Quoted(s[1..], quote, true, acc)
    else Quoted(s[1..], quote, false, acc + [s[0]])
  }

  /** A bare word: its first character is always taken, a backslash hides the next character from `;`. */
  function Word(s: string, escape: bool, acc: string): (r: (string, string))
    requires s != ""
    ensures |r.1| < |s|
    decreases |s|
  {
    var escape' := !escape && s[0] == '\\';
    var acc' := if escape' then acc else acc + [s[0]];
    var s' := s[1..];
    if !Ended(s') && !IsWhite(s'[0]) && (escape' || s'[0] != ';') then Word(s', escape', acc') else (acc', s')
  }

  function Flush(args: seq<string>): seq<seq<string>> {
    if args == [] then [] else [args]
  }

  /** The commands dispatched from here on, given the arguments collected so far. */
  function Commands(s: string, escape: bool, args: seq<string>): seq<seq<string>>
    decreases |s|
  {
    var t := SkipWhite(s);
    if Ended(t) then Flush(args)
    else if !escape && t[0] == '\\' then Commands(t[1..], true, args)
    else if !escape && t[0] == ';' then Flush(args) + Commands(t[1..], false, [])
    else if !escape && IsQuote(t[0]) then
      var (arg, rest) := Quoted(t[1..], t[0], false, "");
      Commands(rest, false, args + [arg])
    else
      var (arg, rest) := Word(t, false, "");
      Commands(rest, false, args + [arg])
  }

  /** The argument lists a text is dispatched as, in order. */
  function Dispatches(text: string): seq<seq<string>> {
    Commands(text, false, [])
  }

  // ----- the cursor -----

  /** What the cursor sees: the text is followed by a terminator. */
  function At(text: string, p: nat): char {
    if p < |text| then text[p] else NUL
  }

  method SkipWhiteFrom(text: string, p: nat) returns (more: bool, q: nat)
    requires p <= |text|
    ensures p <= q <= |text| && text[q..] == SkipWhite(text[p..])
    ensures more <==> !Ended(text[q..])
  {
    q := p;
    while IsWhite(At(text, q))
      invariant p <= q <= |text| && SkipWhite(text[p..]) == SkipWhite(text[q..])
      decreases |text| - q
    {
      assert text[q..][1..] == text[q + 1..];
      q := q + 1;
    }
    more := At(text, q) != NUL;
  }

  method ParseString(text: string, p: nat) returns (str: string, q: nat)
    requires p < |text|
    ensures p < q <= |text|
    ensures (str, text[q..]) == Quoted(text[p + 1..], text[p], false, "")
  {
    str := "";
    var quote := text[p];
    q := p + 1;
    var escape := false;
    while At(text, q) != NUL && At(text, q) != quote
      invariant p < q <= |text|
      invariant Quoted(text[p + 1..], quote, false, "") == Quoted(text[q..], quote, escape, str)
      decreases |text| - q
    {
      assert text[q..][1..] == text[q + 1..];
      if escape {
        escape := false;
        str := str + Unescape(text[q]);
      } else if text[q] == '\\' {
        escape := true;
      } else {
        str := str + [text[q]];
      }
      q := q + 1;
    }
    if At(text, q) != NUL {
      assert text[q..][1..] == text[q + 1..];
      q := q + 1;
    }
  }

  lemma WordAt(text: string, q: nat, escape: bool, acc: string)
    requires q < |text|
    ensures var escape' := !escape && text[q] == '\\';
            var acc' := if escape' then acc else acc + [text[q]];
            var more := At(text, q + 1) != NUL && !IsWhite(At(text, q + 1)) && (escape' || At(text, q + 1) != ';');
            Word(text[q..], escape, acc)
            == if more then Word(text[q + 1..], escape', acc') else (acc', text[q + 1..])
  {
    assert text[q..][1..] == text[q + 1..];
  }

  /** Copies the word in spans that leave out the backslashes. */
  method ParseWord(text: string, p: nat) returns (arg: string, q: nat)
    requires p < |text|
    ensures p < q <= |text|
    ensures (arg, text[q..]) == Word(text[p..], false, "")
  {
    arg := "";
    var beg := p;
    q := p;
    var escape, more := false, true;
    ghost var acc := "";
    while more
      invariant p <= beg <= q <= |text| && (more ==> q < |text|) && (!more ==> p < q)
      invariant acc == arg + text[beg..q]
      invariant Word(text[p..], false, "") == if more then Word(text[q..], escape, acc) else (acc, text[q..])
      decreases |text| - q, more
    {
      WordAt(text, q, escape, acc);
      assert arg + text[beg..q + 1] == acc + [text[q]];
      if !escape && text[q] == '\\' {
        arg := arg + text[beg..q];
        q := q + 1;
        beg := q;
        escape := true;
      } else {
        q := q + 1;
        escape := false;
        acc := acc + [text[q - 1]];
      }
      more := At(text, q) != NUL && !IsWhite(At(text, q)) && (escape || At(text, q) != ';');
    }
    arg := arg + text[beg..q];
  }

  /** One argument, quoted or bare; only a bare one may follow a backslash. */
  method ParseArg(text: string, p: nat, escape: bool, ghost args: seq<string>) returns (arg: string, q: nat)
    requires p < |text| && !Ended(text[p..]) && !IsWhite(text[p])
    requires escape || (text[p] != '\\' && text[p] != ';')
    ensures p < q <= |text|
    ensures Commands(text[p..], escape, args) == Commands(text[q..], false, args + [arg])
  {
    assert text[p..][1..] == text[p + 1..];
    if !escape && IsQuote(text[p]) {
      arg, q := ParseString(text, p);
    } else {
      arg, q := ParseWord(text, p);
    }
  }

  lemma Backslash(s: string, args: seq<string>)
    requires s != "" && s[0] == '\\'
    ensures Commands(s, false, args) == Commands(s[1..], true, args)
  {}

  /** Collects the argument lists handed to the command dispatcher; the cursor only moves forward. */
  method ParseClientCommand(text: string) returns (dispatched: seq<seq<string>>)
    ensures dispatched == Dispatches(text)
  {
    dispatched := [];
    var more, cmd := SkipWhiteFrom(text, 0);
    assert text == text[0..];
    SkipTwice(text, false, []);
    if !more {
      return;
    }
    var args: seq<string>, escape := [], false;
    while cmd < |text|
      invariant cmd <= |text|
      invariant Dispatches(text) == dispatched + Commands(text[cmd..], escape, args)
      decreases |text| - cmd
    {
      SkipTwice(text[cmd..], escape, args);
      more, cmd := SkipWhiteFrom(text, cmd);
      if !more {
        break;
      }
      assert text[cmd..][1..] == text[cmd + 1..];
      if !escape && text[cmd] == '\\' {
        Backslash(text[cmd..], args);
        cmd := cmd + 1;
        escape := true;
      } else if !escape && text[cmd] == ';' {
        assert text[cmd..] == ";" + text[cmd + 1..];
        Semicolon(text[cmd + 1..], args);
        Regroup(dispatched, Flush(args), Commands(text[cmd + 1..], false, []), []);
        cmd := cmd + 1;
        if args != [] {
          dispatched := dispatched + [args];
          args := [];
        } else {
          assert dispatched + Flush(args) == dispatched;
        }
      } else {
        var arg;
        arg, cmd := ParseArg(text, cmd, escape, args);
        args := args + [arg];
        escape := false;
      }
    }
    AtEnd(text[cmd..], escape, args);
    if args != [] {
      dispatched := dispatched + [args];
    }
  }

  lemma AtEnd(s: string, escape: bool, args: seq<string>)
    requires Ended(s)
    ensures Commands(s, escape, args) == Flush(args)
  {
    assert SkipWhite(s) == s;
  }

  // ----- white space -----

  lemma {:induction false} SkipIdempotent(s: string)
    ensures SkipWhite(SkipWhite(s)) == SkipWhite(s)
  {}

  lemma SkipTwice(s: string, escape: bool, args: seq<string>)
    ensures Commands(SkipWhite(s), escape, args) == Commands(s, escape, args)
  {
    SkipIdempotent(s);
  }

  lemma SpaceIgnored(s: string, escape: bool, args: seq<string>)
    ensures Commands(" " + s, escape, args) == Commands(s, escape, args)
  {
    assert (" " + s)[1..] == s;
    assert SkipWhite(" " + s) == SkipWhite(s);
    SkipTwice(" " + s, escape, args);
    SkipTwice(s, escape, args);
  }

  // ----- which argument lists have a text -----

  predicate Unspaced(a: string) {
    forall i :: 0 <= i < |a| ==> !IsWhite(a[i]) && a[i] != NUL
  }

  /** An argument that can be written: it misses one of the quotes, or can stand bare. */
  predicate Expressible(a: string) {
    '"' !in a || '\'' !in a || Unspaced(a)
  }

  predicate AllExpressible(args: seq<string>) {
    forall i :: 0 <= i < |args| ==> Expressible(args[i])
  }

  /** Inside quotes: a backslash and a NUL are escaped, everything else is verbatim. */
  function Escaped(a: string): string {
    if a == "" then "" else EscapedChar(a[0]) + Escaped(a[1..])
  }

  function EscapedChar(c: char): string {
    if c == '\\' then "\\\\" else if c == NUL then "\\0" else [c]
  }

  /** Outside quotes: a backslash and a semicolon are escaped. */
  function Bare(a: string): string {
    if a == "" then "" else (if a[0] == '\\' || a[0] == ';' then ['\\', a[0]] else [a[0]]) + Bare(a[1..])
  }

  function PrintArg(a: string): string {
    if '"' !in a then "\"" + Escaped(a) + "\""
    else if '\'' !in a then "'" + Escaped(a) + "'"
    else "\\" + Bare(a)
  }

  function PrintArgs(args: seq<string>): string {
    if args == [] then "" else PrintArg(args[0]) + " " + PrintArgs(args[1..])
  }

  function PrintAll(commands: seq<seq<string>>): string {
    if commands == [] then "" else PrintArgs(commands[0]) + ";" + PrintAll(commands[1..])
  }

  lemma QuotedStep(c: char, s: string, quote: char, escape: bool, acc: string)
    requires c != NUL && c != quote
    ensures Quoted([c] + s, quote, escape, acc)
            == if escape then Quoted(s, quote, false, acc + Unescape(c))
               else if c == '\\' then Quoted(s, quote, true, acc)
               else Quoted(s, quote, false, acc + [c])
  {
    assert ([c] + s)[1..] == s;
  }

  lemma QuotedChar(c: char, s: string, quote: char, acc: string)
    requires IsQuote(quote) && c != quote
    ensures Quoted(EscapedChar(c) + s, quote, false, acc) == Quoted(s, quote, false, acc + [c])
  {
    if c == '\\' || c == NUL {
      var code := if c == NUL then '0' else '\\';
      assert EscapedChar(c) + s == ['\\'] + ([code] + s);
      QuotedStep('\\', [code] + s, quote, false, acc);
      QuotedStep(code, s, quote, true, acc);
    } else {
      QuotedStep(c, s, quote, false, acc);
    }
  }

  lemma {:induction false} QuotedRoundTrip(a: string, quote: char, acc: string, rest: string)
    requires IsQuote(quote) && quote !in a
    ensures Quoted(Escaped(a) + ([quote] + rest), quote, false, acc) == (acc + a, rest)
    decreases |a|
  {
    var closing := [quote] + rest;
    if a == "" {
      assert Escaped(a) + closing == closing && closing[1..] == rest && acc + a == acc;
    } else {
      Regroup(EscapedChar(a[0]), Escaped(a[1..]), closing, []);
      QuotedChar(a[0], Escaped(a[1..]) + closing, quote, acc);
      QuotedRoundTrip(a[1..], quote, acc + [a[0]], rest);
      assert acc + [a[0]] + a[1..] == acc + a;
    }
  }

  /** Where a bare word stops. */
  predicate Stops(rest: string) {
    Ended(rest) || IsWhite(rest[0]) || rest[0] == ';'
  }

  lemma WordStep(c: char, s: string, escape: bool, acc: string)
    ensures var escape' := !escape && c == '\\';
            var acc' := if escape' then acc else acc + [c];
            Word([c] + s, escape, acc)
            == if !Ended(s) && !IsWhite(s[0]) && (escape' || s[0] != ';') then Word(s, escape', acc') else (acc', s)
  {
    assert ([c] + s)[1..] == s;
  }

  /** The first character of what a bare argument is followed by, or starts with. */
  lemma BareFirst(a: string, rest: string)
    requires a != "" && Unspaced(a)
    ensures var s := Bare(a) + rest;
            && s == (if a[0] == '\\' || a[0] == ';' then ['\\'] + ([a[0]] + (Bare(a[1..]) + rest))
                     else [a[0]] + (Bare(a[1..]) + rest))
            && !Ended(s) && !IsWhite(s[0]) && s[0] != ';'
  {
    var later := Bare(a[1..]);
    if a[0] == '\\' || a[0] == ';' {
      Regroup(['\\'], [a[0]], later, rest);
      assert Bare(a) == ['\\', a[0]] + later == ['\\'] + [a[0]] + later;
    } else {
      Regroup([a[0]], later, rest, []);
    }
  }

  /** One character of a bare word, behind its backslash if it needs one. */
  lemma WordChar(c: char, later: string, acc: string)
    requires c != NUL && !IsWhite(c)
    ensures Word(if c == '\\' || c == ';' then ['\\'] + ([c] + later) else [c] + later, false, acc)
            == if Stops(later) then (acc + [c], later) else Word(later, false, acc + [c])
  {
    if c == '\\' || c == ';' {
      WordStep('\\', [c] + later, false, acc);
      WordStep(c, later, true, acc);
    } else {
      WordStep(c, later, false, acc);
    }
  }

  lemma BareStep(a: string, acc: string, rest: string)
    requires a != "" && Unspaced(a)
    ensures var later := Bare(a[1..]) + rest;
            Word(Bare(a) + rest, false, acc)
            == if Stops(later) then (acc + [a[0]], later) else Word(later, false, acc + [a[0]])
  {
    BareFirst(a, rest);
    WordChar(a[0], Bare(a[1..]) + rest, acc);
  }

  lemma MoveFirst(acc: string, a: string)
    requires a != ""
    ensures acc + [a[0]] + a[1..] == acc + a
  {
    Regroup(acc, [a[0]], a[1..], []);
    assert a == [a[0]] + a[1..];
  }

  lemma {:induction false} WordRoundTrip(a: string, acc: string, rest: string)
    requires a != "" && Unspaced(a) && Stops(rest)
    ensures Word(Bare(a) + rest, false, acc) == (acc + a, rest)
    decreases |a|
  {
    var later, acc' := a[1..], acc + [a[0]];
    BareStep(a, acc, rest);
    MoveFirst(acc, a);
    if later == "" {
      assert Bare(later) + rest == rest && acc' + later == acc';
    } else {
      BareFirst(later, rest);
      WordRoundTrip(later, acc', rest);
    }
  }

  lemma QuotedArg(a: string, quote: char, rest: string, args: seq<string>)
    requires IsQuote(quote) && quote !in a
    ensures Commands([quote] + Escaped(a) + [quote] + rest, false, args) == Commands(rest, false, args + [a])
  {
    var s := [quote] + Escaped(a) + [quote] + rest;
    assert s[0] == quote && s[1..] == Escaped(a) + ([quote] + rest);
    QuotedRoundTrip(a, quote, "", rest);
    assert "" + a == a;
  }

  lemma BareArg(a: string, rest: string, args: seq<string>)
    requires a != "" && Unspaced(a) && Stops(rest)
    ensures Commands("\\" + Bare(a) + rest, false, args) == Commands(rest, false, args + [a])
  {
    var t := Bare(a) + rest;
    assert ("\\" + Bare(a) + rest)[1..] == t;
    BareFirst(a, rest);
    WordRoundTrip(a, "", rest);
    assert "" + a == a;
  }

  lemma ArgRoundTrip(a: string, rest: string, args: seq<string>)
    requires Expressible(a) && Stops(rest)
    ensures Commands(PrintArg(a) + rest, false, args) == Commands(rest, false, args + [a])
  {
    if '"' !in a {
      QuotedArg(a, '"', rest, args);
    } else if '\'' !in a {
      QuotedArg(a, '\'', rest, args);
    } else {
      BareArg(a, rest, args);
    }
  }

  lemma ArgThenSpace(a: string, later: string, args: seq<string>)
    requires Expressible(a)
    ensures Commands(PrintArg(a) + (" " + later), false, args) == Commands(later, false, args + [a])
  {
    ArgRoundTrip(a, " " + later, args);
    SpaceIgnored(later, false, args + [a]);
  }

  lemma PrintFirst(args: seq<string>, rest: string)
    requires args != []
    ensures PrintArgs(args) + rest == PrintArg(args[0]) + (" " + (PrintArgs(args[1..]) + rest))
  {
    Regroup(PrintArg(args[0]), " ", PrintArgs(args[1..]), rest);
  }

  lemma {:induction false} ArgsRoundTrip(more: seq<string>, rest: string, args: seq<string>)
    requires AllExpressible(more)
    ensures Commands(PrintArgs(more) + rest, false, args) == Commands(rest, false, args + more)
    decreases |more|
  {
    if more == [] {
      assert PrintArgs(more) + rest == rest && args + more == args;
    } else {
      var first, later := more[0], more[1..];
      assert args + more == args + [first] + later;
      PrintFirst(more, rest);
      ArgThenSpace(first, PrintArgs(later) + rest, args);
      ArgsRoundTrip(later, rest, args + [first]);
    }
  }

  /** One command, printed, is one argument list. */
  lemma CommandRoundTrip(args: seq<string>)
    requires AllExpressible(args) && args != []
    ensures Dispatches(PrintArgs(args)) == [args]
  {
    ArgsRoundTrip(args, "", []);
    assert PrintArgs(args) + "" == PrintArgs(args) && [] + args == args;
    AtEnd("", false, args);
  }

  predicate Printable(commands: seq<seq<string>>) {
    forall i :: 0 <= i < |commands| ==> commands[i] != [] && AllExpressible(commands[i])
  }

  lemma Semicolon(s: string, args: seq<string>)
    ensures Commands(";" + s, false, args) == Flush(args) + Commands(s, false, [])
  {
    assert (";" + s)[1..] == s;
  }

  /** Printing a list of commands and tokenizing the text dispatches exactly that list. */
  lemma {:induction false} TokenizerRoundTrip(commands: seq<seq<string>>)
    requires Printable(commands)
    ensures Dispatches(PrintAll(commands)) == commands
    decreases |commands|
  {
    if commands != [] {
      var later := PrintAll(commands[1..]);
      assert PrintAll(commands) == PrintArgs(commands[0]) + (";" + later);
      ArgsRoundTrip(commands[0], ";" + later, []);
      assert [] + commands[0] == commands[0];
      Semicolon(later, commands[0]);
      TokenizerRoundTrip(commands[1..]);
    }
  }

  lemma {:induction false} QuotedLacksQuote(s: string, quote: char, escape: bool, acc: string)
    requires IsQuote(quote) && quote !in acc
    ensures quote !in Quoted(s, quote, escape, acc).0
    decreases |s|
  {
    if !Ended(s) && s[0] != quote {
      if escape {
        QuotedLacksQuote(s[1..], quote, false, acc + Unescape(s[0]));
      } else if s[0] == '\\' {
        QuotedLacksQuote(s[1..], quote, true, acc);
      } else {
        QuotedLacksQuote(s[1..], quote, false, acc + [s[0]]);
      }
    }
  }

  lemma {:induction false} WordUnspaced(s: string, escape: bool, acc: string)
    requires !Ended(s) && !IsWhite(s[0]) && Unspaced(acc)
    ensures Unspaced(Word(s, escape, acc).0)
    decreases |s|
  {
    var escape' := !escape && s[0] == '\\';
    var acc' := if escape' then acc else acc + [s[0]];
    var s' := s[1..];
    if !Ended(s') && !IsWhite(s'[0]) && (escape' || s'[0] != ';') {
      WordUnspaced(s', escape', acc');
    }
  }

  lemma {:induction false} CommandsPrintable(s: string, escape: bool, args: seq<string>)
    requires AllExpressible(args)
    ensures Printable(Commands(s, escape, args))
    decreases |s|
  {
    var t := SkipWhite(s);
    if Ended(t) {
    } else if !escape && t[0] == '\\' {
      CommandsPrintable(t[1..], true, args);
    } else if !escape && t[0] == ';' {
      CommandsPrintable(t[1..], false, []);
    } else if !escape && IsQuote(t[0]) {
      var (arg, rest) := Quoted(t[1..], t[0], false, "");
      QuotedLacksQuote(t[1..], t[0], false, "");
      CommandsPrintable(rest, false, args + [arg]);
    } else {
      var (arg, rest) := Word(t, false, "");
      WordUnspaced(t, false, "");
      CommandsPrintable(rest, false, args + [arg]);
    }
  }

  /** Exactly the lists of non-empty commands with expressible arguments have a text. */
  lemma Expressiveness(commands: seq<seq<string>>)
    ensures (exists text :: Dispatches(text) == commands) <==> Printable(commands)
  {
    if Printable(commands) {
      TokenizerRoundTrip(commands);
    }
    forall text | Dispatches(text) == commands
      ensures Printable(commands)
    {
      CommandsPrintable(text, false, []);
    }
  }
}
