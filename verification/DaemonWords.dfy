/** The spellings of the commands: what each argument list asks for, and each text with it. */
module DaemonWords {
  import opened Bytes
  import opened Tokenizer
  import opened Replay
  import opened Numbers
  import opened DaemonState

  // ----- words in any case -----

  /** A word as it is written here, or with capital letters; a NUL ends the text. */
  predicate Alike(s: string, word: string) {
    && |word| <= |s| && (|s| == |word| || s[|word|] == '\0')
    && forall i :: 0 <= i < |word| ==>
         s[i] == word[i] || ('a' <= word[i] <= 'z' && s[i] as int == word[i] as int - 32)
  }

  const YES: seq<string> := ["1", "on", "yes", "true"]
  const NO: seq<string> := ["0", "no", "off", "false"]

  predicate AnyOf(s: string, words: seq<string>) {
    exists k :: 0 <= k < |words| && Alike(s, words[k])
  }

  predicate Small(word: string) {
    forall i :: 0 <= i < |word| ==> 'a' <= word[i] <= 'z' || '0' <= word[i] <= '9'
  }

  /** The bounded comparison used for whole texts. */
  lemma {:induction false} SameIsAlike(s: string, word: string, n: nat)
    requires Small(word) && n > |word|
    ensures SameUpTo(s, word, n) <==> Alike(s, word)
    decreases |word|
  {
    if word != "" && s != "" {
      var s', word' := s[1..], word[1..];
      SameIsAlike(s', word', n - 1);
      AlikeFirst(s, word);
    }
  }

  lemma AlikeFirst(s: string, word: string)
    requires word != "" && s != ""
    ensures Alike(s, word)
            <==> (s[0] == word[0] || ('a' <= word[0] <= 'z' && s[0] as int == word[0] as int - 32))
                 && Alike(s[1..], word[1..])
  {
    var s', word' := s[1..], word[1..];
    if Alike(s', word') {
      assert forall i :: 0 < i < |word| ==> s[i] == s'[i - 1] && word[i] == word'[i - 1];
    }
    if Alike(s, word) {
      assert forall i :: 0 <= i < |word'| ==> s'[i] == s[i + 1] && word'[i] == word[i + 1];
    }
  }

  lemma SameTextIsAlike(s: string, word: string)
    requires Small(word)
    ensures SameText(s, word) <==> Alike(s, word)
  {
    SameIsAlike(s, word, |s| + |word| + 1);
  }

  /** No text is like two words. */
  lemma AlikeOnce(s: string, a: string, b: string)
    requires Small(a) && Small(b) && Alike(s, a) && Alike(s, b)
    ensures a == b
  {
    assert At(s, |a|) == At(s, |b|) == '\0';
    assert forall i :: 0 <= i < |a| ==> a[i] == b[i];
  }

  /** What a text says as a boolean: one of four words for each. */
  predicate SaysBool(s: string, on: Option<bool>) {
    match on
    case Some(true) => AnyOf(s, YES)
    case Some(false) => AnyOf(s, NO)
    case None => !AnyOf(s, YES) && !AnyOf(s, NO)
  }

  predicate AllSmall(words: seq<string>) {
    forall k :: 0 <= k < |words| ==> Small(words[k])
  }

  lemma FourWords(s: string, words: seq<string>)
    requires |words| == 4 && AllSmall(words)
    ensures AnyOf(s, words)
            <==> SameText(s, words[0]) || SameText(s, words[1]) || SameText(s, words[2]) || SameText(s, words[3])
  {
    forall k | 0 <= k < 4
      ensures SameText(s, words[k]) <==> Alike(s, words[k])
    {
      SameTextIsAlike(s, words[k]);
    }
  }

  lemma WordsApart()
    ensures AllSmall(YES) && AllSmall(NO)
    ensures forall j, k :: 0 <= j < 4 && 0 <= k < 4 ==> YES[j] != NO[k]
  {
    assert YES[0] == "1" && YES[1] == "on" && YES[2] == "yes" && YES[3] == "true";
    assert NO[0] == "0" && NO[1] == "no" && NO[2] == "off" && NO[3] == "false";
    assert YES[0][0] == '1' && YES[1][0] == 'o' && YES[2][0] == 'y' && YES[3][0] == 't';
    assert YES[1][1] == 'n' && NO[2][1] == 'f';
  }

  lemma NotBoth(s: string)
    ensures !(AnyOf(s, YES) && AnyOf(s, NO))
  {
    WordsApart();
    if j, k :| 0 <= j < 4 && 0 <= k < 4 && Alike(s, YES[j]) && Alike(s, NO[k]) {
      AlikeOnce(s, YES[j], NO[k]);
    }
  }

  lemma BoolExact(s: string, on: Option<bool>)
    ensures ParseBool(s) == on <==> SaysBool(s, on)
  {
    WordsApart();
    FourWords(s, YES);
    FourWords(s, NO);
    NotBoth(s);
  }

  /** What a text says as a switch: a boolean, `toggle`, or nothing known. */
  predicate SaysSwitch(s: string, switching: Switching) {
    match switching
    case Set(on) => SaysBool(s, Some(on))
    case Toggle => SaysBool(s, None) && Alike(s, "toggle")
    case Unknown => SaysBool(s, None) && !Alike(s, "toggle")
  }

  lemma SwitchExact(s: string, switching: Switching)
    ensures ParseSwitching(s) == switching <==> SaysSwitch(s, switching)
  {
    BoolExact(s, Some(true));
    BoolExact(s, Some(false));
    BoolExact(s, None);
    SameTextIsAlike(s, "toggle");
  }

  // ----- the spellings -----

  /** The character codes of a text, as bytes. */
  ghost predicate Codes(s: string, bytes: seq<byte>) {
    |bytes| == |s| && forall i :: 0 <= i < |s| ==> bytes[i] == s[i] as int % 256
  }

  lemma CodesExact(s: string, bytes: seq<byte>)
    ensures ToBytes(s) == bytes <==> Codes(s, bytes)
  {}

  /** An argument list spells an action. */
  ghost predicate Spells(args: seq<string>, action: Action) {
    match action
    case Nothing => args == [] || args[0] == "nop"
    case InputAdd(name) => |args| == 4 && args[..3] == ["device", "add", name]
    case InputRemove(name) => args == ["device", "remove", name]
    case InputRename(name, to) => |args| == 4 && args[..3] == ["device", "rename", name] && Codes(args[3], to)
    case InputResetName(name) => args == ["device", "reset-name", name]
    case InputPersist(name, on) =>
      |args| == 4 && args[..3] == ["device", "set-persistent", name] && SaysBool(args[3], on)
    case OutputAdd(name, resume) =>
      if resume then |args| >= 5 && args[..4] == ["output", "add", "--resume", name]
      else |args| >= 4 && args[..3] == ["output", "add", name] && name != "--resume"
    case OutputRemove(name) => args == ["output", "remove", name]
    case OutputUse(name) => args == ["output", "use", name] || args == ["use", name]
    case HotkeyAdd(name, spec, text) =>
      && |args| >= 5 && args[..3] == ["hotkey", "add", name] && spec == ParseSpec(args[3])
      && text == CStr(JoinFrom("", ' ', args[4..]))
    case HotkeyRemove(name, spec) =>
      |args| == 4 && args[..3] == ["hotkey", "remove", name] && spec == ParseSpec(args[3])
    case WriteEvents(switching) => |args| == 2 && args[0] == "write-events" && SaysSwitch(args[1], switching)
    case Grab(switching) => |args| == 2 && args[0] == "grab" && SaysSwitch(args[1], switching)
    case Quit => args != [] && args[0] == "quit"
    case Outside => args != [] && SpellsOutside(args)
    case Malformed => false
  }

  ghost predicate SpellsOutside(args: seq<string>)
    requires args != []
  {
    || args[0] == "info"
    || ((args[0] == "exec" || args[0] == "exec&") && |args| >= 2)
    || (args[0] == "source" && |args| == 2)
    || (args[0] == "grab-devices" && |args| == 2 && !SaysSwitch(args[1], Unknown))
    || (|args| == 3 && args[..2] == ["action", "remove"])
    || (|args| >= 4 && args[..2] == ["action", "set"])
  }

  lemma Prefixed(args: seq<string>, a: string, b: string, c: string)
    requires |args| >= 3
    ensures args[..3] == [a, b, c] <==> args[0] == a && args[1] == b && args[2] == c
    ensures args == [a, b, c] <==> |args| == 3 && args[0] == a && args[1] == b && args[2] == c
  {
    var front := args[..3];
    assert front[0] == args[0] && front[1] == args[1] && front[2] == args[2];
  }

  lemma PrefixedTwo(args: seq<string>, a: string, b: string)
    requires |args| >= 2
    ensures args[..2] == [a, b] <==> args[0] == a && args[1] == b
    ensures args == [a, b] <==> |args| == 2 && args[0] == a && args[1] == b
  {
    var front := args[..2];
    assert front[0] == args[0] && front[1] == args[1];
  }

  lemma PrefixedFour(args: seq<string>, a: string, b: string, c: string, d: string)
    requires |args| >= 4
    ensures args[..4] == [a, b, c, d] <==> args[0] == a && args[1] == b && args[2] == c && args[3] == d
  {
    var front := args[..4];
    assert front[0] == args[0] && front[1] == args[1] && front[2] == args[2] && front[3] == args[3];
  }

  predicate OfDevices(action: Action) {
    action.InputAdd? || action.InputRemove? || action.InputRename? || action.InputResetName? || action.InputPersist?
  }

  predicate OfOutputs(action: Action) {
    action.OutputAdd? || action.OutputRemove? || action.OutputUse?
  }

  predicate OfHotkeys(action: Action) {
    action.HotkeyAdd? || action.HotkeyRemove?
  }

  lemma DeviceExact(args: seq<string>, action: Action)
    requires args != [] && args[0] == "device" && OfDevices(action)
    ensures DeviceAction(args) == action <==> Spells(args, action)
  {
    if |args| >= 3 {
      match action
      case InputAdd(name) => Prefixed(args, "device", "add", name);
      case InputRemove(name) => Prefixed(args, "device", "remove", name);
      case InputRename(name, to) =>
        Prefixed(args, "device", "rename", name);
        if |args| == 4 {
          CodesExact(args[3], to);
        }
      case InputResetName(name) => Prefixed(args, "device", "reset-name", name);
      case InputPersist(name, on) =>
        Prefixed(args, "device", "set-persistent", name);
        if |args| == 4 {
          BoolExact(args[3], on);
        }
    }
  }

  lemma OutputExact(args: seq<string>, action: Action)
    requires args != [] && args[0] == "output" && OfOutputs(action)
    ensures OutputAction(args) == action <==> Spells(args, action)
  {
    if |args| >= 3 {
      match action
      case OutputAdd(name, resume) =>
        Prefixed(args, "output", "add", name);
        if |args| >= 4 {
          PrefixedFour(args, "output", "add", "--resume", name);
        }
      case OutputRemove(name) => Prefixed(args, "output", "remove", name);
      case OutputUse(name) => Prefixed(args, "output", "use", name);
    }
  }

  lemma HotkeyExact(args: seq<string>, action: Action)
    requires args != [] && args[0] == "hotkey" && OfHotkeys(action)
    ensures HotkeyAction(args) == action <==> Spells(args, action)
  {
    if |args| >= 3 {
      match action
      case HotkeyAdd(name, spec, text) => Prefixed(args, "hotkey", "add", name);
      case HotkeyRemove(name, spec) => Prefixed(args, "hotkey", "remove", name);
    }
  }

  /** The first word of every spelling. */
  lemma FirstWord(args: seq<string>, action: Action)
    requires Spells(args, action) && args != []
    ensures OfDevices(action) ==> args[0] == "device"
    ensures OfOutputs(action) ==> args[0] == "output" || (args[0] == "use" && action.OutputUse?)
    ensures OfHotkeys(action) ==> args[0] == "hotkey"
  {
    if OfDevices(action) || OfHotkeys(action) || action.OutputRemove? || action.OutputAdd? {
      assert |args| >= 3;
      assert args[..3][0] == args[0];
      if action.OutputAdd? && action.resume {
        assert args[..4][0] == args[0];
      }
    }
  }

  lemma GroupsExact(args: seq<string>, action: Action)
    requires args != [] && args[0] in ["device", "output", "hotkey"]
    requires OfDevices(action) || OfOutputs(action) || OfHotkeys(action)
    ensures Interpret(args) == action <==> Spells(args, action)
  {
    if Spells(args, action) {
      FirstWord(args, action);
    }
    if OfDevices(action) && args[0] == "device" {
      DeviceExact(args, action);
    } else if OfOutputs(action) && args[0] == "output" {
      OutputExact(args, action);
    } else if OfHotkeys(action) && args[0] == "hotkey" {
      HotkeyExact(args, action);
    } else {
      OtherGroup(args, action);
    }
  }

  lemma OtherGroup(args: seq<string>, action: Action)
    requires args != []
    requires OfDevices(action) ==> args[0] != "device"
    requires OfOutputs(action) ==> args[0] != "output" && (args[0] == "use" ==> !action.OutputUse?)
    requires OfHotkeys(action) ==> args[0] != "hotkey"
    requires OfDevices(action) || OfOutputs(action) || OfHotkeys(action)
    ensures Interpret(args) != action
  {}

  lemma ShortUseExact(args: seq<string>, name: string)
    requires args != [] && args[0] == "use"
    ensures Interpret(args) == OutputUse(name) <==> Spells(args, OutputUse(name))
  {
    if |args| >= 2 {
      PrefixedTwo(args, "use", name);
    }
    if |args| >= 3 {
      Prefixed(args, "output", "use", name);
    }
  }

  lemma SwitchesExact(args: seq<string>, action: Action)
    requires args != [] && (action.WriteEvents? || action.Grab?)
    ensures Interpret(args) == action <==> Spells(args, action)
  {
    if |args| == 2 {
      SwitchExact(args[1], action.switching);
    }
  }

  lemma OutsideExact(args: seq<string>)
    requires args != []
    ensures Interpret(args) == Outside <==> Spells(args, Outside)
  {
    if |args| >= 2 {
      SwitchExact(args[1], Unknown);
    }
    ActionSpelt(args);
  }

  lemma ActionSpelt(args: seq<string>)
    requires args != []
    ensures (|args| == 3 && args[..2] == ["action", "remove"]) || (|args| >= 4 && args[..2] == ["action", "set"])
            <==> args[0] == "action" && |args| >= 3
                 && ((args[1] == "remove" && |args| == 3) || (args[1] == "set" && |args| >= 4))
  {
    if |args| >= 2 {
      PrefixedTwo(args, "action", "remove");
      PrefixedTwo(args, "action", "set");
    }
  }

  /** Every spelling is interpreted as its action, and nothing else is. */
  lemma InterpretExact(args: seq<string>, action: Action)
    requires !action.Malformed?
    ensures Interpret(args) == action <==> Spells(args, action)
  {
    if args == [] {
      assert !Spells(args, Outside);
    } else if action.WriteEvents? || action.Grab? {
      SwitchesExact(args, action);
    } else if action.Outside? {
      OutsideExact(args);
    } else if action.Nothing? || action.Quit? {
    } else if args[0] in ["device", "output", "hotkey"] {
      GroupsExact(args, action);
    } else if action.OutputUse? && args[0] == "use" {
      ShortUseExact(args, action.name);
    } else {
      if Spells(args, action) {
        FirstWord(args, action);
      }
      OtherGroup(args, action);
    }
  }

  /** What spells no action is an error. */
  lemma MalformedExact(args: seq<string>)
    ensures Interpret(args) == Malformed <==> forall action :: !Spells(args, action)
  {
    if Interpret(args) != Malformed {
      InterpretExact(args, Interpret(args));
    }
    forall action | Spells(args, action)
      ensures Interpret(args) != Malformed
    {
      InterpretExact(args, action);
    }
  }

  // ----- texts -----

  /** A text that prints a spelling has its action executed, and is answered. */
  lemma TextRuns(w: World, st: State, client: int, args: seq<string>, action: Action)
    requires args != [] && AllExpressible(args) && Spells(args, action)
    ensures RunAll(w, st, client, Dispatches(PrintArgs(args))) == Reply(w, Exec(w, st, action).state, client)
  {
    CommandRoundTrip(args);
    InterpretExact(args, action);
    RunsOne(w, st, client, args);
  }

  lemma RunsOne(w: World, st: State, client: int, args: seq<string>)
    ensures RunAll(w, st, client, [args]) == Reply(w, Exec(w, st, Interpret(args)).state, client)
  {
    var done := Exec(w, st, Interpret(args));
    assert [args][1..] == [];
    assert RunAll(w, Reply(w, done.state, client), client, []) == Reply(w, done.state, client);
  }

  /** All of these argument lists are executed. */
  predicate AllSucceed(w: World, st: State, client: int, lists: seq<seq<string>>)
    decreases |lists|
  {
    lists == []
    || var done := Exec(w, st, Interpret(lists[0]));
       done.ok && AllSucceed(w, Reply(w, done.state, client), client, lists[1..])
  }

  lemma {:induction false} RunAllSplit(w: World, st: State, client: int, lists: seq<seq<string>>, k: nat)
    requires k <= |lists| && AllSucceed(w, st, client, lists[..k])
    ensures RunAll(w, st, client, lists) == RunAll(w, RunAll(w, st, client, lists[..k]), client, lists[k..])
    decreases k
  {
    if k == 0 {
      assert lists[0..] == lists;
    } else {
      assert lists[..k][1..] == lists[1..][..k - 1] && lists[1..][k - 1..] == lists[k..] && lists[..k][0] == lists[0];
      var done := Exec(w, st, Interpret(lists[0]));
      RunAllSplit(w, Reply(w, done.state, client), client, lists[1..], k - 1);
    }
  }

  /** An error ends a text: the list that fails is answered, and nothing after it is executed. */
  lemma ErrorEndsText(w: World, st: State, client: int, lists: seq<seq<string>>, k: nat)
    requires k < |lists| && AllSucceed(w, st, client, lists[..k])
    requires !Exec(w, RunAll(w, st, client, lists[..k]), Interpret(lists[k])).ok
    ensures var mid := RunAll(w, st, client, lists[..k]);
            RunAll(w, st, client, lists) == Reply(w, Exec(w, mid, Interpret(lists[k])).state, client)
  {
    RunAllSplit(w, st, client, lists, k);
  }
}
