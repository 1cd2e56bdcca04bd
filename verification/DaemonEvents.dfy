/** What becomes of events: hotkeys from the command that adds them to the commands they stand for, and
    the output that was chosen. */
module DaemonEvents {
  import opened Bytes
  import opened Devices
  import opened Protocol
  import opened Tokenizer
  import opened Replay
  import opened Numbers
  import opened DaemonState
  import opened DaemonInvariant
  import opened DaemonWords
  import opened DaemonCommands

  // ----- one event -----

  /** The hotkey an event of a device is looked up as. */
  function KeyOf(id: u16, e: InputEvent): HotkeyDef {
    HotkeyDef(id, HotkeySpec(e.kind, e.code, e.value))
  }

  /** An event whose device, type, code and value are those of a hotkey queues its text for no client,
      and does nothing else. */
  lemma HotkeyFires(w: World, st: State, id: u16, e: InputEvent)
    requires e.kind < 0x20 && KeyOf(id, e) in st.hotkeys
    ensures RouteEvent(w, st, id, e)
            == st.(clock := st.clock + 1,
                   seen := st.seen + [Sighting(id, e, st.current, st.writing, true)],
                   commands := st.commands + [Command(-1, st.hotkeys[KeyOf(id, e)])])
  {}

  /** An output an event was written to. */
  function Sent(o: Output, id: u16, e: InputEvent, ok: bool): Output {
    o.(broken := o.broken || !ok, log := if ok && !o.broken then o.log + [Event(id, e)] else o.log)
  }

  /** A state in which an event was noted that is no hotkey. */
  function Noted(st: State, id: u16, e: InputEvent): State {
    st.(clock := st.clock + 1, seen := st.seen + [Sighting(id, e, st.current, st.writing, false)])
  }

  /** The event was written to the outputs with a descriptor, or could not be, and to no other. */
  ghost predicate WrittenTo(outputs: seq<Output>, fd: int, id: u16, e: InputEvent, ok: bool, outputs': seq<Output>) {
    |outputs'| == |outputs|
    && forall k :: 0 <= k < |outputs| ==>
         outputs'[k] == if outputs[k].fd == fd then Sent(outputs[k], id, e, ok) else outputs[k]
  }

  /** Any other event queues nothing; it goes to the output that is current while writing is on, and is
      dropped otherwise; if it cannot be written the output waits for removal and none is current. */
  lemma OtherEvent(w: World, st: State, id: u16, e: InputEvent)
    requires Inv(st) && (e.kind < 0x20 ==> KeyOf(id, e) !in st.hotkeys)
    ensures var r := RouteEvent(w, st, id, e);
            if st.current == -1 || !st.writing then r == Noted(st, id, e)
            else
              && WrittenTo(st.outputs, st.current, id, e, w.writes(st.clock, st.current), r.outputs)
              && (if w.writes(st.clock, st.current) then r == Noted(st, id, e).(outputs := r.outputs)
                  else
                    && r == Noted(st, id, e).(outputs := r.outputs, removeQueue := r.removeQueue,
                                              current := -1, currentName := "<none>", writing := false)
                    && NowQueued(st.removeQueue, st.current, r.removeQueue))
  {
    CurrentOpen(st);
    if st.current != -1 && st.writing {
      EventWritten(w, st, id, e);
    }
  }

  lemma CurrentOpen(st: State)
    requires Inv(st)
    ensures st.current == -1 || (st.current >= 0 && st.current in st.callbacks)
  {
    if st.current != -1 {
      var k :| 0 <= k < |st.outputs| && st.outputs[k].fd == st.current && st.outputs[k].name == st.currentName;
      OutputOpen(st, k);
    }
  }

  lemma EventWritten(w: World, st: State, id: u16, e: InputEvent)
    requires st.current >= 0 && st.writing && (e.kind < 0x20 ==> KeyOf(id, e) !in st.hotkeys)
    ensures var r := RouteEvent(w, st, id, e);
            && WrittenTo(st.outputs, st.current, id, e, w.writes(st.clock, st.current), r.outputs)
            && (if w.writes(st.clock, st.current) then r == Noted(st, id, e).(outputs := r.outputs)
                else
                  && r == Noted(st, id, e).(outputs := r.outputs, removeQueue := r.removeQueue,
                                            current := -1, currentName := "<none>", writing := false)
                  && NowQueued(st.removeQueue, st.current, r.removeQueue))
  {}

  /** What is read from an input is treated as coming from the device with its id. */
  lemma EventRead(w: World, st: State, k: nat, e: InputEvent)
    requires Inv(st) && !st.quit && k < |st.inputs| && w.events(st.clock) == Some(e)
    ensures PollOne(w, st, st.inputs[k].fd, Revents(false, false, true)) == RouteEvent(w, st, st.inputs[k].id, e)
  {
    InputOpen(st, k);
  }

  // ----- hotkeys over operations -----

  /** After `hotkey add`, the events of its device that match queue its text; for all others nothing is
      changed. */
  lemma HotkeyAdded(w: World, st: State, name: string, spec: HotkeySpec, text: string) returns (k: nat)
    requires Exec(w, st, HotkeyAdd(name, Some(spec), text)).ok && spec.kind < 0x20
    ensures InputCalled(st.inputs, k, name)
    ensures var st' := Exec(w, st, HotkeyAdd(name, Some(spec), text)).state;
            forall id, e :: RouteEvent(w, st', id, e).commands
                            == if KeyOf(id, e) == HotkeyDef(st.inputs[k].id, spec)
                               then st.commands + [Command(-1, text)] else RouteEvent(w, st, id, e).commands
  {
    HotkeyAddExact(w, st, name, Some(spec), text);
    var st' := Exec(w, st, HotkeyAdd(name, Some(spec), text)).state;
    k :| InputCalled(st.inputs, k, name)
         && st' == st.(hotkeys := st.hotkeys[HotkeyDef(st.inputs[k].id, spec) := text]);
    forall id, e
      ensures RouteEvent(w, st', id, e).commands
              == if KeyOf(id, e) == HotkeyDef(st.inputs[k].id, spec) then st.commands + [Command(-1, text)]
                 else RouteEvent(w, st, id, e).commands
    {
      QueuedCommands(w, st, id, e);
      QueuedCommands(w, st', id, e);
    }
  }

  lemma QueuedCommands(w: World, st: State, id: u16, e: InputEvent)
    ensures RouteEvent(w, st, id, e).commands
            == if e.kind < 0x20 && KeyOf(id, e) in st.hotkeys then st.commands + [Command(-1, st.hotkeys[KeyOf(id, e)])]
               else st.commands
  {}

  /** After `hotkey remove` they queue nothing, and for all others nothing is changed. */
  lemma HotkeyRemoved(w: World, st: State, name: string, spec: HotkeySpec) returns (k: nat)
    requires Exec(w, st, HotkeyRemove(name, Some(spec))).ok
    ensures InputCalled(st.inputs, k, name)
    ensures var st' := Exec(w, st, HotkeyRemove(name, Some(spec))).state;
            forall id, e :: RouteEvent(w, st', id, e).commands
                            == if KeyOf(id, e) == HotkeyDef(st.inputs[k].id, spec) then st.commands
                               else RouteEvent(w, st, id, e).commands
  {
    HotkeyRemoveExact(w, st, name, Some(spec));
    var st' := Exec(w, st, HotkeyRemove(name, Some(spec))).state;
    k :| InputCalled(st.inputs, k, name) && st' == st.(hotkeys := st.hotkeys - {HotkeyDef(st.inputs[k].id, spec)});
    forall id, e
      ensures RouteEvent(w, st', id, e).commands
              == if KeyOf(id, e) == HotkeyDef(st.inputs[k].id, spec) then st.commands
                 else RouteEvent(w, st, id, e).commands
    {
      QueuedCommands(w, st, id, e);
      QueuedCommands(w, st', id, e);
    }
  }

  // ----- a hotkey from its text to its commands -----

  function HotkeyWords(name: string, def: string): seq<string> {
    ["hotkey", "add", name, def]
  }

  /** Somebody types `hotkey add`, a device, a definition and commands with `\;` between them. The next
      event of that device that matches queues one text, and running that text executes exactly those
      commands for no client. */
  lemma HotkeyEndToEnd(w: World, st: State, client: int, name: string, def: string, commands: seq<seq<string>>)
      returns (k: nat, stored: string, st': State)
    requires Inv(st) && (exists j :: InputCalled(st.inputs, j, name))
    requires Typeable(name) && Typeable(def) && ParseSpec(def).Some?
    requires commands != [] && PlainCommands(commands)
    ensures InputCalled(st.inputs, k, name)
    ensures var typed := Spaced(Typed(HotkeyWords(name, def) + Marked(commands[0], commands[1..])));
            st' == RunAll(w, st, client, Dispatches(typed))
    ensures && st'.hotkeys == st.hotkeys[HotkeyDef(st.inputs[k].id, ParseSpec(def).value) := stored]
            && st'.commands == st.commands && st'.inputs == st.inputs
            && forall e: InputEvent :: HotkeySpec(e.kind, e.code, e.value) == ParseSpec(def).value ==>
                 RouteEvent(w, st', st.inputs[k].id, e).commands == st.commands + [Command(-1, stored)]
    ensures Dispatches(stored) == commands
  {
    var words := Marked(commands[0], commands[1..]);
    WordsTypeable(name, def);
    stored := HotkeyStored(HotkeyWords(name, def), commands);
    k, st' := HotkeyTyped(w, st, client, name, def, words, stored);
    SpecInRange(def);
    MatchingQueues(w, st', st.inputs[k].id, ParseSpec(def).value);
  }

  lemma MatchingQueues(w: World, st: State, id: u16, spec: HotkeySpec)
    requires spec.kind < 0x20 && HotkeyDef(id, spec) in st.hotkeys
    ensures forall e: InputEvent :: HotkeySpec(e.kind, e.code, e.value) == spec ==>
              RouteEvent(w, st, id, e).commands == st.commands + [Command(-1, st.hotkeys[HotkeyDef(id, spec)])]
  {
    forall e: InputEvent | HotkeySpec(e.kind, e.code, e.value) == spec
      ensures RouteEvent(w, st, id, e).commands == st.commands + [Command(-1, st.hotkeys[HotkeyDef(id, spec)])]
    {
      QueuedCommands(w, st, id, e);
    }
  }

  lemma WordsTypeable(name: string, def: string)
    requires Typeable(name) && Typeable(def)
    ensures AllTypeable(HotkeyWords(name, def))
  {
    assert Typeable("hotkey") && Typeable("add");
  }

  lemma HotkeyStored(head: seq<string>, commands: seq<seq<string>>) returns (stored: string)
    requires AllTypeable(head) && commands != [] && PlainCommands(commands)
    ensures var words := Marked(commands[0], commands[1..]);
            && Dispatches(Spaced(Typed(head + words))) == [head + words]
            && stored == CStr(JoinFrom("", ' ', words)) && Dispatches(stored) == commands
  {
    var words := Marked(commands[0], commands[1..]);
    StoreAndReplay(head, commands);
    assert (head + words)[|head|..] == words;
    stored := CStr(JoinFrom("", ' ', words));
    CutReplays(JoinFrom("", ' ', words));
  }

  lemma SpecInRange(def: string)
    requires ParseSpec(def).Some?
    ensures ParseSpec(def).value.kind < 0x20
  {}

  /** The typed list is a spelling of `hotkey add`. */
  lemma HotkeyTyped(w: World, st: State, client: int, name: string, def: string, words: seq<string>, stored: string)
      returns (k: nat, st': State)
    requires (exists j :: InputCalled(st.inputs, j, name)) && ParseSpec(def).Some? && words != []
    requires stored == CStr(JoinFrom("", ' ', words))
    ensures InputCalled(st.inputs, k, name)
    ensures st' == RunAll(w, st, client, [HotkeyWords(name, def) + words])
    ensures && st'.hotkeys == st.hotkeys[HotkeyDef(st.inputs[k].id, ParseSpec(def).value) := stored]
            && st'.commands == st.commands && st'.inputs == st.inputs
  {
    var args := HotkeyWords(name, def) + words;
    var action := HotkeyAdd(name, ParseSpec(def), stored);
    assert args[..3] == ["hotkey", "add", name] && args[3] == def && args[4..] == words;
    InterpretExact(args, action);
    RunsOne(w, st, client, args);
    HotkeyAddExact(w, st, name, ParseSpec(def), stored);
    var done := Exec(w, st, action).state;
    k :| InputCalled(st.inputs, k, name)
         && done == st.(hotkeys := st.hotkeys[HotkeyDef(st.inputs[k].id, ParseSpec(def).value) := stored]);
    ReplyExact(w, done, client);
    st' := Reply(w, done, client);
  }

  // ----- the chosen output -----

  /** After `output use`, with writing on, an event that is no hotkey is written to the output with that
      name and to no other. */
  lemma UsedOutputIsSent(w: World, st: State, name: string) returns (k: nat)
    requires Inv(st) && Exec(w, st, OutputUse(name)).ok && st.writing
    ensures OutputCalled(st.outputs, k, name)
    ensures var st' := Exec(w, st, OutputUse(name)).state;
            forall id, e: InputEvent :: (e.kind < 0x20 ==> KeyOf(id, e) !in st.hotkeys) ==>
              RouteEvent(w, st', id, e).outputs
              == st.outputs[k := Sent(st.outputs[k], id, e, w.writes(st.clock, st.outputs[k].fd))]
  {
    var st';
    k, st' := Chosen(w, st, name);
    forall id, e: InputEvent | e.kind < 0x20 ==> KeyOf(id, e) !in st.hotkeys
      ensures RouteEvent(w, st', id, e).outputs
              == st.outputs[k := Sent(st.outputs[k], id, e, w.writes(st.clock, st.outputs[k].fd))]
    {
      EventWritten(w, st', id, e);
      OnlyThat(st.outputs, RouteEvent(w, st', id, e).outputs, k, id, e, w.writes(st.clock, st.outputs[k].fd));
    }
  }

  lemma Chosen(w: World, st: State, name: string) returns (k: nat, st': State)
    requires Inv(st) && Exec(w, st, OutputUse(name)).ok
    ensures st' == Exec(w, st, OutputUse(name)).state == st.(current := st'.current, currentName := name)
    ensures OutputCalled(st.outputs, k, name) && st'.current == st.outputs[k].fd >= 0 && OutputsApart(st.outputs)
  {
    UseExact(w, st, name);
    st' := Exec(w, st, OutputUse(name)).state;
    k :| OutputCalled(st.outputs, k, name) && st' == st.(current := st.outputs[k].fd, currentName := name);
    OutputOpen(st, k);
  }

  lemma OnlyThat(outputs: seq<Output>, sent: seq<Output>, k: nat, id: u16, e: InputEvent, ok: bool)
    requires k < |outputs| && OutputsApart(outputs) && WrittenTo(outputs, outputs[k].fd, id, e, ok, sent)
    ensures sent == outputs[k := Sent(outputs[k], id, e, ok)]
  {
    assert forall j :: 0 <= j < |outputs| && j != k ==> outputs[j].fd != outputs[k].fd;
  }
}
