/** What each command does, said of the entry with the name it is given, and of everything else. */
module DaemonCommands {
  import opened Bytes
  import opened Devices
  import opened Protocol
  import opened Numbers
  import opened DaemonState
  import opened DaemonInvariant
  import opened DaemonEffects

  ghost predicate InputCalled(inputs: seq<Input>, k: int, name: string) {
    0 <= k < |inputs| && inputs[k].name == name
  }

  ghost predicate OutputCalled(outputs: seq<Output>, k: int, name: string) {
    0 <= k < |outputs| && outputs[k].name == name
  }

  lemma NamedInput(inputs: seq<Input>, name: string) returns (k: nat)
    ensures k == InputNamed(inputs, name)
    ensures if k < |inputs| then InputCalled(inputs, k, name) else forall j :: !InputCalled(inputs, j, name)
  {
    k := InputNamed(inputs, name);
  }

  lemma NamedOutput(outputs: seq<Output>, name: string) returns (k: nat)
    ensures k == OutputNamed(outputs, name)
    ensures if k < |outputs| then OutputCalled(outputs, k, name) else forall j :: !OutputCalled(outputs, j, name)
  {
    k := OutputNamed(outputs, name);
  }

  // ----- outputs -----

  /** `output use`, and `use`: the output with the name becomes current and nothing else changes; there
      is an error, and no change, if and only if there is no such output. */
  lemma UseExact(w: World, st: State, name: string)
    ensures var r := Exec(w, st, OutputUse(name));
            && (r.ok <==> exists k :: OutputCalled(st.outputs, k, name))
            && (r.ok ==> exists k :: OutputCalled(st.outputs, k, name)
                           && r.state == st.(current := st.outputs[k].fd, currentName := name))
            && (!r.ok ==> r.state == st)
  {
    var k := NamedOutput(st.outputs, name);
    assert k < |st.outputs| ==> OutputCalled(st.outputs, k, name);
  }

  /** A descriptor waits for removal, behind those that waited before. */
  predicate NowQueued(before: seq<int>, fd: int, after: seq<int>) {
    after == if fd in before then before else before + [fd]
  }

  lemma OutputRemoveExact(w: World, st: State, name: string)
    requires Tables(st)
    ensures var r := Exec(w, st, OutputRemove(name));
            && (r.ok <==> exists k :: OutputCalled(st.outputs, k, name))
            && (r.ok ==> exists k :: OutputCalled(st.outputs, k, name)
                           && NowQueued(st.removeQueue, st.outputs[k].fd, r.state.removeQueue)
                           && r.state == st.(removeQueue := r.state.removeQueue))
            && (!r.ok ==> r.state == st)
  {
    var k := NamedOutput(st.outputs, name);
    if k < |st.outputs| {
      OutputOpen(st, k);
      assert OutputCalled(st.outputs, k, name);
    }
  }

  // ----- inputs -----

  lemma InputRemoveExact(w: World, st: State, name: string)
    requires Tables(st)
    ensures var r := Exec(w, st, InputRemove(name));
            && (r.ok <==> exists k :: InputCalled(st.inputs, k, name))
            && (r.ok ==> exists k :: InputCalled(st.inputs, k, name)
                           && NowQueued(st.removeQueue, st.inputs[k].fd, r.state.removeQueue)
                           && r.state == st.(removeQueue := r.state.removeQueue))
            && (!r.ok ==> r.state == st)
  {
    var k := NamedInput(st.inputs, name);
    if k < |st.inputs| {
      InputOpen(st, k);
      assert InputCalled(st.inputs, k, name);
    }
  }

  /** The same device under another name: its bytes, and zeros up to the end of the buffer. */
  ghost predicate CalledNow(d: Device, name: seq<byte>, d': Device) {
    && |name| < NAME_SIZE && d' == d.(name := d'.name) && name <= d'.name
    && forall i :: |name| <= i < NAME_SIZE ==> d'.name[i] == 0
  }

  /** The entry with a name has its device called something else, and nothing else changes. */
  ghost predicate Renames(st: State, name: string, k: int, to: seq<byte>, st': State) {
    && InputCalled(st.inputs, k, name) && |st'.inputs| == |st.inputs|
    && CalledNow(st.inputs[k].device, to, st'.inputs[k].device)
    && st' == st.(inputs := st.inputs[k := st.inputs[k].(device := st'.inputs[k].device)])
  }

  lemma RenameExact(w: World, st: State, name: string, to: seq<byte>)
    ensures var r := Exec(w, st, InputRename(name, to));
            && (r.ok <==> (exists k :: InputCalled(st.inputs, k, name)) && |to| < NAME_SIZE)
            && (r.ok ==> exists k :: Renames(st, name, k, to, r.state))
            && (!r.ok ==> r.state == st)
  {
    var k := NamedInput(st.inputs, name);
    if k < |st.inputs| && |to| < NAME_SIZE {
      assert Renames(st, name, k, to, RenameInput(st, name, to).state);
    }
  }

  /** `device reset-name` is a rename to the name the device had when it was opened. */
  lemma ResetNameExact(w: World, st: State, name: string)
    ensures var r := Exec(w, st, InputResetName(name));
            && (r.ok ==> exists k :: InputCalled(st.inputs, k, name)
                           && Renames(st, name, k, st.inputs[k].realName, r.state))
            && (!r.ok ==> r.state == st)
            && (r.ok || (forall k :: !InputCalled(st.inputs, k, name))
                || exists k :: InputCalled(st.inputs, k, name) && |st.inputs[k].realName| >= NAME_SIZE)
  {
    var k := NamedInput(st.inputs, name);
    if k < |st.inputs| {
      assert InputCalled(st.inputs, k, name);
      var to := st.inputs[k].realName;
      if |to| < NAME_SIZE {
        assert Renames(st, name, k, to, RenameInput(st, name, to).state);
      }
    }
  }

  /** An input whose device has the name it was opened with, in a buffer that is zero behind it. */
  ghost predicate AsOpened(x: Input) {
    && |x.realName| < NAME_SIZE && x.realName <= x.device.name
    && forall i :: |x.realName| <= i < NAME_SIZE ==> x.device.name[i] == 0
  }

  /** Resetting the name undoes a rename, however often it was renamed in between. */
  lemma ResetUndoesRename(st: State, mid: State, name: string, k: nat, to: seq<byte>, end: State)
    requires Renames(st, name, k, to, mid) && AsOpened(st.inputs[k]) && st.inputs[k].realName == mid.inputs[k].realName
    requires Renames(mid, name, k, mid.inputs[k].realName, end)
    ensures end == st
  {
    var d, d' := st.inputs[k].device, end.inputs[k].device;
    assert d'.name == d.name;
    assert end.inputs == st.inputs;
  }

  lemma PersistExact(w: World, st: State, name: string, on: Option<bool>)
    ensures var r := Exec(w, st, InputPersist(name, on));
            && (r.ok <==> exists k :: InputCalled(st.inputs, k, name))
            && (r.ok && on.Some? ==>
                  exists k :: InputCalled(st.inputs, k, name)
                    && r.state == st.(inputs := st.inputs[k := st.inputs[k].(persistent := on.value)]))
            && (!r.ok || on.None? ==> r.state == st)
  {
    var k := NamedInput(st.inputs, name);
    assert k < |st.inputs| ==> InputCalled(st.inputs, k, name);
  }

  // ----- hotkeys -----

  lemma HotkeyAddExact(w: World, st: State, name: string, spec: Option<HotkeySpec>, text: string)
    ensures var r := Exec(w, st, HotkeyAdd(name, spec, text));
            && (r.ok <==> (exists k :: InputCalled(st.inputs, k, name)) && spec.Some?)
            && (r.ok ==>
                  exists k :: InputCalled(st.inputs, k, name)
                    && r.state == st.(hotkeys := st.hotkeys[HotkeyDef(st.inputs[k].id, spec.value) := text]))
            && (!r.ok ==> r.state == st)
  {
    var k := NamedInput(st.inputs, name);
    assert k < |st.inputs| ==> InputCalled(st.inputs, k, name);
  }

  lemma HotkeyRemoveExact(w: World, st: State, name: string, spec: Option<HotkeySpec>)
    ensures var r := Exec(w, st, HotkeyRemove(name, spec));
            && (r.ok <==> (exists k :: InputCalled(st.inputs, k, name)) && spec.Some?)
            && (r.ok ==>
                  exists k :: InputCalled(st.inputs, k, name)
                    && r.state == st.(hotkeys := st.hotkeys - {HotkeyDef(st.inputs[k].id, spec.value)}))
            && (!r.ok ==> r.state == st)
  {
    var k := NamedInput(st.inputs, name);
    assert k < |st.inputs| ==> InputCalled(st.inputs, k, name);
  }

  /** Removing a device takes away its own hotkeys and no others. */
  lemma ReleasedHotkeys(w: World, st: State, fd: int, k: nat)
    requires Tables(st) && fd in st.callbacks && k < |st.inputs| && st.inputs[k].fd == fd
    ensures var r := ReleaseOne(w, st, fd);
            forall h :: (h in r.hotkeys <==> h in st.hotkeys && h.device != st.inputs[k].id)
                        && (h in r.hotkeys ==> r.hotkeys[h] == st.hotkeys[h])
  {
    assert InputAt(st.inputs, fd) == k;
    FinishedHotkeys(w, st, fd);
  }

  lemma FinishedHotkeys(w: World, st: State, fd: int)
    requires InputAt(st.inputs, fd) < |st.inputs|
    ensures var k, r := InputAt(st.inputs, fd), FinishDeviceRemoval(w, st, fd);
            r.hotkeys == map h | h in st.hotkeys && h.device != st.inputs[k].id :: st.hotkeys[h]
  {}

  // ----- switches -----

  lemma WritingExact(w: World, st: State, switching: Switching)
    ensures var r := Exec(w, st, WriteEvents(switching));
            && (r.ok <==> !switching.Unknown?) && r.state == st.(writing := r.state.writing)
            && (switching == Set(true) ==> r.state.writing)
            && (switching == Set(false) ==> !r.state.writing)
            && (switching == Toggle ==> r.state.writing != st.writing)
            && (switching == Unknown ==> r.state.writing == st.writing)
  {}

  /** `grab` switches writing as well, unless grabbing fails. */
  lemma GrabExact(w: World, st: State, switching: Switching)
    ensures var r, write := Exec(w, st, Grab(switching)), Exec(w, st, WriteEvents(switching));
            && (r.ok <==> w.outcomes(st.clock) && !switching.Unknown?)
            && r.state == st.(clock := st.clock + 1, writing := if r.ok then write.state.writing else st.writing)
  {}

  lemma OtherExact(w: World, st: State)
    ensures Exec(w, st, Nothing) == Done(st, true) && Exec(w, st, Malformed) == Done(st, false)
    ensures Exec(w, st, Quit) == Done(st.(quit := true), true)
    ensures Exec(w, st, Outside) == Done(st.(clock := st.clock + 1), w.outcomes(st.clock))
  {}

  /** The answer to a client takes one write; a client it cannot be written to waits for removal. */
  lemma ReplyExact(w: World, st: State, client: int)
    ensures var r := Reply(w, st, client);
            if client < 0 then r == st
            else
              && r == st.(clock := st.clock + 1, removeQueue := r.removeQueue)
              && (if w.replies(st.clock) then r.removeQueue == st.removeQueue
                  else NowQueued(st.removeQueue, client, r.removeQueue))
  {}

  // ----- announcements -----

  /** An output could not be written to. */
  ghost predicate Refuses(w: World, clock: nat, outputs: seq<Output>, k: int) {
    0 <= k < |outputs| && !w.writes(clock, outputs[k].fd)
  }

  ghost predicate RefusedBy(w: World, clock: nat, outputs: seq<Output>, fd: int) {
    exists k :: Refuses(w, clock, outputs, k) && outputs[k].fd == fd
  }

  /** Outside the drain exactly the outputs that cannot be written to are added to what waits. */
  lemma {:induction false} DropFailedExact(w: World, clock: nat, queue: seq<int>, outputs: seq<Output>, n: nat)
    requires n <= |outputs| && forall k :: 0 <= k < |outputs| ==> outputs[k].fd >= 0
    ensures var r := DropFailed(w, clock, queue, false, outputs, n);
            && queue <= r
            && forall fd :: fd in r <==> fd in queue || RefusedBy(w, clock, outputs[..n], fd)
    decreases n
  {
    if n > 0 {
      DropFailedExact(w, clock, queue, outputs, n - 1);
      var front, all := outputs[..n - 1], outputs[..n];
      assert forall k :: 0 <= k < n - 1 ==> (Refuses(w, clock, front, k) <==> Refuses(w, clock, all, k));
      assert Refuses(w, clock, all, n - 1) <==> !w.writes(clock, outputs[n - 1].fd);
      forall fd
        ensures RefusedBy(w, clock, all, fd)
                <==> RefusedBy(w, clock, front, fd) || (fd == outputs[n - 1].fd && !w.writes(clock, fd))
      {
        if k :| Refuses(w, clock, all, k) && all[k].fd == fd {
          assert k < n - 1 ==> Refuses(w, clock, front, k);
        }
        if k :| Refuses(w, clock, front, k) && front[k].fd == fd {
          assert Refuses(w, clock, all, k);
        }
      }
    }
  }

  /** `device add` goes through if and only if the name is new, an id is left and the device opens. */
  lemma AddsExact(w: World, st: State, name: string)
    ensures Adds(w, st, name)
            <==> (forall k :: !InputCalled(st.inputs, k, name)) && |st.inputs| < 0x1_0000 && Opens(w, st).Opened?
    ensures Exec(w, st, InputAdd(name)).ok <==> Adds(w, st, name)
  {
    var k := NamedInput(st.inputs, name);
  }

  /** Then the device is entered under its name and polled, and every output was told of it. */
  lemma AddExact(w: World, st: State, name: string)
    requires Tables(st) && Adds(w, st, name)
    ensures var r := Exec(w, st, InputAdd(name)).state;
            var x := NewInput(w, st, name);
            && x.name == name && !x.persistent && x.fd == Opens(w, st).fd && x.device == Opens(w, st).device
            && x.realName == x.device.name[..NameLength(x.device.name)]
            && r == st.(clock := st.clock + 2, inputs := r.inputs, outputs := r.outputs, freeIds := r.freeIds,
                        addQueue := st.addQueue + [x.fd], callbacks := st.callbacks[x.fd := OnInput(x.id)],
                        removeQueue := r.removeQueue)
            && (exists k :: 0 <= k <= |st.inputs| && r.inputs == st.inputs[..k] + [x] + st.inputs[k..])
            && st.removeQueue <= r.removeQueue
            && forall fd :: fd in r.removeQueue
                 <==> fd in st.removeQueue || RefusedBy(w, st.clock + 1, st.outputs, fd)
  {
    AddInputEffect(w, st, name);
    AddInputRest(w, st, name);
    forall k | 0 <= k < |st.outputs|
      ensures st.outputs[k].fd >= 0
    {
      OutputOpen(st, k);
    }
    DropFailedExact(w, st.clock + 1, st.removeQueue, st.outputs, |st.outputs|);
    assert st.outputs[..|st.outputs|] == st.outputs;
    var k := InputSlot(st.inputs, name);
    assert Exec(w, st, InputAdd(name)).state.inputs == st.inputs[..k] + [NewInput(w, st, name)] + st.inputs[k..];
  }

  lemma AddInputRest(w: World, st: State, name: string)
    requires Adds(w, st, name)
    ensures var r, x := AddInput(w, st, name).state, NewInput(w, st, name);
            && r.removeQueue == DropFailed(w, st.clock + 1, st.removeQueue, false, st.outputs, |st.outputs|)
            && r == st.(clock := st.clock + 2, inputs := r.inputs, outputs := r.outputs, freeIds := r.freeIds,
                        addQueue := st.addQueue + [x.fd], callbacks := st.callbacks[x.fd := OnInput(x.id)],
                        removeQueue := r.removeQueue)
  {}

  /** When it does not, no table changes, and the next id handed out is the same as before; only a device
      that does not open takes time, and leaves its id in the list. */
  lemma AddFails(w: World, st: State, name: string)
    requires !Adds(w, st, name)
    ensures var r := Exec(w, st, InputAdd(name)).state;
            && r == st.(clock := r.clock, freeIds := r.freeIds)
            && (|st.inputs| < 0x1_0000 ==> NextId(|r.inputs|, r.freeIds).0 == NextId(|st.inputs|, st.freeIds).0)
            && (if |st.inputs| < 0x1_0000 && forall k :: !InputCalled(st.inputs, k, name)
                then r.clock == st.clock + 1 && r.freeIds == if st.freeIds == [] then [|st.inputs|] else st.freeIds
                else r == st)
  {
    var k := NamedInput(st.inputs, name);
    if st.freeIds != [] {
      assert st.freeIds[..|st.freeIds| - 1] + [st.freeIds[|st.freeIds| - 1]] == st.freeIds;
    }
  }

  /** The announcements of inputs, in the order of the table. */
  function Announcements(inputs: seq<Input>): (r: seq<Message>)
    ensures |r| == |inputs| && forall k :: 0 <= k < |inputs| ==> r[k] == Add(inputs[k].id, inputs[k].device)
  {
    seq(|inputs|, k requires 0 <= k < |inputs| => Add(inputs[k].id, inputs[k].device))
  }

  /** A new output is told of the inputs before the first announcement that cannot be written; it is
      broken if there is one. */
  lemma {:induction false} AnnounceAllExact(w: World, clock: nat, o: Output, inputs: seq<Input>, n: nat)
    requires n <= |inputs| && !o.broken && forall t: nat :: clock <= t < clock + n ==> w.writes(t, o.fd)
    requires n < |inputs| ==> !w.writes(clock + n, o.fd)
    ensures AnnounceAll(w, clock, o, inputs)
            == o.(log := o.log + Announcements(inputs[..n]), broken := n < |inputs|)
    decreases n
  {
    if n == 0 {
      assert o.log + Announcements(inputs[..0]) == o.log;
    } else {
      var first, rest := inputs[0], inputs[1..];
      var told := Deliver(o, Add(first.id, first.device), true);
      AnnounceAllExact(w, clock + 1, told, rest, n - 1);
      assert inputs[..n] == [first] + rest[..n - 1];
      assert Announcements(inputs[..n]) == [Add(first.id, first.device)] + Announcements(rest[..n - 1]);
      Regroup(o.log, [Add(first.id, first.device)], Announcements(rest[..n - 1]), []);
    }
  }

  /** `output add` goes through if and only if the name is new, the output opens, and it can be greeted. */
  lemma ConnectsExact(w: World, st: State, name: string, resume: bool)
    ensures Connects(w, st, name)
            <==> (forall k :: !OutputCalled(st.outputs, k, name)) && Opens(w, st).Opened?
                 && w.writes(st.clock + 1, Opens(w, st).fd)
    ensures Exec(w, st, OutputAdd(name, resume)).ok <==> Connects(w, st, name)
  {
    var k := NamedOutput(st.outputs, name);
  }

  /** Then the output is entered under its name; if an announcement failed it waits for removal. */
  lemma ConnectExact(w: World, st: State, name: string, resume: bool)
    requires Tables(st) && Connects(w, st, name)
    ensures var r := Exec(w, st, OutputAdd(name, resume)).state;
            var o := NewlyTold(w, st, name, resume);
            && o.name == name && o.fd == Opens(w, st).fd && o.resumed == resume && o.since == |st.seen|
            && o.known == (if resume then Live(st.inputs) else {}) && (resume ==> o.log == [Hello] && !o.broken)
            && r == st.(clock := st.clock + 2 + |st.inputs|, outputs := r.outputs,
                        callbacks := st.callbacks[o.fd := OnOutput], removeQueue := r.removeQueue)
            && (exists k :: 0 <= k <= |st.outputs| && r.outputs == st.outputs[..k] + [o] + st.outputs[k..])
            && (if o.broken then NowQueued(st.removeQueue, o.fd, r.removeQueue) else r.removeQueue == st.removeQueue)
  {
    AddOutputEffect(w, st, name, resume);
    ConnectRest(w, st, name, resume);
    var k := OutputSlot(st.outputs, name);
    assert Exec(w, st, OutputAdd(name, resume)).state.outputs
        == st.outputs[..k] + [NewlyTold(w, st, name, resume)] + st.outputs[k..];
  }

  /** Unless it resumes it was greeted and told of the inputs, all of them or those before the first that
      could not be written. */
  lemma ToldExact(w: World, st: State, name: string, n: nat)
    requires Connects(w, st, name) && n <= |st.inputs|
    requires forall t: nat :: st.clock + 2 <= t < st.clock + 2 + n ==> w.writes(t, Opens(w, st).fd)
    requires n < |st.inputs| ==> !w.writes(st.clock + 2 + n, Opens(w, st).fd)
    ensures var o := NewlyTold(w, st, name, false);
            o.log == [Hello] + Announcements(st.inputs[..n]) && (o.broken <==> n < |st.inputs|)
  {
    AnnounceAllExact(w, st.clock + 2, NewOutput(st, name, Opens(w, st).fd, false), st.inputs, n);
  }

  lemma ConnectRest(w: World, st: State, name: string, resume: bool)
    requires Tables(st) && Connects(w, st, name)
    ensures var r := AddOutput(w, st, name, resume).state;
            var o, q := NewlyTold(w, st, name, resume), NewOutput(st, name, Opens(w, st).fd, resume);
            && o == q.(log := o.log, broken := o.broken) && (resume ==> o == q)
            && r == st.(clock := st.clock + 2 + |st.inputs|, outputs := r.outputs,
                        callbacks := st.callbacks[o.fd := OnOutput], removeQueue := r.removeQueue)
            && (if o.broken then NowQueued(st.removeQueue, o.fd, r.removeQueue) else r.removeQueue == st.removeQueue)
  {
    var q := NewOutput(st, name, Opens(w, st).fd, resume);
    Connected(w, st, name, resume);
    AnnouncedSame(w, st.clock + 2, q, st.inputs);
    EnteredRest(Tick(Tick(st)).(clock := st.clock + 2 + |st.inputs|), NewlyTold(w, st, name, resume));
  }

  lemma EnteredRest(st: State, o: Output)
    requires o.fd >= 0 && o.fd !in st.callbacks
    ensures var r := Entered(st, o);
            && r == st.(outputs := r.outputs, callbacks := st.callbacks[o.fd := OnOutput], removeQueue := r.removeQueue)
            && (if o.broken then NowQueued(st.removeQueue, o.fd, r.removeQueue) else r.removeQueue == st.removeQueue)
  {}

  lemma AnnouncedSame(w: World, clock: nat, o: Output, inputs: seq<Input>)
    ensures var r := Announced(w, clock, o, inputs); r == o.(log := r.log, broken := r.broken) && (o.resumed ==> r == o)
  {
    AnnounceAllSame(w, clock, o, inputs);
  }

  lemma {:induction false} AnnounceAllSame(w: World, clock: nat, o: Output, inputs: seq<Input>)
    ensures var r := AnnounceAll(w, clock, o, inputs); r == o.(log := r.log, broken := r.broken)
    decreases |inputs|
  {
    if inputs != [] && w.writes(clock, o.fd) {
      AnnounceAllSame(w, clock + 1, Deliver(o, Add(inputs[0].id, inputs[0].device), true), inputs[1..]);
    }
  }
}
