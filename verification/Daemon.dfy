/** The daemon as it runs: its globals are fields, updated in place by the loops of the source. */
module Daemon {
  import opened Bytes
  import opened Devices
  import opened Protocol
  import opened Tokenizer
  import opened Numbers
  import opened DaemonState
  import opened DaemonInvariant
  import Spec = DaemonState

  /** What an open call yields depends on the open descriptors and the time alone. */
  lemma OpensSame(w: World, a: State, b: State)
    requires a.clock == b.clock && a.server == b.server && a.clients == b.clients
    requires a.inputs == b.inputs && a.outputs == b.outputs
    ensures Opens(w, a) == Opens(w, b)
  {}

  class Daemon {
    const server: int
    var clock: nat
    var quit: bool
    var crashed: bool
    var callbacks: map<int, Callback>
    var clients: set<int>
    var addQueue: seq<int>
    var removeQueue: seq<int>
    var polled: seq<int>
    var commands: seq<Command>
    var freeIds: seq<u16>
    var inputs: seq<Input>
    var outputs: seq<Output>
    var current: int
    var currentName: string
    var writing: bool
    var hotkeys: map<HotkeyDef, string>
    // the history the model keeps beside the source's globals
    var seen: seq<Sighting>
    var released: seq<int>

    ghost function Snapshot(): State
      reads this
    {
      State(clock, quit, crashed, server, callbacks, clients, addQueue, removeQueue, polled, commands, freeIds,
            inputs, outputs, current, currentName, writing, hotkeys, seen, released)
    }

    constructor (server: int, lines: seq<string>)
      ensures Snapshot() == Initial(server, lines)
      ensures server >= 0 ==> Inv(Snapshot())
    {
      this.server := server;
      clock, quit, crashed := 0, false, false;
      callbacks, clients := map[server := OnServer], {};
      addQueue, removeQueue, polled := [], [], [server];
      commands := seq(|lines|, i requires 0 <= i < |lines| => Command(-1, lines[i]));
      freeIds, inputs, outputs := [], [], [];
      current, currentName, writing, hotkeys := -1, "", false, map[];
      seen, released := [], [];
    }

    // ----- queues and writes -----

    method RemoveFD(fd: int)
      modifies this`removeQueue
      ensures Snapshot() == Spec.RemoveFD(old(Snapshot()), fd)
    {
      if fd < 0 {
        return;
      }
      if fd !in removeQueue {
        removeQueue := removeQueue + [fd];
      }
    }

    /** Writes a message to every output in turn and drops those that fail. */
    method WriteToAll(w: World, m: Message, draining: bool)
      modifies this`outputs, this`removeQueue, this`clock
      ensures Snapshot() == Spec.Broadcast(w, old(Snapshot()), m, draining)
    {
      WriteEach(w, m, draining);
      clock := clock + 1;
    }

    method WriteEach(w: World, m: Message, draining: bool)
      modifies this`outputs, this`removeQueue
      ensures outputs == DeliverAll(w, clock, old(removeQueue), draining, m, old(outputs))
      ensures removeQueue == DropFailed(w, clock, old(removeQueue), draining, old(outputs), |old(outputs)|)
    {
      ghost var was, queue := outputs, removeQueue;
      for k := 0 to |outputs|
        invariant |outputs| == |was|
        invariant forall j :: 0 <= j < k ==>
                    outputs[j] == Deliver(was[j], m, WriteOk(w, clock, queue, draining, was[j].fd))
        invariant forall j :: k <= j < |was| ==> outputs[j] == was[j]
        invariant removeQueue == DropFailed(w, clock, queue, draining, was, k)
      {
        DropFailedKeeps(w, clock, queue, draining, was, k);
        WriteToOutput(w, k, m, draining);
      }
    }

    method WriteToOutput(w: World, k: nat, m: Message, draining: bool)
      requires k < |outputs|
      modifies this`outputs, this`removeQueue
      ensures var o := old(outputs[k]);
              var ok := WriteOk(w, clock, old(removeQueue), draining, o.fd);
              && outputs == old(outputs)[k := Deliver(o, m, ok)]
              && removeQueue == if ok then old(removeQueue) else Queued(old(removeQueue), o.fd)
    {
      var o := outputs[k];
      var ok := w.writes(clock, o.fd) || (draining && o.fd !in removeQueue);
      outputs := outputs[k := Deliver(o, m, ok)];
      if !ok {
        RemoveFD(o.fd);
      }
    }

    // ----- devices -----

    /** `None` is the exception for too many inputs. */
    method GetNextInputID() returns (id: Option<u16>)
      modifies this`freeIds
      ensures id.Some? <==> |inputs| <= 0xffff
      ensures id.Some? ==> (id.value, freeIds) == NextId(|inputs|, old(freeIds))
      ensures id.None? ==> freeIds == old(freeIds)
    {
      if |inputs| > 0xffff {
        return None;
      }
      if freeIds == [] {
        return Some(|inputs|);
      }
      id := Some(freeIds[|freeIds| - 1]);
      freeIds := freeIds[..|freeIds| - 1];
    }

    method AddInput(w: World, name: string) returns (ok: bool)
      modifies this
      ensures Done(Snapshot(), ok) == Spec.AddInput(w, old(Snapshot()), name)
    {
      if InputNamed(inputs, name) < |inputs| {
        return false;
      }
      var next := GetNextInputID();
      if next.None? {
        return false;
      }
      var id := next.value;
      ghost var numbered := Snapshot();
      var opening := OpenDevice(w);
      OpensSame(w, old(Snapshot()), numbered);
      assert Snapshot() == Tick(old(Snapshot())).(freeIds := freeIds);
      if opening.NotOpened? {
        freeIds := freeIds + [id];
        return false;
      }
      WriteToAll(w, Add(id, opening.device), false);
      Register(Input(name, id, opening.fd, opening.device,
                     opening.device.name[..NameLength(opening.device.name)], false));
      return true;
    }

    method Register(input: Input)
      modifies this`addQueue, this`callbacks, this`inputs
      ensures Snapshot() == RegisterInput(old(Snapshot()), input)
    {
      addQueue := addQueue + [input.fd];
      callbacks := callbacks[input.fd := OnInput(input.id)];
      var k := InputSlot(inputs, input.name);
      inputs := Insert(inputs, k, input);
    }

    method OpenDevice(w: World) returns (r: Opening)
      modifies this`clock
      ensures r == Opens(w, old(Snapshot())) && Snapshot() == Tick(old(Snapshot()))
    {
      r := w.opens(clock);
      if r.Opened? {
        var used := r.fd == server || r.fd in clients
                    || InputAt(inputs, r.fd) < |inputs| || OutputAt(outputs, r.fd) < |outputs|;
        if r.fd < 0 || used {
          r := NotOpened;
        }
      }
      clock := clock + 1;
    }

    /** Looks for the device among the inputs; announces its removal, drops its hotkeys, erases it. */
    method FinishDeviceRemoval(w: World, fd: int)
      modifies this
      ensures Snapshot() == Spec.FinishDeviceRemoval(w, old(Snapshot()), fd)
    {
      var k := FindInput(fd);
      if k == |inputs| {
        crashed := true;
        return;
      }
      AnnounceRemoval(w, k);
      EraseDevice(k, w.frees);
    }

    method AnnounceRemoval(w: World, k: nat)
      requires k < |inputs|
      modifies this
      ensures Snapshot() == RemovalAnnounced(w, old(Snapshot()), k)
    {
      if !inputs[k].persistent {
        WriteToAll(w, Remove(inputs[k].id), true);
      }
    }

    method EraseDevice(k: nat, frees: bool)
      requires k < |inputs|
      modifies this`hotkeys, this`inputs, this`freeIds
      ensures Snapshot() == InputErased(old(Snapshot()), k, frees)
    {
      var id := inputs[k].id;
      CleanupDeviceHotkeys(id);
      inputs := Erase(inputs, k);
      if frees {
        freeIds := freeIds + [id];
      }
    }

    method FindInput(fd: int) returns (k: nat)
      ensures k == InputAt(inputs, fd)
    {
      k := 0;
      while k < |inputs| && inputs[k].fd != fd
        invariant k <= |inputs| && forall j :: 0 <= j < k ==> inputs[j].fd != fd
      {
        k := k + 1;
      }
    }

    method FindOutput(fd: int) returns (k: nat)
      ensures k == OutputAt(outputs, fd)
    {
      k := 0;
      while k < |outputs| && outputs[k].fd != fd
        invariant k <= |outputs| && forall j :: 0 <= j < k ==> outputs[j].fd != fd
      {
        k := k + 1;
      }
    }

    /** Erases the hotkeys of a device one by one. */
    method CleanupDeviceHotkeys(id: u16)
      modifies this`hotkeys
      ensures hotkeys == map h | h in old(hotkeys) && h.device != id :: old(hotkeys)[h]
    {
      var left := hotkeys.Keys;
      while left != {}
        invariant left <= hotkeys.Keys <= old(hotkeys).Keys
        invariant forall h :: h in hotkeys ==> hotkeys[h] == old(hotkeys)[h] && (h in left || h.device != id)
        invariant forall h :: h in old(hotkeys) && h.device != id ==> h in hotkeys
        decreases |left|
      {
        var h :| h in left;
        left := left - {h};
        if h.device == id {
          hotkeys := hotkeys - {h};
        }
      }
    }

    // ----- outputs -----

    method AddOutput(w: World, name: string, resume: bool) returns (ok: bool)
      modifies this
      ensures Done(Snapshot(), ok) == Spec.AddOutput(w, old(Snapshot()), name, resume)
    {
      if OutputNamed(outputs, name) < |outputs| {
        return false;
      }
      var opening := OpenDevice(w);
      if opening.NotOpened? {
        return false;
      }
      var fd := opening.fd;
      var hello := w.writes(clock, fd);
      clock := clock + 1;
      assert Snapshot() == Tick(Tick(old(Snapshot())));
      if !hello {
        return false;
      }
      AddOutputFinish(w, Output(name, fd, resume, false, [Hello], |seen|, if resume then Live(inputs) else {}));
      return true;
    }

    /** Announces the inputs until one write fails, then enters the output. */
    method AddOutputFinish(w: World, greeted: Output)
      requires !greeted.broken
      modifies this
      ensures Snapshot() == EnterOutput(w, old(Snapshot()), greeted)
    {
      var o := AnnounceAllDevices(w, greeted);
      clock := clock + |inputs|;
      RegisterNew(o);
      if o.broken {
        RemoveFD(o.fd);
      }
    }

    method AnnounceAllDevices(w: World, greeted: Output) returns (o: Output)
      requires !greeted.broken
      ensures o == Announced(w, clock, greeted, inputs)
    {
      o := greeted;
      if o.resumed {
        return;
      }
      var k := 0;
      while k < |inputs| && !o.broken
        invariant k <= |inputs| && o.fd == greeted.fd && o.resumed == greeted.resumed
        invariant AnnounceAll(w, clock, greeted, inputs)
               == if o.broken then o else AnnounceAll(w, clock + k, o, inputs[k..])
        decreases |inputs| - k, !o.broken
      {
        assert inputs[k..][1..] == inputs[k + 1..];
        if w.writes(clock + k, o.fd) {
          o := o.(log := o.log + [Add(inputs[k].id, inputs[k].device)]);
          k := k + 1;
        } else {
          o := o.(broken := true);
        }
      }
    }

    method RegisterNew(o: Output)
      modifies this`outputs, this`callbacks
      ensures Snapshot() == RegisterOutput(old(Snapshot()), o)
    {
      var slot := OutputSlot(outputs, o.name);
      outputs := Insert(outputs, slot, o);
      if o.fd !in callbacks {
        callbacks := callbacks[o.fd := OnOutput];
      }
    }

    method LostCurrentOutput()
      modifies this`current, this`currentName, this`writing
      ensures Snapshot() == Spec.LostCurrentOutput(old(Snapshot()))
    {
      current := -1;
      currentName := "<none>";
      if writing {
        writing := false;
      }
    }

    method FinishOutputRemoval(fd: int)
      modifies this
      ensures Snapshot() == Spec.FinishOutputRemoval(old(Snapshot()), fd)
    {
      if current == fd {
        LostCurrentOutput();
      }
      var k := FindOutput(fd);
      if k == |outputs| {
        crashed := true;
      } else {
        outputs := Erase(outputs, k);
      }
    }

    // ----- commands -----

    method ExecInput(w: World, action: Action) returns (ok: bool)
      requires OnInputs(action)
      modifies this
      ensures Done(Snapshot(), ok) == Spec.Exec(w, old(Snapshot()), action)
    {
      if action.InputAdd? {
        ok := AddInput(w, action.name);
        return;
      }
      var k := InputNamed(inputs, action.name);
      if k == |inputs| {
        return false;
      }
      match action {
        case InputRemove(_) => RemoveFD(inputs[k].fd);
        case InputRename(_, to) =>
          var renamed := Renamed(inputs[k].device, to);
          if renamed.None? {
            return false;
          }
          inputs := inputs[k := inputs[k].(device := renamed.value)];
        case InputResetName(_) =>
          var renamed := Renamed(inputs[k].device, inputs[k].realName);
          if renamed.None? {
            return false;
          }
          inputs := inputs[k := inputs[k].(device := renamed.value)];
        case InputPersist(_, on) =>
          if on.Some? {
            inputs := inputs[k := inputs[k].(persistent := on.value)];
          }
      }
      return true;
    }

    method ExecOutput(w: World, action: Action) returns (ok: bool)
      requires OnOutputs(action)
      modifies this
      ensures Done(Snapshot(), ok) == Spec.Exec(w, old(Snapshot()), action)
    {
      if action.OutputAdd? {
        ok := AddOutput(w, action.name, action.resume);
        return;
      }
      var k := OutputNamed(outputs, action.name);
      if k == |outputs| {
        return false;
      }
      if action.OutputRemove? {
        RemoveFD(outputs[k].fd);
      } else {
        current, currentName := outputs[k].fd, action.name;
      }
      return true;
    }

    method ExecHotkey(w: World, action: Action) returns (ok: bool)
      requires action.HotkeyAdd? || action.HotkeyRemove?
      modifies this`hotkeys
      ensures Done(Snapshot(), ok) == Spec.Exec(w, old(Snapshot()), action)
    {
      var k := InputNamed(inputs, action.name);
      ok := k < |inputs| && action.spec.Some?;
      if ok {
        var def := HotkeyDef(inputs[k].id, action.spec.value);
        if action.HotkeyAdd? {
          hotkeys := hotkeys[def := action.text];
        } else {
          hotkeys := hotkeys - {def};
        }
      }
    }

    method ExecOther(w: World, action: Action) returns (ok: bool)
      requires !OnInputs(action) && !OnOutputs(action) && !action.HotkeyAdd? && !action.HotkeyRemove?
      modifies this
      ensures Done(Snapshot(), ok) == Spec.Exec(w, old(Snapshot()), action)
    {
      match action {
        case Nothing => ok := true;
        case WriteEvents(switching) =>
          ok := SwitchWriting(switching);
        case Grab(switching) =>
          ok := w.outcomes(clock);
          clock := clock + 1;
          if ok {
            ok := SwitchWriting(switching);
          }
        case Quit =>
          quit := true;
          ok := true;
        case Outside =>
          ok := w.outcomes(clock);
          clock := clock + 1;
        case Malformed => ok := false;
      }
    }

    method SwitchWriting(switching: Switching) returns (ok: bool)
      modifies this`writing
      ensures Done(Snapshot(), ok) == Spec.SwitchWriting(old(Snapshot()), switching)
    {
      match switching {
        case Set(on) => writing := on;
        case Toggle => writing := !writing;
        case Unknown => return false;
      }
      return true;
    }

    method Exec(w: World, action: Action) returns (ok: bool)
      modifies this
      ensures Done(Snapshot(), ok) == Spec.Exec(w, old(Snapshot()), action)
    {
      if OnInputs(action) {
        ok := ExecInput(w, action);
      } else if OnOutputs(action) {
        ok := ExecOutput(w, action);
      } else if action.HotkeyAdd? || action.HotkeyRemove? {
        ok := ExecHotkey(w, action);
      } else {
        ok := ExecOther(w, action);
      }
    }

    method Reply(w: World, client: int)
      modifies this
      ensures Snapshot() == Spec.Reply(w, old(Snapshot()), client)
    {
      if client < 0 {
        return;
      }
      var ok := w.replies(clock);
      clock := clock + 1;
      if !ok {
        RemoveFD(client);
      }
    }

    /** Dispatches the argument lists of one text until one of them fails. */
    method RunText(w: World, client: int, text: string)
      modifies this
      ensures Snapshot() == RunAll(w, old(Snapshot()), client, Dispatches(text))
    {
      var lists := ParseClientCommand(text);
      for k := 0 to |lists|
        invariant RunAll(w, old(Snapshot()), client, lists) == RunAll(w, Snapshot(), client, lists[k..])
      {
        assert lists[k..][1..] == lists[k + 1..];
        var ok := Exec(w, Interpret(lists[k]));
        Reply(w, client);
        if !ok {
          return;
        }
      }
    }

    method ProcessCommandQueue(w: World)
      modifies this
      ensures Snapshot() == ProcessCommands(w, old(Snapshot()))
    {
      var queue := commands;
      for k := 0 to |queue|
        invariant RunQueue(w, old(Snapshot()), queue) == RunQueue(w, Snapshot(), queue[k..])
      {
        assert queue[k..][1..] == queue[k + 1..];
        RunText(w, queue[k].client, queue[k].text);
      }
      commands := [];
    }

    // ----- the drain -----

    method OnRemove(w: World, fd: int, cb: Callback)
      modifies this
      ensures Snapshot() == Spec.OnRemove(w, old(Snapshot()), fd, cb)
    {
      match cb {
        case OnServer => crashed := true;
        case OnClient =>
          if fd in clients {
            clients := clients - {fd};
          } else {
            crashed := true;
          }
        case OnInput(_) => FinishDeviceRemoval(w, fd);
        case OnOutput => FinishOutputRemoval(fd);
      }
    }

    method ProcessRemovals(w: World)
      modifies this
      ensures Snapshot() == ProcessRemoveQueue(w, old(Snapshot()))
    {
      var queue := removeQueue;
      for k := 0 to |queue|
        invariant ReleaseFrom(w, old(Snapshot()), queue) == ReleaseFrom(w, Snapshot(), queue[k..])
      {
        assert queue[k..][1..] == queue[k + 1..];
        Release(w, queue[k]);
      }
      removeQueue := [];
    }

    method Release(w: World, fd: int)
      modifies this
      ensures Snapshot() == ReleaseOne(w, old(Snapshot()), fd)
    {
      if fd !in callbacks {
        crashed := true;
      } else {
        OnRemove(w, fd, callbacks[fd]);
        callbacks := callbacks - {fd};
        released := released + [fd];
      }
    }

    // ----- callbacks -----

    method NewClient(w: World)
      modifies this
      ensures Snapshot() == NewCommandClient(w, old(Snapshot()))
    {
      var opening := OpenDevice(w);
      if opening.NotOpened? {
        quit := true;
        return;
      }
      RegisterClient(opening.fd);
    }

    method RegisterClient(fd: int)
      modifies this`addQueue, this`callbacks, this`clients
      ensures Snapshot() == old(Snapshot()).(addQueue := old(addQueue) + [fd],
                                             callbacks := old(callbacks)[fd := OnClient],
                                             clients := old(clients) + {fd})
    {
      addQueue := addQueue + [fd];
      callbacks := callbacks[fd := OnClient];
      clients := clients + {fd};
    }

    method ReadLine(w: World, fd: int)
      modifies this
      ensures Snapshot() == ReadCommand(w, old(Snapshot()), fd)
    {
      var line := w.lines(clock);
      clock := clock + 1;
      if line.None? {
        RemoveFD(fd);
      } else {
        commands := commands + [Command(fd, line.value)];
      }
    }

    method ReadEvent(w: World, fd: int, id: u16)
      modifies this
      ensures Snapshot() == ReadFromDevice(w, old(Snapshot()), fd, id)
    {
      var e := w.events(clock);
      if e.None? {
        clock := clock + 1;
        RemoveFD(fd);
      } else {
        Route(w, id, e.value);
      }
    }

    /** A hotkey is queued, otherwise the current output gets the event while writing is on. */
    method Route(w: World, id: u16, event: InputEvent)
      modifies this
      ensures Snapshot() == RouteEvent(w, old(Snapshot()), id, event)
    {
      var def := HotkeyDef(id, HotkeySpec(event.kind, event.code, event.value));
      var hotkey, at := event.kind < EV_CNT && def in hotkeys, clock;
      Note(Sighting(id, event, current, writing, hotkey));
      if hotkey {
        commands := commands + [Command(-1, hotkeys[def])];
        return;
      }
      if current != -1 && writing {
        WriteEvent(Event(id, event), w.writes(at, current));
      }
    }

    method Note(sighting: Sighting)
      modifies this`seen, this`clock
      ensures Snapshot() == old(Snapshot()).(seen := old(seen) + [sighting], clock := old(clock) + 1)
    {
      seen := seen + [sighting];
      clock := clock + 1;
    }

    /** One write to the current output; a failing output is dropped and no longer current. */
    method WriteEvent(m: Message, ok: bool)
      modifies this`outputs, this`removeQueue, this`current, this`currentName, this`writing
      ensures var written := old(Snapshot()).(outputs := DeliverTo(old(outputs), old(current), m, ok));
              Snapshot() == if ok then written
                            else Spec.LostCurrentOutput(Spec.RemoveFD(written, old(current)))
    {
      outputs := DeliverTo(outputs, current, m, ok);
      if !ok {
        RemoveFD(current);
        LostCurrentOutput();
      }
    }

    method Fail(fd: int, cb: Callback)
      modifies this
      ensures Snapshot() == OnFailure(old(Snapshot()), fd, cb)
    {
      if cb.OnServer? {
        quit := true;
      } else {
        RemoveFD(fd);
      }
    }

    method Serve(w: World, fd: int, r: Revents)
      modifies this
      ensures Snapshot() == PollOne(w, old(Snapshot()), fd, r)
    {
      if fd !in callbacks {
        crashed := true;
        return;
      }
      var cb := callbacks[fd];
      if r.error {
        Fail(fd, cb);
      }
      if quit {
        return;
      }
      if r.hup {
        Fail(fd, cb);
      }
      if quit {
        return;
      }
      if r.input {
        match cb {
          case OnServer => NewClient(w);
          case OnClient => ReadLine(w, fd);
          case OnInput(id) => ReadEvent(w, fd, id);
          case OnOutput => RemoveFD(fd);
        }
      }
    }

    // ----- the main loop -----

    /** Keeps the polled descriptors that are not queued for removal. */
    method FilterPollList()
      modifies this`polled
      ensures Snapshot() == FilterPolled(old(Snapshot()))
    {
      var kept: seq<int> := [];
      for k := 0 to |polled|
        invariant polled == old(polled) && kept + Without(polled[k..], removeQueue) == Without(polled, removeQueue)
      {
        assert polled[k..][1..] == polled[k + 1..];
        if polled[k] !in removeQueue {
          Regroup(kept, [polled[k]], Without(polled[k + 1..], removeQueue), []);
          kept := kept + [polled[k]];
        } else {
          assert [] + Without(polled[k + 1..], removeQueue) == Without(polled[k + 1..], removeQueue);
        }
      }
      polled := kept;
    }

    /** One turn; it keeps the invariant. */
    method RunTurn(w: World)
      modifies this
      ensures Snapshot() == Turn(w, old(Snapshot()))
      ensures old(Inv(Snapshot())) ==> Inv(Snapshot())
    {
      ghost var before := Snapshot();
      TurnKeepsInv(w, before);
      RunPhases(w);
    }

    method RunPhases(w: World)
      modifies this
      ensures Snapshot() == Turn(w, old(Snapshot()))
    {
      RunQueues(w);
      if !quit {
        var at := clock;
        clock := clock + 1;
        ServeAll(w, at);
      }
    }

    /** The part of a turn before it waits for its descriptors. */
    method RunQueues(w: World)
      modifies this
      ensures Snapshot() == ProcessRemoveQueue(w, FilterPolled(MergeAdds(ProcessCommands(w, old(Snapshot())))))
    {
      ProcessCommandQueue(w);
      MergeAddQueue();
      FilterPollList();
      ProcessRemovals(w);
    }

    method MergeAddQueue()
      modifies this`polled, this`addQueue
      ensures Snapshot() == MergeAdds(old(Snapshot()))
    {
      if addQueue != [] {
        polled := polled + addQueue;
        addQueue := [];
      } else {
        assert polled + addQueue == polled;
      }
    }

    /** Serves the descriptors that were in the poll list, until a callback quits. */
    method ServeAll(w: World, at: nat)
      modifies this
      ensures Snapshot() == PollFrom(w, old(Snapshot()), at, old(polled))
    {
      var fds := polled;
      for k := 0 to |fds|
        invariant PollFrom(w, old(Snapshot()), at, fds) == PollFrom(w, Snapshot(), at, fds[k..])
      {
        if quit {
          break;
        }
        assert fds[k..][1..] == fds[k + 1..];
        Serve(w, fds[k], w.revents(at, fds[k]));
      }
    }

    /** The loop runs until the daemon quits; here, for at most `turns` turns. */
    method RunLoop(w: World, turns: nat)
      modifies this
      ensures Snapshot() == Run(w, old(Snapshot()), turns)
      ensures old(Inv(Snapshot())) ==> Inv(Snapshot())
    {
      for n := 0 to turns
        invariant Snapshot() == Run(w, old(Snapshot()), n)
        invariant old(Inv(Snapshot())) ==> Inv(Snapshot())
      {
        if !quit {
          RunTurn(w);
        }
      }
    }
  }
}
