/** What holds of the daemon in every reachable state, whatever the world answers. */
module DaemonInvariant {
  import opened Bytes
  import opened Devices
  import opened Protocol
  import opened Tokenizer
  import opened Numbers
  import opened DaemonState

  // ----- the invariants -----

  ghost predicate InputsApart(inputs: seq<Input>) {
    forall i, j :: 0 <= i < j < |inputs| ==> inputs[i].fd != inputs[j].fd
  }

  ghost predicate OutputsApart(outputs: seq<Output>) {
    forall i, j :: 0 <= i < j < |outputs| ==> outputs[i].fd != outputs[j].fd
  }

  ghost predicate Keyed(st: State) {
    forall fd :: (fd in st.callbacks <==> Open(st, fd)) && (fd in st.callbacks ==> fd >= 0)
  }

  /** Every descriptor is registered under its own kind. */
  ghost predicate Kinded(st: State) {
    && st.server in st.callbacks && st.callbacks[st.server] == OnServer
    && (forall fd :: fd in st.clients ==> fd in st.callbacks && st.callbacks[fd] == OnClient)
    && (forall k :: 0 <= k < |st.inputs| ==>
          st.inputs[k].fd in st.callbacks && st.callbacks[st.inputs[k].fd] == OnInput(st.inputs[k].id))
    && (forall k :: 0 <= k < |st.outputs| ==>
          st.outputs[k].fd in st.callbacks && st.callbacks[st.outputs[k].fd] == OnOutput)
  }

  /** The callback map is exactly the table of open descriptors. */
  ghost predicate Tables(st: State) {
    InputsApart(st.inputs) && OutputsApart(st.outputs) && Keyed(st) && Kinded(st)
  }

  ghost predicate CurrentOk(st: State) {
    st.current == -1
    || exists k :: 0 <= k < |st.outputs| && st.outputs[k].fd == st.current && st.outputs[k].name == st.currentName
  }

  predicate HasId(inputs: seq<Input>, id: u16) {
    exists k :: 0 <= k < |inputs| && inputs[k].id == id
  }

  ghost predicate HotkeysOk(st: State) {
    forall h :: h in st.hotkeys ==> HasId(st.inputs, h.device)
  }

  ghost predicate CommandsOk(st: State) {
    forall k :: 0 <= k < |st.commands| ==> st.commands[k].client == -1 || st.commands[k].client in st.clients
  }

  /** The events written to an output. */
  function EventsOf(log: seq<Message>): seq<(u16, InputEvent)> {
    if log == [] then []
    else
      var last := log[|log| - 1];
      EventsOf(log[..|log| - 1]) + (if last.Event? then [(last.id, last.event)] else [])
  }

  /** The events seen while an output was current, writing was on, and no hotkey matched. */
  function Routed(seen: seq<Sighting>, fd: int): seq<(u16, InputEvent)> {
    if seen == [] then []
    else
      var last := seen[|seen| - 1];
      Routed(seen[..|seen| - 1], fd)
      + (if last.current == fd && last.writing && !last.hotkey then [(last.id, last.event)] else [])
  }

  /** An output got exactly the events routed to it since it was added, or the first of them if a
      write to it failed. */
  ghost predicate RoutedOk(o: Output, seen: seq<Sighting>) {
    && o.since <= |seen| && EventsOf(o.log) <= Routed(seen[o.since..], o.fd)
    && (!o.broken ==> EventsOf(o.log) == Routed(seen[o.since..], o.fd))
  }

  ghost predicate RoutingOk(st: State) {
    forall k :: 0 <= k < |st.outputs| ==> RoutedOk(st.outputs[k], st.seen)
  }

  ghost predicate Core(st: State) {
    !st.crashed && Tables(st) && CurrentOk(st) && HotkeysOk(st) && CommandsOk(st) && RoutingOk(st)
  }

  ghost predicate NoRepeats(q: seq<int>) {
    forall i, j :: 0 <= i < j < |q| ==> q[i] != q[j]
  }

  /** What waits for removal is registered and is not the server. */
  ghost predicate RemovalsOk(st: State, queue: seq<int>) {
    NoRepeats(queue) && forall fd :: fd in queue ==> fd in st.callbacks && fd != st.server
  }

  /** What is polled, or about to be, is registered and is no output. */
  ghost predicate PollingOk(st: State, fds: seq<int>) {
    forall fd :: fd in fds ==> fd in st.callbacks && !st.callbacks[fd].OnOutput?
  }

  ghost predicate Inv(st: State) {
    Core(st) && RemovalsOk(st, st.removeQueue) && PollingOk(st, st.addQueue) && PollingOk(st, st.polled)
  }

  // ----- small facts -----

  lemma EventsOfAppend(log: seq<Message>, m: Message)
    ensures EventsOf(log + [m]) == EventsOf(log) + (if m.Event? then [(m.id, m.event)] else [])
  {
    assert (log + [m])[..|log|] == log;
  }

  lemma RoutedAppend(seen: seq<Sighting>, since: nat, s: Sighting, fd: int)
    requires since <= |seen|
    ensures Routed((seen + [s])[since..], fd)
            == Routed(seen[since..], fd)
               + (if s.current == fd && s.writing && !s.hotkey then [(s.id, s.event)] else [])
  {
    assert (seen + [s])[since..] == seen[since..] + [s];
    assert (seen[since..] + [s])[..|seen| - since] == seen[since..];
  }

  /** A message that is no event leaves an output's events alone. */
  lemma DeliverQuiet(o: Output, m: Message, ok: bool, seen: seq<Sighting>)
    requires RoutedOk(o, seen) && !m.Event?
    ensures RoutedOk(Deliver(o, m, ok), seen)
  {
    EventsOfAppend(o.log, m);
    assert EventsOf(o.log) + [] == EventsOf(o.log);
  }

  lemma QueuedOk(st: State, queue: seq<int>, fd: int)
    requires RemovalsOk(st, queue) && fd in st.callbacks && fd != st.server
    ensures RemovalsOk(st, Queued(queue, fd))
  {}

  lemma RemoveFDInv(st: State, fd: int)
    requires Inv(st) && fd in st.callbacks && fd != st.server
    ensures Inv(RemoveFD(st, fd))
  {
    QueuedOk(st, st.removeQueue, fd);
    Unrelated(st, RemoveFD(st, fd));
  }

  /** States that agree on the tables the core invariant talks about. */
  ghost predicate SameCore(a: State, b: State) {
    && a.crashed == b.crashed && a.server == b.server && a.callbacks == b.callbacks && a.clients == b.clients
    && a.commands == b.commands && a.inputs == b.inputs && a.outputs == b.outputs && a.current == b.current
    && a.currentName == b.currentName && a.hotkeys == b.hotkeys && a.seen == b.seen
  }

  lemma Unrelated(a: State, b: State)
    requires Core(a) && SameCore(a, b)
    ensures Core(b)
  {
    assert forall fd :: Open(a, fd) == Open(b, fd);
  }

  /** States that agree on everything but the clock, the queues' order of work, and flags. */
  lemma UnrelatedInv(a: State, b: State)
    requires Inv(a) && SameCore(a, b)
    requires a.addQueue == b.addQueue && a.removeQueue == b.removeQueue && a.polled == b.polled
    ensures Inv(b)
  {
    Unrelated(a, b);
  }

  // ----- broadcasting -----

  lemma {:induction false} DropFailedOk(w: World, st: State, clock: nat, draining: bool, n: nat)
    requires Tables(st) && RemovalsOk(st, st.removeQueue) && n <= |st.outputs|
    ensures RemovalsOk(st, DropFailed(w, clock, st.removeQueue, draining, st.outputs, n))
  {
    if n > 0 {
      DropFailedOk(w, st, clock, draining, n - 1);
      assert Open(st, st.outputs[n - 1].fd);
    }
  }

  lemma {:induction false} DropFailedKeeps(w: World, clock: nat, removeQueue: seq<int>, draining: bool,
                                           outputs: seq<Output>, n: nat)
    requires n <= |outputs|
    ensures removeQueue <= DropFailed(w, clock, removeQueue, draining, outputs, n)
    ensures draining ==> DropFailed(w, clock, removeQueue, draining, outputs, n) == removeQueue
  {
    if n > 0 {
      DropFailedKeeps(w, clock, removeQueue, draining, outputs, n - 1);
    }
  }

  /** Outputs that differ only in what was written to them. */
  ghost predicate SameOutputs(a: seq<Output>, b: seq<Output>) {
    |a| == |b| && forall k :: 0 <= k < |a| ==> b[k].fd == a[k].fd && b[k].name == a[k].name
  }

  lemma SameOutputsTables(a: State, b: State)
    requires Tables(a) && CurrentOk(a) && SameOutputs(a.outputs, b.outputs)
    requires b.server == a.server && b.callbacks == a.callbacks && b.clients == a.clients && b.inputs == a.inputs
    ensures Tables(b)
    ensures b.current == a.current && b.currentName == a.currentName ==> CurrentOk(b)
  {
    forall fd
      ensures HasOutput(a.outputs, fd) == HasOutput(b.outputs, fd)
      ensures Open(a, fd) == Open(b, fd)
    {
      if HasOutput(a.outputs, fd) {
        var k :| 0 <= k < |a.outputs| && a.outputs[k].fd == fd;
        assert b.outputs[k].fd == fd;
      }
    }
    if b.current == a.current && b.currentName == a.currentName && a.current != -1 {
      var k :| 0 <= k < |a.outputs| && a.outputs[k].fd == a.current && a.outputs[k].name == a.currentName;
      assert b.outputs[k].fd == b.current && b.outputs[k].name == b.currentName;
    }
  }

  /** While the drain walks the removal queue, announcing a removal would make the queue grow exactly
      when a write fails for an output that does not wait in it; otherwise it goes as modelled. */
  lemma DrainAnnouncementGrows(w: World, st: State, m: Message)
    requires Tables(st)
    ensures var open := Broadcast(w, st, m, false);
            var fails := exists k :: 0 <= k < |st.outputs| && !w.writes(st.clock, st.outputs[k].fd)
                                     && st.outputs[k].fd !in st.removeQueue;
            && (open.removeQueue != st.removeQueue <==> fails)
            && (!fails ==> open == Broadcast(w, st, m, true))
  {
    var open := Broadcast(w, st, m, false);
    DropFailedGrows(w, st, |st.outputs|);
    DropFailedKeeps(w, st.clock, st.removeQueue, true, st.outputs, |st.outputs|);
    if open.removeQueue == st.removeQueue {
      assert open.outputs == Broadcast(w, st, m, true).outputs;
    }
  }

  lemma {:induction false} DropFailedGrows(w: World, st: State, n: nat)
    requires Tables(st) && n <= |st.outputs|
    ensures var q := DropFailed(w, st.clock, st.removeQueue, false, st.outputs, n);
            && st.removeQueue <= q
            && (q != st.removeQueue <==> exists k :: 0 <= k < n && !w.writes(st.clock, st.outputs[k].fd)
                                                     && st.outputs[k].fd !in st.removeQueue)
  {
    if n > 0 {
      DropFailedGrows(w, st, n - 1);
      assert Open(st, st.outputs[n - 1].fd);
    }
  }

  lemma BroadcastCore(w: World, st: State, m: Message, draining: bool)
    requires Core(st) && !m.Event?
    ensures Core(Broadcast(w, st, m, draining))
  {
    var st' := Broadcast(w, st, m, draining);
    SameOutputsTables(st, st');
    forall k | 0 <= k < |st.outputs|
      ensures RoutedOk(st'.outputs[k], st'.seen)
    {
      DeliverQuiet(st.outputs[k], m, WriteOk(w, st.clock, st.removeQueue, draining, st.outputs[k].fd), st.seen);
    }
  }

  lemma BroadcastInv(w: World, st: State, m: Message)
    requires Inv(st) && !m.Event?
    ensures Inv(Broadcast(w, st, m, false))
  {
    BroadcastCore(w, st, m, false);
    DropFailedOk(w, st, st.clock, false, |st.outputs|);
  }

  // ----- devices -----

  lemma InsertedInputs(inputs: seq<Input>, k: nat, x: Input)
    requires k <= |inputs|
    ensures forall fd :: HasInput(Insert(inputs, k, x), fd) <==> HasInput(inputs, fd) || fd == x.fd
    ensures forall id :: HasId(Insert(inputs, k, x), id) <==> HasId(inputs, id) || id == x.id
    ensures InputsApart(inputs) && !HasInput(inputs, x.fd) ==> InputsApart(Insert(inputs, k, x))
  {
    var r := Insert(inputs, k, x);
    assert r[k] == x;
    forall j | 0 <= j < |inputs|
      ensures HasInput(r, inputs[j].fd) && HasId(r, inputs[j].id)
    {
      assert r[if j < k then j else j + 1] == inputs[j];
    }
    assert forall j :: 0 <= j < |r| && j != k ==> r[j] == inputs[if j < k then j else j - 1];
  }

  lemma InsertedOutputs(outputs: seq<Output>, k: nat, x: Output)
    requires k <= |outputs|
    ensures forall fd :: HasOutput(Insert(outputs, k, x), fd) <==> HasOutput(outputs, fd) || fd == x.fd
    ensures OutputsApart(outputs) && !HasOutput(outputs, x.fd) ==> OutputsApart(Insert(outputs, k, x))
  {
    var r := Insert(outputs, k, x);
    assert r[k] == x;
    forall j | 0 <= j < |outputs|
      ensures HasOutput(r, outputs[j].fd)
    {
      assert r[if j < k then j else j + 1] == outputs[j];
    }
    assert forall j :: 0 <= j < |r| && j != k ==> r[j] == outputs[if j < k then j else j - 1];
  }

  lemma ErasedInputs(inputs: seq<Input>, k: nat)
    requires k < |inputs| && InputsApart(inputs)
    ensures forall fd :: HasInput(Erase(inputs, k), fd) <==> HasInput(inputs, fd) && fd != inputs[k].fd
    ensures forall id :: HasId(inputs, id) && id != inputs[k].id ==> HasId(Erase(inputs, k), id)
    ensures InputsApart(Erase(inputs, k))
  {
    var r := Erase(inputs, k);
    forall j | 0 <= j < |inputs| && j != k
      ensures HasInput(r, inputs[j].fd) && HasId(r, inputs[j].id)
    {
      assert r[if j < k then j else j - 1] == inputs[j];
    }
    assert forall j :: 0 <= j < |r| ==> r[j] == inputs[if j < k then j else j + 1];
  }

  lemma ErasedOutputs(outputs: seq<Output>, k: nat)
    requires k < |outputs| && OutputsApart(outputs)
    ensures forall fd :: HasOutput(Erase(outputs, k), fd) <==> HasOutput(outputs, fd) && fd != outputs[k].fd
    ensures OutputsApart(Erase(outputs, k))
  {
    var r := Erase(outputs, k);
    forall j | 0 <= j < |outputs| && j != k
      ensures HasOutput(r, outputs[j].fd)
    {
      assert r[if j < k then j else j - 1] == outputs[j];
    }
    assert forall j :: 0 <= j < |r| ==> r[j] == outputs[if j < k then j else j + 1];
  }

  /** Open descriptors of the parts, as members of the whole. */
  lemma PartsOpen(st: State)
    ensures forall k :: 0 <= k < |st.inputs| ==> HasInput(st.inputs, st.inputs[k].fd)
    ensures forall k :: 0 <= k < |st.outputs| ==> HasOutput(st.outputs, st.outputs[k].fd)
  {}

  lemma InsertInputTables(st: State, st': State, k: nat, input: Input)
    requires Tables(st) && HotkeysOk(st) && k <= |st.inputs| && input.fd >= 0 && !Open(st, input.fd)
    requires st'.inputs == Insert(st.inputs, k, input) && st'.callbacks == st.callbacks[input.fd := OnInput(input.id)]
    requires st'.server == st.server && st'.clients == st.clients && st'.outputs == st.outputs
    requires st'.hotkeys == st.hotkeys
    ensures Tables(st') && HotkeysOk(st')
  {
    PartsOpen(st);
    InsertedInputs(st.inputs, k, input);
    assert Keyed(st');
    assert forall j :: 0 <= j < |st'.inputs| && j != k ==> st'.inputs[j] == st.inputs[if j < k then j else j - 1];
    assert Kinded(st');
  }

  lemma RegisterInputInv(st: State, input: Input)
    requires Inv(st) && input.fd >= 0 && !Open(st, input.fd)
    ensures Inv(RegisterInput(st, input))
  {
    var st' := RegisterInput(st, input);
    InsertInputTables(st, st', InputSlot(st.inputs, input.name), input);
    assert Core(st') && RemovalsOk(st', st'.removeQueue);
    assert PollingOk(st', st'.polled) && PollingOk(st', st'.addQueue);
  }

  lemma InputAnnounced(w: World, st: State, m: Message, free: seq<u16>, fd: int) returns (r: State)
    requires Inv(st) && m.Add? && !Open(st, fd)
    ensures r == Broadcast(w, Tick(st).(freeIds := free), m, false) && Inv(r) && !Open(r, fd)
  {
    var st1 := Tick(st).(freeIds := free);
    UnrelatedInv(st, st1);
    r := Broadcast(w, st1, m, false);
    BroadcastInv(w, st1, m);
    SameOutputsOpen(st, r, fd);
  }

  lemma AddInputInv(w: World, st: State, name: string)
    requires Inv(st)
    ensures Inv(AddInput(w, st, name).state)
  {
    if InputNamed(st.inputs, name) == |st.inputs| && |st.inputs| <= 0xffff {
      var (id, free) := NextId(|st.inputs|, st.freeIds);
      var opening := Opens(w, st);
      if opening.NotOpened? {
        UnrelatedInv(st, AddInput(w, st, name).state);
      } else {
        var announced := InputAnnounced(w, st, Add(id, opening.device), free, opening.fd);
        RegisterInputInv(announced, Input(name, id, opening.fd, opening.device,
                                          opening.device.name[..NameLength(opening.device.name)], false));
      }
    }
  }

  lemma SameOutputsOpen(a: State, b: State, fd: int)
    requires SameOutputs(a.outputs, b.outputs)
    requires b.server == a.server && b.clients == a.clients && b.inputs == a.inputs
    ensures Open(a, fd) == Open(b, fd)
  {
    if HasOutput(a.outputs, fd) {
      var k :| 0 <= k < |a.outputs| && a.outputs[k].fd == fd;
      assert b.outputs[k].fd == fd;
    }
  }

  lemma InputOpen(st: State, k: nat)
    requires Tables(st) && k < |st.inputs|
    ensures st.inputs[k].fd in st.callbacks && st.inputs[k].fd != st.server
  {
    assert HasInput(st.inputs, st.inputs[k].fd) && Open(st, st.inputs[k].fd);
  }

  lemma OutputOpen(st: State, k: nat)
    requires Tables(st) && k < |st.outputs|
    ensures st.outputs[k].fd in st.callbacks && st.outputs[k].fd != st.server
  {
    assert HasOutput(st.outputs, st.outputs[k].fd) && Open(st, st.outputs[k].fd);
  }

  /** Changing what an input is, not where it is. */
  lemma ChangeInputInv(st: State, k: nat, input: Input)
    requires Inv(st) && k < |st.inputs| && input.fd == st.inputs[k].fd && input.id == st.inputs[k].id
    ensures Inv(st.(inputs := st.inputs[k := input]))
  {
    var st' := st.(inputs := st.inputs[k := input]);
    assert forall j :: 0 <= j < |st.inputs| ==>
        st'.inputs[j].fd == st.inputs[j].fd && st'.inputs[j].id == st.inputs[j].id;
    forall fd
      ensures Open(st', fd) == Open(st, fd)
    {
      if HasInput(st.inputs, fd) {
        var j :| 0 <= j < |st.inputs| && st.inputs[j].fd == fd;
        assert st'.inputs[j].fd == fd;
      }
    }
    forall h | h in st'.hotkeys
      ensures HasId(st'.inputs, h.device)
    {
      var j :| 0 <= j < |st.inputs| && st.inputs[j].id == h.device;
      assert st'.inputs[j].id == h.device;
    }
  }

  lemma RenameInputInv(st: State, name: string, to: seq<byte>)
    requires Inv(st)
    ensures Inv(RenameInput(st, name, to).state)
  {
    var k := InputNamed(st.inputs, name);
    if k < |st.inputs| {
      var renamed := Renamed(st.inputs[k].device, to);
      if renamed.Some? {
        ChangeInputInv(st, k, st.inputs[k].(device := renamed.value));
      }
    }
  }

  lemma RemoveInputInv(st: State, name: string)
    requires Inv(st)
    ensures Inv(RemoveInput(st, name).state)
  {
    var k := InputNamed(st.inputs, name);
    if k < |st.inputs| {
      InputOpen(st, k);
      RemoveFDInv(st, st.inputs[k].fd);
    }
  }

  lemma ResetNameInv(st: State, name: string)
    requires Inv(st)
    ensures Inv(ResetName(st, name).state)
  {
    var k := InputNamed(st.inputs, name);
    if k < |st.inputs| {
      RenameInputInv(st, name, st.inputs[k].realName);
    }
  }

  lemma SetPersistentInv(st: State, name: string, on: Option<bool>)
    requires Inv(st)
    ensures Inv(SetPersistent(st, name, on).state)
  {
    var k := InputNamed(st.inputs, name);
    if k < |st.inputs| && on.Some? {
      ChangeInputInv(st, k, st.inputs[k].(persistent := on.value));
    }
  }

  // ----- outputs -----

  lemma {:induction false} AnnounceAllQuiet(w: World, clock: nat, o: Output, inputs: seq<Input>, seen: seq<Sighting>)
    requires RoutedOk(o, seen)
    ensures var r := AnnounceAll(w, clock, o, inputs);
            RoutedOk(r, seen) && r.fd == o.fd && r.name == o.name && r.resumed == o.resumed
    decreases |inputs|
  {
    if inputs != [] {
      var o' := Deliver(o, Add(inputs[0].id, inputs[0].device), w.writes(clock, o.fd));
      DeliverQuiet(o, Add(inputs[0].id, inputs[0].device), w.writes(clock, o.fd), seen);
      if w.writes(clock, o.fd) {
        AnnounceAllQuiet(w, clock + 1, o', inputs[1..], seen);
      }
    }
  }

  lemma InsertOutputTables(st: State, st': State, k: nat, o: Output)
    requires Tables(st) && k <= |st.outputs| && o.fd >= 0 && !Open(st, o.fd)
    requires st'.outputs == Insert(st.outputs, k, o) && st'.callbacks == st.callbacks[o.fd := OnOutput]
    requires st'.server == st.server && st'.clients == st.clients && st'.inputs == st.inputs
    ensures Tables(st')
  {
    PartsOpen(st);
    InsertedOutputs(st.outputs, k, o);
    assert Keyed(st');
    assert forall j :: 0 <= j < |st'.outputs| && j != k ==> st'.outputs[j] == st.outputs[if j < k then j else j - 1];
    assert Kinded(st');
  }

  lemma InsertOutputCurrent(st: State, st': State, k: nat, o: Output)
    requires CurrentOk(st) && k <= |st.outputs| && st'.outputs == Insert(st.outputs, k, o)
    requires st'.current == st.current && st'.currentName == st.currentName
    ensures CurrentOk(st')
  {
    if st.current != -1 {
      var j :| 0 <= j < |st.outputs| && st.outputs[j].fd == st.current && st.outputs[j].name == st.currentName;
      assert st'.outputs[if j < k then j else j + 1] == st.outputs[j];
    }
  }

  lemma RegisterOutputInv(st: State, o: Output)
    requires Inv(st) && o.fd >= 0 && !Open(st, o.fd) && RoutedOk(o, st.seen)
    ensures Inv(RegisterOutput(st, o)) && o.fd in RegisterOutput(st, o).callbacks && o.fd != st.server
  {
    var st' := RegisterOutput(st, o);
    InsertOutputTables(st, st', OutputSlot(st.outputs, o.name), o);
    InsertOutputCurrent(st, st', OutputSlot(st.outputs, o.name), o);
    assert forall j :: 0 <= j < |st'.outputs| ==> st'.outputs[j] == o || RoutedOk(st'.outputs[j], st.seen);
    assert Core(st') && RemovalsOk(st', st'.removeQueue);
    assert PollingOk(st', st'.polled) && PollingOk(st', st'.addQueue);
  }

  lemma GreetedOutput(st: State, name: string, fd: int, resume: bool)
    ensures RoutedOk(NewOutput(st, name, fd, resume), st.seen)
  {
    EventsOfAppend([], Hello);
    assert [] + [Hello] == [Hello];
  }

  lemma EnteredInv(st: State, o: Output)
    requires Inv(st) && o.fd >= 0 && !Open(st, o.fd) && RoutedOk(o, st.seen)
    ensures Inv(Entered(st, o))
  {
    RegisterOutputInv(st, o);
    if o.broken {
      RemoveFDInv(RegisterOutput(st, o), o.fd);
    }
  }

  lemma AnnouncedQuiet(w: World, clock: nat, o: Output, inputs: seq<Input>, seen: seq<Sighting>) returns (r: Output)
    requires RoutedOk(o, seen)
    ensures r == Announced(w, clock, o, inputs) && RoutedOk(r, seen) && r.fd == o.fd
  {
    AnnounceAllQuiet(w, clock, o, inputs, seen);
    r := Announced(w, clock, o, inputs);
  }

  lemma EnterOutputInv(w: World, st: State, o: Output)
    requires Inv(st) && o.fd >= 0 && !Open(st, o.fd) && RoutedOk(o, st.seen)
    ensures Inv(EnterOutput(w, st, o))
  {
    var announced := AnnouncedQuiet(w, st.clock, o, st.inputs, st.seen);
    var st1 := LaterInv(st, |st.inputs|, o.fd);
    EnteredInv(st1, announced);
  }

  lemma LaterInv(st: State, n: nat, fd: int) returns (r: State)
    requires Inv(st) && !Open(st, fd)
    ensures r == st.(clock := st.clock + n) && Inv(r) && !Open(r, fd)
  {
    r := st.(clock := st.clock + n);
    UnrelatedInv(st, r);
    SameOutputsOpen(st, r, fd);
  }

  lemma AddOutputInv(w: World, st: State, name: string, resume: bool)
    requires Inv(st)
    ensures Inv(AddOutput(w, st, name, resume).state)
  {
    var opening := Opens(w, st);
    UnrelatedInv(st, Tick(st));
    UnrelatedInv(st, Tick(Tick(st)));
    if opening.Opened? {
      GreetedInv(w, st, name, opening.fd, resume);
    }
  }

  lemma GreetedInv(w: World, st: State, name: string, fd: int, resume: bool)
    requires Inv(st) && fd >= 0 && !Open(st, fd)
    ensures Inv(EnterOutput(w, Tick(Tick(st)), NewOutput(st, name, fd, resume)))
  {
    var st2 := LaterInv(st, 2, fd);
    assert st2 == Tick(Tick(st));
    GreetedOutput(st, name, fd, resume);
    EnterOutputInv(w, st2, NewOutput(st, name, fd, resume));
  }

  lemma RemoveOutputInv(st: State, name: string)
    requires Inv(st)
    ensures Inv(RemoveOutput(st, name).state)
  {
    var k := OutputNamed(st.outputs, name);
    if k < |st.outputs| {
      OutputOpen(st, k);
      RemoveFDInv(st, st.outputs[k].fd);
    }
  }

  lemma UseOutputInv(st: State, name: string)
    requires Inv(st)
    ensures Inv(UseOutput(st, name).state)
  {
    var st' := UseOutput(st, name).state;
    assert forall fd :: Open(st', fd) == Open(st, fd);
  }

  // ----- hotkeys and the other commands -----

  /** Hotkeys of live inputs may be replaced by any others of live inputs. */
  lemma ChangeHotkeysInv(st: State, hotkeys: map<HotkeyDef, string>)
    requires Inv(st) && forall h :: h in hotkeys ==> HasId(st.inputs, h.device)
    ensures Inv(st.(hotkeys := hotkeys))
  {
    assert forall fd :: Open(st.(hotkeys := hotkeys), fd) == Open(st, fd);
  }

  lemma HotkeyInv(st: State, name: string, spec: Option<HotkeySpec>, text: string)
    requires Inv(st)
    ensures Inv(AddHotkey(st, name, spec, text).state) && Inv(RemoveHotkey(st, name, spec).state)
  {
    var k := InputNamed(st.inputs, name);
    if k < |st.inputs| && spec.Some? {
      assert HasId(st.inputs, st.inputs[k].id);
      ChangeHotkeysInv(st, AddHotkey(st, name, spec, text).state.hotkeys);
      ChangeHotkeysInv(st, RemoveHotkey(st, name, spec).state.hotkeys);
    }
  }

  lemma SwitchWritingInv(st: State, switching: Switching)
    requires Inv(st)
    ensures Inv(SwitchWriting(st, switching).state)
  {
    UnrelatedInv(st, SwitchWriting(st, switching).state);
  }

  predicate OnInputs(action: Action) {
    action.InputAdd? || action.InputRemove? || action.InputRename? || action.InputResetName? || action.InputPersist?
  }

  predicate OnOutputs(action: Action) {
    action.OutputAdd? || action.OutputRemove? || action.OutputUse?
  }

  lemma ExecInputInv(w: World, st: State, action: Action)
    requires Inv(st) && OnInputs(action)
    ensures Inv(Exec(w, st, action).state)
  {
    match action
    case InputAdd(name) => AddInputInv(w, st, name);
    case InputRemove(name) => RemoveInputInv(st, name);
    case InputRename(name, to) => RenameInputInv(st, name, to);
    case InputResetName(name) => ResetNameInv(st, name);
    case InputPersist(name, on) => SetPersistentInv(st, name, on);
  }

  lemma ExecOutputInv(w: World, st: State, action: Action) returns (r: State)
    requires Inv(st) && OnOutputs(action)
    ensures r == Exec(w, st, action).state && Inv(r)
  {
    if action.OutputAdd? {
      AddOutputInv(w, st, action.name, action.resume);
      r := AddOutput(w, st, action.name, action.resume).state;
    } else if action.OutputRemove? {
      RemoveOutputInv(st, action.name);
      r := RemoveOutput(st, action.name).state;
    } else {
      UseOutputInv(st, action.name);
      r := UseOutput(st, action.name).state;
    }
  }

  lemma ExecOtherInv(w: World, st: State, action: Action)
    requires Inv(st) && !OnInputs(action) && !OnOutputs(action)
    ensures Inv(Exec(w, st, action).state)
  {
    match action
    case HotkeyAdd(name, spec, text) => HotkeyInv(st, name, spec, text);
    case HotkeyRemove(name, spec) => HotkeyInv(st, name, spec, "");
    case WriteEvents(switching) => SwitchWritingInv(st, switching);
    case Grab(switching) => UnrelatedInv(st, Tick(st)); SwitchWritingInv(Tick(st), switching);
    case Quit => UnrelatedInv(st, st.(quit := true));
    case Outside => UnrelatedInv(st, Tick(st));
    case _ =>
  }

  lemma ExecInv(w: World, st: State, action: Action)
    requires Inv(st)
    ensures Inv(Exec(w, st, action).state)
  {
    if OnInputs(action) {
      ExecInputInv(w, st, action);
    } else if OnOutputs(action) {
      var r := ExecOutputInv(w, st, action);
    } else {
      ExecOtherInv(w, st, action);
    }
  }

  lemma AddInputClients(w: World, st: State, name: string)
    ensures AddInput(w, st, name).state.clients == st.clients
  {}

  lemma AddOutputClients(w: World, st: State, name: string, resume: bool)
    ensures AddOutput(w, st, name, resume).state.clients == st.clients
  {
    var opening := Opens(w, st);
    if opening.Opened? {
      EnterOutputClients(w, Tick(Tick(st)), NewOutput(st, name, opening.fd, resume));
    }
  }

  lemma EnterOutputClients(w: World, st: State, o: Output)
    ensures EnterOutput(w, st, o).clients == st.clients
  {}

  /** No command unregisters a client. */
  lemma ExecClients(w: World, st: State, action: Action)
    ensures Exec(w, st, action).state.clients == st.clients
  {
    match action
    case InputAdd(name) => AddInputClients(w, st, name);
    case OutputAdd(name, resume) => AddOutputClients(w, st, name, resume);
    case _ =>
  }

  lemma ReplyInv(w: World, st: State, client: int)
    requires Inv(st) && (client == -1 || client in st.clients)
    ensures Inv(Reply(w, st, client)) && Reply(w, st, client).clients == st.clients
  {
    if client >= 0 {
      UnrelatedInv(st, Tick(st));
      assert Open(st, client);
      RemoveFDInv(Tick(st), client);
    }
  }

  lemma {:induction false} RunAllInv(w: World, st: State, client: int, lists: seq<seq<string>>)
    requires Inv(st) && (client == -1 || client in st.clients)
    ensures Inv(RunAll(w, st, client, lists)) && RunAll(w, st, client, lists).clients == st.clients
    decreases |lists|
  {
    if lists != [] {
      var done := Exec(w, st, Interpret(lists[0]));
      ExecInv(w, st, Interpret(lists[0]));
      ExecClients(w, st, Interpret(lists[0]));
      ReplyInv(w, done.state, client);
      if done.ok {
        RunAllInv(w, Reply(w, done.state, client), client, lists[1..]);
      }
    }
  }

  /** Every queued command runs while its client is still registered: no command takes one away. */
  lemma {:induction false} RunQueueInv(w: World, st: State, queue: seq<Command>)
    requires Inv(st) && forall k :: 0 <= k < |queue| ==> queue[k].client == -1 || queue[k].client in st.clients
    ensures Inv(RunQueue(w, st, queue)) && RunQueue(w, st, queue).clients == st.clients
    decreases |queue|
  {
    if queue != [] {
      RunAllInv(w, st, queue[0].client, Dispatches(queue[0].text));
      RunQueueInv(w, RunAll(w, st, queue[0].client, Dispatches(queue[0].text)), queue[1..]);
    }
  }

  lemma ProcessCommandsInv(w: World, st: State)
    requires Inv(st)
    ensures var st' := ProcessCommands(w, st);
            Inv(st') && st'.commands == [] && st'.clients == st.clients
  {
    RunQueueInv(w, st, st.commands);
    var ran := RunQueue(w, st, st.commands);
    assert forall fd :: Open(ran, fd) == Open(ran.(commands := []), fd);
  }

  // ----- the drain -----

  /** Half way through the drain: what is left to release is registered and no longer polled. */
  ghost predicate Draining(st: State, queue: seq<int>) {
    Core(st) && RemovalsOk(st, queue) && st.addQueue == [] && st.commands == []
    && PollingOk(st, st.polled) && forall fd :: fd in st.polled ==> fd !in queue
  }

  lemma EraseInputTables(st: State, st': State, k: nat)
    requires Tables(st) && k < |st.inputs| && st'.inputs == Erase(st.inputs, k)
    requires st'.callbacks == st.callbacks - {st.inputs[k].fd}
    requires st'.server == st.server && st'.clients == st.clients && st'.outputs == st.outputs
    ensures Tables(st')
  {
    ErasedInputs(st.inputs, k);
    assert Keyed(st');
    assert Kinded(st');
  }

  lemma EraseOutputTables(st: State, st': State, k: nat)
    requires Tables(st) && k < |st.outputs| && st'.outputs == Erase(st.outputs, k)
    requires st'.callbacks == st.callbacks - {st.outputs[k].fd}
    requires st'.server == st.server && st'.clients == st.clients && st'.inputs == st.inputs
    ensures Tables(st')
  {
    ErasedOutputs(st.outputs, k);
    assert Keyed(st');
    assert Kinded(st');
  }

  lemma EraseClientTables(st: State, st': State, gone: int)
    requires Tables(st) && gone in st.clients && st'.clients == st.clients - {gone}
    requires st'.callbacks == st.callbacks - {gone}
    requires st'.server == st.server && st'.inputs == st.inputs && st'.outputs == st.outputs
    ensures Tables(st')
  {
    assert Keyed(st');
    assert Kinded(st');
  }

  lemma KindOfInput(st: State, fd: int)
    requires Tables(st) && fd in st.callbacks && st.callbacks[fd].OnInput?
    ensures var k := InputAt(st.inputs, fd); k < |st.inputs| && st.inputs[k].id == st.callbacks[fd].id
  {
    assert Open(st, fd);
  }

  lemma KindOfOutput(st: State, fd: int)
    requires Tables(st) && fd in st.callbacks && st.callbacks[fd].OnOutput?
    ensures OutputAt(st.outputs, fd) < |st.outputs|
  {
    assert Open(st, fd);
  }

  /** The state after the announcement of a removal, when there is one. */
  lemma AnnouncedRemoval(w: World, st: State, input: Input) returns (r: State)
    requires Core(st)
    ensures Core(r) && r == if input.persistent then st else Broadcast(w, st, Remove(input.id), true)
    ensures r.inputs == st.inputs && r.callbacks == st.callbacks && r.server == st.server && r.clients == st.clients
    ensures r.hotkeys == st.hotkeys && r.commands == st.commands
  {
    BroadcastCore(w, st, Remove(input.id), true);
    r := if input.persistent then st else Broadcast(w, st, Remove(input.id), true);
  }

  lemma EraseInputCore(st: State, st': State, k: nat)
    requires Core(st) && st.commands == [] && k < |st.inputs|
    requires st'.inputs == Erase(st.inputs, k) && st'.callbacks == st.callbacks - {st.inputs[k].fd}
    requires forall h :: h in st'.hotkeys ==> h in st.hotkeys && h.device != st.inputs[k].id
    requires st' == st.(inputs := st'.inputs, callbacks := st'.callbacks, hotkeys := st'.hotkeys,
                        freeIds := st'.freeIds, released := st'.released)
    ensures Core(st')
  {
    EraseInputTables(st, st', k);
    ErasedInputs(st.inputs, k);
  }

  lemma ReleaseInputCore(w: World, st: State, fd: int)
    requires Core(st) && st.commands == [] && fd in st.callbacks && st.callbacks[fd].OnInput?
    ensures Core(ReleaseOne(w, st, fd))
  {
    KindOfInput(st, fd);
    var k := InputAt(st.inputs, fd);
    var announced := AnnouncedRemoval(w, st, st.inputs[k]);
    EraseInputCore(announced, ReleaseOne(w, st, fd), k);
  }

  lemma EraseOutputCurrent(st: State, st': State, k: nat)
    requires CurrentOk(st) && k < |st.outputs| && st'.outputs == Erase(st.outputs, k)
    requires st'.current == -1
             || (st'.current == st.current != st.outputs[k].fd && st'.currentName == st.currentName)
    ensures CurrentOk(st')
  {
    if st'.current != -1 {
      var j :| 0 <= j < |st.outputs| && st.outputs[j].fd == st.current && st.outputs[j].name == st.currentName;
      assert st'.outputs[if j < k then j else j - 1] == st.outputs[j];
    }
  }

  lemma FinishOutputFields(w: World, st: State, fd: int)
    requires OutputAt(st.outputs, fd) < |st.outputs|
    ensures var r := FinishOutputRemoval(st, fd);
            && r.outputs == Erase(st.outputs, OutputAt(st.outputs, fd))
            && r == st.(outputs := r.outputs, current := r.current, currentName := r.currentName, writing := r.writing)
            && (r.current == -1 || (r.current == st.current != fd && r.currentName == st.currentName))
  {}

  lemma ReleaseOutputCore(w: World, st: State, fd: int)
    requires Core(st) && st.commands == [] && fd in st.callbacks && st.callbacks[fd].OnOutput?
    ensures Core(ReleaseOne(w, st, fd))
  {
    KindOfOutput(st, fd);
    FinishOutputFields(w, st, fd);
    var k, removed := OutputAt(st.outputs, fd), FinishOutputRemoval(st, fd);
    assert ReleaseOne(w, st, fd) == Forget(removed, fd);
    EraseOutputTables(st, Forget(removed, fd), k);
    EraseOutputCurrent(st, Forget(removed, fd), k);
  }

  /** No fallback: releasing the current output leaves none current and writing off; releasing
      anything else changes neither. */
  lemma NoFallback(w: World, st: State, fd: int)
    requires Core(st) && fd in st.callbacks
    ensures var r := ReleaseOne(w, st, fd);
            if st.current == fd then r.current == -1 && !r.writing
            else r.current == st.current && r.writing == st.writing
  {
    if st.callbacks[fd].OnOutput? {
      KindOfOutput(st, fd);
      FinishOutputCurrent(st, fd);
    } else {
      if st.current == fd {
        CurrentIsOutput(st, fd);
      }
      OtherReleaseCurrent(w, st, fd);
    }
  }

  lemma CurrentIsOutput(st: State, fd: int)
    requires Core(st) && fd in st.callbacks && st.current == fd
    ensures st.callbacks[fd].OnOutput?
  {
    var k :| 0 <= k < |st.outputs| && st.outputs[k].fd == fd && st.outputs[k].name == st.currentName;
  }

  lemma OtherReleaseCurrent(w: World, st: State, fd: int)
    requires fd in st.callbacks && !st.callbacks[fd].OnOutput?
    ensures var r := ReleaseOne(w, st, fd); r.current == st.current && r.writing == st.writing
  {
    if st.callbacks[fd].OnInput? {
      FinishDeviceCurrent(w, st, fd);
    }
  }

  lemma FinishDeviceCurrent(w: World, st: State, fd: int)
    ensures var r := FinishDeviceRemoval(w, st, fd); r.current == st.current && r.writing == st.writing
  {
    var k := InputAt(st.inputs, fd);
    if k < |st.inputs| {
      AnnouncedCurrent(w, st, k);
    }
  }

  lemma AnnouncedCurrent(w: World, st: State, k: nat)
    requires k < |st.inputs|
    ensures var r := RemovalAnnounced(w, st, k); r.current == st.current && r.writing == st.writing
  {}

  lemma FinishOutputCurrent(st: State, fd: int)
    ensures var r := FinishOutputRemoval(st, fd);
            if st.current == fd then r.current == -1 && !r.writing
            else r.current == st.current && r.writing == st.writing
  {}

  lemma ReleaseClientCore(w: World, st: State, fd: int)
    requires Core(st) && st.commands == [] && fd in st.callbacks && st.callbacks[fd].OnClient?
    ensures Core(ReleaseOne(w, st, fd)) && fd in st.clients
  {
    assert Open(st, fd);
    EraseClientTables(st, ReleaseOne(w, st, fd), fd);
  }

  /** What a removal callback leaves alone: the callback map, the queues and the histories. */
  ghost predicate SameQueues(a: State, b: State) {
    b == a.(clock := b.clock, crashed := b.crashed, clients := b.clients, freeIds := b.freeIds, inputs := b.inputs,
            outputs := b.outputs, current := b.current, currentName := b.currentName, writing := b.writing,
            hotkeys := b.hotkeys)
  }

  lemma FinishDeviceFrame(w: World, st: State, fd: int)
    ensures SameQueues(st, FinishDeviceRemoval(w, st, fd))
  {
    var k := InputAt(st.inputs, fd);
    if k < |st.inputs| {
      AnnouncedFrame(w, st, k);
    }
  }

  lemma AnnouncedFrame(w: World, st: State, k: nat)
    requires k < |st.inputs|
    ensures SameQueues(st, RemovalAnnounced(w, st, k))
  {
    DropFailedKeeps(w, st.clock, st.removeQueue, true, st.outputs, |st.outputs|);
  }

  lemma FinishOutputFrame(st: State, fd: int)
    ensures SameQueues(st, FinishOutputRemoval(st, fd))
  {}

  lemma OnRemoveFrame(w: World, st: State, fd: int, cb: Callback)
    ensures SameQueues(st, OnRemove(w, st, fd, cb))
  {
    match cb
    case OnInput(_) => FinishDeviceFrame(w, st, fd);
    case OnOutput => FinishOutputFrame(st, fd);
    case _ =>
  }

  lemma ReleaseOneFrame(w: World, st: State, fd: int)
    requires fd in st.callbacks
    ensures var r := ReleaseOne(w, st, fd);
            && r.callbacks == st.callbacks - {fd} && r.released == st.released + [fd] && r.polled == st.polled
            && r.removeQueue == st.removeQueue && r.addQueue == st.addQueue && r.commands == st.commands
            && r.server == st.server
  {
    OnRemoveFrame(w, st, fd, st.callbacks[fd]);
    ForgetFrame(st, OnRemove(w, st, fd, st.callbacks[fd]), fd);
  }

  lemma ForgetFrame(st: State, removed: State, fd: int)
    requires SameQueues(st, removed)
    ensures var r := Forget(removed, fd);
            && r.callbacks == st.callbacks - {fd} && r.released == st.released + [fd] && r.polled == st.polled
            && r.removeQueue == st.removeQueue && r.addQueue == st.addQueue && r.commands == st.commands
            && r.server == st.server
  {}

  lemma ReleaseOneCore(w: World, st: State, fd: int)
    requires Core(st) && st.commands == [] && fd in st.callbacks && fd != st.server
    ensures Core(ReleaseOne(w, st, fd))
  {
    assert Open(st, fd);
    match st.callbacks[fd]
    case OnServer =>
    case OnClient => ReleaseClientCore(w, st, fd);
    case OnInput(_) => ReleaseInputCore(w, st, fd);
    case OnOutput => ReleaseOutputCore(w, st, fd);
  }

  lemma ReleaseOneInv(w: World, st: State, queue: seq<int>)
    requires Draining(st, queue) && queue != []
    ensures Draining(ReleaseOne(w, st, queue[0]), queue[1..])
  {
    assert queue[0] in queue && forall x :: x in queue[1..] ==> x in queue && x != queue[0];
    ReleaseOneCore(w, st, queue[0]);
    ReleaseOneFrame(w, st, queue[0]);
  }

  lemma {:induction false} ReleaseFromInv(w: World, st: State, queue: seq<int>)
    requires Draining(st, queue)
    ensures Draining(ReleaseFrom(w, st, queue), [])
    decreases |queue|
  {
    if queue != [] {
      ReleaseOneInv(w, st, queue);
      ReleaseFromInv(w, ReleaseOne(w, st, queue[0]), queue[1..]);
    }
  }

  lemma {:induction false} ReleaseFromExact(w: World, st: State, queue: seq<int>)
    requires NoRepeats(queue) && forall fd :: fd in queue ==> fd in st.callbacks
    ensures ReleaseFrom(w, st, queue).polled == st.polled
    ensures ReleaseFrom(w, st, queue).released == st.released + queue
    ensures forall fd :: fd in ReleaseFrom(w, st, queue).callbacks <==> fd in st.callbacks && fd !in queue
    decreases |queue|
  {
    if queue == [] {
      assert st.released + queue == st.released;
    } else {
      var fd, rest := queue[0], queue[1..];
      assert fd in queue && fd !in rest && queue == [fd] + rest;
      Regroup(st.released, [fd], rest, []);
      ReleaseOneFrame(w, st, fd);
      ReleaseFromExact(w, ReleaseOne(w, st, fd), rest);
    }
  }

  lemma MergeFilterInv(st: State)
    requires Inv(st) && st.commands == []
    ensures Draining(FilterPolled(MergeAdds(st)), st.removeQueue)
  {
    Unrelated(st, FilterPolled(MergeAdds(st)));
  }

  /** The whole deferred removal: every queued descriptor is released exactly once, in the order
      queued, and is then in no table, queue or poll list. */
  lemma DrainExact(w: World, st: State)
    requires Inv(st) && st.commands == []
    ensures var st' := ProcessRemoveQueue(w, FilterPolled(MergeAdds(st)));
            && Inv(st') && st'.commands == [] && st'.removeQueue == [] && st'.addQueue == []
            && st'.released == st.released + st.removeQueue && NoRepeats(st.removeQueue)
            && (forall fd :: fd in st.removeQueue ==> fd !in st'.polled && fd !in st'.callbacks && !Open(st', fd))
            && (forall fd :: fd in st'.polled <==> (fd in st.polled || fd in st.addQueue) && fd !in st.removeQueue)
  {
    MergeFilterInv(st);
    var st1 := FilterPolled(MergeAdds(st));
    ReleaseFromInv(w, st1, st.removeQueue);
    ReleaseFromExact(w, st1, st.removeQueue);
    var st2 := ReleaseFrom(w, st1, st.removeQueue);
    Unrelated(st2, st2.(removeQueue := []));
  }

  // ----- callbacks -----

  lemma NewCommandClientInv(w: World, st: State)
    requires Inv(st)
    ensures Inv(NewCommandClient(w, st))
  {
    var opening := Opens(w, st);
    var st' := NewCommandClient(w, st);
    if opening.NotOpened? {
      UnrelatedInv(st, st');
    } else {
      assert forall x :: Open(st', x) <==> Open(st, x) || x == opening.fd;
      assert forall j :: 0 <= j < |st.inputs| ==> HasInput(st.inputs, st.inputs[j].fd) && Open(st, st.inputs[j].fd);
      assert forall j :: 0 <= j < |st.outputs| ==>
          HasOutput(st.outputs, st.outputs[j].fd) && Open(st, st.outputs[j].fd);
      assert forall x :: x in st.clients ==> Open(st, x);
      assert Open(st, st.server);
    }
  }

  lemma ReadCommandInv(w: World, st: State, fd: int)
    requires Inv(st) && fd in st.clients
    ensures Inv(ReadCommand(w, st, fd))
  {
    UnrelatedInv(st, Tick(st));
    assert Open(st, fd);
    RemoveFDInv(Tick(st), fd);
    var st' := ReadCommand(w, st, fd);
    assert forall x :: Open(st', x) == Open(st, x);
  }

  /** Each read event meets exactly one fate: it queues one hotkey command, or goes once to the
      current output, or is dropped; and what it meets is noted. */
  lemma RouteEventFate(w: World, st: State, id: u16, e: InputEvent)
    requires Inv(st)
    ensures var st' := RouteEvent(w, st, id, e);
            var hotkey := IsHotkey(st, id, e);
            var sent := !hotkey && st.current != -1 && st.writing;
            && st'.seen == st.seen + [Sighting(id, e, st.current, st.writing, hotkey)]
            && (hotkey ==> var def := HotkeyDef(id, HotkeySpec(e.kind, e.code, e.value));
                           def in st.hotkeys && st'.commands == st.commands + [Command(-1, st.hotkeys[def])])
            && (!hotkey ==> st'.commands == st.commands)
            && |st'.outputs| == |st.outputs|
            && (!sent ==> st'.outputs == st.outputs && st'.removeQueue == st.removeQueue)
            && (sent ==> exists k :: 0 <= k < |st.outputs| && st.outputs[k].fd == st.current
                           && var o := Deliver(st.outputs[k], Event(id, e), w.writes(st.clock, st.current));
                              st'.outputs == st.outputs[k := o])
  {
    var st' := RouteEvent(w, st, id, e);
    if !IsHotkey(st, id, e) && st.current != -1 && st.writing {
      var k :| 0 <= k < |st.outputs| && st.outputs[k].fd == st.current && st.outputs[k].name == st.currentName;
      assert st'.outputs == st.outputs[k := Deliver(st.outputs[k], Event(id, e), w.writes(st.clock, st.current))];
    }
  }

  /** No fallback either when the write of an event fails: no output is current then, and writing is
      off; nothing else routing does changes them. */
  lemma FailedWriteLosesCurrent(w: World, st: State, id: u16, e: InputEvent)
    ensures var r := RouteEvent(w, st, id, e);
            var sent := !IsHotkey(st, id, e) && st.current != -1 && st.writing;
            if sent && !w.writes(st.clock, st.current) then r.current == -1 && !r.writing
            else r.current == st.current && r.writing == st.writing
  {}

  lemma RoutingStep(o: Output, seen: seq<Sighting>, s: Sighting, current: int, ok: bool)
    requires RoutedOk(o, seen)
    ensures var sent := s.current == o.fd && s.writing && !s.hotkey;
            RoutedOk(if sent then Deliver(o, Event(s.id, s.event), ok) else o, seen + [s])
  {
    RoutedAppend(seen, o.since, s, o.fd);
    EventsOfAppend(o.log, Event(s.id, s.event));
    assert Routed(seen[o.since..], o.fd) + [] == Routed(seen[o.since..], o.fd);
  }

  lemma RouteEventRouting(w: World, st: State, id: u16, e: InputEvent)
    requires Inv(st)
    ensures RoutingOk(RouteEvent(w, st, id, e))
  {
    var st' := RouteEvent(w, st, id, e);
    var s := Sighting(id, e, st.current, st.writing, IsHotkey(st, id, e));
    var ok := w.writes(st.clock, st.current);
    forall k | 0 <= k < |st'.outputs|
      ensures RoutedOk(st'.outputs[k], st'.seen)
    {
      OutputOpen(st, k);
      RoutingStep(st.outputs[k], st.seen, s, st.current, ok);
    }
  }

  /** What routing an event leaves as it was. */
  ghost predicate RoutedFrom(a: State, b: State) {
    && b.crashed == a.crashed && b.server == a.server && b.callbacks == a.callbacks && b.clients == a.clients
    && b.inputs == a.inputs && b.hotkeys == a.hotkeys && SameOutputs(a.outputs, b.outputs)
    && (b.current == -1 || (b.current == a.current && b.currentName == a.currentName))
    && forall k :: 0 <= k < |b.commands| ==> b.commands[k].client == -1 || b.commands[k] in a.commands
  }

  lemma RoutedCore(a: State, b: State)
    requires Core(a) && RoutedFrom(a, b) && RoutingOk(b)
    ensures Core(b)
  {
    SameOutputsTables(a, b);
  }

  lemma RouteEventFrame(w: World, st: State, id: u16, e: InputEvent)
    ensures RoutedFrom(st, RouteEvent(w, st, id, e))
  {
    if IsHotkey(st, id, e) || st.current == -1 || !st.writing {
      assert SameOutputs(st.outputs, RouteEvent(w, st, id, e).outputs);
    } else {
      var ok := w.writes(st.clock, st.current);
      DeliverToSame(st.outputs, st.current, Event(id, e), ok);
    }
  }

  lemma DeliverToSame(outputs: seq<Output>, fd: int, m: Message, ok: bool)
    ensures SameOutputs(outputs, DeliverTo(outputs, fd, m, ok))
  {}

  lemma RouteEventCore(w: World, st: State, id: u16, e: InputEvent) returns (r: State)
    requires Inv(st)
    ensures r == RouteEvent(w, st, id, e) && Core(r)
  {
    RouteEventRouting(w, st, id, e);
    RouteEventFrame(w, st, id, e);
    r := RouteEvent(w, st, id, e);
    RoutedCore(st, r);
  }

  lemma RouteEventInv(w: World, st: State, id: u16, e: InputEvent)
    requires Inv(st)
    ensures Inv(RouteEvent(w, st, id, e)) && RouteEvent(w, st, id, e).callbacks == st.callbacks
    ensures RouteEvent(w, st, id, e).polled == st.polled
  {
    var r := RouteEventCore(w, st, id, e);
    if st.current != -1 {
      var k :| 0 <= k < |st.outputs| && st.outputs[k].fd == st.current && st.outputs[k].name == st.currentName;
      OutputOpen(st, k);
      QueuedOk(st, st.removeQueue, st.current);
    }
  }

  /** What no callback takes away. */
  ghost predicate Grown(a: State, b: State) {
    b.polled == a.polled && forall x :: x in a.callbacks ==> x in b.callbacks
  }

  lemma OnReadInv(w: World, st: State, fd: int, cb: Callback)
    requires Inv(st) && fd in st.callbacks && st.callbacks[fd] == cb
    ensures Inv(OnRead(w, st, fd, cb)) && Grown(st, OnRead(w, st, fd, cb))
  {
    assert Open(st, fd);
    match cb
    case OnServer => NewCommandClientInv(w, st);
    case OnClient => ReadCommandInv(w, st, fd);
    case OnInput(id) =>
      if w.events(st.clock).None? {
        UnrelatedInv(st, Tick(st));
        RemoveFDInv(Tick(st), fd);
      } else {
        RouteEventInv(w, st, id, w.events(st.clock).value);
      }
    case OnOutput => RemoveFDInv(st, fd);
  }

  lemma OnFailureInv(st: State, fd: int, cb: Callback)
    requires Inv(st) && fd in st.callbacks && st.callbacks[fd] == cb
    ensures Inv(OnFailure(st, fd, cb)) && Grown(st, OnFailure(st, fd, cb))
    ensures OnFailure(st, fd, cb).callbacks == st.callbacks
  {
    if cb.OnServer? {
      UnrelatedInv(st, st.(quit := true));
    } else {
      RemoveFDInv(st, fd);
    }
  }

  lemma PollOneInv(w: World, st: State, fd: int, r: Revents)
    requires Inv(st) && fd in st.callbacks
    ensures Inv(PollOne(w, st, fd, r)) && Grown(st, PollOne(w, st, fd, r))
  {
    var cb := st.callbacks[fd];
    if r.error {
      OnFailureInv(st, fd, cb);
    }
    var st1 := if r.error then OnFailure(st, fd, cb) else st;
    assert Inv(st1) && st1.callbacks == st.callbacks && Grown(st, st1);
    if r.hup {
      OnFailureInv(st1, fd, cb);
    }
    var st2 := if r.hup then OnFailure(st1, fd, cb) else st1;
    assert Inv(st2) && st2.callbacks == st.callbacks && Grown(st, st2);
    if r.input {
      OnReadInv(w, st2, fd, cb);
    }
  }

  lemma {:induction false} PollFromInv(w: World, st: State, at: nat, fds: seq<int>)
    requires Inv(st) && forall fd :: fd in fds ==> fd in st.callbacks
    ensures Inv(PollFrom(w, st, at, fds))
    decreases |fds|
  {
    if fds != [] && !st.quit {
      assert fds[0] in fds;
      PollOneInv(w, st, fds[0], w.revents(at, fds[0]));
      PollFromInv(w, PollOne(w, st, fds[0], w.revents(at, fds[0])), at, fds[1..]);
    }
  }

  // ----- whole runs -----

  lemma TurnInv(w: World, st: State)
    requires Inv(st)
    ensures Inv(Turn(w, st))
  {
    var st1 := ProcessCommands(w, st);
    ProcessCommandsInv(w, st);
    DrainExact(w, st1);
    var drained := ProcessRemoveQueue(w, FilterPolled(MergeAdds(st1)));
    if !drained.quit {
      UnrelatedInv(drained, Tick(drained));
      PollFromInv(w, Tick(drained), drained.clock, drained.polled);
    }
  }

  lemma InitialInv(server: int, lines: seq<string>)
    requires server >= 0
    ensures Inv(Initial(server, lines))
  {
    var st := Initial(server, lines);
    assert forall fd :: Open(st, fd) <==> fd == server;
  }

  lemma TurnKeepsInv(w: World, st: State)
    ensures Inv(st) ==> Inv(Turn(w, st))
  {
    if Inv(st) {
      TurnInv(w, st);
    }
  }

  lemma TurnAfterRun(w: World, st: State, n: nat)
    requires n > 0
    ensures Inv(Run(w, st, n - 1)) ==> Inv(Run(w, st, n))
  {
    TurnKeepsInv(w, Run(w, st, n - 1));
  }

  lemma RunKeepsInv(w: World, st: State, n: nat)
    requires Inv(st)
    ensures Inv(Run(w, st, n))
  {
    var keeps := (m: nat) => Inv(Run(w, st, m));
    forall m: nat | 0 < m <= n
      ensures Climbs(keeps, m)
    {
      if keeps(m - 1) {
        TurnAfterRun(w, st, m);
      }
    }
    Climb(keeps, 0, n);
  }

  /** In every run of any length, against any world: no internal exception is ever thrown, and the
      callback map, the current output, the hotkeys, the queues and the routing stay consistent. */
  lemma RunInv(w: World, server: int, lines: seq<string>, n: nat)
    requires server >= 0
    ensures Inv(Run(w, Initial(server, lines), n))
  {
    InitialInv(server, lines);
    RunKeepsInv(w, Initial(server, lines), n);
  }
}
