/** Over turns and runs: deferred removal, dispatch order, and which runs meet the guards. */
module DaemonRuns {
  import opened Bytes
  import opened Devices
  import opened Receiver
  import opened Tokenizer
  import opened DaemonState
  import opened DaemonInvariant
  import opened DaemonSync
  import opened DaemonEffects
  import opened DaemonStreams
  import opened DaemonEndToEnd

  /** Nothing queued for removal is taken back, and nothing is released, outside the drain. */
  ghost predicate Kept(a: State, b: State) {
    a.removeQueue <= b.removeQueue && a.released == b.released
  }

  lemma AddInputKeeps(w: World, st: State, name: string)
    ensures Kept(st, AddInput(w, st, name).state)
  {
    DropFailedKeeps(w, st.clock + 1, st.removeQueue, false, st.outputs, |st.outputs|);
  }

  lemma AddOutputKeeps(w: World, st: State, name: string, resume: bool)
    ensures Kept(st, AddOutput(w, st, name, resume).state)
  {
    var opening := Opens(w, st);
    if opening.Opened? {
      EnterOutputKeeps(w, Tick(Tick(st)), NewOutput(st, name, opening.fd, resume));
    }
  }

  lemma EnteredKeeps(st: State, o: Output)
    ensures Kept(st, Entered(st, o))
  {}

  lemma EnterOutputKeeps(w: World, st: State, o: Output)
    ensures Kept(st, EnterOutput(w, st, o))
  {
    EnteredKeeps(st.(clock := st.clock + |st.inputs|), Announced(w, st.clock, o, st.inputs));
  }

  lemma ExecKeeps(w: World, st: State, action: Action)
    ensures Kept(st, Exec(w, st, action).state)
  {
    if action.InputAdd? {
      AddInputKeeps(w, st, action.name);
    } else if action.OutputAdd? {
      AddOutputKeeps(w, st, action.name, action.resume);
    } else {
      OtherKeeps(w, st, action);
    }
  }

  lemma OtherKeeps(w: World, st: State, action: Action)
    requires !action.InputAdd? && !action.OutputAdd?
    ensures Kept(st, Exec(w, st, action).state)
  {}

  lemma ReplyKeeps(w: World, st: State, client: int)
    ensures Kept(st, Reply(w, st, client))
  {}

  lemma {:induction false} RunAllKeeps(w: World, st: State, client: int, lists: seq<seq<string>>)
    ensures Kept(st, RunAll(w, st, client, lists))
    decreases |lists|
  {
    if lists != [] {
      var done := Exec(w, st, Interpret(lists[0]));
      ExecKeeps(w, st, Interpret(lists[0]));
      ReplyKeeps(w, done.state, client);
      if done.ok {
        RunAllKeeps(w, Reply(w, done.state, client), client, lists[1..]);
      }
    }
  }

  lemma {:induction false} RunQueueKeeps(w: World, st: State, queue: seq<Command>)
    ensures Kept(st, RunQueue(w, st, queue))
    decreases |queue|
  {
    if queue != [] {
      var ran := RunAll(w, st, queue[0].client, Dispatches(queue[0].text));
      RunAllKeeps(w, st, queue[0].client, Dispatches(queue[0].text));
      RunQueueKeeps(w, ran, queue[1..]);
    }
  }

  /** Whatever is queued when a turn starts, and whatever its commands queue, is released in that
      turn, once each and in order, and is then registered, polled and open no more. */
  lemma DeferredRemoval(w: World, st: State)
    requires Inv(st)
    ensures var queue := BeforeDrain(w, st).removeQueue;
            var drained := ProcessRemoveQueue(w, BeforeDrain(w, st));
            && st.removeQueue <= queue && NoRepeats(queue)
            && drained.released == st.released + queue
            && drained.removeQueue == [] && drained.addQueue == [] && drained.commands == []
            && forall fd :: fd in queue ==> fd !in drained.polled && fd !in drained.callbacks && !Open(drained, fd)
  {
    var ran := ProcessCommands(w, st);
    RunQueueKeeps(w, st, st.commands);
    ProcessCommandsInv(w, st);
    DrainExact(w, ran);
    assert BeforeDrain(w, st).removeQueue == ran.removeQueue;
  }

  lemma {:induction false} RunQueueSplit(w: World, st: State, queue: seq<Command>, k: nat)
    requires k <= |queue|
    ensures RunQueue(w, st, queue) == RunQueue(w, RunQueue(w, st, queue[..k]), queue[k..])
    decreases k
  {
    if k == 0 {
      assert queue[0..] == queue;
    } else {
      var ran := RunAll(w, st, queue[0].client, Dispatches(queue[0].text));
      assert queue[..k][1..] == queue[1..][..k - 1] && queue[1..][k - 1..] == queue[k..] && queue[..k][0] == queue[0];
      RunQueueSplit(w, ran, queue[1..], k - 1);
    }
  }

  /** In the state in which the k-th queued command is dispatched, its client is still registered,
      even when an earlier command or a failed reply has queued the client for removal. */
  lemma DispatchedWhileRegistered(w: World, st: State, k: nat)
    requires Inv(st) && k < |st.commands|
    ensures var before := RunQueue(w, st, st.commands[..k]);
            var client := st.commands[k].client;
            && (client == -1
                || (client in before.clients && client in before.callbacks && before.callbacks[client] == OnClient))
            && RunQueue(w, st, st.commands) == RunQueue(w, before, st.commands[k..])
  {
    RunQueueInv(w, st, st.commands[..k]);
    RunQueueSplit(w, st, st.commands, k);
  }

  // ----- when the guards hold -----

  /** Every device the world opens has a name with a NUL. */
  ghost predicate Named(w: World) {
    forall t :: w.opens(t).Opened? ==> Terminated(w.opens(t).device)
  }

  /** The guard holds before every release in the drains of the first `n` turns. */
  ghost predicate DrainsWell(topic: Topic, w: World, st: State, n: nat) {
    n == 0
    || (DrainsWell(topic, w, st, n - 1)
        && (Run(w, st, n - 1).quit || DrainedWell(topic, false, w, Run(w, st, n - 1))))
  }

  /** While the id tables are in order, every command is given an id that is not live. */
  lemma {:induction false} OrderlyLists(w: World, st: State, client: int, lists: seq<seq<string>>)
    requires Ok(Numbering, st) && Named(w)
    ensures ListsHold(Streams, false, w, st, client, lists) && Ok(Numbering, RunAll(w, st, client, lists))
    decreases |lists|
  {
    if lists != [] {
      var action := Interpret(lists[0]);
      var done := Exec(w, st, action);
      OrderlyAdd(w, st, action);
      ExecKeepsIds(w, st, action);
      OkSame(Numbering, done.state, Reply(w, done.state, client));
      if done.ok {
        OrderlyLists(w, Reply(w, done.state, client), client, lists[1..]);
      }
    }
  }

  lemma OrderlyAdd(w: World, st: State, action: Action)
    requires Ok(Numbering, st) && Named(w)
    ensures CommandGuard(Streams, w, st, action)
  {
    if action.InputAdd? && Adds(w, st, action.name) {
      AllocateOk(Ids(st.inputs), st.freeIds, 0);
      LiveIds(st.inputs, NewInput(w, st, action.name).id);
    }
  }

  lemma {:induction false} OrderlyQueue(w: World, st: State, queue: seq<Command>)
    requires Ok(Numbering, st) && Named(w)
    ensures QueueHolds(Streams, false, w, st, queue)
    decreases |queue|
  {
    if queue != [] {
      var lists := Dispatches(queue[0].text);
      OrderlyLists(w, st, queue[0].client, lists);
      OrderlyQueue(w, RunAll(w, st, queue[0].client, lists), queue[1..]);
    }
  }

  lemma AlwaysOrderly(w: World, st: State)
    requires Inv(st) && Ok(Numbering, st)
    ensures forall m: nat :: RunHolds(Numbering, false, w, st, m) ==> Ok(Numbering, Run(w, st, m))
  {
    forall m: nat | RunHolds(Numbering, false, w, st, m)
      ensures Ok(Numbering, Run(w, st, m))
    {
      RunExact(Numbering, w, st, m);
    }
  }

  lemma OrderlyBefore(w: World, st: State, n: nat) returns (before: State)
    requires Inv(st) && Ok(Numbering, st) && n > 0 && RunHolds(Numbering, false, w, st, n - 1)
    ensures before == Run(w, st, n - 1) && Ok(Numbering, before)
  {
    AlwaysOrderly(w, st);
    before := Run(w, st, n - 1);
  }

  /** One more turn of a run whose id tables are in order. */
  lemma OrderlyTurn(w: World, st: State, n: nat)
    requires Inv(st) && Ok(Numbering, st) && Named(w) && n > 0
    ensures RunHolds(Numbering, false, w, st, n - 1) && DrainsWell(Streams, w, st, n)
            ==> (RunHolds(Streams, false, w, st, n - 1) ==> RunHolds(Streams, false, w, st, n))
  {
    if RunHolds(Numbering, false, w, st, n - 1) {
      var before := OrderlyBefore(w, st, n);
      OrderlyQueue(w, before, before.commands);
    }
  }

  /** If every removed id is given back or the greatest, and every removal announced, the guards of
      the streams hold along the whole run. */
  lemma OrderlyRun(w: World, st: State, n: nat)
    requires Inv(st) && Ok(Numbering, st) && Named(w)
    requires RunHolds(Numbering, false, w, st, n) && DrainsWell(Streams, w, st, n)
    ensures RunHolds(Streams, false, w, st, n)
  {
    var holds := (m: nat) =>
      RunHolds(Numbering, false, w, st, m) && DrainsWell(Streams, w, st, m) ==> RunHolds(Streams, false, w, st, m);
    forall m: nat | 0 < m <= n
      ensures Climbs(holds, m)
    {
      if holds(m - 1) {
        OrderlyTurn(w, st, m);
      }
    }
    Climb(holds, 0, n);
  }

  lemma {:induction false} AnyLists(w: World, st: State, client: int, lists: seq<seq<string>>)
    ensures ListsHold(Numbering, false, w, st, client, lists)
    decreases |lists|
  {
    if lists != [] {
      var done := Exec(w, st, Interpret(lists[0]));
      AnyLists(w, Reply(w, done.state, client), client, lists[1..]);
    }
  }

  lemma {:induction false} AnyQueue(w: World, st: State, queue: seq<Command>)
    ensures QueueHolds(Numbering, false, w, st, queue)
    decreases |queue|
  {
    if queue != [] {
      var lists := Dispatches(queue[0].text);
      AnyLists(w, st, queue[0].client, lists);
      AnyQueue(w, RunAll(w, st, queue[0].client, lists), queue[1..]);
    }
  }

  /** For the id tables only the drains matter. */
  lemma NumberingIsDrains(w: World, st: State, n: nat)
    ensures RunHolds(Numbering, false, w, st, n) <==> DrainsWell(Numbering, w, st, n)
  {
    var same := (m: nat) => RunHolds(Numbering, false, w, st, m) <==> DrainsWell(Numbering, w, st, m);
    forall m: nat | 0 < m <= n
      ensures Climbs(same, m)
    {
      if same(m - 1) {
        TurnIsDrain(w, st, m);
      }
    }
    Climb(same, 0, n);
  }

  lemma TurnIsDrain(w: World, st: State, n: nat)
    requires n > 0
    ensures (RunHolds(Numbering, false, w, st, n - 1) <==> DrainsWell(Numbering, w, st, n - 1))
            ==> (RunHolds(Numbering, false, w, st, n) <==> DrainsWell(Numbering, w, st, n))
  {
    var before := Run(w, st, n - 1);
    AnyQueue(w, before, before.commands);
  }

  // ----- runs that give ids back, and runs without removals -----

  lemma {:induction false} FreedDrain(w: World, st: State, queue: seq<int>)
    requires w.frees
    ensures DrainHolds(Numbering, false, w, st, queue)
    decreases |queue|
  {
    if queue != [] {
      FreedDrain(w, ReleaseOne(w, st, queue[0]), queue[1..]);
    }
  }

  lemma FreedTurns(w: World)
    requires w.frees
    ensures forall st :: DrainedWell(Numbering, false, w, st)
  {
    forall st
      ensures DrainedWell(Numbering, false, w, st)
    {
      FreedDrain(w, BeforeDrain(w, st), BeforeDrain(w, st).removeQueue);
    }
  }

  lemma FreedRun(w: World, st: State, n: nat)
    requires w.frees
    ensures DrainsWell(Numbering, w, st, n)
  {
    var well := (m: nat) => DrainsWell(Numbering, w, st, m);
    FreedTurns(w);
    assert forall m: nat :: 0 < m <= n ==> Climbs(well, m);
    Climb(well, 0, n);
  }

  ghost predicate NonePersistent(inputs: seq<Input>) {
    forall k :: 0 <= k < |inputs| ==> !inputs[k].persistent
  }

  lemma AnnouncedRelease(w: World, st: State, fd: int)
    requires NonePersistent(st.inputs) && fd in st.callbacks
    ensures GoodRelease(st, fd) && NonePersistent(ReleaseOne(w, st, fd).inputs)
  {
    ReleaseInputs(w, st, fd);
    var k := InputAt(st.inputs, fd);
    if k < |st.inputs| {
      ErasedNonePersistent(st.inputs, k);
    }
  }

  lemma ErasedNonePersistent(inputs: seq<Input>, k: nat)
    requires k < |inputs| && NonePersistent(inputs)
    ensures NonePersistent(Erase(inputs, k))
  {
    var r := Erase(inputs, k);
    assert forall j :: 0 <= j < |r| ==> r[j] == inputs[if j < k then j else j + 1];
  }

  lemma {:induction false} AnnouncedDrain(w: World, st: State, queue: seq<int>)
    requires NonePersistent(st.inputs) && Draining(st, queue)
    ensures DrainHolds(Streams, false, w, st, queue)
    decreases |queue|
  {
    if queue != [] {
      assert queue[0] in queue;
      AnnouncedRelease(w, st, queue[0]);
      ReleaseOneInv(w, st, queue);
      AnnouncedDrain(w, ReleaseOne(w, st, queue[0]), queue[1..]);
    }
  }

  /** No input waits for removal. */
  ghost predicate KeepsInputs(st: State) {
    forall fd :: fd in st.removeQueue && fd in st.callbacks ==> !st.callbacks[fd].OnInput?
  }

  lemma {:induction false} InputFreeDrain(topic: Topic, w: World, st: State, queue: seq<int>)
    requires Draining(st, queue) && forall fd :: fd in queue ==> fd in st.callbacks && !st.callbacks[fd].OnInput?
    ensures DrainHolds(topic, false, w, st, queue)
    decreases |queue|
  {
    if queue != [] {
      assert queue[0] in queue;
      ReleaseOneInv(w, st, queue);
      ReleaseOneFrame(w, st, queue[0]);
      InputFreeDrain(topic, w, ReleaseOne(w, st, queue[0]), queue[1..]);
    }
  }

  lemma DrainStarts(w: World, st: State)
    requires Inv(st)
    ensures Draining(BeforeDrain(w, st), BeforeDrain(w, st).removeQueue)
  {
    ProcessCommandsInv(w, st);
    MergeFilterInv(ProcessCommands(w, st));
  }

  lemma AnnouncedTurn(w: World, st: State)
    ensures Inv(st) && NonePersistent(BeforeDrain(w, st).inputs) ==> DrainedWell(Streams, false, w, st)
  {
    if Inv(st) && NonePersistent(BeforeDrain(w, st).inputs) {
      DrainStarts(w, st);
      AnnouncedDrain(w, BeforeDrain(w, st), BeforeDrain(w, st).removeQueue);
    }
  }

  lemma InputFreeTurn(topic: Topic, w: World, st: State)
    ensures Inv(st) && KeepsInputs(BeforeDrain(w, st)) ==> DrainedWell(topic, false, w, st)
  {
    if Inv(st) && KeepsInputs(BeforeDrain(w, st)) {
      DrainStarts(w, st);
      InputFreeDrain(topic, w, BeforeDrain(w, st), BeforeDrain(w, st).removeQueue);
    }
  }

  /** No persistent input is known when the drain of any of the first `n` turns starts. */
  ghost predicate NonePersistentAlong(w: World, st: State, n: nat) {
    n == 0 || (NonePersistentAlong(w, st, n - 1) && NonePersistent(BeforeDrain(w, Run(w, st, n - 1)).inputs))
  }

  /** No input waits for removal when the drain of any of the first `n` turns starts. */
  ghost predicate KeepsInputsAlong(w: World, st: State, n: nat) {
    n == 0 || (KeepsInputsAlong(w, st, n - 1) && KeepsInputs(BeforeDrain(w, Run(w, st, n - 1))))
  }

  lemma AnnouncedStep(w: World, st: State, n: nat)
    requires Inv(st) && n > 0
    requires NonePersistentAlong(w, st, n - 1) ==> DrainsWell(Streams, w, st, n - 1)
    ensures NonePersistentAlong(w, st, n) ==> DrainsWell(Streams, w, st, n)
  {
    var before := LastTurn(w, st, n);
    AnnouncedTurn(w, before);
  }

  lemma AnnouncedRun(w: World, st: State, n: nat)
    requires Inv(st)
    ensures NonePersistentAlong(w, st, n) ==> DrainsWell(Streams, w, st, n)
  {
    var well := (m: nat) => NonePersistentAlong(w, st, m) ==> DrainsWell(Streams, w, st, m);
    forall m: nat | 0 < m <= n
      ensures Climbs(well, m)
    {
      if well(m - 1) {
        AnnouncedStep(w, st, m);
      }
    }
    Climb(well, 0, n);
  }

  lemma InputFreeStep(topic: Topic, w: World, st: State, n: nat)
    requires Inv(st) && n > 0
    requires KeepsInputsAlong(w, st, n - 1) ==> DrainsWell(topic, w, st, n - 1)
    ensures KeepsInputsAlong(w, st, n) ==> DrainsWell(topic, w, st, n)
  {
    var before := LastTurn(w, st, n);
    InputFreeTurn(topic, w, before);
  }

  lemma InputFreeRun(topic: Topic, w: World, st: State, n: nat)
    requires Inv(st)
    ensures KeepsInputsAlong(w, st, n) ==> DrainsWell(topic, w, st, n)
  {
    var well := (m: nat) => KeepsInputsAlong(w, st, m) ==> DrainsWell(topic, w, st, m);
    forall m: nat | 0 < m <= n
      ensures Climbs(well, m)
    {
      if well(m - 1) {
        InputFreeStep(topic, w, st, m);
      }
    }
    Climb(well, 0, n);
  }

  // ----- whole runs -----

  /** The end-to-end statement for every run in which each released input gives its id back or has the
      greatest, and none goes unannounced. */
  lemma EndToEndWhenOrderly(w: World, server: int, lines: seq<string>, n: nat, k: nat, held: DeviceMap)
    requires server >= 0 && Named(w)
    requires DrainsWell(Numbering, w, Initial(server, lines), n) && DrainsWell(Streams, w, Initial(server, lines), n)
    requires k < |Run(w, Initial(server, lines), n).outputs|
    requires held.Keys == Run(w, Initial(server, lines), n).outputs[k].known
    ensures var st := Run(w, Initial(server, lines), n);
            Follows(st.outputs[k], st, held)
  {
    InitialInv(server, lines);
    InitialOk(Numbering, server, lines);
    NumberingIsDrains(w, Initial(server, lines), n);
    OrderlyRun(w, Initial(server, lines), n);
    EndToEndMirrored(w, server, lines, n, k, held);
  }

  /** If removal gave ids back: for every run that drains no persistent input. */
  lemma EndToEndWhenFreed(w: World, server: int, lines: seq<string>, n: nat, k: nat, held: DeviceMap)
    requires server >= 0 && Named(w) && w.frees && NonePersistentAlong(w, Initial(server, lines), n)
    requires k < |Run(w, Initial(server, lines), n).outputs|
    requires held.Keys == Run(w, Initial(server, lines), n).outputs[k].known
    ensures var st := Run(w, Initial(server, lines), n);
            Follows(st.outputs[k], st, held)
  {
    InitialInv(server, lines);
    FreedRun(w, Initial(server, lines), n);
    AnnouncedRun(w, Initial(server, lines), n);
    EndToEndWhenOrderly(w, server, lines, n, k, held);
  }

  /** As written: for every run in which no input removal is completed. */
  lemma EndToEndWithoutRemoval(w: World, server: int, lines: seq<string>, n: nat, k: nat, held: DeviceMap)
    requires server >= 0 && Named(w) && KeepsInputsAlong(w, Initial(server, lines), n)
    requires k < |Run(w, Initial(server, lines), n).outputs|
    requires held.Keys == Run(w, Initial(server, lines), n).outputs[k].known
    ensures var st := Run(w, Initial(server, lines), n);
            Follows(st.outputs[k], st, held)
  {
    InitialInv(server, lines);
    InputFreeRun(Numbering, w, Initial(server, lines), n);
    InputFreeRun(Streams, w, Initial(server, lines), n);
    EndToEndWhenOrderly(w, server, lines, n, k, held);
  }

  /** Live and free ids never repeat and are exactly the numbers below their count, so the next id
      handed out is unused and fits. */
  ghost predicate Numbered(st: State) {
    && IdsOk(Ids(st.inputs), st.freeIds)
    && (forall x: u16 :: x < |st.inputs| + |st.freeIds| <==> x in Ids(st.inputs) || x in st.freeIds)
    && (|st.inputs| <= 0xffff ==> NextId(|st.inputs|, st.freeIds).0 !in Ids(st.inputs))
  }

  /** The id tables stay in order after every command and release of a run if and only if each
      released input gives its id back or has the greatest; nothing is asked of names, of persistence
      or of what the world answers. */
  lemma IdsAlongRun(w: World, server: int, lines: seq<string>, n: nat)
    requires server >= 0
    ensures DrainsWell(Numbering, w, Initial(server, lines), n)
            <==> RunHolds(Numbering, true, w, Initial(server, lines), n)
    ensures DrainsWell(Numbering, w, Initial(server, lines), n) ==> Numbered(Run(w, Initial(server, lines), n))
  {
    InitialInv(server, lines);
    InitialOk(Numbering, server, lines);
    NumberingIsDrains(w, Initial(server, lines), n);
    RunExact(Numbering, w, Initial(server, lines), n);
    var st := Run(w, Initial(server, lines), n);
    if DrainsWell(Numbering, w, Initial(server, lines), n) {
      IdsCovered(Ids(st.inputs), st.freeIds);
      if |st.inputs| <= 0xffff {
        AllocateOk(Ids(st.inputs), st.freeIds, 0);
      }
    }
  }

  /** If removal gave ids back, they would be in order in every run. */
  lemma IdsWhenFreed(w: World, server: int, lines: seq<string>, n: nat)
    requires server >= 0 && w.frees
    ensures Numbered(Run(w, Initial(server, lines), n))
  {
    FreedRun(w, Initial(server, lines), n);
    IdsAlongRun(w, server, lines, n);
  }
}
