/** Whole runs: when ids stay in order, and when daemon and receivers stay in step. */
module DaemonEndToEnd {
  import opened Bytes
  import opened Devices
  import opened AddDevice
  import opened Protocol
  import opened Receiver
  import opened Tokenizer
  import opened DaemonState
  import opened DaemonInvariant
  import opened DaemonSync
  import opened DaemonEffects
  import opened DaemonHeard
  import opened DaemonStreams

  // ----- four properties, and the guard each step needs -----

  /** The id tables alone; that rejecting receivers hold exactly the live ids; that they have their
      descriptions too; or that resuming receivers hold at least the live ids. */
  datatype Topic = Numbering | Hearing | Streams | Resuming

  ghost predicate Ok(topic: Topic, st: State) {
    match topic
    case Numbering => IdsOk(Ids(st.inputs), st.freeIds)
    case Hearing => AllHeard(Reject, st.outputs, Live(st.inputs))
    case Streams => Sync(st)
    case Resuming => Resumable(st)
  }

  ghost predicate CommandGuard(topic: Topic, w: World, st: State, action: Action) {
    match topic
    case Numbering => true
    case Hearing => HeardCommand(w, st, action)
    case _ => action.InputAdd? ==> GoodAdd(w, st, action.name)
  }

  /** An input that is released gives its id back, or has the greatest. */
  predicate OrderlyRelease(w: World, st: State, fd: int) {
    var k := InputAt(st.inputs, fd);
    fd in st.callbacks && st.callbacks[fd].OnInput? && k < |st.inputs| ==>
      w.frees || st.inputs[k].id == |st.inputs| + |st.freeIds| - 1
  }

  ghost predicate ReleaseGuard(topic: Topic, w: World, st: State, fd: int) {
    match topic
    case Numbering => OrderlyRelease(w, st, fd)
    case Hearing => HeardRelease(w, st, fd)
    case Streams => GoodRelease(st, fd)
    case Resuming => true
  }

  lemma OkSame(topic: Topic, a: State, b: State)
    requires b.inputs == a.inputs && b.outputs == a.outputs && b.freeIds == a.freeIds
    ensures Ok(topic, a) <==> Ok(topic, b)
  {
    SyncSame(a, b);
  }

  // ----- one command -----

  lemma AddKeepsIds(w: World, st: State, name: string)
    requires IdsOk(Ids(st.inputs), st.freeIds)
    ensures var r := AddInput(w, st, name).state; IdsOk(Ids(r.inputs), r.freeIds)
  {
    AddInputEffect(w, st, name);
    if |st.inputs| <= 0xffff {
      AllocateOk(Ids(st.inputs), st.freeIds, InputSlot(st.inputs, name));
      if Adds(w, st, name) {
        InsertedIds(st.inputs, InputSlot(st.inputs, name), NewInput(w, st, name));
      }
    }
  }

  lemma ExecKeepsIds(w: World, st: State, action: Action)
    requires IdsOk(Ids(st.inputs), st.freeIds)
    ensures var r := Exec(w, st, action).state; IdsOk(Ids(r.inputs), r.freeIds)
  {
    if action.InputAdd? {
      AddKeepsIds(w, st, action.name);
    } else {
      OtherKeepsIds(w, st, action);
    }
  }

  lemma CommandExact(topic: Topic, w: World, st: State, action: Action)
    requires Ok(topic, st)
    ensures Ok(topic, Exec(w, st, action).state) <==> CommandGuard(topic, w, st, action)
  {
    match topic
    case Numbering => ExecKeepsIds(w, st, action);
    case Hearing => ExecHeard(w, st, action);
    case Streams => ExecExact(w, st, action);
    case Resuming => ExecResumable(w, st, action);
  }

  // ----- one release -----

  /** The id tables survive releasing an input exactly when its id is given back or the greatest. */
  lemma ReleaseKeepsIds(w: World, st: State, fd: int)
    requires Tables(st) && IdsOk(Ids(st.inputs), st.freeIds) && fd in st.callbacks
    ensures var r := ReleaseOne(w, st, fd); IdsOk(Ids(r.inputs), r.freeIds) <==> OrderlyRelease(w, st, fd)
  {
    ReleaseInputs(w, st, fd);
    if st.callbacks[fd].OnInput? {
      KindOfInput(st, fd);
      var k := InputAt(st.inputs, fd);
      assert Ids(st.inputs)[k] == st.inputs[k].id;
      ErasedApart(st.inputs, k);
      FreeOk(Ids(st.inputs), st.freeIds, k);
      DropOk(Ids(st.inputs), st.freeIds, k);
    }
  }

  lemma ReleasedExact(topic: Topic, w: World, st: State, fd: int)
    requires Ok(topic, st) && Tables(st) && fd in st.callbacks
    ensures Ok(topic, ReleaseOne(w, st, fd)) <==> ReleaseGuard(topic, w, st, fd)
  {
    match topic
    case Numbering => ReleaseKeepsIds(w, st, fd);
    case Hearing => ReleaseHeard(w, st, fd);
    case Streams => ReleaseExact(w, st, fd);
    case Resuming => ReleaseResumable(w, st, fd);
  }

  // ----- one callback -----

  lemma PolledOk(topic: Topic, w: World, st: State, fd: int, r: Revents)
    requires Ok(topic, st) && Inv(st) && fd in st.callbacks
    ensures Ok(topic, PollOne(w, st, fd, r))
  {
    match topic
    case Numbering => PollKeepsIds(w, st, fd, r);
    case Hearing => PollHeard(Reject, w, st, fd, r);
    case Streams => PollOneSync(w, st, fd, r);
    case Resuming => PollResumable(w, st, fd, r);
  }

  // ----- steps of a run: the property after each, or the guard before each -----

  ghost predicate CommandHolds(topic: Topic, kept: bool, w: World, st: State, action: Action) {
    if kept then Ok(topic, Exec(w, st, action).state) else CommandGuard(topic, w, st, action)
  }

  ghost predicate ListsHold(topic: Topic, kept: bool, w: World, st: State, client: int, lists: seq<seq<string>>)
    decreases |lists|
  {
    lists == []
    || var done := Exec(w, st, Interpret(lists[0]));
       && CommandHolds(topic, kept, w, st, Interpret(lists[0]))
       && (done.ok ==> ListsHold(topic, kept, w, Reply(w, done.state, client), client, lists[1..]))
  }

  ghost predicate QueueHolds(topic: Topic, kept: bool, w: World, st: State, queue: seq<Command>)
    decreases |queue|
  {
    queue == []
    || var lists := Dispatches(queue[0].text);
       && ListsHold(topic, kept, w, st, queue[0].client, lists)
       && QueueHolds(topic, kept, w, RunAll(w, st, queue[0].client, lists), queue[1..])
  }

  ghost predicate ReleaseHolds(topic: Topic, kept: bool, w: World, st: State, fd: int) {
    if kept then Ok(topic, ReleaseOne(w, st, fd)) else ReleaseGuard(topic, w, st, fd)
  }

  ghost predicate DrainHolds(topic: Topic, kept: bool, w: World, st: State, queue: seq<int>)
    decreases |queue|
  {
    queue == []
    || (ReleaseHolds(topic, kept, w, st, queue[0])
        && DrainHolds(topic, kept, w, ReleaseOne(w, st, queue[0]), queue[1..]))
  }

  /** The state in which the drain of one turn starts. */
  function BeforeDrain(w: World, st: State): State {
    FilterPolled(MergeAdds(ProcessCommands(w, st)))
  }

  ghost predicate DrainedWell(topic: Topic, kept: bool, w: World, st: State) {
    DrainHolds(topic, kept, w, BeforeDrain(w, st), BeforeDrain(w, st).removeQueue)
  }

  ghost predicate TurnHolds(topic: Topic, kept: bool, w: World, st: State) {
    QueueHolds(topic, kept, w, st, st.commands) && DrainedWell(topic, kept, w, st)
  }

  /** With `kept`: the property after every executed command and every release of the run. Without:
      the guard before each of them. */
  ghost predicate RunHolds(topic: Topic, kept: bool, w: World, st: State, n: nat) {
    n == 0
    || (RunHolds(topic, kept, w, st, n - 1)
        && (Run(w, st, n - 1).quit || TurnHolds(topic, kept, w, Run(w, st, n - 1))))
  }

  // ----- the guards are exact -----

  lemma {:induction false} ListsExact(topic: Topic, w: World, st: State, client: int, lists: seq<seq<string>>)
    requires Ok(topic, st)
    ensures ListsHold(topic, false, w, st, client, lists) <==> ListsHold(topic, true, w, st, client, lists)
    ensures ListsHold(topic, false, w, st, client, lists) ==> Ok(topic, RunAll(w, st, client, lists))
    decreases |lists|
  {
    if lists != [] {
      var action := Interpret(lists[0]);
      var done := Exec(w, st, action);
      CommandExact(topic, w, st, action);
      OkSame(topic, done.state, Reply(w, done.state, client));
      if done.ok && CommandGuard(topic, w, st, action) {
        ListsExact(topic, w, Reply(w, done.state, client), client, lists[1..]);
      }
    }
  }

  lemma {:induction false} QueueExact(topic: Topic, w: World, st: State, queue: seq<Command>)
    requires Ok(topic, st)
    ensures QueueHolds(topic, false, w, st, queue) <==> QueueHolds(topic, true, w, st, queue)
    ensures QueueHolds(topic, false, w, st, queue) ==> Ok(topic, RunQueue(w, st, queue))
    decreases |queue|
  {
    if queue != [] {
      var lists := Dispatches(queue[0].text);
      ListsExact(topic, w, st, queue[0].client, lists);
      if ListsHold(topic, false, w, st, queue[0].client, lists) {
        QueueExact(topic, w, RunAll(w, st, queue[0].client, lists), queue[1..]);
      }
    }
  }

  lemma {:induction false} ReleasesExact(topic: Topic, w: World, st: State, queue: seq<int>)
    requires Ok(topic, st) && Draining(st, queue)
    ensures DrainHolds(topic, false, w, st, queue) <==> DrainHolds(topic, true, w, st, queue)
    ensures DrainHolds(topic, false, w, st, queue) ==> Ok(topic, ReleaseFrom(w, st, queue))
    decreases |queue|
  {
    if queue != [] {
      assert queue[0] in queue;
      ReleasedExact(topic, w, st, queue[0]);
      ReleaseOneInv(w, st, queue);
      if ReleaseGuard(topic, w, st, queue[0]) {
        ReleasesExact(topic, w, ReleaseOne(w, st, queue[0]), queue[1..]);
      }
    }
  }

  lemma {:induction false} PollsOk(topic: Topic, w: World, st: State, at: nat, fds: seq<int>)
    requires Ok(topic, st) && Inv(st) && forall fd :: fd in fds ==> fd in st.callbacks
    ensures Ok(topic, PollFrom(w, st, at, fds))
    decreases |fds|
  {
    if fds != [] && !st.quit {
      assert fds[0] in fds;
      PollOneInv(w, st, fds[0], w.revents(at, fds[0]));
      PolledOk(topic, w, st, fds[0], w.revents(at, fds[0]));
      PollsOk(topic, w, PollOne(w, st, fds[0], w.revents(at, fds[0])), at, fds[1..]);
    }
  }

  /** The part of a turn before its callbacks. */
  lemma DrainedExact(topic: Topic, w: World, st: State)
    requires Inv(st) && Ok(topic, st)
    ensures TurnHolds(topic, false, w, st) <==> TurnHolds(topic, true, w, st)
    ensures TurnHolds(topic, false, w, st) ==> Ok(topic, ProcessRemoveQueue(w, BeforeDrain(w, st)))
  {
    var ran, before := ProcessCommands(w, st), BeforeDrain(w, st);
    QueueExact(topic, w, st, st.commands);
    if QueueHolds(topic, false, w, st, st.commands) {
      OkSame(topic, RunQueue(w, st, st.commands), before);
      ProcessCommandsInv(w, st);
      MergeFilterInv(ran);
      ReleasesExact(topic, w, before, before.removeQueue);
      OkSame(topic, ReleaseFrom(w, before, before.removeQueue), ProcessRemoveQueue(w, before));
    }
  }

  lemma TurnExact(topic: Topic, w: World, st: State)
    requires Inv(st) && Ok(topic, st)
    ensures TurnHolds(topic, false, w, st) <==> TurnHolds(topic, true, w, st)
    ensures TurnHolds(topic, false, w, st) ==> Ok(topic, Turn(w, st))
  {
    DrainedExact(topic, w, st);
    if TurnHolds(topic, false, w, st) {
      ProcessCommandsInv(w, st);
      DrainExact(w, ProcessCommands(w, st));
      var drained := ProcessRemoveQueue(w, BeforeDrain(w, st));
      if !drained.quit {
        UnrelatedInv(drained, Tick(drained));
        OkSame(topic, drained, Tick(drained));
        PollsOk(topic, w, Tick(drained), drained.clock, drained.polled);
      }
    }
  }

  lemma AlwaysInv(w: World, st: State)
    requires Inv(st)
    ensures forall m: nat {:trigger Run(w, st, m)} :: Inv(Run(w, st, m))
  {
    forall m: nat
      ensures Inv(Run(w, st, m))
    {
      RunKeepsInv(w, st, m);
    }
  }

  /** The state the turns before the last lead to. */
  lemma LastTurn(w: World, st: State, n: nat) returns (before: State)
    requires Inv(st) && n > 0
    ensures Inv(before) && before == Run(w, st, n - 1)
  {
    AlwaysInv(w, st);
    before := Run(w, st, n - 1);
  }

  lemma TurnAfterTurns(topic: Topic, w: World, st: State, n: nat)
    requires Inv(st) && n > 0
    ensures Ok(topic, Run(w, st, n - 1)) ==>
              && (RunHolds(topic, false, w, st, n - 1) && RunHolds(topic, true, w, st, n - 1) ==>
                    (RunHolds(topic, false, w, st, n) <==> RunHolds(topic, true, w, st, n)))
              && (RunHolds(topic, false, w, st, n) ==> Ok(topic, Run(w, st, n)))
  {
    var before := LastTurn(w, st, n);
    if Ok(topic, before) && !before.quit {
      TurnExact(topic, w, before);
    }
  }

  /** In every run, the property holds after every command and release if and only if the guard holds
      before each of them; and then it holds at the end. */
  lemma RunExact(topic: Topic, w: World, st: State, n: nat)
    requires Inv(st) && Ok(topic, st)
    ensures RunHolds(topic, false, w, st, n) <==> RunHolds(topic, true, w, st, n)
    ensures RunHolds(topic, false, w, st, n) ==> Ok(topic, Run(w, st, n))
  {
    var exact := (m: nat) =>
      && (RunHolds(topic, false, w, st, m) <==> RunHolds(topic, true, w, st, m))
      && (RunHolds(topic, false, w, st, m) ==> Ok(topic, Run(w, st, m)));
    forall m: nat | 0 < m <= n
      ensures Climbs(exact, m)
    {
      if exact(m - 1) {
        TurnAfterTurns(topic, w, st, m);
      }
    }
    Climb(exact, 0, n);
  }

  lemma InitialOk(topic: Topic, server: int, lines: seq<string>)
    ensures Ok(topic, Initial(server, lines))
  {}

  // ----- end to end -----

  /** A receiver got all routed events in order, or, after a failed write, the first of them. */
  ghost predicate GotEvents(o: Output, st: State, r: Finished) {
    && o.since <= |st.seen| && WroteOf(r.log) <= Routed(st.seen[o.since..], o.fd)
    && (!o.broken ==> WroteOf(r.log) == Routed(st.seen[o.since..], o.fd))
  }

  /** A rejecting receiver that holds what it is taken to hold accepts all that was written before a
      failed write, and gets the routed events; if no write failed, it holds exactly the live ids. */
  ghost predicate InStep(o: Output, st: State, held: DeviceMap) {
    var r := Session(Reject, held, [], EncodeAll(o.log));
    r.ending == Eof && GotEvents(o, st, r) && (!o.broken ==> r.devices.Keys == Live(st.inputs))
  }

  /** Its devices mirror the inputs with their ids, apart from later renames, and were written exactly
      the events sent for them since they were announced, without force feedback; for inputs it was
      taken to know, they are the devices it held, written the events sent for them. */
  ghost predicate Mirrored(o: Output, st: State, held: DeviceMap) {
    var r := Session(Reject, held, [], EncodeAll(o.log));
    forall k :: 0 <= k < |st.inputs| ==> MirrorsInput(r.devices, held, o.log, st.inputs[k])
  }

  ghost predicate MirrorsInput(devices: DeviceMap, held: DeviceMap, log: seq<Message>, x: Input) {
    && x.id in devices
    && (if LastAdd(log, x.id).Some? then
          exists name: seq<byte> :: |name| == NAME_SIZE
            && devices[x.id] == Mirror(x.device.(name := name)).(written := SentTo(log, x.id))
        else
          && x.id in held
          && devices[x.id] == held[x.id].(written := held[x.id].written + SentTo(log, x.id)))
  }

  /** A new receiver, which starts with the hello packet, ends up with the same devices. */
  ghost predicate SameWhenNew(o: Output, held: DeviceMap) {
    var r, s := Receive(Reject, [EncodeAll(o.log)]), Session(Reject, held, [], EncodeAll(o.log));
    r.ending == s.ending && r.devices == s.devices
  }

  ghost predicate Follows(o: Output, st: State, held: DeviceMap) {
    InStep(o, st, held) && (!o.resumed ==> SameWhenNew(o, held)) && (!o.broken ==> Mirrored(o, st, held))
  }

  lemma EventsGot(o: Output, st: State, r: Finished)
    requires RoutedOk(o, st.seen) && WroteOf(r.log) == EventsOf(o.log)
    ensures GotEvents(o, st, r)
  {}

  lemma OutputInStep(o: Output, st: State, held: DeviceMap)
    requires HeardOk(Reject, o, Live(st.inputs)) && RoutedOk(o, st.seen) && held.Keys == o.known
    ensures InStep(o, st, held) && (!o.resumed ==> SameWhenNew(o, held))
  {
    StreamAccepted(Reject, held, o.log);
    EventsGot(o, st, Session(Reject, held, [], EncodeAll(o.log)));
    if !o.resumed {
      assert held == map[];
      NewReceiver(o.log);
    }
  }

  lemma OutputMirrored(o: Output, st: State, held: DeviceMap)
    requires StreamOk(o, st.inputs) && !o.broken && held.Keys == o.known
    ensures Mirrored(o, st, held)
  {
    ReceiverExact(held, o.log);
    var r := Session(Reject, held, [], EncodeAll(o.log));
    forall j | 0 <= j < |st.inputs|
      ensures MirrorsInput(r.devices, held, o.log, st.inputs[j])
    {
      var x := st.inputs[j];
      assert x in st.inputs && x.id in r.devices && Described(o, x);
      assert StandsFor(r.devices[x.id], x.id, held, o.log);
      var d := LastAdd(o.log, x.id);
      assert d.Some? ==> d.value == x.device.(name := d.value.name);
    }
  }

  lemma RunKeepsOk(topic: Topic, w: World, server: int, lines: seq<string>, n: nat) returns (st: State)
    requires server >= 0 && RunHolds(topic, false, w, Initial(server, lines), n)
    ensures st == Run(w, Initial(server, lines), n) && Inv(st) && Ok(topic, st)
  {
    InitialInv(server, lines);
    InitialOk(topic, server, lines);
    RunInv(w, server, lines, n);
    RunExact(topic, w, Initial(server, lines), n);
    st := Run(w, Initial(server, lines), n);
  }

  /** End to end: in every run in which each working output can be told of what is added and is told of
      what is removed, the receiver behind every output is in step with the daemon. */
  lemma EndToEnd(w: World, server: int, lines: seq<string>, n: nat, k: nat, held: DeviceMap)
    requires server >= 0 && RunHolds(Hearing, false, w, Initial(server, lines), n)
    requires k < |Run(w, Initial(server, lines), n).outputs|
    requires held.Keys == Run(w, Initial(server, lines), n).outputs[k].known
    ensures var st := Run(w, Initial(server, lines), n);
            var o := st.outputs[k];
            InStep(o, st, held) && (!o.resumed ==> SameWhenNew(o, held))
  {
    var st := RunKeepsOk(Hearing, w, server, lines, n);
    OutputInStep(st.outputs[k], st, held);
  }

  /** If moreover every `device add` is given an id that is not live and a name with a NUL, and no
      removal goes unannounced, its devices mirror the inputs. */
  lemma EndToEndMirrored(w: World, server: int, lines: seq<string>, n: nat, k: nat, held: DeviceMap)
    requires server >= 0 && RunHolds(Streams, false, w, Initial(server, lines), n)
    requires k < |Run(w, Initial(server, lines), n).outputs|
    requires held.Keys == Run(w, Initial(server, lines), n).outputs[k].known
    ensures var st := Run(w, Initial(server, lines), n);
            Follows(st.outputs[k], st, held)
  {
    var st := RunKeepsOk(Streams, w, server, lines, n);
    assert StreamOk(st.outputs[k], st.inputs);
    OutputInStep(st.outputs[k], st, held);
    if !st.outputs[k].broken {
      OutputMirrored(st.outputs[k], st, held);
    }
  }

  // ----- resuming receivers -----

  /** A resuming receiver that holds at least what it is taken to hold accepts all that was written, and
      gets the routed events; if no write failed, it holds every live id. What it held stays, with the
      events sent for it, unless the stream removes it, and nothing else is held beyond what a receiver
      ends up with that holds no more than it is taken to. */
  ghost predicate Resumes(o: Output, st: State, held: DeviceMap) {
    var r := Session(Resume, held, [], EncodeAll(o.log));
    && r.ending == Eof && GotEvents(o, st, r)
    && (!o.broken ==> Live(st.inputs) <= r.devices.Keys)
    && Known(Resume, o.known, o.log).Some?
    && r.devices.Keys == Known(Resume, o.known, o.log).value + (held.Keys - RemovedIn(o.log))
    && (forall id :: id in held && id !in RemovedIn(o.log) ==>
          id in r.devices && r.devices[id] == held[id].(written := held[id].written + SentAll(o.log, id)))
  }

  lemma OutputResumes(o: Output, st: State, held: DeviceMap)
    requires HeardOk(Resume, o, Live(st.inputs)) && RoutedOk(o, st.seen) && o.known <= held.Keys
    ensures Resumes(o, st, held)
  {
    ResumeWithMore(o.known, held.Keys, o.log);
    StreamAccepted(Resume, held, o.log);
    EventsGot(o, st, Session(Resume, held, [], EncodeAll(o.log)));
    SessionRoundTrip(Resume, held, [], o.log);
    forall id | id in held && id !in RemovedIn(o.log)
      ensures var r := Session(Resume, held, [], EncodeAll(o.log));
              id in r.devices && r.devices[id] == held[id].(written := held[id].written + SentAll(o.log, id))
    {
      HeldKept(held, [], o.log, id);
    }
  }

  /** In every run whose every `device add` is given an id that is not live and a name with a NUL,
      resuming receivers follow, whatever is released unannounced and added again, and whatever they
      hold from streams before. */
  lemma EndToEndResuming(w: World, server: int, lines: seq<string>, n: nat, k: nat, held: DeviceMap)
    requires server >= 0 && RunHolds(Resuming, false, w, Initial(server, lines), n)
    requires k < |Run(w, Initial(server, lines), n).outputs|
    requires Run(w, Initial(server, lines), n).outputs[k].known <= held.Keys
    ensures var st := Run(w, Initial(server, lines), n); Resumes(st.outputs[k], st, held)
  {
    var st := RunKeepsOk(Resuming, w, server, lines, n);
    OutputResumes(st.outputs[k], st, held);
  }
}
