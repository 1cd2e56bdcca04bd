/** A receiver that has rejected what an output was told does so for as long as the output exists. */
module DaemonRejected {
  import opened Bytes
  import opened Devices
  import opened AddDevice
  import opened Protocol
  import opened Receiver
  import opened Tokenizer
  import opened DaemonState
  import opened DaemonInvariant
  import opened DaemonWords
  import opened DaemonSync
  import opened DaemonEffects
  import opened DaemonHeard
  import opened DaemonEndToEnd
  import opened DaemonRuns

  // ----- what is written is not taken back -----

  /** The same output, with as much or more written to it. */
  predicate Later(a: Output, b: Output) {
    b.fd == a.fd && b.known == a.known && a.log <= b.log
  }

  ghost predicate Continued(o: Output, outputs: seq<Output>) {
    exists j :: 0 <= j < |outputs| && Later(o, outputs[j])
  }

  ghost predicate Outlast(a: seq<Output>, b: seq<Output>) {
    forall k :: 0 <= k < |a| ==> Continued(a[k], b)
  }

  lemma SameOutlast(a: seq<Output>, b: seq<Output>)
    requires |b| == |a| && forall k :: 0 <= k < |a| ==> Later(a[k], b[k])
    ensures Outlast(a, b)
  {
    forall k | 0 <= k < |a|
      ensures Continued(a[k], b)
    {
      assert Later(a[k], b[k]);
    }
  }

  lemma InsertedOutlast(outputs: seq<Output>, k: nat, o: Output)
    requires k <= |outputs|
    ensures Outlast(outputs, Insert(outputs, k, o))
  {
    var r := Insert(outputs, k, o);
    forall i | 0 <= i < |outputs|
      ensures Continued(outputs[i], r)
    {
      assert Later(outputs[i], r[if i < k then i else i + 1]);
    }
  }

  lemma ToldOutlast(w: World, clock: nat, queue: seq<int>, draining: bool, m: Message, outputs: seq<Output>)
    ensures Outlast(outputs, DeliverAll(w, clock, queue, draining, m, outputs))
  {
    SameOutlast(outputs, DeliverAll(w, clock, queue, draining, m, outputs));
  }

  lemma AddInputOutlast(w: World, st: State, name: string)
    ensures Outlast(st.outputs, AddInput(w, st, name).state.outputs)
  {
    AddInputEffect(w, st, name);
    SameOutlast(st.outputs, st.outputs);
    if Adds(w, st, name) {
      var x := NewInput(w, st, name);
      ToldOutlast(w, st.clock + 1, st.removeQueue, false, Add(x.id, x.device), st.outputs);
    }
  }

  lemma AddOutputOutlast(w: World, st: State, name: string, resume: bool)
    ensures Outlast(st.outputs, AddOutput(w, st, name, resume).state.outputs)
  {
    AddOutputEffect(w, st, name, resume);
    SameOutlast(st.outputs, st.outputs);
    if Connects(w, st, name) {
      InsertedOutlast(st.outputs, OutputSlot(st.outputs, name), NewlyTold(w, st, name, resume));
    }
  }

  lemma ExecOutlast(w: World, st: State, action: Action)
    ensures Outlast(st.outputs, Exec(w, st, action).state.outputs)
  {
    if action.InputAdd? {
      AddInputOutlast(w, st, action.name);
    } else if action.OutputAdd? {
      AddOutputOutlast(w, st, action.name, action.resume);
    } else {
      OtherKeepsOutputs(w, st, action);
      SameOutlast(st.outputs, st.outputs);
    }
  }

  // ----- an output that lasts -----

  /** An output that was in the tables when `n` descriptors had been released is still there, or was
      released since. */
  ghost predicate Lasts(o: Output, n: nat, st: State) {
    n <= |st.released| && (o.fd in st.released[n..] || Continued(o, st.outputs))
  }

  lemma LastsOn(o: Output, n: nat, a: State, b: State)
    requires Lasts(o, n, a) && b.released == a.released && Outlast(a.outputs, b.outputs)
    ensures Lasts(o, n, b)
  {
    if o.fd !in a.released[n..] {
      var j :| 0 <= j < |a.outputs| && Later(o, a.outputs[j]);
      assert Continued(a.outputs[j], b.outputs);
      var i :| 0 <= i < |b.outputs| && Later(a.outputs[j], b.outputs[i]);
      assert Later(o, b.outputs[i]);
    }
  }

  lemma {:induction false} RunAllLasts(o: Output, n: nat, w: World, st: State, client: int, lists: seq<seq<string>>)
    requires Lasts(o, n, st)
    ensures Lasts(o, n, RunAll(w, st, client, lists))
    decreases |lists|
  {
    if lists != [] {
      var done := Exec(w, st, Interpret(lists[0]));
      ExecOutlast(w, st, Interpret(lists[0]));
      ExecKeeps(w, st, Interpret(lists[0]));
      LastsOn(o, n, st, Reply(w, done.state, client));
      if done.ok {
        RunAllLasts(o, n, w, Reply(w, done.state, client), client, lists[1..]);
      }
    }
  }

  lemma {:induction false} RunQueueLasts(o: Output, n: nat, w: World, st: State, queue: seq<Command>)
    requires Lasts(o, n, st)
    ensures Lasts(o, n, RunQueue(w, st, queue))
    decreases |queue|
  {
    if queue != [] {
      var lists := Dispatches(queue[0].text);
      RunAllLasts(o, n, w, st, queue[0].client, lists);
      RunQueueLasts(o, n, w, RunAll(w, st, queue[0].client, lists), queue[1..]);
    }
  }

  /** What releasing a descriptor leaves of the outputs: all but the one it belongs to. */
  lemma ReleaseOutlast(o: Output, w: World, st: State, fd: int)
    requires fd in st.callbacks && o in st.outputs
    ensures o.fd == fd || Continued(o, ReleaseOne(w, st, fd).outputs)
  {
    if st.callbacks[fd].OnInput? {
      InputReleaseOutlasts(w, st, fd);
      var i :| 0 <= i < |st.outputs| && st.outputs[i] == o;
      assert Continued(st.outputs[i], ReleaseOne(w, st, fd).outputs);
    } else if st.callbacks[fd].OnOutput? && OutputAt(st.outputs, fd) < |st.outputs| {
      FinishOutputFields(w, st, fd);
      ErasedContinues(o, st.outputs, OutputAt(st.outputs, fd));
    } else {
      OtherReleaseOutputs(w, st, fd);
      var i :| 0 <= i < |st.outputs| && st.outputs[i] == o;
      assert Later(o, st.outputs[i]);
    }
  }

  lemma InputReleaseOutlasts(w: World, st: State, fd: int)
    requires fd in st.callbacks && st.callbacks[fd].OnInput?
    ensures Outlast(st.outputs, ReleaseOne(w, st, fd).outputs)
  {
    FinishOutlast(w, st, fd);
    ReleasedOutputs(w, st, fd);
  }

  lemma ReleasedOutputs(w: World, st: State, fd: int)
    requires fd in st.callbacks && st.callbacks[fd].OnInput?
    ensures ReleaseOne(w, st, fd).outputs == FinishDeviceRemoval(w, st, fd).outputs
  {}

  lemma FinishOutlast(w: World, st: State, fd: int)
    ensures Outlast(st.outputs, FinishDeviceRemoval(w, st, fd).outputs)
  {
    var k := InputAt(st.inputs, fd);
    if k < |st.inputs| {
      AnnouncedOutlast(w, st, k);
    } else {
      SameOutlast(st.outputs, st.outputs);
    }
  }

  lemma AnnouncedOutlast(w: World, st: State, k: nat)
    requires k < |st.inputs|
    ensures Outlast(st.outputs, RemovalAnnounced(w, st, k).outputs)
  {
    SameOutlast(st.outputs, st.outputs);
    ToldOutlast(w, st.clock, st.removeQueue, true, Remove(st.inputs[k].id), st.outputs);
  }

  lemma ErasedContinues(o: Output, outputs: seq<Output>, k: nat)
    requires o in outputs && k < |outputs|
    ensures o == outputs[k] || Continued(o, Erase(outputs, k))
  {
    var i :| 0 <= i < |outputs| && outputs[i] == o;
    assert i != k ==> Later(o, Erase(outputs, k)[if i < k then i else i - 1]);
  }

  lemma OtherReleaseOutputs(w: World, st: State, fd: int)
    requires fd in st.callbacks && !st.callbacks[fd].OnInput?
    requires st.callbacks[fd].OnOutput? ==> OutputAt(st.outputs, fd) == |st.outputs|
    ensures ReleaseOne(w, st, fd).outputs == st.outputs
  {}

  lemma ReleaseLasts(o: Output, n: nat, w: World, st: State, fd: int)
    requires Lasts(o, n, st)
    ensures Lasts(o, n, ReleaseOne(w, st, fd))
  {
    if fd in st.callbacks {
      var r := ReleaseOne(w, st, fd);
      ReleaseOneFrame(w, st, fd);
      assert r.released[n..] == st.released[n..] + [fd];
      if o.fd !in r.released[n..] {
        var j :| 0 <= j < |st.outputs| && Later(o, st.outputs[j]);
        ReleaseOutlast(st.outputs[j], w, st, fd);
        var i :| 0 <= i < |r.outputs| && Later(st.outputs[j], r.outputs[i]);
        assert Later(o, r.outputs[i]);
      }
    }
  }

  lemma {:induction false} DrainLasts(o: Output, n: nat, w: World, st: State, queue: seq<int>)
    requires Lasts(o, n, st)
    ensures Lasts(o, n, ReleaseFrom(w, st, queue))
    decreases |queue|
  {
    if queue != [] {
      ReleaseLasts(o, n, w, st, queue[0]);
      DrainLasts(o, n, w, ReleaseOne(w, st, queue[0]), queue[1..]);
    }
  }

  lemma RouteEventOutputs(w: World, st: State, id: u16, e: InputEvent)
    ensures var r := RouteEvent(w, st, id, e);
            && r.released == st.released
            && (r.outputs == st.outputs
                || r.outputs == DeliverTo(st.outputs, st.current, Event(id, e), w.writes(st.clock, st.current)))
  {}

  lemma RouteLasts(o: Output, n: nat, w: World, st: State, id: u16, e: InputEvent)
    requires Lasts(o, n, st)
    ensures Lasts(o, n, RouteEvent(w, st, id, e))
  {
    var r := RouteEvent(w, st, id, e);
    RouteEventOutputs(w, st, id, e);
    SameOutlast(st.outputs, r.outputs);
    LastsOn(o, n, st, r);
  }

  lemma ReadLasts(o: Output, n: nat, w: World, st: State, fd: int, cb: Callback)
    requires Lasts(o, n, st)
    ensures Lasts(o, n, OnRead(w, st, fd, cb))
  {
    if cb.OnInput? && w.events(st.clock).Some? {
      RouteLasts(o, n, w, st, cb.id, w.events(st.clock).value);
    } else {
      assert OnRead(w, st, fd, cb).outputs == st.outputs && OnRead(w, st, fd, cb).released == st.released;
    }
  }

  lemma FailureLasts(o: Output, n: nat, st: State, fd: int, cb: Callback)
    requires Lasts(o, n, st)
    ensures Lasts(o, n, OnFailure(st, fd, cb))
  {}

  lemma PollLasts(o: Output, n: nat, w: World, st: State, fd: int, r: Revents)
    requires Lasts(o, n, st)
    ensures Lasts(o, n, PollOne(w, st, fd, r))
  {
    if fd in st.callbacks {
      var cb := st.callbacks[fd];
      FailureLasts(o, n, st, fd, cb);
      var st1 := if r.error then OnFailure(st, fd, cb) else st;
      FailureLasts(o, n, st1, fd, cb);
      var st2 := if r.hup then OnFailure(st1, fd, cb) else st1;
      ReadLasts(o, n, w, st2, fd, cb);
    }
  }

  lemma {:induction false} PollsLast(o: Output, n: nat, w: World, st: State, at: nat, fds: seq<int>)
    requires Lasts(o, n, st)
    ensures Lasts(o, n, PollFrom(w, st, at, fds))
    decreases |fds|
  {
    if fds != [] && !st.quit {
      PollLasts(o, n, w, st, fds[0], w.revents(at, fds[0]));
      PollsLast(o, n, w, PollOne(w, st, fds[0], w.revents(at, fds[0])), at, fds[1..]);
    }
  }

  /** The rest of a turn once its commands have run. */
  lemma AfterCommands(o: Output, n: nat, w: World, st: State)
    requires Lasts(o, n, RunQueue(w, st, st.commands))
    ensures Lasts(o, n, Turn(w, st))
  {
    var before := FilterPolled(MergeAdds(ProcessCommands(w, st)));
    assert Lasts(o, n, before);
    DrainLasts(o, n, w, before, before.removeQueue);
    var drained := ProcessRemoveQueue(w, before);
    assert Lasts(o, n, drained);
    if !drained.quit {
      PollsLast(o, n, w, Tick(drained), drained.clock, drained.polled);
    }
  }

  lemma NextTurnLasts(o: Output, n: nat, w: World, st: State, m: nat)
    requires m > 0 && Lasts(o, n, Run(w, st, m - 1))
    ensures Lasts(o, n, Run(w, st, m))
  {
    var before := Run(w, st, m - 1);
    if !before.quit {
      RunQueueLasts(o, n, w, before, before.commands);
      AfterCommands(o, n, w, before);
    }
  }

  lemma RunLasts(o: Output, n: nat, w: World, st: State, from: nat, end: nat)
    requires from <= end && Lasts(o, n, Run(w, st, from))
    ensures Lasts(o, n, Run(w, st, end))
  {
    var lasts := (m: nat) => Lasts(o, n, Run(w, st, m));
    forall m: nat | from < m <= end
      ensures Climbs(lasts, m)
    {
      if lasts(m - 1) {
        NextTurnLasts(o, n, w, st, m);
      }
    }
    Climb(lasts, from, end);
  }

  // ----- a command in the middle of a run -----

  /** The i-th argument list of the q-th text queued when a turn starts asks for an action, and is
      executed in a given state. */
  ghost predicate Reaches(w: World, before: State, q: nat, i: nat, mid: State, action: Action) {
    q < |before.commands|
    && var client, lists := before.commands[q].client, Dispatches(before.commands[q].text);
       var start := RunQueue(w, before, before.commands[..q]);
       && i < |lists| && AllSucceed(w, start, client, lists[..i])
       && mid == RunAll(w, start, client, lists[..i]) && action == Interpret(lists[i])
  }

  lemma HereLasts(o: Output, st: State, n: nat)
    requires o in st.outputs && n <= |st.released|
    ensures Lasts(o, n, st)
  {
    var k :| 0 <= k < |st.outputs| && st.outputs[k] == o;
    assert Later(o, st.outputs[k]);
  }

  lemma CommandLasts(o: Output, w: World, st: State, client: int, lists: seq<seq<string>>)
    requires lists != [] && o in Exec(w, st, Interpret(lists[0])).state.outputs
    ensures Lasts(o, |st.released|, RunAll(w, st, client, lists))
  {
    var done := Exec(w, st, Interpret(lists[0]));
    ExecKeeps(w, st, Interpret(lists[0]));
    var replied := Reply(w, done.state, client);
    HereLasts(o, replied, |st.released|);
    if done.ok {
      RunAllLasts(o, |st.released|, w, replied, client, lists[1..]);
    }
  }

  lemma TextLasts(o: Output, w: World, start: State, client: int, lists: seq<seq<string>>, i: nat)
    requires i < |lists| && AllSucceed(w, start, client, lists[..i])
    requires o in Exec(w, RunAll(w, start, client, lists[..i]), Interpret(lists[i])).state.outputs
    ensures Lasts(o, |RunAll(w, start, client, lists[..i]).released|, RunAll(w, start, client, lists))
  {
    RunAllSplit(w, start, client, lists, i);
    CommandLasts(o, w, RunAll(w, start, client, lists[..i]), client, lists[i..]);
  }

  lemma QueueLasts(o: Output, n: nat, w: World, st: State, queue: seq<Command>, q: nat)
    requires q < |queue|
    requires Lasts(o, n, RunAll(w, RunQueue(w, st, queue[..q]), queue[q].client, Dispatches(queue[q].text)))
    ensures Lasts(o, n, RunQueue(w, st, queue))
  {
    RunQueueSplit(w, st, queue, q);
    var start, rest := RunQueue(w, st, queue[..q]), queue[q..];
    RunQueueLasts(o, n, w, RunAll(w, start, rest[0].client, Dispatches(rest[0].text)), rest[1..]);
  }

  /** An output in the tables after some command of a run is there after every later turn, with all that
      was written to it, unless it was released in between. */
  lemma LastsFrom(o: Output, w: World, st: State, turn: nat, q: nat, i: nat, mid: State, action: Action, m: nat)
    requires !Run(w, st, turn).quit && Reaches(w, Run(w, st, turn), q, i, mid, action) && turn < m
    requires o in Exec(w, mid, action).state.outputs
    ensures Lasts(o, |mid.released|, Run(w, st, m))
  {
    TurnLasts(o, w, Run(w, st, turn), q, i, mid, action);
    RunLasts(o, |mid.released|, w, st, turn + 1, m);
  }

  lemma TurnLasts(o: Output, w: World, before: State, q: nat, i: nat, mid: State, action: Action)
    requires Reaches(w, before, q, i, mid, action) && o in Exec(w, mid, action).state.outputs
    ensures Lasts(o, |mid.released|, Turn(w, before))
  {
    var queue := before.commands;
    TextLasts(o, w, RunQueue(w, before, queue[..q]), queue[q].client, Dispatches(queue[q].text), i);
    QueueLasts(o, |mid.released|, w, before, queue, q);
    AfterCommands(o, |mid.released|, w, before);
  }

  // ----- the converse of being in step -----

  /** Whatever is written after an announcement that the ids do not allow. */
  lemma RejectedLater(held: DeviceMap, o: Output, id: u16, d: Device, b: Output)
    requires held.Keys == o.known && Known(Reject, o.known, o.log).Some?
    requires id in Known(Reject, o.known, o.log).value || !Terminated(d)
    requires Later(o.(log := o.log + [Add(id, d)]), b)
    ensures Session(Reject, held, [], EncodeAll(b.log)).ending
            == Thrown(if id in Known(Reject, o.known, o.log).value then DuplicateDevice else NameTooLong)
  {
    var told := o.log + [Add(id, d)];
    assert b.log == told + b.log[|told|..];
    AnnouncementRejected(held, o.log, id, d, b.log[|told|..]);
  }

  /** The output was released, or its receiver ends with an error. */
  ghost predicate GoneOrRejected(o: Output, n: nat, held: DeviceMap, error: Error, st: State) {
    n <= |st.released|
    && (o.fd in st.released[n..]
        || exists j :: 0 <= j < |st.outputs| && Later(o, st.outputs[j])
             && Session(Reject, held, [], EncodeAll(st.outputs[j].log)).ending == Thrown(error))
  }

  lemma LastingRejected(o: Output, id: u16, d: Device, n: nat, held: DeviceMap, st: State)
    requires held.Keys == o.known && Known(Reject, o.known, o.log).Some?
    requires id in Known(Reject, o.known, o.log).value || !Terminated(d)
    requires Lasts(o.(log := o.log + [Add(id, d)]), n, st)
    ensures GoneOrRejected(o, n, held,
                           if id in Known(Reject, o.known, o.log).value then DuplicateDevice else NameTooLong, st)
  {
    var told := o.(log := o.log + [Add(id, d)]);
    if o.fd !in st.released[n..] {
      var j :| 0 <= j < |st.outputs| && Later(told, st.outputs[j]);
      RejectedLater(held, o, id, d, st.outputs[j]);
      assert Later(o, st.outputs[j]);
    }
  }

  /** A `device add` is given a live id or a name without a NUL, and an output whose receiver is in step
      is told of it. */
  ghost predicate BadAddHeard(w: World, st: State, name: string, k: int) {
    && !GoodAdd(w, st, name) && 0 <= k < |st.outputs| && !st.outputs[k].broken
    && HeardOk(Reject, st.outputs[k], Live(st.inputs)) && w.writes(st.clock + 1, st.outputs[k].fd)
  }

  function AddError(w: World, st: State, name: string): Error {
    if Adds(w, st, name) && NewInput(w, st, name).id in Live(st.inputs) then DuplicateDevice else NameTooLong
  }

  lemma BadAddTold(w: World, st: State, name: string, k: int) returns (x: Input, told: Output)
    requires BadAddHeard(w, st, name, k)
    ensures Adds(w, st, name) && x == NewInput(w, st, name)
    ensures x.id in Live(st.inputs) || !Terminated(x.device)
    ensures told == st.outputs[k].(log := st.outputs[k].log + [Add(x.id, x.device)])
    ensures told in Exec(w, st, InputAdd(name)).state.outputs
  {
    x := NewInput(w, st, name);
    AddInputEffect(w, st, name);
    told := st.outputs[k].(log := st.outputs[k].log + [Add(x.id, x.device)]);
    assert AddInput(w, st, name).state.outputs[k] == told;
  }

  /** Its receiver ends with the error at every later turn, until the output is released. */
  lemma RejectedForGood(w: World, st: State, turn: nat, q: nat, i: nat, mid: State, name: string, k: int,
                        held: DeviceMap, m: nat)
    requires !Run(w, st, turn).quit && Reaches(w, Run(w, st, turn), q, i, mid, InputAdd(name)) && turn < m
    requires BadAddHeard(w, mid, name, k) && held.Keys == mid.outputs[k].known
    ensures GoneOrRejected(mid.outputs[k], |mid.released|, held,
                           AddError(w, mid, name), Run(w, st, m))
  {
    var o := mid.outputs[k];
    var x, told := BadAddTold(w, mid, name, k);
    LastsFrom(told, w, st, turn, q, i, mid, InputAdd(name), m);
    LastingRejected(o, x.id, x.device, |mid.released|, held, Run(w, st, m));
  }

  /** The guard holds before every command a turn executes ahead of this one. */
  ghost predicate HoldsUntil(topic: Topic, w: World, before: State, q: nat, i: nat) {
    q < |before.commands|
    && var client, lists := before.commands[q].client, Dispatches(before.commands[q].text);
       && QueueHolds(topic, false, w, before, before.commands[..q])
       && i < |lists|
       && ListsHold(topic, false, w, RunQueue(w, before, before.commands[..q]), client, lists[..i])
  }

  lemma OkUntil(topic: Topic, w: World, before: State, q: nat, i: nat, mid: State, action: Action)
    requires Ok(topic, before) && Reaches(w, before, q, i, mid, action) && HoldsUntil(topic, w, before, q, i)
    ensures Ok(topic, mid)
  {
    var client, lists := before.commands[q].client, Dispatches(before.commands[q].text);
    QueueExact(topic, w, before, before.commands[..q]);
    ListsExact(topic, w, RunQueue(w, before, before.commands[..q]), client, lists[..i]);
  }

  /** The converse of being in step end to end: the first `device add` of a run that fails its guard is
      heard of by some output, and each receiver that hears of it is lost until its output is released. */
  lemma FirstBadAdd(w: World, server: int, lines: seq<string>, turn: nat, q: nat, i: nat, mid: State, name: string,
                    m: nat)
    requires server >= 0 && RunHolds(Hearing, false, w, Initial(server, lines), turn) && turn < m
    requires var before := Run(w, Initial(server, lines), turn);
             && !before.quit && Reaches(w, before, q, i, mid, InputAdd(name))
             && HoldsUntil(Hearing, w, before, q, i)
    requires !CommandGuard(Hearing, w, mid, InputAdd(name))
    ensures exists k :: BadAddHeard(w, mid, name, k)
    ensures forall k, held: DeviceMap :: BadAddHeard(w, mid, name, k) && held.Keys == mid.outputs[k].known ==>
              GoneOrRejected(mid.outputs[k], |mid.released|, held, AddError(w, mid, name),
                             Run(w, Initial(server, lines), m))
  {
    var st := Initial(server, lines);
    var before := RunKeepsOk(Hearing, w, server, lines, turn);
    OkUntil(Hearing, w, before, q, i, mid, InputAdd(name));
    BadAddReaches(w, mid, name);
    forall k, held: DeviceMap | BadAddHeard(w, mid, name, k) && held.Keys == mid.outputs[k].known
      ensures GoneOrRejected(mid.outputs[k], |mid.released|, held, AddError(w, mid, name), Run(w, st, m))
    {
      RejectedForGood(w, st, turn, q, i, mid, name, k, held, m);
    }
  }

  lemma BadAddReaches(w: World, st: State, name: string)
    requires AllHeard(Reject, st.outputs, Live(st.inputs)) && !HeardAdd(w, st, name)
    ensures exists k :: BadAddHeard(w, st, name, k)
  {
    var k :| 0 <= k < |st.outputs| && !st.outputs[k].broken
             && WriteOk(w, st.clock + 1, st.removeQueue, false, st.outputs[k].fd);
    assert BadAddHeard(w, st, name, k);
  }
}
