/** Which ids the receiver behind every output holds: exactly the live ones, or at least those. */
module DaemonHeard {
  import opened Bytes
  import opened Devices
  import opened Protocol
  import opened Receiver
  import opened DaemonState
  import opened DaemonInvariant
  import opened DaemonSync
  import opened DaemonEffects

  /** A rejecting receiver must hold the live ids; a resuming one may hold more. */
  predicate Suits(mode: Mode, held: set<u16>, ids: set<u16>) {
    if mode == Resume then ids <= held else held == ids
  }

  /** A receiver that holds what the other end is taken to hold accepts what was written to an output;
      unless a write failed, what it then holds suits the ids. */
  ghost predicate HeardOk(mode: Mode, o: Output, ids: set<u16>) {
    && o.log != [] && o.log[0] == Hello && Known(mode, o.known, o.log).Some? && (!o.resumed ==> o.known == {})
    && (!o.broken ==> Suits(mode, Known(mode, o.known, o.log).value, ids))
  }

  ghost predicate AllHeard(mode: Mode, outputs: seq<Output>, ids: set<u16>) {
    forall k :: 0 <= k < |outputs| ==> HeardOk(mode, outputs[k], ids)
  }

  // ----- one message -----

  lemma DeliverSuits(mode: Mode, o: Output, m: Message, ok: bool, ids: set<u16>, ids': set<u16>)
    requires mode != Replace && HeardOk(mode, o, ids) && KnownStep(Reject, ids, m) == Some(ids')
    ensures HeardOk(mode, Deliver(o, m, ok), ids')
  {
    if ok && !o.broken {
      KnownAppend(mode, o.known, o.log, m);
      assert (o.log + [m])[0] == o.log[0];
    }
  }

  lemma DeliverAllSuits(mode: Mode, w: World, clock: nat, queue: seq<int>, draining: bool, m: Message,
                        outputs: seq<Output>, ids: set<u16>, ids': set<u16>)
    requires mode != Replace && AllHeard(mode, outputs, ids) && KnownStep(Reject, ids, m) == Some(ids')
    ensures AllHeard(mode, DeliverAll(w, clock, queue, draining, m, outputs), ids')
  {
    forall k | 0 <= k < |outputs|
      ensures HeardOk(mode, DeliverAll(w, clock, queue, draining, m, outputs)[k], ids')
    {
      DeliverSuits(mode, outputs[k], m, WriteOk(w, clock, queue, draining, outputs[k].fd), ids, ids');
    }
  }

  lemma DeliverHeard(o: Output, m: Message, ok: bool, ids: set<u16>, ids': set<u16>)
    requires HeardOk(Reject, o, ids)
    ensures HeardOk(Reject, Deliver(o, m, ok), ids') <==> o.broken || !ok || KnownStep(Reject, ids, m) == Some(ids')
  {
    if ok && !o.broken {
      KnownAppend(Reject, o.known, o.log, m);
      assert (o.log + [m])[0] == o.log[0];
    }
  }

  /** No output that works gets the message. */
  ghost predicate Unheard(w: World, clock: nat, queue: seq<int>, draining: bool, outputs: seq<Output>) {
    forall k :: 0 <= k < |outputs| ==> outputs[k].broken || !WriteOk(w, clock, queue, draining, outputs[k].fd)
  }

  lemma DeliverAllHeard(w: World, clock: nat, queue: seq<int>, draining: bool, m: Message, outputs: seq<Output>,
                        ids: set<u16>, ids': set<u16>)
    requires AllHeard(Reject, outputs, ids)
    ensures AllHeard(Reject, DeliverAll(w, clock, queue, draining, m, outputs), ids')
            <==> Unheard(w, clock, queue, draining, outputs) || KnownStep(Reject, ids, m) == Some(ids')
  {
    var r := DeliverAll(w, clock, queue, draining, m, outputs);
    forall k | 0 <= k < |outputs|
      ensures HeardOk(Reject, r[k], ids')
              <==> outputs[k].broken || !WriteOk(w, clock, queue, draining, outputs[k].fd)
                   || KnownStep(Reject, ids, m) == Some(ids')
    {
      DeliverHeard(outputs[k], m, WriteOk(w, clock, queue, draining, outputs[k].fd), ids, ids');
    }
  }

  lemma DeliverToSuits(mode: Mode, outputs: seq<Output>, fd: int, m: Message, ok: bool, ids: set<u16>)
    requires mode != Replace && AllHeard(mode, outputs, ids) && KnownStep(Reject, ids, m) == Some(ids)
    ensures AllHeard(mode, DeliverTo(outputs, fd, m, ok), ids)
  {
    forall k | 0 <= k < |outputs|
      ensures HeardOk(mode, Deliver(outputs[k], m, ok), ids)
    {
      DeliverSuits(mode, outputs[k], m, ok, ids, ids);
    }
  }

  // ----- exactly the live ids: adding an input -----

  /** The new id is not live and the name has a NUL, or nobody is told. */
  ghost predicate HeardAdd(w: World, st: State, name: string) {
    GoodAdd(w, st, name) || Unheard(w, st.clock + 1, st.removeQueue, false, st.outputs)
  }

  lemma AddStep(ids: set<u16>, id: u16, d: Device)
    ensures KnownStep(Reject, ids, Add(id, d)) == Some(ids + {id}) <==> id !in ids && Terminated(d)
  {}

  lemma AddHeard(w: World, st: State, name: string)
    requires AllHeard(Reject, st.outputs, Live(st.inputs))
    ensures var r := AddInput(w, st, name).state;
            AllHeard(Reject, r.outputs, Live(r.inputs)) <==> HeardAdd(w, st, name)
  {
    AddInputEffect(w, st, name);
    if Adds(w, st, name) {
      var x, live := NewInput(w, st, name), Live(st.inputs);
      InsertedIds(st.inputs, InputSlot(st.inputs, name), x);
      AddStep(live, x.id, x.device);
      DeliverAllHeard(w, st.clock + 1, st.removeQueue, false, Add(x.id, x.device), st.outputs, live, live + {x.id});
    }
  }

  // ----- exactly the live ids: adding an output -----

  /** Until a write fails, no id is announced twice and each name has a NUL. */
  predicate Tellable(w: World, clock: nat, fd: int, done: set<u16>, inputs: seq<Input>)
    decreases |inputs|
  {
    inputs == [] || !w.writes(clock, fd)
    || (inputs[0].id !in done && Terminated(inputs[0].device)
        && Tellable(w, clock + 1, fd, done + {inputs[0].id}, inputs[1..]))
  }

  lemma {:induction false} AnnounceExtends(w: World, clock: nat, o: Output, inputs: seq<Input>)
    ensures var r := AnnounceAll(w, clock, o, inputs);
            o.log <= r.log && r.known == o.known && r.fd == o.fd && r.resumed == o.resumed && r.since == o.since
    decreases |inputs|
  {
    if inputs != [] && w.writes(clock, o.fd) {
      AnnounceExtends(w, clock + 1, Deliver(o, Add(inputs[0].id, inputs[0].device), true), inputs[1..]);
    }
  }

  lemma LiveFirst(inputs: seq<Input>)
    requires inputs != []
    ensures Live(inputs) == {inputs[0].id} + Live(inputs[1..])
  {
    assert inputs == [inputs[0]] + inputs[1..];
    assert forall x :: x in inputs <==> x == inputs[0] || x in inputs[1..];
  }

  lemma {:induction false} AnnounceHeard(w: World, clock: nat, o: Output, done: set<u16>, inputs: seq<Input>)
    requires HeardOk(Reject, o, done) && !o.broken
    ensures HeardOk(Reject, AnnounceAll(w, clock, o, inputs), done + Live(inputs))
            <==> Tellable(w, clock, o.fd, done, inputs)
    decreases |inputs|
  {
    if inputs == [] {
      assert done + Live(inputs) == done;
    } else if w.writes(clock, o.fd) {
      var first, rest := inputs[0], inputs[1..];
      var told := Deliver(o, Add(first.id, first.device), true);
      LiveFirst(inputs);
      assert done + {first.id} + Live(rest) == done + Live(inputs);
      KnownAppend(Reject, o.known, o.log, Add(first.id, first.device));
      if first.id !in done && Terminated(first.device) {
        DeliverHeard(o, Add(first.id, first.device), true, done, done + {first.id});
        AnnounceHeard(w, clock + 1, told, done + {first.id}, rest);
      } else {
        NeverHeard(w, clock + 1, told, rest);
      }
    }
  }

  /** A stream that is not accepted stays so. */
  lemma NeverHeard(w: World, clock: nat, o: Output, inputs: seq<Input>)
    requires Known(Reject, o.known, o.log).None?
    ensures var r := AnnounceAll(w, clock, o, inputs); Known(Reject, r.known, r.log).None?
  {
    AnnounceExtends(w, clock, o, inputs);
    var log := AnnounceAll(w, clock, o, inputs).log;
    assert log == o.log + log[|o.log|..];
    if Known(Reject, o.known, log).Some? {
      KnownPrefix(Reject, o.known, o.log, log[|o.log|..]);
    }
  }

  /** A new output that does not resume can be told of all inputs. */
  ghost predicate HeardOutput(w: World, st: State, name: string, resume: bool) {
    Connects(w, st, name) && !resume ==> Tellable(w, st.clock + 2, Opens(w, st).fd, {}, st.inputs)
  }

  lemma NewOutputHeard(mode: Mode, st: State, name: string, fd: int, resume: bool)
    requires mode != Replace
    ensures HeardOk(mode, NewOutput(st, name, fd, resume), if resume then Live(st.inputs) else {})
  {
    assert [Hello][1..] == [];
  }

  lemma NewlyToldHeard(w: World, st: State, name: string, resume: bool)
    requires Connects(w, st, name)
    ensures HeardOk(Reject, NewlyTold(w, st, name, resume), Live(st.inputs)) <==> HeardOutput(w, st, name, resume)
  {
    var o := NewOutput(st, name, Opens(w, st).fd, resume);
    NewOutputHeard(Reject, st, name, Opens(w, st).fd, resume);
    if !resume {
      assert {} + Live(st.inputs) == Live(st.inputs);
      AnnounceHeard(w, st.clock + 2, o, {}, st.inputs);
    }
  }

  lemma InsertedHeard(mode: Mode, outputs: seq<Output>, k: nat, o: Output, ids: set<u16>)
    requires k <= |outputs|
    ensures AllHeard(mode, Insert(outputs, k, o), ids) <==> AllHeard(mode, outputs, ids) && HeardOk(mode, o, ids)
  {
    var r := Insert(outputs, k, o);
    assert forall j :: 0 <= j < |outputs| ==> outputs[j] == r[if j < k then j else j + 1];
    assert forall j :: 0 <= j < |r| && j != k ==> r[j] == outputs[if j < k then j else j - 1];
  }

  lemma OutputHeard(w: World, st: State, name: string, resume: bool)
    requires AllHeard(Reject, st.outputs, Live(st.inputs))
    ensures var r := AddOutput(w, st, name, resume).state;
            AllHeard(Reject, r.outputs, Live(r.inputs)) <==> HeardOutput(w, st, name, resume)
  {
    AddOutputEffect(w, st, name, resume);
    if Connects(w, st, name) {
      NewlyToldHeard(w, st, name, resume);
      InsertedHeard(Reject, st.outputs, OutputSlot(st.outputs, name), NewlyTold(w, st, name, resume), Live(st.inputs));
    }
  }

  // ----- exactly the live ids: commands, releases, callbacks -----

  ghost predicate HeardCommand(w: World, st: State, action: Action) {
    match action
    case InputAdd(name) => HeardAdd(w, st, name)
    case OutputAdd(name, resume) => HeardOutput(w, st, name, resume)
    case _ => true
  }

  /** A command leaves every working output telling of exactly the live ids exactly in these cases. */
  lemma ExecHeard(w: World, st: State, action: Action)
    requires AllHeard(Reject, st.outputs, Live(st.inputs))
    ensures var r := Exec(w, st, action).state;
            AllHeard(Reject, r.outputs, Live(r.inputs)) <==> HeardCommand(w, st, action)
  {
    if action.InputAdd? {
      AddHeard(w, st, action.name);
    } else if action.OutputAdd? {
      OutputHeard(w, st, action.name, action.resume);
    } else {
      OtherKeepsOutputs(w, st, action);
      OtherKeepsIds(w, st, action);
      SameLive(st.inputs, Exec(w, st, action).state.inputs);
    }
  }

  /** An announced removal takes the id away; an unannounced one must not. */
  ghost predicate HeardRelease(w: World, st: State, fd: int) {
    var k := InputAt(st.inputs, fd);
    fd in st.callbacks && st.callbacks[fd].OnInput? && k < |st.inputs| ==>
      if st.inputs[k].persistent then Shared(st.inputs, k) || forall i :: 0 <= i < |st.outputs| ==> st.outputs[i].broken
      else !Shared(st.inputs, k) || Unheard(w, st.clock, st.removeQueue, true, st.outputs)
  }

  lemma FewerHeard(outputs: seq<Output>, ids: set<u16>, ids': set<u16>)
    requires AllHeard(Reject, outputs, ids)
    ensures AllHeard(Reject, outputs, ids')
            <==> ids' == ids || forall i :: 0 <= i < |outputs| ==> outputs[i].broken
  {
    if i :| 0 <= i < |outputs| && !outputs[i].broken {
      assert HeardOk(Reject, outputs[i], ids);
      assert HeardOk(Reject, outputs[i], ids') <==> ids' == ids;
    }
  }

  lemma ReleaseInputHeard(w: World, st: State, fd: int)
    requires AllHeard(Reject, st.outputs, Live(st.inputs)) && fd in st.callbacks && st.callbacks[fd].OnInput?
    requires InputAt(st.inputs, fd) < |st.inputs|
    ensures var r := ReleaseOne(w, st, fd);
            AllHeard(Reject, r.outputs, Live(r.inputs)) <==> HeardRelease(w, st, fd)
  {
    var k, live := InputAt(st.inputs, fd), Live(st.inputs);
    var id := st.inputs[k].id;
    var live' := Live(Erase(st.inputs, k));
    FinishDeviceEffect(w, st, fd);
    ErasedLive(st.inputs, k);
    assert st.inputs[k] in st.inputs && id in live;
    FewerHeard(st.outputs, live, live');
    DeliverAllHeard(w, st.clock, st.removeQueue, true, Remove(id), st.outputs, live, live');
  }

  lemma ErasedHeard(mode: Mode, outputs: seq<Output>, k: nat, ids: set<u16>)
    requires k < |outputs| && AllHeard(mode, outputs, ids)
    ensures AllHeard(mode, Erase(outputs, k), ids)
  {
    var r := Erase(outputs, k);
    assert forall j :: 0 <= j < |r| ==> r[j] == outputs[if j < k then j else j + 1];
  }

  lemma ReleaseOtherHeard(mode: Mode, w: World, st: State, fd: int)
    requires AllHeard(mode, st.outputs, Live(st.inputs)) && Tables(st) && fd in st.callbacks
    requires !st.callbacks[fd].OnInput?
    ensures var r := ReleaseOne(w, st, fd); r.inputs == st.inputs && AllHeard(mode, r.outputs, Live(r.inputs))
  {
    ReleaseInputs(w, st, fd);
    if st.callbacks[fd].OnOutput? {
      KindOfOutput(st, fd);
      FinishOutputFields(w, st, fd);
      ErasedHeard(mode, st.outputs, OutputAt(st.outputs, fd), Live(st.inputs));
    }
  }

  lemma ReleaseHeard(w: World, st: State, fd: int)
    requires AllHeard(Reject, st.outputs, Live(st.inputs)) && Tables(st) && fd in st.callbacks
    ensures var r := ReleaseOne(w, st, fd);
            AllHeard(Reject, r.outputs, Live(r.inputs)) <==> HeardRelease(w, st, fd)
  {
    if st.callbacks[fd].OnInput? {
      KindOfInput(st, fd);
      ReleaseInputHeard(w, st, fd);
    } else {
      ReleaseOtherHeard(Reject, w, st, fd);
    }
  }

  lemma RouteHeard(mode: Mode, w: World, st: State, id: u16, e: InputEvent)
    requires mode != Replace && AllHeard(mode, st.outputs, Live(st.inputs)) && HasId(st.inputs, id)
    ensures AllHeard(mode, RouteEvent(w, st, id, e).outputs, Live(st.inputs))
  {
    var r := RouteEvent(w, st, id, e);
    if IsHotkey(st, id, e) || st.current == -1 || !st.writing {
      assert r.outputs == st.outputs;
    } else {
      var j :| 0 <= j < |st.inputs| && st.inputs[j].id == id;
      assert st.inputs[j] in st.inputs;
      DeliverToSuits(mode, st.outputs, st.current, Event(id, e), w.writes(st.clock, st.current), Live(st.inputs));
    }
  }

  lemma ReadHeard(mode: Mode, w: World, st: State, fd: int, cb: Callback)
    requires mode != Replace && AllHeard(mode, st.outputs, Live(st.inputs))
    requires Tables(st) && fd in st.callbacks && st.callbacks[fd] == cb
    ensures AllHeard(mode, OnRead(w, st, fd, cb).outputs, Live(st.inputs))
  {
    if cb.OnInput? && w.events(st.clock).Some? {
      KindOfInput(st, fd);
      RouteHeard(mode, w, st, cb.id, w.events(st.clock).value);
    } else {
      assert OnRead(w, st, fd, cb).outputs == st.outputs;
    }
  }

  /** A failure only queues a removal. */
  lemma FailuresQuiet(st: State, fd: int, r: Revents)
    requires Inv(st) && fd in st.callbacks
    ensures var cb := st.callbacks[fd];
            var st1 := if r.error then OnFailure(st, fd, cb) else st;
            var st2 := if r.hup then OnFailure(st1, fd, cb) else st1;
            && Tables(st2) && st2.inputs == st.inputs && st2.outputs == st.outputs && st2.callbacks == st.callbacks
            && st1.inputs == st.inputs && st1.outputs == st.outputs
  {
    var cb := st.callbacks[fd];
    if r.error {
      OnFailureInv(st, fd, cb);
    }
    var st1 := if r.error then OnFailure(st, fd, cb) else st;
    if r.hup {
      OnFailureInv(st1, fd, cb);
    }
  }

  /** No callback takes anything away. */
  lemma PollHeard(mode: Mode, w: World, st: State, fd: int, r: Revents)
    requires mode != Replace && AllHeard(mode, st.outputs, Live(st.inputs)) && Inv(st) && fd in st.callbacks
    ensures var st' := PollOne(w, st, fd, r); AllHeard(mode, st'.outputs, Live(st'.inputs))
  {
    var cb := st.callbacks[fd];
    PollKeepsIds(w, st, fd, r);
    var st1 := if r.error then OnFailure(st, fd, cb) else st;
    var st2 := if r.hup then OnFailure(st1, fd, cb) else st1;
    FailuresQuiet(st, fd, r);
    if r.input && !st1.quit && !st2.quit {
      ReadHeard(mode, w, st2, fd, cb);
    }
  }

  // ----- at least the live ids: resuming receivers -----

  /** Live ids differ, names can be announced, and a resuming receiver holds at least the live ids. */
  ghost predicate Resumable(st: State) {
    Unique(Ids(st.inputs)) && AllTerminated(st.inputs) && AllHeard(Resume, st.outputs, Live(st.inputs))
  }

  lemma InsertedTerminated(inputs: seq<Input>, k: nat, x: Input)
    requires k <= |inputs| && AllTerminated(inputs)
    ensures AllTerminated(Insert(inputs, k, x)) <==> Terminated(x.device)
  {
    var r := Insert(inputs, k, x);
    assert r[k] == x;
    assert forall j :: 0 <= j < |r| && j != k ==> r[j] == inputs[if j < k then j else j - 1];
  }

  lemma AddResumable(w: World, st: State, name: string)
    requires Resumable(st)
    ensures Resumable(AddInput(w, st, name).state) <==> GoodAdd(w, st, name)
  {
    AddInputEffect(w, st, name);
    if Adds(w, st, name) {
      var x, k, live := NewInput(w, st, name), InputSlot(st.inputs, name), Live(st.inputs);
      InsertedIds(st.inputs, k, x);
      InsertedTerminated(st.inputs, k, x);
      if GoodAdd(w, st, name) {
        AddStep(live, x.id, x.device);
        DeliverAllSuits(Resume, w, st.clock + 1, st.removeQueue, false, Add(x.id, x.device), st.outputs,
                        live, live + {x.id});
      }
    }
  }

  lemma {:induction false} AnnounceResumes(w: World, clock: nat, o: Output, done: set<u16>, inputs: seq<Input>)
    requires HeardOk(Resume, o, done) && AllTerminated(inputs)
    ensures HeardOk(Resume, AnnounceAll(w, clock, o, inputs), done + Live(inputs))
    decreases |inputs|
  {
    if inputs == [] {
      assert done + Live(inputs) == done;
    } else {
      var first, rest := inputs[0], inputs[1..];
      LiveFirst(inputs);
      assert done + {first.id} + Live(rest) == done + Live(inputs);
      var told := Deliver(o, Add(first.id, first.device), w.writes(clock, o.fd));
      if w.writes(clock, o.fd) {
        if !o.broken {
          KnownAppend(Resume, o.known, o.log, Add(first.id, first.device));
          assert told.log[0] == o.log[0];
        }
        AnnounceResumes(w, clock + 1, told, done + {first.id}, rest);
      }
    }
  }

  lemma OutputResumable(w: World, st: State, name: string, resume: bool)
    requires Resumable(st)
    ensures Resumable(AddOutput(w, st, name, resume).state)
  {
    AddOutputEffect(w, st, name, resume);
    if Connects(w, st, name) {
      NewOutputHeard(Resume, st, name, Opens(w, st).fd, resume);
      if !resume {
        assert {} + Live(st.inputs) == Live(st.inputs);
        AnnounceResumes(w, st.clock + 2, NewOutput(st, name, Opens(w, st).fd, resume), {}, st.inputs);
      }
      InsertedHeard(Resume, st.outputs, OutputSlot(st.outputs, name), NewlyTold(w, st, name, resume), Live(st.inputs));
    }
  }

  lemma ExecResumable(w: World, st: State, action: Action)
    requires Resumable(st)
    ensures Resumable(Exec(w, st, action).state) <==> (action.InputAdd? ==> GoodAdd(w, st, action.name))
  {
    if action.InputAdd? {
      AddResumable(w, st, action.name);
    } else if action.OutputAdd? {
      OutputResumable(w, st, action.name, action.resume);
    } else {
      OtherKeepsOutputs(w, st, action);
      OtherKeepsIds(w, st, action);
      OtherKeepsNames(w, st, action);
      SameLive(st.inputs, Exec(w, st, action).state.inputs);
    }
  }

  lemma FewerSuit(outputs: seq<Output>, ids: set<u16>, ids': set<u16>)
    requires AllHeard(Resume, outputs, ids) && ids' <= ids
    ensures AllHeard(Resume, outputs, ids')
  {
    forall i | 0 <= i < |outputs|
      ensures HeardOk(Resume, outputs[i], ids')
    {
      assert HeardOk(Resume, outputs[i], ids);
    }
  }

  lemma ErasedTerminated(inputs: seq<Input>, k: nat)
    requires k < |inputs| && AllTerminated(inputs)
    ensures AllTerminated(Erase(inputs, k))
  {
    var r := Erase(inputs, k);
    assert forall j :: 0 <= j < |r| ==> r[j] == inputs[if j < k then j else j + 1];
  }

  lemma ReleaseInputResumable(w: World, st: State, fd: int)
    requires Resumable(st) && fd in st.callbacks && st.callbacks[fd].OnInput? && InputAt(st.inputs, fd) < |st.inputs|
    ensures Resumable(ReleaseOne(w, st, fd))
  {
    var k := InputAt(st.inputs, fd);
    FinishDeviceEffect(w, st, fd);
    ErasedInOrder(st.inputs, k);
    RemovalSuits(w, st, k);
  }

  lemma ErasedInOrder(inputs: seq<Input>, k: nat)
    requires k < |inputs| && Unique(Ids(inputs)) && AllTerminated(inputs)
    ensures Unique(Ids(Erase(inputs, k))) && AllTerminated(Erase(inputs, k))
    ensures Live(Erase(inputs, k)) == Live(inputs) - {inputs[k].id}
  {
    ErasedIds(inputs, k);
    ErasedApart(inputs, k);
    ErasedTerminated(inputs, k);
  }

  /** A removal leaves resuming receivers with at least the ids that stay live, announced or not. */
  lemma RemovalSuits(w: World, st: State, k: nat)
    requires k < |st.inputs| && AllHeard(Resume, st.outputs, Live(st.inputs))
    ensures var id := st.inputs[k].id;
            var told := DeliverAll(w, st.clock, st.removeQueue, true, Remove(id), st.outputs);
            && AllHeard(Resume, st.outputs, Live(st.inputs) - {id})
            && AllHeard(Resume, told, Live(st.inputs) - {id})
  {
    var id, live := st.inputs[k].id, Live(st.inputs);
    FewerSuit(st.outputs, live, live - {id});
    assert st.inputs[k] in st.inputs && id in live;
    DeliverAllSuits(Resume, w, st.clock, st.removeQueue, true, Remove(id), st.outputs, live, live - {id});
  }

  lemma ReleaseResumable(w: World, st: State, fd: int)
    requires Resumable(st) && Tables(st) && fd in st.callbacks
    ensures Resumable(ReleaseOne(w, st, fd))
  {
    if st.callbacks[fd].OnInput? {
      KindOfInput(st, fd);
      ReleaseInputResumable(w, st, fd);
    } else {
      ReleaseOtherHeard(Resume, w, st, fd);
    }
  }

  lemma PollResumable(w: World, st: State, fd: int, r: Revents)
    requires Resumable(st) && Inv(st) && fd in st.callbacks
    ensures Resumable(PollOne(w, st, fd, r))
  {
    PollHeard(Resume, w, st, fd, r);
    PollKeepsIds(w, st, fd, r);
  }
}
