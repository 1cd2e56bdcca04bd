/** What the other end of every output is told, operation by operation. */
module DaemonStreams {
  import opened Bytes
  import opened Devices
  import opened AddDevice
  import opened Protocol
  import opened Receiver
  import opened DaemonState
  import opened DaemonInvariant
  import opened DaemonSync
  import opened DaemonEffects
  import opened DaemonHeard

  /** The stream last announced an input under its id with its description, its name aside; or it
      never did, as the id was known before. */
  ghost predicate Described(o: Output, x: Input) {
    var d := LastAdd(o.log, x.id);
    if d.Some? then d.value.(name := x.device.name) == x.device else x.id in o.known
  }

  ghost predicate AllDescribed(o: Output, inputs: seq<Input>) {
    forall j :: 0 <= j < |inputs| ==> Described(o, inputs[j])
  }

  /** A rejecting receiver that holds what the other end is taken to hold accepts what was written to
      an output; unless a write failed, it then holds exactly the live ids, with their descriptions. */
  ghost predicate StreamOk(o: Output, inputs: seq<Input>) {
    HeardOk(Reject, o, Live(inputs)) && (!o.broken ==> AllDescribed(o, inputs))
  }

  ghost predicate StreamsOk(outputs: seq<Output>, inputs: seq<Input>) {
    forall k :: 0 <= k < |outputs| ==> StreamOk(outputs[k], inputs)
  }

  /** Live ids differ, names can be announced, and every output is in step. */
  ghost predicate Sync(st: State) {
    Unique(Ids(st.inputs)) && AllTerminated(st.inputs) && StreamsOk(st.outputs, st.inputs)
  }

  lemma SyncSame(a: State, b: State)
    requires b.inputs == a.inputs && b.outputs == a.outputs
    ensures Sync(a) <==> Sync(b)
  {}

  // ----- writing -----

  /** What a message does to the inputs the other end knows of. */
  ghost predicate Carries(m: Message, inputs: seq<Input>, inputs': seq<Input>) {
    && KnownStep(Reject, Live(inputs), m) == Some(Live(inputs'))
    && forall j :: 0 <= j < |inputs'| ==>
         || m == Add(inputs'[j].id, inputs'[j].device)
         || (inputs'[j] in inputs && (m.Add? || m.Remove? ==> m.id != inputs'[j].id))
  }

  lemma DeliverStream(o: Output, m: Message, ok: bool, inputs: seq<Input>, inputs': seq<Input>)
    requires StreamOk(o, inputs) && Carries(m, inputs, inputs')
    ensures StreamOk(Deliver(o, m, ok), inputs')
  {
    if ok && !o.broken {
      KnownAppend(Reject, o.known, o.log, m);
      assert (o.log + [m])[0] == o.log[0];
      forall j | 0 <= j < |inputs'|
        ensures Described(o.(log := o.log + [m]), inputs'[j])
      {
        LogStep(o.log, m, inputs'[j].id);
      }
    }
  }

  /** A message written to all outputs leaves each of them telling of the new inputs. */
  lemma DeliveredAll(w: World, clock: nat, queue: seq<int>, draining: bool, m: Message, outputs: seq<Output>,
                     inputs: seq<Input>, inputs': seq<Input>)
    requires StreamsOk(outputs, inputs) && Carries(m, inputs, inputs')
    ensures StreamsOk(DeliverAll(w, clock, queue, draining, m, outputs), inputs')
  {
    forall k | 0 <= k < |outputs|
      ensures StreamOk(DeliverAll(w, clock, queue, draining, m, outputs)[k], inputs')
    {
      DeliverStream(outputs[k], m, WriteOk(w, clock, queue, draining, outputs[k].fd), inputs, inputs');
    }
  }

  // ----- adding an input -----

  lemma AddedCarries(inputs: seq<Input>, k: nat, x: Input)
    requires k <= |inputs| && x.id !in Live(inputs) && Terminated(x.device)
    ensures Carries(Add(x.id, x.device), inputs, Insert(inputs, k, x))
  {
    InsertedIds(inputs, k, x);
    var r := Insert(inputs, k, x);
    forall j | 0 <= j < |r| && j != k
      ensures r[j] in inputs && r[j].id != x.id
    {
      assert r[j] == inputs[if j < k then j else j - 1];
    }
  }

  /** Adding an input keeps everything in step exactly when its id is not live and its name has a NUL. */
  lemma AddInputExact(w: World, st: State, name: string)
    requires Sync(st)
    ensures Sync(AddInput(w, st, name).state) <==> GoodAdd(w, st, name)
  {
    AddInputEffect(w, st, name);
    var r := AddInput(w, st, name).state;
    if !Adds(w, st, name) {
      SyncSame(st, r);
    } else {
      var x, k := NewInput(w, st, name), InputSlot(st.inputs, name);
      InsertedIds(st.inputs, k, x);
      InsertedTerminated(st.inputs, k, x);
      if GoodAdd(w, st, name) {
        AddedCarries(st.inputs, k, x);
        DeliveredAll(w, st.clock + 1, st.removeQueue, false, Add(x.id, x.device), st.outputs, st.inputs, r.inputs);
      }
    }
  }

  /** When it does not, every output in step that hears of it has the receiver at its other end fail,
      whatever is written to it later. */
  lemma BadAddRejected(w: World, st: State, name: string, k: nat, held: DeviceMap, more: seq<Message>)
    requires Sync(st) && !GoodAdd(w, st, name)
    requires k < |st.outputs| && !st.outputs[k].broken && held.Keys == st.outputs[k].known
    requires w.writes(st.clock + 1, st.outputs[k].fd)
    ensures var x, o := NewInput(w, st, name), AddInput(w, st, name).state.outputs[k];
            && o.log == st.outputs[k].log + [Add(x.id, x.device)]
            && Session(Reject, held, [], EncodeAll(o.log + more)).ending
               == Thrown(if x.id in Live(st.inputs) then DuplicateDevice else NameTooLong)
  {
    AddInputEffect(w, st, name);
    var x := NewInput(w, st, name);
    AnnouncementRejected(held, st.outputs[k].log, x.id, x.device, more);
  }

  // ----- changing an input -----

  lemma ChangeInputSync(st: State, k: nat, input: Input)
    requires Sync(st) && k < |st.inputs| && input.id == st.inputs[k].id && Terminated(input.device)
    requires input.device.(name := st.inputs[k].device.name) == st.inputs[k].device
    ensures Sync(st.(inputs := st.inputs[k := input]))
  {
    var r := st.inputs[k := input];
    assert Ids(r) == Ids(st.inputs);
    forall id
      ensures id in Live(r) <==> id in Live(st.inputs)
    {
      LiveIds(r, id);
      LiveIds(st.inputs, id);
    }
    assert Live(r) == Live(st.inputs);
    forall i | 0 <= i < |st.outputs|
      ensures StreamOk(st.outputs[i], r)
    {
      var o := st.outputs[i];
      if !o.broken {
        assert Described(o, st.inputs[k]);
        assert forall j :: 0 <= j < |r| && j != k ==> r[j] == st.inputs[j] && Described(o, r[j]);
      }
    }
  }

  lemma RenameInputSync(st: State, name: string, to: seq<byte>)
    requires Sync(st)
    ensures Sync(RenameInput(st, name, to).state)
  {
    var k := InputNamed(st.inputs, name);
    if k < |st.inputs| {
      var renamed := Renamed(st.inputs[k].device, to);
      if renamed.Some? {
        ChangeInputSync(st, k, st.inputs[k].(device := renamed.value));
      }
    }
  }

  // ----- outputs -----

  /** Announcing every input to a new output tells its other end all of them. */
  lemma {:induction false} AnnounceAllOk(w: World, clock: nat, o: Output, done: seq<Input>, inputs: seq<Input>)
    requires StreamOk(o, done) && !o.resumed && Unique(Ids(done + inputs)) && AllTerminated(inputs)
    ensures StreamOk(AnnounceAll(w, clock, o, inputs), done + inputs)
    decreases |inputs|
  {
    if inputs == [] {
      assert done + inputs == done;
    } else {
      var first, rest := inputs[0], inputs[1..];
      assert done + inputs == done + [first] + rest;
      FirstIsNew(done, first, rest);
      AddedCarries(done, |done|, first);
      assert Insert(done, |done|, first) == done + [first];
      DeliverStream(o, Add(first.id, first.device), w.writes(clock, o.fd), done, done + [first]);
      if w.writes(clock, o.fd) {
        AnnounceAllOk(w, clock + 1, Deliver(o, Add(first.id, first.device), true), done + [first], rest);
      } else {
        assert StreamOk(o.(broken := true), done + inputs);
      }
    }
  }

  lemma FirstIsNew(done: seq<Input>, first: Input, rest: seq<Input>)
    requires Unique(Ids(done + [first] + rest))
    ensures first.id !in Live(done)
  {
    var ids := Ids(done + [first] + rest);
    forall j | 0 <= j < |done|
      ensures done[j].id != first.id
    {
      assert ids[j] == done[j].id && ids[|done|] == first.id;
    }
  }

  lemma GreetedOk(o: Output, inputs: seq<Input>)
    requires o.log == [Hello] && !o.broken && (!o.resumed ==> o.known == {}) && o.known == Live(inputs)
    ensures StreamOk(o, inputs)
  {
    assert [Hello][1..] == [];
    forall j | 0 <= j < |inputs|
      ensures Described(o, inputs[j])
    {
      LogStep([], Hello, inputs[j].id);
      assert [] + [Hello] == [Hello] && inputs[j] in inputs;
    }
  }

  lemma EnterOutputSync(w: World, st: State, o: Output)
    requires Sync(st) && o.log == [Hello] && !o.broken && o.known == if o.resumed then Live(st.inputs) else {}
    ensures Sync(EnterOutput(w, st, o))
  {
    GreetedOk(o, if o.resumed then st.inputs else []);
    if !o.resumed {
      assert [] + st.inputs == st.inputs;
      AnnounceAllOk(w, st.clock, o, [], st.inputs);
    }
    EnteredSync(st.(clock := st.clock + |st.inputs|), Announced(w, st.clock, o, st.inputs));
  }

  lemma EnteredSync(st: State, o: Output)
    requires Sync(st) && StreamOk(o, st.inputs)
    ensures Sync(Entered(st, o))
  {
    var k := OutputSlot(st.outputs, o.name);
    var r := Insert(st.outputs, k, o);
    assert forall j :: 0 <= j < |r| && j != k ==> r[j] == st.outputs[if j < k then j else j - 1];
    SyncSame(RegisterOutput(st, o), Entered(st, o));
  }

  lemma AddOutputSync(w: World, st: State, name: string, resume: bool)
    requires Sync(st)
    ensures Sync(AddOutput(w, st, name, resume).state)
  {
    var opening := Opens(w, st);
    SyncSame(st, Tick(st));
    SyncSame(st, Tick(Tick(st)));
    if opening.Opened? {
      EnterOutputSync(w, Tick(Tick(st)), NewOutput(st, name, opening.fd, resume));
    }
  }

  // ----- commands -----

  lemma ExecInputExact(w: World, st: State, action: Action)
    requires Sync(st) && OnInputs(action)
    ensures Sync(Exec(w, st, action).state) <==> (action.InputAdd? ==> GoodAdd(w, st, action.name))
  {
    match action
    case InputAdd(name) => AddInputExact(w, st, name);
    case InputRemove(name) => SyncSame(st, RemoveInput(st, name).state);
    case InputRename(name, to) => RenameInputSync(st, name, to);
    case InputResetName(name) =>
      var k := InputNamed(st.inputs, name);
      if k < |st.inputs| {
        RenameInputSync(st, name, st.inputs[k].realName);
      }
    case InputPersist(name, on) =>
      var k := InputNamed(st.inputs, name);
      if k < |st.inputs| && on.Some? {
        ChangeInputSync(st, k, st.inputs[k].(persistent := on.value));
      }
  }

  lemma ExecOutputSync(w: World, st: State, action: Action)
    requires Sync(st) && OnOutputs(action)
    ensures Sync(Exec(w, st, action).state)
  {
    match action
    case OutputAdd(name, resume) => AddOutputSync(w, st, name, resume);
    case OutputRemove(name) => SyncSame(st, RemoveOutput(st, name).state);
    case OutputUse(name) => SyncSame(st, UseOutput(st, name).state);
  }

  /** A command keeps everything in step exactly when it is not a bad `device add`. */
  lemma ExecExact(w: World, st: State, action: Action)
    requires Sync(st)
    ensures Sync(Exec(w, st, action).state) <==> (action.InputAdd? ==> GoodAdd(w, st, action.name))
  {
    if OnInputs(action) {
      ExecInputExact(w, st, action);
    } else if OnOutputs(action) {
      ExecOutputSync(w, st, action);
    } else {
      SyncSame(st, Exec(w, st, action).state);
    }
  }

  // ----- the drain -----

  lemma RemovedCarries(inputs: seq<Input>, k: nat)
    requires k < |inputs| && Unique(Ids(inputs))
    ensures Carries(Remove(inputs[k].id), inputs, Erase(inputs, k))
  {
    ErasedIds(inputs, k);
    ErasedMembers(inputs, k);
    ErasedApart(inputs, k);
    assert inputs[k] in inputs;
    assert forall j :: 0 <= j < |Erase(inputs, k)| ==> Erase(inputs, k)[j] in Erase(inputs, k);
  }

  /** The removal of the input is announced, or there is nobody left who would have to hear of it. */
  predicate GoodRelease(st: State, fd: int) {
    var k := InputAt(st.inputs, fd);
    fd in st.callbacks && st.callbacks[fd].OnInput? && k < |st.inputs| && st.inputs[k].persistent
    ==> forall i :: 0 <= i < |st.outputs| ==> st.outputs[i].broken
  }

  /** The tables without an input: in step exactly if the outputs were told, or none is left to tell. */
  lemma ErasedSync(inputs: seq<Input>, k: nat, outputs: seq<Output>, told: seq<Output>)
    requires k < |inputs| && Unique(Ids(inputs)) && AllTerminated(inputs)
    requires StreamsOk(outputs, inputs)
    requires told == outputs || StreamsOk(told, Erase(inputs, k))
    ensures var r := Erase(inputs, k);
            && Unique(Ids(r)) && AllTerminated(r)
            && (told == outputs ==> (StreamsOk(told, r) <==> forall i :: 0 <= i < |outputs| ==> outputs[i].broken))
  {
    var r := Erase(inputs, k);
    ErasedApart(inputs, k);
    ErasedIds(inputs, k);
    assert forall j :: 0 <= j < |r| ==> r[j] == inputs[if j < k then j else j + 1];
    assert inputs[k] in inputs && inputs[k].id in Live(inputs);
    assert forall i :: 0 <= i < |outputs| ==> (StreamOk(outputs[i], r) <==> outputs[i].broken) by {
      assert forall i :: 0 <= i < |outputs| ==> StreamOk(outputs[i], inputs);
    }
  }

  lemma ReleaseInputExact(w: World, st: State, fd: int)
    requires Sync(st) && fd in st.callbacks && st.callbacks[fd].OnInput? && InputAt(st.inputs, fd) < |st.inputs|
    ensures Sync(ReleaseOne(w, st, fd)) <==> GoodRelease(st, fd)
  {
    var k := InputAt(st.inputs, fd);
    var id := st.inputs[k].id;
    FinishDeviceEffect(w, st, fd);
    var told := DeliverAll(w, st.clock, st.removeQueue, true, Remove(id), st.outputs);
    RemovedCarries(st.inputs, k);
    DeliveredAll(w, st.clock, st.removeQueue, true, Remove(id), st.outputs, st.inputs, Erase(st.inputs, k));
    ErasedSync(st.inputs, k, st.outputs, if st.inputs[k].persistent then st.outputs else told);
  }

  /** Releasing a descriptor keeps everything in step exactly when it is not an input whose removal
      goes unannounced. */
  lemma ReleaseExact(w: World, st: State, fd: int)
    requires Sync(st) && Tables(st) && fd in st.callbacks
    ensures Sync(ReleaseOne(w, st, fd)) <==> GoodRelease(st, fd)
  {
    match st.callbacks[fd]
    case OnInput(_) =>
      KindOfInput(st, fd);
      ReleaseInputExact(w, st, fd);
    case OnOutput =>
      KindOfOutput(st, fd);
      FinishOutputFields(w, st, fd);
      var k := OutputAt(st.outputs, fd);
      var r := ReleaseOne(w, st, fd);
      assert forall j :: 0 <= j < |r.outputs| ==> r.outputs[j] == st.outputs[if j < k then j else j + 1];
    case _ => SyncSame(st, ReleaseOne(w, st, fd));
  }

  // ----- callbacks -----

  lemma DeliverToStreams(outputs: seq<Output>, fd: int, m: Message, ok: bool, inputs: seq<Input>)
    requires StreamsOk(outputs, inputs) && Carries(m, inputs, inputs)
    ensures StreamsOk(DeliverTo(outputs, fd, m, ok), inputs)
  {
    forall k | 0 <= k < |outputs|
      ensures StreamOk(Deliver(outputs[k], m, ok), inputs)
    {
      DeliverStream(outputs[k], m, ok, inputs, inputs);
    }
  }

  lemma EventCarries(inputs: seq<Input>, id: u16, e: InputEvent)
    requires HasId(inputs, id)
    ensures Carries(Event(id, e), inputs, inputs)
  {
    var j :| 0 <= j < |inputs| && inputs[j].id == id;
    assert inputs[j] in inputs;
  }

  /** An event is sent only with a live id. */
  lemma RouteEventSync(w: World, st: State, id: u16, e: InputEvent)
    requires Sync(st) && HasId(st.inputs, id)
    ensures Sync(RouteEvent(w, st, id, e))
  {
    var r := RouteEvent(w, st, id, e);
    if IsHotkey(st, id, e) || st.current == -1 || !st.writing {
      SyncSame(st, r);
    } else {
      var ok := w.writes(st.clock, st.current);
      EventCarries(st.inputs, id, e);
      DeliverToStreams(st.outputs, st.current, Event(id, e), ok, st.inputs);
      SyncSame(st.(outputs := DeliverTo(st.outputs, st.current, Event(id, e), ok)), r);
    }
  }

  lemma OnReadSync(w: World, st: State, fd: int, cb: Callback)
    requires Sync(st) && Tables(st) && fd in st.callbacks && st.callbacks[fd] == cb
    ensures Sync(OnRead(w, st, fd, cb))
  {
    if cb.OnInput? && w.events(st.clock).Some? {
      KindOfInput(st, fd);
      RouteEventSync(w, st, cb.id, w.events(st.clock).value);
    } else {
      SyncSame(st, OnRead(w, st, fd, cb));
    }
  }

  lemma PollOneSync(w: World, st: State, fd: int, r: Revents)
    requires Sync(st) && Inv(st) && fd in st.callbacks
    ensures Sync(PollOne(w, st, fd, r))
  {
    var cb := st.callbacks[fd];
    if r.error {
      OnFailureInv(st, fd, cb);
    }
    var st1 := if r.error then OnFailure(st, fd, cb) else st;
    SyncSame(st, st1);
    if r.hup {
      OnFailureInv(st1, fd, cb);
    }
    var st2 := if r.hup then OnFailure(st1, fd, cb) else st1;
    SyncSame(st1, st2);
    OnReadSync(w, st2, fd, cb);
  }
}
