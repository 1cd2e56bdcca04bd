/** What single operations do to the tables of inputs and outputs. */
module DaemonEffects {
  import opened Bytes
  import opened Devices
  import opened Protocol
  import opened Numbers
  import opened DaemonState
  import opened DaemonInvariant
  import opened DaemonSync

  ghost predicate AllTerminated(inputs: seq<Input>) {
    forall k :: 0 <= k < |inputs| ==> Terminated(inputs[k].device)
  }

  // ----- inputs come and go -----

  lemma LiveIds(inputs: seq<Input>, id: u16)
    ensures id in Live(inputs) <==> id in Ids(inputs)
  {
    if id in Live(inputs) {
      var x :| x in inputs && x.id == id;
      var j :| 0 <= j < |inputs| && inputs[j] == x;
      assert Ids(inputs)[j] == id;
    }
  }

  lemma InsertedIds(inputs: seq<Input>, k: nat, x: Input)
    requires k <= |inputs|
    ensures Ids(Insert(inputs, k, x)) == Insert(Ids(inputs), k, x.id)
    ensures Live(Insert(inputs, k, x)) == Live(inputs) + {x.id}
    ensures Unique(Ids(Insert(inputs, k, x))) <==> Unique(Ids(inputs)) && x.id !in Live(inputs)
  {
    var ids, r := Ids(inputs), Insert(Ids(inputs), k, x.id);
    assert Ids(Insert(inputs, k, x)) == r;
    assert Insert(inputs, k, x) == inputs[..k] + [x] + inputs[k..] && inputs == inputs[..k] + inputs[k..];
    assert forall y :: y in Insert(inputs, k, x) <==> y in inputs || y == x;
    LiveIds(inputs, x.id);
    InsertedUnique(ids, k, x.id);
  }

  lemma InsertedUnique(ids: seq<u16>, k: nat, id: u16)
    requires k <= |ids|
    ensures Unique(Insert(ids, k, id)) <==> Unique(ids) && id !in ids
  {
    var r := Insert(ids, k, id);
    if Unique(r) {
      forall i, j | 0 <= i < j < |ids|
        ensures ids[i] != ids[j]
      {
        assert ids[i] == r[if i < k then i else i + 1] && ids[j] == r[if j < k then j else j + 1];
      }
      forall j | 0 <= j < |ids|
        ensures ids[j] != id
      {
        assert r[if j < k then j else j + 1] == ids[j] && r[k] == id;
      }
    } else {
      var i, j :| 0 <= i < j < |r| && r[i] == r[j];
      assert i != k ==> r[i] == ids[if i < k then i else i - 1];
      assert j != k ==> r[j] == ids[if j < k then j else j - 1];
    }
  }

  lemma ErasedMembers<T>(xs: seq<T>, k: nat)
    requires k < |xs|
    ensures forall x :: x in Erase(xs, k) ==> x in xs
    ensures forall x :: x in xs && x != xs[k] ==> x in Erase(xs, k)
  {
    var r := Erase(xs, k);
    forall x | x in r
      ensures x in xs
    {
      var j :| 0 <= j < |r| && r[j] == x;
      assert xs[if j < k then j else j + 1] == x;
    }
    forall x | x in xs && x != xs[k]
      ensures x in r
    {
      var j :| 0 <= j < |xs| && xs[j] == x;
      assert r[if j < k then j else j - 1] == x;
    }
  }

  /** The others keep their place, and none of them has the id of the one that went. */
  lemma ErasedApart(inputs: seq<Input>, k: nat)
    requires k < |inputs| && Unique(Ids(inputs))
    ensures Ids(Erase(inputs, k)) == Erase(Ids(inputs), k) && Unique(Ids(Erase(inputs, k)))
    ensures forall x :: x in Erase(inputs, k) ==> x.id != inputs[k].id
  {
    var ids, r := Ids(inputs), Erase(inputs, k);
    assert Ids(r) == Erase(ids, k);
    forall j | 0 <= j < |r|
      ensures r[j].id != inputs[k].id
    {
      assert ids[if j < k then j else j + 1] == r[j].id && ids[k] == inputs[k].id;
    }
  }

  lemma ErasedIds(inputs: seq<Input>, k: nat)
    requires k < |inputs| && Unique(Ids(inputs))
    ensures Live(Erase(inputs, k)) == Live(inputs) - {inputs[k].id}
  {
    var r, id := Erase(inputs, k), inputs[k].id;
    ErasedMembers(inputs, k);
    ErasedApart(inputs, k);
    forall y | y in Live(inputs) && y != id
      ensures y in Live(r)
    {
      var x :| x in inputs && x.id == y;
      assert x in r;
    }
  }

  /** The id of an input is another input's too. */
  predicate Shared(inputs: seq<Input>, k: nat)
    requires k < |inputs|
  {
    exists j :: 0 <= j < |inputs| && j != k && inputs[j].id == inputs[k].id
  }

  lemma ErasedLive(inputs: seq<Input>, k: nat)
    requires k < |inputs|
    ensures Live(Erase(inputs, k)) == if Shared(inputs, k) then Live(inputs) else Live(inputs) - {inputs[k].id}
  {
    var r, id := Erase(inputs, k), inputs[k].id;
    ErasedMembers(inputs, k);
    forall y | y in Live(inputs) && y != id
      ensures y in Live(r)
    {
      var x :| x in inputs && x.id == y;
      assert x in r;
    }
    if Shared(inputs, k) {
      var j :| 0 <= j < |inputs| && j != k && inputs[j].id == id;
      assert r[if j < k then j else j - 1] == inputs[j];
      assert r[if j < k then j else j - 1] in r;
    } else {
      forall j | 0 <= j < |r|
        ensures r[j].id != id
      {
        assert r[j] == inputs[if j < k then j else j + 1];
      }
    }
    assert inputs[k] in inputs;
  }

  lemma UniqueUnshared(inputs: seq<Input>, k: nat)
    requires k < |inputs| && Unique(Ids(inputs))
    ensures !Shared(inputs, k)
  {
    var ids := Ids(inputs);
    forall j | 0 <= j < |inputs| && j != k
      ensures inputs[j].id != inputs[k].id
    {
      assert ids[j] == inputs[j].id && ids[k] == inputs[k].id;
    }
  }

  lemma SameLive(a: seq<Input>, b: seq<Input>)
    requires Ids(a) == Ids(b)
    ensures Live(a) == Live(b)
  {
    forall id
      ensures id in Live(a) <==> id in Live(b)
    {
      LiveIds(a, id);
      LiveIds(b, id);
    }
  }

  // ----- adding an input -----

  /** Whether `device add` gets as far as announcing and entering an input. */
  predicate Adds(w: World, st: State, name: string) {
    InputNamed(st.inputs, name) == |st.inputs| <= 0xffff && Opens(w, st).Opened?
  }

  /** The input it enters. */
  function NewInput(w: World, st: State, name: string): Input
    requires Adds(w, st, name)
  {
    var device := Opens(w, st).device;
    Input(name, NextId(|st.inputs|, st.freeIds).0, Opens(w, st).fd, device,
          device.name[..NameLength(device.name)], false)
  }

  /** The id it is given is not live and the name can be announced. */
  predicate GoodAdd(w: World, st: State, name: string) {
    Adds(w, st, name) ==> NewInput(w, st, name).id !in Live(st.inputs) && Terminated(NewInput(w, st, name).device)
  }

  lemma AddInputEffect(w: World, st: State, name: string)
    ensures var r := AddInput(w, st, name).state;
            if Adds(w, st, name) then
              var x := NewInput(w, st, name);
              && r.inputs == Insert(st.inputs, InputSlot(st.inputs, name), x)
              && r.outputs == DeliverAll(w, st.clock + 1, st.removeQueue, false, Add(x.id, x.device), st.outputs)
              && r.freeIds == NextId(|st.inputs|, st.freeIds).1
            else r.inputs == st.inputs && r.outputs == st.outputs
  {}

  // ----- adding an output -----

  /** Whether `output add` gets as far as greeting and entering an output. */
  predicate Connects(w: World, st: State, name: string) {
    OutputNamed(st.outputs, name) == |st.outputs| && Opens(w, st).Opened? && w.writes(st.clock + 1, Opens(w, st).fd)
  }

  /** The output it enters, its announcements made. */
  function NewlyTold(w: World, st: State, name: string, resume: bool): Output
    requires Connects(w, st, name)
  {
    Announced(w, st.clock + 2, NewOutput(st, name, Opens(w, st).fd, resume), st.inputs)
  }

  lemma EnteredEffect(st: State, o: Output)
    ensures Entered(st, o).outputs == Insert(st.outputs, OutputSlot(st.outputs, o.name), o)
    ensures Entered(st, o).inputs == st.inputs && Entered(st, o).freeIds == st.freeIds
  {}

  lemma {:induction false} AnnounceAllName(w: World, clock: nat, o: Output, inputs: seq<Input>)
    ensures AnnounceAll(w, clock, o, inputs).name == o.name
    decreases |inputs|
  {
    if inputs != [] && w.writes(clock, o.fd) {
      AnnounceAllName(w, clock + 1, Deliver(o, Add(inputs[0].id, inputs[0].device), true), inputs[1..]);
    }
  }

  lemma AddOutputEffect(w: World, st: State, name: string, resume: bool)
    ensures var r := AddOutput(w, st, name, resume).state;
            && r.inputs == st.inputs && r.freeIds == st.freeIds
            && (if Connects(w, st, name) then
                  r.outputs == Insert(st.outputs, OutputSlot(st.outputs, name), NewlyTold(w, st, name, resume))
                else r.outputs == st.outputs)
  {
    if Connects(w, st, name) {
      Connected(w, st, name, resume);
      EnterOutputEffect(w, Tick(Tick(st)), NewOutput(st, name, Opens(w, st).fd, resume));
    } else {
      NotConnected(w, st, name, resume);
    }
  }

  lemma Connected(w: World, st: State, name: string, resume: bool)
    requires Connects(w, st, name)
    ensures AddOutput(w, st, name, resume).state
            == EnterOutput(w, Tick(Tick(st)), NewOutput(st, name, Opens(w, st).fd, resume))
  {}

  lemma NotConnected(w: World, st: State, name: string, resume: bool)
    requires !Connects(w, st, name)
    ensures var r := AddOutput(w, st, name, resume).state;
            r.inputs == st.inputs && r.freeIds == st.freeIds && r.outputs == st.outputs
  {}

  lemma EnterOutputEffect(w: World, st: State, o: Output)
    ensures var r := EnterOutput(w, st, o);
            && r.inputs == st.inputs && r.freeIds == st.freeIds
            && r.outputs == Insert(st.outputs, OutputSlot(st.outputs, o.name), Announced(w, st.clock, o, st.inputs))
  {
    AnnounceAllName(w, st.clock, o, st.inputs);
    EnteredEffect(st.(clock := st.clock + |st.inputs|), Announced(w, st.clock, o, st.inputs));
  }

  // ----- other commands -----

  function Names(inputs: seq<Input>): (r: seq<string>)
    ensures |r| == |inputs| && forall k :: 0 <= k < |inputs| ==> r[k] == inputs[k].name
  {
    seq(|inputs|, k requires 0 <= k < |inputs| => inputs[k].name)
  }

  /** Same ids, same names, same free list. */
  ghost predicate SameIds(a: State, b: State) {
    Ids(b.inputs) == Ids(a.inputs) && Names(b.inputs) == Names(a.inputs) && b.freeIds == a.freeIds
  }

  lemma RenameKeepsIds(st: State, name: string, to: seq<byte>)
    ensures SameIds(st, RenameInput(st, name, to).state)
  {}

  lemma EnteredKeepsIds(st: State, o: Output)
    ensures SameTables(st, Entered(st, o))
  {}

  lemma AddOutputKeepsIds(w: World, st: State, name: string, resume: bool)
    ensures SameTables(st, AddOutput(w, st, name, resume).state)
  {
    var opening := Opens(w, st);
    if opening.Opened? {
      var st2 := Tick(Tick(st));
      var o := NewOutput(st, name, opening.fd, resume);
      EnteredKeepsIds(st2.(clock := st2.clock + |st2.inputs|), Announced(w, st2.clock, o, st2.inputs));
    }
  }

  lemma OutputsKeepIds(w: World, st: State, action: Action)
    requires OnOutputs(action)
    ensures SameIds(st, Exec(w, st, action).state)
  {
    if action.OutputAdd? {
      AddOutputKeepsIds(w, st, action.name, action.resume);
    }
  }

  lemma InputsKeepIds(w: World, st: State, action: Action)
    requires OnInputs(action) && !action.InputAdd?
    ensures SameIds(st, Exec(w, st, action).state)
  {
    match action
    case InputRename(name, to) => RenameKeepsIds(st, name, to);
    case InputResetName(name) =>
      var k := InputNamed(st.inputs, name);
      if k < |st.inputs| {
        RenameKeepsIds(st, name, st.inputs[k].realName);
      }
    case InputRemove(name) => assert RemoveInput(st, name).state.inputs == st.inputs;
    case InputPersist(name, on) => PersistKeepsIds(st, name, on);
  }

  lemma PersistKeepsIds(st: State, name: string, on: Option<bool>)
    ensures SameIds(st, SetPersistent(st, name, on).state)
  {}

  lemma RestKeepIds(w: World, st: State, action: Action)
    requires !OnInputs(action) && !OnOutputs(action)
    ensures SameTables(st, Exec(w, st, action).state)
  {
    match action
    case HotkeyAdd(name, spec, text) => HotkeyKeepsIds(st, name, spec, text);
    case HotkeyRemove(name, spec) => HotkeyKeepsIds(st, name, spec, "");
    case _ =>
  }

  lemma HotkeyKeepsIds(st: State, name: string, spec: Option<HotkeySpec>, text: string)
    ensures SameTables(st, AddHotkey(st, name, spec, text).state) && SameTables(st, RemoveHotkey(st, name, spec).state)
  {}

  lemma OtherKeepsIds(w: World, st: State, action: Action)
    requires !action.InputAdd?
    ensures SameIds(st, Exec(w, st, action).state)
  {
    if OnOutputs(action) {
      OutputsKeepIds(w, st, action);
    } else if OnInputs(action) {
      InputsKeepIds(w, st, action);
    } else {
      RestKeepIds(w, st, action);
    }
  }

  /** Names stay announceable. */
  lemma RenameKeepsNames(st: State, name: string, to: seq<byte>)
    requires AllTerminated(st.inputs)
    ensures AllTerminated(RenameInput(st, name, to).state.inputs)
  {}

  lemma OtherKeepsNames(w: World, st: State, action: Action)
    requires AllTerminated(st.inputs) && !action.InputAdd?
    ensures AllTerminated(Exec(w, st, action).state.inputs)
  {
    if action.InputRename? {
      RenameKeepsNames(st, action.name, action.to);
    } else if action.InputResetName? {
      var k := InputNamed(st.inputs, action.name);
      if k < |st.inputs| {
        RenameKeepsNames(st, action.name, st.inputs[k].realName);
      }
    } else if action.OutputAdd? {
      AddOutputEffect(w, st, action.name, action.resume);
    } else {
      PlainKeepsNames(w, st, action);
    }
  }

  predicate PlainAction(action: Action) {
    !action.InputAdd? && !action.InputRename? && !action.InputResetName? && !action.OutputAdd?
  }

  lemma PlainKeepsNames(w: World, st: State, action: Action)
    requires AllTerminated(st.inputs) && PlainAction(action)
    ensures AllTerminated(Exec(w, st, action).state.inputs)
  {}

  lemma RenameKeepsOutputs(st: State, name: string, to: seq<byte>)
    ensures RenameInput(st, name, to).state.outputs == st.outputs
  {}

  lemma OtherKeepsOutputs(w: World, st: State, action: Action)
    requires !action.InputAdd? && !action.OutputAdd?
    ensures Exec(w, st, action).state.outputs == st.outputs
  {
    if action.InputRename? {
      RenameKeepsOutputs(st, action.name, action.to);
    } else if action.InputResetName? {
      var k := InputNamed(st.inputs, action.name);
      if k < |st.inputs| {
        RenameKeepsOutputs(st, action.name, st.inputs[k].realName);
      }
    } else {
      PlainKeepsOutputs(w, st, action);
    }
  }

  lemma PlainKeepsOutputs(w: World, st: State, action: Action)
    requires PlainAction(action)
    ensures Exec(w, st, action).state.outputs == st.outputs
  {}

  // ----- the drain -----

  lemma FinishDeviceEffect(w: World, st: State, fd: int)
    ensures var k := InputAt(st.inputs, fd);
            var r := FinishDeviceRemoval(w, st, fd);
            && r.inputs == (if k < |st.inputs| then Erase(st.inputs, k) else st.inputs)
            && r.freeIds == (if w.frees && k < |st.inputs| then st.freeIds + [st.inputs[k].id] else st.freeIds)
            && r.outputs == (if k == |st.inputs| || st.inputs[k].persistent then st.outputs
                             else DeliverAll(w, st.clock, st.removeQueue, true, Remove(st.inputs[k].id), st.outputs))
  {}

  lemma ReleaseInputs(w: World, st: State, fd: int)
    requires fd in st.callbacks
    ensures var k := InputAt(st.inputs, fd);
            ReleaseOne(w, st, fd).inputs
            == if st.callbacks[fd].OnInput? && k < |st.inputs| then Erase(st.inputs, k) else st.inputs
    ensures var k := InputAt(st.inputs, fd);
            ReleaseOne(w, st, fd).freeIds
            == if st.callbacks[fd].OnInput? && k < |st.inputs| && w.frees then st.freeIds + [st.inputs[k].id]
               else st.freeIds
  {
    if st.callbacks[fd].OnInput? {
      FinishDeviceEffect(w, st, fd);
    } else {
      OtherInputs(w, st, fd, st.callbacks[fd]);
    }
  }

  lemma OtherInputs(w: World, st: State, fd: int, cb: Callback)
    requires !cb.OnInput?
    ensures OnRemove(w, st, fd, cb).inputs == st.inputs && OnRemove(w, st, fd, cb).freeIds == st.freeIds
  {
    if cb.OnOutput? {
      OutputGone(st, fd);
    }
  }

  lemma OutputGone(st: State, fd: int)
    ensures FinishOutputRemoval(st, fd).inputs == st.inputs && FinishOutputRemoval(st, fd).freeIds == st.freeIds
  {
    var st' := if st.current == fd then LostCurrentOutput(st) else st;
    assert st'.inputs == st.inputs && st'.freeIds == st.freeIds && st'.outputs == st.outputs;
  }

  // ----- callbacks -----

  lemma PollKeepsIds(w: World, st: State, fd: int, r: Revents)
    requires fd in st.callbacks
    ensures SameTables(st, PollOne(w, st, fd, r))
  {
    var cb := st.callbacks[fd];
    var st1 := if r.error then OnFailure(st, fd, cb) else st;
    var st2 := if r.hup then OnFailure(st1, fd, cb) else st1;
    assert SameTables(st, st2);
    ReadKeepsIds(w, st2, fd, cb);
  }

  ghost predicate SameTables(a: State, b: State) {
    b.inputs == a.inputs && b.freeIds == a.freeIds
  }

  lemma ReadKeepsIds(w: World, st: State, fd: int, cb: Callback)
    ensures SameTables(st, OnRead(w, st, fd, cb))
  {
    if cb.OnInput? && w.events(st.clock).Some? {
      RouteKeepsIds(w, st, cb.id, w.events(st.clock).value);
    } else {
      QuietReadKeepsIds(w, st, fd, cb);
    }
  }

  lemma RouteKeepsIds(w: World, st: State, id: u16, e: InputEvent)
    ensures SameTables(st, RouteEvent(w, st, id, e))
  {}

  lemma QuietReadKeepsIds(w: World, st: State, fd: int, cb: Callback)
    requires cb.OnInput? ==> w.events(st.clock).None?
    ensures SameTables(st, OnRead(w, st, fd, cb))
  {}
}
