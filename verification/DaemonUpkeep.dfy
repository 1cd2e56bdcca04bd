/** What the main loop looks after in every run: the order of the tables, what is polled, and outputs
    that cannot be written to. */
module DaemonUpkeep {
  import opened Bytes
  import opened Devices
  import opened Protocol
  import opened Tokenizer
  import opened Numbers
  import opened DaemonState
  import opened DaemonInvariant
  import opened DaemonEffects
  import opened DaemonCommands
  import opened DaemonEvents
  import opened DaemonEndToEnd
  import opened DaemonRuns

  // ----- the order of names -----

  /** A name stands before another: it is the beginning of the other, or smaller where they first differ. */
  ghost predicate Precedes(a: string, b: string) {
    exists n: nat :: n <= |a| && n < |b| && a[..n] == b[..n] && (n == |a| || a[n] < b[n])
  }

  lemma {:induction false} BeforeExact(a: string, b: string)
    ensures Before(a, b) <==> Precedes(a, b)
    decreases |a|
  {
    if a != "" && b != "" && a[0] == b[0] {
      BeforeExact(a[1..], b[1..]);
      PrecedesTail(a, b);
    } else if a == "" && b != "" {
      assert a[..0] == b[..0];
    } else if a != "" && b != "" {
      assert a[..0] == b[..0];
      forall n: nat | n > 0 && n <= |a| && n < |b|
        ensures a[..n] != b[..n]
      {
        assert a[..n][0] == a[0] && b[..n][0] == b[0];
      }
    }
  }

  lemma PrecedesTail(a: string, b: string)
    requires a != "" && b != "" && a[0] == b[0]
    ensures Precedes(a, b) <==> Precedes(a[1..], b[1..])
  {
    var s, t := a[1..], b[1..];
    if Precedes(a, b) {
      var n: nat :| n <= |a| && n < |b| && a[..n] == b[..n] && (n == |a| || a[n] < b[n]);
      assert n > 0;
      SharedTail(a, b, n);
      assert n - 1 <= |s| && n - 1 < |t| && s[..n - 1] == t[..n - 1] && (n - 1 == |s| || s[n - 1] < t[n - 1]);
    }
    if Precedes(s, t) {
      var n: nat :| n <= |s| && n < |t| && s[..n] == t[..n] && (n == |s| || s[n] < t[n]);
      SharedTail(a, b, n + 1);
      assert n + 1 <= |a| && n + 1 < |b| && a[..n + 1] == b[..n + 1] && (n + 1 == |a| || a[n + 1] < b[n + 1]);
    }
  }

  /** Two texts with the same first character share a beginning if what follows it does. */
  lemma SharedTail(a: string, b: string, n: nat)
    requires 0 < n <= |a| && n < |b| && a[0] == b[0]
    ensures a[..n] == b[..n] <==> a[1..][..n - 1] == b[1..][..n - 1]
  {
    assert a[..n] == [a[0]] + a[1..][..n - 1] && b[..n] == [b[0]] + b[1..][..n - 1];
    if a[..n] == b[..n] {
      assert a[..n][1..] == a[1..][..n - 1] && b[..n][1..] == b[1..][..n - 1];
    }
  }

  /** A strict total order. */
  lemma {:induction false} BeforeOrders(a: string, b: string)
    ensures !Before(a, a) && (a == b || Before(a, b) || Before(b, a)) && !(Before(a, b) && Before(b, a))
    decreases |a| + |b|
  {
    if a != "" && b != "" {
      BeforeOrders(a[1..], b[1..]);
      assert a == [a[0]] + a[1..] && b == [b[0]] + b[1..];
    } else if a != "" {
      BeforeOrders(a[1..], "");
    }
  }

  lemma {:induction false} BeforeChains(a: string, b: string, c: string)
    requires Before(a, b) && Before(b, c)
    ensures Before(a, c)
    decreases |a|
  {
    if a != "" && a[0] == b[0] == c[0] {
      BeforeChains(a[1..], b[1..], c[1..]);
    }
  }

  ghost predicate InOrder(names: seq<string>) {
    forall i, j :: 0 <= i < j < |names| ==> Before(names[i], names[j])
  }

  /** A new name is entered where the order stays. */
  lemma {:induction false} SlotExact(names: seq<string>, name: string)
    requires InOrder(names) && name !in names
    ensures var k := Slot(names, name);
            && (forall i :: 0 <= i < k ==> Before(names[i], name))
            && (forall i :: k <= i < |names| ==> Before(name, names[i]))
    decreases |names|
  {
    if names != [] {
      var rest := names[1..];
      assert forall i :: 0 < i < |names| ==> names[i] == rest[i - 1];
      if Before(name, names[0]) {
        forall i | 0 < i < |names|
          ensures Before(name, names[i])
        {
          BeforeChains(name, names[0], names[i]);
        }
      } else {
        BeforeOrders(name, names[0]);
        SlotExact(rest, name);
      }
    }
  }

  lemma InsertedInOrder(names: seq<string>, name: string)
    requires InOrder(names) && name !in names
    ensures InOrder(Insert(names, Slot(names, name), name))
  {
    SlotExact(names, name);
    var k := Slot(names, name);
    var r := Insert(names, k, name);
    assert forall i :: 0 <= i < |r| && i != k ==> r[i] == names[if i < k then i else i - 1];
  }

  lemma NamesErased(names: seq<string>, k: nat)
    requires InOrder(names) && k < |names|
    ensures InOrder(Erase(names, k))
  {
    var r := Erase(names, k);
    assert forall i :: 0 <= i < |r| ==> r[i] == names[if i < k then i else i + 1];
  }

  function OutputNames(outputs: seq<Output>): (r: seq<string>)
    ensures |r| == |outputs| && forall k :: 0 <= k < |outputs| ==> r[k] == outputs[k].name
  {
    seq(|outputs|, k requires 0 <= k < |outputs| => outputs[k].name)
  }

  // ----- what is looked after -----

  /** Every registered descriptor but those of outputs is polled, or about to be, or waits in a queue. */
  ghost predicate Watched(st: State, queue: seq<int>) {
    forall fd :: fd in st.callbacks && !st.callbacks[fd].OnOutput? ==>
      fd in st.polled || fd in st.addQueue || fd in queue
  }

  /** Nothing is polled twice. */
  ghost predicate Once(st: State) {
    NoRepeats(st.polled + st.addQueue)
  }

  /** Outputs that could not be written to wait for removal. */
  ghost predicate Tended(outputs: seq<Output>, queue: seq<int>) {
    forall k :: 0 <= k < |outputs| && outputs[k].broken ==> outputs[k].fd in queue
  }

  ghost predicate Listed(st: State) {
    InOrder(Names(st.inputs)) && InOrder(OutputNames(st.outputs))
  }

  ghost predicate Upkept(st: State) {
    Listed(st) && Watched(st, []) && Once(st) && Tended(st.outputs, st.removeQueue)
  }

  /** Nothing but what waits for removal changes, and that only grows. */
  ghost predicate OnlyQueues(a: State, b: State) {
    && b.callbacks == a.callbacks && b.polled == a.polled && b.addQueue == a.addQueue && b.outputs == a.outputs
    && a.removeQueue <= b.removeQueue && Names(b.inputs) == Names(a.inputs)
  }

  lemma QueuesKeep(a: State, b: State)
    requires Upkept(a) && OnlyQueues(a, b)
    ensures Upkept(b)
  {
    assert forall fd :: fd in a.removeQueue ==> fd in b.removeQueue;
  }

  // ----- commands -----

  lemma FreshOnce(st: State, fd: int)
    requires Inv(st) && Once(st) && fd !in st.callbacks
    ensures NoRepeats(st.polled + (st.addQueue + [fd]))
  {
    var fds := st.polled + st.addQueue;
    assert st.polled + (st.addQueue + [fd]) == fds + [fd];
    assert forall x :: x in fds ==> x in st.polled || x in st.addQueue;
    assert forall i :: 0 <= i < |fds| ==> fds[i] in fds;
  }

  lemma AddedInputListed(w: World, st: State, name: string)
    requires Listed(st) && Adds(w, st, name)
    ensures Listed(AddInput(w, st, name).state)
  {
    AddInputEffect(w, st, name);
    var r, x := AddInput(w, st, name).state, NewInput(w, st, name);
    InputInOrder(st.inputs, x);
    assert OutputNames(r.outputs) == OutputNames(st.outputs);
  }

  lemma InputInOrder(inputs: seq<Input>, x: Input)
    requires InOrder(Names(inputs)) && forall k :: 0 <= k < |inputs| ==> inputs[k].name != x.name
    ensures InOrder(Names(Insert(inputs, InputSlot(inputs, x.name), x)))
  {
    var k := InputSlot(inputs, x.name);
    InsertedInOrder(Names(inputs), x.name);
    assert Names(Insert(inputs, k, x)) == Insert(Names(inputs), k, x.name);
  }

  lemma ToldTended(w: World, clock: nat, outputs: seq<Output>, queue: seq<int>, m: Message)
    requires Tended(outputs, queue) && forall k :: 0 <= k < |outputs| ==> outputs[k].fd >= 0
    ensures Tended(DeliverAll(w, clock, queue, false, m, outputs),
                   DropFailed(w, clock, queue, false, outputs, |outputs|))
  {
    DropFailedExact(w, clock, queue, outputs, |outputs|);
    assert outputs[..|outputs|] == outputs;
    var told := DeliverAll(w, clock, queue, false, m, outputs);
    var after := DropFailed(w, clock, queue, false, outputs, |outputs|);
    forall k | 0 <= k < |told| && told[k].broken
      ensures told[k].fd in after
    {
      if !outputs[k].broken {
        assert Refuses(w, clock, outputs, k) && RefusedBy(w, clock, outputs, outputs[k].fd);
      }
    }
  }

  lemma OutputsOpen(st: State)
    requires Tables(st)
    ensures forall k :: 0 <= k < |st.outputs| ==> st.outputs[k].fd >= 0
  {
    forall k | 0 <= k < |st.outputs|
      ensures st.outputs[k].fd >= 0
    {
      OutputOpen(st, k);
    }
  }

  lemma AddInputUpkept(w: World, st: State, name: string)
    requires Inv(st) && Upkept(st)
    ensures Upkept(AddInput(w, st, name).state)
  {
    if Adds(w, st, name) {
      var x := NewInput(w, st, name);
      AddedInputListed(w, st, name);
      AddInputRest(w, st, name);
      AddInputEffect(w, st, name);
      OutputsOpen(st);
      ToldTended(w, st.clock + 1, st.outputs, st.removeQueue, Add(x.id, x.device));
      FreshOnce(st, x.fd);
    } else {
      NotAddedQueues(w, st, name);
      QueuesKeep(st, AddInput(w, st, name).state);
    }
  }

  lemma NotAddedQueues(w: World, st: State, name: string)
    requires !Adds(w, st, name)
    ensures OnlyQueues(st, AddInput(w, st, name).state)
  {}

  lemma AddedOutputListed(w: World, st: State, name: string, resume: bool)
    requires Listed(st) && Connects(w, st, name)
    ensures Listed(AddOutput(w, st, name, resume).state)
  {
    AddOutputEffect(w, st, name, resume);
    var o := ToldName(w, st, name, resume);
    NewName(st.outputs, name);
    OutputInOrder(st.outputs, o);
  }

  lemma NewName(outputs: seq<Output>, name: string)
    requires OutputNamed(outputs, name) == |outputs|
    ensures forall k :: 0 <= k < |outputs| ==> outputs[k].name != name
  {}

  lemma ToldName(w: World, st: State, name: string, resume: bool) returns (o: Output)
    requires Connects(w, st, name)
    ensures o == NewlyTold(w, st, name, resume) && o.name == name
  {
    AnnouncedSame(w, st.clock + 2, NewOutput(st, name, Opens(w, st).fd, resume), st.inputs);
    o := NewlyTold(w, st, name, resume);
  }

  lemma OutputInOrder(outputs: seq<Output>, o: Output)
    requires InOrder(OutputNames(outputs)) && forall k :: 0 <= k < |outputs| ==> outputs[k].name != o.name
    ensures InOrder(OutputNames(Insert(outputs, OutputSlot(outputs, o.name), o)))
  {
    var k := OutputSlot(outputs, o.name);
    InsertedInOrder(OutputNames(outputs), o.name);
    assert OutputNames(Insert(outputs, k, o)) == Insert(OutputNames(outputs), k, o.name);
  }

  lemma InsertedTended(outputs: seq<Output>, k: nat, o: Output, queue: seq<int>, after: seq<int>)
    requires k <= |outputs| && Tended(outputs, queue) && queue <= after && (o.broken ==> o.fd in after)
    ensures Tended(Insert(outputs, k, o), after)
  {
    var r := Insert(outputs, k, o);
    assert forall j :: 0 <= j < |r| && j != k ==> r[j] == outputs[if j < k then j else j - 1];
    assert forall fd :: fd in queue ==> fd in after;
  }

  lemma AddOutputUpkept(w: World, st: State, name: string, resume: bool)
    requires Inv(st) && Upkept(st)
    ensures Upkept(AddOutput(w, st, name, resume).state)
  {
    if Connects(w, st, name) {
      AddedOutputListed(w, st, name, resume);
      ConnectRest(w, st, name, resume);
      AddOutputEffect(w, st, name, resume);
      InsertedTended(st.outputs, OutputSlot(st.outputs, name), NewlyTold(w, st, name, resume), st.removeQueue,
                     AddOutput(w, st, name, resume).state.removeQueue);
    } else {
      NotConnectedRest(w, st, name, resume);
      QueuesKeep(st, AddOutput(w, st, name, resume).state);
    }
  }

  lemma NotConnectedRest(w: World, st: State, name: string, resume: bool)
    requires !Connects(w, st, name)
    ensures AddOutput(w, st, name, resume).state == st.(clock := AddOutput(w, st, name, resume).state.clock)
  {}

  lemma OtherOnlyQueues(w: World, st: State, action: Action)
    requires !action.InputAdd? && !action.OutputAdd?
    ensures OnlyQueues(st, Exec(w, st, action).state)
  {
    OtherKeepsOutputs(w, st, action);
    OtherKeepsIds(w, st, action);
    OtherKeeps(w, st, action);
    OtherKeepsPolling(w, st, action);
  }

  lemma OtherKeepsPolling(w: World, st: State, action: Action)
    requires !action.InputAdd? && !action.OutputAdd?
    ensures SamePolling(st, Exec(w, st, action).state)
  {
    if OnInputs(action) {
      InputsKeepPolling(w, st, action);
    } else if OnOutputs(action) {
      OutputsKeepPolling(w, st, action);
    } else {
      RestKeepsPolling(w, st, action);
    }
  }

  ghost predicate SamePolling(a: State, b: State) {
    b.callbacks == a.callbacks && b.polled == a.polled && b.addQueue == a.addQueue
  }

  lemma RenameKeepsPolling(st: State, name: string, to: seq<byte>)
    ensures SamePolling(st, RenameInput(st, name, to).state)
  {}

  lemma InputsKeepPolling(w: World, st: State, action: Action)
    requires OnInputs(action) && !action.InputAdd?
    ensures SamePolling(st, Exec(w, st, action).state)
  {
    match action
    case InputRename(name, to) => RenameKeepsPolling(st, name, to);
    case InputResetName(name) =>
      var k := InputNamed(st.inputs, name);
      if k < |st.inputs| {
        RenameKeepsPolling(st, name, st.inputs[k].realName);
      }
    case InputRemove(name) => assert SamePolling(st, RemoveInput(st, name).state);
    case InputPersist(name, on) => assert SamePolling(st, SetPersistent(st, name, on).state);
  }

  lemma OutputsKeepPolling(w: World, st: State, action: Action)
    requires OnOutputs(action) && !action.OutputAdd?
    ensures SamePolling(st, Exec(w, st, action).state)
  {}

  lemma HotkeyKeepsPolling(st: State, name: string, spec: Option<HotkeySpec>, text: string)
    ensures SamePolling(st, AddHotkey(st, name, spec, text).state)
    ensures SamePolling(st, RemoveHotkey(st, name, spec).state)
  {}

  lemma RestKeepsPolling(w: World, st: State, action: Action)
    requires !OnInputs(action) && !OnOutputs(action)
    ensures SamePolling(st, Exec(w, st, action).state)
  {
    match action
    case HotkeyAdd(name, spec, text) => HotkeyKeepsPolling(st, name, spec, text);
    case HotkeyRemove(name, spec) => HotkeyKeepsPolling(st, name, spec, "");
    case _ => SwitchKeepsPolling(w, st, action);
  }

  lemma SwitchKeepsPolling(w: World, st: State, action: Action)
    requires !OnInputs(action) && !OnOutputs(action) && !action.HotkeyAdd? && !action.HotkeyRemove?
    ensures SamePolling(st, Exec(w, st, action).state)
  {}

  lemma ExecUpkept(w: World, st: State, action: Action)
    requires Inv(st) && Upkept(st)
    ensures Upkept(Exec(w, st, action).state)
  {
    if action.InputAdd? {
      AddInputUpkept(w, st, action.name);
    } else if action.OutputAdd? {
      AddOutputUpkept(w, st, action.name, action.resume);
    } else {
      OtherOnlyQueues(w, st, action);
      QueuesKeep(st, Exec(w, st, action).state);
    }
  }

  lemma ReplyUpkept(w: World, st: State, client: int)
    requires Upkept(st)
    ensures Upkept(Reply(w, st, client))
  {
    ReplyOnlyQueues(w, st, client);
    QueuesKeep(st, Reply(w, st, client));
  }

  lemma ReplyOnlyQueues(w: World, st: State, client: int)
    ensures OnlyQueues(st, Reply(w, st, client))
  {}

  // ----- the drain -----

  /** Half way through: what waits and is still registered is in the rest of the queue. */
  ghost predicate Emptying(st: State, queue: seq<int>) {
    && Listed(st) && Watched(st, queue) && st.addQueue == [] && NoRepeats(st.polled) && Tended(st.outputs, queue)
    && forall fd :: fd in st.removeQueue && fd in st.callbacks ==> fd in queue
  }

  lemma {:induction false} WithoutOnce(fds: seq<int>, gone: seq<int>)
    requires NoRepeats(fds)
    ensures NoRepeats(Without(fds, gone))
    decreases |fds|
  {
    if fds != [] {
      var rest := fds[1..];
      assert forall i :: 0 < i < |fds| ==> fds[i] == rest[i - 1];
      WithoutOnce(rest, gone);
      var later := Without(rest, gone);
      assert forall i :: 0 <= i < |later| ==> later[i] in later && later[i] in rest;
    }
  }

  lemma DrainBegins(st: State)
    requires Upkept(st)
    ensures var st' := FilterPolled(MergeAdds(st)); Emptying(st', st'.removeQueue)
  {
    WithoutOnce(st.polled + st.addQueue, st.removeQueue);
  }

  lemma ReleasedListed(w: World, st: State, fd: int)
    requires Listed(st) && fd in st.callbacks && Tables(st)
    ensures Listed(ReleaseOne(w, st, fd))
  {
    if st.callbacks[fd].OnInput? {
      InputReleasedListed(w, st, fd);
    } else if st.callbacks[fd].OnOutput? {
      OutputReleasedListed(w, st, fd);
    } else {
      ReleaseInputs(w, st, fd);
      OtherOutputs(w, st, fd);
    }
  }

  lemma InputReleasedListed(w: World, st: State, fd: int)
    requires Listed(st) && fd in st.callbacks && Tables(st) && st.callbacks[fd].OnInput?
    ensures Listed(ReleaseOne(w, st, fd))
  {
    KindOfInput(st, fd);
    FinishedListed(w, st, fd);
    ReleasedTables(w, st, fd);
  }

  lemma ReleasedTables(w: World, st: State, fd: int)
    requires fd in st.callbacks && st.callbacks[fd].OnInput?
    ensures var r, f := ReleaseOne(w, st, fd), FinishDeviceRemoval(w, st, fd);
            r.inputs == f.inputs && r.outputs == f.outputs
  {}

  lemma FinishedListed(w: World, st: State, fd: int)
    requires Listed(st) && InputAt(st.inputs, fd) < |st.inputs|
    ensures Listed(FinishDeviceRemoval(w, st, fd))
  {
    var k := InputAt(st.inputs, fd);
    FinishDeviceEffect(w, st, fd);
    InputErasedInOrder(st.inputs, k);
    ToldNames(w, st.clock, st.removeQueue, true, Remove(st.inputs[k].id), st.outputs);
  }

  lemma InputErasedInOrder(inputs: seq<Input>, k: nat)
    requires InOrder(Names(inputs)) && k < |inputs|
    ensures InOrder(Names(Erase(inputs, k)))
  {
    NamesErased(Names(inputs), k);
    assert Names(Erase(inputs, k)) == Erase(Names(inputs), k);
  }

  lemma ToldNames(w: World, clock: nat, queue: seq<int>, draining: bool, m: Message, outputs: seq<Output>)
    ensures OutputNames(DeliverAll(w, clock, queue, draining, m, outputs)) == OutputNames(outputs)
  {}

  lemma OutputReleasedListed(w: World, st: State, fd: int)
    requires Listed(st) && fd in st.callbacks && Tables(st) && st.callbacks[fd].OnOutput?
    ensures Listed(ReleaseOne(w, st, fd))
  {
    var r, k := FinishOutputRemoval(st, fd), OutputAt(st.outputs, fd);
    KindOfOutput(st, fd);
    FinishOutputFields(w, st, fd);
    NamesErased(OutputNames(st.outputs), k);
    assert OutputNames(r.outputs) == Erase(OutputNames(st.outputs), k);
  }

  lemma OtherOutputs(w: World, st: State, fd: int)
    requires fd in st.callbacks && !st.callbacks[fd].OnInput? && !st.callbacks[fd].OnOutput?
    ensures ReleaseOne(w, st, fd).outputs == st.outputs
  {}

  /** An output that is broken after a release was so before, or is in the queue. */
  lemma ReleasedTended(w: World, st: State, fd: int, queue: seq<int>)
    requires Tended(st.outputs, queue) && fd in st.callbacks && Tables(st)
    requires forall x :: x in st.removeQueue && x in st.callbacks ==> x in queue
    ensures Tended(ReleaseOne(w, st, fd).outputs, queue)
  {
    if st.callbacks[fd].OnInput? {
      KindOfInput(st, fd);
      FinishDeviceEffect(w, st, fd);
      forall k | 0 <= k < |st.outputs|
        ensures st.outputs[k].fd in st.callbacks
      {
        OutputOpen(st, k);
      }
      DrainedTended(w, st.clock, st.outputs, st.removeQueue, queue, Remove(st.inputs[InputAt(st.inputs, fd)].id));
    } else if st.callbacks[fd].OnOutput? {
      KindOfOutput(st, fd);
      FinishOutputFields(w, st, fd);
      ErasedTended(st.outputs, OutputAt(st.outputs, fd), queue);
    } else {
      OtherOutputs(w, st, fd);
    }
  }

  lemma DrainedTended(w: World, clock: nat, outputs: seq<Output>, waiting: seq<int>, queue: seq<int>, m: Message)
    requires Tended(outputs, queue)
    requires forall k :: 0 <= k < |outputs| && outputs[k].fd in waiting ==> outputs[k].fd in queue
    ensures Tended(DeliverAll(w, clock, waiting, true, m, outputs), queue)
  {}

  lemma ErasedTended(outputs: seq<Output>, k: nat, queue: seq<int>)
    requires k < |outputs| && Tended(outputs, queue)
    ensures Tended(Erase(outputs, k), queue)
  {
    var r := Erase(outputs, k);
    assert forall j :: 0 <= j < |r| ==> r[j] == outputs[if j < k then j else j + 1];
  }

  /** What is released is in no table, so the rest of the queue is enough. */
  lemma TendedRest(st: State, queue: seq<int>)
    requires Tables(st) && queue != [] && queue[0] !in st.callbacks && Tended(st.outputs, queue)
    ensures Tended(st.outputs, queue[1..])
  {
    forall k | 0 <= k < |st.outputs| && st.outputs[k].broken
      ensures st.outputs[k].fd in queue[1..]
    {
      OutputOpen(st, k);
      assert queue == [queue[0]] + queue[1..];
    }
  }

  lemma ReleaseUpkept(w: World, st: State, queue: seq<int>)
    requires Draining(st, queue) && Emptying(st, queue) && queue != []
    ensures Emptying(ReleaseOne(w, st, queue[0]), queue[1..])
  {
    var r := Released(w, st, queue);
    ReleasedListed(w, st, queue[0]);
    ReleasedTended(w, st, queue[0], queue);
    TendedRest(r, queue);
    EmptyingRest(st, r, queue);
  }

  lemma Released(w: World, st: State, queue: seq<int>) returns (r: State)
    requires Draining(st, queue) && queue != []
    ensures r == ReleaseOne(w, st, queue[0]) && Tables(r) && queue[0] in st.callbacks
    ensures r.callbacks == st.callbacks - {queue[0]} && r.polled == st.polled
    ensures r.addQueue == st.addQueue && r.removeQueue == st.removeQueue
  {
    assert queue[0] in queue;
    ReleaseOneInv(w, st, queue);
    ReleaseOneFrame(w, st, queue[0]);
    r := ReleaseOne(w, st, queue[0]);
  }

  lemma EmptyingRest(st: State, r: State, queue: seq<int>)
    requires Emptying(st, queue) && queue != [] && Listed(r) && Tended(r.outputs, queue[1..])
    requires r.callbacks == st.callbacks - {queue[0]} && r.polled == st.polled
    requires r.addQueue == st.addQueue && r.removeQueue == st.removeQueue
    ensures Emptying(r, queue[1..])
  {
    assert queue == [queue[0]] + queue[1..];
  }

  lemma {:induction false} DrainUpkept(w: World, st: State, queue: seq<int>)
    requires Draining(st, queue) && Emptying(st, queue)
    ensures Emptying(ReleaseFrom(w, st, queue), [])
    decreases |queue|
  {
    if queue != [] {
      ReleaseUpkept(w, st, queue);
      ReleaseOneInv(w, st, queue);
      DrainUpkept(w, ReleaseOne(w, st, queue[0]), queue[1..]);
    }
  }

  // ----- callbacks -----

  lemma FailureOnlyQueues(st: State, fd: int, cb: Callback)
    ensures OnlyQueues(st, OnFailure(st, fd, cb))
  {}

  lemma NewClientUpkept(w: World, st: State)
    requires Inv(st) && Upkept(st)
    ensures Upkept(NewCommandClient(w, st))
  {
    var opening := Opens(w, st);
    if opening.Opened? {
      FreshOnce(st, opening.fd);
    } else {
      QueuesKeep(st, NewCommandClient(w, st));
    }
  }

  lemma WrittenTended(outputs: seq<Output>, queue: seq<int>, fd: int, id: u16, e: InputEvent, ok: bool,
                      written: seq<Output>, after: seq<int>)
    requires Tended(outputs, queue) && WrittenTo(outputs, fd, id, e, ok, written)
    requires queue <= after && (!ok ==> fd in after)
    ensures Tended(written, after) && OutputNames(written) == OutputNames(outputs)
  {
    assert forall x :: x in queue ==> x in after;
  }

  /** What routing an event leaves alone. */
  ghost predicate RoutedQuietly(a: State, b: State) {
    b.inputs == a.inputs && b.callbacks == a.callbacks && b.polled == a.polled && b.addQueue == a.addQueue
  }

  lemma RouteQuietly(w: World, st: State, id: u16, e: InputEvent)
    ensures RoutedQuietly(st, RouteEvent(w, st, id, e))
  {}

  lemma RouteUpkept(w: World, st: State, id: u16, e: InputEvent)
    requires Inv(st) && Upkept(st)
    ensures Upkept(RouteEvent(w, st, id, e))
  {
    var r := RouteEvent(w, st, id, e);
    RouteQuietly(w, st, id, e);
    if e.kind < 0x20 && KeyOf(id, e) in st.hotkeys {
      HotkeyFires(w, st, id, e);
      QueuesKeep(st, r);
    } else {
      OtherEvent(w, st, id, e);
      if st.current == -1 || !st.writing {
        QueuesKeep(st, r);
      } else {
        WrittenTended(st.outputs, st.removeQueue, st.current, id, e, w.writes(st.clock, st.current), r.outputs,
                      r.removeQueue);
      }
    }
  }

  lemma ReadUpkept(w: World, st: State, fd: int, cb: Callback)
    requires Inv(st) && Upkept(st)
    ensures Upkept(OnRead(w, st, fd, cb))
  {
    if cb.OnServer? {
      NewClientUpkept(w, st);
    } else if cb.OnInput? && w.events(st.clock).Some? {
      RouteUpkept(w, st, cb.id, w.events(st.clock).value);
    } else {
      ReadOnlyQueues(w, st, fd, cb);
      QueuesKeep(st, OnRead(w, st, fd, cb));
    }
  }

  lemma ReadOnlyQueues(w: World, st: State, fd: int, cb: Callback)
    requires !cb.OnServer? && (cb.OnInput? ==> w.events(st.clock).None?)
    ensures OnlyQueues(st, OnRead(w, st, fd, cb))
  {}

  lemma PollUpkept(w: World, st: State, fd: int, r: Revents)
    requires Inv(st) && Upkept(st) && fd in st.callbacks
    ensures Upkept(PollOne(w, st, fd, r))
  {
    var cb := st.callbacks[fd];
    var st1 := FailedUpkept(st, fd, cb, r.error);
    var st2 := FailedUpkept(st1, fd, cb, r.hup);
    ReadUpkept(w, st2, fd, cb);
  }

  lemma FailedUpkept(st: State, fd: int, cb: Callback, failed: bool) returns (r: State)
    requires Inv(st) && Upkept(st) && fd in st.callbacks && st.callbacks[fd] == cb
    ensures r == (if failed then OnFailure(st, fd, cb) else st) && Inv(r) && Upkept(r) && r.callbacks == st.callbacks
  {
    r := if failed then OnFailure(st, fd, cb) else st;
    OnFailureInv(st, fd, cb);
    FailureOnlyQueues(st, fd, cb);
    if failed {
      QueuesKeep(st, r);
    }
  }

  // ----- turns and runs -----

  lemma {:induction false} RunAllUpkept(w: World, st: State, client: int, lists: seq<seq<string>>)
    requires Inv(st) && Upkept(st) && (client == -1 || client in st.clients)
    ensures Upkept(RunAll(w, st, client, lists))
    decreases |lists|
  {
    if lists != [] {
      var action := Interpret(lists[0]);
      var done := Exec(w, st, action);
      ExecInv(w, st, action);
      ExecClients(w, st, action);
      ExecUpkept(w, st, action);
      ReplyUpkept(w, done.state, client);
      ReplyInv(w, done.state, client);
      if done.ok {
        RunAllUpkept(w, Reply(w, done.state, client), client, lists[1..]);
      }
    }
  }

  lemma {:induction false} RunQueueUpkept(w: World, st: State, queue: seq<Command>)
    requires Inv(st) && Upkept(st)
    requires forall k :: 0 <= k < |queue| ==> queue[k].client == -1 || queue[k].client in st.clients
    ensures Upkept(RunQueue(w, st, queue))
    decreases |queue|
  {
    if queue != [] {
      var lists := Dispatches(queue[0].text);
      RunAllInv(w, st, queue[0].client, lists);
      RunAllUpkept(w, st, queue[0].client, lists);
      RunQueueUpkept(w, RunAll(w, st, queue[0].client, lists), queue[1..]);
    }
  }

  /** The state in which a turn waits for its descriptors. */
  function Waiting(w: World, st: State): State {
    ProcessRemoveQueue(w, BeforeDrain(w, st))
  }

  /** Exactly the registered descriptors that are no outputs are polled, each once, no output is broken,
      nothing waits for anything, and the tables are in the order of the names. */
  ghost predicate Settled(st: State) {
    && (forall fd :: fd in st.polled <==> fd in st.callbacks && !st.callbacks[fd].OnOutput?)
    && NoRepeats(st.polled) && st.addQueue == [] && st.removeQueue == [] && st.commands == []
    && (forall k :: 0 <= k < |st.outputs| ==> !st.outputs[k].broken)
    && (forall i, j :: 0 <= i < j < |st.inputs| ==> Precedes(st.inputs[i].name, st.inputs[j].name))
    && (forall i, j :: 0 <= i < j < |st.outputs| ==> Precedes(st.outputs[i].name, st.outputs[j].name))
  }

  lemma BeforeDrainUpkept(w: World, st: State) returns (before: State)
    requires Inv(st) && Upkept(st)
    ensures before == BeforeDrain(w, st)
    ensures Draining(before, before.removeQueue) && Emptying(before, before.removeQueue)
  {
    RunQueueUpkept(w, st, st.commands);
    ProcessCommandsInv(w, st);
    MergeFilterInv(ProcessCommands(w, st));
    DrainBegins(ProcessCommands(w, st));
    before := BeforeDrain(w, st);
  }

  lemma WaitingEmptied(w: World, st: State) returns (r: State)
    requires Inv(st) && Upkept(st)
    ensures r == Waiting(w, st) && Inv(r) && Emptying(r, []) && r.removeQueue == [] && r.commands == []
  {
    var before := BeforeDrainUpkept(w, st);
    DrainUpkept(w, before, before.removeQueue);
    ProcessCommandsInv(w, st);
    DrainExact(w, ProcessCommands(w, st));
    r := Waiting(w, st);
  }

  lemma ListedPrecedes(st: State)
    requires Listed(st)
    ensures forall i, j :: 0 <= i < j < |st.inputs| ==> Precedes(st.inputs[i].name, st.inputs[j].name)
    ensures forall i, j :: 0 <= i < j < |st.outputs| ==> Precedes(st.outputs[i].name, st.outputs[j].name)
  {
    forall i, j | 0 <= i < j < |st.inputs|
      ensures Precedes(st.inputs[i].name, st.inputs[j].name)
    {
      BeforeExact(st.inputs[i].name, st.inputs[j].name);
      assert Before(Names(st.inputs)[i], Names(st.inputs)[j]);
    }
    forall i, j | 0 <= i < j < |st.outputs|
      ensures Precedes(st.outputs[i].name, st.outputs[j].name)
    {
      BeforeExact(st.outputs[i].name, st.outputs[j].name);
      assert Before(OutputNames(st.outputs)[i], OutputNames(st.outputs)[j]);
    }
  }

  lemma {:induction false} WithoutParts(a: seq<int>, b: seq<int>, gone: seq<int>)
    ensures Without(a + b, gone) == Without(a, gone) + Without(b, gone)
    decreases |a|
  {
    if a == [] {
      assert a + b == b;
    } else {
      assert (a + b)[1..] == a[1..] + b;
      WithoutParts(a[1..], b, gone);
      Regroup(if a[0] in gone then [] else [a[0]], Without(a[1..], gone), Without(b, gone), []);
    }
  }

  /** Descriptors are polled in the order in which they came; those that wait for removal are left out. */
  lemma PolledInOrder(w: World, st: State)
    requires Inv(st)
    ensures var ran := ProcessCommands(w, st);
            Waiting(w, st).polled == Without(ran.polled, ran.removeQueue) + Without(ran.addQueue, ran.removeQueue)
    ensures forall fd, gone :: Without([fd], gone) == if fd in gone then [] else [fd]
  {
    var ran := ProcessCommands(w, st);
    ProcessCommandsInv(w, st);
    MergeFilterInv(ran);
    ReleaseFromExact(w, BeforeDrain(w, st), ran.removeQueue);
    WithoutParts(ran.polled, ran.addQueue, ran.removeQueue);
    forall fd, gone
      ensures Without([fd], gone) == if fd in gone then [] else [fd]
    {
      assert [fd][1..] == [];
    }
  }

  lemma WaitingUpkept(w: World, st: State)
    requires Inv(st) && Upkept(st)
    ensures Settled(Waiting(w, st)) && Upkept(Waiting(w, st)) && Inv(Waiting(w, st))
  {
    var r := WaitingEmptied(w, st);
    ListedPrecedes(r);
    assert r.polled + r.addQueue == r.polled;
  }

  lemma {:induction false} PollsUpkept(w: World, st: State, at: nat, fds: seq<int>)
    requires Inv(st) && Upkept(st) && forall fd :: fd in fds ==> fd in st.callbacks
    ensures Upkept(PollFrom(w, st, at, fds))
    decreases |fds|
  {
    if fds != [] && !st.quit {
      assert fds[0] in fds;
      PollOneInv(w, st, fds[0], w.revents(at, fds[0]));
      PollUpkept(w, st, fds[0], w.revents(at, fds[0]));
      PollsUpkept(w, PollOne(w, st, fds[0], w.revents(at, fds[0])), at, fds[1..]);
    }
  }

  lemma TurnUpkept(w: World, st: State)
    requires Inv(st) && Upkept(st)
    ensures Upkept(Turn(w, st))
  {
    WaitingUpkept(w, st);
    var r := Waiting(w, st);
    if !r.quit {
      UnrelatedInv(r, Tick(r));
      QueuesKeep(r, Tick(r));
      PollsUpkept(w, Tick(r), r.clock, r.polled);
    }
  }

  lemma TurnKeepsUpkept(w: World, st: State)
    ensures Inv(st) && Upkept(st) ==> Inv(Turn(w, st)) && Upkept(Turn(w, st))
  {
    if Inv(st) && Upkept(st) {
      TurnInv(w, st);
      TurnUpkept(w, st);
    }
  }

  lemma NextRunUpkept(w: World, st: State, n: nat)
    requires n > 0
    ensures Inv(Run(w, st, n - 1)) && Upkept(Run(w, st, n - 1)) ==> Inv(Run(w, st, n)) && Upkept(Run(w, st, n))
  {
    TurnKeepsUpkept(w, Run(w, st, n - 1));
  }

  lemma RunUpkept(w: World, st: State, n: nat)
    requires Inv(st) && Upkept(st)
    ensures Inv(Run(w, st, n)) && Upkept(Run(w, st, n))
  {
    var kept := (m: nat) => Inv(Run(w, st, m)) && Upkept(Run(w, st, m));
    forall m: nat | 0 < m <= n
      ensures Climbs(kept, m)
    {
      if kept(m - 1) {
        NextRunUpkept(w, st, m);
      }
    }
    Climb(kept, 0, n);
  }

  /** The daemon starts with nothing but its server and the lines it was given, and writing off. */
  lemma StartsEmpty(server: int, lines: seq<string>)
    ensures var st := Initial(server, lines);
            && st.callbacks == map[server := OnServer] && st.polled == [server] && st.addQueue == st.removeQueue == []
            && st.inputs == [] && st.outputs == [] && st.clients == {} && st.hotkeys == map[] && st.freeIds == []
            && st.current == -1 && !st.writing && !st.quit && |st.commands| == |lines|
            && forall k :: 0 <= k < |lines| ==> st.commands[k] == Command(-1, lines[k])
  {}

  /** Whenever the daemon waits, in any run against any world. */
  lemma EveryTurnSettles(w: World, server: int, lines: seq<string>, n: nat)
    requires server >= 0
    ensures Settled(Waiting(w, Run(w, Initial(server, lines), n)))
  {
    InitialInv(server, lines);
    RunUpkept(w, Initial(server, lines), n);
    WaitingUpkept(w, Run(w, Initial(server, lines), n));
  }
}
