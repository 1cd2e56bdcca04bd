/** The code as written hands out ids twice: when, and a run that shows it. */
module DaemonCollision {
  import opened Bytes
  import opened Devices
  import opened AddDevice
  import opened Protocol
  import opened Receiver
  import opened Tokenizer
  import opened DaemonState
  import opened DaemonInvariant
  import opened DaemonSync
  import opened DaemonEffects
  import opened DaemonEndToEnd

  // ----- in general -----

  /** The id after those counted is in use already. */
  predicate Stale(inputs: seq<Input>, free: seq<u16>) {
    var top := |inputs| + |free|;
    top <= 0xffff && (top in Live(inputs) || top in free)
  }

  lemma StillLive(inputs: seq<Input>, k: nat, id: u16)
    requires k < |inputs| && Unique(Ids(inputs)) && id in Erase(Ids(inputs), k)
    ensures id in Live(Erase(inputs, k))
  {
    ErasedApart(inputs, k);
    LiveIds(Erase(inputs, k), id);
  }

  lemma ErasedStale(inputs: seq<Input>, free: seq<u16>, k: nat)
    requires k < |inputs| && IdsOk(Ids(inputs), free) && Ids(inputs)[k] != |inputs| + |free| - 1
    ensures Stale(Erase(inputs, k), free)
  {
    var top: u16 := |inputs| + |free| - 1;
    TopStays(Ids(inputs), free, k, top);
    if top !in free {
      StillLive(inputs, k, top);
    }
  }

  /** Releasing an input whose id is neither given back nor the greatest leaves the tables stale. */
  lemma RemovalLeavesStale(w: World, st: State, fd: int)
    requires Tables(st) && IdsOk(Ids(st.inputs), st.freeIds) && fd in st.callbacks && !OrderlyRelease(w, st, fd)
    ensures var r := ReleaseOne(w, st, fd); Stale(r.inputs, r.freeIds)
  {
    var k := InputAt(st.inputs, fd);
    assert k < |st.inputs| && !w.frees;
    ReleaseInputs(w, st, fd);
    var inputs, free := ReleaseOne(w, st, fd).inputs, ReleaseOne(w, st, fd).freeIds;
    ErasedStale(st.inputs, st.freeIds, k);
    assert inputs == Erase(st.inputs, k) && free == st.freeIds;
  }

  /** The state after adding inputs one after another. */
  function AddAll(w: World, st: State, names: seq<string>): State
    decreases |names|
  {
    if names == [] then st else AddAll(w, AddInput(w, st, names[0]).state, names[1..])
  }

  ghost predicate AllAdd(w: World, st: State, names: seq<string>)
    decreases |names|
  {
    names == [] || (Adds(w, st, names[0]) && AllAdd(w, AddInput(w, st, names[0]).state, names[1..]))
  }

  lemma TakenLast(free: seq<u16>, x: u16)
    requires free != []
    ensures x in free <==> x in free[..|free| - 1] || x == free[|free| - 1]
  {
    assert free == free[..|free| - 1] + [free[|free| - 1]];
  }

  lemma InsertedStale(inputs: seq<Input>, free: seq<u16>, k: nat, x: Input)
    requires Stale(inputs, free) && free != [] && k <= |inputs| && x.id == free[|free| - 1]
    ensures Stale(Insert(inputs, k, x), free[..|free| - 1])
  {
    InsertedLive(inputs, k, x);
    TakenLast(free, |inputs| + |free|);
  }

  lemma AddKeepsStale(w: World, st: State, name: string)
    requires Stale(st.inputs, st.freeIds) && st.freeIds != [] && Adds(w, st, name)
    ensures var r := AddInput(w, st, name).state;
            Stale(r.inputs, r.freeIds) && |r.inputs| == |st.inputs| + 1 && |r.freeIds| == |st.freeIds| - 1
  {
    AddInputEffect(w, st, name);
    InsertedStale(st.inputs, st.freeIds, InputSlot(st.inputs, name), NewInput(w, st, name));
  }

  lemma InsertedLive(inputs: seq<Input>, k: nat, x: Input)
    requires k <= |inputs|
    ensures Live(Insert(inputs, k, x)) == Live(inputs) + {x.id}
  {
    InsertedIds(inputs, k, x);
  }

  /** From stale tables, the add after as many as there are free ids is given an id that is live. */
  lemma {:induction false} CollisionFollows(w: World, st: State, names: seq<string>)
    requires Stale(st.inputs, st.freeIds) && |names| == |st.freeIds| && AllAdd(w, st, names)
    ensures var last := AddAll(w, st, names);
            |last.inputs| <= 0xffff && NextId(|last.inputs|, last.freeIds).0 in Live(last.inputs)
    decreases |names|
  {
    if names != [] {
      AddKeepsStale(w, st, names[0]);
      CollisionFollows(w, AddInput(w, st, names[0]).state, names[1..]);
    }
  }

  // ----- four commands -----

  /** A world that opens whatever it is asked to and fails no write. It has a client connect after
      the first turn and send one line after the second. */
  function Obliging(server: int, line: string, d: Device): World {
    World(false,
          t => Opened(server + 1 + t, d),
          (t, fd) => true,
          t => true,
          t => true,
          t => Some(line),
          t => None,
          (t, fd) => Revents(false, false, (t == 7 && fd == server) || (t == 9 && fd == server + 9)))
  }

  /** A text that is one argument list asking for an action. */
  ghost predicate Says(text: string, action: Action) {
    exists args :: Dispatches(text) == [args] && Interpret(args) == action
  }

  /** A queued command of no client that succeeds. */
  lemma RunOne(w: World, st: State, queue: seq<Command>, action: Action, after: State)
    requires queue != [] && queue[0].client == -1 && Says(queue[0].text, action)
    requires Done(after, true) == Exec(w, st, action)
    ensures RunQueue(w, st, queue) == RunQueue(w, after, queue[1..])
  {
    var args :| Dispatches(queue[0].text) == [args] && Interpret(args) == action;
    assert [args][1..] == [];
    assert RunAll(w, after, -1, []) == after;
    assert RunAll(w, st, -1, [args]) == RunAll(w, after, -1, []);
  }

  lemma RunFour(w: World, st: State, q: seq<Command>, a: Action, b: Action, c: Action, d: Action,
                s1: State, s2: State, s3: State, s4: State)
    requires |q| == 4 && forall i :: 0 <= i < 4 ==> q[i].client == -1
    requires Says(q[0].text, a) && Says(q[1].text, b) && Says(q[2].text, c) && Says(q[3].text, d)
    requires Done(s1, true) == Exec(w, st, a) && Done(s2, true) == Exec(w, s1, b)
    requires Done(s3, true) == Exec(w, s2, c) && Done(s4, true) == Exec(w, s3, d)
    ensures RunQueue(w, st, q) == s4
  {
    var q1 := q[1..];
    var q2 := q1[1..];
    var q3 := q2[1..];
    RunOne(w, st, q, a, s1);
    RunOne(w, s1, q1, b, s2);
    RunOne(w, s2, q2, c, s3);
    RunOne(w, s3, q3, d, s4);
    assert q3[1..] == [];
  }

  // ----- steps in which every write succeeds -----

  lemma NoneFails(w: World, clock: nat, queue: seq<int>, o: Output, m: Message, draining: bool)
    requires w.writes(clock, o.fd) && !o.broken
    ensures DeliverAll(w, clock, queue, draining, m, [o]) == [o.(log := o.log + [m])]
    ensures DropFailed(w, clock, queue, draining, [o], 1) == queue
  {
    assert DropFailed(w, clock, queue, draining, [o], 0) == queue;
  }

  lemma SmoothAdd(w: World, st: State, name: string, o: Output)
    requires Adds(w, st, name) && st.outputs == [o] && !o.broken && w.writes(st.clock + 1, o.fd)
    ensures var x := NewInput(w, st, name);
            AddInput(w, st, name)
            == Done(st.(clock := st.clock + 2,
                        addQueue := st.addQueue + [x.fd],
                        callbacks := st.callbacks[x.fd := OnInput(x.id)],
                        inputs := Insert(st.inputs, InputSlot(st.inputs, name), x),
                        freeIds := NextId(|st.inputs|, st.freeIds).1,
                        outputs := [o.(log := o.log + [Add(x.id, x.device)])]), true)
  {
    var x := NewInput(w, st, name);
    NoneFails(w, st.clock + 1, st.removeQueue, o, Add(x.id, x.device), false);
  }

  lemma SmoothOutput(w: World, st: State, name: string)
    requires st.outputs == [] && st.inputs == [] && Opens(w, st).Opened? && w.writes(st.clock + 1, Opens(w, st).fd)
    requires Opens(w, st).fd !in st.callbacks
    ensures var fd := Opens(w, st).fd;
            AddOutput(w, st, name, false)
            == Done(st.(clock := st.clock + 2,
                        callbacks := st.callbacks[fd := OnOutput],
                        outputs := [NewOutput(st, name, fd, false)]), true)
  {
    var o := NewOutput(st, name, Opens(w, st).fd, false);
    assert AnnounceAll(w, st.clock + 2, o, []) == o;
    assert Insert([], 0, o) == [o];
  }

  /** The drain of one announced input that an output hears of. */
  lemma SmoothRelease(w: World, st: State, k: nat, o: Output)
    requires k < |st.inputs| && !st.inputs[k].persistent && InputAt(st.inputs, st.inputs[k].fd) == k && !w.frees
    requires st.inputs[k].fd in st.callbacks && st.callbacks[st.inputs[k].fd].OnInput?
    requires st.outputs == [o] && !o.broken && w.writes(st.clock, o.fd)
    requires st.removeQueue == [st.inputs[k].fd]
    ensures var fd := st.inputs[k].fd;
            ProcessRemoveQueue(w, st)
            == st.(clock := st.clock + 1,
                   removeQueue := [],
                   callbacks := st.callbacks - {fd},
                   hotkeys := map h | h in st.hotkeys && h.device != st.inputs[k].id :: st.hotkeys[h],
                   inputs := Erase(st.inputs, k),
                   outputs := [o.(log := o.log + [Remove(st.inputs[k].id)])],
                   released := st.released + [fd])
  {
    var fd, id := st.inputs[k].fd, st.inputs[k].id;
    NoneFails(w, st.clock, st.removeQueue, o, Remove(id), true);
    assert [fd][1..] == [];
    assert ReleaseFrom(w, ReleaseOne(w, st, fd), []) == ReleaseOne(w, st, fd);
  }

  /** Descriptors that have nothing to say. */
  lemma {:induction false} QuietPoll(w: World, st: State, at: nat, fds: seq<int>)
    requires forall fd :: fd in fds ==> fd in st.callbacks && w.revents(at, fd) == Revents(false, false, false)
    ensures PollFrom(w, st, at, fds) == st
    decreases |fds|
  {
    if fds != [] && !st.quit {
      assert fds[0] in fds;
      assert PollOne(w, st, fds[0], w.revents(at, fds[0])) == st;
      QuietPoll(w, st, at, fds[1..]);
    }
  }

  lemma {:induction false} WithoutNone(fds: seq<int>)
    ensures Without(fds, []) == fds
  {
    if fds != [] {
      WithoutNone(fds[1..]);
    }
  }

  // ----- where the run stands -----

  function Out(server: int, log: seq<Message>): Output {
    Output("o", server + 1, false, false, log, 0, {})
  }

  function In(server: int, name: string, id: u16, offset: nat, d: Device): Input {
    Input(name, id, server + offset, d, d.name[..NameLength(d.name)], false)
  }

  ghost predicate Stage(st: State, server: int, clock: nat, inputs: seq<Input>, log: seq<Message>, clients: set<int>) {
    && !st.quit && st.server == server && st.clock == clock && st.clients == clients
    && st.inputs == inputs && st.freeIds == [] && st.outputs == [Out(server, log)]
  }

  ghost predicate Queues(st: State, add: seq<int>, remove: seq<int>, polled: seq<int>, commands: seq<Command>) {
    st.addQueue == add && st.removeQueue == remove && st.polled == polled && st.commands == commands
  }

  lemma FreshOpen(server: int, line: string, d: Device, st: State)
    requires server >= 0 && forall fd :: Open(st, fd) ==> fd <= server + st.clock
    ensures Opens(Obliging(server, line, d), st) == Opened(server + 1 + st.clock, d)
  {}

  lemma StageOpens(server: int, line: string, d: Device, st: State, clock: nat, inputs: seq<Input>,
                   log: seq<Message>, clients: set<int>)
    requires server >= 0 && clock > 0 && Stage(st, server, clock, inputs, log, clients)
    requires forall k :: 0 <= k < |inputs| ==> inputs[k].fd <= server + clock
    requires forall fd :: fd in clients ==> fd <= server + clock
    ensures Opens(Obliging(server, line, d), st) == Opened(server + 1 + clock, d)
  {
    assert forall fd :: Open(st, fd) ==> fd <= server + clock;
    FreshOpen(server, line, d, st);
  }

  /** `device add` of a name that comes last. */
  lemma StageAdd(server: int, line: string, d: Device, st: State, name: string, clock: nat, inputs: seq<Input>,
                 log: seq<Message>, clients: set<int>) returns (r: State)
    requires server >= 0 && clock > 0 && Stage(st, server, clock, inputs, log, clients) && |inputs| <= 0xffff
    requires InputNamed(inputs, name) == |inputs| == InputSlot(inputs, name)
    requires forall k :: 0 <= k < |inputs| ==> inputs[k].fd <= server + clock
    requires forall fd :: fd in clients ==> fd <= server + clock
    ensures Done(r, true) == AddInput(Obliging(server, line, d), st, name)
    ensures Stage(r, server, clock + 2, inputs + [In(server, name, |inputs|, clock + 1, d)],
                  log + [Add(|inputs|, d)], clients)
    ensures Queues(r, st.addQueue + [server + clock + 1], st.removeQueue, st.polled, st.commands)
  {
    var w := Obliging(server, line, d);
    StageOpens(server, line, d, st, clock, inputs, log, clients);
    SmoothAdd(w, st, name, Out(server, log));
    r := AddInput(w, st, name).state;
    assert r.inputs == inputs + [In(server, name, |inputs|, clock + 1, d)];
  }

  // ----- the first turn -----

  /** The four command lines, for names that stand in the order of the tables. */
  ghost predicate FourLines(lines: seq<string>, a: string, b: string) {
    && |lines| == 4 && a != b && !Before(b, a)
    && Says(lines[0], OutputAdd("o", false)) && Says(lines[1], InputAdd(a))
    && Says(lines[2], InputAdd(b)) && Says(lines[3], InputRemove(a))
  }

  lemma StartOpens(server: int, line: string, d: Device, lines: seq<string>)
    requires server >= 0
    ensures Opens(Obliging(server, line, d), Initial(server, lines)) == Opened(server + 1, d)
  {
    var st := Initial(server, lines);
    assert forall fd :: Open(st, fd) ==> fd <= server;
    FreshOpen(server, line, d, st);
  }

  lemma StageOutput(server: int, line: string, d: Device, st: State, name: string) returns (r: State)
    requires server >= 0 && st.inputs == [] && st.outputs == [] && st.freeIds == [] && st.clients == {} && st.seen == []
    requires st.clock == 0 && !st.quit && st.server == server && server + 1 !in st.callbacks && name == "o"
    requires Opens(Obliging(server, line, d), st) == Opened(server + 1, d)
    ensures Done(r, true) == Exec(Obliging(server, line, d), st, OutputAdd(name, false))
    ensures Stage(r, server, 2, [], [Hello], {}) && Queues(r, st.addQueue, st.removeQueue, st.polled, st.commands)
  {
    SmoothOutput(Obliging(server, line, d), st, name);
    r := AddOutput(Obliging(server, line, d), st, name, false).state;
  }

  lemma OutputFirst(server: int, line: string, d: Device, lines: seq<string>) returns (r: State)
    requires server >= 0
    ensures Done(r, true) == Exec(Obliging(server, line, d), Initial(server, lines), OutputAdd("o", false))
    ensures Stage(r, server, 2, [], [Hello], {}) && Queues(r, [], [], [server], Initial(server, lines).commands)
  {
    StartOpens(server, line, d, lines);
    r := StageOutput(server, line, d, Initial(server, lines), "o");
  }

  function Two(server: int, a: string, b: string, d: Device): seq<Input> {
    [In(server, a, 0, 3, d), In(server, b, 1, 5, d)]
  }

  lemma RemoveQueued(w: World, server: int, a: string, b: string, d: Device, st: State, log: seq<Message>)
      returns (r: State)
    requires Stage(st, server, 6, Two(server, a, b, d), log, {}) && st.removeQueue == [] && server >= 0
    ensures Done(r, true) == Exec(w, st, InputRemove(a)) && Stage(r, server, 6, Two(server, a, b, d), log, {})
    ensures Queues(r, st.addQueue, [server + 3], st.polled, st.commands)
  {
    assert InputNamed(st.inputs, a) == 0;
    r := RemoveInput(st, a).state;
  }

  lemma FirstAdd(server: int, line: string, a: string, d: Device, s1: State) returns (s2: State)
    requires server >= 0 && Stage(s1, server, 2, [], [Hello], {})
    ensures Done(s2, true) == Exec(Obliging(server, line, d), s1, InputAdd(a))
    ensures Stage(s2, server, 4, [In(server, a, 0, 3, d)], [Hello, Add(0, d)], {})
    ensures Queues(s2, s1.addQueue + [server + 3], s1.removeQueue, s1.polled, s1.commands)
  {
    s2 := StageAdd(server, line, d, s1, a, 2, [], [Hello], {});
    assert [Hello] + [Add(0, d)] == [Hello, Add(0, d)];
    assert [] + [In(server, a, 0, 3, d)] == [In(server, a, 0, 3, d)];
  }

  lemma SecondAdd(server: int, line: string, a: string, b: string, d: Device, s2: State) returns (s3: State)
    requires server >= 0 && a != b && !Before(b, a)
    requires Stage(s2, server, 4, [In(server, a, 0, 3, d)], [Hello, Add(0, d)], {})
    ensures Done(s3, true) == Exec(Obliging(server, line, d), s2, InputAdd(b))
    ensures Stage(s3, server, 6, Two(server, a, b, d), [Hello, Add(0, d), Add(1, d)], {})
    ensures Queues(s3, s2.addQueue + [server + 5], s2.removeQueue, s2.polled, s2.commands)
  {
    var one := [In(server, a, 0, 3, d)];
    assert one[1..] == [];
    assert InputNamed(one, b) == 1 + InputNamed([], b) == 1 && InputSlot(one, b) == 1 + InputSlot([], b) == 1;
    s3 := StageAdd(server, line, d, s2, b, 4, one, [Hello, Add(0, d)], {});
    assert [Hello, Add(0, d)] + [Add(1, d)] == [Hello, Add(0, d), Add(1, d)];
    assert one + [In(server, b, 1, 5, d)] == Two(server, a, b, d);
  }

  lemma StartCommands(server: int, lines: seq<string>, w: World, a: string, b: string,
                      s1: State, s2: State, s3: State, s4: State)
    requires FourLines(lines, a, b)
    requires var st := Initial(server, lines);
             && Done(s1, true) == Exec(w, st, OutputAdd("o", false)) && Done(s2, true) == Exec(w, s1, InputAdd(a))
             && Done(s3, true) == Exec(w, s2, InputAdd(b)) && Done(s4, true) == Exec(w, s3, InputRemove(a))
    ensures RunQueue(w, Initial(server, lines), Initial(server, lines).commands) == s4
  {
    RunFour(w, Initial(server, lines), Initial(server, lines).commands,
            OutputAdd("o", false), InputAdd(a), InputAdd(b), InputRemove(a), s1, s2, s3, s4);
  }

  lemma FirstStates(server: int, line: string, a: string, b: string, d: Device, lines: seq<string>)
      returns (s1: State, s2: State, s3: State, s4: State)
    requires server >= 0 && a != b && !Before(b, a)
    ensures var w, st := Obliging(server, line, d), Initial(server, lines);
            && Done(s1, true) == Exec(w, st, OutputAdd("o", false)) && Done(s2, true) == Exec(w, s1, InputAdd(a))
            && Done(s3, true) == Exec(w, s2, InputAdd(b)) && Done(s4, true) == Exec(w, s3, InputRemove(a))
    ensures Stage(s4, server, 6, Two(server, a, b, d), [Hello, Add(0, d), Add(1, d)], {})
    ensures Queues(s4, [server + 3, server + 5], [server + 3], [server], Initial(server, lines).commands)
  {
    s1 := OutputFirst(server, line, d, lines);
    s2 := FirstAdd(server, line, a, d, s1);
    s3 := SecondAdd(server, line, a, b, d, s2);
    s4 := RemoveQueued(Obliging(server, line, d), server, a, b, d, s3, [Hello, Add(0, d), Add(1, d)]);
    assert [] + [server + 3] + [server + 5] == [server + 3, server + 5];
  }

  lemma FirstCommands(server: int, line: string, a: string, b: string, d: Device, lines: seq<string>)
      returns (r: State)
    requires server >= 0 && FourLines(lines, a, b)
    ensures var st := Initial(server, lines); r == RunQueue(Obliging(server, line, d), st, st.commands)
    ensures Stage(r, server, 6, Two(server, a, b, d), [Hello, Add(0, d), Add(1, d)], {})
    ensures Queues(r, [server + 3, server + 5], [server + 3], [server], Initial(server, lines).commands)
  {
    var s1, s2, s3, s4 := FirstStates(server, line, a, b, d, lines);
    StartCommands(server, lines, Obliging(server, line, d), a, b, s1, s2, s3, s4);
    r := s4;
  }

  lemma BeforeFirstDrain(server: int, line: string, a: string, b: string, d: Device, lines: seq<string>)
      returns (r: State)
    requires server >= 0 && FourLines(lines, a, b)
    ensures r == BeforeDrain(Obliging(server, line, d), Initial(server, lines))
    ensures server + 3 in r.callbacks && r.callbacks[server + 3].OnInput?
    ensures Stage(r, server, 6, Two(server, a, b, d), [Hello, Add(0, d), Add(1, d)], {})
    ensures Queues(r, [], [server + 3], [server, server + 5], [])
  {
    var w, st := Obliging(server, line, d), Initial(server, lines);
    var ran := FirstCommands(server, line, a, b, d, lines);
    InitialInv(server, lines);
    ProcessCommandsInv(w, st);
    MergeFilterInv(ran.(commands := []));
    FirstFilter(server);
    r := FilterPolled(MergeAdds(ran.(commands := [])));
    assert Two(server, a, b, d)[0] in r.inputs && HasInput(r.inputs, r.inputs[0].fd) && Open(r, server + 3);
  }

  /** The first of two inputs is released, and the output hears of it. */
  lemma StageRelease(w: World, server: int, st: State, x: Input, y: Input, log: seq<Message>, polled: seq<int>)
      returns (r: State)
    requires Stage(st, server, 6, [x, y], log, {}) && Queues(st, [], [x.fd], polled, [])
    requires x.fd in st.callbacks && st.callbacks[x.fd].OnInput? && !x.persistent && !w.frees
    requires w.writes(6, server + 1)
    ensures r == ProcessRemoveQueue(w, st)
    ensures Stage(r, server, 7, [y], log + [Remove(x.id)], {}) && Queues(r, [], [], polled, [])
  {
    assert InputAt(st.inputs, x.fd) == 0;
    SmoothRelease(w, st, 0, Out(server, log));
    r := ProcessRemoveQueue(w, st);
    assert Erase([x, y], 0) == [y];
  }

  lemma FirstDrain(server: int, line: string, a: string, b: string, d: Device, lines: seq<string>)
      returns (r: State, log: seq<Message>)
    requires server >= 0 && FourLines(lines, a, b)
    ensures var w := Obliging(server, line, d); r == ProcessRemoveQueue(w, BeforeDrain(w, Initial(server, lines)))
    ensures Stage(r, server, 7, [In(server, b, 1, 5, d)], log, {}) && log == [Hello, Add(0, d), Add(1, d), Remove(0)]
    ensures Queues(r, [], [], [server, server + 5], [])
  {
    var before := BeforeFirstDrain(server, line, a, b, d, lines);
    r := StageRelease(Obliging(server, line, d), server, before, In(server, a, 0, 3, d), In(server, b, 1, 5, d),
                      [Hello, Add(0, d), Add(1, d)], [server, server + 5]);
    log := [Hello, Add(0, d), Add(1, d)] + [Remove(0)];
  }

  lemma FirstFilter(server: int)
    ensures Without([server] + [server + 3, server + 5], [server + 3]) == [server, server + 5]
  {
    var fds := [server] + [server + 3, server + 5];
    assert fds[1..] == [server + 3, server + 5] && fds[1..][1..] == [server + 5] && fds[1..][1..][1..] == [];
    assert Without(fds[1..][1..], [server + 3]) == [server + 5] + Without([], [server + 3]) == [server + 5];
    assert Without(fds[1..], [server + 3]) == [] + [server + 5];
    assert Without(fds, [server + 3]) == [server] + [server + 5];
  }

  /** The server accepts a client; nothing else happens. */
  lemma Accept(server: int, line: string, d: Device, st: State, inputs: seq<Input>, log: seq<Message>)
      returns (r: State)
    requires server >= 0 && Inv(st) && Stage(st, server, 8, inputs, log, {})
    requires Queues(st, [], [], [server, server + 5], [])
    requires forall k :: 0 <= k < |inputs| ==> inputs[k].fd <= server + 8
    ensures r == PollFrom(Obliging(server, line, d), st, 7, [server, server + 5])
    ensures Stage(r, server, 9, inputs, log, {server + 9})
    ensures Queues(r, [server + 9], [], [server, server + 5], [])
  {
    var w := Obliging(server, line, d);
    StageOpens(server, line, d, st, 8, inputs, log, {});
    r := NewCommandClient(w, st);
    assert st.callbacks[server] == OnServer;
    assert PollOne(w, st, server, w.revents(7, server)) == r;
    assert server + 5 in st.polled;
    assert [server, server + 5][1..] == [server + 5];
    QuietPoll(w, r, 7, [server + 5]);
  }

  /** A turn from its drain on. */
  lemma TurnDrained(w: World, st: State, drained: State)
    requires Inv(st) && drained == ProcessRemoveQueue(w, BeforeDrain(w, st)) && !drained.quit
    ensures Inv(Tick(drained)) && Inv(Turn(w, st))
    ensures Turn(w, st) == PollFrom(w, Tick(drained), drained.clock, drained.polled)
  {
    ProcessCommandsInv(w, st);
    DrainExact(w, ProcessCommands(w, st));
    UnrelatedInv(drained, Tick(drained));
    TurnInv(w, st);
  }

  lemma TurnAccepts(server: int, line: string, d: Device, st: State, drained: State, inputs: seq<Input>,
                    log: seq<Message>) returns (r: State)
    requires server >= 0 && Inv(st) && drained == ProcessRemoveQueue(Obliging(server, line, d),
                                                                     BeforeDrain(Obliging(server, line, d), st))
    requires Stage(drained, server, 7, inputs, log, {}) && Queues(drained, [], [], [server, server + 5], [])
    requires forall k :: 0 <= k < |inputs| ==> inputs[k].fd <= server + 8
    ensures r == Turn(Obliging(server, line, d), st) && Inv(r)
    ensures Stage(r, server, 9, inputs, log, {server + 9}) && Queues(r, [server + 9], [], [server, server + 5], [])
  {
    TurnDrained(Obliging(server, line, d), st, drained);
    r := Accept(server, line, d, Tick(drained), inputs, log);
  }

  lemma Start(server: int, lines: seq<string>) returns (st: State)
    requires server >= 0
    ensures Inv(st) && st == Initial(server, lines)
  {
    InitialInv(server, lines);
    st := Initial(server, lines);
  }

  lemma FirstTurn(server: int, line: string, a: string, b: string, d: Device, lines: seq<string>)
      returns (r: State)
    requires server >= 0 && FourLines(lines, a, b)
    ensures r == Turn(Obliging(server, line, d), Initial(server, lines)) && Inv(r)
    ensures Stage(r, server, 9, [In(server, b, 1, 5, d)], [Hello, Add(0, d), Add(1, d), Remove(0)], {server + 9})
    ensures Queues(r, [server + 9], [], [server, server + 5], [])
  {
    var drained, log := FirstDrain(server, line, a, b, d, lines);
    var st := Start(server, lines);
    r := TurnAccepts(server, line, d, st, drained, [In(server, b, 1, 5, d)], log);
  }

  // ----- the second turn -----

  /** A turn without commands and removals, up to its callbacks. */
  lemma IdleDrain(w: World, st: State) returns (r: State)
    requires Inv(st) && st.commands == [] && st.removeQueue == []
    ensures r == ProcessRemoveQueue(w, BeforeDrain(w, st)) && Inv(r)
    ensures r == st.(polled := st.polled + st.addQueue, addQueue := [])
  {
    WithoutNone(st.polled + st.addQueue);
    DrainExact(w, st);
    assert ProcessCommands(w, st) == st;
    r := ProcessRemoveQueue(w, BeforeDrain(w, st));
  }

  lemma SecondTurn(server: int, line: string, d: Device, st: State, inputs: seq<Input>, log: seq<Message>)
      returns (r: State)
    requires server >= 0 && Inv(st) && Stage(st, server, 9, inputs, log, {server + 9})
    requires Queues(st, [server + 9], [], [server, server + 5], [])
    ensures r == Turn(Obliging(server, line, d), st) && Inv(r) && Stage(r, server, 11, inputs, log, {server + 9})
    ensures Queues(r, [], [], [server, server + 5, server + 9], [Command(server + 9, line)])
  {
    var w := Obliging(server, line, d);
    var drained := IdleDrain(w, st);
    var fds := [server, server + 5, server + 9];
    assert [server, server + 5] + [server + 9] == fds;
    TurnDrained(w, st, drained);
    r := ReadLineLast(w, server, line, Tick(drained), fds);
  }

  /** Only the client has something to say. */
  lemma ReadLineLast(w: World, server: int, line: string, st: State, fds: seq<int>) returns (r: State)
    requires Inv(st) && !st.quit && st.polled == fds == [server, server + 5, server + 9] && server + 9 in st.clients
    requires st.commands == [] && w.lines(st.clock) == Some(line)
    requires forall fd :: w.revents(9, fd) == Revents(false, false, fd == server + 9)
    ensures r == PollFrom(w, st, 9, fds) == st.(clock := st.clock + 1, commands := [Command(server + 9, line)])
  {
    assert server in st.polled && server + 5 in st.polled && server + 9 in st.polled;
    assert st.callbacks[server + 9] == OnClient;
    assert PollOne(w, st, server, w.revents(9, server)) == st;
    assert PollOne(w, st, server + 5, w.revents(9, server + 5)) == st;
    r := ReadCommand(w, st, server + 9);
    assert [] + [Command(server + 9, line)] == [Command(server + 9, line)];
    assert PollOne(w, st, server + 9, w.revents(9, server + 9)) == r;
    assert fds[1..] == [server + 5, server + 9] && fds[1..][1..] == [server + 9] && fds[1..][1..][1..] == [];
    assert PollFrom(w, r, 9, []) == r;
    assert PollFrom(w, st, 9, [server + 9]) == r;
    assert PollFrom(w, st, 9, [server + 5, server + 9]) == r;
  }

  // ----- the third turn -----

  lemma ThirdCommands(server: int, line: string, b: string, c: string, d: Device, st: State, log: seq<Message>)
      returns (r: State)
    requires server >= 0 && Stage(st, server, 11, [In(server, b, 1, 5, d)], log, {server + 9})
    requires st.commands == [Command(server + 9, line)] && Says(line, InputAdd(c)) && b != c && !Before(c, b)
    ensures r == RunQueue(Obliging(server, line, d), st, st.commands)
    ensures r.inputs == [In(server, b, 1, 5, d), In(server, c, 1, 12, d)]
    ensures r.outputs == [Out(server, log + [Add(1, d)])] && r.removeQueue == st.removeQueue && !r.quit && r.clock == 14
  {
    var w, one := Obliging(server, line, d), [In(server, b, 1, 5, d)];
    var args :| Dispatches(line) == [args] && Interpret(args) == InputAdd(c);
    assert one[1..] == [];
    assert InputNamed(one, c) == 1 + InputNamed([], c) == 1 && InputSlot(one, c) == 1 + InputSlot([], c) == 1;
    var added := StageAdd(server, line, d, st, c, 11, one, log, {server + 9});
    assert [args][1..] == [] && st.commands[1..] == [];
    r := Tick(added);
    assert Reply(w, added, server + 9) == r;
    assert RunAll(w, r, server + 9, []) == r;
    assert RunAll(w, st, server + 9, [args]) == r;
    assert RunQueue(w, r, []) == r;
    assert one + [In(server, c, 1, 12, d)] == [In(server, b, 1, 5, d), In(server, c, 1, 12, d)];
  }

  lemma ThirdTurn(server: int, line: string, b: string, c: string, d: Device, st: State, log: seq<Message>)
      returns (r: State)
    requires server >= 0 && Inv(st) && Stage(st, server, 11, [In(server, b, 1, 5, d)], log, {server + 9})
    requires Queues(st, [], [], [server, server + 5, server + 9], [Command(server + 9, line)])
    requires Says(line, InputAdd(c)) && b != c && !Before(c, b)
    ensures r == Turn(Obliging(server, line, d), st)
    ensures r.inputs == [In(server, b, 1, 5, d), In(server, c, 1, 12, d)]
    ensures r.outputs == [Out(server, log + [Add(1, d)])]
  {
    var w := Obliging(server, line, d);
    var ran := ThirdCommands(server, line, b, c, d, st, log);
    ProcessCommandsInv(w, st);
    var idle := ran.(commands := []);
    assert idle == ProcessCommands(w, st);
    var drained := IdleDrain(w, idle);
    assert ProcessCommands(w, idle) == idle;
    QuietPoll(w, Tick(drained), 14, drained.polled);
    r := Tick(drained);
  }

  // ----- the run -----

  lemma CollisionTurns(server: int, a: string, b: string, c: string, lines: seq<string>, line: string, d: Device)
      returns (r: State)
    requires server >= 0 && FourLines(lines, a, b) && Says(line, InputAdd(c)) && b != c && !Before(c, b)
    ensures r == Run(Obliging(server, line, d), Initial(server, lines), 3)
    ensures r.inputs == [In(server, b, 1, 5, d), In(server, c, 1, 12, d)]
    ensures r.outputs == [Out(server, [Hello, Add(0, d), Add(1, d), Remove(0)] + [Add(1, d)])]
  {
    var log := [Hello, Add(0, d), Add(1, d), Remove(0)];
    var s1 := FirstTurn(server, line, a, b, d, lines);
    var s2 := SecondTurn(server, line, d, s1, [In(server, b, 1, 5, d)], log);
    r := ThirdTurn(server, line, b, c, d, s2, log);
    ThreeTurns(Obliging(server, line, d), Initial(server, lines), s1, s2, r);
  }

  /** As written: two devices are added, the first is removed, and a client adds another. After three
      turns two live inputs have the id 1, and a rejecting receiver of the output ends on its stream. */
  lemma FourStepCollision(server: int, a: string, b: string, c: string, lines: seq<string>, line: string, d: Device)
    requires server >= 0 && FourLines(lines, a, b) && Says(line, InputAdd(c)) && b != c && !Before(c, b)
    requires Terminated(d)
    ensures var st := Run(Obliging(server, line, d), Initial(server, lines), 3);
            && |st.inputs| == 2 && st.inputs[0].name == b && st.inputs[1].name == c
            && st.inputs[0].id == st.inputs[1].id == 1
            && |st.outputs| == 1
            && st.outputs[0].log == [Hello, Add(0, d), Add(1, d), Remove(0)] + [Add(1, d)]
            && Receive(Reject, [EncodeAll(st.outputs[0].log)]).ending == Thrown(DuplicateDevice)
  {
    var st := CollisionTurns(server, a, b, c, lines, line, d);
    CollisionRejected(d, d, d);
  }

  lemma ThreeTurns(w: World, st: State, s1: State, s2: State, s3: State)
    requires !st.quit && s1 == Turn(w, st) && !s1.quit && s2 == Turn(w, s1) && !s2.quit && s3 == Turn(w, s2)
    ensures Run(w, st, 3) == s3
  {
    assert Run(w, st, 0) == st;
    assert Run(w, st, 1) == s1;
    assert Run(w, st, 2) == s2;
  }

  /** The stream of that run, for any descriptions. */
  lemma CollisionRejected(a: Device, b: Device, c: Device)
    requires Terminated(a) && Terminated(b)
    ensures Receive(Reject, [EncodeAll([Hello, Add(0, a), Add(1, b), Remove(0)] + [Add(1, c)])]).ending
            == Thrown(DuplicateDevice)
  {
    var rest := [Add(0, a), Add(1, b), Remove(0)];
    var all := [Hello, Add(0, a), Add(1, b), Remove(0)] + [Add(1, c)];
    assert [] + [Add(0, a)] == [Add(0, a)];
    KnownAppend(Reject, {}, [], Add(0, a));
    assert [Add(0, a)] + [Add(1, b)] == [Add(0, a), Add(1, b)];
    KnownAppend(Reject, {}, [Add(0, a)], Add(1, b));
    assert [Add(0, a), Add(1, b)] + [Remove(0)] == rest;
    KnownAppend(Reject, {}, [Add(0, a), Add(1, b)], Remove(0));
    var nothing: DeviceMap := map[];
    assert nothing.Keys == {};
    RejectedAfter(nothing, rest, Add(1, c), []);
    assert all[1..] == rest + ([Add(1, c)] + []);
    ReceiveIsApply(all);
  }

  // ----- lines that say so -----

  lemma Spoken()
    ensures Expressible("output") && Expressible("device") && Expressible("add") && Expressible("remove")
    ensures Expressible("o") && Expressible("p") && Expressible("a") && Expressible("b") && Expressible("c")
  {}

  lemma SaysOne(args: seq<string>, action: Action)
    requires args != [] && AllExpressible(args) && Interpret(args) == action
    ensures Says(PrintArgs(args), action)
  {
    CommandRoundTrip(args);
  }

  lemma AddMeans(name: string, path: string)
    ensures Interpret(["device", "add", name, path]) == InputAdd(name)
  {}

  lemma RemoveMeans(name: string)
    ensures Interpret(["device", "remove", name]) == InputRemove(name)
  {}

  lemma OutputMeans(name: string, path: string)
    requires name != "--resume"
    ensures Interpret(["output", "add", name, path]) == OutputAdd(name, false)
  {}

  /** There are such lines, so the collision does happen. */
  lemma SomeRunCollides(server: int, d: Device) returns (w: World, lines: seq<string>)
    requires server >= 0 && Terminated(d)
    ensures var st := Run(w, Initial(server, lines), 3);
            && !w.frees && |st.inputs| == 2 && st.inputs[0].id == st.inputs[1].id && |st.outputs| == 1
            && Receive(Reject, [EncodeAll(st.outputs[0].log)]).ending == Thrown(DuplicateDevice)
  {
    var line;
    lines, line := SuchLines();
    w := Obliging(server, line, d);
    FourStepCollision(server, "a", "b", "c", lines, line, d);
  }

  lemma AddLine(name: string) returns (text: string)
    requires Expressible(name)
    ensures Says(text, InputAdd(name))
  {
    Spoken();
    AddMeans(name, "p");
    SaysOne(["device", "add", name, "p"], InputAdd(name));
    text := PrintArgs(["device", "add", name, "p"]);
  }

  lemma RemoveLine(name: string) returns (text: string)
    requires Expressible(name)
    ensures Says(text, InputRemove(name))
  {
    Spoken();
    RemoveMeans(name);
    SaysOne(["device", "remove", name], InputRemove(name));
    text := PrintArgs(["device", "remove", name]);
  }

  lemma OutputLine(name: string) returns (text: string)
    requires Expressible(name) && name != "--resume"
    ensures Says(text, OutputAdd(name, false))
  {
    Spoken();
    OutputMeans(name, "p");
    SaysOne(["output", "add", name, "p"], OutputAdd(name, false));
    text := PrintArgs(["output", "add", name, "p"]);
  }

  lemma SuchLines() returns (lines: seq<string>, line: string)
    ensures FourLines(lines, "a", "b") && Says(line, InputAdd("c")) && "b" != "c" && !Before("c", "b")
  {
    Spoken();
    var o := OutputLine("o");
    var a := AddLine("a");
    var b := AddLine("b");
    var r := RemoveLine("a");
    line := AddLine("c");
    lines := [o, a, b, r];
  }
}
