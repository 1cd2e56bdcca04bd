/** Descriptors that fail: what queues them, in a callback and in a turn, and that they are released. */
module DaemonFailures {
  import opened Bytes
  import opened Devices
  import opened DaemonState
  import opened DaemonInvariant
  import opened DaemonCommands
  import opened DaemonEvents
  import opened DaemonRuns
  import opened DaemonUpkeep

  // ----- one descriptor -----

  /** A read that finds nothing: no line from a client, no event from an input, anything from an output. */
  predicate Silent(w: World, st: State, cb: Callback) {
    match cb
    case OnServer => false
    case OnClient => w.lines(st.clock).None?
    case OnInput(_) => w.events(st.clock).None?
    case OnOutput => true
  }

  /** An event that is read, is no hotkey, and cannot be written to the current output. */
  predicate EventLost(w: World, st: State, cb: Callback) {
    cb.OnInput? && w.events(st.clock).Some?
    && var e := w.events(st.clock).value;
       && (e.kind < 0x20 ==> KeyOf(cb.id, e) !in st.hotkeys)
       && st.current != -1 && st.writing && !w.writes(st.clock, st.current)
  }

  /** The callbacks of a descriptor queue a descriptor for removal: itself after an error, a hang-up or a
      read that finds nothing, and the current output if an event cannot be written to it. */
  predicate Queues(w: World, st: State, fd: int, r: Revents, x: int)
    requires fd in st.callbacks
  {
    var cb := st.callbacks[fd];
    && !cb.OnServer?
    && ((x == fd && (r.error || r.hup)) || (r.input && ReadQueues(w, st, fd, cb, x)))
  }

  /** The queue after some descriptors were added to it. */
  ghost predicate Joined(before: seq<int>, after: seq<int>, joins: int -> bool) {
    before <= after && forall x :: x in after <==> x in before || joins(x)
  }

  lemma FailureExact(st: State, fd: int, cb: Callback)
    requires fd >= 0
    ensures var r := OnFailure(st, fd, cb);
            if cb.OnServer? then r == st.(quit := true)
            else NowQueued(st.removeQueue, fd, r.removeQueue) && r == st.(removeQueue := r.removeQueue)
  {}

  lemma JoinedOne(before: seq<int>, after: seq<int>, fd: int, joins: int -> bool)
    requires NowQueued(before, fd, after) && forall x :: joins(x) <==> x == fd
    ensures Joined(before, after, joins)
  {}

  lemma JoinedNone(before: seq<int>, joins: int -> bool)
    requires forall x :: !joins(x)
    ensures Joined(before, before, joins)
  {}

  lemma Chained(a: seq<int>, b: seq<int>, c: seq<int>, p: int -> bool, q: int -> bool, both: int -> bool)
    requires Joined(a, b, p) && Joined(b, c, q) && forall x :: both(x) <==> p(x) || q(x)
    ensures Joined(a, c, both)
  {}

  /** What a read queues. */
  predicate ReadQueues(w: World, st: State, fd: int, cb: Callback, x: int) {
    (x == fd && Silent(w, st, cb)) || (x == st.current && EventLost(w, st, cb))
  }

  /** A read of anything but the server. */
  lemma ReadExact(w: World, st: State, fd: int)
    requires Inv(st) && fd in st.callbacks && !st.callbacks[fd].OnServer?
    ensures var cb, r := st.callbacks[fd], OnRead(w, st, fd, st.callbacks[fd]);
            && r.quit == st.quit && r.callbacks == st.callbacks
            && Joined(st.removeQueue, r.removeQueue, x => ReadQueues(w, st, fd, cb, x))
  {
    var cb, r := st.callbacks[fd], OnRead(w, st, fd, st.callbacks[fd]);
    var joins := x => ReadQueues(w, st, fd, cb, x);
    if cb.OnInput? && w.events(st.clock).Some? {
      EventQueues(w, st, cb.id, w.events(st.clock).value);
      if EventLost(w, st, cb) {
        JoinedOne(st.removeQueue, r.removeQueue, st.current, joins);
      } else {
        JoinedNone(st.removeQueue, joins);
      }
    } else {
      SilentRead(w, st, fd, cb);
      if Silent(w, st, cb) {
        JoinedOne(st.removeQueue, r.removeQueue, fd, joins);
      } else {
        JoinedNone(st.removeQueue, joins);
      }
    }
  }

  lemma EventQueues(w: World, st: State, id: u16, e: InputEvent)
    requires Inv(st)
    ensures var r := RouteEvent(w, st, id, e);
            && r.quit == st.quit && r.callbacks == st.callbacks
            && (if (e.kind < 0x20 ==> KeyOf(id, e) !in st.hotkeys) && st.current != -1 && st.writing
                   && !w.writes(st.clock, st.current)
                then NowQueued(st.removeQueue, st.current, r.removeQueue) else r.removeQueue == st.removeQueue)
  {
    RouteQuietly(w, st, id, e);
    if e.kind < 0x20 && KeyOf(id, e) in st.hotkeys {
      HotkeyFires(w, st, id, e);
    } else {
      OtherEvent(w, st, id, e);
    }
  }

  lemma SilentRead(w: World, st: State, fd: int, cb: Callback)
    requires fd >= 0 && !cb.OnServer? && (cb.OnInput? ==> w.events(st.clock).None?)
    ensures var r := OnRead(w, st, fd, cb);
            && r.quit == st.quit && r.callbacks == st.callbacks
            && (if Silent(w, st, cb) then NowQueued(st.removeQueue, fd, r.removeQueue)
                else r.removeQueue == st.removeQueue)
  {}

  /** Exactly what the callbacks of a descriptor that is not the server's queue. */
  lemma PollQueues(w: World, st: State, fd: int, r: Revents)
    requires Inv(st) && !st.quit && fd in st.callbacks && !st.callbacks[fd].OnServer?
    ensures var st' := PollOne(w, st, fd, r);
            && !st'.quit && st'.callbacks == st.callbacks
            && Joined(st.removeQueue, st'.removeQueue, x => Queues(w, st, fd, r, x))
  {
    var st1 := Failing(st, fd, r.error);
    var st2 := Failing(st1, fd, r.hup);
    var st3 := Reading(w, st2, fd, r.input);
    PollSteps(w, st, fd, r);
    var failed := x => x == fd && (r.error || r.hup);
    Chained(st.removeQueue, st1.removeQueue, st2.removeQueue, x => r.error && x == fd, x => r.hup && x == fd, failed);
    SameReads(w, st, st2, fd);
    Chained(st.removeQueue, st2.removeQueue, st3.removeQueue, failed,
            x => r.input && ReadQueues(w, st2, fd, st.callbacks[fd], x), x => Queues(w, st, fd, r, x));
  }

  lemma SameReads(w: World, a: State, b: State, fd: int)
    requires fd in a.callbacks && b == a.(removeQueue := b.removeQueue)
    ensures forall x :: ReadQueues(w, b, fd, a.callbacks[fd], x) <==> ReadQueues(w, a, fd, a.callbacks[fd], x)
  {}

  lemma PollSteps(w: World, st: State, fd: int, r: Revents)
    requires !st.quit && fd in st.callbacks && !st.callbacks[fd].OnServer?
    ensures var cb := st.callbacks[fd];
            var st1 := if r.error then OnFailure(st, fd, cb) else st;
            var st2 := if r.hup then OnFailure(st1, fd, cb) else st1;
            PollOne(w, st, fd, r) == if r.input then OnRead(w, st2, fd, cb) else st2
  {}

  lemma Reading(w: World, st: State, fd: int, input: bool) returns (st': State)
    requires Inv(st) && !st.quit && fd in st.callbacks && !st.callbacks[fd].OnServer?
    ensures st' == if input then OnRead(w, st, fd, st.callbacks[fd]) else st
    ensures !st'.quit && st'.callbacks == st.callbacks
    ensures Joined(st.removeQueue, st'.removeQueue, x => input && ReadQueues(w, st, fd, st.callbacks[fd], x))
  {
    st' := if input then OnRead(w, st, fd, st.callbacks[fd]) else st;
    ReadExact(w, st, fd);
    if input {
      Chained(st.removeQueue, st.removeQueue, st'.removeQueue, x => false,
              x => ReadQueues(w, st, fd, st.callbacks[fd], x),
              x => input && ReadQueues(w, st, fd, st.callbacks[fd], x));
    }
  }

  lemma Failing(st: State, fd: int, failed: bool) returns (st': State)
    requires Inv(st) && !st.quit && fd in st.callbacks && !st.callbacks[fd].OnServer?
    ensures st' == if failed then OnFailure(st, fd, st.callbacks[fd]) else st
    ensures Inv(st') && st' == st.(removeQueue := st'.removeQueue)
    ensures Joined(st.removeQueue, st'.removeQueue, x => failed && x == fd)
  {
    var cb := st.callbacks[fd];
    st' := if failed then OnFailure(st, fd, cb) else st;
    OnFailureInv(st, fd, cb);
    FailureExact(st, fd, cb);
  }

  /** An error or a hang-up on the server ends the daemon; a connection queues nothing. */
  lemma ServerPolled(w: World, st: State, r: Revents)
    requires Inv(st) && !st.quit
    ensures var st' := PollOne(w, st, st.server, r);
            && (r.error || r.hup ==> st' == st.(quit := true))
            && st'.removeQueue == st.removeQueue
            && forall x :: x in st.callbacks ==> x in st'.callbacks && st'.callbacks[x] == st.callbacks[x]
  {
    assert st.callbacks[st.server] == OnServer;
    var opening := Opens(w, st);
    assert opening.Opened? ==> opening.fd !in st.callbacks;
  }

  /** A connection to the server becomes a client, registered and about to be polled; if it cannot be
      taken the daemon ends. */
  lemma ClientAccepted(w: World, st: State)
    requires Inv(st) && !st.quit
    ensures var opening, st' := Opens(w, st), PollOne(w, st, st.server, Revents(false, false, true));
            st' == if opening.NotOpened? then st.(clock := st.clock + 1, quit := true)
                   else st.(clock := st.clock + 1, clients := st.clients + {opening.fd},
                            callbacks := st.callbacks[opening.fd := OnClient],
                            addQueue := st.addQueue + [opening.fd])
  {
    assert st.callbacks[st.server] == OnServer;
  }

  /** A line from a client waits to be run for it, behind those that waited before. */
  lemma LineWaits(w: World, st: State, fd: int, line: string)
    requires Inv(st) && !st.quit && fd in st.clients && w.lines(st.clock) == Some(line)
    ensures PollOne(w, st, fd, Revents(false, false, true))
            == st.(clock := st.clock + 1, commands := st.commands + [Command(fd, line)])
  {
    assert st.callbacks[fd] == OnClient;
  }

  // ----- all descriptors -----

  /** The state in which the k-th descriptor has its turn. */
  function Served(w: World, st: State, at: nat, fds: seq<int>, k: nat): State
    requires k <= |fds|
  {
    PollFrom(w, st, at, fds[..k])
  }

  /** The k-th descriptor has its turn, and its callbacks queue a descriptor. */
  ghost predicate QueuesAt(w: World, st: State, at: nat, fds: seq<int>, k: int, x: int) {
    0 <= k < |fds|
    && var mid := Served(w, st, at, fds, k);
       !mid.quit && fds[k] in mid.callbacks && Queues(w, mid, fds[k], w.revents(at, fds[k]), x)
  }

  ghost predicate QueuedBy(w: World, st: State, at: nat, fds: seq<int>, x: int) {
    exists k :: QueuesAt(w, st, at, fds, k, x)
  }

  /** Nobody is forgotten. */
  ghost predicate Extends(a: map<int, Callback>, b: map<int, Callback>) {
    forall x :: x in a ==> x in b && b[x] == a[x]
  }

  lemma PollsOne(w: World, st: State, fd: int, r: Revents)
    requires Inv(st) && !st.quit && fd in st.callbacks
    ensures var st' := PollOne(w, st, fd, r);
            && Inv(st') && Extends(st.callbacks, st'.callbacks)
            && Joined(st.removeQueue, st'.removeQueue, x => Queues(w, st, fd, r, x))
  {
    PollOneInv(w, st, fd, r);
    assert Open(st, fd);
    if st.callbacks[fd].OnServer? {
      ServerPolled(w, st, r);
    } else {
      PollQueues(w, st, fd, r);
    }
  }

  lemma ServedLater(w: World, st: State, at: nat, fds: seq<int>, k: nat)
    requires fds != [] && !st.quit && k < |fds|
    ensures Served(w, st, at, fds, k + 1) == Served(w, PollOne(w, st, fds[0], w.revents(at, fds[0])), at, fds[1..], k)
  {
    assert fds[..k + 1][0] == fds[0] && fds[..k + 1][1..] == fds[1..][..k];
  }

  lemma QueuesLater(w: World, st: State, at: nat, fds: seq<int>, k: nat, x: int)
    requires fds != [] && !st.quit && k < |fds| - 1
    ensures QueuesAt(w, st, at, fds, k + 1, x)
            <==> QueuesAt(w, PollOne(w, st, fds[0], w.revents(at, fds[0])), at, fds[1..], k, x)
  {
    ServedLater(w, st, at, fds, k);
    assert fds[1..][k] == fds[k + 1];
  }

  lemma QueuesFirst(w: World, st: State, at: nat, fds: seq<int>, x: int)
    requires fds != [] && !st.quit && fds[0] in st.callbacks
    ensures QueuesAt(w, st, at, fds, 0, x) <==> Queues(w, st, fds[0], w.revents(at, fds[0]), x)
  {
    assert fds[..0] == [];
  }

  /** Exactly what the callbacks of a turn queue: what each of them does in its turn, until one quits. */
  lemma {:induction false} PollsQueue(w: World, st: State, at: nat, fds: seq<int>)
    requires Inv(st) && forall fd :: fd in fds ==> fd in st.callbacks
    ensures var r := PollFrom(w, st, at, fds);
            && Extends(st.callbacks, r.callbacks)
            && Joined(st.removeQueue, r.removeQueue, x => QueuedBy(w, st, at, fds, x))
    decreases |fds|
  {
    if fds == [] || st.quit {
      NoneServed(w, st, at, fds);
    } else {
      var fd, rest := fds[0], fds[1..];
      var next := PollOne(w, st, fd, w.revents(at, fd));
      assert fd in fds;
      PollsOne(w, st, fd, w.revents(at, fd));
      PollsQueue(w, next, at, rest);
      FirstAndRest(w, st, at, fds);
      Chained(st.removeQueue, next.removeQueue, PollFrom(w, next, at, rest).removeQueue,
              x => Queues(w, st, fd, w.revents(at, fd), x), x => QueuedBy(w, next, at, rest, x),
              x => QueuedBy(w, st, at, fds, x));
    }
  }

  lemma NoneServed(w: World, st: State, at: nat, fds: seq<int>)
    requires fds == [] || st.quit
    ensures PollFrom(w, st, at, fds) == st && forall x :: !QueuedBy(w, st, at, fds, x)
  {
    forall k, x
      ensures !QueuesAt(w, st, at, fds, k, x)
    {
      if 0 <= k < |fds| {
        assert Served(w, st, at, fds, k) == st;
      }
    }
  }

  lemma FirstAndRest(w: World, st: State, at: nat, fds: seq<int>)
    requires fds != [] && !st.quit && fds[0] in st.callbacks
    ensures var next := PollOne(w, st, fds[0], w.revents(at, fds[0]));
            forall x :: QueuedBy(w, st, at, fds, x)
                        <==> Queues(w, st, fds[0], w.revents(at, fds[0]), x) || QueuedBy(w, next, at, fds[1..], x)
  {
    var next := PollOne(w, st, fds[0], w.revents(at, fds[0]));
    forall x
      ensures QueuedBy(w, st, at, fds, x)
              <==> Queues(w, st, fds[0], w.revents(at, fds[0]), x) || QueuedBy(w, next, at, fds[1..], x)
    {
      QueuesFirst(w, st, at, fds, x);
      if k :| QueuesAt(w, st, at, fds, k, x) {
        if k > 0 {
          QueuesLater(w, st, at, fds, k - 1, x);
          assert QueuesAt(w, next, at, fds[1..], k - 1, x);
        }
      }
      if k :| QueuesAt(w, next, at, fds[1..], k, x) {
        QueuesLater(w, st, at, fds, k, x);
        assert QueuesAt(w, st, at, fds, k + 1, x);
      }
    }
  }

  /** A descriptor with an error or a hang-up waits for removal once all had their turn, unless one of
      them quits. */
  lemma FailedWaits(w: World, st: State, at: nat, fds: seq<int>, k: nat)
    requires Inv(st) && (forall fd :: fd in fds ==> fd in st.callbacks) && k < |fds| && fds[k] in st.callbacks
    requires !st.callbacks[fds[k]].OnServer? && (w.revents(at, fds[k]).error || w.revents(at, fds[k]).hup)
    requires !PollFrom(w, st, at, fds).quit
    ensures fds[k] in PollFrom(w, st, at, fds).removeQueue
  {
    var fd := fds[k];
    PollsQueue(w, st, at, fds);
    assert forall x :: x in fds[..k] ==> x in fds;
    PollsQueue(w, st, at, fds[..k]);
    PollsSplit(w, st, at, fds, k);
    assert fd in fds;
    assert QueuesAt(w, st, at, fds, k, fd) && QueuedBy(w, st, at, fds, fd);
  }

  lemma {:induction false} PollsSplit(w: World, st: State, at: nat, fds: seq<int>, k: nat)
    requires k <= |fds|
    ensures PollFrom(w, st, at, fds) == PollFrom(w, Served(w, st, at, fds, k), at, fds[k..])
    decreases k
  {
    if k == 0 {
      assert fds[0..] == fds && fds[..0] == [];
    } else if !st.quit {
      ServedLater(w, st, at, fds, k - 1);
      assert fds[1..][k - 1..] == fds[k..];
      PollsSplit(w, PollOne(w, st, fds[0], w.revents(at, fds[0])), at, fds[1..], k - 1);
    }
  }

  // ----- turns and runs -----

  lemma WaitingPolled(w: World, st: State, fd: int) returns (start: State, k: nat)
    requires Inv(st) && Upkept(st) && fd in Waiting(w, st).callbacks && !Waiting(w, st).callbacks[fd].OnOutput?
    ensures start == Tick(Waiting(w, st)) && Inv(start) && k < |start.polled| && start.polled[k] == fd
  {
    WaitingUpkept(w, st);
    start := Tick(Waiting(w, st));
    UnrelatedInv(Waiting(w, st), start);
    assert fd in start.polled;
    k :| 0 <= k < |start.polled| && start.polled[k] == fd;
  }

  lemma TurnFailedWaits(w: World, st: State, fd: int)
    requires Inv(st) && Upkept(st) && !Turn(w, st).quit && fd in Waiting(w, st).callbacks
    requires Waiting(w, st).callbacks[fd].OnClient? || Waiting(w, st).callbacks[fd].OnInput?
    requires var r := w.revents(Waiting(w, st).clock, fd); r.error || r.hup
    ensures fd in Turn(w, st).removeQueue
  {
    var start, k := WaitingPolled(w, st, fd);
    TurnPolls(w, st);
    FailedWaits(w, start, Waiting(w, st).clock, start.polled, k);
  }

  lemma TurnPolls(w: World, st: State)
    ensures var wait := Waiting(w, st);
            Turn(w, st) == if wait.quit then wait else PollFrom(w, Tick(wait), wait.clock, wait.polled)
  {}

  /** A descriptor is released, in order after what was released before, and is then in no table. */
  ghost predicate ReleasedIn(st: State, fd: int, r: State) {
    && fd in st.removeQueue && st.released + st.removeQueue <= r.released
    && fd !in r.callbacks && fd !in r.polled && !Open(r, fd)
  }

  /** In every run: what the callbacks of a turn queue is released in the next turn, before the daemon
      waits again. */
  lemma QueuedIsReleased(w: World, server: int, lines: seq<string>, n: nat, k: nat, fd: int)
    requires server >= 0
    requires var wait := Waiting(w, Run(w, Initial(server, lines), n));
             !wait.quit && QueuesAt(w, Tick(wait), wait.clock, wait.polled, k, fd)
    ensures var next := Turn(w, Run(w, Initial(server, lines), n)); ReleasedIn(next, fd, Waiting(w, next))
  {
    var st := KeptRun(w, server, lines, n);
    TurnQueues(w, st, k, fd);
    TurnReleases(w, Turn(w, st), fd);
  }

  lemma TurnQueues(w: World, st: State, k: nat, fd: int)
    requires Inv(st) && Upkept(st) && !Waiting(w, st).quit
    requires QueuesAt(w, Tick(Waiting(w, st)), Waiting(w, st).clock, Waiting(w, st).polled, k, fd)
    ensures fd in Turn(w, st).removeQueue
  {
    WaitingUpkept(w, st);
    var wait := Waiting(w, st);
    UnrelatedInv(wait, Tick(wait));
    TurnPolls(w, st);
    PollsQueue(w, Tick(wait), wait.clock, wait.polled);
    assert QueuedBy(w, Tick(wait), wait.clock, wait.polled, fd);
  }

  /** In every run: a client or an input that reports an error or a hang-up while the daemon waits is
      released before it waits again, unless it quits in between. */
  lemma FailedIsReleased(w: World, server: int, lines: seq<string>, n: nat, fd: int)
    requires server >= 0
    requires var st := Run(w, Initial(server, lines), n);
             && !Turn(w, st).quit && fd in Waiting(w, st).callbacks
             && (Waiting(w, st).callbacks[fd].OnClient? || Waiting(w, st).callbacks[fd].OnInput?)
             && var r := w.revents(Waiting(w, st).clock, fd); r.error || r.hup
    ensures var next := Turn(w, Run(w, Initial(server, lines), n)); ReleasedIn(next, fd, Waiting(w, next))
  {
    var st := KeptRun(w, server, lines, n);
    TurnFailedWaits(w, st, fd);
    TurnReleases(w, Turn(w, st), fd);
  }

  lemma KeptRun(w: World, server: int, lines: seq<string>, n: nat) returns (st: State)
    requires server >= 0
    ensures st == Run(w, Initial(server, lines), n) && Inv(st) && Upkept(st) && Inv(Turn(w, st))
  {
    InitialInv(server, lines);
    RunUpkept(w, Initial(server, lines), n);
    st := Run(w, Initial(server, lines), n);
    TurnInv(w, st);
  }

  lemma TurnReleases(w: World, st: State, fd: int)
    requires Inv(st) && fd in st.removeQueue
    ensures ReleasedIn(st, fd, Waiting(w, st))
  {
    DeferredRemoval(w, st);
  }
}
