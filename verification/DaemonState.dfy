/** The daemon as a value: its tables and queues, and every operation as a function of them. */
module DaemonState {
  import opened Bytes
  import opened Devices
  import opened Protocol
  import opened Tokenizer
  import opened Replay
  import opened Numbers

  /** What the callbacks registered for a file descriptor belong to. */
  datatype Callback = OnServer | OnClient | OnInput(id: u16) | OnOutput

  datatype Input = Input(name: string, id: u16, fd: int, device: Device, realName: seq<byte>, persistent: bool)

  /** `log` is what was written to the output, message by message, until a write failed; `known` are
      the ids its other end is taken to hold when it is added. */
  datatype Output = Output(name: string, fd: int, resumed: bool, broken: bool, log: seq<Message>, since: nat,
                           known: set<u16>)

  datatype Command = Command(client: int, text: string)

  datatype HotkeyDef = HotkeyDef(device: u16, spec: HotkeySpec)

  /** An event that was read, with the state that decides what becomes of it. */
  datatype Sighting = Sighting(id: u16, event: InputEvent, current: int, writing: bool, hotkey: bool)

  datatype State = State(
    clock: nat,
    quit: bool,
    crashed: bool,
    server: int,
    callbacks: map<int, Callback>,
    clients: set<int>,
    addQueue: seq<int>,
    removeQueue: seq<int>,
    polled: seq<int>,
    commands: seq<Command>,
    freeIds: seq<u16>,
    inputs: seq<Input>,
    outputs: seq<Output>,
    current: int,
    currentName: string,
    writing: bool,
    hotkeys: map<HotkeyDef, string>,
    // what happened, for the statements about whole runs
    seen: seq<Sighting>,
    released: seq<int>)

  datatype Opening = NotOpened | Opened(fd: int, device: Device)
  datatype Revents = Revents(error: bool, hup: bool, input: bool)

  /** What the operating system answers, for every point in time; `frees` says whether a completed
      removal gives the device id back, which the program as written does not do. */
  datatype World = World(
    frees: bool,
    opens: nat -> Opening,
    writes: (nat, int) -> bool,
    replies: nat -> bool,
    outcomes: nat -> bool,
    lines: nat -> Option<string>,
    events: nat -> Option<InputEvent>,
    revents: (nat, int) -> Revents)

  datatype Done = Done(state: State, ok: bool)

  function Tick(st: State): State {
    st.(clock := st.clock + 1)
  }

  // ----- tables -----

  /** The first index of a key, or the number of keys. */
  function IndexOf<T(==)>(keys: seq<T>, key: T): (k: nat)
    ensures k <= |keys| && (k < |keys| ==> keys[k] == key)
    ensures forall j :: 0 <= j < k ==> keys[j] != key
  {
    if keys == [] || keys[0] == key then 0 else 1 + IndexOf(keys[1..], key)
  }

  function InputNamed(inputs: seq<Input>, name: string): (k: nat)
    ensures k <= |inputs| && (k < |inputs| ==> inputs[k].name == name)
    ensures forall j :: 0 <= j < k ==> inputs[j].name != name
  {
    var keys := seq(|inputs|, i requires 0 <= i < |inputs| => inputs[i].name);
    assert forall j :: 0 <= j < |inputs| ==> keys[j] == inputs[j].name;
    IndexOf(keys, name)
  }

  function InputAt(inputs: seq<Input>, fd: int): (k: nat)
    ensures k <= |inputs| && (k < |inputs| ==> inputs[k].fd == fd)
    ensures forall j :: 0 <= j < k ==> inputs[j].fd != fd
  {
    var keys := seq(|inputs|, i requires 0 <= i < |inputs| => inputs[i].fd);
    assert forall j :: 0 <= j < |inputs| ==> keys[j] == inputs[j].fd;
    IndexOf(keys, fd)
  }

  function OutputNamed(outputs: seq<Output>, name: string): (k: nat)
    ensures k <= |outputs| && (k < |outputs| ==> outputs[k].name == name)
    ensures forall j :: 0 <= j < k ==> outputs[j].name != name
  {
    var keys := seq(|outputs|, i requires 0 <= i < |outputs| => outputs[i].name);
    assert forall j :: 0 <= j < |outputs| ==> keys[j] == outputs[j].name;
    IndexOf(keys, name)
  }

  function OutputAt(outputs: seq<Output>, fd: int): (k: nat)
    ensures k <= |outputs| && (k < |outputs| ==> outputs[k].fd == fd)
    ensures forall j :: 0 <= j < k ==> outputs[j].fd != fd
  {
    var keys := seq(|outputs|, i requires 0 <= i < |outputs| => outputs[i].fd);
    assert forall j :: 0 <= j < |outputs| ==> keys[j] == outputs[j].fd;
    IndexOf(keys, fd)
  }

  function Live(inputs: seq<Input>): set<u16> {
    set x | x in inputs :: x.id
  }

  predicate HasInput(inputs: seq<Input>, fd: int) {
    exists k :: 0 <= k < |inputs| && inputs[k].fd == fd
  }

  predicate HasOutput(outputs: seq<Output>, fd: int) {
    exists k :: 0 <= k < |outputs| && outputs[k].fd == fd
  }

  /** The order of the maps: lexicographic on the names. */
  predicate Before(a: string, b: string) {
    b != "" && (a == "" || a[0] < b[0] || (a[0] == b[0] && Before(a[1..], b[1..])))
  }

  /** Where a name belongs among names in order. */
  function Slot(names: seq<string>, name: string): (k: nat)
    ensures k <= |names|
  {
    if names == [] || Before(name, names[0]) then 0 else 1 + Slot(names[1..], name)
  }

  function InputSlot(inputs: seq<Input>, name: string): (k: nat)
    ensures k <= |inputs|
  {
    Slot(seq(|inputs|, i requires 0 <= i < |inputs| => inputs[i].name), name)
  }

  function OutputSlot(outputs: seq<Output>, name: string): (k: nat)
    ensures k <= |outputs|
  {
    Slot(seq(|outputs|, i requires 0 <= i < |outputs| => outputs[i].name), name)
  }

  function Insert<T>(xs: seq<T>, k: nat, x: T): (r: seq<T>)
    requires k <= |xs|
    ensures |r| == |xs| + 1 && r[k] == x
    ensures forall j :: 0 <= j < k ==> r[j] == xs[j]
    ensures forall j :: k < j < |r| ==> r[j] == xs[j - 1]
  {
    xs[..k] + [x] + xs[k..]
  }

  function Erase<T>(xs: seq<T>, k: nat): (r: seq<T>)
    requires k < |xs|
    ensures |r| == |xs| - 1
    ensures forall j :: 0 <= j < k ==> r[j] == xs[j]
    ensures forall j :: k <= j < |r| ==> r[j] == xs[j + 1]
  {
    xs[..k] + xs[k + 1..]
  }

  /** The open descriptors; the operating system hands out none of these. */
  predicate Open(st: State, fd: int) {
    fd == st.server || fd in st.clients || HasInput(st.inputs, fd) || HasOutput(st.outputs, fd)
  }

  /** What an open call yields; a descriptor that is in use already cannot come back. */
  function Opens(w: World, st: State): (r: Opening)
    ensures r.Opened? ==> r.fd >= 0 && !Open(st, r.fd)
  {
    var r := w.opens(st.clock);
    if r.Opened? && r.fd >= 0 && !Open(st, r.fd) then r else NotOpened
  }

  // ----- the removal queue -----

  function Queued(queue: seq<int>, fd: int): seq<int> {
    if fd < 0 || fd in queue then queue else queue + [fd]
  }

  function RemoveFD(st: State, fd: int): State {
    st.(removeQueue := Queued(st.removeQueue, fd))
  }

  // ----- writing to outputs -----

  function Deliver(o: Output, m: Message, ok: bool): Output {
    if !ok then o.(broken := true) else if o.broken then o else o.(log := o.log + [m])
  }

  /** During the drain only an output that is itself being removed may fail. */
  predicate WriteOk(w: World, clock: nat, removeQueue: seq<int>, draining: bool, fd: int) {
    w.writes(clock, fd) || (draining && fd !in removeQueue)
  }

  function DeliverAll(w: World, clock: nat, removeQueue: seq<int>, draining: bool, m: Message,
                      outputs: seq<Output>): (r: seq<Output>)
    ensures |r| == |outputs|
    ensures forall k :: 0 <= k < |outputs| ==>
              r[k] == Deliver(outputs[k], m, WriteOk(w, clock, removeQueue, draining, outputs[k].fd))
  {
    seq(|outputs|, k requires 0 <= k < |outputs| =>
      Deliver(outputs[k], m, WriteOk(w, clock, removeQueue, draining, outputs[k].fd)))
  }

  /** The queue after the failed outputs among the first `n` were dropped. */
  function DropFailed(w: World, clock: nat, removeQueue: seq<int>, draining: bool,
                      outputs: seq<Output>, n: nat): seq<int>
    requires n <= |outputs|
  {
    if n == 0 then removeQueue
    else
      var q := DropFailed(w, clock, removeQueue, draining, outputs, n - 1);
      if WriteOk(w, clock, removeQueue, draining, outputs[n - 1].fd) then q else Queued(q, outputs[n - 1].fd)
  }

  /** Writes one message to every output, in order; failing outputs are dropped. */
  function Broadcast(w: World, st: State, m: Message, draining: bool): State {
    st.(clock := st.clock + 1,
        outputs := DeliverAll(w, st.clock, st.removeQueue, draining, m, st.outputs),
        removeQueue := DropFailed(w, st.clock, st.removeQueue, draining, st.outputs, |st.outputs|))
  }

  /** Announces every input to a new output and stops at the first failure. */
  function AnnounceAll(w: World, clock: nat, o: Output, inputs: seq<Input>): Output
    decreases |inputs|
  {
    if inputs == [] then o
    else
      var o' := Deliver(o, Add(inputs[0].id, inputs[0].device), w.writes(clock, o.fd));
      if !w.writes(clock, o.fd) then o' else AnnounceAll(w, clock + 1, o', inputs[1..])
  }

  // ----- devices -----

  /** The next id and the free list without it: the last one freed, or the number of inputs. */
  function NextId(inputs: nat, free: seq<u16>): (u16, seq<u16>)
    requires inputs <= 0xffff
  {
    if free == [] then (inputs, []) else (free[|free| - 1], free[..|free| - 1])
  }

  /** Enters a new input into the tables and has it polled. */
  function RegisterInput(st: State, input: Input): State {
    st.(addQueue := st.addQueue + [input.fd],
        callbacks := st.callbacks[input.fd := OnInput(input.id)],
        inputs := Insert(st.inputs, InputSlot(st.inputs, input.name), input))
  }

  function AddInput(w: World, st: State, name: string): Done {
    if InputNamed(st.inputs, name) < |st.inputs| then Done(st, false)
    else if |st.inputs| > 0xffff then Done(st, false)
    else
      var (id, free) := NextId(|st.inputs|, st.freeIds);
      var opening := Opens(w, st);
      if opening.NotOpened? then Done(Tick(st).(freeIds := free + [id]), false)
      else
        var announced := Broadcast(w, Tick(st).(freeIds := free), Add(id, opening.device), false);
        var input := Input(name, id, opening.fd, opening.device,
                           opening.device.name[..NameLength(opening.device.name)], false);
        Done(RegisterInput(announced, input), true)
  }

  function RemoveInput(st: State, name: string): Done {
    var k := InputNamed(st.inputs, name);
    if k == |st.inputs| then Done(st, false) else Done(RemoveFD(st, st.inputs[k].fd), true)
  }

  /** One C character is one byte. */
  function ToBytes(s: string): (r: seq<byte>)
    ensures |r| == |s|
  {
    seq(|s|, i requires 0 <= i < |s| => s[i] as int % 0x100)
  }

  function RenameInput(st: State, name: string, to: seq<byte>): Done {
    var k := InputNamed(st.inputs, name);
    if k == |st.inputs| then Done(st, false)
    else
      var renamed := Renamed(st.inputs[k].device, to);
      if renamed.None? then Done(st, false)
      else Done(st.(inputs := st.inputs[k := st.inputs[k].(device := renamed.value)]), true)
  }

  function ResetName(st: State, name: string): Done {
    var k := InputNamed(st.inputs, name);
    if k == |st.inputs| then Done(st, false) else RenameInput(st, name, st.inputs[k].realName)
  }

  /** A value that is no boolean is reported, not refused. */
  function SetPersistent(st: State, name: string, on: Option<bool>): Done {
    var k := InputNamed(st.inputs, name);
    if k == |st.inputs| then Done(st, false)
    else if on.None? then Done(st, true)
    else Done(st.(inputs := st.inputs[k := st.inputs[k].(persistent := on.value)]), true)
  }

  function RemovalAnnounced(w: World, st: State, k: nat): State
    requires k < |st.inputs|
  {
    if st.inputs[k].persistent then st else Broadcast(w, st, Remove(st.inputs[k].id), true)
  }

  /** Forgets the hotkeys of an input and the input, and gives its id back or not. */
  function InputErased(st: State, k: nat, frees: bool): State
    requires k < |st.inputs|
  {
    var id := st.inputs[k].id;
    st.(hotkeys := map h | h in st.hotkeys && h.device != id :: st.hotkeys[h],
        inputs := Erase(st.inputs, k),
        freeIds := if frees then st.freeIds + [id] else st.freeIds)
  }

  /** The removal callback of a device: announce, forget its hotkeys, erase it. */
  function FinishDeviceRemoval(w: World, st: State, fd: int): State {
    var k := InputAt(st.inputs, fd);
    if k == |st.inputs| then st.(crashed := true) else InputErased(RemovalAnnounced(w, st, k), k, w.frees)
  }

  // ----- outputs -----

  /** Enters a new output into the tables; it is not polled, and callbacks already there stay. */
  function RegisterOutput(st: State, o: Output): State {
    st.(outputs := Insert(st.outputs, OutputSlot(st.outputs, o.name), o),
        callbacks := if o.fd in st.callbacks then st.callbacks else st.callbacks[o.fd := OnOutput])
  }

  /** Announces the inputs to a greeted output unless it resumes, and enters it; one that failed
      on the way is entered and dropped. */
  function EnterOutput(w: World, st: State, o: Output): State {
    Entered(st.(clock := st.clock + |st.inputs|), Announced(w, st.clock, o, st.inputs))
  }

  function Announced(w: World, clock: nat, o: Output, inputs: seq<Input>): Output {
    if o.resumed then o else AnnounceAll(w, clock, o, inputs)
  }

  function Entered(st: State, o: Output): State {
    DropIf(o.broken, RegisterOutput(st, o), o.fd)
  }

  function DropIf(broken: bool, st: State, fd: int): State {
    if broken then RemoveFD(st, fd) else st
  }

  function AddOutput(w: World, st: State, name: string, resume: bool): Done {
    if OutputNamed(st.outputs, name) < |st.outputs| then Done(st, false)
    else
      var opening := Opens(w, st);
      if opening.NotOpened? then Done(Tick(st), false)
      else if !w.writes(st.clock + 1, opening.fd) then Done(Tick(Tick(st)), false)
      else Done(EnterOutput(w, Tick(Tick(st)), NewOutput(st, name, opening.fd, resume)), true)
  }

  /** A new output; one that resumes is taken to know the inputs. */
  function NewOutput(st: State, name: string, fd: int, resume: bool): Output {
    Output(name, fd, resume, false, [Hello], |st.seen|, if resume then Live(st.inputs) else {})
  }

  function RemoveOutput(st: State, name: string): Done {
    var k := OutputNamed(st.outputs, name);
    if k == |st.outputs| then Done(st, false) else Done(RemoveFD(st, st.outputs[k].fd), true)
  }

  function UseOutput(st: State, name: string): Done {
    var k := OutputNamed(st.outputs, name);
    if k == |st.outputs| then Done(st, false)
    else Done(st.(current := st.outputs[k].fd, currentName := name), true)
  }

  function LostCurrentOutput(st: State): State {
    st.(current := -1, currentName := "<none>", writing := false)
  }

  function FinishOutputRemoval(st: State, fd: int): State {
    var st' := if st.current == fd then LostCurrentOutput(st) else st;
    var k := OutputAt(st'.outputs, fd);
    if k == |st'.outputs| then st'.(crashed := true) else st'.(outputs := Erase(st'.outputs, k))
  }

  // ----- hotkeys -----

  function AddHotkey(st: State, name: string, spec: Option<HotkeySpec>, text: string): Done {
    var k := InputNamed(st.inputs, name);
    if k == |st.inputs| || spec.None? then Done(st, false)
    else Done(st.(hotkeys := st.hotkeys[HotkeyDef(st.inputs[k].id, spec.value) := text]), true)
  }

  function RemoveHotkey(st: State, name: string, spec: Option<HotkeySpec>): Done {
    var k := InputNamed(st.inputs, name);
    if k == |st.inputs| || spec.None? then Done(st, false)
    else Done(st.(hotkeys := st.hotkeys - {HotkeyDef(st.inputs[k].id, spec.value)}), true)
  }

  // ----- what an argument list asks for -----

  datatype Switching = Set(on: bool) | Toggle | Unknown

  datatype Action =
    | Nothing
    | InputAdd(name: string)
    | InputRemove(name: string)
    | InputRename(name: string, to: seq<byte>)
    | InputResetName(name: string)
    | InputPersist(name: string, on: Option<bool>)
    | OutputAdd(name: string, resume: bool)
    | OutputRemove(name: string)
    | OutputUse(name: string)
    | HotkeyAdd(name: string, spec: Option<HotkeySpec>, text: string)
    | HotkeyRemove(name: string, spec: Option<HotkeySpec>)
    | WriteEvents(switching: Switching)
    | Grab(switching: Switching)
    | Quit
    | Outside
    | Malformed

  /** `strcasecmp` says equal. */
  predicate SameText(a: string, b: string) {
    SameUpTo(a, b, |a| + |b| + 1)
  }

  function ParseBool(s: string): Option<bool> {
    if SameText(s, "1") || SameText(s, "on") || SameText(s, "yes") || SameText(s, "true") then Some(true)
    else if SameText(s, "0") || SameText(s, "no") || SameText(s, "off") || SameText(s, "false") then Some(false)
    else None
  }

  function ParseSwitching(s: string): Switching {
    var on := ParseBool(s);
    if on.Some? then Set(on.value) else if SameText(s, "toggle") then Toggle else Unknown
  }

  function DeviceAction(args: seq<string>): Action {
    if |args| < 2 then Malformed
    else if args[1] == "add" then if |args| != 4 then Malformed else InputAdd(args[2])
    else if args[1] == "remove" then if |args| != 3 then Malformed else InputRemove(args[2])
    else if args[1] == "rename" then if |args| != 4 then Malformed else InputRename(args[2], ToBytes(args[3]))
    else if args[1] == "reset-name" then if |args| != 3 then Malformed else InputResetName(args[2])
    else if args[1] == "set-persistent" then
      if |args| != 4 then Malformed else InputPersist(args[2], ParseBool(args[3]))
    else Malformed
  }

  function OutputAction(args: seq<string>): Action {
    if |args| < 2 then Malformed
    else if args[1] == "add" then
      var resume := |args| > 2 && args[2] == "--resume";
      var at := if resume then 3 else 2;
      if at + 1 >= |args| then Malformed else OutputAdd(args[at], resume)
    else if args[1] == "remove" then if |args| != 3 then Malformed else OutputRemove(args[2])
    else if args[1] == "use" then if |args| != 3 then Malformed else OutputUse(args[2])
    else Malformed
  }

  /** The stored text is cut at its first NUL. */
  function HotkeyAction(args: seq<string>): Action {
    if |args| < 2 then Malformed
    else if args[1] == "add" then
      if |args| < 5 then Malformed
      else HotkeyAdd(args[2], ParseSpec(args[3]), CStr(JoinFrom("", ' ', args[4..])))
    else if args[1] == "remove" then
      if |args| != 4 then Malformed else HotkeyRemove(args[2], ParseSpec(args[3]))
    else Malformed
  }

  /** The meaning of an argument list; well-formed commands without effect on this state are all `Outside`. */
  function Interpret(args: seq<string>): Action {
    if args == [] || args[0] == "nop" then Nothing
    else if args[0] == "device" then DeviceAction(args)
    else if args[0] == "output" then OutputAction(args)
    else if args[0] == "hotkey" then HotkeyAction(args)
    else if args[0] == "write-events" then if |args| != 2 then Malformed else WriteEvents(ParseSwitching(args[1]))
    else if args[0] == "grab" then if |args| != 2 then Malformed else Grab(ParseSwitching(args[1]))
    else if args[0] == "use" then if |args| != 2 then Malformed else OutputUse(args[1])
    else if args[0] == "quit" then Quit
    else if OutsideCommand(args) then Outside
    else Malformed
  }

  /** With as many parameters as the command asks for. */
  predicate OutsideCommand(args: seq<string>)
    requires args != []
  {
    if args[0] == "info" then true
    else if args[0] == "grab-devices" then |args| == 2 && !ParseSwitching(args[1]).Unknown?
    else if args[0] == "exec" || args[0] == "exec&" then |args| >= 2
    else if args[0] == "source" then |args| == 2
    else
      args[0] == "action" && |args| >= 3
      && ((args[1] == "remove" && |args| == 3) || (args[1] == "set" && |args| >= 4))
  }

  // ----- executing commands -----

  function SwitchWriting(st: State, switching: Switching): Done {
    match switching
    case Set(on) => Done(st.(writing := on), true)
    case Toggle => Done(st.(writing := !st.writing), true)
    case Unknown => Done(st, false)
  }

  /** Grabbing itself and commands outside this state only succeed or fail. */
  function Exec(w: World, st: State, action: Action): Done {
    match action
    case Nothing => Done(st, true)
    case InputAdd(name) => AddInput(w, st, name)
    case InputRemove(name) => RemoveInput(st, name)
    case InputRename(name, to) => RenameInput(st, name, to)
    case InputResetName(name) => ResetName(st, name)
    case InputPersist(name, on) => SetPersistent(st, name, on)
    case OutputAdd(name, resume) => AddOutput(w, st, name, resume)
    case OutputRemove(name) => RemoveOutput(st, name)
    case OutputUse(name) => UseOutput(st, name)
    case HotkeyAdd(name, spec, text) => AddHotkey(st, name, spec, text)
    case HotkeyRemove(name, spec) => RemoveHotkey(st, name, spec)
    case WriteEvents(switching) => SwitchWriting(st, switching)
    case Grab(switching) => if w.outcomes(st.clock) then SwitchWriting(Tick(st), switching) else Done(Tick(st), false)
    case Quit => Done(st.(quit := true), true)
    case Outside => Done(Tick(st), w.outcomes(st.clock))
    case Malformed => Done(st, false)
  }

  /** The response to a client; a client that cannot be written to is dropped. */
  function Reply(w: World, st: State, client: int): State {
    if client < 0 then st
    else if w.replies(st.clock) then Tick(st)
    else RemoveFD(Tick(st), client)
  }

  /** The argument lists of one text; an error ends the text. */
  function RunAll(w: World, st: State, client: int, lists: seq<seq<string>>): State
    decreases |lists|
  {
    if lists == [] then st
    else
      var done := Exec(w, st, Interpret(lists[0]));
      var replied := Reply(w, done.state, client);
      if done.ok then RunAll(w, replied, client, lists[1..]) else replied
  }

  function RunQueue(w: World, st: State, queue: seq<Command>): State
    decreases |queue|
  {
    if queue == [] then st
    else RunQueue(w, RunAll(w, st, queue[0].client, Dispatches(queue[0].text)), queue[1..])
  }

  function ProcessCommands(w: World, st: State): State {
    RunQueue(w, st, st.commands).(commands := [])
  }

  // ----- the rest of one turn of the main loop -----

  /** Moves the new descriptors to the poll list. */
  function MergeAdds(st: State): State {
    st.(polled := st.polled + st.addQueue, addQueue := [])
  }

  function Without(fds: seq<int>, gone: seq<int>): (r: seq<int>)
    ensures forall fd :: fd in r <==> fd in fds && fd !in gone
  {
    if fds == [] then [] else (if fds[0] in gone then [] else [fds[0]]) + Without(fds[1..], gone)
  }

  function FilterPolled(st: State): State {
    st.(polled := Without(st.polled, st.removeQueue))
  }

  /** The removal callback of one descriptor. */
  function OnRemove(w: World, st: State, fd: int, cb: Callback): State {
    match cb
    case OnServer => st.(crashed := true)
    case OnClient => if fd in st.clients then st.(clients := st.clients - {fd}) else st.(crashed := true)
    case OnInput(_) => FinishDeviceRemoval(w, st, fd)
    case OnOutput => FinishOutputRemoval(st, fd)
  }

  function Forget(st: State, fd: int): State {
    st.(callbacks := st.callbacks - {fd}, released := st.released + [fd])
  }

  /** Runs the removal callback and forgets the callbacks. */
  function ReleaseOne(w: World, st: State, fd: int): State {
    if fd !in st.callbacks then st.(crashed := true) else Forget(OnRemove(w, st, fd, st.callbacks[fd]), fd)
  }

  function ReleaseFrom(w: World, st: State, queue: seq<int>): State
    decreases |queue|
  {
    if queue == [] then st else ReleaseFrom(w, ReleaseOne(w, st, queue[0]), queue[1..])
  }

  function ProcessRemoveQueue(w: World, st: State): State {
    ReleaseFrom(w, st, st.removeQueue).(removeQueue := [])
  }

  function NewCommandClient(w: World, st: State): State {
    var opening := Opens(w, st);
    if opening.NotOpened? then Tick(st).(quit := true)
    else
      Tick(st).(
        addQueue := st.addQueue + [opening.fd],
        callbacks := st.callbacks[opening.fd := OnClient],
        clients := st.clients + {opening.fd})
  }

  function ReadCommand(w: World, st: State, fd: int): State {
    var line := w.lines(st.clock);
    if line.None? then RemoveFD(Tick(st), fd)
    else Tick(st).(commands := st.commands + [Command(fd, line.value)])
  }

  predicate IsHotkey(st: State, id: u16, e: InputEvent) {
    e.kind < EV_CNT && HotkeyDef(id, HotkeySpec(e.kind, e.code, e.value)) in st.hotkeys
  }

  /** Delivers to the output with the given descriptor. */
  function DeliverTo(outputs: seq<Output>, fd: int, m: Message, ok: bool): (r: seq<Output>)
    ensures |r| == |outputs|
    ensures forall k :: 0 <= k < |outputs| ==>
              r[k] == if outputs[k].fd == fd then Deliver(outputs[k], m, ok) else outputs[k]
  {
    seq(|outputs|, k requires 0 <= k < |outputs| =>
      if outputs[k].fd == fd then Deliver(outputs[k], m, ok) else outputs[k])
  }

  /** A read event is a hotkey, or goes to the current output while writing is on, or is dropped. */
  function RouteEvent(w: World, st: State, id: u16, e: InputEvent): State {
    var hotkey := IsHotkey(st, id, e);
    var noted := Tick(st).(seen := st.seen + [Sighting(id, e, st.current, st.writing, hotkey)]);
    if hotkey then
      noted.(commands := st.commands + [Command(-1, st.hotkeys[HotkeyDef(id, HotkeySpec(e.kind, e.code, e.value))])])
    else if st.current == -1 || !st.writing then noted
    else
      var ok := w.writes(st.clock, st.current);
      var written := noted.(outputs := DeliverTo(st.outputs, st.current, Event(id, e), ok));
      if ok then written else LostCurrentOutput(RemoveFD(written, st.current))
  }

  function ReadFromDevice(w: World, st: State, fd: int, id: u16): State {
    var e := w.events(st.clock);
    if e.None? then RemoveFD(Tick(st), fd) else RouteEvent(w, st, id, e.value)
  }

  /** The error and the hang-up callback do the same. */
  function OnFailure(st: State, fd: int, cb: Callback): State {
    if cb.OnServer? then st.(quit := true) else RemoveFD(st, fd)
  }

  function OnRead(w: World, st: State, fd: int, cb: Callback): State {
    match cb
    case OnServer => NewCommandClient(w, st)
    case OnClient => ReadCommand(w, st, fd)
    case OnInput(id) => ReadFromDevice(w, st, fd, id)
    case OnOutput => RemoveFD(st, fd)
  }

  /** The callbacks of one polled descriptor. */
  function PollOne(w: World, st: State, fd: int, r: Revents): State {
    if fd !in st.callbacks then st.(crashed := true)
    else
      var cb := st.callbacks[fd];
      var st1 := if r.error then OnFailure(st, fd, cb) else st;
      if st1.quit then st1
      else
        var st2 := if r.hup then OnFailure(st1, fd, cb) else st1;
        if st2.quit then st2 else if r.input then OnRead(w, st2, fd, cb) else st2
  }

  function PollFrom(w: World, st: State, at: nat, fds: seq<int>): State
    decreases |fds|
  {
    if fds == [] || st.quit then st
    else PollFrom(w, PollOne(w, st, fds[0], w.revents(at, fds[0])), at, fds[1..])
  }

  /** One turn of the main loop. */
  function Turn(w: World, st: State): State {
    var drained := ProcessRemoveQueue(w, FilterPolled(MergeAdds(ProcessCommands(w, st))));
    if drained.quit then drained else PollFrom(w, Tick(drained), drained.clock, drained.polled)
  }

  /** The daemon after `n` turns; it stops turning once it has quit. */
  function Run(w: World, st: State, n: nat): State {
    if n == 0 then st
    else
      var before := Run(w, st, n - 1);
      if before.quit then before else Turn(w, before)
  }

  /** The daemon as it starts, with the command lines it was given. */
  function Initial(server: int, lines: seq<string>): State {
    State(0, false, false, server, map[server := OnServer], {}, [], [], [server],
          seq(|lines|, i requires 0 <= i < |lines| => Command(-1, lines[i])),
          [], [], [], -1, "", false, map[], [], [])
  }
}
