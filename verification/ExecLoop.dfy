/**
  exec, stop and the callbacks as an interleaving of atomic steps.

  One thread is inside exec; any number of stop calls, from other threads or from inside a
  callback, race with it over the run state, the exit code and the wake-up counter. A step is
  one atomic load, store, compare-exchange or system call, or a piece of loop-thread code
  between two of them. Callbacks are unconstrained: at every moment inside one, any command may
  follow.
 */
module ExecLoop {
  import opened Wrappers
  import opened Events
  import opened FdRegistry
  import opened Dispatch

  type StopId = nat

  // A call of stop ---------------------------------------------------------------------------

  datatype StopPc =
    | Entered  // about to compare-exchange Running with Stopping
    | Won      // about to store the exit code
    | Stored   // about to write the wake-up
    | Written  // returned
    | Failed   // the write failed: threw
    | Lost     // the exchange failed: returned without any effect

  datatype StopCall = StopCall(value: int, pc: StopPc)

  predicate Pending(pc: StopPc) { pc.Entered? || pc.Won? || pc.Stored? }

  predicate Winning(pc: StopPc) { pc.Won? || pc.Stored? || pc.Written? || pc.Failed? }

  predicate PastStore(pc: StopPc) { pc.Stored? || pc.Written? || pc.Failed? }

  // The loop thread --------------------------------------------------------------------------

  /** Event `i` of a batch, event type `k`. */
  datatype Frame = Frame(batch: Batch, i: nat, k: nat) {
    predicate Valid() { i < |batch| && k < |EVENT_TYPES| }
    function Fd(): Events.Fd requires Valid() { batch[i].fd }
    function Type(): EventType requires Valid() { EVENT_TYPES[k] }
    predicate Reported() requires Valid() { Type() in batch[i].mask }
  }

  datatype LoopPc =
    | NotStarted
    | Draining                           // about to read the wake-up descriptor
    | Checking                           // about to evaluate the condition of the outer loop
    | Waiting                            // in epoll_wait
    | Waited(batch: Batch)               // about to compare-exchange Stopping with Stopped
    | Testing(batch: Batch, i: nat)      // about to evaluate the condition of the inner loop
    | Finding(batch: Batch, i: nat)      // entered the dispatcher for event i
    | Examining(at: Frame, it: Iter)     // at an event type, holding a map iterator
    | Calling(at: Frame, func: CallbackId)  // about to call the copied function
    | InCallback(at: Frame, fuel: nat, nested: Option<StopId>)
    | Called(at: Frame)                  // about to check whether the queue still runs
    | Refinding(at: Frame)               // about to look the descriptor up again
    | Exiting                            // about to load the exit code
    | Returned(code: int, afterStore: bool)
    | Threw

  predicate Finished(pc: LoopPc) { pc.Returned? || pc.Threw? }

  /** Between a load that saw Running and the call that follows it. */
  predicate InWindow(pc: LoopPc) {
    pc.Finding? || pc.Examining? || pc.Calling? || pc.Refinding?
  }

  // States -----------------------------------------------------------------------------------

  datatype LogEntry =
    | Registered(fd: Fd, cbs: Callbacks)
    | Unregistered(fd: Fd)
    | Began(start: Start)

  /** What happened so far; no step reads it. */
  datatype History = History(
    entered: nat,        // exec calls that got past the compare-exchange
    wins: seq<StopId>,   // stop calls that did
    winAt: LoopPc,       // where the loop thread was at that moment
    stores: nat,         // stores to the exit code
    lateStarts: nat,     // callbacks begun while the state was not Running
    log: seq<LogEntry>)

  datatype Shared = Shared(
    state: RunState,
    exitCode: int,
    counter: nat,
    stops: map<StopId, StopCall>)

  datatype State = State(evtfd: Fd, wakeUp: CallbackId, q: Shared, reg: Registry, loop: LoopPc, hist: History)

  function Init(evtfd: Fd, wakeUp: CallbackId): State {
    State(evtfd, wakeUp, Shared(Idle, 1, 0, map[]), InitialRegistry(evtfd, wakeUp), NotStarted,
          History(0, [], NotStarted, 0, 0, [Registered(evtfd, WakeUpCallbacks(wakeUp))]))
  }

  // Steps ------------------------------------------------------------------------------------

  datatype LoopStep =
    | Drain(ok: bool)
    | Check
    | WaitReturns(batch: Batch)
    | WaitInterrupted
    | WaitFails
    | TryStopped
    | Test
    | Find
    | Examine
    | Begin(fuel: nat)
    | Change(op: Op, ctl: bool)
    | EnterStop(id: StopId, value: int)
    | NestedStop(written: bool)
    | Finish   // the callback returns or throws a std::exception
    | Escape   // the callback throws anything else
    | Retest
    | Refind
    | LoadCode

  datatype Action =
    | Exec                              // any call of exec reaches its compare-exchange
    | Loop(step: LoopStep)
    | NewStop(id: StopId, value: int)   // another thread calls stop
    | Stopper(id: StopId, written: bool)
    | Client(op: Op, ctl: bool)         // add, mod or del while no exec is under way
    | Close(fd: Fd)                     // any thread closes a descriptor, registered or not

  predicate LoopEnabled(s: State, step: LoopStep) {
    match step
    case Drain(_) => s.loop.Draining?
    case Check => s.loop.Checking?
    case WaitReturns(batch) => s.loop.Waiting? && 0 < |batch| <= MAX_EVENTS
    case WaitInterrupted => s.loop.Waiting?
    case WaitFails => s.loop.Waiting?
    case TryStopped => s.loop.Waited?
    case Test => s.loop.Testing?
    case Find => s.loop.Finding? && s.loop.i < |s.loop.batch|
    case Examine => s.loop.Examining? && (s.loop.at.Valid() || s.loop.at.k == |EVENT_TYPES|)
    case Begin(fuel) =>
      s.loop.Calling? && s.loop.at.Valid() && (s.loop.at.Fd() == s.evtfd ==> fuel == 0)
    case Change(op, _) =>
      s.loop.InCallback? && s.loop.nested.None? && s.loop.fuel > 0 && op.fd != s.evtfd
    case EnterStop(id, _) =>
      s.loop.InCallback? && s.loop.nested.None? && s.loop.fuel > 0 && id !in s.q.stops
    case NestedStop(written) =>
      s.loop.InCallback? && s.loop.nested.Some? && StopEnabled(s.q, s.loop.nested.value, written)
    case Finish => s.loop.InCallback? && s.loop.nested.None?
    case Escape => s.loop.InCallback? && s.loop.nested.None? && s.loop.fuel > 0
    case Retest => s.loop.Called?
    case Refind => s.loop.Refinding? && s.loop.at.Valid()
    case LoadCode => s.loop.Exiting?
  }

  /** An eventfd write of 1 cannot succeed when the counter is at its maximum. */
  predicate StopEnabled(q: Shared, id: StopId, written: bool) {
    && id in q.stops && Pending(q.stops[id].pc)
    && (q.stops[id].pc.Stored? && written ==> q.counter < COUNTER_MAX)
  }

  predicate NestedIn(pc: LoopPc, id: StopId) {
    pc.InCallback? && pc.nested == Some(id)
  }

  predicate Enabled(s: State, a: Action) {
    match a
    case Exec => true
    case Loop(step) => LoopEnabled(s, step)
    case NewStop(id, _) => id !in s.q.stops
    case Stopper(id, written) => StopEnabled(s.q, id, written) && !NestedIn(s.loop, id)
    case Client(op, _) => (s.loop.NotStarted? || Finished(s.loop)) && op.fd != s.evtfd
    case Close(fd) => fd != s.evtfd
  }

  // Calls of stop

  function AdvanceStop(s: State, id: StopId, written: bool): State
    requires StopEnabled(s.q, id, written)
  {
    var call := s.q.stops[id];
    match call.pc
    case Entered =>
      if s.q.state == Running then
        s.(q := s.q.(state := Stopping, stops := s.q.stops[id := call.(pc := Won)]),
           hist := s.hist.(wins := s.hist.wins + [id], winAt := s.loop))
      else
        s.(q := s.q.(stops := s.q.stops[id := call.(pc := Lost)]))
    case Won =>
      s.(q := s.q.(exitCode := call.value, stops := s.q.stops[id := call.(pc := Stored)]),
         hist := s.hist.(stores := s.hist.stores + 1))
    case _ =>
      if written then
        s.(q := s.q.(counter := s.q.counter + 1, stops := s.q.stops[id := call.(pc := Written)]))
      else
        s.(q := s.q.(stops := s.q.stops[id := call.(pc := Failed)]))
  }

  function NestedAdvance(s: State, written: bool): State
    requires LoopEnabled(s, NestedStop(written))
  {
    var id := s.loop.nested.value;
    var s' := AdvanceStop(s, id, written);
    if Pending(s'.q.stops[id].pc) then s' else s'.(loop := InCallback(s.loop.at, s.loop.fuel, None))
  }

  // Registry changes

  function LogOf(r: Registry, fd: Fd): LogEntry {
    if fd in r.fds then Registered(fd, r.fds[fd].cbs) else Unregistered(fd)
  }

  function ChangeRegistry(s: State, op: Op, ctl: bool): State {
    var r := Apply(s.reg, op, ctl).reg;
    s.(reg := r, hist := s.hist.(log := s.hist.log + [LogOf(r, op.fd)]))
  }

  // The loop thread

  /** Look the descriptor of event `i` up and go on at event type `k`. */
  function LookUp(s: State, batch: Batch, i: nat, k: nat): LoopPc
    requires i < |batch|
  {
    match FdRegistry.Find(s.reg, batch[i].fd)
    case None => Testing(batch, i + 1)
    case Some(it) => Examining(Frame(batch, i, k), it)
  }

  /** A dangling iterator is undefined behaviour; here it stops the thread. */
  function ExamineType(s: State): LoopPc
    requires LoopEnabled(s, Examine)
  {
    var at := s.loop.at;
    if at.k == |EVENT_TYPES| then Testing(at.batch, at.i + 1)
    else if !at.Reported() then Examining(at.(k := at.k + 1), s.loop.it)
    else if !Live(s.reg, s.loop.it) then Threw
    else
      match CbFunc(Deref(s.reg, s.loop.it), at.Type())
      case None => Examining(at.(k := at.k + 1), s.loop.it)
      case Some(func) => Calling(at, func)
  }

  function BeginCallback(s: State, fuel: nat): State
    requires LoopEnabled(s, Begin(fuel))
  {
    var at := s.loop.at;
    s.(loop := InCallback(at, fuel, None),
       hist := s.hist.(lateStarts := s.hist.lateStarts + (if s.q.state == Running then 0 else 1),
                       log := s.hist.log + [Began(Start(at.Fd(), at.Type(), s.loop.func))]))
  }

  function UseFuel(pc: LoopPc, nested: Option<StopId>): LoopPc
    requires pc.InCallback? && pc.fuel > 0
  {
    InCallback(pc.at, pc.fuel - 1, nested)
  }

  function NextLoop(s: State, step: LoopStep): State
    requires LoopEnabled(s, step)
  {
    var pc := s.loop;
    var running := s.q.state == Running;
    match step
    case Drain(ok) => if ok then s.(q := s.q.(counter := 0), loop := Checking) else s.(loop := Threw)
    case Check => s.(loop := if running then Waiting else Exiting)
    case WaitReturns(batch) => s.(loop := Waited(batch))
    case WaitInterrupted => s.(loop := Checking)
    case WaitFails => s.(q := s.q.(state := Error), loop := Threw)
    case TryStopped =>
      if s.q.state == Stopping then s.(q := s.q.(state := Stopped), loop := Exiting)
      else s.(loop := Testing(pc.batch, 0))
    case Test => s.(loop := if running && pc.i < |pc.batch| then Finding(pc.batch, pc.i) else Checking)
    case Find => s.(loop := LookUp(s, pc.batch, pc.i, 0))
    case Examine => s.(loop := ExamineType(s))
    case Begin(fuel) => BeginCallback(s, fuel)
    case Change(op, ctl) => ChangeRegistry(s.(loop := UseFuel(pc, None)), op, ctl)
    case EnterStop(id, value) =>
      s.(q := s.q.(stops := s.q.stops[id := StopCall(value, Entered)]),
         loop := UseFuel(pc, Some(id)))
    case NestedStop(written) => NestedAdvance(s, written)
    case Finish => s.(loop := Called(pc.at))
    case Escape => s.(loop := Threw)
    case Retest => s.(loop := if running then Refinding(pc.at) else Testing(pc.at.batch, pc.at.i + 1))
    case Refind => s.(loop := LookUp(s, pc.at.batch, pc.at.i, pc.at.k + 1))
    case LoadCode => s.(loop := Returned(s.q.exitCode, s.hist.stores > 0))
  }

  function Next(s: State, a: Action): State
    requires Enabled(s, a)
  {
    match a
    case Exec =>
      if s.q.state == Idle then
        s.(q := s.q.(state := Running), loop := Draining, hist := s.hist.(entered := s.hist.entered + 1))
      else s  // throws: not in idle state
    case Loop(step) => NextLoop(s, step)
    case NewStop(id, value) => s.(q := s.q.(stops := s.q.stops[id := StopCall(value, Entered)]))
    case Stopper(id, written) => AdvanceStop(s, id, written)
    case Client(op, ctl) => ChangeRegistry(s, op, ctl)
    case Close(fd) => s.(reg := Closed(s.reg, fd))
  }

  // Runs -------------------------------------------------------------------------------------

  predicate IsRun(s: State, actions: seq<Action>)
    decreases |actions|
  {
    actions == [] || (Enabled(s, actions[0]) && IsRun(Next(s, actions[0]), actions[1..]))
  }

  function RunFrom(s: State, actions: seq<Action>): State
    requires IsRun(s, actions)
    decreases |actions|
  {
    if actions == [] then s else RunFrom(Next(s, actions[0]), actions[1..])
  }
}
