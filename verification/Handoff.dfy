/**
  The multi-producer hand-off of ThreadSafeQueue over an eventfd, as an interleaving of atomic
  steps.

  Elements live in a deque behind a mutex, permits in the eventfd counter. The consumer takes
  all permits at once, outside the mutex, and then pops that many elements without looking
  whether there are any.
 */
module Handoff {
  import opened Wrappers

  type Pid = nat

  /** A call of enqueue. */
  datatype Producer<T> =
    | Arriving(ele: T)  // about to lock
    | Locked(ele: T)    // about to push
    | Pushed            // about to write the permit
    | Resolved          // written, or failed to; about to unlock

  /** The callback of the eventfd, on the loop thread. */
  datatype Consumer<T> =
    | Idle
    | Batch(left: nat)                // `left` elements still to hand over
    | Popping(left: nat)              // holds the mutex, about to read and pop the front
    | Popped(left: nat, ele: T)       // about to unlock
    | Delivering(left: nat, ele: T)   // about to call the handler
    | Handling(left: nat)
    | Corrupt                         // front() of an empty deque

  datatype Holder = ByProducer(pid: Pid) | ByConsumer

  /** The last four fields are history. */
  datatype State<T> = State(
    deque: seq<T>,
    counter: nat,
    holder: Option<Holder>,
    producers: map<Pid, Producer<T>>,
    consumer: Consumer<T>,
    pushed: seq<T>,      // in lock order
    handed: seq<T>,      // in the order of the handler's calls
    failedWrites: nat,
    dropped: nat)        // permits given up when a handler threw

  predicate Initial<T>(s: State<T>) {
    && s.deque == [] && s.counter == 0 && s.holder.None? && |s.producers| == 0 && s.consumer.Idle?
    && s.pushed == [] && s.handed == [] && s.failedWrites == 0 && s.dropped == 0
  }

  datatype Action<T> =
    | Arrive(pid: Pid, ele: T)
    | Lock(pid: Pid)
    | Push(pid: Pid)
    | Write(pid: Pid, ok: bool)
    | Unlock(pid: Pid)
    | Shot(ok: bool)  // the descriptor is readable: read the counter
    | Finish
    | LockFront
    | PopFront
    | UnlockFront
    | Deliver
    | HandlerReturns
    | HandlerThrows

  predicate At<T>(s: State<T>, pid: Pid) {
    pid in s.producers
  }

  predicate Enabled<T>(s: State<T>, a: Action<T>) {
    match a
    case Arrive(pid, _) => pid !in s.producers
    case Lock(pid) => At(s, pid) && s.producers[pid].Arriving? && s.holder.None?
    case Push(pid) => At(s, pid) && s.producers[pid].Locked?
    case Write(pid, ok) => At(s, pid) && s.producers[pid].Pushed? && (ok ==> s.counter < COUNTER_MAX)
    case Unlock(pid) => At(s, pid) && s.producers[pid].Resolved?
    case Shot(_) => s.consumer.Idle?
    case Finish => s.consumer.Batch? && s.consumer.left == 0
    case LockFront => s.consumer.Batch? && s.consumer.left > 0 && s.holder.None?
    case PopFront => s.consumer.Popping? && s.consumer.left > 0
    case UnlockFront => s.consumer.Popped?
    case Deliver => s.consumer.Delivering?
    case HandlerReturns => s.consumer.Handling?
    case HandlerThrows => s.consumer.Handling?
  }

  function NextProducer<T>(s: State<T>, a: Action<T>): State<T>
    requires Enabled(s, a) && (a.Arrive? || a.Lock? || a.Push? || a.Write? || a.Unlock?)
  {
    match a
    case Arrive(pid, ele) => s.(producers := s.producers[pid := Arriving(ele)])
    case Lock(pid) =>
      s.(producers := s.producers[pid := Locked(s.producers[pid].ele)], holder := Some(ByProducer(pid)))
    case Push(pid) =>
      var ele := s.producers[pid].ele;
      s.(producers := s.producers[pid := Pushed], deque := s.deque + [ele], pushed := s.pushed + [ele])
    case Write(pid, ok) =>
      var s1 := s.(producers := s.producers[pid := Resolved]);
      if ok then s1.(counter := s.counter + 1) else s1.(failedWrites := s.failedWrites + 1)
    case Unlock(pid) => s.(producers := s.producers - {pid}, holder := None)
  }

  function NextConsumer<T>(s: State<T>, a: Action<T>): State<T>
    requires Enabled(s, a) && !(a.Arrive? || a.Lock? || a.Push? || a.Write? || a.Unlock?)
  {
    match a
    case Shot(ok) =>
      // read fails with EAGAIN on a zero counter; the callback throws before the batch loop
      if ok && s.counter > 0 then s.(consumer := Batch(s.counter), counter := 0) else s
    case Finish => s.(consumer := Idle)
    case LockFront => s.(consumer := Popping(s.consumer.left), holder := Some(ByConsumer))
    case PopFront =>
      if s.deque == [] then s.(consumer := Corrupt)
      else s.(consumer := Popped(s.consumer.left - 1, s.deque[0]), deque := s.deque[1..])
    case UnlockFront => s.(consumer := Delivering(s.consumer.left, s.consumer.ele), holder := None)
    case Deliver => s.(consumer := Handling(s.consumer.left), handed := s.handed + [s.consumer.ele])
    case HandlerReturns => s.(consumer := Batch(s.consumer.left))
    case HandlerThrows => s.(consumer := Idle, dropped := s.dropped + s.consumer.left)
  }

  function Next<T>(s: State<T>, a: Action<T>): State<T>
    requires Enabled(s, a)
  {
    if a.Arrive? || a.Lock? || a.Push? || a.Write? || a.Unlock? then NextProducer(s, a)
    else NextConsumer(s, a)
  }

  // Invariants -------------------------------------------------------------------------------

  function Permits<T>(c: Consumer<T>): nat {
    if c.Idle? || c.Corrupt? then 0 else c.left
  }

  function InFlight<T>(c: Consumer<T>): seq<T> {
    if c.Popped? || c.Delivering? then [c.ele] else []
  }

  /** 1 while some producer has pushed but not yet resolved its write. */
  function Unresolved<T>(s: State<T>): nat {
    if s.holder.Some? && s.holder.value.ByProducer? && At(s, s.holder.value.pid)
       && s.producers[s.holder.value.pid].Pushed? then 1 else 0
  }

  function Stranded<T>(s: State<T>): nat {
    s.failedWrites + s.dropped
  }

  ghost predicate MutexHeld<T>(s: State<T>) {
    && (forall pid :: At(s, pid) ==> (!s.producers[pid].Arriving? <==> s.holder == Some(ByProducer(pid))))
    && (s.holder.Some? && s.holder.value.ByProducer? ==> At(s, s.holder.value.pid))
    && (s.consumer.Popping? || s.consumer.Popped? <==> s.holder == Some(ByConsumer))
  }

  ghost predicate Conserved<T>(s: State<T>) {
    |s.deque| == s.counter + Permits(s.consumer) + Unresolved(s) + Stranded(s)
  }

  ghost predicate Fifo<T>(s: State<T>) {
    s.handed + InFlight(s.consumer) + s.deque == s.pushed
  }

  ghost predicate Inv<T>(s: State<T>) {
    && MutexHeld(s) && Conserved(s) && Fifo(s)
    && !s.consumer.Corrupt? && (s.consumer.Popping? ==> s.consumer.left > 0)
  }

  lemma StepMutex<T>(s: State<T>, a: Action<T>)
    requires MutexHeld(s) && Enabled(s, a) && !Next(s, a).consumer.Corrupt?
    ensures MutexHeld(Next(s, a))
  {
  }

  lemma StepConserved<T>(s: State<T>, a: Action<T>)
    requires MutexHeld(s) && Conserved(s) && !s.consumer.Corrupt? && Enabled(s, a)
    ensures Conserved(Next(s, a)) && !Next(s, a).consumer.Corrupt?
  {
  }

  lemma StepFifo<T>(s: State<T>, a: Action<T>)
    requires Fifo(s) && Enabled(s, a) && !Next(s, a).consumer.Corrupt?
    ensures Fifo(Next(s, a))
  {
  }

  lemma StepInv<T>(s: State<T>, a: Action<T>)
    requires Inv(s) && Enabled(s, a)
    ensures Inv(Next(s, a))
  {
    StepConserved(s, a);
    StepMutex(s, a);
    StepFifo(s, a);
  }

  // Runs -------------------------------------------------------------------------------------

  predicate IsRun<T>(s: State<T>, actions: seq<Action<T>>)
    decreases |actions|
  {
    actions == [] || (Enabled(s, actions[0]) && IsRun(Next(s, actions[0]), actions[1..]))
  }

  function RunFrom<T>(s: State<T>, actions: seq<Action<T>>): State<T>
    requires IsRun(s, actions)
    decreases |actions|
  {
    if actions == [] then s else RunFrom(Next(s, actions[0]), actions[1..])
  }

  ghost predicate Reachable<T(!new)>(s: State<T>) {
    exists s0: State<T>, actions :: Initial(s0) && IsRun(s0, actions) && RunFrom(s0, actions) == s
  }

  lemma {:induction false} RunKeepsInv<T>(s: State<T>, actions: seq<Action<T>>)
    requires Inv(s) && IsRun(s, actions)
    ensures Inv(RunFrom(s, actions))
    decreases |actions|
  {
    if actions == [] {
    } else {
      StepInv(s, actions[0]);
      RunKeepsInv(Next(s, actions[0]), actions[1..]);
    }
  }

  lemma InitialInv<T>(s: State<T>)
    requires Initial(s)
    ensures Inv(s)
  {
  }

  lemma ReachableInv<T(!new)>(s: State<T>)
    requires Reachable(s)
    ensures Inv(s)
  {
    var s0: State<T>, actions :| Initial(s0) && IsRun(s0, actions) && RunFrom(s0, actions) == s;
    InitialInv(s0);
    RunKeepsInv(s0, actions);
  }

  /**
    Exact conservation: every element in the deque is matched by a permit in the counter, a
    permit in the consumer's batch, a producer about to write its permit, or a lost permit.
   */
  lemma PermitsMatchElements<T(!new)>(s: State<T>)
    requires Reachable(s)
    ensures |s.deque| == s.counter + Permits(s.consumer) + Unresolved(s) + Stranded(s)
  {
    ReachableInv(s);
  }

  /** The batch loop never reads the front of an empty deque, and reads the oldest element. */
  lemma DequeueFindsElement<T(!new)>(s: State<T>)
    requires Reachable(s) && s.consumer.Popping?
    ensures s.deque != [] && Enabled(s, PopFront)
    ensures |s.handed| < |s.pushed| && s.deque[0] == s.pushed[|s.handed|]
    ensures Next(s, PopFront).consumer == Popped(s.consumer.left - 1, s.pushed[|s.handed|])
  {
    ReachableInv(s);
    assert s.pushed == s.handed + s.deque;
  }

  /** Elements reach the handler in lock order, each at most once, even across throws. */
  lemma FifoExactlyOnce<T(!new)>(s: State<T>)
    requires Reachable(s)
    ensures s.handed + InFlight(s.consumer) + s.deque == s.pushed
  {
    ReachableInv(s);
  }

  /** A permit is lost exactly by a failed write, or by a throw with permits left in the batch. */
  lemma PermitsAreLostExactly<T>(s: State<T>, a: Action<T>)
    requires Enabled(s, a)
    ensures Stranded(Next(s, a)) ==
            Stranded(s) + (if a.Write? && !a.ok then 1 else if a.HandlerThrows? then s.consumer.left else 0)
  {
  }

  /** Lost permits are never made up for: that many elements stay undelivered for ever. */
  lemma {:induction false} StrandedForEver<T>(s: State<T>, actions: seq<Action<T>>)
    requires Inv(s) && IsRun(s, actions)
    ensures Stranded(s) <= Stranded(RunFrom(s, actions))
    ensures |RunFrom(s, actions).pushed| - |RunFrom(s, actions).handed| >= Stranded(s)
    decreases |actions|
  {
    if actions == [] {
      assert |s.pushed| == |s.handed| + |InFlight(s.consumer)| + |s.deque|;
    } else {
      StepInv(s, actions[0]);
      PermitsAreLostExactly(s, actions[0]);
      StrandedForEver(Next(s, actions[0]), actions[1..]);
    }
  }

  /** The descriptor is readable exactly while an element is left that has a permit. */
  lemma NoLostWakeUp<T(!new)>(s: State<T>)
    requires Reachable(s) && s.consumer.Idle? && Unresolved(s) == 0
    ensures s.counter > 0 <==> |s.deque| > Stranded(s)
  {
    ReachableInv(s);
  }

  /** At rest everything but the stranded elements has been delivered; all of it iff none is. */
  lemma AtRest<T(!new)>(s: State<T>)
    requires Reachable(s) && s.consumer.Idle? && s.counter == 0 && Unresolved(s) == 0
    ensures |s.deque| == Stranded(s)
    ensures s.handed <= s.pushed && |s.pushed| - |s.handed| == Stranded(s)
    ensures s.handed == s.pushed <==> s.failedWrites == 0 && s.dropped == 0
  {
    ReachableInv(s);
    assert s.pushed == s.handed + s.deque;
  }

  /** Permits written so far, and those of them turned into an element by the batch loop. */
  function Written<T>(s: State<T>): int {
    |s.pushed| - Unresolved(s) - s.failedWrites
  }

  function Consumed<T>(s: State<T>): int {
    Written(s) - s.counter - Permits(s.consumer) - s.dropped
  }

  lemma StepGrows<T>(s: State<T>, a: Action<T>)
    requires Enabled(s, a)
    ensures s.pushed <= Next(s, a).pushed && s.handed <= Next(s, a).handed
  {
  }

  /**
    Where the element `ele`, pushed `p`-th, is: handed over `p`-th, about to be, or in the deque
    with as many elements before it as permits are to be consumed first.
   */
  ghost predicate InPlace<T>(s: State<T>, p: nat, ele: T) {
    && Consumed(s) == |s.handed| + |InFlight(s.consumer)|
    && if p < |s.handed| then s.handed[p] == ele
       else if p < Consumed(s) then InFlight(s.consumer) == [ele]
       else p - Consumed(s) < |s.deque| && s.deque[p - Consumed(s)] == ele
  }

  /**
    Every element keeps its place in line, its own permit written or not: the one pushed `p`-th
    leaves the deque exactly when the permits consumed exceed `p`, and is the `p`-th handed over.
   */
  lemma {:induction false} PlaceInLine<T>(s: State<T>, actions: seq<Action<T>>, p: nat)
    requires Inv(s) && IsRun(s, actions) && p < |s.pushed|
    ensures var s' := RunFrom(s, actions);
            s.pushed <= s'.pushed && InPlace(s', p, s.pushed[p])
    decreases |actions|
  {
    if actions == [] {
      assert |s.pushed| == |s.handed| + |InFlight(s.consumer)| + |s.deque|;
    } else {
      StepInv(s, actions[0]);
      StepGrows(s, actions[0]);
      PlaceInLine(Next(s, actions[0]), actions[1..], p);
    }
  }

  /**
    An enqueue whose write fails throws, but its element stays in line behind all others and
    takes the next permit that nobody before it has used.
   */
  lemma FailedEnqueueKeepsItsPlace<T(!new)>(s: State<T>, pid: Pid, actions: seq<Action<T>>)
    requires Reachable(s) && Enabled(s, Write(pid, false)) && IsRun(Next(s, Write(pid, false)), actions)
    ensures s.deque != [] && s.pushed != [] && s.deque[|s.deque| - 1] == s.pushed[|s.pushed| - 1]
    ensures var p := |s.pushed| - 1;
            InPlace(RunFrom(Next(s, Write(pid, false)), actions), p, s.pushed[p])
  {
    ReachableInv(s);
    assert Unresolved(s) == 1;
    StepInv(s, Write(pid, false));
    PlaceInLine(Next(s, Write(pid, false)), actions, |s.pushed| - 1);
  }
}
