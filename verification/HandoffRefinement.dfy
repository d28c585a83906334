/**
  The eventfd callback of the queue, as its method implements it, is a run of the hand-off
  machine, so conservation and order hold for it. It is the run that the outcome of the read, the
  handler and the arrivals during its calls settle.
 */
module HandoffRefinement {
  import opened Wrappers
  import Q = ThreadSafeQueue
  import opened Handoff

  // Which runs -------------------------------------------------------------------------------

  /**
    What one call of the callback has come to: the read to be made, the handler calls so far,
    what is still to arrive during the current one, whether a write is due and with what answer,
    and whether the call has thrown.
   */
  datatype Plan<T> = Plan(
    readDue: Option<bool>,
    calls: nat,
    arrivals: seq<Q.Arrival<T>>,
    writeDue: Option<bool>,
    threw: bool)

  /** The handler call in progress can end, and it ends with or without an exception. */
  predicate EndsBy<T>(handler: Q.Handler<T>, d: Plan<T>, throws: bool) {
    d.arrivals == [] && d.writeDue.None? && d.calls > 0 && handler(d.calls - 1).throws == throws
  }

  /** What is left after `a`, if it is what has to happen. */
  ghost function Follow<T>(handler: Q.Handler<T>, s: State<T>, d: Plan<T>, a: Action<T>): Option<Plan<T>>
    requires Enabled(s, a)
  {
    match a
    case Shot(ok) =>
      if d.readDue == Some(ok) then Some(d.(readDue := None, threw := !ok || s.counter == 0)) else None
    case Deliver => Some(d.(calls := d.calls + 1, arrivals := handler(d.calls).arrivals))
    case Push(pid) =>
      if d.arrivals != [] && d.arrivals[0].ele == s.producers[pid].ele && d.writeDue.None?
      then Some(d.(arrivals := d.arrivals[1..], writeDue := Some(d.arrivals[0].writeOk))) else None
    case Write(_, ok) =>
      if d.writeDue.Some? && ok == (d.writeDue.value && s.counter < COUNTER_MAX)
      then Some(d.(writeDue := None)) else None
    case HandlerReturns => if EndsBy(handler, d, false) then Some(d) else None
    case HandlerThrows => if EndsBy(handler, d, true) then Some(d.(threw := true)) else None
    case _ => Some(d)
  }

  datatype Point<T> = Point(s: State<T>, d: Plan<T>)

  ghost predicate Obeys<T>(handler: Q.Handler<T>, p: Point<T>, actions: seq<Action<T>>, p': Point<T>)
    decreases |actions|
  {
    if actions == [] then p' == p
    else
      && Enabled(p.s, actions[0]) && Follow(handler, p.s, p.d, actions[0]).Some?
      && Obeys(handler, Point(Next(p.s, actions[0]), Follow(handler, p.s, p.d, actions[0]).value), actions[1..], p')
  }

  lemma {:induction false} Join<T>(
    handler: Q.Handler<T>, o: Point<T>, a: seq<Action<T>>, p: Point<T>, b: seq<Action<T>>, p': Point<T>)
    requires Obeys(handler, o, a, p) && Obeys(handler, p, b, p')
    ensures Obeys(handler, o, a + b, p')
    decreases |a|
  {
    if a == [] {
      assert a + b == b;
    } else {
      Join(handler, Point(Next(o.s, a[0]), Follow(handler, o.s, o.d, a[0]).value), a[1..], p, b, p');
      assert (a + b)[1..] == a[1..] + b;
    }
  }

  lemma Both<T>(
    handler: Q.Handler<T>, o: Point<T>, a: seq<Action<T>>, p: Point<T>, b: seq<Action<T>>, p': Point<T>)
    returns (longer: seq<Action<T>>)
    requires Obeys(handler, o, a, p) && Obeys(handler, p, b, p')
    ensures Obeys(handler, o, longer, p')
  {
    Join(handler, o, a, p, b, p');
    longer := a + b;
  }

  lemma Then<T>(handler: Q.Handler<T>, o: Point<T>, actions: seq<Action<T>>, p: Point<T>, a: Action<T>)
    returns (longer: seq<Action<T>>, p': Point<T>)
    requires Obeys(handler, o, actions, p) && Enabled(p.s, a) && Follow(handler, p.s, p.d, a).Some?
    ensures p' == Point(Next(p.s, a), Follow(handler, p.s, p.d, a).value) && Obeys(handler, o, longer, p')
  {
    longer, p' := actions + [a], Point(Next(p.s, a), Follow(handler, p.s, p.d, a).value);
    assert [a][1..] == [] && Obeys(handler, p', [], p');
    assert Obeys(handler, p, [a], p');
    Join(handler, o, actions, p, [a], p');
  }

  lemma {:induction false} ObeysIsRun<T>(handler: Q.Handler<T>, p: Point<T>, actions: seq<Action<T>>, p': Point<T>)
    requires Obeys(handler, p, actions, p')
    ensures IsRun(p.s, actions) && RunFrom(p.s, actions) == p'.s
    decreases |actions|
  {
    if actions == [] {
    } else {
      var p1 := Point(Next(p.s, actions[0]), Follow(handler, p.s, p.d, actions[0]).value);
      ObeysIsRun(handler, p1, actions[1..], p');
    }
  }

  // Pieces of a call -------------------------------------------------------------------------

  /** The mutex is free, and `pid` is not the identity of a producer. */
  predicate Settled<T>(s: State<T>, pid: Pid) {
    s.holder.None? && !At(s, pid)
  }

  /** The read is made, and nothing is due. */
  predicate Between<T>(d: Plan<T>) {
    d.readDue.None? && |d.arrivals| == 0 && d.writeDue.None?
  }

  /** What the queue and its callback have of the machine's state. */
  function Shown<T>(s: State<T>): Q.Progress<T> {
    Q.Progress(s.handed, s.deque, s.counter)
  }

  /** The next arrival is one whole call of enqueue; its write is answered as planned. */
  lemma SimulateEnqueue<T>(handler: Q.Handler<T>, p: Point<T>, pid: Pid)
    returns (actions: seq<Action<T>>, p': Point<T>)
    requires Settled(p.s, pid) && p.d.arrivals != [] && p.d.writeDue.None?
    ensures Obeys(handler, p, actions, p') && Settled(p'.s, pid)
    ensures p'.d == p.d.(arrivals := p.d.arrivals[1..]) && p'.s.consumer == p.s.consumer && p'.s.handed == p.s.handed
    ensures p'.s.deque == p.s.deque + [p.d.arrivals[0].ele]
    ensures p'.s.counter == p.s.counter + (if p.d.arrivals[0].writeOk && p.s.counter < COUNTER_MAX then 1 else 0)
  {
    actions, p' := Then(handler, p, [], p, Arrive(pid, p.d.arrivals[0].ele));
    actions, p' := Then(handler, p, actions, p', Lock(pid));
    actions, p' := Then(handler, p, actions, p', Push(pid));
    actions, p' := Then(handler, p, actions, p', Write(pid, p.d.arrivals[0].writeOk && p.s.counter < COUNTER_MAX));
    actions, p' := Then(handler, p, actions, p', Unlock(pid));
  }

  lemma {:induction false} SimulateArrivals<T>(
    handler: Q.Handler<T>, p: Point<T>, pid: Pid, deque: seq<T>, counter: nat)
    returns (actions: seq<Action<T>>, p': Point<T>)
    requires Settled(p.s, pid) && p.d.writeDue.None?
    requires deque == p.s.deque + Q.Elements(p.d.arrivals) && counter == Q.CounterAfter(p.s.counter, p.d.arrivals)
    ensures Obeys(handler, p, actions, p') && Settled(p'.s, pid) && p'.d == p.d.(arrivals := [])
    ensures p'.s.consumer == p.s.consumer && Shown(p'.s) == Q.Progress(p.s.handed, deque, counter)
    decreases |p.d.arrivals|
  {
    if p.d.arrivals == [] {
      actions, p' := [], p;
    } else {
      var x, rest := p.d.arrivals[0].ele, Q.Elements(p.d.arrivals[1..]);
      var first, p1 := SimulateEnqueue(handler, p, pid);
      assert p.s.deque + [x] + rest == p.s.deque + ([x] + rest);
      actions, p' := SimulateArrivals(handler, p1, pid, deque, counter);
      actions := Both(handler, p, first, p1, actions, p');
    }
  }

  /** dequeue: the mutex is taken and the front popped. */
  lemma SimulatePop<T>(handler: Q.Handler<T>, p: Point<T>) returns (actions: seq<Action<T>>, p': Point<T>)
    requires p.s.holder.None? && p.s.consumer.Batch? && p.s.consumer.left > 0 && p.s.deque != []
    ensures Obeys(handler, p, actions, p') && p'.d == p.d
    ensures p'.s == p.s.(consumer := Popped(p.s.consumer.left - 1, p.s.deque[0]), deque := p.s.deque[1..],
                         holder := Some(Holder.ByConsumer))
  {
    actions, p' := Then(handler, p, [], p, LockFront);
    actions, p' := Then(handler, p, actions, p', PopFront);
  }

  /** The batch loop from its test to the call of the handler. */
  lemma SimulateFront<T>(handler: Q.Handler<T>, p: Point<T>) returns (actions: seq<Action<T>>, p': Point<T>)
    requires p.s.holder.None? && p.s.consumer.Batch? && p.s.consumer.left > 0 && p.s.deque != []
    ensures Obeys(handler, p, actions, p')
    ensures p'.d == p.d.(calls := p.d.calls + 1, arrivals := handler(p.d.calls).arrivals)
    ensures p'.s.holder.None? && p'.s.producers == p.s.producers && p'.s.consumer == Handling(p.s.consumer.left - 1)
    ensures Shown(p'.s) == Q.Progress(p.s.handed + [p.s.deque[0]], p.s.deque[1..], p.s.counter)
  {
    actions, p' := SimulatePop(handler, p);
    actions, p' := Then(handler, p, actions, p', UnlockFront);
    actions, p' := Then(handler, p, actions, p', Deliver);
  }

  lemma SimulateTurn<T>(handler: Q.Handler<T>, p: Point<T>, pid: Pid) returns (actions: seq<Action<T>>, p': Point<T>)
    requires Settled(p.s, pid) && Between(p.d)
    requires p.s.consumer.Batch? && p.s.consumer.left > 0 && p.s.deque != []
    ensures Obeys(handler, p, actions, p') && Settled(p'.s, pid)
    ensures Shown(p'.s) == Q.AfterTurn(Shown(p.s), handler(p.d.calls).arrivals)
    ensures p'.d == p.d.(calls := p.d.calls + 1, threw := p.d.threw || handler(p.d.calls).throws)
    ensures p'.s.consumer == if handler(p.d.calls).throws then Idle else Handoff.Batch(p.s.consumer.left - 1)
  {
    var first, p1 := SimulateFront(handler, p);
    var turn := Q.AfterTurn(Shown(p.s), handler(p.d.calls).arrivals);
    var second, p2 := SimulateArrivals(handler, p1, pid, turn.deque, turn.counter);
    var both := Both(handler, p, first, p1, second, p2);
    var end := if handler(p.d.calls).throws then HandlerThrows else HandlerReturns;
    actions, p' := Then(handler, p, both, p2, end);
  }

  lemma {:induction false} SimulateBatch<T>(
    handler: Q.Handler<T>, p: Point<T>, pid: Pid, left: nat, end: Q.Progress<T>, outcome: Outcome)
    returns (actions: seq<Action<T>>, p': Point<T>)
    requires Settled(p.s, pid) && Between(p.d) && !p.d.threw
    requires p.s.consumer == Handoff.Batch(left) && left <= |p.s.deque|
    ensures Obeys(handler, p, actions, p') && Settled(p'.s, pid) && p'.s.consumer.Idle? && Between(p'.d)
    requires Q.BatchFrom(Shown(p.s), left, handler, p.d.calls) == (end, outcome)
    ensures Shown(p'.s) == end && (outcome.Thrown? <==> p'.d.threw)
    decreases left
  {
    if left == 0 {
      actions, p' := Then(handler, p, [], p, Finish);
    } else {
      actions, p' := SimulateTurn(handler, p, pid);
      if !handler(p.d.calls).throws {
        var p1, rest := p', [];
        rest, p' := SimulateBatch(handler, p1, pid, left - 1, end, outcome);
        actions := Both(handler, p, actions, p1, rest, p');
      }
    }
  }

  // A call -----------------------------------------------------------------------------------

  /**
    From every reachable state in which the consumer is idle and the mutex free, a call of the
    queue's eventfd callback is a run of the machine with the same deliveries, behind those of
    before, and the same deque, counter and outcome. In that run the read succeeds or fails as
    given, and the handler calls, their exceptions and the enqueues during them are those given.
   */
  lemma OnReadableIsARun<T(!new)>(s: State<T>, readOk: bool, handler: Q.Handler<T>)
    returns (actions: seq<Action<T>>, p: Point<T>)
    requires Reachable(s) && s.holder.None? && s.consumer.Idle?
    ensures Obeys(handler, Point(s, Plan(Some(readOk), 0, [], None, false)), actions, p)
    ensures IsRun(s, actions) && RunFrom(s, actions) == p.s
    ensures p.s.holder.None? && p.s.consumer.Idle?
    ensures Between(p.d)
    ensures s.counter <= |s.deque|
    ensures var (call, outcome) := Q.OnReadableFrom(Q.Progress([], s.deque, s.counter), readOk, handler);
            Shown(p.s) == Q.Prepend(s.handed, call) && (outcome.Thrown? <==> p.d.threw)
  {
    ReachableInv(s);
    var pid := FreshId(s.producers.Keys);
    assert s.handed + [] == s.handed;
    var o := Point(s, Plan(Some(readOk), 0, [], None, false));
    actions, p := Then(handler, o, [], o, Shot(readOk));
    if readOk && s.counter > 0 {
      Q.BatchAfterOthers(s.handed, Q.Progress([], s.deque, 0), s.counter, handler, 0);
      var p1, rest := p, [];
      var (end, outcome) := Q.BatchFrom(Shown(p1.s), s.counter, handler, 0);
      rest, p := SimulateBatch(handler, p1, pid, s.counter, end, outcome);
      actions := Both(handler, o, actions, p1, rest, p);
    }
    ObeysIsRun(handler, o, actions, p);
  }
}
