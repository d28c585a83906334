/**
  The objects behind the hand-off: the eventfd wrapper and the queue over it.

  What happens on other threads and inside handlers while a batch is being handed over is a
  parameter: for each handler call, the enqueues that take effect during it and whether it
  throws.
 */
module ThreadSafeQueue {
  import opened Wrappers

  /** The kernel refuses a write that would take the counter past its maximum. */
  function Written(counter: nat, value: nat, ok: bool): (nat, Outcome) {
    if ok && counter + value <= COUNTER_MAX then (counter + value, Done) else (counter, Thrown)
  }

  class EventFd {
    const semaphore: bool
    var counter: nat

    constructor (semaphore: bool)
      ensures this.semaphore == semaphore && counter == 0
    {
      this.semaphore := semaphore;
      counter := 0;
    }

    method Add(value: nat, ok: bool) returns (outcome: Outcome)
      modifies this
      ensures (counter, outcome) == Written(old(counter), value, ok)
      ensures outcome.Done? <==> ok && old(counter) + value <= COUNTER_MAX
      ensures counter == old(counter) + if outcome.Done? then value else 0
    {
      if ok && counter + value <= COUNTER_MAX {
        counter := counter + value;
        outcome := Done;
      } else {
        outcome := Thrown;
      }
    }

    /** The read that precedes the handler: it takes the whole count, or 1 from a semaphore. */
    method Read(ok: bool) returns (value: Option<nat>)
      modifies this
      ensures value.Some? <==> ok && old(counter) > 0
      ensures value.Some? ==> value.value == if semaphore then 1 else old(counter)
      ensures counter == old(counter) - (if value.Some? then value.value else 0)
    {
      if !ok || counter == 0 {
        return None;
      }
      var taken := if semaphore then 1 else counter;
      counter := counter - taken;
      return Some(taken);
    }
  }

  // Interference -----------------------------------------------------------------------------

  datatype Arrival<T> = Arrival(ele: T, writeOk: bool)

  /** One handler call: what is enqueued while it runs, and whether it throws. */
  datatype Reaction<T> = Reaction(arrivals: seq<Arrival<T>>, throws: bool)
  type Handler<T> = nat -> Reaction<T>

  function Elements<T>(arrivals: seq<Arrival<T>>): (s: seq<T>)
    ensures |s| == |arrivals|
  {
    if arrivals == [] then [] else [arrivals[0].ele] + Elements(arrivals[1..])
  }

  lemma {:induction false} ElementsAppend<T>(a: seq<Arrival<T>>, b: seq<Arrival<T>>)
    ensures Elements(a + b) == Elements(a) + Elements(b)
    decreases |a|
  {
    if a == [] {
      assert a + b == b;
    } else {
      assert (a + b)[1..] == a[1..] + b;
      ElementsAppend(a[1..], b);
    }
  }

  function CounterAfter<T>(counter: nat, arrivals: seq<Arrival<T>>): nat
    decreases |arrivals|
  {
    if arrivals == [] then counter
    else CounterAfter(Written(counter, 1, arrivals[0].writeOk).0, arrivals[1..])
  }

  /** Everything that arrives during `m` handler calls from the `n`-th on, in order. */
  function Arrivals<T>(handler: Handler<T>, n: nat, m: nat): seq<Arrival<T>>
    decreases m
  {
    if m == 0 then [] else handler(n).arrivals + Arrivals(handler, n + 1, m - 1)
  }

  lemma {:induction false} CounterAfterAppend<T>(counter: nat, a: seq<Arrival<T>>, b: seq<Arrival<T>>)
    ensures CounterAfter(counter, a + b) == CounterAfter(CounterAfter(counter, a), b)
    decreases |a|
  {
    if a == [] {
      assert a + b == b;
    } else {
      assert (a + b)[1..] == a[1..] + b;
      CounterAfterAppend(Written(counter, 1, a[0].writeOk).0, a[1..], b);
    }
  }

  /** An arrival brings at most one permit, and exactly one if its write succeeds. */
  lemma {:induction false} CounterGrowth<T>(counter: nat, arrivals: seq<Arrival<T>>)
    ensures counter <= CounterAfter(counter, arrivals) <= counter + |arrivals|
    decreases |arrivals|
  {
    if arrivals == [] {
    } else {
      CounterGrowth(Written(counter, 1, arrivals[0].writeOk).0, arrivals[1..]);
    }
  }

  /** How many of the arrivals are answered with a successful write, if there is room. */
  function WritesOk<T>(arrivals: seq<Arrival<T>>): nat {
    if arrivals == [] then 0 else (if arrivals[0].writeOk then 1 else 0) + WritesOk(arrivals[1..])
  }

  /** Below the limit of the counter, the permits are exactly those written successfully. */
  lemma {:induction false} CounterExactly<T>(counter: nat, arrivals: seq<Arrival<T>>)
    requires counter + |arrivals| <= COUNTER_MAX
    ensures CounterAfter(counter, arrivals) == counter + WritesOk(arrivals)
    decreases |arrivals|
  {
    if arrivals == [] {
    } else {
      CounterExactly(Written(counter, 1, arrivals[0].writeOk).0, arrivals[1..]);
    }
  }

  // A batch ----------------------------------------------------------------------------------

  /** What has been handed over, and the deque and counter at that moment. */
  datatype Progress<T> = Progress(handed: seq<T>, deque: seq<T>, counter: nat)

  /** One turn of the batch loop: the front is handed over, and meanwhile elements arrive. */
  function AfterTurn<T>(p: Progress<T>, arrivals: seq<Arrival<T>>): (p': Progress<T>)
    requires p.deque != []
    ensures |p'.handed| == |p.handed| + 1 && |p'.deque| >= |p.deque| - 1
  {
    Progress(p.handed + [p.deque[0]], p.deque[1..] + Elements(arrivals), CounterAfter(p.counter, arrivals))
  }

  /** `left` turns, the next handler call being the `n`-th; a handler that throws ends them. */
  function BatchFrom<T>(p: Progress<T>, left: nat, handler: Handler<T>, n: nat): (Progress<T>, Outcome)
    requires left <= |p.deque|
    decreases left
  {
    if left == 0 then (p, Done)
    else
      var p' := AfterTurn(p, handler(n).arrivals);
      if handler(n).throws then (p', Thrown) else BatchFrom(p', left - 1, handler, n + 1)
  }

  /** The eventfd callback: the read takes all permits, or fails and throws. */
  function OnReadableFrom<T>(p: Progress<T>, readOk: bool, handler: Handler<T>): (Progress<T>, Outcome)
    requires p.counter <= |p.deque|
  {
    if readOk && p.counter > 0 then BatchFrom(p.(counter := 0), p.counter, handler, 0) else (p, Thrown)
  }

  /** A batch runs for all its turns, or up to and including the first handler call that throws. */
  lemma {:induction false} BatchLength<T>(p: Progress<T>, left: nat, handler: Handler<T>, n: nat) returns (turns: nat)
    requires left <= |p.deque|
    ensures var (p', outcome) := BatchFrom(p, left, handler, n);
            && |p'.handed| == |p.handed| + turns
            && turns <= left && (left > 0 ==> turns > 0)
            && (outcome.Done? ==> turns == left)
            && (outcome.Thrown? <==> turns > 0 && handler(n + turns - 1).throws)
            && (forall j :: n <= j < n + turns - 1 ==> !handler(j).throws)
    decreases left
  {
    if left == 0 {
      turns := 0;
    } else if handler(n).throws {
      turns := 1;
    } else {
      turns := BatchLength(AfterTurn(p, handler(n).arrivals), left - 1, handler, n + 1);
      turns := turns + 1;
    }
  }

  /**
    After `m` turns the elements handed over followed by the deque are those of before with the
    arrivals behind them, and the counter holds exactly the arrivals' permits.
   */
  ghost predicate InOrder<T>(p: Progress<T>, p': Progress<T>, arrivals: seq<Arrival<T>>) {
    && p'.handed + p'.deque == p.handed + p.deque + Elements(arrivals)
    && p'.counter == CounterAfter(p.counter, arrivals)
  }

  lemma TurnInOrder<T>(p: Progress<T>, arrivals: seq<Arrival<T>>)
    requires p.deque != []
    ensures InOrder(p, AfterTurn(p, arrivals), arrivals)
  {
    var more := Elements(arrivals);
    assert p.handed + [p.deque[0]] + (p.deque[1..] + more) == p.handed + ([p.deque[0]] + p.deque[1..]) + more;
    assert [p.deque[0]] + p.deque[1..] == p.deque;
  }

  lemma InOrderTransitive<T>(p: Progress<T>, p': Progress<T>, p'': Progress<T>, a: seq<Arrival<T>>, b: seq<Arrival<T>>)
    requires InOrder(p, p', a) && InOrder(p', p'', b)
    ensures InOrder(p, p'', a + b)
  {
    ElementsAppend(a, b);
    CounterAfterAppend(p.counter, a, b);
    assert p.handed + p.deque + Elements(a) + Elements(b) == p.handed + p.deque + (Elements(a) + Elements(b));
  }

  /** A batch hands over the oldest elements in order; what arrives meanwhile queues up behind. */
  lemma {:induction false} BatchInOrder<T>(p: Progress<T>, left: nat, handler: Handler<T>, n: nat, turns: nat)
    requires left <= |p.deque|
    requires |BatchFrom(p, left, handler, n).0.handed| == |p.handed| + turns
    ensures InOrder(p, BatchFrom(p, left, handler, n).0, Arrivals(handler, n, turns))
    decreases left
  {
    if left == 0 {
      assert Elements<T>([]) == [];
    } else {
      var now := handler(n).arrivals;
      var p1 := AfterTurn(p, now);
      TurnInOrder(p, now);
      if handler(n).throws {
        assert Arrivals(handler, n, 1) == now + Arrivals(handler, n + 1, 0) == now;
      } else {
        var more := BatchLength(p1, left - 1, handler, n + 1);
        assert more == turns - 1;
        BatchInOrder(p1, left - 1, handler, n + 1, more);
        InOrderTransitive(p, p1, BatchFrom(p1, left - 1, handler, n + 1).0, now, Arrivals(handler, n + 1, more));
      }
    }
  }

  /** After a batch no permit is without its element, and order and number are as promised. */
  lemma BatchKeepsPermits<T>(p: Progress<T>, left: nat, handler: Handler<T>)
    requires p.handed == [] && p.counter == 0 && left <= |p.deque|
    ensures var (p', outcome) := BatchFrom(p, left, handler, 0);
            && p'.counter <= |p'.deque|
            && p'.handed + p'.deque == p.deque + Elements(Arrivals(handler, 0, |p'.handed|))
            && (outcome.Done? ==> |p'.handed| == left)
  {
    var turns := BatchLength(p, left, handler, 0);
    BatchInOrder(p, left, handler, 0, turns);
    CounterGrowth(0, Arrivals(handler, 0, turns));
    var p' := BatchFrom(p, left, handler, 0).0;
    assert p.handed + p.deque == p.deque;
    assert |p'.handed| + |p'.deque| == |p'.handed + p'.deque|;
  }

  /** The same batch seen with more elements handed over before it. */
  function Prepend<T>(h: seq<T>, p: Progress<T>): Progress<T> {
    p.(handed := h + p.handed)
  }

  lemma {:induction false} BatchAfterOthers<T>(h: seq<T>, p: Progress<T>, left: nat, handler: Handler<T>, n: nat)
    requires left <= |p.deque|
    ensures var (p', outcome) := BatchFrom(p, left, handler, n);
            BatchFrom(Prepend(h, p), left, handler, n) == (Prepend(h, p'), outcome)
    decreases left
  {
    if left == 0 {
    } else {
      var now := handler(n).arrivals;
      assert h + p.handed + [p.deque[0]] == h + (p.handed + [p.deque[0]]);
      assert AfterTurn(Prepend(h, p), now) == Prepend(h, AfterTurn(p, now));
      if !handler(n).throws {
        BatchAfterOthers(h, AfterTurn(p, now), left - 1, handler, n + 1);
      }
    }
  }

  // The queue --------------------------------------------------------------------------------

  class ThreadSafeQueue<T> {
    const eventFd: EventFd
    var deque: seq<T>

    /** Outside a batch every permit has its element. */
    ghost predicate Valid()
      reads this, eventFd
    {
      !eventFd.semaphore && eventFd.counter <= |deque|
    }

    constructor ()
      ensures Valid() && fresh(eventFd)
      ensures deque == [] && eventFd.counter == 0
    {
      deque := [];
      eventFd := new EventFd(false);
    }

    /** The element is queued even when the permit cannot be written. */
    method Enqueue(ele: T, writeOk: bool) returns (outcome: Outcome)
      modifies this, eventFd
      ensures deque == old(deque) + [ele]
      ensures (eventFd.counter, outcome) == Written(old(eventFd.counter), 1, writeOk)
      ensures outcome.Done? <==> writeOk && old(eventFd.counter) < COUNTER_MAX
      ensures eventFd.counter == old(eventFd.counter) + if outcome.Done? then 1 else 0
      ensures old(Valid()) ==> Valid()
    {
      deque := deque + [ele];
      outcome := eventFd.Add(1, writeOk);
    }

    /** There is no check for an element: finding one is up to the caller. */
    method Dequeue() returns (ele: T)
      requires deque != []
      modifies this
      ensures [ele] + deque == old(deque)
    {
      ele := deque[0];
      deque := deque[1..];
    }

    method EnqueueAll(arrivals: seq<Arrival<T>>)
      modifies this, eventFd
      ensures deque == old(deque) + Elements(arrivals)
      ensures eventFd.counter == CounterAfter(old(eventFd.counter), arrivals)
    {
      for j := 0 to |arrivals|
        invariant deque == old(deque) + Elements(arrivals[..j])
        invariant CounterAfter(eventFd.counter, arrivals[j..]) == CounterAfter(old(eventFd.counter), arrivals)
      {
        var outcome := Enqueue(arrivals[j].ele, arrivals[j].writeOk);
        assert arrivals[j..][1..] == arrivals[j + 1..];
        assert arrivals[..j + 1] == arrivals[..j] + [arrivals[j]];
        ElementsAppend(arrivals[..j], [arrivals[j]]);
      }
      assert arrivals[..|arrivals|] == arrivals;
    }

    /** One turn of the batch loop: pop the front and let the handler have it. */
    method HandOver(reaction: Reaction<T>) returns (ele: T)
      requires deque != []
      modifies this, eventFd
      ensures ele == old(deque)[0] && deque == old(deque)[1..] + Elements(reaction.arrivals)
      ensures eventFd.counter == CounterAfter(old(eventFd.counter), reaction.arrivals)
    {
      ele := Dequeue();
      EnqueueAll(reaction.arrivals);
    }

    /**
      The callback installed by onElement. It hands over as many elements as the counter had
      permits, oldest first, and stops early only at a handler that throws. What arrives
      meanwhile stays queued behind them.
     */
    method OnReadable(readOk: bool, handler: Handler<T>) returns (handed: seq<T>, outcome: Outcome)
      requires Valid()
      modifies this, eventFd
      ensures Valid()
      ensures (Progress(handed, deque, eventFd.counter), outcome) ==
              OnReadableFrom(Progress([], old(deque), old(eventFd.counter)), readOk, handler)
      ensures handed + deque == old(deque) + Elements(Arrivals(handler, 0, |handed|))
      ensures outcome.Done? ==> readOk && |handed| == old(eventFd.counter) > 0
      ensures outcome.Thrown? ==>
                !readOk || old(eventFd.counter) == 0 || (handed != [] && handler(|handed| - 1).throws)
    {
      handed := [];
      var value := eventFd.Read(readOk);
      if value.None? {
        return handed, Thrown;
      }
      ghost var start := Progress([], deque, 0);
      BatchKeepsPermits(start, value.value, handler);
      var i: nat := value.value;
      while i > 0
        invariant i <= |deque| && i + |handed| == value.value
        invariant BatchFrom(Progress(handed, deque, eventFd.counter), i, handler, |handed|)
               == BatchFrom(start, value.value, handler, 0)
      {
        var reaction := handler(|handed|);
        var ele := HandOver(reaction);
        handed := handed + [ele];
        if reaction.throws {
          return handed, Thrown;
        }
        i := i - 1;
      }
      outcome := Done;
    }
  }
}
