/**
  In fair infinite runs of the hand-off every permit ends in a delivery: without failed writes
  and throwing handlers, every element pushed is handed over in the end.
 */
module HandoffLiveness {
  import opened Handoff

  type States<T> = nat -> State<T>
  type Actions<T> = nat -> Action<T>

  ghost predicate InfiniteRun<T>(f: States<T>, a: Actions<T>) {
    && Initial(f(0))
    && (forall n: nat :: StepAt(f, a, n))
  }

  ghost predicate StepAt<T>(f: States<T>, a: Actions<T>, n: nat) {
    Enabled(f(n), a(n)) && f(n + 1) == Next(f(n), a(n))
  }

  predicate ByConsumer<T>(a: Action<T>) {
    !(a.Arrive? || a.Lock? || a.Push? || a.Write? || a.Unlock?)
  }

  /** Nothing to do for the loop thread: the descriptor is not readable. */
  predicate Resting<T>(s: State<T>) {
    s.consumer.Idle? && s.counter == 0
  }

  /**
    The loop keeps running: unless there is nothing to read, the consumer gets on some time. So
    the mutex, once waited for, is obtained, and reads do not fail for ever.
   */
  ghost predicate Fair<T>(f: States<T>, a: Actions<T>) {
    forall n: nat :: GetsOn(f, a, n)
  }

  ghost predicate GetsOn<T>(f: States<T>, a: Actions<T>, n: nat) {
    exists m: nat :: n <= m && ((ByConsumer(a(m)) && a(m) != Shot(false)) || Resting(f(m)))
  }

  ghost predicate NoThrowsFrom<T>(a: Actions<T>, n: nat) {
    forall m: nat :: n <= m ==> !a(m).HandlerThrows?
  }

  lemma {:induction false} InvAlways<T>(f: States<T>, a: Actions<T>, n: nat)
    requires InfiniteRun(f, a)
    ensures Inv(f(n))
  {
    if n == 0 {
      InitialInv(f(0));
    } else {
      InvAlways(f, a, n - 1);
      assert StepAt(f, a, n - 1);
      StepInv(f(n - 1), a(n - 1));
    }
  }

  // Permits ----------------------------------------------------------------------------------

  /** Elements handed over, and those that permits in hand will still hand over. */
  function Promised<T>(s: State<T>): nat {
    |s.handed| + |InFlight(s.consumer)| + Permits(s.consumer) + s.counter
  }

  /** A permit is out for every element pushed but the one being pushed and the stranded. */
  lemma PromisedExactly<T>(s: State<T>)
    requires Inv(s)
    ensures Promised(s) + Unresolved(s) + Stranded(s) == |s.pushed|
  {
    assert |s.pushed| == |s.handed| + |InFlight(s.consumer)| + |s.deque|;
  }

  /** Steps of the consumer to the next delivery, roughly. */
  function Phase<T>(c: Consumer<T>): nat {
    match c
    case Handling(_) => 7
    case Batch(left) => if left == 0 then 6 else 4
    case Idle => 5
    case Popping(_) => 3
    case Popped(_, _) => 2
    case Delivering(_, _) => 1
    case Corrupt => 0
  }

  /** From `s` to `s'` nothing was lost, and a delivery was made or none is further away. */
  predicate NotBehind<T(==)>(s: State<T>, s': State<T>) {
    && Promised(s) <= Promised(s') && s.handed <= s'.handed && s.pushed <= s'.pushed
    && (|s.handed| < |s'.handed| || Phase(s'.consumer) <= Phase(s.consumer))
  }

  lemma StepNotBehind<T>(s: State<T>, a: Action<T>)
    requires Inv(s) && Enabled(s, a) && !a.HandlerThrows?
    ensures NotBehind(s, Next(s, a))
    ensures ByConsumer(a) && a != Shot(false) && !Resting(s) ==>
              |s.handed| < |Next(s, a).handed| || Phase(Next(s, a).consumer) < Phase(s.consumer)
  {
    StepConserved(s, a);
  }

  lemma NotBehindTransitive<T>(s: State<T>, s': State<T>, s'': State<T>)
    requires NotBehind(s, s') && NotBehind(s', s'')
    ensures NotBehind(s, s'')
  {
  }

  lemma {:induction false} NeverBehind<T>(f: States<T>, a: Actions<T>, n: nat, m: nat)
    requires InfiniteRun(f, a) && NoThrowsFrom(a, n) && n <= m
    ensures NotBehind(f(n), f(m))
    decreases m - n
  {
    if n == m {
    } else {
      var k := m - 1;
      NeverBehind(f, a, n, k);
      InvAlways(f, a, k);
      assert StepAt(f, a, k);
      StepNotBehind(f(k), a(k));
      NotBehindTransitive(f(n), f(k), f(m));
    }
  }

  function ToGo<T>(s: State<T>, goal: nat): nat {
    if |s.handed| < goal then goal - |s.handed| else 0
  }

  lemma {:induction false} PromiseIsKept<T>(f: States<T>, a: Actions<T>, n: nat, goal: nat) returns (m: nat)
    requires InfiniteRun(f, a) && Fair(f, a) && NoThrowsFrom(a, n) && goal <= Promised(f(n))
    ensures n <= m && goal <= |f(m).handed| && f(n).pushed <= f(m).pushed
    decreases ToGo(f(n), goal), Phase(f(n).consumer)
  {
    if goal <= |f(n).handed| {
      m := n;
    } else {
      assert GetsOn(f, a, n);
      var k: nat :| n <= k && ((ByConsumer(a(k)) && a(k) != Shot(false)) || Resting(f(k)));
      NeverBehind(f, a, n, k);
      if goal <= |f(k).handed| {
        m := k;
      } else {
        InvAlways(f, a, k);
        assert !Resting(f(k));
        assert StepAt(f, a, k);
        StepNotBehind(f(k), a(k));
        m := PromiseIsKept(f, a, k + 1, goal);
      }
    }
  }

  /**
    Whatever has failed before: if no handler throws any more, every element but the last few,
    as many as have no permit now, is handed over in the end, in its place.
   */
  lemma EveryPermitDelivers<T>(f: States<T>, a: Actions<T>, n: nat, p: nat) returns (m: nat)
    requires InfiniteRun(f, a) && Fair(f, a) && NoThrowsFrom(a, n)
    requires p < |f(n).pushed| - Unresolved(f(n)) - Stranded(f(n))
    ensures n <= m && p < |f(m).handed| && f(m).handed[p] == f(n).pushed[p]
  {
    InvAlways(f, a, n);
    PromisedExactly(f(n));
    m := PromiseIsKept(f, a, n, p + 1);
    InvAlways(f, a, m);
    assert f(m).handed <= f(m).pushed;
  }

  // Without failures -------------------------------------------------------------------------

  ghost predicate NoFailures<T>(a: Actions<T>) {
    NoThrowsFrom(a, 0) && forall m: nat :: a(m).Write? ==> a(m).ok
  }

  /** A producer that has pushed gets to write its permit. */
  ghost predicate ProducersGetOn<T>(f: States<T>, a: Actions<T>) {
    forall n: nat :: Unresolved(f(n)) == 1 ==> WriteComes(a, n)
  }

  ghost predicate WriteComes<T>(a: Actions<T>, n: nat) {
    exists m: nat :: n <= m && a(m).Write?
  }

  lemma {:induction false} NothingStranded<T>(f: States<T>, a: Actions<T>, n: nat)
    requires InfiniteRun(f, a) && NoFailures(a)
    ensures Stranded(f(n)) == 0
  {
    if n == 0 {
    } else {
      NothingStranded(f, a, n - 1);
      assert StepAt(f, a, n - 1);
      PermitsAreLostExactly(f(n - 1), a(n - 1));
    }
  }

  lemma WriteResolves<T>(s: State<T>, a: Action<T>)
    requires Inv(s) && Enabled(s, a) && a.Write?
    ensures Unresolved(Next(s, a)) == 0 && Next(s, a).pushed == s.pushed
  {
  }

  /**
    In every fair infinite run without failed writes and throwing handlers, every element pushed
    is handed over in the end, and in the place in which it was pushed.
   */
  lemma EveryElementIsHandedOver<T>(f: States<T>, a: Actions<T>, n: nat, p: nat) returns (m: nat)
    requires InfiniteRun(f, a) && Fair(f, a) && NoFailures(a) && ProducersGetOn(f, a)
    requires p < |f(n).pushed|
    ensures n <= m && p < |f(m).handed| && f(m).handed[p] == f(n).pushed[p]
  {
    if Unresolved(f(n)) == 0 {
      NothingStranded(f, a, n);
      m := EveryPermitDelivers(f, a, n, p);
    } else {
      assert WriteComes(a, n);
      var k: nat :| n <= k && a(k).Write?;
      InvAlways(f, a, k);
      assert StepAt(f, a, k);
      WriteResolves(f(k), a(k));
      NeverBehind(f, a, n, k + 1);
      NothingStranded(f, a, k + 1);
      m := EveryPermitDelivers(f, a, k + 1, p);
    }
  }
}
