/** Small things shared by the models: optional values, call outcomes, the eventfd limit. */
module Wrappers {
  datatype Option<+T> = None | Some(value: T)

  /** A call returns normally or throws. */
  datatype Outcome = Done | Thrown

  // An eventfd counter never exceeds 2^64 - 2.
  const COUNTER_MAX: nat := 0xFFFF_FFFF_FFFF_FFFE

  /** A number above all of a set, to name something new with. */
  lemma {:induction false} FreshId(ids: set<nat>) returns (id: nat)
    ensures forall k :: k in ids ==> k < id
    decreases |ids|
  {
    if ids == {} {
      id := 0;
    } else {
      var k :| k in ids;
      var others := ids - {k};
      id := FreshId(others);
      assert ids == others + {k};
      if id <= k {
        id := k + 1;
      }
    }
  }
}
