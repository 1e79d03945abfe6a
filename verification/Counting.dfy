/** Counting by positions: how often something holds in a sequence. */
module Counting {

  /** The positions at which it holds. */
  function Hits<T>(values: seq<T>, holds: T -> bool): set<nat> {
    set i: nat | i < |values| && holds(values[i])
  }

  lemma HitsGrow<T>(front: seq<T>, x: T, holds: T -> bool)
    ensures |Hits(front + [x], holds)| == |Hits(front, holds)| + if holds(x) then 1 else 0
    ensures Hits([], holds) == {}
  {
    if holds(x) {
      assert |front| !in Hits(front, holds);
      assert Hits(front + [x], holds) == Hits(front, holds) + {|front|};
    } else {
      assert Hits(front + [x], holds) == Hits(front, holds);
    }
  }
}
