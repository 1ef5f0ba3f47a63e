/** Counting the positions of a list at which a condition holds, as the size of a set. */
module Counting {
  /** One index more is counted if the condition holds of the last element. */
  lemma OneMoreIndex(front: set<int>, all: set<int>, n: nat, last: bool)
    requires forall i :: i in front ==> 0 <= i < n
    requires forall i :: i in all <==> i in front || (last && i == n)
    ensures |all| == |front| + if last then 1 else 0
  {
    var more := if last then {n} else {};
    forall i ensures i in all <==> i in front + more {
    }
    assert all == front + more;
  }
}
