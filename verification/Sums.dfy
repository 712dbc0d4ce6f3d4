/**
 Sums of natural numbers, for counting over all threads.
 */
module Sums {

  function Sum(s: seq<nat>): nat {
    if s == [] then 0 else Sum(s[..|s|-1]) + s[|s|-1]
  }

  lemma {:induction false} SumAt(s: seq<nat>, s': seq<nat>, n: nat)
    requires n < |s| == |s'| && forall m :: 0 <= m < |s| && m != n ==> s'[m] == s[m]
    ensures Sum(s') + s[n] == Sum(s) + s'[n]
  {
    var last := |s| - 1;
    if n < last {
      SumAt(s[..last], s'[..last], n);
    } else {
      assert s'[..last] == s[..last];
    }
  }
}
