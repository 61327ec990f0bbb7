/** Sums of a natural measure over a sequence, and how they change when it drops. */
module Sums {

  function Sum<T>(weight: T -> nat, a: seq<T>): nat {
    if a == [] then 0 else Sum(weight, a[..|a| - 1]) + weight(a[|a| - 1])
  }

  lemma {:induction false} SumDrops<T>(weight: T -> nat, a: seq<T>, b: seq<T>, at: int)
    requires |a| == |b|
    requires forall k | 0 <= k < |a| :: weight(b[k]) <= weight(a[k])
    ensures Sum(weight, b) + (if 0 <= at < |a| && weight(b[at]) < weight(a[at]) then 1 else 0) <= Sum(weight, a)
  {
    if a == [] {
    } else {
      var n := |a| - 1;
      SumDrops(weight, a[..n], b[..n], at);
    }
  }

  lemma {:induction false} SumIsZeroIff<T>(weight: T -> nat, a: seq<T>)
    ensures Sum(weight, a) == 0 <==> forall k | 0 <= k < |a| :: weight(a[k]) == 0
  {
    if a == [] {
    } else {
      var n := |a| - 1;
      SumIsZeroIff(weight, a[..n]);
      assert forall k | 0 <= k < n :: a[..n][k] == a[k];
    }
  }
}
