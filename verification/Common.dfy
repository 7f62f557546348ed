/**
 What several of the models use.
 */
module Common {

  datatype Option<+T> = None | Some(value: T)

  predicate Sorted(s: seq<int>) { forall i, j | 0 <= i <= j < |s| :: s[i] <= s[j] }

  ghost predicate NoDup(path: seq<nat>) {
    forall i, j | 0 <= i < j < |path| :: path[i] != path[j]
  }

  function Pow2(k: nat): (r: nat)
    ensures r >= 1
  {
    if k == 0 then 1 else 2 * Pow2(k - 1)
  }

  lemma {:induction false} Pow2Monotone(i: nat, k: nat)
    requires i <= k
    ensures Pow2(i) <= Pow2(k)
    decreases k
  {
    if i < k { Pow2Monotone(i, k - 1); }
  }
}
