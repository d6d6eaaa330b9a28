/** Induction along a run, on any property of its moments. */
module Induction {

  /** What each moment hands on to the next lasts. */
  lemma {:induction false} Forwards(so: nat -> bool, i: nat, j: nat)
    requires i <= j && so(i) && forall k: nat :: i <= k < j && so(k) ==> so(k + 1)
    ensures so(j)
  {
    if i < j {
      Forwards(so, i, j - 1);
      assert so(j - 1 + 1);
    }
  }

  /** What was so before whenever it was so, was so all along. */
  lemma {:induction false} Backwards(so: nat -> bool, j: nat, i: nat)
    requires j <= i && so(i) && forall k: nat :: 0 < k <= i && so(k) ==> so(k - 1)
    ensures so(j)
  {
    if j < i {
      assert so(i - 1);
      Backwards(so, j, i - 1);
    }
  }
}
