/** Calls that fail: which of them is given beforehand, and how many have is counted. */
module Faults {
  /** How many of the first `n` chances to fail were taken. */
  function FailCount(failing: set<nat>, n: nat): nat {
    if n == 0 then 0 else FailCount(failing, n - 1) + if n - 1 in failing then 1 else 0
  }

  /** The count grew exactly when one of the calls in between failed. */
  lemma {:induction false} FailCountGrows(failing: set<nat>, from: nat, to: nat)
    requires from <= to
    ensures FailCount(failing, from) <= FailCount(failing, to)
    ensures FailCount(failing, from) < FailCount(failing, to) <==> !NoneFails(failing, from, to)
  {
    if from < to {
      FailCountGrows(failing, from, to - 1);
    }
  }

  /** None of these calls fails. */
  ghost predicate NoneFails(failing: set<nat>, from: nat, to: nat) {
    forall k :: from <= k < to ==> k !in failing
  }
}
