/** Repeating a step any number of times. */
module Iteration {
  ghost predicate Iterates<S(!new)>(step: (S, S) -> bool, s: S, n: nat, t: S) {
    if n == 0 then t == s else exists u :: Iterates(step, s, n - 1, u) && step(u, t)
  }

  /** One step before the others. */
  lemma {:induction false} IteratesLater<S(!new)>(step: (S, S) -> bool, s: S, u: S, n: nat, t: S)
    requires step(s, u) && Iterates(step, u, n, t)
    ensures Iterates(step, s, n + 1, t)
  {
    if n == 0 {
      assert Iterates(step, s, 0, s);
    } else {
      var v :| Iterates(step, u, n - 1, v) && step(v, t);
      IteratesLater(step, s, u, n - 1, v);
    }
  }

  lemma TwoSteps<S(!new)>(step: (S, S) -> bool, s: S, u: S, t: S) returns (n: nat)
    requires step(s, u) && step(u, t)
    ensures n <= 2 && Iterates(step, s, n, t)
  {
    n := 1;
    assert Iterates(step, s, 0, s);
    assert Iterates(step, s, n, u);
    n := n + 1;
  }

  /** What every step keeps and counts. */
  lemma {:induction false} IteratesKeep<S(!new)>(step: (S, S) -> bool, inv: (nat, S) -> bool, s: S, n: nat, t: S)
    requires Iterates(step, s, n, t) && inv(0, s)
    requires forall k: nat, u, v :: inv(k, u) && step(u, v) ==> inv(k + 1, v)
    ensures inv(n, t)
  {
    if n > 0 {
      var u :| Iterates(step, s, n - 1, u) && step(u, t);
      IteratesKeep(step, inv, s, n - 1, u);
    }
  }
}
