/** Finite sums `f(0) + ... + f(n-1)`: the shape of every ledger total in this project. */
module Sums {

  function Sum(n: nat, f: nat -> int): int {
    if n == 0 then 0 else Sum(n - 1, f) + f(n - 1)
  }

  lemma {:induction false} SumEqual(n: nat, f: nat -> int, g: nat -> int)
    requires forall i: nat :: i < n ==> f(i) == g(i)
    ensures Sum(n, f) == Sum(n, g)
  {
    if n == 0 {
    } else {
      SumEqual(n - 1, f, g);
    }
  }

  lemma {:induction false} SumPlus(n: nat, f: nat -> int, g: nat -> int, h: nat -> int)
    requires forall i: nat :: i < n ==> h(i) == f(i) + g(i)
    ensures Sum(n, h) == Sum(n, f) + Sum(n, g)
  {
    if n == 0 {
    } else {
      SumPlus(n - 1, f, g, h);
    }
  }

  /** One term changes, the others stay. */
  lemma {:induction false} SumChange(n: nat, f: nat -> int, g: nat -> int, k: nat)
    requires k < n
    requires forall i: nat :: i < n && i != k ==> f(i) == g(i)
    ensures Sum(n, g) == Sum(n, f) + g(k) - f(k)
  {
    if k == n - 1 { SumEqual(n - 1, f, g); } else { SumChange(n - 1, f, g, k); }
  }

  lemma {:induction false} SumZero(n: nat, f: nat -> int)
    requires forall i: nat :: i < n ==> f(i) == 0
    ensures Sum(n, f) == 0
  {
    if n == 0 {
    } else {
      SumZero(n - 1, f);
    }
  }

  /** Terms past `m` are zero, so the longer sum is the shorter one. */
  lemma {:induction false} SumExtend(m: nat, n: nat, f: nat -> int)
    requires m <= n
    requires forall i: nat :: m <= i < n ==> f(i) == 0
    ensures Sum(n, f) == Sum(m, f)
  {
    if m == n {
    } else {
      SumExtend(m, n - 1, f);
    }
  }

  lemma {:induction false} SumMonotone(n: nat, f: nat -> int, g: nat -> int)
    requires forall i: nat :: i < n ==> f(i) <= g(i)
    ensures Sum(n, f) <= Sum(n, g)
  {
    if n == 0 {
    } else {
      SumMonotone(n - 1, f, g);
    }
  }

  /** A prefix of a sum of non-negative terms is no larger than the whole. */
  lemma {:induction false} SumPrefix(m: nat, n: nat, f: nat -> int)
    requires m <= n
    requires forall i: nat :: i < n ==> 0 <= f(i)
    ensures 0 <= Sum(m, f) <= Sum(n, f)
  {
    if m < n { SumPrefix(m, n - 1, f); } else if n > 0 { SumPrefix(m - 1, n - 1, f); }
  }

  lemma {:induction false} SumTerm(n: nat, f: nat -> int, k: nat)
    requires k < n
    requires forall i: nat :: i < n ==> 0 <= f(i)
    ensures 0 <= f(k) <= Sum(n, f)
  {
    if k == n - 1 { SumPrefix(n - 1, n, f); } else { SumTerm(n - 1, f, k); }
  }

  /** A sum of non-negative terms that exceeds one of them has another positive term. */
  lemma {:induction false} SumWitness(n: nat, f: nat -> int, k: nat) returns (j: nat)
    requires k < n && f(k) < Sum(n, f)
    requires forall i: nat :: i < n ==> 0 <= f(i)
    ensures j < n && j != k && 0 < f(j)
  {
    if j0: nat :| j0 < n && j0 != k && 0 < f(j0) {
      j := j0;
    } else {
      SumChange(n, i => 0, f, k);
      SumZero(n, i => 0);
      assert false;
    }
  }
}
