/** Sequences of vectors of naturals, compared from their first component on, that never rise. */
module Descent {
  ghost predicate Below(x: seq<nat>, y: seq<nat>)
    requires |x| == |y|
  {
    exists k :: 0 <= k < |x| && x[k] < y[k] && forall i | 0 <= i < k :: x[i] <= y[i]
  }

  ghost predicate NotAbove(x: seq<nat>, y: seq<nat>)
    requires |x| == |y|
  {
    (forall i | 0 <= i < |x| :: x[i] <= y[i]) || Below(x, y)
  }

  ghost predicate NotRising(v: nat -> seq<nat>, k: nat) {
    |v(k + 1)| == |v(k)| && NotAbove(v(k + 1), v(k))
  }

  lemma {:induction false} EventuallyConstant(f: nat -> nat, m: nat) returns (n: nat)
    requires forall k | k >= m :: f(k + 1) <= f(k)
    ensures n >= m && forall k | k >= n :: f(k) == f(n)
    decreases f(m)
  {
    if k: nat :| k >= m && f(k) < f(m) {
      n := EventuallyConstant(f, k);
    } else {
      forall k | k >= m ensures f(k) <= f(m) {
        Decreasing(f, m, k);
      }
      n := m;
    }
  }

  lemma {:induction false} Decreasing(f: nat -> nat, m: nat, k: nat)
    requires m <= k && forall i | i >= m :: f(i + 1) <= f(i)
    ensures f(k) <= f(m)
    decreases k
  {
    if k > m {
      Decreasing(f, m, k - 1);
      assert f(k - 1 + 1) <= f(k - 1);
    }
  }

  // A sequence of vectors that never rises settles, component by component.
  lemma {:induction false} Settles(v: nat -> seq<nat>, len: nat, width: nat) returns (n: nat)
    requires width <= len && (forall k: nat :: |v(k)| == len) && (forall k: nat :: NotRising(v, k))
    ensures forall k, i | k >= n && 0 <= i < width :: v(k)[i] == v(n)[i]
    decreases width
  {
    if width == 0 {
      n := 0;
    } else {
      var m := Settles(v, len, width - 1);
      var f := (k: nat) => v(k)[width - 1];
      forall k: nat | k >= m ensures f(k + 1) <= f(k) {
        assert forall i | 0 <= i < width - 1 :: v(k)[i] == v(m)[i] && v(k + 1)[i] == v(m)[i];
        assert NotRising(v, k);
      }
      n := EventuallyConstant(f, m);
      forall k: nat, i | k >= n && 0 <= i < width ensures v(k)[i] == v(n)[i] {
        if i == width - 1 {
          assert f(k) == f(n);
        } else {
          assert v(k)[i] == v(m)[i] && v(n)[i] == v(m)[i];
        }
      }
    }
  }
}
