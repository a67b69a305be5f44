/** The lexicographic order on vectors of natural numbers, along which nothing descends for ever. */
module Descent {

  /** Lexicographic order: lower at some place, equal before it. */
  predicate Lower(a: seq<nat>, b: seq<nat>) {
    exists i :: 0 <= i < |a| && i < |b| && a[i] < b[i] && a[..i] == b[..i]
  }

  lemma LowerTransitive(x: seq<nat>, y: seq<nat>, z: seq<nat>)
    requires |x| == |y| == |z| && Lower(x, y) && Lower(y, z)
    ensures Lower(x, z)
  {
    var i :| 0 <= i < |x| && i < |y| && x[i] < y[i] && x[..i] == y[..i];
    var k :| 0 <= k < |y| && k < |z| && y[k] < z[k] && y[..k] == z[..k];
    var m := if i < k then i else k;
    assert x[..m] == x[..i][..m] == y[..i][..m] == y[..m] == y[..k][..m] == z[..k][..m] == z[..m];
    assert i < k ==> y[..k][i] == z[..k][i];
    assert k < i ==> x[..i][k] == y[..i][k];
    assert x[m] < z[m];
  }

  lemma {:induction false} FirstNeverRises(f: nat -> seq<nat>, size: nat, n: nat)
    requires size > 0 && forall k: nat :: |f(k)| == size && Lower(f(k + 1), f(k))
    ensures f(n)[0] <= f(0)[0]
  {
    if n > 0 {
      FirstNeverRises(f, size, n - 1);
      var i :| 0 <= i < |f(n)| && i < |f(n - 1)| && f(n)[i] < f(n - 1)[i] && f(n)[..i] == f(n - 1)[..i];
      assert i > 0 ==> f(n)[..i][0] == f(n - 1)[..i][0];
    }
  }

  lemma LowerInTail(a: seq<nat>, b: seq<nat>)
    requires |a| == |b| > 0 && Lower(a, b) && a[0] == b[0]
    ensures Lower(a[1..], b[1..])
  {
    var i :| 0 <= i < |a| && i < |b| && a[i] < b[i] && a[..i] == b[..i];
    assert a[1..][i - 1] < b[1..][i - 1] && a[1..][..i - 1] == a[..i][1..] == b[..i][1..] == b[1..][..i - 1];
  }

  /** Vectors of natural numbers cannot get lower for ever. */
  lemma {:induction false} NoInfiniteDescent(f: nat -> seq<nat>, size: nat)
    requires forall n: nat :: |f(n)| == size && Lower(f(n + 1), f(n))
    ensures false
    decreases size, if size == 0 then 0 else f(0)[0]
  {
    assert Lower(f(0 + 1), f(0));
    if n: nat :| f(n)[0] < f(0)[0] {
      NoInfiniteDescent(k => f(n + k), size);
    } else {
      var g := (k: nat) => if |f(k)| > 0 then f(k)[1..] else [];
      forall n: nat
        ensures |g(n)| == size - 1 && Lower(g(n + 1), g(n))
      {
        FirstNeverRises(f, size, n);
        FirstNeverRises(f, size, n + 1);
        LowerInTail(f(n + 1), f(n));
      }
      NoInfiniteDescent(g, size - 1);
    }
  }

  /** Lower at place `i`, and not higher before it. */
  lemma {:induction false} LowerAt(a: seq<nat>, b: seq<nat>, i: nat)
    requires |a| == |b| && i < |a| && a[i] < b[i] && forall k | 0 <= k < i :: a[k] <= b[k]
    ensures Lower(a, b)
    decreases i
  {
    if k :| 0 <= k < i && a[k] < b[k] {
      LowerAt(a, b, k);
    } else {
      assert a[..i] == b[..i];
    }
  }
}
