/** Taking the same step again and again. */
module Iteration {

  function Iterate<S>(step: S -> S, s: S, n: nat): S {
    if n == 0 then s else step(Iterate(step, s, n - 1))
  }

  lemma {:induction false} IterateOn<S>(step: S -> S, s: S, m: nat, n: nat)
    ensures Iterate(step, Iterate(step, s, m), n) == Iterate(step, s, m + n)
  {
    if n > 0 {
      IterateOn(step, s, m, n - 1);
    }
  }

  /** What every step keeps, every run keeps. */
  lemma {:induction false} IterateKeeps<S>(step: S -> S, P: S -> bool, s: S, n: nat)
    requires P(s) && forall t | P(t) :: P(step(t))
    ensures P(Iterate(step, s, n))
  {
    if n > 0 {
      IterateKeeps(step, P, s, n - 1);
      assert P(step(Iterate(step, s, n - 1)));
    }
  }

  lemma {:induction false} IterateStays<S>(step: S -> S, s: S, n: nat)
    requires step(s) == s
    ensures Iterate(step, s, n) == s
  {
    if n > 0 {
      IterateStays(step, s, n - 1);
    }
  }

  /** If every step keeps `P` and, unless it is done, lowers `left`, it is done after `left(s)` steps. */
  lemma {:induction false} IterateEnds<S>(step: S -> S, P: S -> bool, done: S -> bool, left: S -> int, s: S, n: nat)
    requires P(s) && forall t | P(t) :: P(step(t)) && if done(t) then step(t) == t else left(step(t)) < left(t)
    requires forall t | P(t) && left(t) <= 0 :: done(t)
    ensures P(Iterate(step, s, n))
    ensures done(Iterate(step, s, n)) || left(Iterate(step, s, n)) <= left(s) - n
  {
    if n > 0 {
      IterateEnds(step, P, done, left, s, n - 1);
      var t := Iterate(step, s, n - 1);
      assert P(t) && P(step(t));
    }
  }
}
