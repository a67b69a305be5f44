/** Order-preserving sub-lists, used to say that nothing is invented, reordered or lost. */
module Subsequences {

  /** `xs` can be obtained from `ys` by deleting elements. */
  predicate IsSubsequence<T(==)>(xs: seq<T>, ys: seq<T>)
    decreases |ys|
  {
    if xs == [] then true
    else if ys == [] then false
    else if xs[0] == ys[0] then IsSubsequence(xs[1..], ys[1..])
    else IsSubsequence(xs, ys[1..])
  }

  lemma ConcatAssociates<T>(xs: seq<T>, ys: seq<T>, zs: seq<T>)
    ensures xs + (ys + zs) == (xs + ys) + zs
  {
  }

  lemma SplitAt<T>(xs: seq<T>, i: nat)
    requires i < |xs|
    ensures xs == xs[..i] + ([xs[i]] + xs[i + 1..])
  {
  }

  lemma {:induction false} Reflexive<T>(xs: seq<T>)
    ensures IsSubsequence(xs, xs)
  {
    if xs != [] {
      Reflexive(xs[1..]);
    }
  }

  lemma {:induction false} DropFirst<T>(xs: seq<T>, ys: seq<T>)
    requires xs != [] && IsSubsequence(xs, ys)
    ensures IsSubsequence(xs[1..], ys)
    decreases |ys|, 0
  {
    if xs[0] == ys[0] {
      Skip(xs[1..], ys[0], ys[1..]);
      assert [ys[0]] + ys[1..] == ys;
    } else {
      DropFirst(xs, ys[1..]);
      Skip(xs[1..], ys[0], ys[1..]);
      assert [ys[0]] + ys[1..] == ys;
    }
  }

  lemma {:induction false} Skip<T>(xs: seq<T>, y: T, ys: seq<T>)
    requires IsSubsequence(xs, ys)
    ensures IsSubsequence(xs, [y] + ys)
    decreases |ys|, 1
  {
    assert ([y] + ys)[1..] == ys;
    if xs != [] && xs[0] == y {
      DropFirst(xs, ys);
    }
  }

  lemma {:induction false} Concat<T>(xs: seq<T>, ys: seq<T>, xs': seq<T>, ys': seq<T>)
    requires IsSubsequence(xs, ys) && IsSubsequence(xs', ys')
    ensures IsSubsequence(xs + xs', ys + ys')
    decreases |ys|
  {
    if ys == [] {
      assert xs + xs' == xs' && ys + ys' == ys';
    } else if xs != [] && xs[0] == ys[0] {
      Concat(xs[1..], ys[1..], xs', ys');
      assert (xs + xs')[1..] == xs[1..] + xs' && (ys + ys')[1..] == ys[1..] + ys';
    } else {
      Concat(xs, ys[1..], xs', ys');
      Skip(xs + xs', ys[0], ys[1..] + ys');
      assert [ys[0]] + (ys[1..] + ys') == ys + ys';
    }
  }

  lemma {:induction false} Transitive<T>(xs: seq<T>, ys: seq<T>, zs: seq<T>)
    requires IsSubsequence(xs, ys) && IsSubsequence(ys, zs)
    ensures IsSubsequence(xs, zs)
    decreases |zs|
  {
    if xs != [] {
      if ys[0] == zs[0] {
        if xs[0] == ys[0] {
          Transitive(xs[1..], ys[1..], zs[1..]);
        } else {
          Transitive(xs, ys[1..], zs[1..]);
        }
      } else {
        Transitive(xs, ys, zs[1..]);
        Skip(xs, zs[0], zs[1..]);
        assert [zs[0]] + zs[1..] == zs;
      }
    }
  }
}
