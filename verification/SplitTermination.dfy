/** When the splitting loop ends, and the loop itself. */
module SplitTermination {
  import opened Iteration
  import opened MessageSplitter
  import opened SplitContent

  ghost predicate HeadersWithin(r: string, bound: int) {
    forall i | Occurs(r, i) :: |Header(r, i)| <= bound
  }

  /**
   The header of every fence leaves room for itself, a newline and one more rune in a chunk. With a
   limit below ten this means that there is no fence.
   */
  ghost predicate HeadersFit(r: string, maxLen: nat) {
    HeadersWithin(r, maxLen - 7)
  }

  function Left(s: State): int {
    |s.runes| - s.start
  }

  // ----- Every round shrinks what is left -----

  lemma PlainRoundShrinks(s: State, maxLen: nat, d: Decision)
    requires InBounds(s, maxLen, d) && !d.Refence?
    ensures 0 <= Left(Apply(s, maxLen, d)) < Left(s)
    ensures Apply(s, maxLen, d).runes == s.runes
  {
  }

  lemma RefenceShrinksLeft(r: string, start: nat, at: nat, header: string)
    requires IsHeader(header) && start <= at <= |r| && |header| + 1 < at - start
    ensures 0 <= |Reopened(header, r[at..])| < |r| - start
  {
    ReopenedStartsWithHeader(header, r[at..]);
  }

  /**
   Re-fencing shrinks what is left although it repeats the header: always when the cut lies well
   inside the block, and else when the header fits.
   */
  lemma RefenceShrinks(r: string, start: nat, maxLen: nat)
    requires start < |r| && maxLen >= 10 && Decide(r, start, maxLen).Refence?
    ensures TooLong(r, start, maxLen)
    ensures var d := Decide(r, start, maxLen);
            var cut := TentativeCut(r, start, maxLen);
            var open := OpenBlock(r, start, cut);
            && open >= 0 && d.header == Header(r, open) && start <= d.at <= |r|
            && (cut > HeaderEnd(r, open) + 20 || |d.header| <= maxLen - 7 ==>
                  0 <= |Reopened(d.header, r[d.at..])| < |r| - start)
  {
    RefenceFacts(r, start, maxLen);
    RefenceIsLater(r, start, maxLen);
    var d := Decide(r, start, maxLen);
    var cut := TentativeCut(r, start, maxLen);
    var open := OpenBlock(r, start, cut);
    HeaderIsHeader(r, open);
    if cut > HeaderEnd(r, open) + 20 || |d.header| <= maxLen - 7 {
      RefenceShrinksLeft(r, start, d.at, d.header);
    }
  }

  // ----- Re-fencing keeps the headers short -----

  /** A fence in copied text has the header it had, unless the copy ends in its line. */
  lemma CopiedHeader(r: string, i: nat, t: string, k: nat)
    requires k + 3 <= |t| && i <= |r| && t[k..] <= r[i..]
    requires NewlineFrom(t, k) != -1
    ensures i + 3 <= |r| && Header(t, k) == Header(r, i)
  {
    var copy, original := t[k..], r[i..];
    var a, b := NewlineFrom(t, k), NewlineFrom(r, i);
    NewlineFromIsFirst(t, k);
    NewlineFromIsFirst(r, i);
    assert copy[a - k] == '\n' == original[a - k] == r[i + (a - k)];
    assert b != -1 && b <= i + (a - k);
    assert original[b - i] == '\n' == copy[b - i] == t[k + (b - i)];
    assert a - k == b - i;
    assert t[k..a] == copy[..a - k] == original[..b - i] == r[i..b];
  }

  lemma {:induction false} NewlineAfterHeader(t: string, k: nat, n: nat)
    requires k <= n <= |t| && (forall j | k <= j < n :: t[j] != '\n') && (n < |t| ==> t[n] == '\n')
    ensures NewlineFrom(t, k) == if n < |t| then n else -1
    decreases n - k
  {
    if k < n {
      NewlineAfterHeader(t, k + 1, n);
    }
  }

  lemma TrimSpaceShrinks(s: string)
    ensures |TrimSpace(s)| <= |s|
  {
  }

  lemma BareHeader(t: string, k: nat)
    requires k + 3 <= |t| && NewlineFrom(t, k) == -1
    ensures |Header(t, k)| <= 3
  {
    TrimSpaceShrinks(t[k..k + 3]);
  }

  /** A fence inside the repeated header. */
  lemma HeaderInHeader(h: string, tail: string, m: nat, k: nat)
    requires IsHeader(h) && |h| <= m <= |h| + 1 + |tail|
    requires k + 3 <= m && k < |h|
    ensures var t := (h + (['\n'] + tail))[..m]; |Header(t, k)| <= if |h| > 3 then |h| else 3
  {
    var w := h + (['\n'] + tail);
    var t := w[..m];
    assert forall j | 0 <= j < |h| :: t[j] == h[j];
    assert |h| < m ==> t[|h|] == '\n';
    NewlineAfterHeader(t, k, |h|);
    if |h| < m {
      TrimSpaceShrinks(t[k..|h|]);
    } else {
      BareHeader(t, k);
    }
  }

  lemma ReopenedHeaderFits(r: string, at: nat, h: string, bound: nat, k: nat)
    requires HeadersWithin(r, bound) && bound >= 3 && at <= |r|
    requires IsHeader(h) && |h| <= bound && Occurs(Reopened(h, r[at..]), k)
    ensures |Header(Reopened(h, r[at..]), k)| <= bound
  {
    var tail := r[at..];
    var w, t := h + (['\n'] + tail), Reopened(h, tail);
    ReopenedStartsWithHeader(h, tail);
    var m := |t|;
    assert t == w[..m];
    if k < |h| {
      HeaderInHeader(h, tail, m, k);
    } else if NewlineFrom(t, k) == -1 {
      BareHeader(t, k);
    } else {
      assert k > |h| by {
        assert t[|h|] == w[|h|] == '\n' || |h| == m;
      }
      var i := at + (k - |h| - 1);
      assert t[k..] <= r[i..] by {
        assert w[|h| + 1..] == tail;
        assert w[k..] == tail[k - |h| - 1..] == r[i..];
        assert t[k..] == w[k..][..m - k];
      }
      assert r[i..][0] == t[k..][0] == t[k] && r[i..][1] == t[k..][1] == t[k + 1] && r[i..][2] == t[k..][2] == t[k + 2];
      assert Occurs(r, i);
      CopiedHeader(r, i, t, k);
    }
  }

  /** A round leaves less, and headers that still fit. */
  ghost predicate Fits(s: State, maxLen: nat) {
    HeadersFit(s.runes, maxLen)
  }

  lemma RoundShrinks(s: State, maxLen: nat)
    requires !Finished(s) && maxLen > 0 && Fits(s, maxLen)
    ensures 0 <= Left(Next(s, maxLen)) < Left(s) && Fits(Next(s, maxLen), maxLen)
  {
    var r, start := s.runes, s.start;
    var d := Decide(r, start, maxLen);
    DecisionInBounds(s, maxLen);
    if d.Refence? {
      RefenceFacts(r, start, maxLen);
      var open := OpenBlock(r, start, TentativeCut(r, start, maxLen));
      HeaderIsHeader(r, open);
      assert |d.header| >= 3;
      RefenceShrinks(r, start, maxLen);
      RefenceKeepsBound(r, d.at, d.header, maxLen - 7);
    } else {
      PlainRoundShrinks(s, maxLen, d);
    }
  }

  lemma RefenceKeepsBound(r: string, at: nat, h: string, bound: nat)
    requires HeadersWithin(r, bound) && bound >= 3 && at <= |r| && IsHeader(h) && |h| <= bound
    ensures HeadersWithin(Reopened(h, r[at..]), bound)
  {
    forall k | Occurs(Reopened(h, r[at..]), k)
      ensures |Header(Reopened(h, r[at..]), k)| <= bound
    {
      ReopenedHeaderFits(r, at, h, bound, k);
    }
  }

  /** When every round leaves less, the loop ends. */
  lemma RunEnds(P: State -> bool, s: State, maxLen: nat, rounds: nat)
    requires maxLen > 0 && P(s) && rounds >= Left(s)
    requires forall t | P(t) && !Finished(t) :: P(Next(t, maxLen)) && Left(Next(t, maxLen)) < Left(t)
    ensures Finished(Run(s, maxLen, rounds))
  {
    IterateEnds(Stepper(maxLen), P, Finished, Left, s, rounds);
  }

  /** With fitting headers the loop ends after at most as many rounds as the content has runes. */
  lemma SplittingEnds(content: string, maxLen: nat)
    requires maxLen > 0 && HeadersFit(content, maxLen)
    ensures Finished(Run(Init(content), maxLen, |content|))
  {
    var P := (t: State) => Fits(t, maxLen);
    forall t | P(t) && !Finished(t)
      ensures P(Next(t, maxLen)) && Left(Next(t, maxLen)) < Left(t)
    {
      RoundShrinks(t, maxLen);
    }
    RunEnds(P, Init(content), maxLen, |content|);
  }
}
