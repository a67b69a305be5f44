/** Exactly when the splitting loop ends, and the loop itself. */
module SplitExact {
  import opened Iteration
  import opened MessageSplitter
  import opened SplitContent
  import opened SplitTermination
  import opened Subsequences
  import opened Descent

  predicate EndsIn(content: string, maxLen: nat, rounds: nat)
    requires maxLen > 0
  {
    Finished(Run(Init(content), maxLen, rounds))
  }

  /** The loop ends on this content. */
  ghost predicate Ends(content: string, maxLen: nat)
    requires maxLen > 0
  {
    exists rounds: nat :: EndsIn(content, maxLen, rounds)
  }

  // ----- A round that repeats itself -----

  /**
   The last resort of the code is about to be taken for a block at the front whose header line does
   not leave room for itself, a newline and one more rune.
   */
  predicate StuckText(r: string, maxLen: nat) {
    && TooLong(r, 0, maxLen)
    && Decide(r, 0, maxLen).Refence? && OpenBlock(r, 0, TentativeCut(r, 0, maxLen)) == 0
    && var h := Header(r, 0);
       |h| >= maxLen - 6 && h + ['\n'] <= r && !IsSpace(r[|r| - 1])
  }

  predicate Stuck(s: State, maxLen: nat) {
    s.start == 0 && StuckText(s.runes, maxLen)
  }

  lemma {:induction false} LastNewlineInPrefix(r: string, t: string, lo: nat, hi: int)
    requires hi <= |r| && hi <= |t| && forall k | 0 <= k < hi :: r[k] == t[k]
    ensures LastNewline(r, lo, hi) == LastNewline(t, lo, hi)
    decreases hi
  {
    if hi > lo {
      LastNewlineInPrefix(r, t, lo, hi - 1);
    }
  }

  lemma {:induction false} LastGapInPrefix(r: string, t: string, lo: nat, hi: int)
    requires hi <= |r| && hi <= |t| && forall k | 0 <= k < hi :: r[k] == t[k]
    ensures LastGap(r, lo, hi) == LastGap(t, lo, hi)
    decreases hi
  {
    if hi > lo {
      LastGapInPrefix(r, t, lo, hi - 1);
    }
  }

  lemma {:induction false} ScanInPrefix(r: string, t: string, i: nat, end: nat, inBlock: bool, last: int)
    requires end <= |r| && end <= |t| && forall k | 0 <= k < end :: r[k] == t[k]
    ensures Scan(r, i, end, inBlock, last) == Scan(t, i, end, inBlock, last)
    decreases end - i
  {
    if i < end {
      if FenceAt(r, i, end) {
        ScanInPrefix(r, t, i + 3, end, !inBlock, if inBlock then last else i);
      } else {
        ScanInPrefix(r, t, i + 1, end, inBlock, last);
      }
    }
  }

  /** The tentative cut and the block it opens depend on the first runes only. */
  lemma CutInPrefix(r: string, t: string, maxLen: nat)
    requires TooLong(r, 0, maxLen) && TooLong(t, 0, maxLen)
    requires forall k | 0 <= k < EffectiveLimit(maxLen) :: r[k] == t[k]
    ensures TentativeCut(r, 0, maxLen) == TentativeCut(t, 0, maxLen)
    ensures OpenBlock(r, 0, TentativeCut(r, 0, maxLen)) == OpenBlock(t, 0, TentativeCut(t, 0, maxLen))
  {
    var end: int := EffectiveLimit(maxLen);
    LastNewlineInPrefix(r, t, Max(end - 200, 0), end);
    LastGapInPrefix(r, t, Max(end - 100, 0), end);
    ScanInPrefix(r, t, 0, TentativeCut(r, 0, maxLen), false, -1);
  }

  /** The state after a stuck round. */
  function Again(r: string, h: string, maxLen: nat): string
    requires 5 <= maxLen <= |r|
  {
    h + (['\n'] + r[maxLen - 5..])
  }

  lemma StuckDecision(r: string, maxLen: nat)
    requires maxLen >= 10 && StuckText(r, maxLen)
    ensures Decide(r, 0, maxLen) == Refence(maxLen - 5, Header(r, 0))
    ensures IsHeader(Header(r, 0)) && HeaderEnd(r, 0) == |Header(r, 0)|
  {
    var h := Header(r, 0);
    RefenceFacts(r, 0, maxLen);
    HeaderIsHeader(r, 0);
    LimitLeavesRoom(maxLen);
    assert forall k | 0 <= k < |h| :: r[k] == (h + ['\n'])[k] == h[k];
    assert r[|h|] == (h + ['\n'])[|h|] == '\n';
    NewlineAfterHeader(r, 0, |h|);
  }

  lemma StuckRound(s: State, maxLen: nat)
    requires maxLen >= 10 && Stuck(s, maxLen)
    ensures Next(s, maxLen).runes == Again(s.runes, Header(s.runes, 0), maxLen) && Next(s, maxLen).start == 0
  {
    var r := s.runes;
    StuckDecision(r, maxLen);
    var tail := r[maxLen - 5..];
    assert tail[|tail| - 1] == r[|r| - 1];
    ReopenedUntrimmed(Header(r, 0), tail);
  }

  lemma ReopenedUntrimmed(header: string, tail: string)
    requires |header| >= 3 && header[..3] == FENCE && tail != [] && !IsSpace(tail[|tail| - 1])
    ensures Reopened(header, tail) == header + (['\n'] + tail)
  {
    var w := header + (['\n'] + tail);
    assert w[0] == header[..3][0] == TICK;
    assert TrimLeft(w) == w;
    assert TrimRight(w) == w;
  }

  /** No closing fence moves into reach. */
  lemma NoClosingAgain(r: string, h: string, maxLen: nat, cut: nat, j: nat)
    requires maxLen >= 10 && |r| > maxLen && |h| >= maxLen - 6 && h + ['\n'] <= r
    requires cut <= maxLen - 5 && (FenceEnd(r, cut, |r|) == -1 || FenceEnd(r, cut, |r|) > maxLen)
    requires cut <= j && Occurs(Again(r, h, maxLen), j)
    ensures j + 3 > maxLen
  {
    var t := Again(r, h, maxLen);
    assert forall k | 0 <= k <= |h| :: t[k] == (h + ['\n'])[k] == r[k];
    assert t[|h|] == '\n';
    if j + 3 <= maxLen {
      if j < |h| {
        assert Occurs(r, j);
        FenceEndIsFirst(r, cut, |r|, j);
      } else {
        var i := maxLen - 5 + (j - |h| - 1);
        assert r[i] == t[j] && r[i + 1] == t[j + 1] && r[i + 2] == t[j + 2];
        assert Occurs(r, i);
        FenceEndIsFirst(r, cut, |r|, i);
      }
    }
  }

  lemma {:induction false} FenceEndOccurs(r: string, i: nat, end: nat)
    requires end <= |r|
    ensures FenceEnd(r, i, end) != -1 ==> FenceEnd(r, i, end) >= i + 3 && Occurs(r, FenceEnd(r, i, end) - 3)
    decreases end - i
  {
    if i < end && !FenceAt(r, i, end) {
      FenceEndOccurs(r, i + 1, end);
    }
  }

  lemma NoClosingInReach(r: string, h: string, maxLen: nat, cut: nat)
    requires maxLen >= 10 && |r| > maxLen && |h| >= maxLen - 6 && h + ['\n'] <= r
    requires cut <= maxLen - 5 && (FenceEnd(r, cut, |r|) == -1 || FenceEnd(r, cut, |r|) > maxLen)
    ensures var t := Again(r, h, maxLen); FenceEnd(t, cut, |t|) == -1 || FenceEnd(t, cut, |t|) > maxLen
  {
    var t := Again(r, h, maxLen);
    FenceEndOccurs(t, cut, |t|);
    if FenceEnd(t, cut, |t|) != -1 {
      NoClosingAgain(r, h, maxLen, cut, FenceEnd(t, cut, |t|) - 3);
    }
  }

  lemma HeaderAgain(h: string, tail: string)
    requires IsHeader(h)
    ensures var t := h + (['\n'] + tail); Header(t, 0) == h && HeaderEnd(t, 0) == |h|
  {
    var t := h + (['\n'] + tail);
    assert forall j | 0 <= j < |h| :: t[j] == h[j] && t[j] != '\n';
    NewlineAfterHeader(t, 0, |h|);
    assert t[0..|h|] == h;
    assert h[0] == h[..3][0] == TICK;
    assert TrimLeft(h) == h;
    assert TrimRight(h) == h;
  }

  /** What follows a stuck round is decided in the same way. */
  lemma DecidesAgain(r: string, h: string, maxLen: nat)
    requires maxLen >= 10 && StuckText(r, maxLen) && h == Header(r, 0)
    ensures var t := Again(r, h, maxLen);
            && TooLong(t, 0, maxLen) && Decide(t, 0, maxLen).Refence?
            && OpenBlock(t, 0, TentativeCut(t, 0, maxLen)) == 0
  {
    StuckDecision(r, maxLen);
    RefenceFacts(r, 0, maxLen);
    LimitLeavesRoom(maxLen);
    var t, cut := Again(r, h, maxLen), TentativeCut(r, 0, maxLen);
    assert forall k | 0 <= k <= |h| :: t[k] == (h + ['\n'])[k] == r[k];
    CutInPrefix(r, t, maxLen);
    NoClosingInReach(r, h, maxLen, cut);
    HeaderAgain(h, r[maxLen - 5..]);
    LastResort(t, maxLen);
  }

  /** A block at the front without a closing fence in reach, nor much text after its header. */
  lemma LastResort(t: string, maxLen: nat)
    requires TooLong(t, 0, maxLen) && OpenBlock(t, 0, TentativeCut(t, 0, maxLen)) == 0
    requires var cut := TentativeCut(t, 0, maxLen);
             && cut <= HeaderEnd(t, 0) + 20
             && (FenceEnd(t, cut, |t|) == -1 || FenceEnd(t, cut, |t|) > maxLen)
    ensures Decide(t, 0, maxLen).Refence?
  {
    assert CutBefore(t, 0, 0) == -1;
  }

  /** What makes a text stuck, with its header named. */
  lemma StuckTextIs(t: string, h: string, maxLen: nat)
    requires TooLong(t, 0, maxLen) && Decide(t, 0, maxLen).Refence?
    requires OpenBlock(t, 0, TentativeCut(t, 0, maxLen)) == 0 && Header(t, 0) == h
    requires |h| >= maxLen - 6 && h + ['\n'] <= t && !IsSpace(t[|t| - 1])
    ensures StuckText(t, maxLen)
  {
  }

  lemma StuckTextAgain(r: string, maxLen: nat)
    requires maxLen >= 10 && StuckText(r, maxLen)
    ensures StuckText(Again(r, Header(r, 0), maxLen), maxLen)
  {
    var h := Header(r, 0);
    var t := AgainIsLike(r, h, maxLen);
    StuckTextIs(t, h, maxLen);
  }

  lemma AgainIsLike(r: string, h: string, maxLen: nat) returns (t: string)
    requires maxLen >= 10 && StuckText(r, maxLen) && h == Header(r, 0)
    ensures t == Again(r, h, maxLen) && TooLong(t, 0, maxLen) && Decide(t, 0, maxLen).Refence?
    ensures OpenBlock(t, 0, TentativeCut(t, 0, maxLen)) == 0 && Header(t, 0) == h
    ensures h + ['\n'] <= t && t[|t| - 1] == r[|r| - 1]
  {
    t := Again(r, h, maxLen);
    StuckDecision(r, maxLen);
    DecidesAgain(r, h, maxLen);
    HeaderAgain(h, r[maxLen - 5..]);
    AgainStartsAndEnds(r, h, maxLen);
  }

  lemma AgainStartsAndEnds(r: string, h: string, maxLen: nat)
    requires 5 <= maxLen < |r|
    ensures var t := Again(r, h, maxLen); h + ['\n'] <= t && t[|t| - 1] == r[|r| - 1]
  {
    ConcatAssociates(h, ['\n'], r[maxLen - 5..]);
  }

  lemma StuckAgain(s: State, maxLen: nat)
    requires maxLen >= 10 && Stuck(s, maxLen)
    ensures !Finished(s) && Stuck(Next(s, maxLen), maxLen)
  {
    StuckRound(s, maxLen);
    StuckTextAgain(s.runes, maxLen);
  }

  /** After a stuck round the loop never ends. */
  lemma StuckNeverEnds(s: State, maxLen: nat, rounds: nat)
    requires maxLen >= 10 && Stuck(s, maxLen)
    ensures !Finished(Run(s, maxLen, rounds))
  {
    var P := (t: State) => Stuck(t, maxLen);
    forall t | P(t) && !Finished(t)
      ensures P(Next(t, maxLen))
    {
      StuckAgain(t, maxLen);
    }
    RunKeeps(P, s, maxLen, rounds);
    assert P(Run(s, maxLen, rounds));
  }

  // ----- Counting fences -----

  /** A fence whose header has `size` runes; size zero stands for any. */
  predicate Matches(r: string, i: nat, size: nat) {
    Occurs(r, i) && (size == 0 || |Header(r, i)| == size)
  }

  function Count(r: string, i: nat, size: nat): nat
    decreases |r| - i
  {
    if i >= |r| then 0 else (if Matches(r, i, size) then 1 else 0) + Count(r, i + 1, size)
  }

  lemma {:induction false} CountDrops(r: string, i: nat, j: nat, size: nat)
    requires i <= j
    ensures Count(r, j, size) <= Count(r, i, size)
    decreases |r| - i
  {
    if i < |r| && i < j {
      CountDrops(r, i + 1, j, size);
    }
  }

  lemma {:induction false} CountDropsBy(r: string, i: nat, m: nat, j: nat, size: nat)
    requires i <= m < j && Matches(r, m, size)
    ensures Count(r, j, size) < Count(r, i, size)
    decreases m - i
  {
    if i < m {
      CountDropsBy(r, i + 1, m, j, size);
    } else {
      CountDrops(r, i + 1, j, size);
    }
  }

  /** Copied text has no more fences of a size, since only a lost newline shortens a header, to three. */
  lemma {:induction false} CountCopied(r: string, i: nat, t: string, k: nat, size: nat)
    requires i <= |r| && k <= |t| && t[k..] <= r[i..] && (size == 0 || size >= 4)
    ensures Count(t, k, size) <= Count(r, i, size)
    decreases |t| - k
  {
    if k < |t| {
      assert t[k..][0] == r[i..][0];
      if Matches(t, k, size) {
        MatchCopied(r, i, t, k, size);
      }
      assert t[k + 1..] == t[k..][1..] <= r[i..][1..] == r[i + 1..];
      CountCopied(r, i + 1, t, k + 1, size);
    }
  }

  lemma MatchCopied(r: string, i: nat, t: string, k: nat, size: nat)
    requires i <= |r| && k <= |t| && t[k..] <= r[i..] && (size == 0 || size >= 4) && Matches(t, k, size)
    ensures Matches(r, i, size)
  {
    var copy, original := t[k..], r[i..];
    assert forall x | 0 <= x < 3 :: copy[x] == original[x];
    assert t[k] == copy[0] && t[k + 1] == copy[1] && t[k + 2] == copy[2];
    assert r[i] == original[0] && r[i + 1] == original[1] && r[i + 2] == original[2];
    if NewlineFrom(t, k) == -1 {
      BareHeader(t, k);
    } else {
      CopiedHeader(r, i, t, k);
    }
  }

  /** No fence inside a repeated header, except at its front, has a header as long. */
  lemma InnerFenceIsShorter(h: string, tail: string, m: nat, k: nat, size: nat)
    requires IsHeader(h) && |h| <= m <= |h| + 1 + |tail| && 1 <= k <= |h|
    requires if size == 0 then |h| == 3 else size >= 4 && size >= |h|
    ensures !Matches((h + (['\n'] + tail))[..m], k, size)
  {
    var t := (h + (['\n'] + tail))[..m];
    assert |h| < m ==> t[|h|] == '\n';
    if Occurs(t, k) {
      assert forall j | 0 <= j < |h| :: t[j] == h[j];
      NewlineAfterHeader(t, k, |h|);
      if |h| < m {
        TrimSpaceShrinks(t[k..|h|]);
      } else {
        BareHeader(t, k);
      }
    }
  }

  lemma {:induction false} CountSkips(t: string, i: nat, j: nat, size: nat)
    requires i <= j && forall k | i <= k < j :: !Matches(t, k, size)
    ensures Count(t, i, size) == Count(t, j, size)
    decreases j - i
  {
    if i < j {
      if i < |t| {
        CountSkips(t, i + 1, j, size);
      }
    }
  }

  /** Behind its front, the reopened text has no more fences of a size than the text behind the cut. */
  lemma CountReopened(r: string, at: nat, h: string, size: nat)
    requires IsHeader(h) && at <= |r| && if size == 0 then |h| == 3 else size >= 4 && size >= |h|
    ensures Count(Reopened(h, r[at..]), 1, size) <= Count(r, at, size)
  {
    var tail := r[at..];
    var w, t := h + (['\n'] + tail), Reopened(h, tail);
    ReopenedStartsWithHeader(h, tail);
    var m := |t|;
    assert t == w[..m];
    forall k | 1 <= k < |h| + 1
      ensures !Matches(t, k, size)
    {
      InnerFenceIsShorter(h, tail, m, k, size);
    }
    CountSkips(t, 1, |h| + 1, size);
    CountBehindHeader(r, at, h, size);
  }

  lemma CountBehindHeader(r: string, at: nat, h: string, size: nat)
    requires IsHeader(h) && at <= |r| && (size == 0 || size >= 4)
    ensures Count(Reopened(h, r[at..]), |h| + 1, size) <= Count(r, at, size)
  {
    var tail := r[at..];
    var w, t := h + (['\n'] + tail), Reopened(h, tail);
    ReopenedStartsWithHeader(h, tail);
    if |h| + 1 <= |t| {
      assert w[|h| + 1..] == tail;
      assert t[|h| + 1..] == w[..|t|][|h| + 1..] == tail[..|t| - |h| - 1];
      CountCopied(r, at, t, |h| + 1, size);
    }
  }

  // ----- Every round that is not stuck lowers a measure -----

  /** A text that a re-fencing round has reopened: a header, and a newline unless nothing follows. */
  ghost predicate Reopens(r: string, h: string) {
    IsHeader(h) && h <= r && (|h| < |r| ==> r[|h|] == '\n') && !IsSpace(r[|r| - 1])
  }

  ghost predicate IsFresh(s: State) {
    s.start == 0 && exists h :: Reopens(s.runes, h)
  }

  /** Where fences count: all that is left, but not the one that has just been reopened. */
  function CountFrom(s: State, reopened: bool): nat {
    if reopened then 1 else s.start
  }

  /** The fences by the size of their header, the largest first; all fences; the runes that are left. */
  function Measure(s: State, reopened: bool, bound: nat): (v: seq<nat>)
    requires bound >= 3
    ensures |v| == bound - 1
  {
    seq(bound - 3, k requires 0 <= k < bound - 3 => Count(s.runes, CountFrom(s, reopened), bound - k)) +
    [Count(s.runes, CountFrom(s, reopened), 0), if Left(s) > 0 then Left(s) else 0]
  }

  /** No more fences of any size, and fewer runes. */
  lemma FewerRunes(s: State, reopened: bool, s': State, reopened': bool, bound: nat)
    requires bound >= 3 && Left(s') < Left(s) && 0 < Left(s)
    requires forall size: nat | size == 0 || size >= 4 ::
               Count(s'.runes, CountFrom(s', reopened'), size) <= Count(s.runes, CountFrom(s, reopened), size)
    ensures Lower(Measure(s', reopened', bound), Measure(s, reopened, bound))
  {
    LowerAt(Measure(s', reopened', bound), Measure(s, reopened, bound), bound - 2);
  }

  /** Fewer fences of a size, and no more of any larger one. */
  lemma FewerFences(s: State, reopened: bool, s': State, reopened': bool, bound: nat, size: nat)
    requires bound >= size >= 3
    requires forall larger: nat | larger >= 4 && larger > size ::
               Count(s'.runes, CountFrom(s', reopened'), larger) <= Count(s.runes, CountFrom(s, reopened), larger)
    requires var n := if size == 3 then 0 else size;
             Count(s'.runes, CountFrom(s', reopened'), n) < Count(s.runes, CountFrom(s, reopened), n)
    ensures Lower(Measure(s', reopened', bound), Measure(s, reopened, bound))
  {
    LowerAt(Measure(s', reopened', bound), Measure(s, reopened, bound), bound - size);
  }

  lemma PlainRoundLowers(s: State, reopened: bool, maxLen: nat, bound: nat)
    requires !Finished(s) && maxLen > 0 && bound >= 3 && !Decide(s.runes, s.start, maxLen).Refence?
    requires reopened ==> s.start == 0
    ensures Lower(Measure(Next(s, maxLen), false, bound), Measure(s, reopened, bound))
  {
    var d := Decide(s.runes, s.start, maxLen);
    DecisionInBounds(s, maxLen);
    PlainRoundShrinks(s, maxLen, d);
    var s' := Next(s, maxLen);
    forall size: nat
      ensures Count(s'.runes, CountFrom(s', false), size) <= Count(s.runes, CountFrom(s, reopened), size)
    {
      CountDrops(s.runes, CountFrom(s, reopened), s'.start, size);
    }
    FewerRunes(s, reopened, s', false, bound);
  }

  /** Re-fencing a block that was not reopened by the round before uses up its fence. */
  lemma RefenceUsesFence(s: State, reopened: bool, maxLen: nat, bound: nat)
    requires !Finished(s) && maxLen >= 10 && bound >= 3 && HeadersWithin(s.runes, bound)
    requires Decide(s.runes, s.start, maxLen).Refence?
    requires reopened ==> s.start == 0
    requires TooLong(s.runes, s.start, maxLen)
    requires CountFrom(s, reopened) <= OpenBlock(s.runes, s.start, TentativeCut(s.runes, s.start, maxLen))
    ensures Lower(Measure(Next(s, maxLen), true, bound), Measure(s, reopened, bound))
  {
    var r, from := s.runes, CountFrom(s, reopened);
    RefenceFacts(r, s.start, maxLen);
    RefenceIsLater(r, s.start, maxLen);
    var d, open := Decide(r, s.start, maxLen), OpenBlock(r, s.start, TentativeCut(r, s.start, maxLen));
    HeaderIsHeader(r, open);
    var n := if |d.header| == 3 then 0 else |d.header|;
    var s' := Next(s, maxLen);
    forall larger: nat | larger >= 4 && larger > |d.header|
      ensures Count(s'.runes, 1, larger) <= Count(r, from, larger)
    {
      CountReopened(r, d.at, d.header, larger);
      CountDrops(r, from, d.at, larger);
    }
    CountReopened(r, d.at, d.header, n);
    CountDropsBy(r, from, open, d.at, n);
    FewerFences(s, reopened, s', true, bound, |d.header|);
  }

  /** The text starts with a header that fills its line, or with bare ticks. */
  predicate StartsWithHeader(r: string, h: string) {
    IsHeader(h) && h <= r && (|h| == 3 || (|h| < |r| && r[|h|] == '\n'))
  }

  lemma FreshHeader(r: string, h: string)
    requires Reopens(r, h) && |r| > 3
    ensures StartsWithHeader(r, Header(r, 0))
  {
    if |h| < |r| {
      var tail := r[|h| + 1..];
      assert r == h + (['\n'] + tail);
      HeaderAgain(h, tail);
    } else {
      NewlineAfterHeader(r, 0, |r|);
      assert r[0..3] == h[..3] == FENCE;
      assert TrimLeft(FENCE) == FENCE && TrimRight(FENCE) == FENCE;
    }
  }

  /** A fence in a header that is reopened again was there before. */
  lemma RepeatedFence(r: string, h: string, at: nat, k: nat, size: nat)
    requires StartsWithHeader(r, h) && at <= |r| && 1 <= k <= |h| && (size == 0 || size >= 4)
    requires Matches(Reopened(h, r[at..]), k, size)
    ensures Matches(r, k, size)
  {
    var tail := r[at..];
    var w, t := h + (['\n'] + tail), Reopened(h, tail);
    ReopenedStartsWithHeader(h, tail);
    assert forall j | 0 <= j < |h| :: t[j] == h[j] == r[j];
    assert |h| < |t| ==> t[|h|] == w[|h|] == '\n';
    NewlineAfterHeader(t, k, |h|);
    if |h| == |t| {
      BareHeader(t, k);
    } else if |h| > 3 {
      NewlineAfterHeader(r, k, |h|);
      assert t[k..|h|] == r[k..|h|];
    }
  }

  lemma {:induction false} CountRepeated(r: string, h: string, at: nat, k: nat, size: nat)
    requires StartsWithHeader(r, h) && |h| < at <= |r| && 1 <= k <= |h| + 1 && (size == 0 || size >= 4)
    ensures Count(Reopened(h, r[at..]), k, size) <= Count(r, k, size)
    decreases |h| + 1 - k
  {
    if k == |h| + 1 {
      CountBehindHeader(r, at, h, size);
      CountDrops(r, k, at, size);
    } else {
      if Matches(Reopened(h, r[at..]), k, size) {
        RepeatedFence(r, h, at, k, size);
      }
      CountRepeated(r, h, at, k + 1, size);
    }
  }

  /** A reopened block that is cut again at the front, and not stuck, is cut behind its header. */
  lemma CutsBehindHeader(r: string, maxLen: nat, h: string)
    requires maxLen >= 10 && Reopens(r, h) && !StuckText(r, maxLen)
    requires TooLong(r, 0, maxLen) && Decide(r, 0, maxLen).Refence?
    requires OpenBlock(r, 0, TentativeCut(r, 0, maxLen)) == 0
    ensures var d := Decide(r, 0, maxLen);
            && StartsWithHeader(r, d.header) && |d.header| < d.at <= |r|
            && |Reopened(d.header, r[d.at..])| < |r|
  {
    RefenceFacts(r, 0, maxLen);
    RefenceIsLater(r, 0, maxLen);
    FreshHeader(r, h);
    HeaderIsHeader(r, 0);
    var g := Header(r, 0);
    assert |g| < |r| && r[|g|] == '\n' ==> g + ['\n'] <= r;
    RefenceShrinks(r, 0, maxLen);
  }

  /** Re-fencing a block again that was just reopened takes runes away, unless it is stuck. */
  lemma RefenceAgainLowers(s: State, maxLen: nat, bound: nat)
    requires !Finished(s) && maxLen >= 10 && bound >= 3 && IsFresh(s) && !Stuck(s, maxLen)
    requires TooLong(s.runes, 0, maxLen) && Decide(s.runes, 0, maxLen).Refence?
    requires OpenBlock(s.runes, 0, TentativeCut(s.runes, 0, maxLen)) == 0
    ensures Lower(Measure(Next(s, maxLen), true, bound), Measure(s, true, bound))
  {
    var r, s' := s.runes, Next(s, maxLen);
    var h :| Reopens(r, h);
    CutsBehindHeader(r, maxLen, h);
    var d := Decide(r, 0, maxLen);
    forall size: nat | size == 0 || size >= 4
      ensures Count(s'.runes, 1, size) <= Count(r, 1, size)
    {
      CountRepeated(r, d.header, d.at, 1, size);
    }
    FewerRunes(s, true, s', true, bound);
  }

  /** What the measure needs to know of a state: `reopened` tells that the round before re-fenced. */
  ghost predicate Measurable(s: State, reopened: bool, bound: nat) {
    HeadersWithin(s.runes, bound) && (reopened ==> IsFresh(s))
  }

  lemma RefenceIsFresh(s: State, maxLen: nat, bound: nat)
    requires !Finished(s) && maxLen >= 10 && bound >= 3 && HeadersWithin(s.runes, bound)
    requires Decide(s.runes, s.start, maxLen).Refence?
    ensures Measurable(Next(s, maxLen), true, bound)
  {
    var r, d := s.runes, Decide(s.runes, s.start, maxLen);
    RefenceFacts(r, s.start, maxLen);
    DecisionInBounds(s, maxLen);
    HeaderIsHeader(r, OpenBlock(r, s.start, TentativeCut(r, s.start, maxLen)));
    RefenceKeepsBound(r, d.at, d.header, bound);
    ReopenedReopens(d.header, r[d.at..]);
  }

  lemma ReopenedReopens(h: string, tail: string)
    requires IsHeader(h)
    ensures Reopens(Reopened(h, tail), h)
  {
    var w, t := h + (['\n'] + tail), Reopened(h, tail);
    ReopenedStartsWithHeader(h, tail);
    assert |h| < |t| ==> t[|h|] == w[|h|];
  }

  lemma RoundLowers(s: State, reopened: bool, maxLen: nat, bound: nat)
    requires !Finished(s) && maxLen >= 10 && bound >= 3 && Measurable(s, reopened, bound) && !Stuck(s, maxLen)
    ensures var reopened' := Decide(s.runes, s.start, maxLen).Refence?;
            && Measurable(Next(s, maxLen), reopened', bound)
            && Lower(Measure(Next(s, maxLen), reopened', bound), Measure(s, reopened, bound))
  {
    DecisionInBounds(s, maxLen);
    if Decide(s.runes, s.start, maxLen).Refence? {
      RefenceIsFresh(s, maxLen, bound);
      RefenceFacts(s.runes, s.start, maxLen);
      if CountFrom(s, reopened) <= OpenBlock(s.runes, s.start, TentativeCut(s.runes, s.start, maxLen)) {
        RefenceUsesFence(s, reopened, maxLen, bound);
      } else {
        RefenceAgainLowers(s, maxLen, bound);
      }
    } else {
      PlainRoundLowers(s, reopened, maxLen, bound);
    }
  }

  // ----- Exactly when the loop ends -----

  /** Whether the last of these rounds re-fenced. */
  predicate RefencedLast(content: string, maxLen: nat, rounds: nat)
    requires maxLen > 0
  {
    rounds > 0 &&
    var s := Run(Init(content), maxLen, rounds - 1);
    !Finished(s) && Decide(s.runes, s.start, maxLen).Refence?
  }

  function Bound(content: string): nat {
    if |content| > 3 then |content| else 3
  }

  /** The state after `n` rounds is stuck. */
  predicate GetsStuck(content: string, maxLen: nat, n: nat)
    requires maxLen > 0
  {
    Stuck(Run(Init(content), maxLen, n), maxLen)
  }

  function MeasureAfter(content: string, maxLen: nat, n: nat): (v: seq<nat>)
    requires maxLen > 0
    ensures |v| == Bound(content) - 1
  {
    Measure(Run(Init(content), maxLen, n), RefencedLast(content, maxLen, n), Bound(content))
  }

  lemma NextRound(content: string, maxLen: nat, n: nat)
    requires maxLen > 0 && !EndsIn(content, maxLen, n)
    ensures var s := Run(Init(content), maxLen, n);
            && Run(Init(content), maxLen, n + 1) == Next(s, maxLen)
            && RefencedLast(content, maxLen, n + 1) == Decide(s.runes, s.start, maxLen).Refence?
  {
  }

  ghost predicate MeasurableAfter(content: string, maxLen: nat, n: nat)
    requires maxLen > 0
  {
    Measurable(Run(Init(content), maxLen, n), RefencedLast(content, maxLen, n), Bound(content))
  }

  lemma RoundLowersMeasure(content: string, maxLen: nat, n: nat)
    requires maxLen >= 10 && !EndsIn(content, maxLen, n) && !GetsStuck(content, maxLen, n)
    requires MeasurableAfter(content, maxLen, n)
    ensures MeasurableAfter(content, maxLen, n + 1)
    ensures Lower(MeasureAfter(content, maxLen, n + 1), MeasureAfter(content, maxLen, n))
  {
    NextRound(content, maxLen, n);
    RoundLowers(Run(Init(content), maxLen, n), RefencedLast(content, maxLen, n), maxLen, Bound(content));
  }

  /** No round ends the loop or gets stuck. */
  ghost predicate GoesOn(content: string, maxLen: nat)
    requires maxLen > 0
  {
    forall n: nat :: !EndsIn(content, maxLen, n) && !GetsStuck(content, maxLen, n)
  }

  lemma NextIsMeasurable(content: string, maxLen: nat, n: nat)
    requires maxLen >= 10 && GoesOn(content, maxLen) && MeasurableAfter(content, maxLen, n)
    ensures MeasurableAfter(content, maxLen, n + 1)
    ensures Lower(MeasureAfter(content, maxLen, n + 1), MeasureAfter(content, maxLen, n))
  {
    assert !EndsIn(content, maxLen, n) && !GetsStuck(content, maxLen, n);
    RoundLowersMeasure(content, maxLen, n);
  }

  lemma {:induction false} ByInduction(P: nat -> bool, n: nat)
    requires P(0) && forall k: nat | P(k) :: P(k + 1)
    ensures P(n)
  {
    if n > 0 {
      ByInduction(P, n - 1);
      assert P(n - 1 + 1);
    }
  }

  lemma RoundsAreMeasurable(content: string, maxLen: nat, n: nat)
    requires maxLen >= 10 && GoesOn(content, maxLen)
    ensures MeasurableAfter(content, maxLen, n)
  {
    ghost var P := (k: nat) => MeasurableAfter(content, maxLen, k);
    StartIsMeasurable(content, maxLen);
    forall k: nat | P(k)
      ensures P(k + 1)
    {
      NextIsMeasurable(content, maxLen, k);
    }
    ByInduction(P, n);
  }

  lemma StartIsMeasurable(content: string, maxLen: nat)
    requires maxLen > 0
    ensures MeasurableAfter(content, maxLen, 0)
  {
    assert Run(Init(content), maxLen, 0) == Init(content);
    assert HeadersWithin(content, Bound(content));
  }

  lemma UnstuckEnds(content: string, maxLen: nat)
    requires maxLen >= 10 && forall n: nat :: !GetsStuck(content, maxLen, n)
    ensures Ends(content, maxLen)
  {
    if !Ends(content, maxLen) {
      assert GoesOn(content, maxLen);
      var f := (n: nat) => MeasureAfter(content, maxLen, n);
      forall n: nat
        ensures |f(n)| == Bound(content) - 1 && Lower(f(n + 1), f(n))
      {
        RoundsAreMeasurable(content, maxLen, n);
        NextIsMeasurable(content, maxLen, n);
      }
      NoInfiniteDescent(f, Bound(content) - 1);
    }
  }

  /**
   For every content and every limit from ten on, the loop ends if and only if it never gets to
   re-fence a block at the front whose header line has more than `maxLen - 7` runes.
   */
  lemma EndsIff(content: string, maxLen: nat)
    requires maxLen >= 10
    ensures Ends(content, maxLen) <==> forall n: nat :: !GetsStuck(content, maxLen, n)
  {
    if n: nat :| GetsStuck(content, maxLen, n) {
      forall rounds: nat
        ensures !EndsIn(content, maxLen, rounds)
      {
        StuckContentGoesOn(content, maxLen, n, rounds);
      }
    } else {
      UnstuckEnds(content, maxLen);
    }
  }

  /** With a limit below five no chunk can hold a fence, so that the loop ends on every content. */
  lemma TinyLimitEnds(content: string, maxLen: nat)
    requires 0 < maxLen < 5
    ensures Ends(content, maxLen)
  {
    var P := (t: State) => true;
    forall t | P(t) && !Finished(t)
      ensures Left(Next(t, maxLen)) < Left(t)
    {
      DecisionInBounds(t, maxLen);
      LimitLeavesRoom(maxLen);
      PlainRoundShrinks(t, maxLen, Decide(t.runes, t.start, maxLen));
    }
    RunEnds(P, Init(content), maxLen, |content|);
    assert EndsIn(content, maxLen, |content|);
  }

  lemma StuckContentGoesOn(content: string, maxLen: nat, n: nat, rounds: nat)
    requires maxLen >= 10 && GetsStuck(content, maxLen, n)
    ensures !EndsIn(content, maxLen, rounds)
  {
    StuckNeverEnds(Run(Init(content), maxLen, n), maxLen, rounds);
    IterateOn(Stepper(maxLen), Init(content), n, rounds);
    IterateOn(Stepper(maxLen), Init(content), rounds, n);
    FinishedStays(Run(Init(content), maxLen, rounds), maxLen, n);
  }

  lemma FinishedStays(s: State, maxLen: nat, rounds: nat)
    requires maxLen > 0
    ensures Finished(s) ==> Run(s, maxLen, rounds) == s
  {
    if Finished(s) {
      IterateStays(Stepper(maxLen), s, rounds);
    }
  }

  // ----- The code -----

  /** All runs that end give the same chunks. */
  lemma EndsTheSame(content: string, maxLen: nat, m: nat, n: nat)
    requires maxLen > 0 && EndsIn(content, maxLen, m) && EndsIn(content, maxLen, n)
    ensures Run(Init(content), maxLen, m) == Run(Init(content), maxLen, n)
  {
    IterateOn(Stepper(maxLen), Init(content), m, n);
    IterateOn(Stepper(maxLen), Init(content), n, m);
    FinishedStays(Run(Init(content), maxLen, m), maxLen, n);
    FinishedStays(Run(Init(content), maxLen, n), maxLen, m);
  }

  /** The loop, for any state from which it ends. */
  method SplitLoop(start: State, maxLen: nat, ghost rounds: nat) returns (end: State)
    requires maxLen > 0 && Finished(Run(start, maxLen, rounds))
    ensures end == Run(start, maxLen, rounds)
  {
    end := start;
    ghost var done := 0;
    while end.start < |end.runes|
      invariant end == Run(start, maxLen, done)
      invariant done <= rounds
      decreases rounds - done
    {
      NotYetDone(start, maxLen, done, rounds);
      end := Round(end, maxLen);
      done := done + 1;
    }
    NothingAfterwards(start, maxLen, done, rounds);
  }

  lemma NothingAfterwards(s: State, maxLen: nat, done: nat, rounds: nat)
    requires maxLen > 0 && done <= rounds && Finished(Run(s, maxLen, done))
    ensures Run(s, maxLen, done) == Run(s, maxLen, rounds)
  {
    IterateOn(Stepper(maxLen), s, done, rounds - done);
    FinishedStays(Run(s, maxLen, done), maxLen, rounds - done);
  }

  lemma NotYetDone(s: State, maxLen: nat, done: nat, rounds: nat)
    requires maxLen > 0 && done <= rounds && Finished(Run(s, maxLen, rounds)) && !Finished(Run(s, maxLen, done))
    ensures done < rounds
  {
  }

  /** For every content on which the loop ends at all. */
  method SplitMessage(content: string, maxLen: int) returns (messages: seq<string>)
    requires maxLen <= 0 || Ends(content, maxLen)
    ensures maxLen <= 0 ==> messages == if content == "" then [] else [content]
    ensures maxLen > 0 ==>
              && AllFit(messages, maxLen) && IsSubsequence(Ink(content), Ink(Flatten(messages)))
              && forall rounds: nat | EndsIn(content, maxLen, rounds) :: messages == Run(Init(content), maxLen, rounds).chunks
  {
    if maxLen <= 0 {
      if content == "" {
        return [];
      }
      return [content];
    }
    ghost var rounds: nat :| EndsIn(content, maxLen, rounds);
    ChunksFit(content, maxLen, rounds);
    ChunksContainContent(content, maxLen, rounds);
    forall n: nat | EndsIn(content, maxLen, n)
      ensures Run(Init(content), maxLen, n) == Run(Init(content), maxLen, rounds)
    {
      EndsTheSame(content, maxLen, n, rounds);
    }
    var end := SplitLoop(State(content, 0, []), maxLen, rounds);
    messages := end.chunks;
  }

  // ----- A code block at the front -----

  /** A header line at the front, and no other fence that ends within the limit: it does not close there. */
  predicate FrontBlock(c: string, header: string, maxLen: nat) {
    && IsHeader(header) && header + ['\n'] <= c && !IsSpace(c[|c| - 1])
    && (FenceEnd(c, 3, |c|) == -1 || FenceEnd(c, 3, |c|) > maxLen)
  }

  lemma {:induction false} ScanToCut(r: string, i: nat, cut: nat, last: int)
    requires cut <= |r| && (FenceEnd(r, i, |r|) == -1 || FenceEnd(r, i, |r|) > cut)
    ensures Scan(r, i, cut, true, last) == last
    decreases cut - i
  {
    if i < cut {
      ScanToCut(r, i + 1, cut, last);
    }
  }

  lemma {:induction false} FenceEndFromCut(r: string, i: nat, cut: nat)
    requires i <= cut && cut + 3 <= |r| && (FenceEnd(r, i, |r|) == -1 || FenceEnd(r, i, |r|) >= cut + 3)
    ensures FenceEnd(r, cut, |r|) == FenceEnd(r, i, |r|)
    decreases cut - i
  {
    if i < cut {
      FenceEndFromCut(r, i + 1, cut);
    }
  }

  lemma FrontHeader(c: string, header: string)
    requires IsHeader(header) && header + ['\n'] <= c
    ensures Occurs(c, 0) && Header(c, 0) == header && HeaderEnd(c, 0) == |header|
  {
    var tail := c[|header| + 1..];
    assert forall k | 0 <= k <= |header| :: c[k] == (header + ['\n'])[k];
    assert c == header + (['\n'] + tail);
    HeaderAgain(header, tail);
    assert c[0] == header[..3][0] && c[1] == header[..3][1] && c[2] == header[..3][2];
  }

  lemma FrontCut(c: string, maxLen: nat)
    requires Occurs(c, 0) && maxLen >= 10 && |c| > maxLen
    ensures 3 <= TentativeCut(c, 0, maxLen) <= maxLen - 5
  {
    LimitLeavesRoom(maxLen);
  }

  lemma FrontBlockIsStuck(c: string, header: string, maxLen: nat)
    requires FrontBlock(c, header, maxLen) && maxLen >= 10 && |c| > maxLen && |header| >= maxLen - 6
    ensures Stuck(Init(c), maxLen)
  {
    FrontHeader(c, header);
    FrontCut(c, maxLen);
    var cut := TentativeCut(c, 0, maxLen);
    assert FenceAt(c, 0, cut);
    ScanToCut(c, 3, cut, 0);
    FenceEndFromCut(c, 3, cut);
    LastResort(c, maxLen);
    StuckTextIs(c, header, maxLen);
  }

  /** A fence inside a header line has a shorter header. */
  lemma FenceInHeader(c: string, header: string, i: nat)
    requires IsHeader(header) && header + ['\n'] <= c && i <= |header| && Occurs(c, i)
    ensures |Header(c, i)| <= |header|
  {
    assert forall k | 0 <= k <= |header| :: c[k] == (header + ['\n'])[k];
    NewlineAfterHeader(c, i, |header|);
    TrimSpaceShrinks(c[i..|header|]);
  }

  lemma FrontHeadersFit(c: string, header: string, maxLen: nat)
    requires IsHeader(header) && header + ['\n'] <= c && |header| <= maxLen - 7
    requires forall i | |header| < i && Occurs(c, i) :: |Header(c, i)| <= maxLen - 7
    ensures HeadersFit(c, maxLen)
  {
    forall i | Occurs(c, i)
      ensures |Header(c, i)| <= maxLen - 7
    {
      if i <= |header| {
        FenceInHeader(c, header, i);
      }
    }
  }

  /**
   A code block at the front that closes beyond the limit, or never, in a content whose other headers
   fit: the loop ends exactly when the block's header line has at most `maxLen - 7` runes.
   */
  lemma FrontBlockEndsIff(c: string, header: string, maxLen: nat)
    requires FrontBlock(c, header, maxLen) && maxLen >= 10 && |c| > maxLen
    requires forall i | |header| < i && Occurs(c, i) :: |Header(c, i)| <= maxLen - 7
    ensures Ends(c, maxLen) <==> |header| <= maxLen - 7
  {
    if |header| <= maxLen - 7 {
      FrontHeadersFit(c, header, maxLen);
      SplittingEnds(c, maxLen);
      assert EndsIn(c, maxLen, |c|);
    } else {
      FrontBlockIsStuck(c, header, maxLen);
      assert GetsStuck(c, maxLen, 0);
      EndsIff(c, maxLen);
    }
  }

  /** A header line, then text without another fence. */
  ghost predicate OpenEnded(c: string, header: string) {
    && IsHeader(header) && header + ['\n'] <= c && !IsSpace(c[|c| - 1])
    && forall i | 0 < i :: !Occurs(c, i)
  }

  /** In particular for a block that is never closed. */
  lemma OpenEndedEndsIff(c: string, header: string, maxLen: nat)
    requires OpenEnded(c, header) && maxLen >= 10 && |c| > maxLen
    ensures Ends(c, maxLen) <==> |header| <= maxLen - 7
  {
    FenceEndOccurs(c, 3, |c|);
    FrontBlockEndsIff(c, header, maxLen);
  }

  /** With a limit of ten, even this header is too long, and a round changes nothing. */
  lemma TenRuneLimitExample(c: string)
    requires |c| == 20 && c[..5] == FENCE + ['g', '\n'] && forall k | 5 <= k < 20 :: c[k] == 'x'
    ensures !Ends(c, 10)
    ensures Next(Init(c), 10).runes == c && Next(Init(c), 10).start == 0
  {
    var header := FENCE + ['g'];
    assert header + ['\n'] == c[..5] <= c;
    assert c[3] == c[..5][3] == 'g';
    assert forall k | 3 <= k < 20 :: c[k] != TICK;
    OpenEndedEndsIff(c, header, 10);
    FenceEndOccurs(c, 3, |c|);
    FrontBlockRound(c, header, 10);
    assert header + (['\n'] + c[5..]) == c;
  }

  lemma FrontBlockRound(c: string, header: string, maxLen: nat)
    requires FrontBlock(c, header, maxLen) && maxLen >= 10 && |c| > maxLen && |header| >= maxLen - 6
    ensures Next(Init(c), maxLen).runes == Again(c, header, maxLen) && Next(Init(c), maxLen).start == 0
  {
    FrontBlockIsStuck(c, header, maxLen);
    FrontHeader(c, header);
    StuckRound(Init(c), maxLen);
  }
}
