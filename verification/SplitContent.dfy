/** What the chunks contain: their length, every inked rune, and balanced fences. */
module SplitContent {
  import opened Iteration
  import opened MessageSplitter
  import opened Subsequences

  // ----- Length -----

  predicate AllFit(chunks: seq<string>, maxLen: nat) {
    forall k | 0 <= k < |chunks| :: 0 < |chunks[k]| <= maxLen
  }

  lemma ApplyFits(s: State, maxLen: nat, d: Decision)
    requires InBounds(s, maxLen, d) && AllFit(s.chunks, maxLen)
    ensures AllFit(Apply(s, maxLen, d).chunks, maxLen)
  {
  }

  /** What every round keeps, every run keeps. */
  lemma RunKeeps(P: State -> bool, s: State, maxLen: nat, rounds: nat)
    requires maxLen > 0 && P(s)
    requires forall t | P(t) && !Finished(t) :: P(Next(t, maxLen))
    ensures P(Run(s, maxLen, rounds))
  {
    IterateKeeps(Stepper(maxLen), P, s, rounds);
  }

  /** For every content and every positive limit, after any number of rounds, every chunk fits. */
  lemma ChunksFit(content: string, maxLen: nat, rounds: nat)
    requires maxLen > 0
    ensures AllFit(Run(Init(content), maxLen, rounds).chunks, maxLen)
  {
    var P := (t: State) => AllFit(t.chunks, maxLen);
    forall t | P(t) && !Finished(t)
      ensures P(Next(t, maxLen))
    {
      DecisionInBounds(t, maxLen);
      ApplyFits(t, maxLen, Decide(t.runes, t.start, maxLen));
    }
    RunKeeps(P, Init(content), maxLen, rounds);
  }

  // ----- Ink -----

  /** The runes of `s` that are not white space. */
  function Ink(s: string): string {
    if s == [] then [] else (if IsSpace(s[0]) then [] else [s[0]]) + Ink(s[1..])
  }

  lemma {:induction false} InkConcat(s: string, t: string)
    ensures Ink(s + t) == Ink(s) + Ink(t)
  {
    if s == [] {
      assert s + t == t;
    } else {
      assert (s + t)[1..] == s[1..] + t;
      InkConcat(s[1..], t);
      ConcatAssociates(if IsSpace(s[0]) then [] else [s[0]], Ink(s[1..]), Ink(t));
    }
  }

  lemma InkSplit(s: string, i: nat)
    requires i <= |s|
    ensures Ink(s) == Ink(s[..i]) + Ink(s[i..])
  {
    assert s == s[..i] + s[i..];
    InkConcat(s[..i], s[i..]);
  }

  lemma {:induction false} TrimRightKeepsInk(s: string)
    ensures Ink(TrimRight(s)) == Ink(s)
  {
    if s != [] && IsSpace(s[|s| - 1]) {
      TrimRightKeepsInk(s[..|s| - 1]);
      InkSplit(s, |s| - 1);
    }
  }

  lemma {:induction false} TrimBlankRightKeepsInk(s: string)
    ensures Ink(TrimBlankRight(s)) == Ink(s)
  {
    if s != [] && IsBlank(s[|s| - 1]) {
      TrimBlankRightKeepsInk(s[..|s| - 1]);
      InkSplit(s, |s| - 1);
    }
  }

  lemma {:induction false} TrimLeftKeepsInk(s: string)
    ensures Ink(TrimLeft(s)) == Ink(s)
  {
    if s != [] && IsSpace(s[0]) {
      TrimLeftKeepsInk(s[1..]);
    }
  }

  lemma TrimSpaceKeepsInk(s: string)
    ensures Ink(TrimSpace(s)) == Ink(s)
  {
    TrimLeftKeepsInk(s);
    TrimRightKeepsInk(TrimLeft(s));
  }

  lemma {:induction false} SkipBlanksKeepsInk(r: string, i: nat)
    requires i <= |r|
    ensures Ink(r[SkipBlanks(r, i)..]) == Ink(r[i..])
    decreases |r| - i
  {
    if i < |r| && IsBlank(r[i]) {
      SkipBlanksKeepsInk(r, i + 1);
      assert r[i..][1..] == r[i + 1..];
    }
  }

  function Flatten(chunks: seq<string>): string {
    if chunks == [] then [] else Flatten(chunks[..|chunks| - 1]) + chunks[|chunks| - 1]
  }

  lemma FlattenAppend(chunks: seq<string>, chunk: string)
    ensures Ink(Flatten(chunks + [chunk])) == Ink(Flatten(chunks)) + Ink(chunk)
  {
    assert (chunks + [chunk])[..|chunks|] == chunks;
    InkConcat(Flatten(chunks), chunk);
  }

  /** All the ink of a state: what was emitted, then what is still to be split. */
  function AllInk(s: State): string
    requires s.start <= |s.runes|
  {
    Ink(Flatten(s.chunks)) + Ink(s.runes[s.start..])
  }

  lemma InkOfFence()
    ensures Ink(['\n'] + FENCE) == FENCE
  {
    var t := ['\n'] + FENCE;
    assert t[1..] == FENCE && FENCE[1..] == [TICK, TICK] && [TICK, TICK][1..] == [TICK] && [TICK][1..] == [];
    assert Ink([TICK]) == [TICK];
    assert Ink([TICK, TICK]) == [TICK] + [TICK];
    assert Ink(FENCE) == [TICK] + [TICK, TICK];
  }

  lemma InkOfClosedChunk(body: string)
    ensures Ink(ClosedChunk(body)) == Ink(body) + FENCE
  {
    TrimBlankRightKeepsInk(body);
    InkOfFence();
    InkConcat(TrimBlankRight(body), ['\n'] + FENCE);
  }

  lemma InkOfReopened(header: string, tail: string)
    ensures Ink(Reopened(header, tail)) == Ink(header) + Ink(tail)
  {
    TrimSpaceKeepsInk(header + (['\n'] + tail));
    InkConcat(header, ['\n'] + tail);
    assert (['\n'] + tail)[1..] == tail;
  }

  lemma RestKeepsInk(s: State, maxLen: nat)
    requires InBounds(s, maxLen, Rest)
    ensures AllInk(Apply(s, maxLen, Rest)) == AllInk(s)
  {
    FlattenAppend(s.chunks, s.runes[s.start..]);
    assert s.runes[|s.runes|..] == [];
    assert Ink([]) == [];
  }

  lemma InkAround(s: State, at: nat)
    requires s.start <= at <= |s.runes|
    ensures AllInk(s) == Ink(Flatten(s.chunks)) + (Ink(s.runes[s.start..at]) + Ink(s.runes[at..]))
  {
    var r, start := s.runes, s.start;
    InkSplit(r[start..], at - start);
    assert r[start..][..at - start] == r[start..at] && r[start..][at - start..] == r[at..];
  }

  lemma CutKeepsInk(s: State, maxLen: nat, at: int)
    requires InBounds(s, maxLen, Cut(at))
    ensures AllInk(Apply(s, maxLen, Cut(at))) == AllInk(s)
  {
    var r, start := s.runes, s.start;
    InkAround(s, at);
    FlattenAppend(s.chunks, r[start..at]);
    SkipBlanksKeepsInk(r, at);
    ConcatAssociates(Ink(Flatten(s.chunks)), Ink(r[start..at]), Ink(r[at..]));
  }

  /** A round that does not re-fence moves ink, it adds and loses none. */
  lemma PlainRoundKeepsInk(s: State, maxLen: nat, d: Decision)
    requires InBounds(s, maxLen, d) && !d.Refence?
    ensures Apply(s, maxLen, d).start <= |Apply(s, maxLen, d).runes| && AllInk(Apply(s, maxLen, d)) == AllInk(s)
  {
    match d {
      case Rest => RestKeepsInk(s, maxLen);
      case Cut(at) => CutKeepsInk(s, maxLen, at);
      case Refence(_, _) =>
    }
  }

  lemma InsertKeepsSubsequence(xs: string, a: string, mid: string, b: string)
    requires IsSubsequence(xs, a + b)
    ensures IsSubsequence(xs, a + (mid + b))
  {
    Reflexive(a);
    Reflexive(b);
    assert IsSubsequence([], mid);
    Concat([], mid, b, b);
    assert [] + b == b;
    Concat(a, a, b, mid + b);
    Transitive(xs, a + b, a + (mid + b));
  }

  lemma InkOfRefenced(s: State, maxLen: nat, d: Decision)
    requires InBounds(s, maxLen, d) && d.Refence?
    ensures AllInk(Apply(s, maxLen, d)) ==
              (Ink(Flatten(s.chunks)) + (Ink(s.runes[s.start..d.at]) + FENCE)) + (Ink(d.header) + Ink(s.runes[d.at..]))
  {
    var s', body := Apply(s, maxLen, d), s.runes[s.start..d.at];
    assert s'.runes[0..] == s'.runes;
    FlattenAppend(s.chunks, ClosedChunk(body));
    InkOfClosedChunk(body);
    InkOfReopened(d.header, s.runes[d.at..]);
  }

  lemma InsertedFence(xs: string, done: string, body: string, header: string, tail: string)
    requires IsSubsequence(xs, done + (body + tail))
    ensures IsSubsequence(xs, (done + (body + FENCE)) + (header + tail))
  {
    ConcatAssociates(done, body, tail);
    InsertKeepsSubsequence(xs, done + body, FENCE + header, tail);
    ConcatAssociates(FENCE, header, tail);
    ConcatAssociates(done, body, FENCE);
    ConcatAssociates(done + body, FENCE, header + tail);
  }

  /** A re-fencing round adds the closing fence and the repeated header, and loses nothing. */
  lemma RefenceKeepsInk(s: State, maxLen: nat, d: Decision, ink: string)
    requires InBounds(s, maxLen, d) && d.Refence?
    requires IsSubsequence(ink, AllInk(s))
    ensures IsSubsequence(ink, AllInk(Apply(s, maxLen, d)))
  {
    InkAround(s, d.at);
    InkOfRefenced(s, maxLen, d);
    InsertedFence(ink, Ink(Flatten(s.chunks)), Ink(s.runes[s.start..d.at]), Ink(d.header), Ink(s.runes[d.at..]));
  }

  /** The ink of the content is still there, in order. */
  predicate Holds(s: State, content: string) {
    s.start <= |s.runes| && IsSubsequence(Ink(content), AllInk(s))
  }

  lemma DecisionKeepsInk(s: State, maxLen: nat, d: Decision, content: string) returns (s': State)
    requires InBounds(s, maxLen, d) && Holds(s, content)
    ensures s' == Apply(s, maxLen, d) && Holds(s', content)
  {
    s' := Apply(s, maxLen, d);
    if d.Refence? {
      RefenceKeepsInk(s, maxLen, d, Ink(content));
    } else {
      PlainRoundKeepsInk(s, maxLen, d);
    }
  }

  lemma InkOfFinished(t: State)
    requires t.start <= |t.runes| && Finished(t)
    ensures AllInk(t) == Ink(Flatten(t.chunks))
  {
    assert t.runes[t.start..] == [];
    assert Ink([]) == [];
  }

  /** Nothing is lost or reordered: the ink of the content is a subsequence of that of the chunks. */
  lemma ChunksContainContent(content: string, maxLen: nat, rounds: nat)
    requires maxLen > 0 && Finished(Run(Init(content), maxLen, rounds))
    ensures IsSubsequence(Ink(content), Ink(Flatten(Run(Init(content), maxLen, rounds).chunks)))
  {
    assert content[0..] == content && [] + Ink(content) == Ink(content);
    Reflexive(Ink(content));
    var P := (t: State) => Holds(t, content);
    forall t | P(t) && !Finished(t)
      ensures P(Next(t, maxLen))
    {
      DecisionInBounds(t, maxLen);
      var t' := DecisionKeepsInk(t, maxLen, Decide(t.runes, t.start, maxLen), content);
    }
    RunKeeps(P, Init(content), maxLen, rounds);
    InkOfFinished(Run(Init(content), maxLen, rounds));
  }

  // ----- Content without fences -----

  /** Three ticks in a row at position `i`. */
  predicate Occurs(r: string, i: int) {
    0 <= i && i + 2 < |r| && r[i] == TICK && r[i + 1] == TICK && r[i + 2] == TICK
  }

  ghost predicate NoFence(r: string) {
    forall i :: !Occurs(r, i)
  }

  lemma {:induction false} ScanWithoutFence(r: string, i: nat, end: nat, last: int)
    requires end <= |r| && NoFence(r)
    ensures Scan(r, i, end, false, last) == -1
    decreases end - i
  {
    if i < end {
      assert !Occurs(r, i);
      ScanWithoutFence(r, i + 1, end, last);
    }
  }

  lemma NoFenceNoRefence(s: State, maxLen: nat)
    requires !Finished(s) && maxLen > 0 && NoFence(s.runes)
    ensures !Decide(s.runes, s.start, maxLen).Refence?
  {
    if |s.runes| - s.start > maxLen {
      ScanWithoutFence(s.runes, s.start, TentativeCut(s.runes, s.start, maxLen), -1);
    }
  }

  /** Still splitting `content`, all of whose ink is accounted for. */
  predicate HoldsExactly(s: State, content: string) {
    s.runes == content && s.start <= |content| && AllInk(s) == Ink(content)
  }

  lemma RoundWithoutFence(s: State, maxLen: nat, content: string)
    requires !Finished(s) && maxLen > 0 && NoFence(content) && HoldsExactly(s, content)
    ensures HoldsExactly(Next(s, maxLen), content)
  {
    DecisionInBounds(s, maxLen);
    NoFenceNoRefence(s, maxLen);
    PlainRoundKeepsInk(s, maxLen, Decide(s.runes, s.start, maxLen));
  }

  /** Without a fence in the content, the chunks hold exactly its ink. */
  lemma ChunksEqualContent(content: string, maxLen: nat, rounds: nat)
    requires maxLen > 0 && NoFence(content) && Finished(Run(Init(content), maxLen, rounds))
    ensures Ink(Flatten(Run(Init(content), maxLen, rounds).chunks)) == Ink(content)
  {
    assert content[0..] == content && [] + Ink(content) == Ink(content);
    var P := (t: State) => HoldsExactly(t, content);
    forall t | P(t) && !Finished(t)
      ensures P(Next(t, maxLen))
    {
      RoundWithoutFence(t, maxLen, content);
    }
    RunKeeps(P, Init(content), maxLen, rounds);
    InkOfFinished(Run(Init(content), maxLen, rounds));
  }

  // ----- Balanced fences -----

  /** The fences a left-to-right scan finds in `s`. */
  function Fences(s: string): nat {
    if |s| < 3 then 0
    else if Occurs(s, 0) then 1 + Fences(s[3..])
    else Fences(s[1..])
  }

  /** The scan ends inside a block exactly when it has passed an odd number of fences. */
  lemma {:induction false} ScanParity(r: string, i: nat, end: nat, inBlock: bool, last: int)
    requires i <= end <= |r| && (inBlock ==> last >= 0)
    ensures Scan(r, i, end, inBlock, last) != -1 <==> (Fences(r[i..end]) + if inBlock then 1 else 0) % 2 == 1
    decreases end - i
  {
    if i < end {
      var s := r[i..end];
      assert FenceAt(r, i, end) <==> Occurs(s, 0);
      if FenceAt(r, i, end) {
        assert s[3..] == r[i + 3..end];
        ScanParity(r, i + 3, end, !inBlock, if inBlock then last else i);
      } else {
        assert s[1..] == r[i + 1..end];
        ScanParity(r, i + 1, end, inBlock, last);
        ShortHasNoFences(s);
      }
    }
  }

  lemma ShortHasNoFences(s: string)
    ensures |s| < 3 ==> Fences(s) == 0
    ensures s != [] && !Occurs(s, 0) ==> Fences(s) == Fences(s[1..])
  {
  }

  /** Ticks at the end of `s` that the scan has not used for a fence. */
  function OpenTicks(s: string): (n: nat)
    ensures n <= 2
  {
    if |s| >= 3 then if Occurs(s, 0) then OpenTicks(s[3..]) else OpenTicks(s[1..])
    else if s == [] || s[|s| - 1] != TICK then 0
    else if |s| == 2 && s[0] == TICK then 2
    else 1
  }

  function LeadingTicks(s: string): nat {
    if s != [] && s[0] == TICK then 1 + LeadingTicks(s[1..]) else 0
  }

  /** A fence straddles the border of `x` and `y`. */
  predicate Straddles(x: string, y: string) {
    OpenTicks(x) + LeadingTicks(y) >= 3
  }

  lemma ThreeLeadingTicks(y: string)
    requires LeadingTicks(y) >= 3
    ensures Occurs(y, 0)
  {
    var z := y[1..];
    assert LeadingTicks(z) >= 2;
    assert LeadingTicks(z[1..]) >= 1;
    assert z[0] == y[1] && z[1..][0] == y[2];
  }

  lemma {:induction false} NoFenceNoCount(y: string)
    requires NoFence(y)
    ensures Fences(y) == 0
    ensures LeadingTicks(y) <= 2
  {
    if y != [] {
      assert !Occurs(y, 0);
      forall i
        ensures !Occurs(y[1..], i)
      {
        assert !Occurs(y, i + 1);
      }
      NoFenceNoCount(y[1..]);
      ShortHasNoFences(y);
      if LeadingTicks(y) >= 3 {
        ThreeLeadingTicks(y);
      }
    }
  }

  lemma NoFenceTail(y: string, k: nat)
    requires NoFence(y) && k <= |y|
    ensures NoFence(y[k..])
  {
    forall i
      ensures !Occurs(y[k..], i)
    {
      assert !Occurs(y, i + k);
    }
  }

  /** Appending text without fences adds one fence exactly when one straddles the border. */
  lemma {:induction false} FencesAcross(x: string, y: string)
    requires NoFence(y)
    ensures Fences(x + y) == Fences(x) + if Straddles(x, y) then 1 else 0
    decreases |x|
  {
    if |x| >= 3 {
      if Occurs(x, 0) {
        assert Occurs(x + y, 0) && (x + y)[3..] == x[3..] + y;
        FencesAcross(x[3..], y);
      } else {
        assert !Occurs(x + y, 0) && (x + y)[1..] == x[1..] + y;
        FencesAcross(x[1..], y);
      }
    } else if x == [] {
      assert x + y == y;
      NoFenceNoCount(y);
    } else {
      ShortAcross(x, y);
    }
  }

  lemma ShortAcross(x: string, y: string)
    requires NoFence(y) && 1 <= |x| <= 2
    ensures Fences(x + y) == if Straddles(x, y) then 1 else 0
  {
    var z := x + y;
    NoFenceNoCount(y);
    ShortHasNoFences(z);
    assert z[1..] == x[1..] + y;
    LeadingTicksAre(y);
    if |x| == 1 {
      assert z[1..] == y;
      if Occurs(z, 0) {
        assert z[3..] == y[2..];
        NoFenceTail(y, 2);
        NoFenceNoCount(y[2..]);
      }
    } else {
      if Occurs(z, 0) {
        assert z[3..] == y[1..];
        NoFenceTail(y, 1);
        NoFenceNoCount(y[1..]);
      } else {
        assert z[1..] == [x[1]] + y;
        ShortHasNoFences(z[1..]);
        assert z[1..][1..] == y;
        if Occurs(z[1..], 0) {
          assert z[1..][3..] == y[2..];
          NoFenceTail(y, 2);
          NoFenceNoCount(y[2..]);
        }
      }
    }
  }

  lemma LeadingTicksAre(y: string)
    ensures LeadingTicks(y) >= 1 <==> |y| >= 1 && y[0] == TICK
    ensures LeadingTicks(y) >= 2 <==> |y| >= 2 && y[0] == TICK && y[1] == TICK
  {
    if y != [] && y[0] == TICK && |y| >= 2 {
      assert y[1..][0] == y[1];
    }
  }

  lemma FencesBeforePlain(x: string, y: string)
    requires NoFence(y) && (y == [] || y[0] != TICK)
    ensures Fences(x + y) == Fences(x)
  {
    FencesAcross(x, y);
  }

  lemma {:induction false} BlankTailHasNoTicks(s: string)
    ensures forall i | |TrimBlankRight(s)| <= i < |s| :: IsBlank(s[i])
  {
    if s != [] && IsBlank(s[|s| - 1]) {
      BlankTailHasNoTicks(s[..|s| - 1]);
    }
  }

  lemma TrimKeepsFences(s: string)
    ensures Fences(TrimBlankRight(s)) == Fences(s)
  {
    var t := TrimBlankRight(s);
    var tail := s[|t|..];
    BlankTailHasNoTicks(s);
    assert s == t + tail;
    FencesBeforePlain(t, tail);
  }

  /** Closing a chunk adds one fence. */
  lemma {:induction false} FencesClosed(x: string)
    ensures Fences(x + (['\n'] + FENCE)) == Fences(x) + 1
    decreases |x|
  {
    var close := ['\n'] + FENCE;
    if |x| >= 3 && Occurs(x, 0) {
      assert Occurs(x + close, 0) && (x + close)[3..] == x[3..] + close;
      FencesClosed(x[3..]);
    } else if x == [] {
      assert x + close == close && close[1..] == FENCE && FENCE[3..] == [];
      assert !Occurs(close, 0) && Occurs(FENCE, 0);
    } else {
      assert (x + close)[|x|] == '\n';
      assert !Occurs(x + close, 0) && (x + close)[1..] == x[1..] + close;
      FencesClosed(x[1..]);
      ShortHasNoFences(x);
      ShortHasNoFences(x + close);
      assert |x| < 3 ==> Fences(x[1..]) == 0;
    }
  }

  lemma FencesOfClosedChunk(body: string)
    ensures Fences(ClosedChunk(body)) == Fences(body) + 1
  {
    TrimKeepsFences(body);
    FencesClosed(TrimBlankRight(body));
  }

  // ----- Re-fencing -----

  lemma {:induction false} FenceEndIsFirst(r: string, i: nat, end: nat, j: nat)
    requires i <= j && j + 2 < end <= |r| && Occurs(r, j)
    ensures 0 < FenceEnd(r, i, end) <= j + 3
    decreases end - i
  {
    if !FenceAt(r, i, end) {
      FenceEndIsFirst(r, i + 1, end, j);
    }
  }

  lemma {:induction false} LastNewlineIsLast(r: string, lo: nat, hi: int, j: nat)
    requires hi <= |r| && lo <= j < hi && r[j] == '\n'
    ensures LastNewline(r, lo, hi) >= j
    decreases hi
  {
    if r[hi - 1] != '\n' {
      LastNewlineIsLast(r, lo, hi - 1, j);
    }
  }

  /** A newline of the first window that lies in the second window is found or overtaken there. */
  lemma LaterWindow(r: string, start: nat, end: nat, limit: nat)
    requires start < end <= limit <= |r|
    requires NewlineInWindow(r, start, end, 200) > start
    ensures var better := NewlineInWindow(r, start, limit, 200);
            better >= NewlineInWindow(r, start, end, 200) || better < start
  {
    var first := NewlineInWindow(r, start, end, 200);
    if first >= limit - 200 {
      LastNewlineIsLast(r, Max(limit - 200, start), limit, first);
    }
  }

  /** With no newline in the first window, one found in the second lies beyond the first. */
  lemma NothingBefore(r: string, start: nat, end: nat, limit: nat)
    requires start < end <= limit <= |r|
    requires NewlineInWindow(r, start, end, 200) <= start
    ensures var better := NewlineInWindow(r, start, limit, 200); better >= end || better <= start
  {
    var better := NewlineInWindow(r, start, limit, 200);
    if start < better < end {
      LastNewlineIsLast(r, Max(end - 200, start), end, better);
    }
  }

  /** The cut inside a block never falls back behind the tentative cut. */
  lemma InnerCutIsLater(r: string, start: nat, maxLen: nat, headerEnd: nat)
    requires TooLong(r, start, maxLen) && maxLen >= 10 && start <= headerEnd
    ensures InnerCut(r, start, maxLen, headerEnd) >= TentativeCut(r, start, maxLen)
  {
    LimitLeavesRoom(maxLen);
    var end, limit := start + EffectiveLimit(maxLen), start + maxLen - 5;
    if NewlineInWindow(r, start, end, 200) > start {
      LaterWindow(r, start, end, limit);
    } else {
      NothingBefore(r, start, end, limit);
    }
  }

  lemma InnerCutOverOpen(r: string, start: nat, maxLen: nat)
    requires TooLong(r, start, maxLen) && maxLen >= 10
    ensures start + maxLen - 5 >= TentativeCut(r, start, maxLen)
  {
    LimitLeavesRoom(maxLen);
  }

  /** A header is a line of its own that starts with a fence. */
  predicate IsHeader(h: string) {
    |h| >= 3 && h[..3] == FENCE && !IsSpace(h[|h| - 1]) && '\n' !in h
  }

  lemma {:induction false} TrimRightKeepsStart(s: string, k: nat)
    requires 0 < k <= |s| && !IsSpace(s[k - 1])
    ensures |TrimRight(s)| >= k && !IsSpace(TrimRight(s)[|TrimRight(s)| - 1])
  {
    if IsSpace(s[|s| - 1]) {
      TrimRightKeepsStart(s[..|s| - 1], k);
    }
  }

  lemma {:induction false} NewlineFromIsFirst(r: string, i: nat)
    ensures var at := NewlineFrom(r, i);
            forall j | i <= j < (if at == -1 then |r| else at) && j < |r| :: r[j] != '\n'
    ensures NewlineFrom(r, i) != -1 ==> r[NewlineFrom(r, i)] == '\n'
    decreases |r| - i
  {
    if i < |r| && r[i] != '\n' {
      NewlineFromIsFirst(r, i + 1);
    }
  }

  lemma HeaderIsHeader(r: string, open: nat)
    requires open + 3 <= |r| && Occurs(r, open)
    ensures IsHeader(Header(r, open))
    ensures open + |Header(r, open)| <= HeaderEnd(r, open)
  {
    var end := NewlineFrom(r, open);
    NewlineFromIsFirst(r, open);
    var line := if end == -1 then r[open..open + 3] else r[open..end];
    assert end != -1 ==> end >= open + 3;
    assert line[0] == TICK && line[1] == TICK && line[2] == TICK && '\n' !in line;
    FencedLineIsHeader(line);
  }

  lemma FencedLineIsHeader(line: string)
    requires |line| >= 3 && line[0] == TICK && line[1] == TICK && line[2] == TICK && '\n' !in line
    ensures IsHeader(TrimSpace(line)) && |TrimSpace(line)| <= |line|
  {
    assert TrimLeft(line) == line;
    TrimRightKeepsStart(line, 3);
    assert TrimRight(line)[..3] == FENCE;
  }

  /** What is reopened starts with the header. */
  lemma ReopenedStartsWithHeader(h: string, tail: string)
    requires IsHeader(h)
    ensures h <= Reopened(h, tail) <= h + (['\n'] + tail)
    ensures !IsSpace(Reopened(h, tail)[|Reopened(h, tail)| - 1])
  {
    var w := h + (['\n'] + tail);
    assert w[0] == h[..3][0] == TICK;
    assert TrimLeft(w) == w;
    TrimRightKeepsStart(w, |h|);
  }

  /** What a decision to re-fence is based on. */
  lemma RefenceFacts(r: string, start: nat, maxLen: nat)
    requires start < |r| && maxLen > 0 && Decide(r, start, maxLen).Refence?
    ensures TooLong(r, start, maxLen)
    ensures var cut := TentativeCut(r, start, maxLen);
            var open := OpenBlock(r, start, cut);
            var closing := FenceEnd(r, cut, |r|);
            && open >= 0 && Decide(r, start, maxLen) == DecideInBlock(r, start, maxLen, cut, open)
            && Occurs(r, open) && (closing == -1 || closing - start > maxLen)
            && Decide(r, start, maxLen).header == Header(r, open)
            && var at := Decide(r, start, maxLen).at;
               (at == start + maxLen - 5 && cut <= HeaderEnd(r, open) + 20 && open - start <= 20) ||
               (at == InnerCut(r, start, maxLen, HeaderEnd(r, open)) && cut > HeaderEnd(r, open) + 20)
  {
    var cut := TentativeCut(r, start, maxLen);
    var open := OpenBlock(r, start, cut);
    ScanFindsFence(r, start, cut, false, -1);
  }

  lemma NoFenceAfterCut(r: string, cut: nat, at: nat)
    requires cut <= at <= |r|
    requires FenceEnd(r, cut, |r|) == -1 || FenceEnd(r, cut, |r|) > at
    ensures NoFence(r[cut..at])
  {
    var y := r[cut..at];
    forall i
      ensures !Occurs(y, i)
    {
      if Occurs(y, i) {
        assert r[cut + i] == y[i] && r[cut + i + 1] == y[i + 1] && r[cut + i + 2] == y[i + 2];
        FenceEndIsFirst(r, cut, |r|, cut + i);
      }
    }
  }

  /** Where a re-fencing round cuts: at or after the tentative cut, well before the limit. */
  lemma RefenceIsLater(r: string, start: nat, maxLen: nat)
    requires start < |r| && maxLen >= 10 && Decide(r, start, maxLen).Refence?
    ensures TooLong(r, start, maxLen)
    ensures TentativeCut(r, start, maxLen) <= Decide(r, start, maxLen).at <= |r|
    ensures Decide(r, start, maxLen).at <= start + maxLen - 5
  {
    RefenceFacts(r, start, maxLen);
    DecisionInBounds(State(r, start, []), maxLen);
    var open := OpenBlock(r, start, TentativeCut(r, start, maxLen));
    HeaderIsHeader(r, open);
    InnerCutOverOpen(r, start, maxLen);
    InnerCutIsLater(r, start, maxLen, HeaderEnd(r, open));
  }

  /**
   A re-fenced chunk has balanced fences exactly when no fence straddles the tentative cut, and the
   remaining text reopens with the same header.
   */
  lemma RefencedChunkIsBalanced(r: string, start: nat, maxLen: nat)
    requires start < |r| && maxLen >= 10 && Decide(r, start, maxLen).Refence?
    ensures TooLong(r, start, maxLen)
    ensures var d := Decide(r, start, maxLen);
            var cut := TentativeCut(r, start, maxLen);
            && cut <= d.at <= |r|
            && (Fences(ClosedChunk(r[start..d.at])) % 2 == 0 <==> !Straddles(r[start..cut], r[cut..d.at]))
            && IsHeader(d.header) && d.header <= Reopened(d.header, r[d.at..])
  {
    RefenceIsLater(r, start, maxLen);
    RefenceFacts(r, start, maxLen);
    var d, cut := Decide(r, start, maxLen), TentativeCut(r, start, maxLen);
    HeaderIsHeader(r, OpenBlock(r, start, cut));
    ReopenedStartsWithHeader(d.header, r[d.at..]);
    ClosedChunkParity(r, start, cut, d.at);
  }

  lemma ClosedChunkParity(r: string, start: nat, cut: nat, at: nat)
    requires start <= cut <= at <= |r| && OpenBlock(r, start, cut) != -1
    requires FenceEnd(r, cut, |r|) == -1 || FenceEnd(r, cut, |r|) > at
    ensures Fences(ClosedChunk(r[start..at])) % 2 == 0 <==> !Straddles(r[start..cut], r[cut..at])
  {
    NoFenceAfterCut(r, cut, at);
    ScanParity(r, start, cut, false, -1);
    assert r[start..at] == r[start..cut] + r[cut..at];
    FencesAcross(r[start..cut], r[cut..at]);
    FencesOfClosedChunk(r[start..at]);
  }

  /** In particular when the tentative cut landed on a newline, a space or a tab. */
  lemma NaturalCutIsBalanced(r: string, start: nat, maxLen: nat)
    requires start < |r| && maxLen >= 10 && Decide(r, start, maxLen).Refence?
    ensures TooLong(r, start, maxLen)
    ensures TentativeCut(r, start, maxLen) < |r|
    ensures IsBlank(r[TentativeCut(r, start, maxLen)]) ==>
              Fences(ClosedChunk(r[start..Decide(r, start, maxLen).at])) % 2 == 0
  {
    RefenceIsLater(r, start, maxLen);
    RefencedChunkIsBalanced(r, start, maxLen);
    var at, cut := Decide(r, start, maxLen).at, TentativeCut(r, start, maxLen);
    assert cut < at ==> r[cut..at][0] == r[cut];
  }
}
