/**
 Where a round of `SplitMessage` cuts and what it leaves, in terms of the text alone. The rule is
 written with the positions of newlines, gaps and fences, not with the searches of the code, and it
 determines the round.
 */
module SplitRule {
  import opened MessageSplitter
  import opened SplitContent

  datatype Kind = Newline | Gap

  predicate IsKind(c: char, kind: Kind) {
    match kind
    case Newline => c == '\n'
    case Gap => c == ' ' || c == '\t'
  }

  /** A rune of this kind after `start`, among the last `window` runes before `end`. */
  predicate Near(r: string, kind: Kind, start: int, end: int, window: nat, i: int) {
    0 <= i < |r| && start < i < end && end - window <= i && IsKind(r[i], kind)
  }

  ghost predicate LastNear(r: string, kind: Kind, start: int, end: int, window: nat, at: int) {
    Near(r, kind, start, end, window, at) && forall i | i > at :: !Near(r, kind, start, end, window, i)
  }

  ghost predicate NoneNear(r: string, kind: Kind, start: int, end: int, window: nat) {
    forall i :: !Near(r, kind, start, end, window, i)
  }

  // ----- The rule -----

  /** The last newline shortly before `end`, or, if there is none, the last space or tab. */
  ghost predicate BreaksAt(r: string, start: int, end: int, at: int) {
    || LastNear(r, Newline, start, end, 200, at)
    || (NoneNear(r, Newline, start, end, 200) && LastNear(r, Gap, start, end, 100, at))
  }

  ghost predicate NoBreak(r: string, start: int, end: int) {
    NoneNear(r, Newline, start, end, 200) && NoneNear(r, Gap, start, end, 100)
  }

  /** Nine tenths of a large limit, fifty less than a middling one, half of a small one. */
  function Reach(maxLen: nat): nat {
    if maxLen >= 500 then maxLen - maxLen / 10
    else if maxLen >= 100 then maxLen - 50
    else maxLen - maxLen / 2
  }

  ghost predicate NaturalCut(r: string, start: nat, maxLen: nat, cut: int) {
    var end := start + Reach(maxLen);
    BreaksAt(r, start, end, cut) || (NoBreak(r, start, end) && cut == end)
  }

  /**
   The text from `start` to `cut` has an odd number of fences and `open` is the last of them: it does
   not begin within a fence before it, and none follows it.
   */
  ghost predicate OpensLastBlock(r: string, start: nat, cut: nat, open: int) {
    && start <= open <= cut - 3 && cut <= |r| && Occurs(r, open)
    && Fences(r[start..cut]) % 2 == 1 && OpenTicks(r[start..open]) == 0
    && NoFenceIn(r, open + 3, cut)
  }

  ghost predicate NoFenceIn(r: string, lo: int, hi: int) {
    forall i | lo <= i && i + 3 <= hi :: !Occurs(r, i)
  }

  ghost predicate FirstFence(r: string, lo: int, at: int) {
    lo <= at && Occurs(r, at) && NoFenceIn(r, lo, at + 2)
  }

  /** `t` is `s` without exactly the white space at its end. */
  predicate TrimmedTo(s: string, t: string) {
    && t <= s && (t == [] || !IsSpace(t[|t| - 1]))
    && forall i | |t| <= i < |s| :: IsSpace(s[i])
  }

  /** The line of the fence at `open`, trimmed, and its end; bare ticks if no newline ends it. */
  ghost predicate HeaderLine(r: string, open: nat, header: string, end: nat) {
    || (header == FENCE && end == open + 3 && forall i | open <= i < |r| :: r[i] != '\n')
    || (&& open <= end < |r| && r[end] == '\n' && (forall i | open <= i < end :: r[i] != '\n')
        && TrimmedTo(r[open..end], header))
  }

  /** The last newline behind the header within reach of the limit, else the limit itself. */
  ghost predicate InnerBreak(r: string, headerEnd: nat, limit: int, at: int) {
    || LastNear(r, Newline, headerEnd, limit, 200, at)
    || (NoneNear(r, Newline, headerEnd, limit, 200) && at == limit)
  }

  /** A block that no fence within the limit closes. */
  ghost predicate BreaksBlock(r: string, start: nat, maxLen: nat, cut: nat, open: nat, header: string, headerEnd: nat,
                              d: Decision)
  {
    if cut > headerEnd + 20 then
      d.Refence? && d.header == header && InnerBreak(r, headerEnd, start + maxLen - 5, d.at)
    else
      || (d.Cut? && BreaksAt(r, start, open, d.at))
      || (NoBreak(r, start, open) && d == if open > start + 20 then Cut(open) else Refence(start + maxLen - 5, header))
  }

  ghost predicate BreaksOpenBlock(r: string, start: nat, maxLen: nat, cut: nat, open: nat, d: Decision) {
    || (d.Cut? && FirstFence(r, cut, d.at - 3) && d.at <= start + maxLen)
    || (&& NoFenceIn(r, cut, start + maxLen)
        && exists header, headerEnd: nat ::
             && HeaderLine(r, open, header, headerEnd)
             && BreaksBlock(r, start, maxLen, cut, open, header, headerEnd, d))
  }

  ghost predicate BreaksWithCut(r: string, start: nat, maxLen: nat, cut: nat, d: Decision)
    requires start <= cut <= |r|
  {
    if Fences(r[start..cut]) % 2 == 0 then d == Cut(cut)
    else exists open: nat :: OpensLastBlock(r, start, cut, open) && BreaksOpenBlock(r, start, maxLen, cut, open, d)
  }

  /** The whole rule. */
  ghost predicate Prescribed(r: string, start: nat, maxLen: nat, d: Decision) {
    if |r| - start <= maxLen then d == Rest
    else exists cut: nat ::
           NaturalCut(r, start, maxLen, cut) && start <= cut <= |r| && BreaksWithCut(r, start, maxLen, cut, d)
  }

  // ----- The searches find what the rule asks for -----

  lemma ReachIsLimit(maxLen: nat)
    ensures Reach(maxLen) == EffectiveLimit(maxLen)
  {
  }

  lemma {:induction false} LastGapIsLast(r: string, lo: nat, hi: int, j: nat)
    requires hi <= |r| && lo <= j < hi && IsKind(r[j], Gap)
    ensures LastGap(r, lo, hi) >= j
    decreases hi
  {
    if !IsKind(r[hi - 1], Gap) {
      LastGapIsLast(r, lo, hi - 1, j);
    }
  }

  lemma NewlineWindow(r: string, start: nat, end: int, bound: nat)
    requires end <= |r| && start <= bound
    ensures var at := NewlineInWindow(r, start, end, 200);
            if at > bound then LastNear(r, Newline, bound, end, 200, at) else NoneNear(r, Newline, bound, end, 200)
  {
    var at := NewlineInWindow(r, start, end, 200);
    forall i | Near(r, Newline, bound, end, 200, i)
      ensures i <= at
    {
      LastNewlineIsLast(r, Max(end - 200, start), end, i);
    }
  }

  lemma GapWindow(r: string, start: nat, end: int)
    requires end <= |r|
    ensures var at := GapInWindow(r, start, end, 100);
            if at > start then LastNear(r, Gap, start, end, 100, at) else NoneNear(r, Gap, start, end, 100)
  {
    var at := GapInWindow(r, start, end, 100);
    forall i | Near(r, Gap, start, end, 100, i)
      ensures i <= at
    {
      LastGapIsLast(r, Max(end - 100, start), end, i);
    }
  }

  /** The cut of a round before it looks at fences. */
  lemma TentativeCutIsNatural(r: string, start: nat, maxLen: nat)
    requires TooLong(r, start, maxLen)
    ensures NaturalCut(r, start, maxLen, TentativeCut(r, start, maxLen))
  {
    ReachIsLimit(maxLen);
    NewlineWindow(r, start, start + EffectiveLimit(maxLen), start);
    GapWindow(r, start, start + EffectiveLimit(maxLen));
  }

  /** Without fences nothing else decides. */
  lemma PlainCutIsNatural(r: string, start: nat, maxLen: nat)
    requires TooLong(r, start, maxLen) && NoFence(r)
    ensures Decide(r, start, maxLen).Cut? && NaturalCut(r, start, maxLen, Decide(r, start, maxLen).at)
  {
    TentativeCutIsNatural(r, start, maxLen);
    ScanWithoutFence(r, start, TentativeCut(r, start, maxLen), -1);
  }

  lemma CutBeforeBreaks(r: string, start: nat, open: nat)
    requires open <= |r|
    ensures var at := CutBefore(r, start, open); if at > start then BreaksAt(r, start, open, at) else NoBreak(r, start, open)
  {
    NewlineWindow(r, start, open, start);
    GapWindow(r, start, open);
  }

  lemma {:induction false} ScanFindsLast(r: string, i: nat, end: nat, inBlock: bool, last: int)
    requires i <= end <= |r| && last < i && (inBlock ==> last >= 0)
    ensures var open := Scan(r, i, end, inBlock, last);
            || open == -1
            || (open == last && inBlock && NoFenceIn(r, i, end))
            || (i <= open <= end - 3 && Occurs(r, open) && OpenTicks(r[i..open]) == 0 && NoFenceIn(r, open + 3, end))
    decreases end - i
  {
    var open := Scan(r, i, end, inBlock, last);
    if i < end {
      if FenceAt(r, i, end) {
        ScanFindsLast(r, i + 3, end, !inBlock, if inBlock then last else i);
        if open >= i + 3 {
          assert r[i..open][3..] == r[i + 3..open];
          OpenTicksAfterFence(r, i, open);
        }
      } else {
        ScanFindsLast(r, i + 1, end, inBlock, last);
        if open > i {
          OpenTicksAfterOther(r, i, open);
        }
      }
    }
  }

  lemma OpenTicksAfterFence(r: string, i: nat, open: nat)
    requires i + 3 <= open && open + 3 <= |r| && Occurs(r, i)
    ensures OpenTicks(r[i..open]) == OpenTicks(r[i + 3..open])
  {
    assert r[i..open][3..] == r[i + 3..open];
    assert Occurs(r[i..open], 0);
  }

  lemma OpenTicksAfterOther(r: string, i: nat, open: nat)
    requires i < open && open + 3 <= |r| && !Occurs(r, i) && Occurs(r, open)
    requires OpenTicks(r[i + 1..open]) == 0
    ensures OpenTicks(r[i..open]) == 0
  {
    var s := r[i..open];
    assert s[1..] == r[i + 1..open];
    assert |s| >= 3 ==> !Occurs(s, 0);
    if |s| == 2 {
      assert r[i + 1..open][0] == s[1];
    }
  }

  lemma OpenBlockIsLast(r: string, start: nat, cut: nat)
    requires start <= cut <= |r|
    ensures if Fences(r[start..cut]) % 2 == 0 then OpenBlock(r, start, cut) == -1
            else OpensLastBlock(r, start, cut, OpenBlock(r, start, cut))
  {
    ScanParity(r, start, cut, false, -1);
    ScanFindsLast(r, start, cut, false, -1);
  }

  lemma {:induction false} FenceEndIsNext(r: string, i: nat)
    requires i <= |r|
    ensures var close := FenceEnd(r, i, |r|);
            if close == -1 then NoFenceIn(r, i, |r|) else FirstFence(r, i, close - 3)
    decreases |r| - i
  {
    if i < |r| && !FenceAt(r, i, |r|) {
      FenceEndIsNext(r, i + 1);
    }
  }

  lemma {:induction false} TrimRightTrims(s: string)
    ensures TrimmedTo(s, TrimRight(s))
  {
    if s != [] && IsSpace(s[|s| - 1]) {
      TrimRightTrims(s[..|s| - 1]);
    }
  }

  lemma TrimSpaceTrims(s: string)
    requires s != [] && s[0] == TICK
    ensures TrimmedTo(s, TrimSpace(s))
  {
    assert TrimLeft(s) == s;
    TrimRightTrims(s);
  }

  lemma HeaderIsLine(r: string, open: nat)
    requires Occurs(r, open)
    ensures HeaderLine(r, open, Header(r, open), HeaderEnd(r, open))
  {
    var end := NewlineFrom(r, open);
    NewlineFromIsFirst(r, open);
    if end == -1 {
      var line := r[open..open + 3];
      assert line == FENCE;
      TrimSpaceTrims(line);
      assert !IsSpace(TICK);
    } else {
      assert end > open;
      TrimSpaceTrims(r[open..end]);
    }
  }

  lemma UnclosedBlockBreaks(r: string, start: nat, maxLen: nat, cut: nat, open: nat)
    requires TooLong(r, start, maxLen) && start <= open && open + 3 <= cut <= |r| && Occurs(r, open)
    requires FenceEnd(r, cut, |r|) == -1 || FenceEnd(r, cut, |r|) - start > maxLen
    ensures BreaksBlock(r, start, maxLen, cut, open, Header(r, open), HeaderEnd(r, open),
                        DecideInBlock(r, start, maxLen, cut, open))
  {
    HeaderIsLine(r, open);
    if cut > HeaderEnd(r, open) + 20 {
      assert Min(start + maxLen - 5, |r|) == start + maxLen - 5;
      NewlineWindow(r, start, start + maxLen - 5, HeaderEnd(r, open));
    } else {
      CutBeforeBreaks(r, start, open);
    }
  }

  lemma OpenBlockBreaks(r: string, start: nat, maxLen: nat, cut: nat, open: nat)
    requires TooLong(r, start, maxLen) && start <= open && open + 3 <= cut <= |r| && Occurs(r, open)
    ensures BreaksOpenBlock(r, start, maxLen, cut, open, DecideInBlock(r, start, maxLen, cut, open))
  {
    var closing := FenceEnd(r, cut, |r|);
    FenceEndIsNext(r, cut);
    if closing == -1 || closing - start > maxLen {
      HeaderIsLine(r, open);
      UnclosedBlockBreaks(r, start, maxLen, cut, open);
    }
  }

  /** Every round decides as the rule says. */
  lemma DecideIsPrescribed(r: string, start: nat, maxLen: nat)
    requires start < |r| && maxLen > 0
    ensures Prescribed(r, start, maxLen, Decide(r, start, maxLen))
  {
    if TooLong(r, start, maxLen) {
      var cut := TentativeCut(r, start, maxLen);
      TentativeCutIsNatural(r, start, maxLen);
      OpenBlockIsLast(r, start, cut);
      var open := OpenBlock(r, start, cut);
      if open != -1 {
        OpenBlockBreaks(r, start, maxLen, cut, open);
      }
    }
  }

  // ----- The rule leaves no choice -----

  lemma BreaksAtOnePlace(r: string, start: int, end: int, at: int, at': int)
    requires BreaksAt(r, start, end, at)
    ensures !NoBreak(r, start, end)
    ensures BreaksAt(r, start, end, at') ==> at == at'
  {
  }

  lemma NaturalCutIsOne(r: string, start: nat, maxLen: nat, cut: int, cut': int)
    requires NaturalCut(r, start, maxLen, cut) && NaturalCut(r, start, maxLen, cut')
    ensures cut == cut'
  {
    var end := start + Reach(maxLen);
    if BreaksAt(r, start, end, cut) {
      BreaksAtOnePlace(r, start, end, cut, cut');
    } else if BreaksAt(r, start, end, cut') {
      BreaksAtOnePlace(r, start, end, cut', cut);
    }
  }

  lemma {:induction false} TicksStayOpen(s: string, ticks: string)
    requires 1 <= |ticks| <= 2 && OpenTicks(s) == 0 && forall i | 0 <= i < |ticks| :: ticks[i] == TICK
    ensures OpenTicks(s + ticks) > 0
    decreases |s|
  {
    var t := s + ticks;
    if |s| >= 3 {
      var k := if Occurs(s, 0) then 3 else 1;
      assert Occurs(t, 0) <==> Occurs(s, 0);
      assert t[k..] == s[k..] + ticks;
      TicksStayOpen(s[k..], ticks);
    } else if |t| >= 3 {
      assert t[|t| - 1] == ticks[|ticks| - 1];
      assert !Occurs(t, 0);
      assert t[1..] == s[1..] + ticks;
      if |s| == 2 {
        TicksStayOpen(s[1..], ticks);
      }
    }
  }

  lemma LastBlockIsOne(r: string, start: nat, cut: nat, open: int, open': int)
    requires OpensLastBlock(r, start, cut, open) && OpensLastBlock(r, start, cut, open')
    ensures open >= open'
  {
    if open < open' {
      TicksBehindOpen(r, start, open, open');
    }
  }

  lemma TicksBehindOpen(r: string, start: nat, open: nat, i: nat)
    requires start <= open < i < open + 3 && Occurs(r, open) && OpenTicks(r[start..open]) == 0
    ensures OpenTicks(r[start..i]) > 0
  {
    var ticks := r[open..i];
    assert r[start..open] + ticks == r[start..i];
    TicksStayOpen(r[start..open], ticks);
  }

  lemma TrimmedIsOne(s: string, t: string, t': string)
    requires TrimmedTo(s, t) && TrimmedTo(s, t')
    ensures t == t'
  {
    TrimmedReaches(s, t, t');
    TrimmedReaches(s, t', t);
  }

  lemma TrimmedReaches(s: string, t: string, t': string)
    requires TrimmedTo(s, t) && TrimmedTo(s, t')
    ensures |t'| <= |t|
  {
    assert t' != [] ==> t'[|t'| - 1] == s[|t'| - 1];
  }

  lemma HeaderLineIsOne(r: string, open: nat, header: string, end: nat, header': string, end': nat)
    requires HeaderLine(r, open, header, end) && HeaderLine(r, open, header', end')
    ensures header == header' && end == end'
  {
    if open <= end < |r| && r[end] == '\n' && open <= end' < |r| && r[end'] == '\n' {
      assert end == end';
      if TrimmedTo(r[open..end], header) {
        TrimmedIsOne(r[open..end], header, header');
      }
    }
  }

  lemma BlockBreaksOneWay(r: string, start: nat, maxLen: nat, cut: nat, open: nat, header: string, headerEnd: nat,
                          d: Decision, d': Decision)
    requires BreaksBlock(r, start, maxLen, cut, open, header, headerEnd, d)
    requires BreaksBlock(r, start, maxLen, cut, open, header, headerEnd, d')
    ensures d == d'
  {
  }

  lemma OpenBlockBreaksOneWay(r: string, start: nat, maxLen: nat, cut: nat, open: nat, d: Decision, d': Decision)
    requires BreaksOpenBlock(r, start, maxLen, cut, open, d) && BreaksOpenBlock(r, start, maxLen, cut, open, d')
    ensures d == d'
  {
    if NoFenceIn(r, cut, start + maxLen) {
      var header, end: nat :|
        HeaderLine(r, open, header, end) && BreaksBlock(r, start, maxLen, cut, open, header, end, d);
      var header', end': nat :|
        HeaderLine(r, open, header', end') && BreaksBlock(r, start, maxLen, cut, open, header', end', d');
      HeaderLineIsOne(r, open, header, end, header', end');
      BlockBreaksOneWay(r, start, maxLen, cut, open, header, end, d, d');
    }
  }

  lemma CutBreaksOneWay(r: string, start: nat, maxLen: nat, cut: nat, d: Decision, d': Decision)
    requires start <= cut <= |r| && BreaksWithCut(r, start, maxLen, cut, d) && BreaksWithCut(r, start, maxLen, cut, d')
    ensures d == d'
  {
    if Fences(r[start..cut]) % 2 == 1 {
      var open: nat :| OpensLastBlock(r, start, cut, open) && BreaksOpenBlock(r, start, maxLen, cut, open, d);
      var open': nat :| OpensLastBlock(r, start, cut, open') && BreaksOpenBlock(r, start, maxLen, cut, open', d');
      LastBlockIsOne(r, start, cut, open, open');
      LastBlockIsOne(r, start, cut, open', open);
      OpenBlockBreaksOneWay(r, start, maxLen, cut, open, d, d');
    }
  }

  lemma PrescribedIsOne(r: string, start: nat, maxLen: nat, d: Decision, d': Decision)
    requires Prescribed(r, start, maxLen, d) && Prescribed(r, start, maxLen, d')
    ensures d == d'
  {
    if |r| - start > maxLen {
      var cut: nat :| NaturalCut(r, start, maxLen, cut) && start <= cut <= |r| && BreaksWithCut(r, start, maxLen, cut, d);
      var cut': nat :| NaturalCut(r, start, maxLen, cut') && start <= cut' <= |r| && BreaksWithCut(r, start, maxLen, cut', d');
      NaturalCutIsOne(r, start, maxLen, cut, cut');
      CutBreaksOneWay(r, start, maxLen, cut, d, d');
    }
  }

  /** A round makes a decision if and only if the rule prescribes it. */
  lemma DecidesIff(r: string, start: nat, maxLen: nat, d: Decision)
    requires start < |r| && maxLen > 0
    ensures Decide(r, start, maxLen) == d <==> Prescribed(r, start, maxLen, d)
  {
    DecideIsPrescribed(r, start, maxLen);
    if Prescribed(r, start, maxLen, d) {
      PrescribedIsOne(r, start, maxLen, d, Decide(r, start, maxLen));
    }
  }

  // ----- What a round leaves -----

  predicate BlanksOnly(s: string, lo: int, hi: int) {
    0 <= lo && forall i | lo <= i < hi && i < |s| :: IsBlank(s[i])
  }

  lemma {:induction false} SkipBlanksStops(r: string, i: nat)
    requires i <= |r|
    ensures var j := SkipBlanks(r, i); BlanksOnly(r, i, j) && (j < |r| ==> !IsBlank(r[j]))
    decreases |r| - i
  {
    if i < |r| && IsBlank(r[i]) {
      SkipBlanksStops(r, i + 1);
    }
  }

  lemma {:induction false} TrimBlankRightStops(s: string)
    ensures var t := TrimBlankRight(s); t != [] ==> !IsBlank(t[|t| - 1])
  {
    if s != [] && IsBlank(s[|s| - 1]) {
      TrimBlankRightStops(s[..|s| - 1]);
    }
  }

  /** `t` is `s` without exactly the blanks at its end. */
  predicate WithoutEndBlanks(s: string, t: string) {
    t <= s && (t == [] || !IsBlank(t[|t| - 1])) && BlanksOnly(s, |t|, |s|)
  }

  /** The state after a decision: the chunk emitted, and where the rest of the text begins. */
  ghost predicate Leaves(s: State, d: Decision, s': State) {
    match d
    case Rest => s' == State(s.runes, |s.runes|, s.chunks + [s.runes[Min(s.start, |s.runes|)..]])
    case Cut(at) =>
      && s.start <= at <= s'.start <= |s.runes|
      && BlanksOnly(s.runes, at, s'.start) && (s'.start < |s.runes| ==> !IsBlank(s.runes[s'.start]))
      && s' == State(s.runes, s'.start, s.chunks + [s.runes[s.start..at]])
    case Refence(at, header) =>
      && s.start <= at <= |s.runes|
      && TrimmedTo(header + (['\n'] + s.runes[at..]), s'.runes)
      && exists body :: WithoutEndBlanks(s.runes[s.start..at], body)
                        && s' == State(s'.runes, 0, s.chunks + [body + (['\n'] + FENCE)])
  }

  lemma RefenceLeaves(s: State, maxLen: nat)
    requires !Finished(s) && maxLen > 0 && Decide(s.runes, s.start, maxLen).Refence?
    ensures Leaves(s, Decide(s.runes, s.start, maxLen), Next(s, maxLen))
  {
    DecisionInBounds(s, maxLen);
    RefenceFacts(s.runes, s.start, maxLen);
    var d := Decide(s.runes, s.start, maxLen);
    HeaderIsHeader(s.runes, OpenBlock(s.runes, s.start, TentativeCut(s.runes, s.start, maxLen)));
    var w := d.header + (['\n'] + s.runes[d.at..]);
    assert w[0] == d.header[..3][0] == TICK;
    TrimSpaceTrims(w);
    var body := s.runes[s.start..d.at];
    BlankTailHasNoTicks(body);
    TrimBlankRightStops(body);
    assert WithoutEndBlanks(body, TrimBlankRight(body));
  }

  /** In every round the next chunk starts at a rune that is not blank, and only blanks are dropped. */
  lemma RoundLeaves(s: State, maxLen: nat)
    requires !Finished(s) && maxLen > 0
    ensures Leaves(s, Decide(s.runes, s.start, maxLen), Next(s, maxLen))
  {
    DecisionInBounds(s, maxLen);
    var d := Decide(s.runes, s.start, maxLen);
    if d.Cut? {
      SkipBlanksStops(s.runes, d.at);
    } else if d.Refence? {
      RefenceLeaves(s, maxLen);
    }
  }

  lemma LeavesOneState(s: State, d: Decision, t: State, t': State)
    requires Leaves(s, d, t) && Leaves(s, d, t')
    ensures t == t'
  {
    match d {
      case Rest =>
      case Cut(at) =>
        assert t.start < |s.runes| ==> !IsBlank(s.runes[t.start]);
        assert t'.start < |s.runes| ==> !IsBlank(s.runes[t'.start]);
      case Refence(at, header) =>
        TrimmedIsOne(header + (['\n'] + s.runes[at..]), t.runes, t'.runes);
        var text := s.runes[s.start..at];
        var body :| WithoutEndBlanks(text, body) && t == State(t.runes, 0, s.chunks + [body + (['\n'] + FENCE)]);
        var body' :| WithoutEndBlanks(text, body') && t' == State(t'.runes, 0, s.chunks + [body' + (['\n'] + FENCE)]);
        WithoutEndBlanksIsOne(text, body, body');
    }
  }

  lemma WithoutEndBlanksIsOne(s: string, t: string, t': string)
    requires WithoutEndBlanks(s, t) && WithoutEndBlanks(s, t')
    ensures t == t'
  {
    WithoutEndBlanksReaches(s, t, t');
    WithoutEndBlanksReaches(s, t', t);
  }

  lemma WithoutEndBlanksReaches(s: string, t: string, t': string)
    requires WithoutEndBlanks(s, t) && WithoutEndBlanks(s, t')
    ensures |t'| <= |t|
  {
    assert t' != [] ==> t'[|t'| - 1] == s[|t'| - 1];
  }

  /** The whole round: it goes from `s` to `t` if and only if the rule says so. */
  lemma RoundIff(s: State, maxLen: nat, t: State)
    requires !Finished(s) && maxLen > 0
    ensures Next(s, maxLen) == t <==> exists d :: Prescribed(s.runes, s.start, maxLen, d) && Leaves(s, d, t)
  {
    var d0 := Decide(s.runes, s.start, maxLen);
    DecideIsPrescribed(s.runes, s.start, maxLen);
    RoundLeaves(s, maxLen);
    if d :| Prescribed(s.runes, s.start, maxLen, d) && Leaves(s, d, t) {
      DecidesIff(s.runes, s.start, maxLen, d);
      LeavesOneState(s, d, t, Next(s, maxLen));
    }
  }
}
