/**
 `SplitMessage` of `pkg/channels/split.go`: the finders, one round of the splitting loop, and the
 loop itself, proved against the functions `Decide`, `Next` and `Run`.
 */
module MessageSplitter {
  import opened Iteration

  // ----- Characters -----

  const TICK := '`'

  /** The characters that `strings.TrimRight(_, " \t\n\r")` and the start of a chunk drop. */
  predicate IsBlank(c: char) {
    c == ' ' || c == '\t' || c == '\n' || c == '\r'
  }

  /** `unicode.IsSpace`, which `strings.TrimSpace` uses. */
  predicate IsSpace(c: char) {
    var u := c as int;
    || 0x09 <= u <= 0x0D || u == 0x20 || u == 0x85 || u == 0xA0 || u == 0x1680
    || 0x2000 <= u <= 0x200A || u == 0x2028 || u == 0x2029 || u == 0x202F || u == 0x205F || u == 0x3000
  }

  function TrimBlankRight(s: string): (t: string)
    ensures t <= s
  {
    if s != [] && IsBlank(s[|s| - 1]) then TrimBlankRight(s[..|s| - 1]) else s
  }

  function TrimRight(s: string): (t: string)
    ensures t <= s
  {
    if s != [] && IsSpace(s[|s| - 1]) then TrimRight(s[..|s| - 1]) else s
  }

  function TrimLeft(s: string): (t: string)
    ensures |t| <= |s|
  {
    if s != [] && IsSpace(s[0]) then TrimLeft(s[1..]) else s
  }

  function TrimSpace(s: string): (t: string)
    ensures |t| <= |s|
  {
    TrimRight(TrimLeft(s))
  }

  // ----- Searching -----

  function Max(a: int, b: int): int {
    if a > b then a else b
  }

  function Min(a: int, b: int): int {
    if a < b then a else b
  }

  /** Three ticks at `i`, all before `end`. */
  predicate FenceAt(r: string, i: int, end: int)
    requires 0 <= i && end <= |r|
  {
    i + 2 < end && r[i] == TICK && r[i + 1] == TICK && r[i + 2] == TICK
  }

  /** The scan for an unclosed block from `i` on: the opening fence it ends in, or -1. */
  function Scan(r: string, i: nat, end: nat, inBlock: bool, last: int): (open: int)
    requires end <= |r|
    decreases end - i
  {
    if i >= end then if inBlock then last else -1
    else if FenceAt(r, i, end) then Scan(r, i + 3, end, !inBlock, if inBlock then last else i)
    else Scan(r, i + 1, end, inBlock, last)
  }

  /** The position after the first fence at or after `i`, or -1. */
  function FenceEnd(r: string, i: nat, end: nat): (close: int)
    requires end <= |r|
    ensures close == -1 || i + 3 <= close <= end
    decreases end - i
  {
    if i >= end then -1 else if FenceAt(r, i, end) then i + 3 else FenceEnd(r, i + 1, end)
  }

  function NewlineFrom(r: string, i: nat): (at: int)
    ensures at == -1 || i <= at < |r|
    decreases |r| - i
  {
    if i >= |r| then -1 else if r[i] == '\n' then i else NewlineFrom(r, i + 1)
  }

  /** The last newline of `r[lo..hi]`, or -1. */
  function LastNewline(r: string, lo: nat, hi: int): (at: int)
    requires hi <= |r|
    ensures at == -1 || (lo <= at < hi && r[at] == '\n')
    decreases hi
  {
    if hi <= lo then -1 else if r[hi - 1] == '\n' then hi - 1 else LastNewline(r, lo, hi - 1)
  }

  function LastGap(r: string, lo: nat, hi: int): (at: int)
    requires hi <= |r|
    ensures at == -1 || (lo <= at < hi && (r[at] == ' ' || r[at] == '\t'))
    decreases hi
  {
    if hi <= lo then -1 else if r[hi - 1] == ' ' || r[hi - 1] == '\t' then hi - 1 else LastGap(r, lo, hi - 1)
  }

  method FindLastUnclosedCodeBlockInRange(runes: string, start: nat, end: nat) returns (open: int)
    requires end <= |runes|
    ensures open == Scan(runes, start, end, false, -1)
  {
    var inCodeBlock := false;
    var lastOpenIdx := -1;
    var i := start;
    while i < end
      invariant Scan(runes, start, end, false, -1) == Scan(runes, i, end, inCodeBlock, lastOpenIdx)
    {
      if i + 2 < end && runes[i] == '`' && runes[i + 1] == '`' && runes[i + 2] == '`' {
        if !inCodeBlock {
          lastOpenIdx := i;
        }
        inCodeBlock := !inCodeBlock;
        i := i + 2;
      }
      i := i + 1;
    }
    open := if inCodeBlock then lastOpenIdx else -1;
  }

  method FindNextClosingCodeBlockInRange(runes: string, startIdx: nat, end: nat) returns (close: int)
    requires end <= |runes|
    ensures close == FenceEnd(runes, startIdx, end)
  {
    var i := startIdx;
    while i < end
      invariant FenceEnd(runes, startIdx, end) == FenceEnd(runes, i, end)
    {
      if i + 2 < end && runes[i] == '`' && runes[i + 1] == '`' && runes[i + 2] == '`' {
        return i + 3;
      }
      i := i + 1;
    }
    return -1;
  }

  method FindNewlineFrom(runes: string, from: nat) returns (at: int)
    ensures at == NewlineFrom(runes, from)
  {
    var i := from;
    while i < |runes|
      invariant NewlineFrom(runes, from) == NewlineFrom(runes, i)
    {
      if runes[i] == '\n' {
        return i;
      }
      i := i + 1;
    }
    return -1;
  }

  function NewlineInWindow(r: string, start: nat, end: int, window: nat): (at: int)
    requires end <= |r|
    ensures start - 1 <= at
    ensures at > start ==> at < end
  {
    var at := LastNewline(r, Max(end - window, start), end);
    if at < 0 then start - 1 else at
  }

  function GapInWindow(r: string, start: nat, end: int, window: nat): (at: int)
    requires end <= |r|
    ensures start - 1 <= at
    ensures at > start ==> at < end
  {
    var at := LastGap(r, Max(end - window, start), end);
    if at < 0 then start - 1 else at
  }

  method FindLastNewlineInRange(runes: string, start: nat, end: int, searchWindow: nat) returns (at: int)
    requires end <= |runes|
    ensures at == NewlineInWindow(runes, start, end, searchWindow)
  {
    var searchStart := Max(end - searchWindow, start);
    var i := end - 1;
    while i >= searchStart
      invariant i < end
      invariant LastNewline(runes, searchStart, end) == LastNewline(runes, searchStart, i + 1)
    {
      if runes[i] == '\n' {
        return i;
      }
      i := i - 1;
    }
    return start - 1;
  }

  method FindLastSpaceInRange(runes: string, start: nat, end: int, searchWindow: nat) returns (at: int)
    requires end <= |runes|
    ensures at == GapInWindow(runes, start, end, searchWindow)
  {
    var searchStart := Max(end - searchWindow, start);
    var i := end - 1;
    while i >= searchStart
      invariant i < end
      invariant LastGap(runes, searchStart, end) == LastGap(runes, searchStart, i + 1)
    {
      if runes[i] == ' ' || runes[i] == '\t' {
        return i;
      }
      i := i - 1;
    }
    return start - 1;
  }

  // ----- One round -----

  function Buffer(maxLen: nat): nat {
    var buffer := Max(maxLen / 10, 50);
    if buffer > maxLen / 2 then maxLen / 2 else buffer
  }

  function EffectiveLimit(maxLen: nat): (limit: nat)
    ensures maxLen > 0 ==> 0 < limit <= maxLen
  {
    Max(maxLen - Buffer(maxLen), maxLen / 2)
  }

  lemma LimitLeavesRoom(maxLen: nat)
    ensures maxLen < 5 ==> EffectiveLimit(maxLen) < 3
    ensures maxLen >= 10 ==> 5 <= EffectiveLimit(maxLen) <= maxLen - 5
  {
  }

  /** More than one chunk is left to emit. */
  predicate TooLong(r: string, start: nat, maxLen: nat) {
    maxLen > 0 && |r| - start > maxLen
  }

  /** The natural place to cut: a newline, else a space, else the effective limit. */
  function TentativeCut(r: string, start: nat, maxLen: nat): (cut: nat)
    requires TooLong(r, start, maxLen)
    ensures start < cut <= start + EffectiveLimit(maxLen)
  {
    var end := start + EffectiveLimit(maxLen);
    var newline := NewlineInWindow(r, start, end, 200);
    if newline > start then newline
    else
      var gap := GapInWindow(r, start, end, 100);
      if gap > start then gap else end
  }

  const FENCE := [TICK, TICK, TICK]

  /** The line that opens the block at `open`, or bare ticks when no newline ends it. */
  function Header(r: string, open: nat): string
    requires open + 3 <= |r|
  {
    var end := NewlineFrom(r, open);
    TrimSpace(if end == -1 then r[open..open + 3] else r[open..end])
  }

  function HeaderEnd(r: string, open: nat): nat
    requires open + 3 <= |r|
  {
    var end := NewlineFrom(r, open);
    if end == -1 then open + |Header(r, open)| else end
  }

  /** What one round does: emit everything, cut at a position, or cut there inside a code block. */
  datatype Decision = Rest | Cut(at: int) | Refence(at: int, header: string)

  /** The cut inside a block, as late as the closing fence to be added allows. */
  function InnerCut(r: string, start: nat, maxLen: nat, headerEnd: nat): int
    requires TooLong(r, start, maxLen)
  {
    var limit := Min(start + maxLen - 5, |r|);
    var better := NewlineInWindow(r, start, limit, 200);
    if better > headerEnd then better else limit
  }

  /** The last newline, else space, shortly before the block at `open`; at most `start` if none. */
  function CutBefore(r: string, start: nat, open: nat): int
    requires open <= |r|
  {
    var newline := NewlineInWindow(r, start, open, 200);
    if newline > start then newline else GapInWindow(r, start, open, 100)
  }

  lemma {:induction false} ScanFindsFence(r: string, i: nat, end: nat, inBlock: bool, last: int)
    requires end <= |r|
    ensures var open := Scan(r, i, end, inBlock, last);
            open == -1 || open == last || (i <= open && FenceAt(r, open, end))
    decreases end - i
  {
    if i < end {
      if FenceAt(r, i, end) {
        ScanFindsFence(r, i + 3, end, !inBlock, if inBlock then last else i);
      } else {
        ScanFindsFence(r, i + 1, end, inBlock, last);
      }
    }
  }

  /** The opening fence of the block that the tentative cut would leave open, or -1. */
  function OpenBlock(r: string, start: nat, cut: nat): (open: int)
    requires cut <= |r|
    ensures open == -1 || start <= open <= cut - 3
  {
    ScanFindsFence(r, start, cut, false, -1);
    Scan(r, start, cut, false, -1)
  }

  function Decide(r: string, start: nat, maxLen: nat): Decision
    requires start < |r| && maxLen > 0
  {
    if |r| - start <= maxLen then Rest
    else
      var cut := TentativeCut(r, start, maxLen);
      var open := OpenBlock(r, start, cut);
      if open == -1 then Cut(cut) else DecideInBlock(r, start, maxLen, cut, open)
  }

  function DecideInBlock(r: string, start: nat, maxLen: nat, cut: nat, open: nat): Decision
    requires TooLong(r, start, maxLen) && open + 3 <= cut <= |r|
  {
    var closing := FenceEnd(r, cut, |r|);
    if closing > 0 && closing - start <= maxLen then Cut(closing)
    else if cut > HeaderEnd(r, open) + 20 then
      Refence(InnerCut(r, start, maxLen, HeaderEnd(r, open)), Header(r, open))
    else
      var before := CutBefore(r, start, open);
      if before > start then Cut(before)
      else if open - start > 20 then Cut(open)
      else Refence(Min(start + maxLen - 5, |r|), Header(r, open))
  }

  // ----- The loop -----

  datatype State = State(runes: string, start: nat, chunks: seq<string>)

  function SkipBlanks(r: string, i: nat): (j: nat)
    ensures i <= j
    ensures i <= |r| ==> j <= |r|
    decreases |r| - i
  {
    if i < |r| && IsBlank(r[i]) then SkipBlanks(r, i + 1) else i
  }

  predicate Finished(s: State) {
    s.start >= |s.runes|
  }

  function ClosedChunk(body: string): string {
    TrimBlankRight(body) + (['\n'] + FENCE)
  }

  function Reopened(header: string, tail: string): string {
    TrimSpace(header + (['\n'] + tail))
  }

  /** The bounds every decision respects. */
  predicate InBounds(s: State, maxLen: nat, d: Decision) {
    match d
    case Rest => s.start < |s.runes| && |s.runes| - s.start <= maxLen
    case Cut(at) => s.start < at <= |s.runes| && at - s.start <= maxLen
    case Refence(at, _) => s.start <= at <= |s.runes| && at - s.start <= maxLen - 5
  }

  lemma BlockDecisionInBounds(s: State, maxLen: nat, cut: nat, open: nat)
    requires TooLong(s.runes, s.start, maxLen) && maxLen >= 5
    requires s.start <= open && open + 3 <= cut <= s.start + EffectiveLimit(maxLen)
    ensures InBounds(s, maxLen, DecideInBlock(s.runes, s.start, maxLen, cut, open))
  {
    LimitLeavesRoom(maxLen);
  }

  lemma DecisionInBounds(s: State, maxLen: nat)
    requires !Finished(s) && maxLen > 0
    ensures InBounds(s, maxLen, Decide(s.runes, s.start, maxLen))
  {
    if TooLong(s.runes, s.start, maxLen) {
      var cut := TentativeCut(s.runes, s.start, maxLen);
      var open := OpenBlock(s.runes, s.start, cut);
      if open != -1 {
        LimitLeavesRoom(maxLen);
        BlockDecisionInBounds(s, maxLen, cut, open);
      }
    }
  }

  /** Carries out a decision. */
  function Apply(s: State, maxLen: nat, d: Decision): State
    requires InBounds(s, maxLen, d)
  {
    match d
    case Rest => State(s.runes, |s.runes|, s.chunks + [s.runes[s.start..]])
    case Cut(at) => State(s.runes, SkipBlanks(s.runes, at), s.chunks + [s.runes[s.start..at]])
    case Refence(at, header) =>
      State(Reopened(header, s.runes[at..]), 0, s.chunks + [ClosedChunk(s.runes[s.start..at])])
  }

  /** One round of the loop. */
  function Next(s: State, maxLen: nat): State
    requires !Finished(s) && maxLen > 0
  {
    DecisionInBounds(s, maxLen);
    Apply(s, maxLen, Decide(s.runes, s.start, maxLen))
  }

  /** A round, or nothing once the loop has ended. */
  function Step(s: State, maxLen: nat): State
    requires maxLen > 0
  {
    if Finished(s) then s else Next(s, maxLen)
  }

  function Stepper(maxLen: nat): State -> State
    requires maxLen > 0
  {
    (s: State) => Step(s, maxLen)
  }

  /** At most `rounds` rounds of the loop. */
  function Run(s: State, maxLen: nat, rounds: nat): State
    requires maxLen > 0
  {
    Iterate(Stepper(maxLen), s, rounds)
  }

  function Init(content: string): State {
    State(content, 0, [])
  }

  method FindNaturalCut(runes: string, start: nat, maxLen: nat) returns (msgEnd: nat)
    requires TooLong(runes, start, maxLen)
    ensures msgEnd == TentativeCut(runes, start, maxLen)
  {
    var codeBlockBuffer := Max(maxLen / 10, 50);
    if codeBlockBuffer > maxLen / 2 {
      codeBlockBuffer := maxLen / 2;
    }
    var effectiveLimit := Max(maxLen - codeBlockBuffer, maxLen / 2);
    assert effectiveLimit == EffectiveLimit(maxLen);
    var end := start + effectiveLimit;
    var natural := FindLastNewlineInRange(runes, start, end, 200);
    if natural <= start {
      natural := FindLastSpaceInRange(runes, start, end, 100);
    }
    if natural <= start {
      natural := end;
    }
    msgEnd := natural;
  }

  method FindHeader(runes: string, unclosedIdx: nat) returns (header: string, headerEndIdx: nat)
    requires unclosedIdx + 3 <= |runes|
    ensures header == Header(runes, unclosedIdx) && headerEndIdx == HeaderEnd(runes, unclosedIdx)
  {
    var headerEnd := FindNewlineFrom(runes, unclosedIdx);
    if headerEnd == -1 {
      header := TrimSpace(runes[unclosedIdx..unclosedIdx + 3]);
    } else {
      header := TrimSpace(runes[unclosedIdx..headerEnd]);
    }
    headerEndIdx := unclosedIdx + |header|;
    if headerEnd != -1 {
      headerEndIdx := headerEnd;
    }
  }

  method FindInnerCut(runes: string, start: nat, maxLen: nat, headerEndIdx: nat) returns (at: int)
    requires TooLong(runes, start, maxLen)
    ensures at == InnerCut(runes, start, maxLen, headerEndIdx)
  {
    var innerLimit := Min(start + maxLen - 5, |runes|);
    var betterEnd := FindLastNewlineInRange(runes, start, innerLimit, 200);
    if betterEnd > headerEndIdx {
      at := betterEnd;
    } else {
      at := innerLimit;
    }
  }

  method FindCutBefore(runes: string, start: nat, unclosedIdx: nat) returns (newEnd: int)
    requires unclosedIdx <= |runes|
    ensures newEnd == CutBefore(runes, start, unclosedIdx)
  {
    newEnd := FindLastNewlineInRange(runes, start, unclosedIdx, 200);
    if newEnd <= start {
      newEnd := FindLastSpaceInRange(runes, start, unclosedIdx, 100);
    }
  }

  /** What to do when the tentative cut `msgEnd` would leave the block at `unclosedIdx` open. */
  method CutOpenBlock(runes: string, start: nat, maxLen: nat, msgEnd: nat, unclosedIdx: nat) returns (d: Decision)
    requires TooLong(runes, start, maxLen) && unclosedIdx + 3 <= msgEnd <= |runes|
    ensures d == DecideInBlock(runes, start, maxLen, msgEnd, unclosedIdx)
  {
    var closingIdx := FindNextClosingCodeBlockInRange(runes, msgEnd, |runes|);
    if closingIdx > 0 && closingIdx - start <= maxLen {
      return Cut(closingIdx);
    }
    var header, headerEndIdx := FindHeader(runes, unclosedIdx);
    if msgEnd > headerEndIdx + 20 {
      var at := FindInnerCut(runes, start, maxLen, headerEndIdx);
      return Refence(at, header);
    }
    var newEnd := FindCutBefore(runes, start, unclosedIdx);
    if newEnd > start {
      return Cut(newEnd);
    }
    if unclosedIdx - start > 20 {
      return Cut(unclosedIdx);
    }
    return Refence(Min(start + maxLen - 5, |runes|), header);
  }

  method DecideRound(runes: string, start: nat, maxLen: nat) returns (d: Decision)
    requires start < |runes| && maxLen > 0
    ensures d == Decide(runes, start, maxLen)
  {
    if |runes| - start <= maxLen {
      return Rest;
    }
    var msgEnd := FindNaturalCut(runes, start, maxLen);
    ghost var open := OpenBlock(runes, start, msgEnd);
    var unclosedIdx := FindLastUnclosedCodeBlockInRange(runes, start, msgEnd);
    if unclosedIdx >= 0 {
      d := CutOpenBlock(runes, start, maxLen, msgEnd, unclosedIdx);
    } else {
      d := Cut(msgEnd);
    }
  }

  method SkipLeadingBlanks(runes: string, from: nat) returns (start: nat)
    requires from <= |runes|
    ensures start == SkipBlanks(runes, from)
  {
    start := from;
    while start < |runes| && (runes[start] == ' ' || runes[start] == '\t' || runes[start] == '\n' || runes[start] == '\r')
      invariant from <= start <= |runes|
      invariant SkipBlanks(runes, from) == SkipBlanks(runes, start)
    {
      start := start + 1;
    }
  }

  /** One round of the loop, for every input: all slices and indexes are in bounds. */
  method Round(s: State, maxLen: nat) returns (s': State)
    requires !Finished(s) && maxLen > 0
    ensures s' == Next(s, maxLen)
  {
    DecisionInBounds(s, maxLen);
    var d := DecideRound(s.runes, s.start, maxLen);
    match d {
      case Rest =>
        s' := State(s.runes, |s.runes|, s.chunks + [s.runes[s.start..]]);
      case Refence(at, header) =>
        var chunk := ClosedChunk(s.runes[s.start..at]);
        var remaining := Reopened(header, s.runes[at..]);
        s' := State(remaining, 0, s.chunks + [chunk]);
      case Cut(at) =>
        var start := SkipLeadingBlanks(s.runes, at);
        s' := State(s.runes, start, s.chunks + [s.runes[s.start..at]]);
    }
  }
}
