/** Turn boundaries (`context_budget.go`) and emergency compression (`context_legacy.go`). */
module TurnCut {
  import opened Iteration
  import opened Messages
  import opened Sanitizer
  import opened SanitizeProofs
  import opened WellFormedness

  // ----- Turn boundaries -----

  /** The positions of the user messages, in order. */
  function TurnStarts(h: seq<Message>): (starts: seq<nat>)
    ensures forall k | 0 <= k < |starts| :: starts[k] < |h|
  {
    if h == [] then []
    else
      var n := |h| - 1;
      TurnStarts(h[..n]) + if IsUser(h[n]) then [n] else []
  }

  lemma {:induction false} TurnStartsAscend(h: seq<Message>, k: nat, l: nat)
    requires k < |TurnStarts(h)| && l < |TurnStarts(h)|
    ensures IsUser(h[TurnStarts(h)[k]])
    ensures k < l ==> TurnStarts(h)[k] < TurnStarts(h)[l]
    decreases |h|
  {
    var n := |h| - 1;
    var older := TurnStarts(h[..n]);
    if k < |older| {
      TurnStartsAscend(h[..n], k, if l < |older| then l else k);
    } else if l < |older| {
      TurnStartsAscend(h[..n], l, l);
    }
  }

  /** Every user message starts a turn. */
  lemma {:induction false} TurnStartAt(h: seq<Message>, i: nat) returns (k: nat)
    requires i < |h| && IsUser(h[i])
    ensures k < |TurnStarts(h)| && TurnStarts(h)[k] == i
    decreases |h|
  {
    var n := |h| - 1;
    if i < n {
      k := TurnStartAt(h[..n], i);
    } else {
      k := |TurnStarts(h)| - 1;
    }
  }

  method ParseTurnBoundaries(history: seq<Message>) returns (starts: seq<nat>)
    ensures starts == TurnStarts(history)
  {
    starts := [];
    for i := 0 to |history|
      invariant starts == TurnStarts(history[..i])
    {
      assert history[..i + 1][..i] == history[..i];
      if history[i].role == User {
        starts := starts + [i];
      }
    }
    assert history[..|history|] == history;
  }

  predicate NoUserIn(h: seq<Message>, from: int, to: int) {
    forall i | 0 <= i < |h| && from <= i < to :: !IsUser(h[i])
  }

  /** `b` is the boundary the code prefers for `target`. */
  predicate IsPreferredBoundary(h: seq<Message>, target: int, b: int) {
    if target <= 0 then b == 0
    else if target >= |h| then b == |h|
    else if NoUserIn(h, 0, |h|) then b == target
    else if !NoUserIn(h, 1, target + 1) then
      0 < b <= target && IsUser(h[b]) && NoUserIn(h, b + 1, target + 1)
    else if !NoUserIn(h, target + 1, |h|) then
      target < b < |h| && IsUser(h[b]) && NoUserIn(h, target + 1, b)
    else b == 0
  }

  predicate IsSafeBoundary(h: seq<Message>, index: int) {
    if index <= 0 || index >= |h| then true else IsUser(h[index])
  }

  /** The preferred boundary is unique, and safe unless the history has no turn at all. */
  lemma PreferredBoundary(h: seq<Message>, target: int, b: int, c: int)
    requires IsPreferredBoundary(h, target, b) && IsPreferredBoundary(h, target, c)
    ensures b == c
    ensures !NoUserIn(h, 0, |h|) ==> IsSafeBoundary(h, b)
  {
  }

  /** With turn `m` the last one at or before `target`, no user message lies between them. */
  lemma NothingAfterBackward(h: seq<Message>, target: int, m: int)
    requires -1 <= m < |TurnStarts(h)|
    requires forall l | m < l < |TurnStarts(h)| :: TurnStarts(h)[l] > target
    ensures NoUserIn(h, (if m < 0 then -1 else TurnStarts(h)[m]) + 1, target + 1)
  {
    var from := (if m < 0 then -1 else TurnStarts(h)[m]) + 1;
    forall i | 0 <= i < |h| && from <= i < target + 1
      ensures !IsUser(h[i])
    {
      if IsUser(h[i]) {
        var l := TurnStartAt(h, i);
        if l < m {
          TurnStartsAscend(h, l, m);
        }
      }
    }
  }

  /** With turn `m` the first one after `target`, no user message lies between them. */
  lemma NothingBeforeForward(h: seq<Message>, target: int, m: nat)
    requires m <= |TurnStarts(h)|
    requires forall l | 0 <= l < m :: TurnStarts(h)[l] <= target
    ensures NoUserIn(h, target + 1, if m < |TurnStarts(h)| then TurnStarts(h)[m] else |h|)
  {
    var to := if m < |TurnStarts(h)| then TurnStarts(h)[m] else |h|;
    forall i | 0 <= i < |h| && target + 1 <= i < to
      ensures !IsUser(h[i])
    {
      if IsUser(h[i]) {
        var l := TurnStartAt(h, i);
        if m < l {
          TurnStartsAscend(h, m, l);
        }
      }
    }
  }

  lemma NoTurnNoUser(h: seq<Message>)
    ensures TurnStarts(h) == [] <==> NoUserIn(h, 0, |h|)
  {
    if TurnStarts(h) == [] {
      NothingBeforeForward(h, -1, 0);
    } else {
      TurnStartsAscend(h, 0, 0);
    }
  }

  method FindSafeBoundary(history: seq<Message>, targetIndex: int) returns (boundary: int)
    ensures history == [] ==> boundary == 0
    ensures history != [] ==> IsPreferredBoundary(history, targetIndex, boundary)
  {
    if |history| == 0 {
      return 0;
    }
    if targetIndex <= 0 {
      return 0;
    }
    if targetIndex >= |history| {
      return |history|;
    }
    var turns := ParseTurnBoundaries(history);
    NoTurnNoUser(history);
    if |turns| == 0 {
      return targetIndex;
    }
    var backward := -1;
    ghost var m := -1;
    for k := 0 to |turns|
      invariant -1 <= m < k
      invariant backward == if m < 0 then -1 else turns[m]
      invariant backward <= targetIndex
      invariant forall l | m < l < k :: turns[l] > targetIndex
    {
      if turns[k] <= targetIndex {
        backward := turns[k];
        m := k;
      }
    }
    NothingAfterBackward(history, targetIndex, m);
    if backward > 0 {
      TurnStartsAscend(history, m, m);
      return backward;
    }
    for k := 0 to |turns|
      invariant forall l | 0 <= l < k :: turns[l] <= targetIndex
    {
      if turns[k] > targetIndex {
        NothingBeforeForward(history, targetIndex, k);
        TurnStartsAscend(history, k, k);
        return turns[k];
      }
    }
    NothingBeforeForward(history, targetIndex, |turns|);
    return 0;
  }

  // ----- Compression -----

  /** Where the history is cut; zero means that a single turn, starting at the front, fills it. */
  function CutPoint(h: seq<Message>): (mid: nat)
    requires |h| > 2
    ensures mid < |h|
  {
    var turns := TurnStarts(h);
    if |turns| >= 2 then turns[|turns| / 2]
    else if |turns| == 1 then turns[0]
    else |h| / 2
  }

  /** With fewer than two turns, the preferred boundary near the middle is that cut. */
  lemma CutPointIsPreferred(h: seq<Message>, mid: int)
    requires |h| > 2 && |TurnStarts(h)| < 2
    requires IsPreferredBoundary(h, |h| / 2, mid)
    ensures mid == CutPoint(h)
  {
    NoTurnNoUser(h);
    if |TurnStarts(h)| == 1 {
      var start: int := TurnStarts(h)[0];
      TurnStartsAscend(h, 0, 0);
      NothingBeforeForward(h, start, 1);
      NothingAfterBackward(h, start - 1, -1);
    }
  }

  /** The last user message, alone. */
  function LastUser(h: seq<Message>): seq<Message> {
    if h == [] then []
    else if IsUser(h[|h| - 1]) then [h[|h| - 1]]
    else LastUser(h[..|h| - 1])
  }

  /** The history an emergency compression leaves. */
  function Compress(h: seq<Message>): seq<Message> {
    if |h| <= 2 then h
    else if CutPoint(h) == 0 then LastUser(h)
    else h[CutPoint(h)..]
  }

  /** A paragraph of a session summary; an emergency compression appends the count it dropped. */
  datatype Paragraph = Text(text: string) | EmergencyNote(dropped: nat)

  /** The paragraphs of a summary; the empty string has none. */
  type Summary = seq<Paragraph>

  /** One session of the session store: its history and its running summary. */
  class Session {
    var history: seq<Message>
    var summary: Summary

    constructor (history: seq<Message>, summary: Summary)
      ensures this.history == history && this.summary == summary
    {
      this.history := history;
      this.summary := summary;
    }

    /** Cuts the history in place; `ok` tells whether there was anything to compress. */
    method ForceCompression() returns (dropped: nat, remaining: nat, ok: bool)
      modifies this
      ensures ok <==> old(|history|) > 2
      ensures history == Compress(old(history))
      ensures !ok ==> summary == old(summary) && dropped == 0 && remaining == 0
      ensures ok ==> remaining == |history| && dropped == old(|history|) - remaining
      ensures ok ==> summary == old(summary) + [EmergencyNote(dropped)]
    {
      if |history| <= 2 {
        return 0, 0, false;
      }
      var turns := ParseTurnBoundaries(history);
      var mid: int;
      if |turns| >= 2 {
        mid := turns[|turns| / 2];
      } else {
        mid := FindSafeBoundary(history, |history| / 2);
        CutPointIsPreferred(history, mid);
      }
      var kept: seq<Message> := [];
      if mid <= 0 {
        kept := LastUserMessage(history);
      } else {
        kept := history[mid..];
      }
      CompressShape(history);
      dropped := |history| - |kept|;
      summary := summary + [EmergencyNote(dropped)];
      history := kept;
      return dropped, |kept|, true;
    }
  }

  method LastUserMessage(history: seq<Message>) returns (kept: seq<Message>)
    ensures kept == LastUser(history)
  {
    kept := [];
    var i := |history| - 1;
    assert history[..i + 1] == history;
    while i >= 0
      invariant -1 <= i < |history|
      invariant kept == []
      invariant LastUser(history) == LastUser(history[..i + 1])
    {
      assert history[..i + 1][..i] == history[..i];
      if history[i].role == User {
        return [history[i]];
      }
      i := i - 1;
    }
  }

  // ----- What compression does -----

  lemma {:induction false} LastUserIsIt(h: seq<Message>, k: nat)
    requires k < |h| && IsUser(h[k]) && NoUserIn(h, k + 1, |h|)
    ensures LastUser(h) == [h[k]]
    decreases |h|
  {
    if k < |h| - 1 {
      assert NoUserIn(h[..|h| - 1], k + 1, |h| - 1);
      LastUserIsIt(h[..|h| - 1], k);
    }
  }

  /**
   Either a proper suffix, which starts at a user message when there is one, or - exactly when
   the only turn starts at the very front - that turn's user message alone.
   */
  lemma CompressShape(h: seq<Message>)
    requires |h| > 2
    ensures |Compress(h)| < |h|
    ensures CutPoint(h) == 0 <==> TurnStarts(h) == [0]
    ensures CutPoint(h) == 0 ==> Compress(h) == [h[0]] && IsUser(h[0])
    ensures CutPoint(h) > 0 ==> Compress(h) == h[CutPoint(h)..]
    ensures CutPoint(h) > 0 && !NoUserIn(h, 0, |h|) ==> IsUser(h[CutPoint(h)])
  {
    var turns := TurnStarts(h);
    NoTurnNoUser(h);
    if |turns| >= 2 {
      TurnStartsAscend(h, 0, |turns| / 2);
      TurnStartsAscend(h, |turns| / 2, |turns| / 2);
    } else if |turns| == 1 {
      TurnStartsAscend(h, 0, 0);
      if turns[0] == 0 {
        NothingBeforeForward(h, 0, 1);
        LastUserIsIt(h, 0);
      }
    }
  }

  lemma {:induction false} TurnsOfSuffix(h: seq<Message>, mid: nat)
    requires mid <= |h|
    ensures |TurnStarts(h)| == |TurnStarts(h[..mid])| + |TurnStarts(h[mid..])|
    decreases |h| - mid
  {
    if mid == |h| {
      assert h[..mid] == h;
    } else {
      var n := |h| - 1;
      assert h[..n][..mid] == h[..mid] && h[..n][mid..] == h[mid..][..n - mid];
      TurnsOfSuffixStep(h, mid);
      TurnsOfSuffix(h[..n], mid);
    }
  }

  lemma TurnsOfSuffixStep(h: seq<Message>, mid: nat)
    requires mid < |h|
    ensures |TurnStarts(h)| - |TurnStarts(h[..|h| - 1])| ==
            |TurnStarts(h[mid..])| - |TurnStarts(h[mid..][..|h| - 1 - mid])|
  {
  }

  lemma {:induction false} TurnsBefore(h: seq<Message>, k: nat)
    requires k < |TurnStarts(h)|
    ensures |TurnStarts(h[..TurnStarts(h)[k]])| == k
    decreases |h|
  {
    var turns, n := TurnStarts(h), |h| - 1;
    if k < |TurnStarts(h[..n])| {
      TurnsBefore(h[..n], k);
      assert h[..n][..turns[k]] == h[..turns[k]];
    }
  }

  /** Of two turns or more, the older half goes and the newer half, rounded up, stays. */
  lemma CompressKeepsNewerHalf(h: seq<Message>)
    requires |h| > 2 && |TurnStarts(h)| >= 2
    ensures |TurnStarts(Compress(h))| == (|TurnStarts(h)| + 1) / 2
  {
    var k := |TurnStarts(h)| / 2;
    CompressShape(h);
    TurnsBefore(h, k);
    TurnsOfSuffix(h, TurnStarts(h)[k]);
  }

  // ----- Well-formedness survives -----

  /** Both sides of a turn boundary of a well-formed history are well-formed. */
  lemma TurnCutKeepsWellFormedness(a: seq<Message>, b: seq<Message>)
    requires WellFormed(a + b) && b != [] && IsUser(b[0])
    ensures WellFormed(a) && WellFormed(b)
  {
    var sa, sb := Sanitize(a), Sanitize(b);
    var kept := Without(sb, ResultIds(sa));
    WellFormedIffFixed(a + b);
    SanitizeSplitsAtUser(a, b);
    SanitizeLosesNothingEssential(a);
    SanitizeLosesNothingEssential(b);
    SubsequenceLength(sa, a);
    SubsequenceLength(sb, b);
    WithoutIsShorter(sb, ResultIds(sa));
    assert |sa + kept| == |a + b|;
    WellFormedIffFixed(a);
    WellFormedIffFixed(b);
  }

  lemma {:induction false} NoUserNoCaller(h: seq<Message>, i: nat)
    requires Stable(h) && NoUserIn(h, 0, |h|) && i < |h|
    ensures !IsTool(h[i]) && !IsCaller(h[i]) && h[i].role != System
    decreases i
  {
    assert Admits(h[..i], h[i]);
    if i > 0 {
      NoUserNoCaller(h, i - 1);
    }
  }

  lemma PlainIsWellFormed(h: seq<Message>)
    requires forall i | 0 <= i < |h| :: !IsTool(h[i]) && !IsCaller(h[i]) && h[i].role != System
    ensures WellFormed(h)
  {
    forall i | 0 <= i < |h|
      ensures Admits(h[..i], h[i])
    {
    }
  }

  lemma NoUserSuffixIsWellFormed(h: seq<Message>, mid: nat)
    requires Stable(h) && NoUserIn(h, 0, |h|) && mid <= |h|
    ensures WellFormed(h[mid..])
  {
    forall i | 0 <= i < |h|
      ensures !IsTool(h[i]) && !IsCaller(h[i]) && h[i].role != System
    {
      NoUserNoCaller(h, i);
    }
    PlainIsWellFormed(h[mid..]);
  }

  lemma CutKeepsWellFormedness(h: seq<Message>, mid: nat)
    requires WellFormed(h) && mid < |h|
    requires NoUserIn(h, 0, |h|) || IsUser(h[mid])
    ensures WellFormed(h[mid..])
  {
    if NoUserIn(h, 0, |h|) {
      NoUserSuffixIsWellFormed(h, mid);
    } else {
      assert h == h[..mid] + h[mid..];
      TurnCutKeepsWellFormedness(h[..mid], h[mid..]);
    }
  }

  /** Compression maps well-formed histories to well-formed histories. */
  lemma CompressKeepsWellFormedness(h: seq<Message>)
    requires WellFormed(h)
    ensures WellFormed(Compress(h))
  {
    if |h| > 2 {
      CompressShape(h);
      if CutPoint(h) == 0 {
        PlainIsWellFormed([h[0]]);
      } else {
        CutKeepsWellFormedness(h, CutPoint(h));
      }
    }
  }

  // ----- Repetition -----

  function CompressTimes(h: seq<Message>, n: nat): seq<Message> {
    Iterate(Compress, h, n)
  }

  /** Repeated compression reaches a history that it leaves alone. */
  lemma CompressionEnds(h: seq<Message>, n: nat)
    requires n >= |h|
    ensures |CompressTimes(h, n)| <= 2 && Compress(CompressTimes(h, n)) == CompressTimes(h, n)
  {
    var small, left := (t: seq<Message>) => |t| <= 2, (t: seq<Message>) => |t|;
    forall t: seq<Message>
      ensures if small(t) then Compress(t) == t else |Compress(t)| < |t|
    {
      if |t| > 2 {
        CompressShape(t);
      }
    }
    IterateEnds(Compress, (t: seq<Message>) => true, small, left, h, n);
  }

  /** However often it is repeated, compression keeps well-formedness. */
  lemma CompressionsKeepWellFormedness(h: seq<Message>, n: nat)
    requires WellFormed(h)
    ensures WellFormed(CompressTimes(h, n))
  {
    forall t: seq<Message> | WellFormed(t)
      ensures WellFormed(Compress(t))
    {
      CompressKeepsWellFormedness(t);
    }
    IterateKeeps(Compress, (t: seq<Message>) => WellFormed(t), h, n);
  }
}
