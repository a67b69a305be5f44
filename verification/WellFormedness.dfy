/** Histories a strict provider accepts, and exactly when sanitizing produces one. */
module WellFormedness {
  import opened Messages
  import opened Sanitizer
  import opened SanitizeProofs
  import opened Subsequences

  /** Every message is one the first pass admits after its predecessors. */
  predicate Stable(s: seq<Message>) {
    forall i | 0 <= i < |s| :: Admits(s[..i], s[i])
  }

  predicate AllAnswered(f: seq<Message>) {
    forall i | 0 <= i < |f| && IsCaller(f[i]) :: Answered(f[i], f[i + 1..])
  }

  /** No non-empty id is answered twice. */
  predicate UniqueResults(f: seq<Message>) {
    forall i, j | 0 <= i < j < |f| && IsTool(f[i]) && IsTool(f[j]) ::
      f[i].toolCallID == f[j].toolCallID ==> f[i].toolCallID == ""
  }

  predicate WellFormed(f: seq<Message>) {
    Stable(f) && AllAnswered(f) && UniqueResults(f)
  }

  /** `s[i]` is a calling assistant all of whose calls are answered in the run after it. */
  predicate Complete(s: seq<Message>, i: int) {
    0 <= i < |s| && IsCaller(s[i]) && Answered(s[i], s[i + 1..])
  }

  /** A complete block asks again for an id that an earlier complete block already answered. */
  predicate ReusesId(s: seq<Message>) {
    exists i, j :: 0 <= i < j < |s| && Complete(s, i) && Complete(s, j) && Reasks(s, i, j)
  }

  predicate Reasks(s: seq<Message>, i: int, j: int)
    requires 0 <= i < |s| && 0 <= j < |s|
  {
    exists id | id in s[j].toolCalls :: id != "" && id in RunIds(s[i + 1..])
  }

  // ----- What a well-formed history looks like -----

  /** The nearest message before position `i` that is not a tool message calls tools. */
  ghost predicate HasCallingOwner(f: seq<Message>, i: int)
    requires 0 <= i <= |f|
  {
    exists k :: 0 <= k < i && IsCaller(f[k]) && forall j :: k < j < i ==> IsTool(f[j])
  }

  lemma {:induction false} OwnerIsCaller(f: seq<Message>, i: int)
    requires 0 <= i <= |f|
    ensures OwnedByCaller(f[..i]) <==> HasCallingOwner(f, i)
    decreases i
  {
    if i > 0 {
      assert f[..i][..i - 1] == f[..i - 1] && f[..i][i - 1] == f[i - 1];
      OwnerIsCaller(f, i - 1);
      if IsTool(f[i - 1]) {
        if HasCallingOwner(f, i - 1) {
          var k :| 0 <= k < i - 1 && IsCaller(f[k]) && forall j :: k < j < i - 1 ==> IsTool(f[j]);
          assert forall j :: k < j < i ==> IsTool(f[j]);
        }
      }
    }
  }

  /** For every history, whatever its ids: no system message survives and every result has an owner. */
  lemma SanitizedResultsAreOwned(h: seq<Message>, i: nat)
    requires i < |Sanitize(h)|
    ensures Sanitize(h)[i].role != System
    ensures IsTool(Sanitize(h)[i]) ==> HasCallingOwner(Sanitize(h), i)
  {
    RepairIsStable([], h);
    var s, f := Repair([], h), Sanitize(h);
    assert s[0..] == s;
    PruneOwns(s, 0, [], {}, Prune(s, {}));
    assert [] + f == f;
    assert Owned(f, i);
    OwnerIsCaller(f, i);
  }

  predicate Owned(f: seq<Message>, i: int)
    requires 0 <= i < |f|
  {
    f[i].role != System && (IsTool(f[i]) ==> OwnedByCaller(f[..i]))
  }

  predicate AllOwned(f: seq<Message>) {
    forall i | 0 <= i < |f| :: Owned(f, i)
  }

  lemma AllOwnedExtends(a: seq<Message>, m: Message)
    requires AllOwned(a) && m.role != System && (IsTool(m) ==> OwnedByCaller(a))
    ensures AllOwned(a + [m])
  {
    var b := a + [m];
    forall i | 0 <= i < |b|
      ensures Owned(b, i)
    {
      assert b[..i] == a[..i];
      if i < |a| {
        assert Owned(a, i);
      } else {
        assert a[..i] == a;
      }
    }
  }

  /** What is still to be emitted for `s[k..]` follows `out`, whose results are owned, in `f`. */
  ghost predicate EmitsOwned(s: seq<Message>, k: nat, out: seq<Message>, seen: set<string>, f: seq<Message>) {
    && k <= |s| && AllOwned(out) && f == out + Prune(s[k..], seen)
    && (k < |s| && IsTool(s[k]) ==> OwnedByCaller(s[..k]) && OwnedByCaller(out))
  }

  lemma KeepsOwned(s: seq<Message>, k: nat, out: seq<Message>, seen: set<string>, f: seq<Message>)
    returns (out': seq<Message>, seen': set<string>)
    requires Stable(s) && k < |s| && EmitsOwned(s, k, out, seen, f) && Keeps(s[k], s[k + 1..], seen)
    ensures EmitsOwned(s, k + 1, out', seen', f)
  {
    out', seen' := out + [s[k]], Mark(seen, s[k]);
    assert Admits(s[..k], s[k]) && s[k..][0] == s[k] && s[k..][1..] == s[k + 1..];
    assert s[..k + 1][..k] == s[..k];
    AllOwnedExtends(out, s[k]);
    assert (out + [s[k]])[..|out|] == out;
    if k + 1 < |s| && IsTool(s[k + 1]) {
      assert Admits(s[..k + 1], s[k + 1]);
    }
    ConcatAssociates(out, [s[k]], Prune(s[k + 1..], Mark(seen, s[k])));
  }

  lemma DropsOwned(s: seq<Message>, k: nat, out: seq<Message>, seen: set<string>, f: seq<Message>) returns (k': nat)
    requires Stable(s) && k < |s| && EmitsOwned(s, k, out, seen, f) && !Keeps(s[k], s[k + 1..], seen)
    ensures k < k' <= |s| && EmitsOwned(s, k', out, seen, f)
  {
    var t := s[k..];
    assert Admits(s[..k], s[k]) && t[0] == s[k] && t[1..] == s[k + 1..];
    assert s[..k + 1][..k] == s[..k];
    k' := k + 1 + if IsTool(s[k]) then 0 else RunLength(t[1..]);
    assert AfterDrop(t[0], t[1..]) == s[k'..];
    RunIsMaximal(t[1..]);
    if k' < |s| && IsTool(s[k']) {
      assert Admits(s[..k'], s[k']);
    }
  }

  lemma {:induction false} PruneOwns(s: seq<Message>, k: nat, out: seq<Message>, seen: set<string>, f: seq<Message>)
    requires Stable(s) && EmitsOwned(s, k, out, seen, f)
    ensures AllOwned(f)
    decreases |s| - k
  {
    if k == |s| {
      assert f == out;
    } else if Keeps(s[k], s[k + 1..], seen) {
      var out', seen' := KeepsOwned(s, k, out, seen, f);
      PruneOwns(s, k + 1, out', seen', f);
    } else {
      var k' := DropsOwned(s, k, out, seen, f);
      PruneOwns(s, k', out, seen, f);
    }
  }

  // ----- Stability -----

  lemma StableExtends(a: seq<Message>, m: Message)
    requires Stable(a) && Admits(a, m)
    ensures Stable(a + [m])
  {
    var b := a + [m];
    forall i | 0 <= i < |b|
      ensures Admits(b[..i], b[i])
    {
      assert b[..i] == a[..i];
      if i == |a| {
        assert a[..i] == a;
      }
    }
  }

  lemma {:induction false} RepairIsStable(s: seq<Message>, h: seq<Message>)
    requires Stable(s)
    ensures Stable(Repair(s, h))
    decreases |h|
  {
    if h != [] {
      if Admits(s, h[0]) {
        StableExtends(s, h[0]);
        RepairIsStable(s + [h[0]], h[1..]);
      } else {
        RepairIsStable(s, h[1..]);
      }
    }
  }

  lemma {:induction false} StableIsFixed(s: seq<Message>, k: nat)
    requires Stable(s) && k <= |s|
    ensures Repair(s[..k], s[k..]) == s
    decreases |s| - k
  {
    if k == |s| {
      assert s[..k] == s;
    } else {
      assert Admits(s[..k], s[k]);
      assert s[..k] + [s[k]] == s[..k + 1] && s[k..][1..] == s[k + 1..];
      StableIsFixed(s, k + 1);
    }
  }

  lemma {:induction false} ToolsExtend(a: seq<Message>, run: seq<Message>)
    requires Stable(a) && OwnedByCaller(a)
    requires forall k | 0 <= k < |run| :: IsTool(run[k])
    ensures Stable(a + run) && OwnedByCaller(a + run)
    decreases |run|
  {
    if run == [] {
      assert a + run == a;
    } else {
      StableExtends(a, run[0]);
      assert (a + [run[0]])[..|a|] == a;
      ToolsExtend(a + [run[0]], run[1..]);
      assert run == [run[0]] + run[1..];
      ConcatAssociates(a, [run[0]], run[1..]);
    }
  }

  // ----- Answers -----

  lemma {:induction false} AnsweredGrows(rest: seq<Message>, more: seq<Message>)
    ensures RunIds(rest) <= RunIds(rest + more)
    decreases |rest|
  {
    if rest != [] {
      assert (rest + more)[1..] == rest[1..] + more;
      AnsweredGrows(rest[1..], more);
    }
  }

  lemma AllAnsweredConcat(a: seq<Message>, b: seq<Message>)
    requires AllAnswered(a) && AllAnswered(b)
    ensures AllAnswered(a + b)
  {
    var f := a + b;
    forall i | 0 <= i < |f| && IsCaller(f[i])
      ensures Answered(f[i], f[i + 1..])
    {
      if i < |a| {
        assert f[i + 1..] == a[i + 1..] + b;
        AnsweredGrows(a[i + 1..], b);
      } else {
        assert f[i + 1..] == b[i - |a| + 1..];
      }
    }
  }

  /** An id of a run is answered at some position of it, and every position answers its id. */
  lemma {:induction false} RunPosition(s: seq<Message>, id: string) returns (k: nat)
    requires id in RunIds(s)
    ensures k < RunLength(s) && s[k].toolCallID == id
  {
    if s[0].toolCallID == id {
      k := 0;
    } else {
      k := RunPosition(s[1..], id);
      k := k + 1;
    }
  }

  /** A run consists of tool messages and extends as far as possible. */
  lemma {:induction false} RunIsMaximal(s: seq<Message>)
    ensures forall k :: 0 <= k < RunLength(s) ==> IsTool(s[k])
    ensures RunLength(s) < |s| ==> !IsTool(s[RunLength(s)])
  {
    if s != [] && IsTool(s[0]) {
      RunIsMaximal(s[1..]);
      assert forall k :: 0 < k < RunLength(s) ==> s[k] == s[1..][k - 1];
    }
  }

  lemma {:induction false} RunIdAt(s: seq<Message>, k: nat)
    requires k < RunLength(s)
    ensures s[k].toolCallID in RunIds(s)
  {
    if k > 0 {
      RunIdAt(s[1..], k - 1);
    }
  }

  lemma {:induction false} RunOfTools(run: seq<Message>)
    requires forall k | 0 <= k < |run| :: IsTool(run[k])
    ensures RunLength(run) == |run|
  {
    if run != [] {
      RunOfTools(run[1..]);
    }
  }

  /** Pruning a run keeps, for each id not seen before, a tool message that answers it. */
  lemma {:induction false} PruneRun(run: seq<Message>, seen: set<string>)
    requires forall k | 0 <= k < |run| :: IsTool(run[k])
    ensures forall k | 0 <= k < |Prune(run, seen)| :: IsTool(Prune(run, seen)[k])
    ensures RunIds(run) <= seen + RunIds(Prune(run, seen))
    decreases |run|
  {
    if run != [] {
      var m, rest := run[0], run[1..];
      if Keeps(m, rest, seen) {
        PruneRun(rest, Mark(seen, m));
        assert ([m] + Prune(rest, Mark(seen, m)))[1..] == Prune(rest, Mark(seen, m));
      } else {
        PruneRun(rest, seen);
      }
    }
  }

  // ----- Uniqueness -----

  lemma {:induction false} PruneIsUnique(s: seq<Message>, seen: set<string>)
    requires "" !in seen
    ensures UniqueResults(Prune(s, seen))
    ensures forall k | 0 <= k < |Prune(s, seen)| && IsTool(Prune(s, seen)[k]) :: Prune(s, seen)[k].toolCallID !in seen
    decreases |s|
  {
    if s != [] {
      if Keeps(s[0], s[1..], seen) {
        PruneIsUnique(s[1..], Mark(seen, s[0]));
      } else {
        PruneIsUnique(AfterDrop(s[0], s[1..]), seen);
      }
    }
  }

  // ----- Sanitizing yields a well-formed history exactly when no id is reused -----

  /** At a block boundary `k`: what was emitted for `s[..k]` is `out`, and `seen` are its results. */
  ghost predicate AtBoundary(s: seq<Message>, k: nat, out: seq<Message>, seen: set<string>) {
    && k <= |s|
    && (k < |s| ==> !IsTool(s[k]))
    && (EndsInUserOrTool(s[..k]) ==> EndsInUserOrTool(out))
    && Stable(out) && AllAnswered(out)
    && "" !in seen
    && forall id | id in seen :: EarlierAnswer(s, k, id)
  }

  ghost predicate EarlierAnswer(s: seq<Message>, k: nat, id: string) {
    exists i | 0 <= i < k && i < |s| :: Complete(s, i) && id in RunIds(s[i + 1..])
  }

  /** A message that owns no run is kept and ends its block. */
  lemma KeepPlain(s: seq<Message>, k: nat, out: seq<Message>, seen: set<string>)
    requires Stable(s) && AtBoundary(s, k, out, seen) && k < |s| && !IsCaller(s[k])
    ensures AtBoundary(s, k + 1, out + [s[k]], seen)
  {
    assert Admits(s[..k], s[k]);
    StableExtends(out, s[k]);
    AllAnsweredConcat(out, [s[k]]);
    if k + 1 < |s| {
      assert s[..k + 1][..k] == s[..k];
      assert Admits(s[..k + 1], s[k + 1]);
    }
    forall id | id in seen
      ensures EarlierAnswer(s, k + 1, id)
    {
      assert EarlierAnswer(s, k, id);
    }
  }

  /** Pruning the run of a complete block whose ids are new leaves every call answered. */
  lemma PrunedRunAnswers(m: Message, whole: seq<Message>, tail: seq<Message>, seen: set<string>)
    requires IsCaller(m) && Answered(m, whole + tail) && (tail == [] || !IsTool(tail[0]))
    requires forall k | 0 <= k < |whole| :: IsTool(whole[k])
    requires forall id | id in m.toolCalls :: id !in seen
    ensures var run := Prune(whole, seen);
            run != [] && (forall k | 0 <= k < |run| :: IsTool(run[k])) && AllAnswered([m] + run)
  {
    var run := Prune(whole, seen);
    RunIsLocal(whole, tail);
    PruneRun(whole, seen);
    assert Answered(m, run);
    assert m.toolCalls[0] in m.toolCalls;
    assert run != [];
    assert ([m] + run)[1..] == run;
  }

  lemma AppendBlock(out: seq<Message>, m: Message, run: seq<Message>)
    requires Stable(out) && AllAnswered(out) && Admits(out, m) && IsCaller(m)
    requires run != [] && (forall k | 0 <= k < |run| :: IsTool(run[k])) && AllAnswered([m] + run)
    ensures Stable(out + ([m] + run)) && AllAnswered(out + ([m] + run)) && EndsInUserOrTool(out + ([m] + run))
  {
    StableExtends(out, m);
    assert (out + [m])[..|out|] == out;
    ToolsExtend(out + [m], run);
    ConcatAssociates(out, [m], run);
    AllAnsweredConcat(out, [m] + run);
  }

  lemma EarlierAnswersGrow(s: seq<Message>, k: nat, k': nat, seen: set<string>)
    requires k <= k' && forall id | id in seen :: EarlierAnswer(s, k, id)
    ensures forall id | id in seen :: EarlierAnswer(s, k', id)
  {
    forall id | id in seen
      ensures EarlierAnswer(s, k', id)
    {
      assert EarlierAnswer(s, k, id);
    }
  }

  lemma RunAnswersEarlier(s: seq<Message>, k: nat, k': nat, whole: seq<Message>, seen: set<string>)
    requires k < k' && Complete(s, k)
    requires whole == s[k + 1..][..RunLength(s[k + 1..])]
    ensures forall id | id in ResultIds(Prune(whole, seen)) :: EarlierAnswer(s, k', id)
  {
    PruneKeeps(whole, seen);
    SubsequenceResultIds(Prune(whole, seen), whole);
    forall id | id in ResultIds(Prune(whole, seen))
      ensures EarlierAnswer(s, k', id)
    {
      var i :| 0 <= i < |whole| && whole[i].toolCallID == id;
      RunIdAt(s[k + 1..], i);
    }
  }

  /** A complete block whose ids are new keeps its caller and a non-empty part of its run. */
  lemma KeepBlock(s: seq<Message>, k: nat, out: seq<Message>, seen: set<string>, n: nat)
    requires Stable(s) && AtBoundary(s, k, out, seen) && Complete(s, k)
    requires n == RunLength(s[k + 1..])
    requires forall id | id in s[k].toolCalls :: id !in seen
    ensures var run := Prune(s[k + 1..][..n], seen);
            AtBoundary(s, k + 1 + n, out + ([s[k]] + run), seen + ResultIds(run))
  {
    var rest := s[k + 1..];
    var whole, tail := rest[..n], rest[n..];
    RunIsMaximal(rest);
    assert rest == whole + tail;
    assert Admits(s[..k], s[k]);
    PrunedRunAnswers(s[k], whole, tail, seen);
    AppendBlock(out, s[k], Prune(whole, seen));
    EarlierAnswersGrow(s, k, k + 1 + n, seen);
    RunAnswersEarlier(s, k, k + 1 + n, whole, seen);
    assert k + 1 + n < |s| ==> s[k + 1 + n] == rest[n];
  }

  lemma DropBlock(s: seq<Message>, k: nat, out: seq<Message>, seen: set<string>, n: nat)
    requires Stable(s) && AtBoundary(s, k, out, seen) && k < |s| && IsCaller(s[k])
    requires n == RunLength(s[k + 1..])
    ensures AtBoundary(s, k + 1 + n, out, seen)
  {
    RunIsMaximal(s[k + 1..]);
    assert Admits(s[..k], s[k]);
    assert k + 1 + n < |s| ==> s[k + 1 + n] == s[k + 1..][n];
    EarlierAnswersGrow(s, k, k + 1 + n, seen);
  }

  lemma FreshCalls(s: seq<Message>, k: nat, out: seq<Message>, seen: set<string>)
    requires AtBoundary(s, k, out, seen) && Complete(s, k) && !ReusesId(s)
    ensures forall id | id in s[k].toolCalls :: id !in seen
  {
    forall id | id in s[k].toolCalls && id in seen
      ensures false
    {
      assert EarlierAnswer(s, k, id);
      var i :| 0 <= i < k && Complete(s, i) && id in RunIds(s[i + 1..]);
      assert Reasks(s, i, k);
    }
  }

  /** How the second pass treats the block of a caller as a whole. */
  lemma PruneOneBlock(m: Message, rest: seq<Message>, seen: set<string>)
    requires IsCaller(m)
    ensures var n := RunLength(rest);
            var run := Prune(rest[..n], seen);
            Prune([m] + rest, seen) ==
              if Answered(m, rest) then ([m] + run) + Prune(rest[n..], seen + ResultIds(run)) else Prune(rest[n..], seen)
  {
    var n := RunLength(rest);
    assert ([m] + rest)[1..] == rest;
    if Answered(m, rest) {
      RunIsMaximal(rest);
      assert rest == rest[..n] + rest[n..];
      PruneSplit(rest[..n], rest[n..], seen);
      var run := Prune(rest[..n], seen);
      ConcatAssociates([m], run, Prune(rest[n..], seen + ResultIds(run)));
    }
  }

  lemma NextAfterPlain(s: seq<Message>, k: nat, out: seq<Message>, seen: set<string>)
    requires Stable(s) && AtBoundary(s, k, out, seen) && k < |s| && !IsCaller(s[k])
    ensures AtBoundary(s, k + 1, out + [s[k]], seen)
    ensures out + Prune(s[k..], seen) == out + [s[k]] + Prune(s[k + 1..], seen)
  {
    KeepPlain(s, k, out, seen);
    assert s[k..][1..] == s[k + 1..];
    ConcatAssociates(out, [s[k]], Prune(s[k + 1..], seen));
  }

  lemma KeepFreshBlock(s: seq<Message>, k: nat, out: seq<Message>, seen: set<string>, n: nat)
    requires Stable(s) && !ReusesId(s)
    requires AtBoundary(s, k, out, seen) && Complete(s, k) && n == RunLength(s[k + 1..])
    ensures var run := Prune(s[k + 1..][..n], seen);
            k + 1 + n <= |s| && AtBoundary(s, k + 1 + n, out + ([s[k]] + run), seen + ResultIds(run))
  {
    FreshCalls(s, k, out, seen);
    KeepBlock(s, k, out, seen, n);
  }

  lemma PruneKeptBlock(s: seq<Message>, k: nat, out: seq<Message>, seen: set<string>,
                       k': nat, out': seq<Message>, seen': set<string>, f: seq<Message>)
    requires Complete(s, k) && k' <= |s| && KeptBlock(s, k, out, seen, k', out', seen')
    requires f == out + Prune(s[k..], seen)
    ensures f == out' + Prune(s[k'..], seen')
  {
    var m, rest := s[k], s[k + 1..];
    var n := RunLength(rest);
    assert s[k..] == [m] + rest && rest[n..] == s[k'..];
    PruneOneBlock(m, rest, seen);
    ConcatAssociates(out, [m] + Prune(rest[..n], seen), Prune(rest[n..], seen'));
  }

  lemma NextAfterDropped(s: seq<Message>, k: nat, out: seq<Message>, seen: set<string>) returns (k': nat)
    requires Stable(s)
    requires AtBoundary(s, k, out, seen) && k < |s| && IsCaller(s[k]) && !Answered(s[k], s[k + 1..])
    ensures k < k' <= |s| && AtBoundary(s, k', out, seen)
    ensures Prune(s[k..], seen) == Prune(s[k'..], seen)
  {
    var m, rest := s[k], s[k + 1..];
    var n := RunLength(rest);
    k' := k + 1 + n;
    DropBlock(s, k, out, seen, n);
    assert s[k..] == [m] + rest && rest[n..] == s[k'..];
    PruneOneBlock(m, rest, seen);
  }

  /** What is still to be emitted for `s[k..]` follows `out` in `f`. */
  ghost predicate Emits(s: seq<Message>, k: nat, out: seq<Message>, seen: set<string>, f: seq<Message>) {
    AtBoundary(s, k, out, seen) && f == out + Prune(s[k..], seen)
  }

  /** The block at `k` is kept: where the next one starts, and what has been emitted by then. */
  predicate KeptBlock(s: seq<Message>, k: nat, out: seq<Message>, seen: set<string>,
                      k': nat, out': seq<Message>, seen': set<string>) {
    && k < |s| && k' == k + 1 + RunLength(s[k + 1..])
    && var run := Prune(s[k + 1..][..RunLength(s[k + 1..])], seen);
       out' == out + ([s[k]] + run) && seen' == seen + ResultIds(run)
  }

  lemma KeptBlockBoundary(s: seq<Message>, k: nat, out: seq<Message>, seen: set<string>)
    returns (k': nat, out': seq<Message>, seen': set<string>)
    requires Stable(s) && !ReusesId(s) && Complete(s, k) && AtBoundary(s, k, out, seen)
    ensures k < k' <= |s| && AtBoundary(s, k', out', seen') && KeptBlock(s, k, out, seen, k', out', seen')
  {
    var n := RunLength(s[k + 1..]);
    var run := Prune(s[k + 1..][..n], seen);
    KeepFreshBlock(s, k, out, seen, n);
    k', out', seen' := k + 1 + n, out + ([s[k]] + run), seen + ResultIds(run);
  }

  lemma NextAfterKept(s: seq<Message>, k: nat, out: seq<Message>, seen: set<string>, f: seq<Message>)
    returns (k': nat, out': seq<Message>, seen': set<string>)
    requires Stable(s) && !ReusesId(s) && Complete(s, k) && Emits(s, k, out, seen, f)
    ensures k < k' <= |s| && Emits(s, k', out', seen', f)
  {
    k', out', seen' := KeptBlockBoundary(s, k, out, seen);
    PruneKeptBlock(s, k, out, seen, k', out', seen', f);
  }

  lemma {:induction false} PruneByBlocks(s: seq<Message>, k: nat, out: seq<Message>, seen: set<string>, f: seq<Message>)
    requires Stable(s) && !ReusesId(s) && Emits(s, k, out, seen, f)
    ensures Stable(f) && AllAnswered(f)
    decreases |s| - k
  {
    if k == |s| {
      assert f == out;
    } else {
      var k', out', seen' := NextBlock(s, k, out, seen, f);
      PruneByBlocks(s, k', out', seen', f);
    }
  }

  lemma NextBlock(s: seq<Message>, k: nat, out: seq<Message>, seen: set<string>, f: seq<Message>)
    returns (k': nat, out': seq<Message>, seen': set<string>)
    requires Stable(s) && !ReusesId(s) && k < |s| && Emits(s, k, out, seen, f)
    ensures k < k' <= |s| && Emits(s, k', out', seen', f)
  {
    if Complete(s, k) {
      k', out', seen' := NextAfterKept(s, k, out, seen, f);
    } else if IsCaller(s[k]) {
      k' := NextAfterDropped(s, k, out, seen);
      out', seen' := out, seen;
    } else {
      NextAfterPlain(s, k, out, seen);
      k', out', seen' := k + 1, out + [s[k]], seen;
    }
  }

  /** Every non-empty id of a run is emitted by the time the run has been pruned. */
  lemma {:induction false} RunIsEmitted(x: seq<Message>, seen: set<string>)
    ensures RunIds(x) <= {""} + seen + ResultIds(Prune(x, seen))
    decreases |x|
  {
    if x != [] && IsTool(x[0]) {
      if Keeps(x[0], x[1..], seen) {
        SeenAfter(seen, x[0], Prune(x[1..], Mark(seen, x[0])));
        RunIsEmitted(x[1..], Mark(seen, x[0]));
      } else {
        RunIsEmitted(x[1..], seen);
      }
    }
  }

  /** What is emitted for the blocks before `j` answers every id of an earlier complete block. */
  lemma EarlierBlocksAreEmitted(s: seq<Message>, i: nat, j: nat)
    requires i < j < |s| && Complete(s, i) && !IsTool(s[j])
    ensures RunIds(s[i + 1..]) <= {""} + ResultIds(Prune(s[..j], {}))
  {
    var head, body, tail := s[..i], s[i + 1..j], s[j..];
    assert s[i + 1..] == body + tail;
    RunIsLocal(body, tail);
    assert s[..j] == head + ([s[i]] + body);
    PruneSplit(head, [s[i]] + body, {});
    var seen := {} + ResultIds(Prune(head, {}));
    assert ([s[i]] + body)[1..] == body;
    ResultIdsConcat(Prune(head, {}), Prune([s[i]] + body, seen));
    RunIsEmitted(body, seen);
    ResultIdsCons(s[i], Prune(body, seen));
  }

  /** Asking again for an id that was already emitted leaves the caller unanswered. */
  lemma ReaskedCallStaysOpen(a: seq<Message>, m: Message, rest: seq<Message>, id: string)
    requires IsCaller(m) && Answered(m, rest)
    requires id in m.toolCalls && id != "" && id in ResultIds(Prune(a, {}))
    ensures !AllAnswered(Prune(a + ([m] + rest), {}))
  {
    var out := Prune(a, {});
    var seen := {} + ResultIds(out);
    PruneSplit(a, [m] + rest, {});
    assert ([m] + rest)[1..] == rest;
    var after := Prune(rest, seen);
    PruneIsUnique(rest, seen);
    assert id !in RunIds(after) by {
      if id in RunIds(after) {
        var k := RunPosition(after, id);
        RunIsMaximal(after);
      }
    }
    assert !Answered(m, after);
    var f := out + ([m] + after);
    assert f[|out|] == m && f[|out| + 1..] == after;
  }

  lemma ReaskLeavesCallOpen(s: seq<Message>, i: nat, j: nat, id: string)
    requires i < j < |s| && Complete(s, i) && Complete(s, j)
    requires id in s[j].toolCalls && id != "" && id in RunIds(s[i + 1..])
    ensures !AllAnswered(Prune(s, {}))
  {
    EarlierBlocksAreEmitted(s, i, j);
    SplitAt(s, j);
    ReaskedCallStaysOpen(s[..j], s[j], s[j + 1..], id);
  }

  lemma ReuseLeavesCallOpen(s: seq<Message>)
    requires ReusesId(s)
    ensures !AllAnswered(Prune(s, {}))
  {
    var i, j :| 0 <= i < j < |s| && Complete(s, i) && Complete(s, j) && Reasks(s, i, j);
    var id :| id in s[j].toolCalls && id != "" && id in RunIds(s[i + 1..]);
    ReaskLeavesCallOpen(s, i, j, id);
  }

  lemma NoReuseIsWellFormed(s: seq<Message>)
    requires Stable(s) && !ReusesId(s)
    ensures WellFormed(Prune(s, {}))
  {
    PruneIsUnique(s, {});
    assert s[0..] == s && [] + Prune(s, {}) == Prune(s, {});
    if s != [] {
      assert Admits(s[..0], s[0]);
    }
    PruneByBlocks(s, 0, [], {}, Prune(s, {}));
  }

  /**
   A sanitized history is well-formed exactly when, in what the first pass keeps, no complete
   block asks for an id that an earlier complete block answered.
   */
  lemma WellFormedIffNoReuse(h: seq<Message>)
    ensures WellFormed(Sanitize(h)) <==> !ReusesId(Repair([], h))
  {
    var s := Repair([], h);
    RepairIsStable([], h);
    if ReusesId(s) {
      ReuseLeavesCallOpen(s);
    } else {
      NoReuseIsWellFormed(s);
    }
  }

  /** A history is well-formed exactly when sanitizing leaves it alone. */
  lemma WellFormedIffFixed(h: seq<Message>)
    ensures WellFormed(h) <==> Sanitize(h) == h
  {
    if WellFormed(h) {
      assert h[..0] == [] && h[0..] == h;
      StableIsFixed(h, 0);
      KeepsAll(h, {});
    }
    if Sanitize(h) == h {
      var s := Repair([], h);
      RepairKeeps([], h);
      assert [] + h == h;
      PruneKeeps(s, {});
      SubsequenceLength(s, h);
      SubsequenceLength(h, s);
      RepairIsStable([], h);
      PruneIsUnique(h, {});
      FixedIsAnswered(h, {});
    }
  }

  lemma {:induction false} SubsequenceLength(xs: seq<Message>, ys: seq<Message>)
    requires IsSubsequence(xs, ys)
    ensures |xs| <= |ys|
    ensures |xs| == |ys| ==> xs == ys
    decreases |ys|
  {
    if xs != [] {
      if xs[0] == ys[0] {
        SubsequenceLength(xs[1..], ys[1..]);
        assert xs == [xs[0]] + xs[1..] && ys == [ys[0]] + ys[1..];
      } else {
        SubsequenceLength(xs, ys[1..]);
      }
    }
  }

  lemma TailIsAnswered(s: seq<Message>)
    requires s != [] && AllAnswered(s) && UniqueResults(s)
    ensures AllAnswered(s[1..]) && UniqueResults(s[1..])
  {
    var rest := s[1..];
    assert forall i | 0 <= i < |rest| :: rest[i] == s[i + 1] && rest[i + 1..] == s[i + 2..];
  }

  lemma {:induction false} KeepsAll(s: seq<Message>, seen: set<string>)
    requires AllAnswered(s) && UniqueResults(s)
    requires forall k | 0 <= k < |s| && IsTool(s[k]) :: s[k].toolCallID !in seen
    ensures Prune(s, seen) == s
    decreases |s|
  {
    if s != [] {
      assert Keeps(s[0], s[1..], seen);
      var rest := s[1..];
      TailIsAnswered(s);
      KeepsAll(rest, Mark(seen, s[0]));
      assert s == [s[0]] + rest;
    }
  }

  lemma {:induction false} FixedIsAnswered(s: seq<Message>, seen: set<string>)
    requires Prune(s, seen) == s
    ensures AllAnswered(s)
    decreases |s|
  {
    if s != [] {
      var rest := s[1..];
      assert s == [s[0]] + rest;
      if Keeps(s[0], s[1..], seen) {
        assert Prune(s, seen)[1..] == Prune(rest, Mark(seen, s[0]));
        FixedIsAnswered(rest, Mark(seen, s[0]));
        forall i | 0 <= i < |s| && IsCaller(s[i])
          ensures Answered(s[i], s[i + 1..])
        {
          if i > 0 {
            assert s[i] == rest[i - 1] && s[i + 1..] == rest[i..];
          }
        }
      } else {
        var tail := AfterDrop(s[0], s[1..]);
        PruneKeeps(tail, seen);
        SubsequenceLength(Prune(tail, seen), tail);
      }
    }
  }

  /** Sanitizing twice changes nothing, exactly when no id is reused. */
  lemma SanitizeIsIdempotentIff(h: seq<Message>)
    ensures Sanitize(Sanitize(h)) == Sanitize(h) <==> !ReusesId(Repair([], h))
  {
    WellFormedIffNoReuse(h);
    WellFormedIffFixed(Sanitize(h));
  }

  // ----- A condition on the history itself -----

  /** No non-empty id is answered in two different runs of tool messages. */
  predicate RunsShareNoId(h: seq<Message>) {
    forall i, k, j | 0 <= i < k < j < |h| && IsTool(h[i]) && IsTool(h[j]) && h[i].toolCallID == h[j].toolCallID ::
      h[i].toolCallID == "" || IsTool(h[k])
  }

  lemma RemoveOne(x: seq<Message>, m: Message, y: seq<Message>)
    requires RunsShareNoId(x + ([m] + y))
    ensures RunsShareNoId(x + y)
  {
    var h, h' := x + ([m] + y), x + y;
    assert forall i | 0 <= i < |h'| :: h'[i] == h[if i < |x| then i else i + 1];
    forall i, k, j | 0 <= i < k < j < |h'| && IsTool(h'[i]) && IsTool(h'[j]) && h'[i].toolCallID == h'[j].toolCallID
      ensures h'[i].toolCallID == "" || IsTool(h'[k])
    {
      var i', k', j' := if i < |x| then i else i + 1, if k < |x| then k else k + 1, if j < |x| then j else j + 1;
      assert h[i'] == h'[i] && h[k'] == h'[k] && h[j'] == h'[j];
    }
  }

  lemma {:induction false} RepairKeepsRunsApart(s: seq<Message>, h: seq<Message>)
    requires RunsShareNoId(s + h)
    ensures RunsShareNoId(Repair(s, h))
    decreases |h|
  {
    if h == [] {
      assert s + h == s;
    } else {
      assert h == [h[0]] + h[1..];
      ConcatAssociates(s, [h[0]], h[1..]);
      RemoveOne(s, h[0], h[1..]);
      RepairKeepsRunsApart(if Admits(s, h[0]) then s + [h[0]] else s, h[1..]);
    }
  }

  lemma AnsweredInTwoRuns(s: seq<Message>, i: nat, j: nat, id: string)
    requires i < j < |s| && !IsTool(s[j]) && id != ""
    requires id in RunIds(s[i + 1..]) && id in RunIds(s[j + 1..])
    ensures !RunsShareNoId(s)
  {
    var p := RunPosition(s[i + 1..], id);
    var q := RunPosition(s[j + 1..], id);
    RunIsMaximal(s[i + 1..]);
    RunIsMaximal(s[j + 1..]);
    var a, b := i + 1 + p, j + 1 + q;
    assert s[a] == s[i + 1..][p] && s[b] == s[j + 1..][q];
    assert s[i + 1..][j - i - 1] == s[j];
    assert a < j < b;
  }

  lemma BlocksShareNoId(s: seq<Message>, i: nat, j: nat)
    requires RunsShareNoId(s) && i < j < |s| && Complete(s, i) && Complete(s, j)
    ensures !Reasks(s, i, j)
  {
    forall id | id in s[j].toolCalls && id != ""
      ensures id !in RunIds(s[i + 1..])
    {
      if id in RunIds(s[i + 1..]) {
        AnsweredInTwoRuns(s, i, j, id);
      }
    }
  }

  /** When no id is answered in two runs, the sanitized history is well-formed and a fixpoint. */
  lemma SanitizeIsWellFormed(h: seq<Message>)
    requires RunsShareNoId(h)
    ensures WellFormed(Sanitize(h))
    ensures Sanitize(Sanitize(h)) == Sanitize(h)
  {
    var s := Repair([], h);
    assert [] + h == h;
    RepairKeepsRunsApart([], h);
    forall i, j | 0 <= i < j < |s| && Complete(s, i) && Complete(s, j)
      ensures !Reasks(s, i, j)
    {
      BlocksShareNoId(s, i, j);
    }
    WellFormedIffNoReuse(h);
    SanitizeIsIdempotentIff(h);
  }

  /** A reused id defeats the duplicate check: the second caller survives without its answer. */
  lemma ReusedIdExample(first: seq<Message>, v: Message, c: Message, t: Message)
    requires first == [UserMessage("a"), c, ToolMessage("1", "x"), AssistantMessage("b", [])]
    requires v == UserMessage("c") && c == AssistantMessage("", ["x"]) && t == ToolMessage("2", "x")
    ensures Sanitize(first + [v, c, t]) == first + [v, c]
    ensures Sanitize(first + [v, c]) == first + [v]
    ensures !WellFormed(first + [v, c])
  {
    var f := first + [v, c];
    SanitizeSplitsPlain(first[0], c, first[2], first[3]);
    BlockOfOne(v, c, t);
    ReusedIdInSecondTurn(first, v, c, t);
    SanitizeSplitsAtUser(first, [v, c, t]);
    SanitizeSplitsAtUser(first, [v, c]);
    Unanswered(v, c);
    assert f[5] == c && f[6..] == [];
    assert c.toolCalls[0] in c.toolCalls;
    assert !Answered(f[5], f[6..]);
  }

  lemma ReusedIdInSecondTurn(first: seq<Message>, v: Message, c: Message, t: Message)
    requires |first| == 4 && first[2].toolCallID == "x" && IsTool(first[2])
    requires forall k | 0 <= k < 4 && IsTool(first[k]) :: first[k].toolCallID == "x"
    requires IsUser(v) && IsCaller(c) && IsTool(t) && t.toolCallID == "x"
    ensures Without([v, c, t], ResultIds(first)) == [v, c]
    ensures Without([v], ResultIds(first)) == [v]
  {
    assert ResultIds(first) == {"x"};
    assert [v, c, t][1..] == [c, t] && [c, t][1..] == [t] && [t][1..] == [] && [v][1..] == [];
    assert Without([t], {"x"}) == [];
    assert Without([c, t], {"x"}) == [c];
  }

  lemma BlockOfOne(u: Message, c: Message, t: Message)
    requires IsUser(u) && IsCaller(c) && IsTool(t) && c.toolCalls == [t.toolCallID]
    ensures WellFormed([u, c, t]) && Sanitize([u, c, t]) == [u, c, t]
  {
    var f := [u, c, t];
    assert f[..1] == [u] && f[..2] == [u, c] && f[..2][..1] == [u];
    assert Stable(f);
    assert f[2..] == [t] && [t][1..] == [];
    WellFormedIffFixed(f);
  }

  lemma SanitizeSplitsPlain(u: Message, c: Message, t: Message, p: Message)
    requires IsUser(u) && IsCaller(c) && IsTool(t) && c.toolCalls == [t.toolCallID]
    requires p.role == Assistant && p.toolCalls == []
    ensures Sanitize([u, c, t, p]) == [u, c, t, p]
  {
    var f := [u, c, t, p];
    BlockOfOne(u, c, t);
    assert f == [u, c, t] + [p];
    StableExtends([u, c, t], p);
    AllAnsweredConcat([u, c, t], [p]);
    WellFormedIffFixed(f);
  }

  lemma Unanswered(u: Message, c: Message)
    requires IsUser(u) && IsCaller(c)
    ensures Sanitize([u, c]) == [u]
  {
    var f := [u, c];
    assert f[..1] == [u] && f[..0] == [] && f[0..] == f;
    assert Admits(f[..1], f[1]);
    assert Stable(f);
    StableIsFixed(f, 0);
    assert f[1..] == [c] && [c][1..] == [];
    assert c.toolCalls[0] in c.toolCalls && c.toolCalls[0] !in RunIds([]);
    assert !Keeps(c, [], {}) && AfterDrop(c, []) == [];
    assert Prune([c], {}) == [];
  }
}
