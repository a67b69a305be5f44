/** What sanitizing keeps, when it is a fixpoint, and how it distributes over turn boundaries. */
module SanitizeProofs {
  import opened Messages
  import opened Sanitizer
  import opened Subsequences

  /** The non-empty ids answered by the tool messages of `f`. */
  function ResultIds(f: seq<Message>): set<string> {
    set k | 0 <= k < |f| && IsTool(f[k]) && f[k].toolCallID != "" :: f[k].toolCallID
  }

  /** `f` without the tool messages that answer an id of `ids`. */
  function Without(f: seq<Message>, ids: set<string>): seq<Message> {
    if f == [] then []
    else if IsTool(f[0]) && f[0].toolCallID in ids then Without(f[1..], ids)
    else [f[0]] + Without(f[1..], ids)
  }

  // ----- Repair -----

  lemma {:induction false} RepairSplit(s: seq<Message>, x: seq<Message>, y: seq<Message>)
    ensures Repair(s, x + y) == Repair(Repair(s, x), y)
    decreases |x|
  {
    if x == [] {
      assert x + y == y;
    } else {
      assert (x + y)[0] == x[0] && (x + y)[1..] == x[1..] + y;
      RepairSplit(if Admits(s, x[0]) then s + [x[0]] else s, x[1..], y);
    }
  }

  lemma {:induction false} RepairExtends(s: seq<Message>, h: seq<Message>)
    ensures s <= Repair(s, h)
    decreases |h|
  {
    if h != [] {
      RepairExtends(if Admits(s, h[0]) then s + [h[0]] else s, h[1..]);
    }
  }

  lemma {:induction false} OwnershipIsLocal(a: seq<Message>, b: seq<Message>)
    requires b != [] && !IsTool(b[0])
    ensures OwnedByCaller(a + b) == OwnedByCaller(b)
    decreases |b|
  {
    if IsTool(b[|b| - 1]) {
      assert (a + b)[..|a + b| - 1] == a + b[..|b| - 1];
      OwnershipIsLocal(a, b[..|b| - 1]);
    }
  }

  /** What was kept before a user message does not influence the rest of the first pass. */
  lemma {:induction false} RepairIsLocal(a: seq<Message>, b: seq<Message>, h: seq<Message>)
    requires b != [] && !IsTool(b[0])
    ensures Repair(a + b, h) == a + Repair(b, h)
    decreases |h|
  {
    if h != [] {
      OwnershipIsLocal(a, b);
      assert Admits(a + b, h[0]) == Admits(b, h[0]);
      assert a + b + [h[0]] == a + (b + [h[0]]);
      RepairIsLocal(a, if Admits(b, h[0]) then b + [h[0]] else b, h[1..]);
    }
  }

  lemma RepairDistributes(a: seq<Message>, b: seq<Message>)
    requires b != [] && IsUser(b[0])
    ensures Repair([], a + b) == Repair([], a) + Repair([], b)
    ensures Repair([], b) != [] && Repair([], b)[0] == b[0]
  {
    var s := Repair([], a);
    RepairSplit([], a, b);
    assert Repair(s, b) == Repair(s + [b[0]], b[1..]);
    assert Repair([], b) == Repair([b[0]], b[1..]) by {
      assert [] + [b[0]] == [b[0]];
    }
    RepairIsLocal(s, [b[0]], b[1..]);
    RepairExtends([b[0]], b[1..]);
  }

  // ----- Prune -----

  lemma {:induction false} RunIsLocal(x: seq<Message>, y: seq<Message>)
    requires y == [] || !IsTool(y[0])
    ensures RunLength(x + y) == RunLength(x)
    ensures RunIds(x + y) == RunIds(x)
    decreases |x|
  {
    if x == [] {
      assert x + y == y;
    } else {
      assert (x + y)[1..] == x[1..] + y;
      RunIsLocal(x[1..], y);
    }
  }

  lemma ResultIdsCons(m: Message, f: seq<Message>)
    ensures ResultIds([m] + f) == Mark({}, m) + ResultIds(f)
  {
    var g := [m] + f;
    assert g[1..] == f;
    forall id | id in Mark({}, m) + ResultIds(f)
      ensures id in ResultIds(g)
    {
      if id in ResultIds(f) {
        var k :| 0 <= k < |f| && IsTool(f[k]) && f[k].toolCallID == id;
        assert g[k + 1] == f[k];
      } else {
        assert g[0] == m;
      }
    }
  }

  lemma SeenAfter(seen: set<string>, m: Message, f: seq<Message>)
    ensures seen + ResultIds([m] + f) == Mark(seen, m) + ResultIds(f)
  {
    ResultIdsCons(m, f);
  }

  lemma ResultIdsConcat(a: seq<Message>, b: seq<Message>)
    ensures ResultIds(a + b) == ResultIds(a) + ResultIds(b)
  {
    forall id | id in ResultIds(b)
      ensures id in ResultIds(a + b)
    {
      var k :| 0 <= k < |b| && IsTool(b[k]) && b[k].toolCallID == id;
      assert (a + b)[|a| + k] == b[k];
    }
    forall id | id in ResultIds(a)
      ensures id in ResultIds(a + b)
    {
      var k :| 0 <= k < |a| && IsTool(a[k]) && a[k].toolCallID == id;
      assert (a + b)[k] == a[k];
    }
  }

  /** A list that starts outside a run is pruned on its own, given the ids emitted before it. */
  lemma {:induction false} PruneSplit(x: seq<Message>, y: seq<Message>, seen: set<string>)
    requires y == [] || !IsTool(y[0])
    ensures Prune(x + y, seen) == Prune(x, seen) + Prune(y, seen + ResultIds(Prune(x, seen)))
    decreases |x|
  {
    if x == [] {
      assert x + y == y && seen + ResultIds([]) == seen;
    } else {
      var m, rest := x[0], x[1..];
      assert (x + y)[0] == m && (x + y)[1..] == rest + y;
      RunIsLocal(rest, y);
      if Keeps(x[0], x[1..], seen) {
        var seen' := Mark(seen, m);
        var f := Prune(rest, seen');
        PruneSplit(rest, y, seen');
        SeenAfter(seen, m, f);
        ConcatAssociates([m], f, Prune(y, seen' + ResultIds(f)));
      } else {
        var n := RunLength(rest);
        assert (rest + y)[n..] == rest[n..] + y;
        PruneSplit(AfterDrop(m, rest), y, seen);
      }
    }
  }

  /** Ids already emitted only ever delete their own results. */
  lemma {:induction false} PruneSeen(s: seq<Message>, seen: set<string>, extra: set<string>)
    requires "" !in extra
    ensures Prune(s, seen + extra) == Without(Prune(s, seen), extra)
    decreases |s|
  {
    if s != [] {
      var m, rest := s[0], s[1..];
      if Keeps(s[0], s[1..], seen) {
        PruneSeen(rest, Mark(seen, m), extra);
        if IsTool(m) && m.toolCallID in extra {
          assert Mark(seen, m) + extra == seen + extra;
        } else {
          assert Mark(seen, m) + extra == Mark(seen + extra, m);
        }
      } else {
        PruneSeen(AfterDrop(s[0], s[1..]), seen, extra);
      }
    }
  }

  lemma {:induction false} WithoutIsShorter(f: seq<Message>, ids: set<string>)
    ensures |Without(f, ids)| <= |f|
    ensures Without(f, ids) == f <==> forall k :: 0 <= k < |f| && IsTool(f[k]) ==> f[k].toolCallID !in ids
  {
    if f != [] {
      WithoutIsShorter(f[1..], ids);
      assert forall k :: 0 <= k < |f[1..]| ==> f[1..][k] == f[k + 1];
      if !(IsTool(f[0]) && f[0].toolCallID in ids) {
        assert Without(f, ids) == [f[0]] + Without(f[1..], ids);
        assert Without(f, ids)[1..] == Without(f[1..], ids);
        if Without(f[1..], ids) == f[1..] {
          assert Without(f, ids) == f;
        }
      }
    }
  }

  // ----- Distribution over turn boundaries -----

  /**
   Cutting before a user message: the second part is sanitized as if it stood alone, less the
   results whose id was already answered in the first part.
   */
  lemma SanitizeSplitsAtUser(a: seq<Message>, b: seq<Message>)
    requires b != [] && IsUser(b[0])
    ensures Sanitize(a + b) == Sanitize(a) + Without(Sanitize(b), ResultIds(Sanitize(a)))
  {
    RepairDistributes(a, b);
    var x, y := Repair([], a), Repair([], b);
    PruneSplit(x, y, {});
    var ids := ResultIds(Sanitize(a));
    PruneSeen(y, {}, ids);
    assert {} + ids == ids;
  }

  /** Sanitizing distributes over a turn boundary exactly when the two results share no result id. */
  lemma SanitizeDistributesIff(a: seq<Message>, b: seq<Message>)
    requires b != [] && IsUser(b[0])
    ensures Sanitize(a + b) == Sanitize(a) + Sanitize(b) <==> ResultIds(Sanitize(a)) !! ResultIds(Sanitize(b))
  {
    SanitizeSplitsAtUser(a, b);
    var ids, f := ResultIds(Sanitize(a)), Sanitize(b);
    WithoutIsShorter(f, ids);
    assert Sanitize(a + b)[|Sanitize(a)|..] == Without(f, ids);
    assert (Sanitize(a) + f)[|Sanitize(a)|..] == f;
    if ids !! ResultIds(f) {
      assert forall k :: 0 <= k < |f| && IsTool(f[k]) && f[k].toolCallID in ids ==> f[k].toolCallID in ResultIds(f);
      assert Without(f, ids) == f;
    } else {
      var id :| id in ids && id in ResultIds(f);
      var k :| 0 <= k < |f| && IsTool(f[k]) && f[k].toolCallID == id;
      assert Without(f, ids) != f;
    }
  }

  // ----- Nothing invented, nothing essential lost -----

  /** Messages sanitizing must never touch: user, plain assistant and unknown roles. */
  predicate IsEssential(m: Message) {
    IsUser(m) || m.role.Other? || (m.role == Assistant && m.toolCalls == [])
  }

  function Essentials(h: seq<Message>): seq<Message> {
    if h == [] then []
    else (if IsEssential(h[0]) then [h[0]] else []) + Essentials(h[1..])
  }

  lemma {:induction false} EssentialsConcat(a: seq<Message>, b: seq<Message>)
    ensures Essentials(a + b) == Essentials(a) + Essentials(b)
  {
    if a == [] {
      assert a + b == b;
    } else {
      assert (a + b)[1..] == a[1..] + b;
      EssentialsConcat(a[1..], b);
      ConcatAssociates(if IsEssential(a[0]) then [a[0]] else [], Essentials(a[1..]), Essentials(b));
    }
  }

  lemma InsertedLater(f: seq<Message>, s: seq<Message>, m: Message, rest: seq<Message>)
    requires IsSubsequence(f, s + rest)
    ensures IsSubsequence(f, s + ([m] + rest))
  {
    Reflexive(s);
    Reflexive(rest);
    Skip(rest, m, rest);
    Concat(s, s, rest, [m] + rest);
    Transitive(f, s + rest, s + ([m] + rest));
  }

  lemma {:induction false} RepairKeeps(s: seq<Message>, h: seq<Message>)
    ensures Essentials(Repair(s, h)) == Essentials(s) + Essentials(h)
    ensures IsSubsequence(Repair(s, h), s + h)
    decreases |h|
  {
    if h == [] {
      assert s + h == s;
      Reflexive(s);
    } else {
      assert h == [h[0]] + h[1..];
      if Admits(s, h[0]) {
        RepairKeeps(s + [h[0]], h[1..]);
        EssentialsConcat(s, [h[0]]);
        EssentialsConcat([h[0]], h[1..]);
        ConcatAssociates(s, [h[0]], h[1..]);
        ConcatAssociates(Essentials(s), Essentials([h[0]]), Essentials(h[1..]));
      } else {
        RepairKeeps(s, h[1..]);
        InsertedLater(Repair(s, h), s, h[0], h[1..]);
      }
    }
  }

  lemma {:induction false} EssentialsOfRun(s: seq<Message>)
    ensures Essentials(s[RunLength(s)..]) == Essentials(s)
    ensures IsSubsequence(s[RunLength(s)..], s)
  {
    if s != [] && IsTool(s[0]) {
      EssentialsOfRun(s[1..]);
      assert s[RunLength(s)..] == s[1..][RunLength(s[1..])..];
      Skip(s[RunLength(s)..], s[0], s[1..]);
      assert [s[0]] + s[1..] == s;
    } else {
      assert s[0..] == s;
      Reflexive(s);
    }
  }

  lemma {:induction false} PruneKeeps(s: seq<Message>, seen: set<string>)
    ensures Essentials(Prune(s, seen)) == Essentials(s)
    ensures IsSubsequence(Prune(s, seen), s)
    decreases |s|
  {
    if s != [] {
      var m, rest := s[0], s[1..];
      assert s == [m] + rest;
      if Keeps(s[0], s[1..], seen) {
        PruneKeeps(rest, Mark(seen, m));
        EssentialsConcat([m], Prune(rest, Mark(seen, m)));
      } else {
        var tail := AfterDrop(s[0], s[1..]);
        PruneKeeps(tail, seen);
        EssentialsOfRun(rest);
        assert tail == if IsTool(m) then rest else rest[RunLength(rest)..];
        Reflexive(rest);
        Transitive(Prune(tail, seen), tail, rest);
        Skip(Prune(tail, seen), m, rest);
      }
    }
  }

  /** For every history: a subsequence with exactly the same essential messages. */
  lemma SanitizeLosesNothingEssential(h: seq<Message>)
    ensures IsSubsequence(Sanitize(h), h)
    ensures Essentials(Sanitize(h)) == Essentials(h)
  {
    RepairKeeps([], h);
    assert [] + h == h;
    PruneKeeps(Repair([], h), {});
    Transitive(Sanitize(h), Repair([], h), h);
  }

  lemma {:induction false} SubsequenceResultIds(f: seq<Message>, h: seq<Message>)
    requires IsSubsequence(f, h)
    ensures ResultIds(f) <= ResultIds(h)
    decreases |h|
  {
    if f != [] {
      assert h == [h[0]] + h[1..] && f == [f[0]] + f[1..];
      ResultIdsCons(h[0], h[1..]);
      ResultIdsCons(f[0], f[1..]);
      if f[0] == h[0] {
        SubsequenceResultIds(f[1..], h[1..]);
      } else {
        SubsequenceResultIds(f, h[1..]);
      }
    }
  }

  /** Two turns' worth of history that share no tool call id are sanitized independently. */
  lemma SanitizeDistributes(a: seq<Message>, b: seq<Message>)
    requires b != [] && IsUser(b[0])
    requires ResultIds(a) !! ResultIds(b)
    ensures Sanitize(a + b) == Sanitize(a) + Sanitize(b)
  {
    SanitizeLosesNothingEssential(a);
    SanitizeLosesNothingEssential(b);
    SubsequenceResultIds(Sanitize(a), a);
    SubsequenceResultIds(Sanitize(b), b);
    SanitizeDistributesIff(a, b);
  }
}
