/**
 `sanitizeHistoryForProvider`: the two loops, proved against the functions
 `Repair` (first pass) and `Prune` (second pass).
 */
module Sanitizer {
  import opened Messages
  import opened Subsequences

  // ----- First pass -----

  /** Skipping trailing tool messages, the last message of `s` is a calling assistant. */
  predicate OwnedByCaller(s: seq<Message>) {
    if s == [] then false
    else if IsTool(s[|s| - 1]) then OwnedByCaller(s[..|s| - 1])
    else IsCaller(s[|s| - 1])
  }

  predicate EndsInUserOrTool(s: seq<Message>) {
    s != [] && (IsUser(s[|s| - 1]) || IsTool(s[|s| - 1]))
  }

  /** Whether the first pass keeps `m` when it has kept `s` so far. */
  predicate Admits(s: seq<Message>, m: Message) {
    match m.role
    case System => false
    case Tool => OwnedByCaller(s)
    case Assistant => m.toolCalls == [] || EndsInUserOrTool(s)
    case _ => true
  }

  /** The first pass over `h`, having kept `s` so far. */
  function Repair(s: seq<Message>, h: seq<Message>): seq<Message>
    decreases |h|
  {
    if h == [] then s
    else Repair(if Admits(s, h[0]) then s + [h[0]] else s, h[1..])
  }

  // ----- Second pass -----

  /** The number of tool messages at the front of `s`. */
  function RunLength(s: seq<Message>): (n: nat)
    ensures n <= |s|
  {
    if s != [] && IsTool(s[0]) then 1 + RunLength(s[1..]) else 0
  }

  /** The ids answered by the tool messages at the front of `s`. */
  function RunIds(s: seq<Message>): set<string> {
    if s != [] && IsTool(s[0]) then {s[0].toolCallID} + RunIds(s[1..]) else {}
  }

  predicate Answered(m: Message, rest: seq<Message>) {
    forall id | id in m.toolCalls :: id in RunIds(rest)
  }

  function Mark(seen: set<string>, m: Message): set<string> {
    if IsTool(m) && m.toolCallID != "" then seen + {m.toolCallID} else seen
  }

  /** Whether the second pass keeps `m`, which `rest` follows. */
  predicate Keeps(m: Message, rest: seq<Message>, seen: set<string>) {
    if IsTool(m) then m.toolCallID !in seen else IsCaller(m) ==> Answered(m, rest)
  }

  /** What is left of `rest` when `m` is dropped: an unanswered caller takes its run along. */
  function AfterDrop(m: Message, rest: seq<Message>): (r: seq<Message>)
    ensures |r| <= |rest|
  {
    if IsTool(m) then rest else rest[RunLength(rest)..]
  }

  /** The second pass over `s` when the result ids in `seen` were already emitted. */
  function Prune(s: seq<Message>, seen: set<string>): seq<Message>
    decreases |s|
  {
    if s == [] then []
    else if Keeps(s[0], s[1..], seen) then [s[0]] + Prune(s[1..], Mark(seen, s[0]))
    else Prune(AfterDrop(s[0], s[1..]), seen)
  }

  function Sanitize(h: seq<Message>): seq<Message> {
    Prune(Repair([], h), {})
  }

  // ----- The code -----

  /** The backward walk for the owner of a tool message. */
  method FindOwner(sanitized: seq<Message>) returns (foundAssistant: bool)
    ensures foundAssistant == OwnedByCaller(sanitized)
  {
    foundAssistant := false;
    var i := |sanitized| - 1;
    assert sanitized[..i + 1] == sanitized;
    while i >= 0
      invariant -1 <= i < |sanitized|
      invariant !foundAssistant
      invariant OwnedByCaller(sanitized) == OwnedByCaller(sanitized[..i + 1])
    {
      assert sanitized[..i + 1][..i] == sanitized[..i];
      if !IsTool(sanitized[i]) {
        if IsCaller(sanitized[i]) {
          foundAssistant := true;
        }
        return;
      }
      i := i - 1;
    }
  }

  method RepairPass(history: seq<Message>) returns (sanitized: seq<Message>)
    ensures sanitized == Repair([], history)
  {
    sanitized := [];
    var k := 0;
    while k < |history|
      invariant 0 <= k <= |history|
      invariant Repair([], history) == Repair(sanitized, history[k..])
    {
      var msg := history[k];
      assert history[k..][0] == msg && history[k..][1..] == history[k + 1..];
      k := k + 1;
      match msg.role {
        case System =>
          continue;
        case Tool =>
          if |sanitized| == 0 {
            continue;
          }
          var found := FindOwner(sanitized);
          if !found {
            continue;
          }
          sanitized := sanitized + [msg];
        case Assistant =>
          if |msg.toolCalls| > 0 {
            if |sanitized| == 0 {
              continue;
            }
            var prev := sanitized[|sanitized| - 1];
            if prev.role != User && prev.role != Tool {
              continue;
            }
          }
          sanitized := sanitized + [msg];
        case Other(_) =>
          sanitized := sanitized + [msg];
        case User =>
          sanitized := sanitized + [msg];
      }
    }
  }

  /** The map of expected ids, none of them found yet. */
  method ExpectedIds(calls: seq<string>) returns (expected: map<string, bool>)
    ensures forall id :: id in expected <==> id in calls
    ensures forall id :: id in expected ==> !expected[id]
  {
    expected := map[];
    for c := 0 to |calls|
      invariant forall id :: id in expected <==> id in calls[..c]
      invariant forall id :: id in expected ==> !expected[id]
    {
      expected := expected[calls[c] := false];
    }
    assert calls[..|calls|] == calls;
  }

  /** The lookahead of the second pass: which expected ids the run after position `i` answers. */
  method CheckAnswers(sanitized: seq<Message>, i: nat) returns (allFound: bool, toolMsgCount: nat)
    requires i < |sanitized|
    ensures toolMsgCount == RunLength(sanitized[i + 1..])
    ensures allFound == Answered(sanitized[i], sanitized[i + 1..])
  {
    var calls := sanitized[i].toolCalls;
    var expected := ExpectedIds(calls);
    toolMsgCount := 0;
    var j := i + 1;
    ghost var found: set<string> := {};
    while j < |sanitized| && IsTool(sanitized[j])
      invariant i < j <= |sanitized| && toolMsgCount == j - i - 1
      invariant toolMsgCount + RunLength(sanitized[j..]) == RunLength(sanitized[i + 1..])
      invariant found + RunIds(sanitized[j..]) == RunIds(sanitized[i + 1..])
      invariant forall id :: id in expected <==> id in calls
      invariant forall id :: id in expected ==> (expected[id] <==> id in found)
    {
      RunStep(sanitized, j);
      found := found + {sanitized[j].toolCallID};
      toolMsgCount := toolMsgCount + 1;
      if sanitized[j].toolCallID in expected {
        expected := expected[sanitized[j].toolCallID := true];
      }
      j := j + 1;
    }
    assert RunIds(sanitized[j..]) == {};
    allFound := forall id :: id in expected ==> expected[id];
    assert allFound <==> forall id :: id in calls ==> id in found;
  }

  lemma RunStep(s: seq<Message>, j: nat)
    requires j < |s| && IsTool(s[j])
    ensures RunLength(s[j..]) == 1 + RunLength(s[j + 1..])
    ensures RunIds(s[j..]) == {s[j].toolCallID} + RunIds(s[j + 1..])
  {
    assert s[j..][1..] == s[j + 1..];
  }

  /** The second pass, having emitted `final` for `s[..i]`, still computes `Prune(s, {})`. */
  ghost predicate OnTrack(s: seq<Message>, i: nat, seen: set<string>, final: seq<Message>)
    requires i <= |s|
  {
    Prune(s, {}) == final + Prune(s[i..], seen)
  }

  lemma KeepStep(s: seq<Message>, i: nat, seen: set<string>, final: seq<Message>)
    requires i < |s| && OnTrack(s, i, seen, final) && Keeps(s[i], s[i + 1..], seen)
    ensures OnTrack(s, i + 1, Mark(seen, s[i]), final + [s[i]])
  {
    assert s[i..][1..] == s[i + 1..];
    ConcatAssociates(final, [s[i]], Prune(s[i + 1..], Mark(seen, s[i])));
  }

  lemma DropStep(s: seq<Message>, i: nat, seen: set<string>, final: seq<Message>)
    requires i < |s| && OnTrack(s, i, seen, final) && !Keeps(s[i], s[i + 1..], seen)
    ensures OnTrack(s, i + 1 + if IsTool(s[i]) then 0 else RunLength(s[i + 1..]), seen, final)
  {
    assert s[i..][1..] == s[i + 1..];
    var n := RunLength(s[i + 1..]);
    assert s[i + 1..][n..] == s[i + 1 + n..];
  }

  method PrunePass(sanitized: seq<Message>) returns (final: seq<Message>)
    ensures final == Prune(sanitized, {})
  {
    final := [];
    var seenToolCallID: set<string> := {};
    var i := 0;
    assert sanitized[0..] == sanitized;
    while i < |sanitized|
      invariant 0 <= i <= |sanitized|
      invariant "" !in seenToolCallID
      invariant OnTrack(sanitized, i, seenToolCallID, final)
    {
      var msg := sanitized[i];
      ghost var before := seenToolCallID;
      if IsTool(msg) && msg.toolCallID != "" {
        if msg.toolCallID in seenToolCallID {
          DropStep(sanitized, i, before, final);
          i := i + 1;
          continue;
        }
        seenToolCallID := seenToolCallID + {msg.toolCallID};
      }
      if IsCaller(msg) {
        var allFound, toolMsgCount := CheckAnswers(sanitized, i);
        if !allFound {
          DropStep(sanitized, i, before, final);
          i := i + 1 + toolMsgCount;
          continue;
        }
      }
      KeepStep(sanitized, i, before, final);
      final := final + [msg];
      i := i + 1;
    }
  }

  method SanitizeHistoryForProvider(history: seq<Message>) returns (final: seq<Message>)
    ensures final == Sanitize(history)
  {
    if |history| == 0 {
      return history;
    }
    var sanitized := RepairPass(history);
    final := PrunePass(sanitized);
  }
}
