/**
 The restore point of a turn (`turn.go`), and what an abort brings back: the turn's own messages are
 recognised by comparing the session's tail with what the turn recorded.
 */
module Rollback {
  import opened Messages
  import opened Subsequences
  import opened TurnCut

  // ----- Matching the turn's own messages -----

  /** How many messages two lists have in common at their ends. */
  function CommonTail(h: seq<Message>, p: seq<Message>): (size: nat)
    ensures size <= |h| && size <= |p|
    decreases |h|
  {
    if h == [] || p == [] || h[|h| - 1] != p[|p| - 1] then 0
    else 1 + CommonTail(h[..|h| - 1], p[..|p| - 1])
  }

  predicate TailsAgree(h: seq<Message>, p: seq<Message>, size: nat)
    requires size <= |h| && size <= |p|
  {
    h[|h| - size..] == p[|p| - size..]
  }

  /** The tails of a size agree exactly when the common tail is that long. */
  lemma {:induction false} TailsAgreeIff(h: seq<Message>, p: seq<Message>, size: nat)
    requires size <= |h| && size <= |p|
    ensures TailsAgree(h, p, size) <==> size <= CommonTail(h, p)
    decreases size
  {
    if size > 0 {
      TailIs(h, size);
      TailIs(p, size);
      TailsAgreeIff(h[..|h| - 1], p[..|p| - 1], size - 1);
    }
  }

  lemma TailIs(h: seq<Message>, size: nat)
    requires 0 < size <= |h|
    ensures h[|h| - size..] == h[..|h| - 1][|h| - size..] + [h[|h| - 1]]
  {
  }

  method MatchingTurnMessageTail(history: seq<Message>, persisted: seq<Message>) returns (size: nat)
    ensures size == CommonTail(history, persisted)
  {
    size := if |history| <= |persisted| then |history| else |persisted|;
    while size > 0
      invariant size <= |history| && size <= |persisted|
      invariant CommonTail(history, persisted) <= size
    {
      TailsAgreeIff(history, persisted, size);
      if history[|history| - size..] == persisted[|persisted| - size..] {
        return;
      }
      size := size - 1;
    }
  }

  // ----- A turn as a state machine -----

  /** The default session store keeps messages as JSON lines; the fallback keeps them as they are. */
  datatype Store = Jsonl | InMemory

  /** The message that a store hands back for `m`. */
  function Stored(store: Store, m: Message): Message {
    if store.Jsonl? then m.(callNames := "") else m
  }

  /** `Injected` are SubTurn results that nobody recorded; `Swallowed` is what a swallowed turn left. */
  datatype Mark = Recorded | Injected | Swallowed

  /** A message of the turn, as the turn made it. */
  datatype Entry = Entry(message: Message, mark: Mark)

  /** The session holds `before`, which is older than the turn, and then the turn's `own` messages. */
  datatype Turn = Turn(
    store: Store, before: seq<Message>, own: seq<Entry>, summary: Summary,
    restoreHistory: seq<Message>, restoreSummary: Summary, persisted: seq<Message>)

  datatype Step =
    | Write(message: Message)         // append to the session and record it
    | WriteInjected(result: Message)  // append a polled SubTurn result, a user message
    | Compact(reaches: bool)          // compress, then refresh; another agent's store may be compressed

  function Read(store: Store, own: seq<Entry>): (h: seq<Message>)
    ensures |h| == |own|
  {
    seq(|own|, k requires 0 <= k < |own| => Stored(store, own[k].message))
  }

  function RecordedOf(own: seq<Entry>): (p: seq<Message>)
    ensures |p| <= |own|
  {
    if own == [] then []
    else
      var n := |own| - 1;
      RecordedOf(own[..n]) + if own[n].mark.Recorded? then [own[n].message] else []
  }

  function History(t: Turn): seq<Message> {
    t.before + Read(t.store, t.own)
  }

  function Begin(store: Store, history: seq<Message>, summary: Summary): Turn {
    Turn(store, history, [], summary, history, summary, [])
  }

  /** How many of the turn's own messages a compression drops. */
  function OwnDropped(t: Turn): (n: nat)
    ensures n <= |t.own|
  {
    var h := History(t);
    if |h| <= 2 || (CutPoint(h) > 0 && CutPoint(h) <= |t.before|) then 0
    else if CutPoint(h) == 0 then |t.own|
    else CutPoint(h) - |t.before|
  }

  /** What a compression leaves of both parts. */
  function Cut(t: Turn): Turn {
    var h := History(t);
    if |h| <= 2 then t
    else if CutPoint(h) == 0 then
      if t.before == [] then t.(own := [t.own[0].(mark := Swallowed)]) else t.(before := [t.before[0]], own := [])
    else if CutPoint(h) <= |t.before| then t.(before := t.before[CutPoint(h)..])
    else t.(before := [], own := t.own[CutPoint(h) - |t.before|..])
  }

  function RestorePoint(h: seq<Message>, persisted: seq<Message>): seq<Message> {
    h[..|h| - CommonTail(h, persisted)]
  }

  lemma RestorePointIs(h: seq<Message>, p: seq<Message>, matched: nat)
    requires matched == CommonTail(h, p)
    ensures RestorePoint(h, p) == if matched > 0 then h[..|h| - matched] else h
  {
  }

  function NotedSummary(h: seq<Message>, summary: Summary): Summary {
    if |h| <= 2 then summary
    else
      CompressShape(h);
      summary + [EmergencyNote(|h| - |Compress(h)|)]
  }

  function Refreshed(t: Turn): Turn {
    t.(restoreHistory := RestorePoint(History(t), t.persisted), restoreSummary := t.summary)
  }

  function Next(t: Turn, step: Step): Turn {
    match step
    case Write(m) => t.(own := t.own + [Entry(m, Recorded)], persisted := t.persisted + [m])
    case WriteInjected(m) => t.(own := t.own + [Entry(m, Injected)])
    case Compact(true) => Refreshed(Cut(t).(summary := NotedSummary(History(t), t.summary)))
    case Compact(false) => Refreshed(t)
  }

  function Run(t: Turn, steps: seq<Step>): Turn
    decreases |steps|
  {
    if steps == [] then t else Run(Next(t, steps[0]), steps[1..])
  }

  /** The session history after `abortTurn`. */
  function AbortedHistory(t: Turn): seq<Message> {
    t.restoreHistory
  }

  lemma ReadAppend(store: Store, own: seq<Entry>, e: Entry)
    ensures Read(store, own + [e]) == Read(store, own) + [Stored(store, e.message)]
  {
  }

  lemma CutInsideOwn(t: Turn, mid: nat)
    requires |t.before| <= mid <= |History(t)|
    ensures Read(t.store, t.own[mid - |t.before|..]) == History(t)[mid..]
  {
  }

  lemma CutToFirst(t: Turn)
    requires |History(t)| > 2 && CutPoint(History(t)) == 0
    ensures History(Cut(t)) == [History(t)[0]]
  {
    assert History(t)[0] == if t.before == [] then Stored(t.store, t.own[0].message) else t.before[0];
  }

  lemma CutToTail(t: Turn)
    requires |History(t)| > 2 && CutPoint(History(t)) > 0
    ensures History(Cut(t)) == History(t)[CutPoint(History(t))..]
  {
    var h, mid := History(t), CutPoint(History(t));
    if mid <= |t.before| {
      assert h[mid..] == t.before[mid..] + Read(t.store, t.own);
    } else {
      CutInsideOwn(t, mid);
      assert [] + h[mid..] == h[mid..];
    }
  }

  /** Cutting both parts is compressing the history. */
  lemma CutIsCompress(t: Turn)
    ensures History(Cut(t)) == Compress(History(t))
  {
    var h := History(t);
    if |h| > 2 {
      CompressShape(h);
      var mid := CutPoint(h);
      if mid == 0 {
        CutToFirst(t);
      } else {
        CutToTail(t);
      }
    }
  }

  lemma CompactIs(t: Turn)
    ensures var t' := Next(t, Compact(true));
            && History(t') == Compress(History(t)) && t'.summary == NotedSummary(History(t), t.summary)
            && t'.restoreHistory == RestorePoint(Compress(History(t)), t.persisted)
            && t'.restoreSummary == t'.summary && t'.persisted == t.persisted
  {
    CutIsCompress(t);
    var c := Cut(t);
    assert History(c.(summary := NotedSummary(History(t), t.summary))) == History(c);
  }

  // ----- The code -----

  class TurnState {
    var restorePointHistory: seq<Message>
    var restorePointSummary: Summary
    var persistedMessages: seq<Message>

    constructor ()
      ensures persistedMessages == []
    {
      restorePointHistory, restorePointSummary, persistedMessages := [], [], [];
    }

    /** `t` is the state of the turn and of its session. */
    ghost predicate Shows(session: Session, t: Turn)
      reads this, session
    {
      && session.history == History(t) && session.summary == t.summary
      && restorePointHistory == t.restoreHistory && restorePointSummary == t.restoreSummary
      && persistedMessages == t.persisted
    }

    method CaptureRestorePoint(history: seq<Message>, summary: Summary)
      modifies this
      ensures restorePointHistory == history && restorePointSummary == summary
      ensures persistedMessages == old(persistedMessages)
    {
      restorePointHistory := history;
      restorePointSummary := summary;
    }

    method BeginTurn(store: Store, session: Session)
      requires persistedMessages == []
      modifies this
      ensures Shows(session, Begin(store, session.history, session.summary))
    {
      CaptureRestorePoint(session.history, session.summary);
    }

    /** The session gets the stored form of the message, the record the message itself. */
    method WriteMessage(store: Store, session: Session, msg: Message, ghost t: Turn)
      requires Shows(session, t) && t.store == store
      modifies this, session
      ensures Shows(session, Next(t, Write(msg)))
    {
      ReadAppend(t.store, t.own, Entry(msg, Recorded));
      ConcatAssociates(t.before, Read(t.store, t.own), [Stored(t.store, msg)]);
      session.history := session.history + [Stored(store, msg)];
      persistedMessages := persistedMessages + [msg];
    }

    method RefreshRestorePointFromSession(session: Session)
      modifies this
      ensures restorePointHistory == RestorePoint(session.history, persistedMessages)
      ensures restorePointSummary == session.summary && persistedMessages == old(persistedMessages)
    {
      var history := session.history;
      var matched := MatchingTurnMessageTail(history, persistedMessages);
      RestorePointIs(history, persistedMessages, matched);
      if matched > 0 {
        history := history[..|history| - matched];
      }
      CaptureRestorePoint(history, session.summary);
    }

    /** `compressed` is the session of that key in the default agent's store. */
    method CompactSession(session: Session, compressed: Session, ghost t: Turn)
      requires Shows(session, t)
      modifies this, compressed
      ensures Shows(session, Next(t, Compact(compressed == session)))
      ensures compressed.history == Compress(old(compressed.history))
    {
      var dropped, remaining, ok := compressed.ForceCompression();
      RefreshRestorePointFromSession(session);
      if compressed == session {
        CompactIs(t);
      }
    }

    method AbortTurn(session: Session, ghost t: Turn)
      requires Shows(session, t)
      modifies session
      ensures session.history == AbortedHistory(t) && session.summary == t.restoreSummary
    {
      session.history := restorePointHistory;
      session.summary := restorePointSummary;
    }
  }

  // ----- When a compression keeps the restore point free of the turn -----

  predicate RestoresPreTurn(t: Turn) {
    t.restoreHistory == t.before && t.restoreSummary == t.summary
  }

  /** The comparison recognises the message: it was recorded, and the store hands it back unchanged. */
  predicate Recognised(store: Store, e: Entry) {
    e.mark.Recorded? && Stored(store, e.message) == e.message
  }

  predicate AllRecognised(t: Turn) {
    forall k | 0 <= k < |t.own| :: Recognised(t.store, t.own[k])
  }

  /** The turn's only user message starts the history and would be all that is left of it. */
  predicate SwallowsTurn(t: Turn) {
    |History(t)| > 2 && CutPoint(History(t)) == 0 && t.before == []
  }

  /**
   What a caller can check before a compression: it does not swallow the turn, and of the turn's
   own messages it leaves only those that were recorded and are stored without loss.
   */
  predicate Harmless(t: Turn, reaches: bool) {
    && !(reaches && SwallowsTurn(t))
    && forall k | (if reaches then OwnDropped(t) else 0) <= k < |t.own| :: Recognised(t.store, t.own[k])
  }

  /** What was recorded of messages that the session has lost since. */
  function Gone(t: Turn): seq<Message> {
    if |RecordedOf(t.own)| <= |t.persisted| then t.persisted[..|t.persisted| - |RecordedOf(t.own)|] else []
  }

  predicate EntryOk(t: Turn, injections: set<Message>, k: nat)
    requires k < |t.own|
  {
    match t.own[k].mark
    case Recorded => true
    case Injected => IsUser(t.own[k].message) && Stored(t.store, t.own[k].message) in injections
    case Swallowed => k == 0 && t.before == [] && IsUser(t.own[k].message)
  }

  predicate EntriesOk(t: Turn, injections: set<Message>) {
    forall k | 0 <= k < |t.own| :: EntryOk(t, injections, k)
  }

  /** The message recorded before those of the session is not the one that the session has there. */
  predicate BoundaryOk(t: Turn) {
    var gone := Gone(t);
    && (gone != [] && t.before != [] ==> gone[|gone| - 1] != t.before[|t.before| - 1])
    && (t.own == [] && t.persisted != [] ==> |t.before| <= 1)
    && (t.own != [] && t.own[0].mark.Swallowed? ==> gone != [] && !IsUser(gone[|gone| - 1]))
  }

  predicate Inv(t: Turn, injections: set<Message>) {
    && t.persisted == Gone(t) + RecordedOf(t.own)
    && EntriesOk(t, injections) && BoundaryOk(t)
    && forall k | 0 <= k < |t.persisted| :: t.persisted[k] !in injections
  }

  lemma {:induction false} RecordedConcat(a: seq<Entry>, b: seq<Entry>)
    ensures RecordedOf(a + b) == RecordedOf(a) + RecordedOf(b)
    decreases |b|
  {
    if b == [] {
      assert a + b == a;
    } else {
      var n := |b| - 1;
      assert (a + b)[..|a| + n] == a + b[..n];
      RecordedConcat(a, b[..n]);
    }
  }

  lemma {:induction false} AllRecorded(store: Store, own: seq<Entry>)
    requires forall k | 0 <= k < |own| :: own[k].mark.Recorded?
    ensures |RecordedOf(own)| == |own| && forall k | 0 <= k < |own| :: RecordedOf(own)[k] == own[k].message
  {
    if own != [] {
      AllRecorded(store, own[..|own| - 1]);
    }
  }

  lemma {:induction false} MatchIsTail(before: seq<Message>, gone: seq<Message>, own: seq<Message>)
    requires gone != [] && before != [] ==> gone[|gone| - 1] != before[|before| - 1]
    ensures CommonTail(before + own, gone + own) == |own|
    decreases |own|
  {
    if own == [] {
      assert before + own == before && gone + own == gone;
    } else {
      InitOfConcat(before, own);
      InitOfConcat(gone, own);
      MatchIsTail(before, gone, own[..|own| - 1]);
    }
  }

  lemma InitOfConcat(a: seq<Message>, own: seq<Message>)
    requires own != []
    ensures (a + own)[..|a + own| - 1] == a + own[..|own| - 1]
    ensures (a + own)[|a + own| - 1] == own[|own| - 1]
  {
  }

  lemma RecognisedAreRecorded(t: Turn)
    requires AllRecognised(t)
    ensures RecordedOf(t.own) == Read(t.store, t.own)
  {
    forall k | 0 <= k < |t.own|
      ensures t.own[k].mark.Recorded? && Stored(t.store, t.own[k].message) == t.own[k].message
    {
      assert Recognised(t.store, t.own[k]);
    }
    AllRecorded(t.store, t.own);
  }

  /** Messages that are all recognised are matched, and nothing before them is. */
  lemma RecognisedAreMatched(t: Turn, injections: set<Message>)
    requires Inv(t, injections) && AllRecognised(t)
    ensures RestorePoint(History(t), t.persisted) == t.before
  {
    RecognisedAreRecorded(t);
    MatchIsTail(t.before, Gone(t), RecordedOf(t.own));
    assert History(t)[..|t.before|] == t.before;
  }

  /** If the own messages were matched, each of them would be recognised. */
  lemma MatchedAreRecognised(t: Turn, injections: set<Message>)
    requires Inv(t, injections) && |t.own| <= CommonTail(History(t), t.persisted)
    ensures AllRecognised(t)
  {
    MatchedIsTail(t);
    forall k | 0 <= k < |t.own|
      ensures t.own[k].mark.Recorded?
    {
      MatchedIsRecorded(t, injections, k);
    }
    AllRecorded(t.store, t.own);
    assert t.persisted[|t.persisted| - |t.own|..] == RecordedOf(t.own);
    forall k | 0 <= k < |t.own|
      ensures Recognised(t.store, t.own[k])
    {
      assert Read(t.store, t.own)[k] == RecordedOf(t.own)[k];
    }
  }

  lemma MatchedIsTail(t: Turn)
    requires |t.own| <= CommonTail(History(t), t.persisted)
    ensures t.persisted[|t.persisted| - |t.own|..] == Read(t.store, t.own)
  {
    TailsAgreeIff(History(t), t.persisted, |t.own|);
    assert History(t)[|t.before|..] == Read(t.store, t.own);
  }

  lemma MatchedIsRecorded(t: Turn, injections: set<Message>, k: nat)
    requires Inv(t, injections) && k < |t.own| <= |t.persisted|
    requires t.persisted[|t.persisted| - |t.own|..] == Read(t.store, t.own)
    ensures t.own[k].mark.Recorded?
  {
    var p, n := t.persisted, |t.own|;
    var matched := p[|p| - n..];
    assert matched[k] == p[|p| - n + k] == Stored(t.store, t.own[k].message);
    assert EntryOk(t, injections, k);
    if t.own[k].mark.Swallowed? {
      OthersAreRecorded(t, injections);
    }
  }

  /** Next to a swallowed message and no injected one, all others are recorded. */
  lemma OthersAreRecorded(t: Turn, injections: set<Message>)
    requires Inv(t, injections) && 0 < |t.own| <= |t.persisted| && t.own[0].mark.Swallowed?
    requires t.persisted[|t.persisted| - |t.own|..] == Read(t.store, t.own)
    ensures |RecordedOf(t.own)| == |t.own| - 1
    ensures t.persisted[|t.persisted| - |t.own|] == Gone(t)[|Gone(t)| - 1]
  {
    var p, n := t.persisted, |t.own|;
    var rest := t.own[1..];
    forall k | 0 <= k < |rest|
      ensures rest[k].mark.Recorded?
    {
      OtherIsRecorded(t, injections, k + 1);
    }
    AllRecorded(t.store, rest);
    assert t.own == [t.own[0]] + rest;
    RecordedAfterSwallowed(t.own[0], rest);
  }

  lemma OtherIsRecorded(t: Turn, injections: set<Message>, k: nat)
    requires Inv(t, injections) && 0 < k < |t.own| <= |t.persisted|
    requires t.persisted[|t.persisted| - |t.own|..] == Read(t.store, t.own)
    ensures t.own[k].mark.Recorded?
  {
    assert EntryOk(t, injections, k);
    assert t.persisted[|t.persisted| - |t.own|..][k] == t.persisted[|t.persisted| - |t.own| + k];
  }

  lemma RecordedAfterSwallowed(e: Entry, rest: seq<Entry>)
    requires e.mark.Swallowed?
    ensures RecordedOf([e] + rest) == RecordedOf(rest)
  {
    RecordedConcat([e], rest);
    assert [e][..0] == [];
    assert RecordedOf([e]) == [];
  }

  /** The refreshed restore point is free of the turn exactly when all its messages are recognised. */
  lemma RefreshRestoresIff(t: Turn, injections: set<Message>)
    requires Inv(t, injections)
    ensures RestoresPreTurn(Refreshed(t)) <==> AllRecognised(t)
  {
    var h, p := History(t), t.persisted;
    if AllRecognised(t) {
      RecognisedAreMatched(t, injections);
    } else if RestorePoint(h, p) == t.before {
      assert CommonTail(h, p) == |t.own|;
      MatchedAreRecognised(t, injections);
    }
  }

  // ----- Every step keeps the invariant -----

  /** With `persisted` ending in what was recorded of `own`, the rest is `Gone`. */
  lemma GoneIs(t: Turn, gone: seq<Message>)
    requires t.persisted == gone + RecordedOf(t.own)
    ensures Gone(t) == gone
  {
  }

  lemma RecordedAppend(own: seq<Entry>, e: Entry)
    ensures RecordedOf(own + [e]) == RecordedOf(own) + if e.mark.Recorded? then [e.message] else []
  {
    assert (own + [e])[..|own|] == own;
  }

  lemma WriteKeepsInv(t: Turn, m: Message, injections: set<Message>)
    requires Inv(t, injections) && m !in injections
    ensures Inv(Next(t, Write(m)), injections)
  {
    var t' := Next(t, Write(m));
    RecordedAppend(t.own, Entry(m, Recorded));
    ConcatAssociates(Gone(t), RecordedOf(t.own), [m]);
    GoneIs(t', Gone(t));
    forall k | 0 <= k < |t'.own|
      ensures EntryOk(t', injections, k)
    {
      assert k < |t.own| ==> EntryOk(t, injections, k);
    }
  }

  lemma InjectKeepsInv(t: Turn, m: Message, injections: set<Message>)
    requires Inv(t, injections) && IsUser(m) && Stored(t.store, m) in injections
    ensures Inv(Next(t, WriteInjected(m)), injections)
  {
    var t' := Next(t, WriteInjected(m));
    RecordedAppend(t.own, Entry(m, Injected));
    assert RecordedOf(t.own) + [] == RecordedOf(t.own);
    GoneIs(t', Gone(t));
    forall k | 0 <= k < |t'.own|
      ensures EntryOk(t', injections, k)
    {
      assert k < |t.own| ==> EntryOk(t, injections, k);
    }
  }

  lemma OnlyFirstIsUser(h: seq<Message>, i: nat)
    requires TurnStarts(h) == [0] && 0 < i < |h|
    ensures !IsUser(h[i])
  {
    if IsUser(h[i]) {
      var k := TurnStartAt(h, i);
    }
  }

  /** When a single turn fills the history, the last thing it recorded is no user message. */
  lemma LastRecordedIsNoUser(t: Turn, injections: set<Message>)
    requires Inv(t, injections) && |History(t)| > 2 && TurnStarts(History(t)) == [0] && t.own != []
    ensures t.persisted != [] && !IsUser(t.persisted[|t.persisted| - 1])
  {
    var h, n := History(t), |t.own| - 1;
    OnlyFirstIsUser(h, |h| - 1);
    assert h[|h| - 1] == Stored(t.store, t.own[n].message);
    assert EntryOk(t, injections, n);
    assert t.persisted == Gone(t) + RecordedOf(t.own);
  }

  lemma FallbackKeepsInv(t: Turn, injections: set<Message>)
    requires Inv(t, injections) && |History(t)| > 2 && CutPoint(History(t)) == 0
    ensures Inv(Cut(t), injections)
  {
    var t' := Cut(t);
    CompressShape(History(t));
    assert RecordedOf(t'.own) == [] by {
      assert t'.own == [] || t'.own[..0] == [];
    }
    assert t.persisted + [] == t.persisted;
    GoneIs(t', t.persisted);
    FallbackBoundary(t, injections);
  }

  lemma FallbackBoundary(t: Turn, injections: set<Message>)
    requires Inv(t, injections) && |History(t)| > 2 && CutPoint(History(t)) == 0
    requires Gone(Cut(t)) == t.persisted
    ensures BoundaryOk(Cut(t)) && EntriesOk(Cut(t), injections)
  {
    CompressShape(History(t));
    if t.own != [] {
      LastRecordedIsNoUser(t, injections);
      assert EntryOk(t, injections, 0);
    }
  }

  lemma CutBeforeTurn(t: Turn, injections: set<Message>)
    requires Inv(t, injections) && |History(t)| > 2 && 0 < CutPoint(History(t)) <= |t.before|
    ensures Inv(Cut(t), injections)
  {
    var t' := Cut(t);
    forall k | 0 <= k < |t'.own|
      ensures EntryOk(t', injections, k)
    {
      assert EntryOk(t, injections, k);
    }
  }

  lemma CutInsideTurn(t: Turn, injections: set<Message>)
    requires Inv(t, injections) && |History(t)| > 2 && |t.before| < CutPoint(History(t))
    ensures Inv(Cut(t), injections)
  {
    var t', d := Cut(t), CutPoint(History(t)) - |t.before|;
    assert t.own == t.own[..d] + t.own[d..];
    RecordedConcat(t.own[..d], t.own[d..]);
    ConcatAssociates(Gone(t), RecordedOf(t.own[..d]), RecordedOf(t.own[d..]));
    GoneIs(t', Gone(t) + RecordedOf(t.own[..d]));
    forall k | 0 <= k < |t'.own|
      ensures EntryOk(t', injections, k) && !t'.own[k].mark.Swallowed?
    {
      assert EntryOk(t, injections, k + d);
    }
  }

  lemma CutKeepsInv(t: Turn, injections: set<Message>)
    requires Inv(t, injections)
    ensures Inv(Cut(t), injections)
  {
    var h := History(t);
    if |h| > 2 {
      if CutPoint(h) == 0 {
        FallbackKeepsInv(t, injections);
      } else if CutPoint(h) <= |t.before| {
        CutBeforeTurn(t, injections);
      } else {
        CutInsideTurn(t, injections);
      }
    }
  }

  /** Only the two parts and the record matter to the invariant. */
  lemma SamePartsKeepInv(t: Turn, t': Turn, injections: set<Message>)
    requires Inv(t, injections) && t'.store == t.store && t'.persisted == t.persisted
    requires t'.before == t.before && t'.own == t.own
    ensures Inv(t', injections)
  {
    forall k | 0 <= k < |t'.own|
      ensures EntryOk(t', injections, k)
    {
      assert EntryOk(t, injections, k);
    }
  }

  lemma HarmlessIs(t: Turn, injections: set<Message>)
    requires Inv(t, injections)
    ensures Harmless(t, true) <==> AllRecognised(Cut(t))
  {
    var h, c := History(t), Cut(t);
    if |h| > 2 && CutPoint(h) > |t.before| {
      var d := OwnDropped(t);
      assert forall k | 0 <= k < |c.own| :: c.own[k] == t.own[k + d];
      assert forall k | d <= k < |t.own| :: c.own[k - d] == t.own[k];
    } else if SwallowsTurn(t) {
      assert !Recognised(t.store, c.own[0]);
    }
  }

  /** What a compression leaves is cut and noted before it is refreshed. */
  function CutAndNoted(t: Turn): Turn {
    Cut(t).(summary := NotedSummary(History(t), t.summary))
  }

  lemma CutAndNotedKeepsInv(t: Turn, injections: set<Message>)
    requires Inv(t, injections)
    ensures Inv(CutAndNoted(t), injections)
    ensures AllRecognised(CutAndNoted(t)) <==> Harmless(t, true)
  {
    CutKeepsInv(t, injections);
    SamePartsKeepInv(Cut(t), CutAndNoted(t), injections);
    HarmlessIs(t, injections);
  }

  lemma RefreshKeepsInv(t: Turn, injections: set<Message>)
    requires Inv(t, injections)
    ensures Inv(Refreshed(t), injections)
  {
    SamePartsKeepInv(t, Refreshed(t), injections);
  }

  /**
   In every state that a turn can reach: a compression and refresh keep the restore point free of
   the turn if and only if it is harmless.
   */
  lemma CompactRestoresIff(t: Turn, reaches: bool, injections: set<Message>)
    requires Inv(t, injections)
    ensures RestoresPreTurn(Next(t, Compact(reaches))) <==> Harmless(t, reaches)
    ensures Inv(Next(t, Compact(reaches)), injections)
  {
    var c := if reaches then CutAndNoted(t) else t;
    assert Next(t, Compact(reaches)) == Refreshed(c);
    if reaches {
      CutAndNotedKeepsInv(t, injections);
    }
    RefreshRestoresIff(c, injections);
    RefreshKeepsInv(c, injections);
  }

  // ----- Over a whole turn -----

  /** SubTurn results are user messages, and read differently from all that the turn recorded. */
  predicate KeptApart(store: Store, steps: seq<Step>, injections: set<Message>) {
    forall k | 0 <= k < |steps| ::
      match steps[k]
      case Write(m) => m !in injections
      case WriteInjected(m) => IsUser(m) && Stored(store, m) in injections
      case Compact(_) => true
  }

  /** Whether the restore point is free of the turn after a step, given whether it was before. */
  predicate StepEndsHarmless(t: Turn, step: Step, clean: bool) {
    if step.Compact? then Harmless(t, step.reaches) else clean
  }

  /** Whether the last compression of the run was harmless; `clean` answers for a run without one. */
  predicate EndsHarmless(t: Turn, steps: seq<Step>, clean: bool)
    decreases |steps|
  {
    if steps == [] then clean
    else EndsHarmless(Next(t, steps[0]), steps[1..], StepEndsHarmless(t, steps[0], clean))
  }

  lemma StepRestoresIff(t: Turn, step: Step, clean: bool, injections: set<Message>)
    requires Inv(t, injections) && KeptApart(t.store, [step], injections)
    requires clean <==> RestoresPreTurn(t)
    ensures Inv(Next(t, step), injections)
    ensures RestoresPreTurn(Next(t, step)) <==> StepEndsHarmless(t, step, clean)
  {
    assert [step][0] == step;
    match step {
      case Write(m) =>
        WriteKeepsInv(t, m, injections);
        WritingKeepsRestorePoint(t, step);
      case WriteInjected(m) =>
        InjectKeepsInv(t, m, injections);
        WritingKeepsRestorePoint(t, step);
      case Compact(reaches) =>
        CompactRestoresIff(t, reaches, injections);
    }
  }

  lemma WritingKeepsRestorePoint(t: Turn, step: Step)
    requires !step.Compact?
    ensures RestoresPreTurn(Next(t, step)) <==> RestoresPreTurn(t)
  {
  }

  lemma StepKeepsStore(t: Turn, step: Step)
    ensures Next(t, step).store == t.store
  {
  }

  lemma KeptApartTail(store: Store, steps: seq<Step>, injections: set<Message>)
    requires KeptApart(store, steps, injections) && steps != []
    ensures KeptApart(store, [steps[0]], injections) && KeptApart(store, steps[1..], injections)
  {
    assert forall k | 0 <= k < |steps| - 1 :: steps[1..][k] == steps[k + 1];
  }

  lemma {:induction false} RunRestoresIff(t: Turn, steps: seq<Step>, clean: bool, injections: set<Message>)
    requires Inv(t, injections) && KeptApart(t.store, steps, injections)
    requires clean <==> RestoresPreTurn(t)
    ensures RestoresPreTurn(Run(t, steps)) <==> EndsHarmless(t, steps, clean)
    decreases |steps|
  {
    if steps != [] {
      KeptApartTail(t.store, steps, injections);
      StepRestoresIff(t, steps[0], clean, injections);
      StepKeepsStore(t, steps[0]);
      RunRestoresIff(Next(t, steps[0]), steps[1..], StepEndsHarmless(t, steps[0], clean), injections);
    }
  }

  /**
   Over every run of recorded writes, injected results and compressions, on either store: an abort
   restores exactly the messages older than the turn if and only if the last compression was harmless.
   */
  lemma AbortRestoresIff(store: Store, history: seq<Message>, summary: Summary, steps: seq<Step>, injections: set<Message>)
    requires KeptApart(store, steps, injections)
    ensures var t := Run(Begin(store, history, summary), steps);
            AbortedHistory(t) == t.before && t.restoreSummary == t.summary
            <==> EndsHarmless(Begin(store, history, summary), steps, true)
  {
    RunRestoresIff(Begin(store, history, summary), steps, true, injections);
  }

  /** Each message of the turn is recorded and stored without loss, and nothing swallows the turn. */
  predicate Lossless(t: Turn, steps: seq<Step>)
    decreases |steps|
  {
    steps == [] ||
    ((match steps[0]
      case Write(m) => Stored(t.store, m) == m
      case WriteInjected(_) => false
      case Compact(reaches) => !(reaches && SwallowsTurn(t))) &&
     Lossless(Next(t, steps[0]), steps[1..]))
  }

  lemma {:induction false} LosslessEndsHarmless(t: Turn, steps: seq<Step>)
    requires AllRecognised(t) && Lossless(t, steps)
    ensures EndsHarmless(t, steps, true)
    decreases |steps|
  {
    if steps != [] {
      LosslessEndsHarmless(Next(t, steps[0]), steps[1..]);
    }
  }

  lemma {:induction false} LosslessIsKeptApart(t: Turn, steps: seq<Step>)
    requires Lossless(t, steps)
    ensures KeptApart(t.store, steps, {})
    decreases |steps|
  {
    if steps != [] {
      LosslessIsKeptApart(Next(t, steps[0]), steps[1..]);
      assert forall k | 0 < k < |steps| :: steps[k] == steps[1..][k - 1];
    }
  }

  /** On the fallback store nothing is lost, so there recorded writes and no swallowing suffice. */
  lemma AbortRestoresPreTurn(store: Store, history: seq<Message>, summary: Summary, steps: seq<Step>)
    requires Lossless(Begin(store, history, summary), steps)
    ensures var t := Run(Begin(store, history, summary), steps); AbortedHistory(t) == t.before
  {
    var t := Begin(store, history, summary);
    LosslessEndsHarmless(t, steps);
    LosslessIsKeptApart(t, steps);
    AbortRestoresIff(store, history, summary, steps, {});
  }

  /** Every compression that reaches the session cuts at a turn boundary after the first message. */
  predicate Cuts(t: Turn, steps: seq<Step>)
    decreases |steps|
  {
    steps == [] ||
    ((steps[0] == Compact(true) && |History(t)| > 2 ==> CutPoint(History(t)) > 0) && Cuts(Next(t, steps[0]), steps[1..]))
  }

  predicate IsSuffix(xs: seq<Message>, ys: seq<Message>) {
    |xs| <= |ys| && xs == ys[|ys| - |xs|..]
  }

  lemma CutKeepsSuffix(t: Turn, history: seq<Message>)
    requires IsSuffix(t.before, history) && (|History(t)| > 2 ==> CutPoint(History(t)) > 0)
    ensures IsSuffix(Cut(t).before, history)
  {
    var h := History(t);
    if |h| > 2 && CutPoint(h) <= |t.before| {
      assert t.before[CutPoint(h)..] == history[|history| - |t.before| + CutPoint(h)..];
    }
  }

  lemma {:induction false} RunKeepsSuffix(t: Turn, steps: seq<Step>, history: seq<Message>)
    requires IsSuffix(t.before, history) && Cuts(t, steps)
    ensures IsSuffix(Run(t, steps).before, history)
    decreases |steps|
  {
    if steps != [] {
      if steps[0] == Compact(true) {
        CutKeepsSuffix(t, history);
      }
      assert IsSuffix(Next(t, steps[0]).before, history);
      RunKeepsSuffix(Next(t, steps[0]), steps[1..], history);
    }
  }

  /** However often the session was cut, such an abort restores the surviving suffix of the old history. */
  lemma AbortRestoresSuffix(store: Store, history: seq<Message>, summary: Summary, steps: seq<Step>, injections: set<Message>)
    requires KeptApart(store, steps, injections)
    requires Cuts(Begin(store, history, summary), steps)
    ensures var t := Run(Begin(store, history, summary), steps);
            && IsSuffix(t.before, history)
            && (EndsHarmless(Begin(store, history, summary), steps, true) ==> IsSuffix(AbortedHistory(t), history))
  {
    AbortRestoresIff(store, history, summary, steps, injections);
    RunKeepsSuffix(Begin(store, history, summary), steps, history);
  }

  // ----- Aborts that restore messages of the aborted turn -----

  /** A swallowing compression makes the turn's own user message the restore point. */
  lemma SwallowKeepsOwnMessage(t: Turn, injections: set<Message>)
    requires Inv(t, injections) && SwallowsTurn(t)
    ensures Next(t, Compact(true)).restoreHistory == [Stored(t.store, t.own[0].message)]
  {
    CompressShape(History(t));
    LastRecordedIsNoUser(t, injections);
    CutIsCompress(t);
    NoMatch(History(t)[0], t.persisted);
  }

  lemma NoMatch(m: Message, p: seq<Message>)
    requires p != [] && p[|p| - 1] != m
    ensures RestorePoint([m], p) == [m]
  {
    assert CommonTail([m], p) == 0;
  }

  function Entries(ms: seq<Message>): (own: seq<Entry>)
    ensures |own| == |ms|
  {
    seq(|ms|, k requires 0 <= k < |ms| => Entry(ms[k], Recorded))
  }

  lemma EntriesAppend(ms: seq<Message>, m: Message)
    ensures Entries(ms + [m]) == Entries(ms) + [Entry(m, Recorded)]
  {
  }

  function AfterWrites(store: Store, history: seq<Message>, ms: seq<Message>): (t: Turn)
    ensures History(t) == history + Read(store, t.own) && |t.own| == |ms|
  {
    Turn(store, history, Entries(ms), [], history, [], ms)
  }

  function Writes(ms: seq<Message>): (steps: seq<Step>)
    ensures |steps| == |ms|
  {
    if ms == [] then [] else [Write(ms[0])] + Writes(ms[1..])
  }

  lemma {:induction false} RunOfWrites(store: Store, history: seq<Message>, done: seq<Message>, ms: seq<Message>)
    ensures Run(AfterWrites(store, history, done), Writes(ms)) == AfterWrites(store, history, done + ms)
    decreases |ms|
  {
    if ms == [] {
      assert done + [] == done;
    } else {
      var t, t' := AfterWrites(store, history, done), AfterWrites(store, history, done + [ms[0]]);
      EntriesAppend(done, ms[0]);
      assert ms == [ms[0]] + ms[1..];
      ConcatAssociates(done, [ms[0]], ms[1..]);
      assert Writes(ms)[0] == Write(ms[0]) && Writes(ms)[1..] == Writes(ms[1..]);
      assert Next(t, Write(ms[0])) == t';
      RunOfWrites(store, history, done + [ms[0]], ms[1..]);
    }
  }

  lemma WritesReach(store: Store, history: seq<Message>, ms: seq<Message>)
    ensures Run(Begin(store, history, []), Writes(ms)) == AfterWrites(store, history, ms)
  {
    assert [] + ms == ms;
    RunOfWrites(store, history, [], ms);
  }

  lemma TurnsOfQuestion(u: Message, c: Message, r: Message)
    requires IsUser(u) && !IsUser(c) && !IsUser(r)
    ensures TurnStarts([u, c, r]) == [0]
  {
    assert [u, c, r][..2] == [u, c] && [u, c][..1] == [u] && [u][..0] == [];
    assert TurnStarts([u]) == [0];
    assert TurnStarts([u, c]) == [0];
  }

  lemma CutOfTwoTurns(u0: Message, a0: Message, u: Message, c: Message, r: Message)
    requires IsUser(u0) && !IsUser(a0) && IsUser(u) && !IsUser(c) && !IsUser(r)
    ensures CutPoint([u0, a0, u, c, r]) == 2
  {
    var h := [u0, a0, u, c, r];
    TurnsOfAnswered(u0, a0);
    assert [u0, a0, u][..2] == [u0, a0];
    assert TurnStarts([u0, a0, u]) == [0] + [2] == [0, 2];
    assert h[..4][..3] == [u0, a0, u];
    assert TurnStarts(h[..4]) == [0, 2];
  }

  lemma TurnsOfAnswered(u0: Message, a0: Message)
    requires IsUser(u0) && !IsUser(a0)
    ensures TurnStarts([u0, a0]) == [0]
  {
    assert [u0, a0][..1] == [u0] && [u0][..0] == [];
    assert TurnStarts([u0]) == [0];
  }

  /**
   On the default store: a turn `u` that asked for a tool by name, `c`, and got its result, `r`, after
   an older turn. A compression that drops the older turn leaves `u` and `c` in the restore point.
   */
  lemma StoredCallerExample(u0: Message, a0: Message, u: Message, c: Message, r: Message)
    requires IsUser(u0) && !IsUser(a0) && IsUser(u) && IsCaller(c) && IsTool(r)
    requires u.callNames == "" && c.callNames != "" && r.callNames == ""
    ensures var t := Next(Run(Begin(Jsonl, [u0, a0], []), Writes([u, c, r])), Compact(true));
            t.before == [] && AbortedHistory(t) == [u, Stored(Jsonl, c)]
  {
    WritesReach(Jsonl, [u0, a0], [u, c, r]);
    var t := AfterWrites(Jsonl, [u0, a0], [u, c, r]);
    assert Read(Jsonl, t.own) == [u, Stored(Jsonl, c), r];
    StoredCallerCompresses(t, u0, a0, u, Stored(Jsonl, c), r);
    OnlyResultMatches([u, Stored(Jsonl, c), r], [u, c, r]);
  }

  lemma StoredCallerCompresses(t: Turn, u0: Message, a0: Message, u: Message, c: Message, r: Message)
    requires IsUser(u0) && !IsUser(a0) && IsUser(u) && !IsUser(c) && !IsUser(r)
    requires t.before == [u0, a0] && Read(t.store, t.own) == [u, c, r]
    ensures Next(t, Compact(true)).restoreHistory == RestorePoint([u, c, r], t.persisted)
    ensures Next(t, Compact(true)).before == []
  {
    assert History(t) == [u0, a0, u, c, r];
    CutOfTwoTurns(u0, a0, u, c, r);
    assert Compress(History(t)) == [u, c, r];
    DropsOlderPart(t, [u, c, r]);
  }

  lemma OnlyResultMatches(h: seq<Message>, p: seq<Message>)
    requires |h| == |p| == 3 && h[1] != p[1] && h[2] == p[2]
    ensures RestorePoint(h, p) == h[..2]
  {
    assert h[..2][1] != p[..2][1];
    assert CommonTail(h[..2], p[..2]) == 0;
  }

  /** From the start: a turn alone in its session is compressed to its question, which an abort restores. */
  lemma SwallowExample(store: Store, u: Message, c: Message, r: Message)
    requires IsUser(u) && !IsUser(c) && !IsUser(r)
    ensures var t := Next(Run(Begin(store, [], []), Writes([u, c, r])), Compact(true));
            t.before == [] && AbortedHistory(t) == [Stored(store, u)]
  {
    WritesReach(store, [], [u, c, r]);
    var t := AfterWrites(store, [], [u, c, r]);
    QuestionCompresses(t, Stored(store, u), Stored(store, c), Stored(store, r));
    NoMatch(Stored(store, u), [u, c, r]);
  }

  lemma QuestionCompresses(t: Turn, u: Message, c: Message, r: Message)
    requires t.before == [] && |t.own| == 3 && Read(t.store, t.own) == [u, c, r]
    requires IsUser(u) && !IsUser(c) && !IsUser(r)
    ensures Next(t, Compact(true)).restoreHistory == RestorePoint([u], t.persisted)
    ensures Next(t, Compact(true)).before == []
  {
    assert History(t) == [u, c, r];
    TurnsOfQuestion(u, c, r);
    CompressShape([u, c, r]);
    CompactIs(t);
  }

  /** A SubTurn result `j` that nobody recorded is itself restored when it alone survives. */
  lemma UnrecordedMessageExample(store: Store, u: Message, c: Message, r: Message, j: Message)
    requires IsUser(u) && !IsUser(c) && !IsUser(r) && IsUser(j)
    ensures var t := Next(Next(Run(Begin(store, [], []), Writes([u, c, r])), WriteInjected(j)), Compact(true));
            t.before == [] && AbortedHistory(t) == [Stored(store, j)]
  {
    WritesReach(store, [], [u, c, r]);
    var t0 := AfterWrites(store, [], [u, c, r]);
    var h := [Stored(store, u), Stored(store, c), Stored(store, r)];
    ReadAppend(store, t0.own, Entry(j, Injected));
    assert Read(store, t0.own) == h;
    InjectedCompresses(Next(t0, WriteInjected(j)), h, Stored(store, j));
    NoMatch(Stored(store, j), [u, c, r]);
  }

  lemma InjectedCompresses(t: Turn, h: seq<Message>, j: Message)
    requires t.before == [] && Read(t.store, t.own) == h + [j]
    requires |h| == 3 && IsUser(h[0]) && !IsUser(h[1]) && !IsUser(h[2]) && IsUser(j)
    ensures Next(t, Compact(true)).restoreHistory == RestorePoint([j], t.persisted)
    ensures Next(t, Compact(true)).before == []
  {
    assert History(t) == h + [j];
    CutOfInjected(h, j);
    DropsOlderPart(t, [j]);
  }

  /** A cut at or behind the end of the older part leaves nothing of it. */
  lemma DropsOlderPart(t: Turn, kept: seq<Message>)
    requires |History(t)| > 2 && CutPoint(History(t)) >= |t.before| && CutPoint(History(t)) > 0
    requires Compress(History(t)) == kept
    ensures Next(t, Compact(true)).restoreHistory == RestorePoint(kept, t.persisted)
    ensures Next(t, Compact(true)).before == []
  {
    CompactIs(t);
  }

  lemma CutOfInjected(h: seq<Message>, j: Message)
    requires |h| == 3 && IsUser(h[0]) && !IsUser(h[1]) && !IsUser(h[2]) && IsUser(j)
    ensures CutPoint(h + [j]) == 3 && Compress(h + [j]) == [j]
  {
    assert h == [h[0], h[1], h[2]];
    TurnsOfQuestion(h[0], h[1], h[2]);
    assert (h + [j])[..3] == h;
  }

  // ----- What the session and the record hold -----

  /** The store hands `m` back as `m'`: the same but for the tool names, which JSON lines do not keep. */
  predicate HandsBack(store: Store, m: Message, m': Message) {
    && m'.role == m.role && m'.content == m.content && m'.toolCalls == m.toolCalls && m'.toolCallID == m.toolCallID
    && m'.callNames == if store.InMemory? then m.callNames else ""
  }

  predicate HandsAllBack(store: Store, written: seq<Message>, h: seq<Message>) {
    |h| == |written| && forall k | 0 <= k < |h| :: HandsBack(store, written[k], h[k])
  }

  predicate NoneReaches(steps: seq<Step>) {
    Compact(true) !in steps
  }

  /** The messages that the steps write to the session, and those of them that they record. */
  function Written(steps: seq<Step>): seq<Message> {
    if steps == [] then []
    else
      match steps[0]
      case Write(m) => [m] + Written(steps[1..])
      case WriteInjected(m) => [m] + Written(steps[1..])
      case Compact(_) => Written(steps[1..])
  }

  function RecordedBy(steps: seq<Step>): seq<Message> {
    if steps == [] then []
    else (if steps[0].Write? then [steps[0].message] else []) + RecordedBy(steps[1..])
  }

  lemma HistoryAppend(t: Turn, e: Entry)
    ensures History(t.(own := t.own + [e])) == History(t) + [Stored(t.store, e.message)]
  {
    ReadAppend(t.store, t.own, e);
    ConcatAssociates(t.before, Read(t.store, t.own), [Stored(t.store, e.message)]);
  }

  lemma WrittenOne(step: Step)
    ensures Written([step]) == match step case Write(m) => [m] case WriteInjected(m) => [m] case Compact(_) => []
    ensures RecordedBy([step]) == if step.Write? then [step.message] else []
  {
    assert [step][1..] == [];
    assert Written([]) == [] && RecordedBy([]) == [];
  }

  /** From `t` to `t'` the session has grown by `added`, which hands back `written`; `recorded` is recorded. */
  predicate Grows(t: Turn, t': Turn, written: seq<Message>, added: seq<Message>, recorded: seq<Message>) {
    && t'.store == t.store && History(t') == History(t) + added
    && HandsAllBack(t.store, written, added) && t'.persisted == t.persisted + recorded
  }

  lemma GrowsThen(t: Turn, t': Turn, t'': Turn, written: seq<Message>, added: seq<Message>, recorded: seq<Message>,
                  written': seq<Message>, added': seq<Message>, recorded': seq<Message>)
    requires Grows(t, t', written, added, recorded) && Grows(t', t'', written', added', recorded')
    ensures Grows(t, t'', written + written', added + added', recorded + recorded')
  {
    ConcatAssociates(History(t), added, added');
    ConcatAssociates(t.persisted, recorded, recorded');
  }

  lemma WrittenFirst(steps: seq<Step>)
    requires steps != []
    ensures Written(steps) == Written([steps[0]]) + Written(steps[1..])
    ensures RecordedBy(steps) == RecordedBy([steps[0]]) + RecordedBy(steps[1..])
  {
    WrittenOne(steps[0]);
    assert [] + Written(steps[1..]) == Written(steps[1..]);
  }

  lemma {:induction false} WritesAppend(t: Turn, steps: seq<Step>) returns (added: seq<Message>)
    requires NoneReaches(steps)
    ensures Grows(t, Run(t, steps), Written(steps), added, RecordedBy(steps))
    decreases |steps|
  {
    if steps == [] {
      added := [];
    } else {
      var t', rest := Next(t, steps[0]), steps[1..];
      var first := FirstWrite(t, steps[0]);
      var others := WritesAppend(t', rest);
      added := first + others;
      WrittenFirst(steps);
      GrowsThen(t, t', Run(t', rest), Written([steps[0]]), first, RecordedBy([steps[0]]),
                Written(rest), others, RecordedBy(rest));
    }
  }

  lemma FirstWrite(t: Turn, step: Step) returns (first: seq<Message>)
    requires step != Compact(true)
    ensures Grows(t, Next(t, step), Written([step]), first, RecordedBy([step]))
  {
    WrittenOne(step);
    match step {
      case Write(m) =>
        first := [Stored(t.store, m)];
        HistoryAppend(t, Entry(m, Recorded));
        assert History(Next(t, step)) == History(t.(own := t.own + [Entry(m, Recorded)]));
      case WriteInjected(m) =>
        first := [Stored(t.store, m)];
        HistoryAppend(t, Entry(m, Injected));
        assert History(Next(t, step)) == History(t.(own := t.own + [Entry(m, Injected)]));
      case Compact(_) =>
        first := [];
        assert History(Next(t, step)) == History(t);
    }
  }

  /**
   As long as no compression reaches its session, a turn's session holds what was there before and then
   every message it wrote, in order, each as the store hands it back; its record holds exactly those
   that it recorded, as they were.
   */
  lemma SessionHoldsWhatWasWritten(store: Store, history: seq<Message>, summary: Summary, steps: seq<Step>)
    requires NoneReaches(steps)
    ensures var t := Run(Begin(store, history, summary), steps);
            && |History(t)| >= |history| && History(t)[..|history|] == history
            && HandsAllBack(store, Written(steps), History(t)[|history|..])
            && t.persisted == RecordedBy(steps)
  {
    var t := Begin(store, history, summary);
    assert History(t) == history;
    var added := WritesAppend(t, steps);
  }
}
