/**
 The archiver (`pkg/archiver`): raw records are appended while a distill run collects, commits and
 cleans up. A record is stamped with the time before it is appended.
 */
module Archiver {
  import opened Subsequences

  datatype Record = Record(ts: int, id: nat)

  /**
   A line of a raw file. The cleanup parses the timestamp only, so that it understands some lines
   that a distill run cannot read; it keeps the lines that are malformed for it as well.
   */
  datatype Line = Parsed(record: Record) | Unreadable(record: Record) | Malformed(text: string)

  type File = nat

  predicate Survives(line: Line, cutoff: int) {
    line.Malformed? || line.record.ts > cutoff
  }

  /** The lines a cleanup keeps, in order. */
  function Kept(lines: seq<Line>, cutoff: int): (kept: seq<Line>)
    ensures |kept| <= |lines|
    ensures forall line :: line in kept <==> line in lines && Survives(line, cutoff)
  {
    if lines == [] then []
    else
      var n := |lines| - 1;
      Kept(lines[..n], cutoff) + if Survives(lines[n], cutoff) then [lines[n]] else []
  }

  /** The raw directory after one file has been cleaned; an emptied file is removed. */
  function CleanedFile(files: map<File, seq<Line>>, file: File, cutoff: int): map<File, seq<Line>>
    requires file in files
  {
    var kept := Kept(files[file], cutoff);
    if kept == [] then files - {file} else files[file := kept]
  }

  // ----- The code -----

  class RawWriter {
    var files: map<File, seq<Line>>

    constructor ()
      ensures files == map[]
    {
      files := map[];
    }

    method Append(file: File, record: Record)
      modifies this
      ensures files == Appended(old(files), file, Parsed(record))
    {
      files := files[file := (if file in files then files[file] else []) + [Parsed(record)]];
    }

    method CleanupRawFile(file: File, cutoff: int) returns (deleted: nat)
      requires file in files
      modifies this
      ensures files == CleanedFile(old(files), file, cutoff)
      ensures deleted == |old(files)[file]| - |Kept(old(files)[file], cutoff)|
    {
      var lines := files[file];
      var kept: seq<Line> := [];
      deleted := 0;
      for i := 0 to |lines|
        invariant kept == Kept(lines[..i], cutoff) && deleted == i - |kept| && files == old(files)
      {
        assert lines[..i + 1][..i] == lines[..i];
        if lines[i].Malformed? {
          kept := kept + [lines[i]];
        } else if lines[i].record.ts > cutoff {
          kept := kept + [lines[i]];
        } else {
          deleted := deleted + 1;
        }
      }
      assert lines[..|lines|] == lines;
      if |kept| == 0 {
        files := files - {file};
      } else {
        files := files[file := kept];
      }
    }

    /** Every file keeps exactly its lines that are newer than the cutoff or do not parse. */
    method CleanupBefore(cutoff: int)
      modifies this
      ensures forall f :: f in files <==> f in old(files) && Kept(old(files)[f], cutoff) != []
      ensures forall f | f in files :: files[f] == Kept(old(files)[f], cutoff)
    {
      var todo := files.Keys;
      while todo != {}
        invariant todo <= old(files).Keys
        invariant forall f | f in todo :: f in files && files[f] == old(files)[f]
        invariant forall f | f !in todo :: f in files <==> f in old(files) && Kept(old(files)[f], cutoff) != []
        invariant forall f | f in files && f !in todo :: files[f] == Kept(old(files)[f], cutoff)
        decreases |todo|
      {
        var f :| f in todo;
        var n := CleanupRawFile(f, cutoff);
        todo := todo - {f};
      }
    }
  }

  // ----- Runs -----

  /** The single run in flight. The archiver lock makes it the only one. */
  datatype Distill =
    | Idle
    | Collecting(cutoff: int, todo: set<File>, batch: set<Record>)
    | Distilling(cutoff: int, batch: set<Record>)
    | Committed(cutoff: int)
    | Cleaning(cutoff: int, todo: set<File>)   // the writer's mutex is held

  /**
   `lastDistilled` is the cutoff of the last committed run, or zero. `stamped` are records with a
   timestamp that are not appended yet, `home` tells where the others were appended. The rest is
   history: the records of `committed` batches, those that cleanups `deleted`, the `late` ones that
   were appended behind the back of the run in flight, and the `missed` ones, which a committed run
   has passed over.
   */
  datatype State = State(
    clock: int, files: map<File, seq<Line>>, stamped: set<Record>, home: map<Record, File>,
    lastDistilled: int, run: Distill,
    committed: set<Record>, deleted: set<Record>, late: set<Record>, missed: set<Record>, unreadable: set<Record>)

  datatype Step =
    | Stamp(record: Record) | Append(record: Record, file: File)
    | Edit(file: File, line: Line)   // somebody else adds a line to a file
    | Begin(now: int) | ReadFile(file: File) | Collected | Fail
    | Commit | StartCleanup | CleanFile(file: File) | EndCleanup | LoseState
    | Restart   // the process dies at any moment: files and committed state stay

  const INITIAL := State(0, map[], {}, map[], 0, Idle, {}, {}, {}, {}, {})

  predicate IsNew(s: State, r: Record) {
    r !in s.home && r !in s.stamped
  }

  predicate Enabled(s: State, step: Step) {
    match step
    case Stamp(record) => record.ts > s.clock && IsNew(s, record)
    case Append(record, _) => record in s.stamped && !s.run.Cleaning?
    case Edit(_, line) => (!line.Malformed? ==> IsNew(s, line.record)) && !s.run.Cleaning?
    case Begin(now) => s.run.Idle? && now > s.clock
    case ReadFile(file) => s.run.Collecting? && file in s.files
    case Collected => s.run.Collecting? && s.run.todo == {}
    case Fail => s.run.Collecting? || s.run.Distilling?
    case Commit => s.run.Distilling?
    case StartCleanup => s.run.Committed?
    case CleanFile(file) => s.run.Cleaning? && file in s.run.todo && file in s.files
    case EndCleanup => s.run.Cleaning? || s.run.Committed?
    case LoseState => s.run.Idle?
    case Restart => true
  }

  function Appended(files: map<File, seq<Line>>, file: File, line: Line): map<File, seq<Line>> {
    files[file := (if file in files then files[file] else []) + [line]]
  }

  /** The last committed run will never be followed by one that distills the record. */
  predicate IsBehind(s: State, r: Record) {
    s.lastDistilled != 0 && r.ts <= s.lastDistilled
  }

  /** The run in flight covers the time of a record appended to `file`, but has looked there already. */
  predicate IsLate(s: State, r: Record, file: File) {
    (s.run.Collecting? && r.ts <= s.run.cutoff && file !in s.run.todo) || (s.run.Distilling? && r.ts <= s.run.cutoff)
  }

  /** A readable record gets into a file. */
  function Arrive(s: State, r: Record, file: File): State {
    s.(files := Appended(s.files, file, Parsed(r)), home := s.home[r := file],
       missed := if IsBehind(s, r) then s.missed + {r} else s.missed,
       late := if !IsBehind(s, r) && IsLate(s, r, file) then s.late + {r} else s.late)
  }

  /** The records of a file that a run distilling from `since` on puts into its batch. */
  function NewRecords(lines: seq<Line>, since: int): set<Record> {
    set line | line in lines && line.Parsed? && (since == 0 || line.record.ts > since) :: line.record
  }

  function RemovedRecords(lines: seq<Line>, cutoff: int): set<Record> {
    set line | line in lines && !line.Malformed? && line.record.ts <= cutoff :: line.record
  }

  function Next(s: State, step: Step): State
    requires Enabled(s, step)
  {
    match step
    case Stamp(record) => s.(clock := record.ts, stamped := s.stamped + {record})
    case Append(record, file) => Arrive(s, record, file).(stamped := s.stamped - {record})
    case Edit(file, line) =>
      if line.Parsed? then Arrive(s, line.record, file)
      else if line.Malformed? then s.(files := Appended(s.files, file, line))
      else s.(files := Appended(s.files, file, line), home := s.home[line.record := file],
              unreadable := s.unreadable + {line.record})
    case Begin(now) => s.(clock := now, run := Collecting(now, s.files.Keys, {}))
    case ReadFile(file) =>
      var found := NewRecords(s.files[file], s.lastDistilled);
      s.(run := Collecting(s.run.cutoff, s.run.todo - {file}, s.run.batch + found), late := s.late - found)
    case Collected => if s.run.batch == {} then Over(s) else s.(run := Distilling(s.run.cutoff, s.run.batch))
    case Fail => Over(s)
    case Commit =>
      s.(lastDistilled := s.run.cutoff, committed := s.committed + s.run.batch, run := Committed(s.run.cutoff),
         missed := s.missed + s.late, late := {})
    case StartCleanup => s.(run := Cleaning(s.run.cutoff, s.files.Keys))
    case CleanFile(file) =>
      s.(files := CleanedFile(s.files, file, s.run.cutoff), run := Cleaning(s.run.cutoff, s.run.todo - {file}),
         deleted := s.deleted + RemovedRecords(s.files[file], s.run.cutoff))
    case EndCleanup => s.(run := Idle)
    case LoseState => s.(lastDistilled := 0, missed := s.missed * s.deleted)  // the others get another chance
    case Restart => Over(s).(stamped := {})
  }

  /** The run ends without a commit: what it had not seen is left to the next one. */
  function Over(s: State): State {
    s.(run := Idle, late := {})
  }

  predicate IsRun(s: State, steps: seq<Step>)
    decreases |steps|
  {
    steps == [] || (Enabled(s, steps[0]) && IsRun(Next(s, steps[0]), steps[1..]))
  }

  function Run(s: State, steps: seq<Step>): State
    requires IsRun(s, steps)
    decreases |steps|
  {
    if steps == [] then s else Run(Next(s, steps[0]), steps[1..])
  }

  // ----- The invariant -----

  function Batch(s: State): set<Record> {
    if s.run.Collecting? || s.run.Distilling? then s.run.batch else {}
  }

  predicate Settled(s: State, r: Record) {
    r in s.committed || r in s.missed
  }

  /** What is known of a readable record of `file`, given how far the run in flight has come. */
  predicate CoveredInRun(s: State, file: File, r: Record) {
    match s.run
    case Idle => true
    case Collecting(cutoff, todo, batch) => r.ts <= cutoff ==> file in todo || r in batch || r in s.late || Settled(s, r)
    case Distilling(cutoff, batch) => r.ts <= cutoff ==> r in batch || r in s.late || Settled(s, r)
    case Committed(cutoff) => r.ts <= cutoff ==> Settled(s, r)
    case Cleaning(cutoff, _) => r.ts <= cutoff ==> Settled(s, r)
  }

  predicate LineOk(s: State, file: File, line: Line) {
    match line
    case Malformed(_) => true
    case Unreadable(r) => r in s.home && s.home[r] == file && r in s.unreadable && r !in s.deleted
    case Parsed(r) =>
      && r in s.home && s.home[r] == file && r !in s.unreadable && r !in s.deleted
      && (IsBehind(s, r) ==> Settled(s, r)) && CoveredInRun(s, file, r)
  }

  predicate FileOk(s: State, file: File)
    requires file in s.files
  {
    forall line | line in s.files[file] :: LineOk(s, file, line)
  }

  /** Where a record stands in the history. */
  predicate RecordOk(s: State, r: Record) {
    && (r in s.stamped ==> r !in s.home)
    && (r in s.committed || r in s.missed || r in s.late || r in Batch(s) || r in s.unreadable || r in s.deleted ==> r in s.home)
    && (r in s.missed ==> r !in s.committed && r !in Batch(s) && (r in s.deleted || IsBehind(s, r)))
    && (r in s.late ==> r !in s.committed && r !in Batch(s) && (s.run.Collecting? || s.run.Distilling?) && r.ts <= s.run.cutoff)
    && (r in s.unreadable ==> r !in s.committed && r !in Batch(s))
    && (r in s.deleted ==> Settled(s, r) || r in s.unreadable)
  }

  ghost predicate Inv(s: State) {
    && 0 <= s.lastDistilled <= s.clock
    && (!s.run.Idle? ==> s.lastDistilled <= s.run.cutoff <= s.clock && 0 < s.run.cutoff)
    && (s.run.Committed? || s.run.Cleaning? ==> s.lastDistilled == s.run.cutoff)
    && (forall file | file in s.files :: FileOk(s, file))
    && (forall r :: RecordOk(s, r))
  }

  lemma ReadingKeepsRecord(s: State, file: File, r: Record)
    requires Inv(s) && Enabled(s, ReadFile(file))
    ensures RecordOk(Next(s, ReadFile(file)), r)
  {
    assert RecordOk(s, r) && FileOk(s, file);
    if r in NewRecords(s.files[file], s.lastDistilled) {
      assert LineOk(s, file, Parsed(r));
    }
  }

  lemma CleaningKeepsRecord(s: State, file: File, r: Record)
    requires Inv(s) && Enabled(s, CleanFile(file))
    ensures RecordOk(Next(s, CleanFile(file)), r)
  {
    assert RecordOk(s, r) && FileOk(s, file);
    if r in RemovedRecords(s.files[file], s.run.cutoff) {
      var line :| line in s.files[file] && !line.Malformed? && line.record == r;
      assert LineOk(s, file, line);
    }
  }

  lemma StepKeepsRecord(s: State, step: Step, r: Record)
    requires Inv(s) && Enabled(s, step)
    ensures RecordOk(Next(s, step), r)
  {
    assert RecordOk(s, r);
    match step {
      case ReadFile(file) => ReadingKeepsRecord(s, file, r);
      case CleanFile(file) => CleaningKeepsRecord(s, file, r);
      case _ =>
    }
  }

  lemma ArrivalKeepsLine(s: State, r: Record, file: File, f: File, line: Line)
    requires Inv(s) && !s.run.Cleaning? && r !in s.home
    requires f in Arrive(s, r, file).files && line in Arrive(s, r, file).files[f]
    ensures LineOk(Arrive(s, r, file), f, line)
  {
    assert RecordOk(s, r);
    if f in s.files && line in s.files[f] {
      assert FileOk(s, f);
      assert LineOk(s, f, line);
    }
  }

  lemma EditKeepsLine(s: State, file: File, added: Line, f: File, line: Line)
    requires Inv(s) && Enabled(s, Edit(file, added)) && !added.Parsed?
    requires f in Next(s, Edit(file, added)).files && line in Next(s, Edit(file, added)).files[f]
    ensures LineOk(Next(s, Edit(file, added)), f, line)
  {
    if f in s.files && line in s.files[f] {
      assert FileOk(s, f);
      assert LineOk(s, f, line);
    } else if added.Unreadable? {
      assert RecordOk(s, added.record);
    }
  }

  lemma ReadingKeepsLine(s: State, file: File, f: File, line: Line)
    requires Inv(s) && Enabled(s, ReadFile(file)) && f in s.files && line in s.files[f]
    ensures LineOk(Next(s, ReadFile(file)), f, line)
  {
    assert FileOk(s, f);
    assert LineOk(s, f, line);
    if f == file && line.Parsed? && !IsBehind(s, line.record) {
      assert line.record in NewRecords(s.files[file], s.lastDistilled);
    }
  }

  lemma CleaningKeepsLine(s: State, file: File, f: File, line: Line)
    requires Inv(s) && Enabled(s, CleanFile(file))
    requires f in Next(s, CleanFile(file)).files && line in Next(s, CleanFile(file)).files[f]
    ensures LineOk(Next(s, CleanFile(file)), f, line)
  {
    assert FileOk(s, f) && FileOk(s, file);
    assert LineOk(s, f, line);
    assert forall other | other in s.files[file] && LineOk(s, file, other) ::
        other.Malformed? || s.home[other.record] == file;
  }

  lemma StepKeepsLine(s: State, step: Step, f: File, line: Line)
    requires Inv(s) && Enabled(s, step)
    requires f in Next(s, step).files && line in Next(s, step).files[f]
    ensures LineOk(Next(s, step), f, line)
  {
    if step.Append? {
      assert RecordOk(s, step.record);
      ArrivalKeepsLine(s, step.record, step.file, f, line);
    } else if step.Edit? && step.line.Parsed? {
      ArrivalKeepsLine(s, step.line.record, step.file, f, line);
    } else if step.Edit? {
      EditKeepsLine(s, step.file, step.line, f, line);
    } else if step.ReadFile? {
      ReadingKeepsLine(s, step.file, f, line);
    } else if step.CleanFile? {
      CleaningKeepsLine(s, step.file, f, line);
    } else {
      assert FileOk(s, f);
      assert LineOk(s, f, line);
    }
  }

  lemma StepKeepsInv(s: State, step: Step)
    requires Inv(s) && Enabled(s, step)
    ensures Inv(Next(s, step))
  {
    var s' := Next(s, step);
    forall file | file in s'.files
      ensures FileOk(s', file)
    {
      forall line | line in s'.files[file]
        ensures LineOk(s', file, line)
      {
        StepKeepsLine(s, step, file, line);
      }
    }
    forall r
      ensures RecordOk(s', r)
    {
      StepKeepsRecord(s, step, r);
    }
  }

  lemma {:induction false} RunKeepsInv(s: State, steps: seq<Step>)
    requires Inv(s) && IsRun(s, steps)
    ensures Inv(Run(s, steps))
    decreases |steps|
  {
    if steps != [] {
      StepKeepsInv(s, steps[0]);
      RunKeepsInv(Next(s, steps[0]), steps[1..]);
    }
  }

  // ----- Which records are deleted before they were distilled -----

  /**
   Over every interleaving of appends, edits, failed, skipped or committed runs, failed or finished
   cleanups, lost states and restarts: a deleted record was in no committed batch if and only if a
   committed run had missed it, or only the cleanup could read its line.
   */
  lemma DeletedUndistilledIff(steps: seq<Step>, r: Record)
    requires IsRun(INITIAL, steps) && r in Run(INITIAL, steps).deleted
    ensures var s := Run(INITIAL, steps); r !in s.committed <==> r in s.missed || r in s.unreadable
  {
    RunKeepsInv(INITIAL, steps);
    assert RecordOk(Run(INITIAL, steps), r);
  }

  /** No run begins while a record is between its time stamp and its append, and nobody edits files. */
  predicate IsQuiet(s: State, steps: seq<Step>)
    requires IsRun(s, steps)
    decreases |steps|
  {
    steps == [] ||
    ((steps[0].Begin? ==> s.stamped == {}) && !steps[0].Edit? && IsQuiet(Next(s, steps[0]), steps[1..]))
  }

  /** Whatever is still to be appended is younger than every run. */
  ghost predicate NothingMissed(s: State) {
    && s.missed == {} && s.late == {} && s.unreadable == {} && 0 <= s.lastDistilled <= s.clock
    && (!s.run.Idle? ==> 0 <= s.run.cutoff <= s.clock)
    && forall r | r in s.stamped :: r.ts > s.lastDistilled && (!s.run.Idle? ==> r.ts > s.run.cutoff)
  }

  lemma {:induction false} QuietRunsMissNothing(s: State, steps: seq<Step>)
    requires NothingMissed(s) && IsRun(s, steps) && IsQuiet(s, steps)
    ensures NothingMissed(Run(s, steps))
    decreases |steps|
  {
    if steps != [] {
      QuietStepMissesNothing(s, steps[0]);
      QuietRunsMissNothing(Next(s, steps[0]), steps[1..]);
    }
  }

  lemma QuietStepMissesNothing(s: State, step: Step)
    requires NothingMissed(s) && Enabled(s, step) && !step.Edit? && (step.Begin? ==> s.stamped == {})
    ensures NothingMissed(Next(s, step))
  {
  }

  /** If stamping and appending are one step, everything deleted was distilled and committed. */
  lemma DeletedWasDistilled(steps: seq<Step>, r: Record)
    requires IsRun(INITIAL, steps) && IsQuiet(INITIAL, steps)
    ensures var s := Run(INITIAL, steps); r in s.deleted ==> r in s.committed
  {
    QuietRunsMissNothing(INITIAL, steps);
    if r in Run(INITIAL, steps).deleted {
      DeletedUndistilledIff(steps, r);
    }
  }

  // ----- A record can be lost -----

  lemma RunOne(s: State, step: Step, rest: seq<Step>)
    requires Enabled(s, step) && IsRun(Next(s, step), rest)
    ensures IsRun(s, [step] + rest) && Run(s, [step] + rest) == Run(Next(s, step), rest)
  {
    assert ([step] + rest)[1..] == rest;
  }

  lemma {:induction false} RunConcat(s: State, a: seq<Step>, b: seq<Step>)
    requires IsRun(s, a) && IsRun(Run(s, a), b)
    ensures IsRun(s, a + b) && Run(s, a + b) == Run(Run(s, a), b)
    decreases |a|
  {
    if a == [] {
      assert a + b == b;
    } else {
      assert (a + b)[1..] == a[1..] + b;
      RunConcat(Next(s, a[0]), a[1..], b);
    }
  }

  /** `b` is in the file, `a` is stamped but not appended. */
  function Stamped(a: Record, b: Record, file: File): State {
    State(a.ts, map[file := [Parsed(b)]], {a}, map[b := file], 0, Idle, {}, {}, {}, {}, {})
  }

  lemma StampedIsReached(a: Record, b: Record, file: File)
    requires 0 < b.ts < a.ts
    ensures IsRun(INITIAL, [Stamp(b), Append(b, file), Stamp(a)])
    ensures Run(INITIAL, [Stamp(b), Append(b, file), Stamp(a)]) == Stamped(a, b, file)
  {
    var s1 := Next(INITIAL, Stamp(b));
    var s2 := Next(s1, Append(b, file));
    assert s2.files[file] == [] + [Parsed(b)] == [Parsed(b)];
    assert {} + {b} - {b} == {};
    assert Next(s2, Stamp(a)) == Stamped(a, b, file);
    RunOne(s2, Stamp(a), []);
    RunOne(s1, Append(b, file), [Stamp(a)]);
    RunOne(INITIAL, Stamp(b), [Append(b, file), Stamp(a)]);
  }

  /** A run has collected `b` when `a` is appended. */
  function Overtaken(a: Record, b: Record, file: File, now: int): State {
    State(now, map[file := [Parsed(b), Parsed(a)]], {}, map[b := file, a := file], 0, Distilling(now, {b}),
          {}, {}, {a}, {}, {})
  }

  lemma OvertakenIsReached(a: Record, b: Record, file: File, now: int)
    requires 0 < b.ts < a.ts < now
    ensures var steps := [Begin(now), ReadFile(file), Collected, Append(a, file)];
            IsRun(Stamped(a, b, file), steps) && Run(Stamped(a, b, file), steps) == Overtaken(a, b, file, now)
  {
    var s := Stamped(a, b, file);
    var s1 := Next(s, Begin(now));
    assert Parsed(b) in s.files[file];
    assert NewRecords([Parsed(b)], 0) == {b};
    var s2 := s.(clock := now, run := Collecting(now, {}, {b}));
    assert s.files.Keys - {file} == {} && {} + {b} == {b} && {} - {b} == {};
    assert Next(s1, ReadFile(file)) == s2;
    var s3 := s.(clock := now, run := Distilling(now, {b}));
    assert Next(s2, Collected) == s3;
    assert [Parsed(b)] + [Parsed(a)] == [Parsed(b), Parsed(a)];
    assert Next(s3, Append(a, file)) == Overtaken(a, b, file, now);
    RunOne(s3, Append(a, file), []);
    RunOne(s2, Collected, [Append(a, file)]);
    RunOne(s1, ReadFile(file), [Collected, Append(a, file)]);
    RunOne(s, Begin(now), [ReadFile(file), Collected, Append(a, file)]);
  }

  lemma OvertakenIsLost(a: Record, b: Record, file: File, now: int)
    requires 0 < b.ts < a.ts < now
    ensures var steps := [Commit, StartCleanup, CleanFile(file)];
            IsRun(Overtaken(a, b, file, now), steps) &&
            var s := Run(Overtaken(a, b, file, now), steps); a in s.deleted && a in s.missed
  {
    var s := Overtaken(a, b, file, now);
    var s1 := Next(s, Commit);
    var s2 := Next(s1, StartCleanup);
    assert Parsed(a) == s2.files[file][1];
    assert a in RemovedRecords(s2.files[file], now);
    RunOne(s2, CleanFile(file), []);
    RunOne(s1, StartCleanup, [CleanFile(file)]);
    RunOne(s, Commit, [StartCleanup, CleanFile(file)]);
  }

  /**
   From the start of the archiver: a record stamped before a run begins, and appended after the run
   has read its file, is deleted by that run's cleanup although no batch contains it.
   */
  lemma StragglerIsLost(a: Record, b: Record, now: int, file: File)
    requires 0 < b.ts < a.ts < now
    ensures var steps := [Stamp(b), Append(b, file), Stamp(a)] + ([Begin(now), ReadFile(file), Collected, Append(a, file)] +
                         [Commit, StartCleanup, CleanFile(file)]);
            IsRun(INITIAL, steps) && a in Run(INITIAL, steps).deleted && a !in Run(INITIAL, steps).committed
  {
    var first, middle := [Stamp(b), Append(b, file), Stamp(a)], [Begin(now), ReadFile(file), Collected, Append(a, file)];
    var last := [Commit, StartCleanup, CleanFile(file)];
    StampedIsReached(a, b, file);
    OvertakenIsReached(a, b, file, now);
    OvertakenIsLost(a, b, file, now);
    RunConcat(Stamped(a, b, file), middle, last);
    RunConcat(INITIAL, first, middle + last);
    DeletedUndistilledIff(first + (middle + last), a);
  }

  // ----- What a cleanup keeps -----

  /** A cleanup keeps each surviving line as often as it was there and no other, in the old order. */
  lemma KeptIsExact(lines: seq<Line>, cutoff: int, line: Line)
    ensures IsSubsequence(Kept(lines, cutoff), lines)
    ensures Occurrences(Kept(lines, cutoff), line) == if Survives(line, cutoff) then Occurrences(lines, line) else 0
  {
    KeptIsOrdered(lines, cutoff);
    KeptAsOften(lines, cutoff, line);
  }

  function Occurrences(lines: seq<Line>, line: Line): nat {
    multiset(lines)[line]
  }

  lemma {:induction false} KeptIsOrdered(lines: seq<Line>, cutoff: int)
    ensures IsSubsequence(Kept(lines, cutoff), lines)
  {
    if lines != [] {
      var n := |lines| - 1;
      var last := if Survives(lines[n], cutoff) then [lines[n]] else [];
      KeptIsOrdered(lines[..n], cutoff);
      assert lines == lines[..n] + [lines[n]];
      Reflexive([lines[n]]);
      assert IsSubsequence(last, [lines[n]]);
      Concat(Kept(lines[..n], cutoff), lines[..n], last, [lines[n]]);
    }
  }

  lemma OccurrencesAppend(lines: seq<Line>, last: Line, line: Line)
    ensures Occurrences(lines + [last], line) == Occurrences(lines, line) + if last == line then 1 else 0
  {
  }

  lemma {:induction false} KeptAsOften(lines: seq<Line>, cutoff: int, line: Line)
    ensures Occurrences(Kept(lines, cutoff), line) == if Survives(line, cutoff) then Occurrences(lines, line) else 0
  {
    if lines != [] {
      var n := |lines| - 1;
      KeptAsOften(lines[..n], cutoff, line);
      assert lines == lines[..n] + [lines[n]];
      OccurrencesAppend(lines[..n], lines[n], line);
      OccurrencesAppend(Kept(lines[..n], cutoff), lines[n], line);
      assert Kept(lines[..n], cutoff) + [] == Kept(lines[..n], cutoff);
    }
  }

  predicate HasLine(s: State, r: Record) {
    r in s.home && s.home[r] in s.files && (Parsed(r) in s.files[s.home[r]] || Unreadable(r) in s.files[s.home[r]])
  }

  ghost predicate NothingVanishes(s: State) {
    forall r | r in s.home :: HasLine(s, r) || r in s.deleted
  }

  lemma CleaningDropsIntoDeleted(s: State, file: File, r: Record)
    requires Enabled(s, CleanFile(file)) && r in s.home && (HasLine(s, r) || r in s.deleted)
    ensures HasLine(Next(s, CleanFile(file)), r) || r in Next(s, CleanFile(file)).deleted
  {
    if HasLine(s, r) && s.home[r] == file {
      var line := if Parsed(r) in s.files[file] then Parsed(r) else Unreadable(r);
      if Survives(line, s.run.cutoff) {
        assert line in Kept(s.files[file], s.run.cutoff);
      } else {
        assert r in RemovedRecords(s.files[file], s.run.cutoff);
      }
    }
  }

  lemma StepLosesNothing(s: State, step: Step, r: Record)
    requires Inv(s) && Enabled(s, step) && NothingVanishes(s) && r in Next(s, step).home
    ensures HasLine(Next(s, step), r) || r in Next(s, step).deleted
  {
    if step.CleanFile? {
      CleaningDropsIntoDeleted(s, step.file, r);
    } else if step.Append? {
      assert RecordOk(s, step.record);
      ArrivalLosesNothing(s, step.record, step.file, r);
    } else if step.Edit? && step.line.Parsed? {
      ArrivalLosesNothing(s, step.line.record, step.file, r);
    } else {
      assert r in s.home ==> HasLine(s, r) || r in s.deleted;
    }
  }

  lemma ArrivalLosesNothing(s: State, added: Record, file: File, r: Record)
    requires NothingVanishes(s) && r in Arrive(s, added, file).home && added !in s.home
    ensures HasLine(Arrive(s, added, file), r) || r in s.deleted
  {
    if r != added {
      assert HasLine(s, r) || r in s.deleted;
    }
  }

  /** While files are being cleaned, those that are done hold nothing from before the cutoff. */
  ghost predicate DoneFilesAreClean(s: State) {
    s.run.Cleaning? ==>
      forall file | file in s.files && file !in s.run.todo :: IsClean(s.files[file], s.run.cutoff)
  }

  predicate IsClean(lines: seq<Line>, cutoff: int) {
    forall line | line in lines :: Survives(line, cutoff)
  }

  lemma {:induction false} RunLosesNothing(s: State, steps: seq<Step>)
    requires Inv(s) && NothingVanishes(s) && DoneFilesAreClean(s) && IsRun(s, steps)
    ensures Inv(Run(s, steps)) && NothingVanishes(Run(s, steps)) && DoneFilesAreClean(Run(s, steps))
    decreases |steps|
  {
    if steps != [] {
      var s' := Next(s, steps[0]);
      StepKeepsInv(s, steps[0]);
      StepLeavesDoneFilesClean(s, steps[0]);
      forall r | r in s'.home
        ensures HasLine(s', r) || r in s'.deleted
      {
        StepLosesNothing(s, steps[0], r);
      }
      RunLosesNothing(s', steps[1..]);
    }
  }

  lemma StepLeavesDoneFilesClean(s: State, step: Step)
    requires DoneFilesAreClean(s) && Enabled(s, step)
    ensures DoneFilesAreClean(Next(s, step))
  {
  }

  /**
   Conservation over every interleaving: a record that was ever written is in its file or among the
   deleted ones, never both and never neither; a cleanup that has been through all files leaves no
   record up to its cutoff.
   */
  lemma RecordsAreKeptOrDeleted(steps: seq<Step>, r: Record)
    requires IsRun(INITIAL, steps) && r in Run(INITIAL, steps).home
    ensures var s := Run(INITIAL, steps);
            && (HasLine(s, r) <==> r !in s.deleted)
            && (s.run.Cleaning? && s.run.todo == {} && r.ts <= s.run.cutoff ==> r in s.deleted)
  {
    RunLosesNothing(INITIAL, steps);
    var s := Run(INITIAL, steps);
    if HasLine(s, r) {
      var line := if Parsed(r) in s.files[s.home[r]] then Parsed(r) else Unreadable(r);
      assert FileOk(s, s.home[r]);
      assert LineOk(s, s.home[r], line);
    }
  }

  /**
   The promise of the cutoff: when a run has collected its records, it has every readable one up to its
   cutoff, or an earlier run had it, or it was late or missed - written behind a run's back.
   */
  lemma ConsideredUnlessLate(steps: seq<Step>, file: File, r: Record)
    requires IsRun(INITIAL, steps) && Run(INITIAL, steps).run.Distilling?
    requires file in Run(INITIAL, steps).files && Parsed(r) in Run(INITIAL, steps).files[file]
    requires r.ts <= Run(INITIAL, steps).run.cutoff
    ensures var s := Run(INITIAL, steps);
            r in s.run.batch || r in s.committed || r in s.late || r in s.missed
  {
    RunKeepsInv(INITIAL, steps);
    var s := Run(INITIAL, steps);
    assert FileOk(s, file);
    assert LineOk(s, file, Parsed(r));
  }
}
