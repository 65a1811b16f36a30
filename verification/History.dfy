/**
 The audit history of a submission: snapshots, recorded changes, and the log that concurrent saves
 write. A row maps column names to the history text of the stored value; a missing column is null.
*/
module History {
  import opened Prelude

  type Row = map<string, Option<string>>

  datatype Diff = Diff(before: Option<string>, after: Option<string>)

  const HISTORY_FIELDS := [
    "finalStatus", "l1Status", "l1Date", "l1Remarks", "l1Interviewer", "l1Color", "l2Status", "l2Date",
    "l2Remarks", "l2Interviewer", "l2Color", "l3Status", "l3Date", "l3Remarks", "l3Interviewer", "l3Color",
    "meetingLink", "remarks", "reviewFeedback", "podLeadRemarks", "recruiterComment", "submittedRateAmount",
    "currentCompensationAmount", "expectedCompensationAmount", "compensationCurrency", "compensationPeriod",
    "compensationInputUnit", "sourceCategory", "sourceChannel", "sourceDetail", "availabilityToStart"]

  const COLORS := ["l1Color", "l2Color", "l3Color"]

  const FINAL_STATUS := "finalStatus"

  function HistoryFields(): set<string> {
    set f | f in HISTORY_FIELDS
  }

  function AuditFields(): set<string> {
    set f | f in HISTORY_FIELDS && f !in COLORS
  }

  function Value(row: Row, field: string): Option<string> {
    if field in row then row[field] else None
  }

  function Snapshot(row: Row): Row {
    map f | f in AuditFields() :: Value(row, f)
  }

  function Changes(existing: Row, data: Row): map<string, Diff> {
    map f | f in HistoryFields() && f in data && Value(existing, f) != Value(data, f)
      :: Diff(Value(existing, f), Value(data, f))
  }

  function AuditChanges(existing: Row, data: Row): map<string, Diff> {
    var changes := Changes(existing, data);
    map f | f in changes && f in AuditFields() :: changes[f]
  }

  // ---- Replay ----

  /** The first event may carry a snapshot; every later one is an update. */
  datatype Event =
    | Start(sequence: nat, snapshot: Option<Row>)
    | Update(sequence: nat, at: int, changes: map<string, Diff>)

  function Afters(changes: map<string, Diff>): Row {
    map f | f in changes :: changes[f].after
  }

  function Befores(changes: map<string, Diff>): Row {
    map f | f in changes :: changes[f].before
  }

  /** A snapshot with the recorded changes applied in order. */
  function Replay(start: Row, log: seq<Event>): Row {
    if log == [] then start
    else
      var before := Replay(start, log[..|log| - 1]);
      var e := log[|log| - 1];
      if e.Update? then before + Afters(e.changes) else before
  }

  /** A snapshot with the recorded changes taken back, last one first. */
  function Undo(end: Row, log: seq<Event>): Row
    decreases |log|
  {
    if log == [] then end
    else
      var e := log[|log| - 1];
      Undo(if e.Update? then end + Befores(e.changes) else end, log[..|log| - 1])
  }

  /** Each recorded `before` is what the changes recorded so far say, and differs from its `after`. */
  ghost predicate Chained(start: Row, log: seq<Event>) {
    forall i, f {:trigger f in log[i].changes} :: 0 <= i < |log| && log[i].Update? && f in log[i].changes ==>
      f in start && log[i].changes[f].before == Value(Replay(start, log[..i]), f)
      && log[i].changes[f].before != log[i].changes[f].after
  }

  lemma {:induction false} ReplayMore(start: Row, log: seq<Event>, e: Event)
    ensures Replay(start, log + [e]) == if e.Update? then Replay(start, log) + Afters(e.changes) else Replay(start, log)
  {
    assert (log + [e])[..|log|] == log;
  }

  /** What is recorded of a write brings the snapshot from the old row to the new one. */
  lemma RecordedWrite(row: Row, data: Row)
    ensures Snapshot(row + data) == Snapshot(row) + Afters(AuditChanges(row, data))
  {
    AuditsHistory();
    hide AuditFields, HistoryFields;
  }

  lemma AuditsHistory()
    ensures AuditFields() <= HistoryFields()
  {
  }

  lemma RecordedDiffs(row: Row, data: Row, f: string)
    requires f in AuditChanges(row, data)
    ensures f in Snapshot(row) && AuditChanges(row, data)[f].before == Snapshot(row)[f]
    ensures AuditChanges(row, data)[f].before != AuditChanges(row, data)[f].after
  {
    hide AuditFields, HistoryFields;
  }

  // ---- The log under concurrent saves ----

  datatype Loaded = Loaded(row: Row, version: int)

  /** The row, its `updatedAt`, its events, and what each client in the middle of a save has read. */
  datatype State = State(row: Row, version: int, log: seq<Event>, loaded: map<nat, Loaded>)

  /**
   A client reads the row, and later commits. `bypass` says a bypass reason is given, `noted` that a
   correction reason or an assessment is; `now` is the server's clock and `at` the database's.
  */
  datatype Step = Load(client: nat) | Commit(client: nat, data: Row, bypass: bool, noted: bool, now: int, at: int)

  function NextSequence(log: seq<Event>): nat {
    if log == [] then 1 else log[|log| - 1].sequence + 1
  }

  /** The events a recorded save appends: a baseline first when there is no history. */
  function Appended(log: seq<Event>, existing: Row, data: Row, at: int): seq<Event> {
    (if log == [] then [Start(0, Some(Snapshot(existing)))] else [])
    + [Update(NextSequence(log), at, AuditChanges(existing, data))]
  }

  function Next(s: State, step: Step): State {
    match step
    case Load(client) => s.(loaded := s.loaded[client := Loaded(s.row, s.version)])
    case Commit(client, data, bypass, noted, now, at) =>
      if client !in s.loaded then s
      else
        var existing := s.loaded[client].row;
        var done := s.(loaded := s.loaded - {client});
        if Changes(existing, data) == map[] && !bypass then done
        else if s.loaded[client].version != s.version then done
        else
          var recorded := AuditChanges(existing, data) != map[] || bypass || noted;
          done.(row := s.row + data,
                version := if now > s.version + 1 then now else s.version + 1,
                log := if recorded then s.log + Appended(s.log, existing, data, at) else s.log)
  }

  function Run(s: State, steps: seq<Step>): State {
    if steps == [] then s else Next(Run(s, steps[..|steps| - 1]), steps[|steps| - 1])
  }

  /** How a submission starts: from before there was a history, by a recruiter, or from the website. */
  datatype Origin = Legacy | Recruiter | Website

  function Created(origin: Origin, row: Row, version: int): State {
    State(row, version,
      match origin
      case Legacy => []
      case Recruiter => [Start(0, Some(Snapshot(row)))]
      case Website => [Start(0, None)],
      map[])
  }

  /** A read of the current version is a read of the current row. */
  ghost predicate LoadsAreCurrent(s: State) {
    forall c :: c in s.loaded ==>
      s.loaded[c].version <= s.version && (s.loaded[c].version == s.version ==> s.loaded[c].row == s.row)
  }

  /** Event `i` has sequence number `i`; only the first may be a start. */
  ghost predicate Numbered(log: seq<Event>) {
    forall i :: 0 <= i < |log| ==> log[i].sequence == i && (log[i].Start? <==> i == 0)
  }

  ghost predicate StartsWith(origin: Origin, start: Row, log: seq<Event>) {
    if log == [] then origin == Legacy
    else log[0].Start? && log[0].snapshot == if origin == Website then None else Some(start)
  }

  ghost predicate Inv(origin: Origin, start: Row, s: State) {
    && LoadsAreCurrent(s)
    && Numbered(s.log)
    && StartsWith(origin, start, s.log)
    && Chained(start, s.log)
    && Replay(start, s.log) == Snapshot(s.row)
  }

  lemma {:induction false} StartKeepsReplay(start: Row, log: seq<Event>)
    requires log == []
    ensures Chained(start, [Start(0, Some(start))]) && Replay(start, [Start(0, Some(start))]) == start
  {
    ReplayMore(start, [], Start(0, Some(start)));
    assert [] + [Start(0, Some(start))] == [Start(0, Some(start))];
  }

  lemma {:induction false} ChainedMore(start: Row, log: seq<Event>, row: Row, data: Row, sequence: nat, at: int)
    requires Chained(start, log) && Replay(start, log) == Snapshot(row) && start.Keys == AuditFields()
    ensures var e := Update(sequence, at, AuditChanges(row, data));
      Chained(start, log + [e]) && Replay(start, log + [e]) == Snapshot(row + data)
  {
    hide AuditFields, HistoryFields, Snapshot, AuditChanges, Replay;
    var e := Update(sequence, at, AuditChanges(row, data));
    ReplayMore(start, log, e);
    RecordedWrite(row, data);
    var more := log + [e];
    forall i, f {:trigger f in more[i].changes} | 0 <= i < |more| && more[i].Update? && f in more[i].changes
      ensures f in start && more[i].changes[f].before == Value(Replay(start, more[..i]), f)
      ensures more[i].changes[f].before != more[i].changes[f].after
    {
      if i == |log| {
        assert more[..i] == log;
        RecordedDiffs(row, data, f);
        SnapshotKeys(row);
      } else {
        assert more[..i] == log[..i];
        assert f in log[i].changes;
      }
    }
  }

  lemma SnapshotKeys(row: Row)
    ensures Snapshot(row).Keys == AuditFields()
  {
    hide AuditFields;
  }

  lemma UnrecordedWrite(row: Row, data: Row)
    requires AuditChanges(row, data) == map[]
    ensures Snapshot(row + data) == Snapshot(row)
  {
    hide AuditFields, HistoryFields, Snapshot, AuditChanges;
    RecordedWrite(row, data);
    assert Snapshot(row) + Afters(map[]) == Snapshot(row);
  }

  lemma {:induction false} RecordedStep(origin: Origin, start: Row, s: State, data: Row, at: int)
    requires Inv(origin, start, s) && start.Keys == AuditFields()
    ensures var log := s.log + Appended(s.log, s.row, data, at);
      Numbered(log) && StartsWith(origin, start, log) && Chained(start, log)
        && Replay(start, log) == Snapshot(s.row + data)
  {
    hide AuditFields, HistoryFields, Snapshot, AuditChanges, Replay, Chained, LoadsAreCurrent;
    var e := Update(NextSequence(s.log), at, AuditChanges(s.row, data));
    if s.log == [] {
      assert Replay(start, []) == start by {
        ReplayEmpty(start);
      }
      StartKeepsReplay(start, []);
      ChainedMore(start, [Start(0, Some(start))], s.row, data, 1, at);
      assert s.log + Appended(s.log, s.row, data, at) == [Start(0, Some(start))] + [e];
    } else {
      ChainedMore(start, s.log, s.row, data, e.sequence, at);
      assert s.log + Appended(s.log, s.row, data, at) == s.log + [e];
    }
  }

  lemma {:induction false} ReplayEmpty(start: Row)
    ensures Replay(start, []) == start
  {
  }

  lemma StepKeepsInv(origin: Origin, start: Row, s: State, step: Step)
    requires Inv(origin, start, s) && start.Keys == AuditFields()
    ensures Inv(origin, start, Next(s, step))
  {
    hide AuditFields, HistoryFields, Snapshot, AuditChanges, Replay, Chained, Numbered, StartsWith, Appended, Changes;
    match step
    case Load(client) =>
    case Commit(client, data, bypass, noted, now, at) =>
      if client in s.loaded && s.loaded[client].version == s.version {
        RecordedStep(origin, start, s, data, at);
        if AuditChanges(s.row, data) == map[] {
          UnrecordedWrite(s.row, data);
        }
      }
  }

  lemma CreatedInv(origin: Origin, row: Row, version: int)
    ensures Inv(origin, Snapshot(row), Created(origin, row, version))
  {
    hide AuditFields, HistoryFields, Snapshot;
    var start := Snapshot(row);
    ReplayEmpty(start);
    ReplayMore(start, [], Start(0, Some(start)));
    ReplayMore(start, [], Start(0, None));
    assert [] + [Start(0, Some(start))] == [Start(0, Some(start))];
    assert [] + [Start(0, None)] == [Start(0, None)];
  }

  /**
   Over every interleaving of loads and commits: replaying the log over the first snapshot gives the
   snapshot of the current row, every recorded `before` is the replayed value at that point, and the
   sequence numbers have no gaps.
  */
  lemma {:induction false} LogReplaysRow(origin: Origin, row: Row, version: int, steps: seq<Step>)
    ensures Inv(origin, Snapshot(row), Run(Created(origin, row, version), steps))
  {
    hide AuditFields, HistoryFields, Snapshot, Inv, Next, Created;
    if steps == [] {
      CreatedInv(origin, row, version);
    } else {
      LogReplaysRow(origin, row, version, steps[..|steps| - 1]);
      SnapshotKeys(row);
      StepKeepsInv(origin, Snapshot(row), Run(Created(origin, row, version), steps[..|steps| - 1]), steps[|steps| - 1]);
    }
  }

  /** A commit that changes the row was based on the row it replaces: no save overwrites another unseen. */
  lemma {:induction false} NoLostUpdate(origin: Origin, row: Row, version: int, steps: seq<Step>, commit: Step)
    requires commit.Commit?
    ensures var s := Run(Created(origin, row, version), steps);
      Next(s, commit).row != s.row ==> commit.client in s.loaded && s.loaded[commit.client].row == s.row
  {
    LogReplaysRow(origin, row, version, steps);
    hide Run, Created, Snapshot, Chained, Replay, Numbered, StartsWith;
  }

  // ---- What one save does ----

  /** The data gives some tracked field another value than the row that was read. */
  predicate ChangesSomething(existing: Row, data: Row) {
    exists f :: f in HistoryFields() && f in data && Value(existing, f) != Value(data, f)
  }

  /** The same for a field that is audited, which a color is not. */
  predicate ChangesAudited(existing: Row, data: Row) {
    exists f :: f in AuditFields() && f in data && Value(existing, f) != Value(data, f)
  }

  lemma ChangesExactly(existing: Row, data: Row)
    ensures Changes(existing, data) != map[] <==> ChangesSomething(existing, data)
    ensures AuditChanges(existing, data) != map[] <==> ChangesAudited(existing, data)
  {
    AuditsHistory();
    hide AuditFields, HistoryFields;
    if f :| f in HistoryFields() && f in data && Value(existing, f) != Value(data, f) {
      assert f in Changes(existing, data);
    }
    if f :| f in AuditFields() && f in data && Value(existing, f) != Value(data, f) {
      assert f in AuditChanges(existing, data);
    }
    if f :| f in Changes(existing, data) {
      assert ChangesSomething(existing, data);
    }
    if f :| f in AuditChanges(existing, data) {
      assert ChangesAudited(existing, data);
    }
  }

  /** A save that changes nothing, or whose row has moved on, leaves row, version and log alone. */
  lemma IdleCommit(s: State, client: nat, data: Row, bypass: bool, noted: bool, now: int, at: int)
    requires client in s.loaded
    requires s.loaded[client].version != s.version || (!bypass && !ChangesSomething(s.loaded[client].row, data))
    ensures Next(s, Commit(client, data, bypass, noted, now, at)) == s.(loaded := s.loaded - {client})
  {
    ChangesExactly(s.loaded[client].row, data);
    hide Changes, AuditChanges, ChangesSomething, ChangesAudited;
  }

  /**
   Any other save adds one event with the audited changes when there are any, or a bypass or another note was given,
   after a baseline if there was no event before. It writes its data and moves the version on.
  */
  lemma CommitLogs(s: State, client: nat, data: Row, bypass: bool, noted: bool, now: int, at: int)
    requires client in s.loaded && s.loaded[client].version == s.version
    requires bypass || ChangesSomething(s.loaded[client].row, data)
    ensures var s', read := Next(s, Commit(client, data, bypass, noted, now, at)), s.loaded[client].row;
      if bypass || noted || ChangesAudited(read, data) then
        && s'.log != [] && s'.log[|s'.log| - 1].Update? && s'.log[|s'.log| - 1].at == at
        && s'.log[|s'.log| - 1].changes == AuditChanges(read, data)
        && s'.log[..|s'.log| - 1] == if s.log == [] then [Start(0, Some(Snapshot(read)))] else s.log
      else s'.log == s.log
  {
    ChangesExactly(s.loaded[client].row, data);
    hide Changes, AuditChanges, ChangesSomething, ChangesAudited, Snapshot, NextSequence;
    var read := s.loaded[client].row;
    if s.log == [] {
      assert s.log + Appended(s.log, read, data, at)
        == [Start(0, Some(Snapshot(read)))] + [Update(NextSequence(s.log), at, AuditChanges(read, data))];
    } else {
      assert s.log + Appended(s.log, read, data, at)
        == s.log + [Update(NextSequence(s.log), at, AuditChanges(read, data))];
    }
  }

  lemma CommitWrites(s: State, client: nat, data: Row, bypass: bool, noted: bool, now: int, at: int)
    requires client in s.loaded && s.loaded[client].version == s.version
    requires bypass || ChangesSomething(s.loaded[client].row, data)
    ensures var s' := Next(s, Commit(client, data, bypass, noted, now, at));
      && s'.row == s.row + data && s'.loaded == s.loaded - {client}
      && s'.version > s.version && s'.version >= now && (s'.version == now || s'.version == s.version + 1)
  {
    ChangesExactly(s.loaded[client].row, data);
    hide Changes, AuditChanges, ChangesSomething, ChangesAudited, Appended;
  }

  /** Of two clients that read the same version, the one that saves second is refused. */
  lemma SecondSaveIsRefused(s: State, a: nat, b: nat, dataA: Row, dataB: Row, bypass: bool, noted: bool, now: int,
      at: int)
    requires a != b && ChangesSomething(s.row, dataA)
    ensures var loaded := Next(Next(s, Load(a)), Load(b));
      var first := Next(loaded, Commit(a, dataA, bypass, noted, now, at));
      var second := Next(first, Commit(b, dataB, bypass, noted, now, at));
      && first.row == s.row + dataA
      && second.row == first.row && second.log == first.log && second.version == first.version
  {
    var loaded := Next(Next(s, Load(a)), Load(b));
    CommitWrites(loaded, a, dataA, bypass, noted, now, at);
    var first := Next(loaded, Commit(a, dataA, bypass, noted, now, at));
    IdleCommit(first, b, dataB, bypass, noted, now, at);
    hide Next, ChangesSomething;
    assert first.loaded == loaded.loaded - {a};
  }

  // ---- What the log alone tells ----

  /** The current snapshot, read off the log. */
  function Rebuilt(log: seq<Event>): Option<Row> {
    if log != [] && log[0].Start? && log[0].snapshot.Some? then Some(Replay(log[0].snapshot.value, log)) else None
  }

  /** The log gives the current snapshot unless the submission came from the website or has no event yet. */
  lemma {:induction false} LogRebuildsRow(origin: Origin, row: Row, version: int, steps: seq<Step>)
    ensures var s := Run(Created(origin, row, version), steps);
      Rebuilt(s.log) == if origin == Website || s.log == [] then None else Some(Snapshot(s.row))
  {
    LogReplaysRow(origin, row, version, steps);
    hide Run, Created, Snapshot, Replay, Chained, LoadsAreCurrent, Numbered;
  }

  lemma {:induction false} ReplayKeys(start: Row, log: seq<Event>)
    requires Chained(start, log)
    ensures Replay(start, log).Keys == start.Keys
  {
    if log != [] {
      var init := log[..|log| - 1];
      ChainedPrefix(start, log, |init|);
      ReplayKeys(start, init);
      var e := log[|log| - 1];
      if e.Update? {
        forall f | f in e.changes
          ensures f in start
        {
        }
      }
    }
  }

  lemma ChainedPrefix(start: Row, log: seq<Event>, n: nat)
    requires Chained(start, log) && n <= |log|
    ensures Chained(start, log[..n])
  {
    var prefix := log[..n];
    forall i, f {:trigger f in prefix[i].changes} | 0 <= i < |prefix| && prefix[i].Update? && f in prefix[i].changes
      ensures f in start && prefix[i].changes[f].before == Value(Replay(start, prefix[..i]), f)
      ensures prefix[i].changes[f].before != prefix[i].changes[f].after
    {
      assert f in log[i].changes;
      assert prefix[..i] == log[..i];
    }
  }

  /** Taking the changes back from the current row gives the first snapshot, even if it was not kept. */
  lemma {:induction false} UndoRecoversStart(start: Row, log: seq<Event>)
    requires Chained(start, log)
    ensures Undo(Replay(start, log), log) == start
  {
    if log != [] {
      var init, e := log[..|log| - 1], log[|log| - 1];
      ChainedPrefix(start, log, |init|);
      UndoRecoversStart(start, init);
      ReplayKeys(start, init);
      if e.Update? {
        var before := Replay(start, init);
        forall f | f in e.changes
          ensures f in before && e.changes[f].before == before[f]
        {
          assert f in log[|log| - 1].changes;
        }
        assert (before + Afters(e.changes)) + Befores(e.changes) == before;
      }
    }
  }

  // ---- Milestones ----

  /** A genuine transition into an outcome, as the milestone query filters it. */
  predicate Reaches(e: Event, outcome: string) {
    && e.Update? && FINAL_STATUS in e.changes
    && e.changes[FINAL_STATUS].after == Some(outcome)
    && e.changes[FINAL_STATUS].before != Some(outcome)
  }

  /** The least time of a transition into the outcome, null without one. */
  function Milestone(log: seq<Event>, outcome: string): Option<int> {
    if log == [] then None
    else
      var earlier := Milestone(log[..|log| - 1], outcome);
      var e := log[|log| - 1];
      if !Reaches(e, outcome) then earlier
      else if earlier.Some? && earlier.value <= e.at then earlier
      else Some(e.at)
  }

  lemma {:induction false} MilestoneIsLeast(log: seq<Event>, outcome: string)
    ensures Milestone(log, outcome).None? <==> forall i :: 0 <= i < |log| ==> !Reaches(log[i], outcome)
    ensures Milestone(log, outcome).Some? ==>
      (exists i :: 0 <= i < |log| && Reaches(log[i], outcome) && log[i].at == Milestone(log, outcome).value)
    ensures forall i :: 0 <= i < |log| && Reaches(log[i], outcome) ==>
      Milestone(log, outcome).Some? && Milestone(log, outcome).value <= log[i].at
  {
    hide Reaches;
    if log != [] {
      MilestoneIsLeast(log[..|log| - 1], outcome);
      var init := log[..|log| - 1];
      assert forall i :: 0 <= i < |init| ==> init[i] == log[i];
    }
  }

  /** The outcome can only have come from an event that records it. */
  lemma {:induction false} OutcomeWasReached(start: Row, log: seq<Event>, outcome: string) returns (i: nat)
    requires Chained(start, log)
    requires Value(Replay(start, log), FINAL_STATUS) == Some(outcome) && Value(start, FINAL_STATUS) != Some(outcome)
    ensures i < |log| && Reaches(log[i], outcome)
    ensures Value(Replay(start, log[..i]), FINAL_STATUS) != Some(outcome)
    ensures forall j :: i < j < |log| && log[j].Update? ==> FINAL_STATUS !in log[j].changes
  {
    var init, e := log[..|log| - 1], log[|log| - 1];
    if e.Update? && FINAL_STATUS in e.changes {
      i := |log| - 1;
      assert FINAL_STATUS in log[i].changes;
    } else {
      ChainedPrefix(start, log, |init|);
      i := OutcomeWasReached(start, init, outcome);
      assert log[..i] == init[..i];
      assert log[i] == init[i];
      forall j | i < j < |log| && log[j].Update?
        ensures FINAL_STATUS !in log[j].changes
      {
        if j < |init| {
          assert log[j] == init[j];
        }
      }
    }
  }

  lemma OutcomeIsAudited()
    ensures FINAL_STATUS in AuditFields()
  {
    assert HISTORY_FIELDS[0] == FINAL_STATUS;
  }

  /** A row that has an outcome it did not start with has a milestone for it, the time of a recorded transition. */
  lemma {:induction false} ReachedRowHasMilestone(origin: Origin, row: Row, version: int, steps: seq<Step>,
      outcome: string)
    ensures var s := Run(Created(origin, row, version), steps);
      Value(s.row, FINAL_STATUS) == Some(outcome) && Value(row, FINAL_STATUS) != Some(outcome) ==>
        Milestone(s.log, outcome).Some?
        && exists i :: 0 <= i < |s.log| && Reaches(s.log[i], outcome) && s.log[i].at == Milestone(s.log, outcome).value
  {
    LogReplaysRow(origin, row, version, steps);
    OutcomeIsAudited();
    var s := Run(Created(origin, row, version), steps);
    MilestoneIsLeast(s.log, outcome);
    assert Value(Snapshot(row), FINAL_STATUS) == Value(row, FINAL_STATUS) by {
      hide AuditFields;
    }
    assert Value(Snapshot(s.row), FINAL_STATUS) == Value(s.row, FINAL_STATUS) by {
      hide AuditFields;
    }
    hide Run, Created, Snapshot, Replay, Chained, LoadsAreCurrent, Numbered, AuditFields, Reaches, Milestone;
    if Value(s.row, FINAL_STATUS) == Some(outcome) && Value(row, FINAL_STATUS) != Some(outcome) {
      var i := OutcomeWasReached(Snapshot(row), s.log, outcome);
    }
  }

  /** A milestone means the recorded history does turn the outcome at that time from another value. */
  lemma {:induction false} MilestoneWasATransition(origin: Origin, row: Row, version: int, steps: seq<Step>,
      outcome: string, i: nat)
    requires i < |Run(Created(origin, row, version), steps).log|
    requires Reaches(Run(Created(origin, row, version), steps).log[i], outcome)
    ensures var log := Run(Created(origin, row, version), steps).log;
      && Value(Replay(Snapshot(row), log[..i]), FINAL_STATUS) != Some(outcome)
      && Value(Replay(Snapshot(row), log[..i + 1]), FINAL_STATUS) == Some(outcome)
  {
    LogReplaysRow(origin, row, version, steps);
    var log := Run(Created(origin, row, version), steps).log;
    hide Run, Created, Snapshot, LoadsAreCurrent, Numbered, AuditFields;
    assert FINAL_STATUS in log[i].changes;
    assert log[..i + 1] == log[..i] + [log[i]];
    ReplayMore(Snapshot(row), log[..i], log[i]);
  }

  /** When event times follow the log, the milestone is the time of the first transition. */
  lemma {:induction false} MilestoneIsFirst(log: seq<Event>, outcome: string, i: nat)
    requires i < |log| && Reaches(log[i], outcome)
    requires forall k :: 0 <= k < i ==> !Reaches(log[k], outcome)
    requires forall j, k :: 0 <= j <= k < |log| && log[j].Update? && log[k].Update? ==> log[j].at <= log[k].at
    ensures Milestone(log, outcome) == Some(log[i].at)
  {
    MilestoneIsLeast(log, outcome);
  }
}
