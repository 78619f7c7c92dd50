/** Runs: any interleaving of the writers of the task table, and what every run keeps. */
module Lifecycle {
  import opened Ids
  import opened Fsm
  import opened TaskStore
  import MergeNode
  import FsmRuntime

  /** Every atomic write that creates a row, changes a state or appends to the log. */
  datatype Step =
    | Upsert(id: string)
    | Fire(id: string, event: Event, note: Note, fields: seq<Field>)
    | SeedMerged(id: string, source: string, evidence: string)
    | EnterPhase(id: string, phase: Phase, cycle: int, trigger: Trigger, note: Note)
    | BumpCycle(id: string, newTrigger: Option<Trigger>, note: Note)
    | RecoverRow(id: string)
    | ForcePendingCi(id: string, note: Note, fields: seq<Field>)
    | Rewind(id: string)
    | CreateMergeNode(id: string, parents: seq<string>, branches: seq<string>, branch: string)
    | PruneParent(id: string, parent: string)
    | SetColumns(id: string, fields: seq<Field>)

  /** `force_recover_to_pending_ci`: a raw transition, unless the task is there already. */
  function Forced(db: Db, id: string, note: Note, fields: seq<Field>): Db {
    if id in db.tasks && db.tasks[id].state != PENDING_CI then Moved(db, id, PENDING_CI, note, fields) else db
  }

  /** `set_field` without a state. */
  function ColumnsSet(db: Db, id: string, fields: seq<Field>): Db {
    if id in db.tasks then db.(tasks := db.tasks[id := WithFields(db.tasks[id], fields)]) else db
  }

  /** A step that raises, or finds nothing to do, leaves the tables as they were. */
  function Do(db: Db, step: Step): Db {
    match step
    case Upsert(id) => Upserted(db, id)
    case Fire(id, e, note, fields) => Applied(db, id, e, note, fields)
    case SeedMerged(id, source, evidence) => Seeded(db, id, source, evidence)
    case EnterPhase(id, phase, cycle, trigger, note) => PhaseEntered(db, id, phase, cycle, trigger, note)
    case BumpCycle(id, trigger, note) => CycleBumped(db, id, trigger, note)
    case RecoverRow(id) => RecoveredOne(db, id)
    case ForcePendingCi(id, note, fields) => Forced(db, id, note, fields)
    case Rewind(id) => Rewound(db, id)
    case CreateMergeNode(id, parents, branches, branch) => MergeNode.Created(db, id, parents, branches, branch)
    case PruneParent(id, p) => MergeNode.Pruned(db, id, p)
    case SetColumns(id, fields) => ColumnsSet(db, id, fields)
  }

  function RunFrom(db: Db, steps: seq<Step>): Db {
    if steps == [] then db else Do(RunFrom(db, steps[..|steps| - 1]), steps[|steps| - 1])
  }

  function Run(steps: seq<Step>): Db {
    RunFrom(Db(map[], []), steps)
  }

  // ----- one task's log -----

  /** The log entries of one task, oldest first. */
  function Trail(log: seq<LogEntry>, id: string): seq<LogEntry> {
    if log == [] then []
    else
      var n := |log| - 1;
      Trail(log[..n], id) + if log[n].task == id then [log[n]] else []
  }

  lemma TrailAppend(log: seq<LogEntry>, e: LogEntry, id: string)
    ensures Trail(log + [e], id) == Trail(log, id) + if e.task == id then [e] else []
  {
    assert (log + [e])[..|log|] == log;
  }

  /** `b` can follow `a`: the same state, or, where rewinds are allowed, a blocked or failed task
      set back to PENDING without a log entry. */
  predicate Joins(a: State, b: State, rewinds: bool) {
    a == b || (rewinds && (a.BLOCKED? || a.FAILED?) && b.PENDING?)
  }

  /** The only kinds of entry there are. */
  ghost predicate Legal(e: LogEntry) {
    match e.from
    case None => e.to.PENDING? || e.to.MERGED?
    case Some(s) => e.to == s || Hop(s, e.to) || e.to.PENDING_CI? || (IsActive(s) && e.to.PENDING?)
  }

  /** The trail starts with a creation, every entry continues the one before, and the last entry
      leads to the row's state. */
  ghost predicate IsWalk(trail: seq<LogEntry>, current: State, rewinds: bool) {
    trail != [] && trail[0].from.None? &&
    (forall i {:trigger LinkAt(trail, i, rewinds)} | 0 <= i < |trail| :: LinkAt(trail, i, rewinds)) &&
    Joins(trail[|trail| - 1].to, current, rewinds)
  }

  ghost predicate LinkAt(trail: seq<LogEntry>, i: nat, rewinds: bool)
    requires i < |trail|
  {
    Legal(trail[i]) && (i > 0 ==> Continues(trail[i - 1], trail[i], rewinds))
  }

  predicate Continues(a: LogEntry, b: LogEntry, rewinds: bool) {
    b.from.Some? && Joins(a.to, b.from.value, rewinds)
  }

  /** Every task's trail is a walk to its row, and nothing else is in the log. */
  ghost predicate Walks(db: Db, rewinds: bool) {
    forall id {:trigger WalkOf(db, id, rewinds)} :: WalkOf(db, id, rewinds)
  }

  ghost predicate WalkOf(db: Db, id: string, rewinds: bool) {
    if id in db.tasks then IsWalk(Trail(db.log, id), db.tasks[id].state, rewinds) else Trail(db.log, id) == []
  }

  lemma WalkExtends(trail: seq<LogEntry>, current: State, rewinds: bool, e: LogEntry)
    requires IsWalk(trail, current, rewinds) && e.from == Some(current) && Legal(e)
    ensures IsWalk(trail + [e], e.to, rewinds)
  {
    var longer := trail + [e];
    forall i {:trigger LinkAt(longer, i, rewinds)} | 0 <= i < |longer| ensures LinkAt(longer, i, rewinds) {
      if i < |trail| { assert LinkAt(trail, i, rewinds); }
    }
  }

  /** A logged write of a legal entry keeps the walks. */
  lemma LoggedKeepsWalks(db: Db, id: string, row: Row, from: Option<State>, note: Note, rewinds: bool)
    requires Walks(db, rewinds)
    requires Legal(LogEntry(id, from, row.state, note))
    requires if id in db.tasks then from == Some(db.tasks[id].state) else from.None?
    ensures Walks(Logged(db, id, row, from, note), rewinds)
  {
    var e := LogEntry(id, from, row.state, note);
    var db' := Logged(db, id, row, from, note);
    forall x {:trigger WalkOf(db', x, rewinds)} ensures WalkOf(db', x, rewinds) {
      assert WalkOf(db, x, rewinds);
      TrailAppend(db.log, e, x);
      if x != id {
        assert Trail(db'.log, x) == Trail(db.log, x);
      } else if id in db.tasks {
        WalkExtends(Trail(db.log, id), db.tasks[id].state, rewinds, e);
      } else {
        assert Trail(db'.log, x) == [e];
        assert LinkAt([e], 0, rewinds);
      }
    }
  }

  /** A write that keeps a row's state and the log keeps the walks; so does a rewind, where
      rewinds are allowed. */
  lemma UnloggedKeepsWalks(db: Db, id: string, row: Row, rewinds: bool)
    requires Walks(db, rewinds) && id in db.tasks && Joins(db.tasks[id].state, row.state, rewinds)
    ensures Walks(db.(tasks := db.tasks[id := row]), rewinds)
  {
    var db' := db.(tasks := db.tasks[id := row]);
    forall x {:trigger WalkOf(db', x, rewinds)} ensures WalkOf(db', x, rewinds) {
      assert WalkOf(db, x, rewinds);
    }
  }

  lemma MoveKeepsWalks(db: Db, id: string, to: State, note: Note, fields: seq<Field>, rewinds: bool)
    requires Walks(db, rewinds) && id in db.tasks
    requires var s := db.tasks[id].state; Hop(s, to) || to.PENDING_CI? || (IsActive(s) && to.PENDING?)
    ensures Walks(Moved(db, id, to, note, fields), rewinds)
  {
    LoggedKeepsWalks(db, id, WithFields(db.tasks[id].(state := to), fields), Some(db.tasks[id].state), note, rewinds);
  }

  lemma OutcomeIsHop(db: Db, id: string, e: Event)
    requires Outcome(db, id, e).Ok?
    ensures id in db.tasks && Hop(db.tasks[id].state, Outcome(db, id, e).value)
  {
    assert Target(db.tasks[id].state, e) == Some(Outcome(db, id, e).value);
  }

  lemma FireKeepsWalks(db: Db, id: string, e: Event, note: Note, fields: seq<Field>, rewinds: bool)
    requires Walks(db, rewinds)
    ensures Walks(Applied(db, id, e, note, fields), rewinds)
  {
    var outcome := Outcome(db, id, e);
    if outcome.Ok? {
      OutcomeIsHop(db, id, e);
      MoveKeepsWalks(db, id, outcome.value, NoteOr(note, e), fields, rewinds);
    }
  }

  lemma SeedIsHop()
    ensures Hop(PENDING, MERGED)
  {
    assert Target(PENDING, MarkMerged) == Some(MERGED);
  }

  lemma SeedKeepsWalks(db: Db, id: string, source: string, evidence: string, rewinds: bool)
    requires Walks(db, rewinds)
    ensures Walks(Seeded(db, id, source, evidence), rewinds)
  {
    SeedIsHop();
    var seed := Some(Seed(source, evidence));
    if id !in db.tasks {
      LoggedKeepsWalks(db, id, FreshRow(MERGED).(seed := seed), None, SeedNote(source), rewinds);
    } else if db.tasks[id].state == PENDING {
      LoggedKeepsWalks(db, id, db.tasks[id].(state := MERGED, seed := seed), Some(PENDING), SeedNote(source), rewinds);
    }
  }

  lemma RecoveryKeepsWalks(db: Db, id: string, rewinds: bool)
    requires Walks(db, rewinds)
    ensures Walks(RecoveredOne(db, id), rewinds)
  {
    if id in db.tasks && IsActive(db.tasks[id].state) {
      var s := db.tasks[id].state;
      var target := RecoverAfterCrash(s, HasPr(db.tasks[id]));
      RecoveryIsAtRest(s, HasPr(db.tasks[id]));
      MoveKeepsWalks(db, id, target.0, RecoveryNote(s), RETRY_RESET + RecoveryWrites(target.1), rewinds);
    }
  }

  lemma StepKeepsWalks(db: Db, step: Step, rewinds: bool)
    requires Walks(db, rewinds) && (step.Rewind? ==> rewinds)
    ensures Walks(Do(db, step), rewinds)
  {
    match step
    case Upsert(id) =>
      if id !in db.tasks { LoggedKeepsWalks(db, id, FreshRow(PENDING), None, NoNote, rewinds); }
    case Fire(id, e, note, fields) => FireKeepsWalks(db, id, e, note, fields, rewinds);
    case SeedMerged(id, source, evidence) => SeedKeepsWalks(db, id, source, evidence, rewinds);
    case EnterPhase(id, phase, cycle, trigger, note) => PhaseKeepsWalks(db, id, phase, cycle, trigger, note, rewinds);
    case BumpCycle(id, trigger, note) => CycleKeepsWalks(db, id, trigger, note, rewinds);
    case RecoverRow(id) => RecoveryKeepsWalks(db, id, rewinds);
    case ForcePendingCi(id, note, fields) =>
      if id in db.tasks && db.tasks[id].state != PENDING_CI {
        MoveKeepsWalks(db, id, PENDING_CI, note, fields, rewinds);
      }
    case Rewind(id) => RewindKeepsWalks(db, id);
    case CreateMergeNode(id, parents, branches, branch) =>
      if id !in db.tasks {
        LoggedKeepsWalks(db, id, MergeNode.MergeNodeRow(parents, branches, branch), None, CreatedNote(parents), rewinds);
      }
    case PruneParent(id, p) =>
      if id in db.tasks { UnloggedKeepsWalks(db, id, MergeNode.PrunedRow(db.tasks[id], p), rewinds); }
    case SetColumns(id, fields) =>
      if id in db.tasks { UnloggedKeepsWalks(db, id, WithFields(db.tasks[id], fields), rewinds); }
  }

  /** A logged write that stays in the same state keeps the walks. */
  lemma StayKeepsWalks(db: Db, id: string, row: Row, note: Note, rewinds: bool)
    requires Walks(db, rewinds) && id in db.tasks && row.state == db.tasks[id].state
    ensures Walks(Logged(db, id, row, Some(row.state), note), rewinds)
  {
    LoggedKeepsWalks(db, id, row, Some(row.state), note, rewinds);
  }

  lemma PhaseKeepsWalks(db: Db, id: string, phase: Phase, cycle: int, trigger: Trigger, note: Note, rewinds: bool)
    requires Walks(db, rewinds)
    ensures Walks(PhaseEntered(db, id, phase, cycle, trigger, note), rewinds)
  {
    if id in db.tasks {
      StayKeepsWalks(db, id, db.tasks[id].(progress := Progress(phase, cycle, trigger)),
                     OrElse(note, PhaseNote(phase, cycle, trigger)), rewinds);
    }
  }

  lemma CycleKeepsWalks(db: Db, id: string, trigger: Option<Trigger>, note: Note, rewinds: bool)
    requires Walks(db, rewinds)
    ensures Walks(CycleBumped(db, id, trigger, note), rewinds)
  {
    if id in db.tasks {
      var row, n := db.tasks[id], db.tasks[id].progress.cycleInPhase + 1;
      var t := if trigger.Some? then trigger.value else row.progress.trigger;
      StayKeepsWalks(db, id, row.(progress := Progress(row.progress.phase, n, t)),
                     OrElse(note, CycleNote(n, t)), rewinds);
    }
  }

  lemma RewindKeepsWalks(db: Db, id: string)
    requires Walks(db, true)
    ensures Walks(Rewound(db, id), true)
  {
    if id in db.tasks && (db.tasks[id].state.BLOCKED? || db.tasks[id].state.FAILED?) {
      var row := WithFields(db.tasks[id].(state := PENDING),
                            [SetLastError(None), SetFailureReason(None), SetContainer(None), SetResume(true)]);
      UnloggedKeepsWalks(db, id, row, true);
    }
  }

  /** In every run each task's log is one connected walk of legal entries that ends at the row's
      state. Without rewinds it is unbroken; with them the only breaks go from BLOCKED or FAILED
      to PENDING. */
  lemma {:induction false} LogIsAWalk(steps: seq<Step>, rewinds: bool)
    requires rewinds || forall i | 0 <= i < |steps| :: !steps[i].Rewind?
    ensures Walks(Run(steps), rewinds)
  {
    if steps != [] {
      var n := |steps| - 1;
      LogIsAWalk(steps[..n], rewinds);
      StepKeepsWalks(Run(steps[..n]), steps[n], rewinds);
    }
  }

  // ----- the gauntlet -----

  /** The entries that change the state: same-state phase entries are left out. */
  function Moves(trail: seq<LogEntry>): seq<LogEntry> {
    if trail == [] then []
    else
      var n := |trail| - 1;
      Moves(trail[..n]) + if trail[n].from == Some(trail[n].to) then [] else [trail[n]]
  }

  /** Dropping same-state entries leaves a walk. */
  lemma {:induction false} MovesAreAWalk(trail: seq<LogEntry>, current: State)
    requires IsWalk(trail, current, true)
    ensures IsWalk(Moves(trail), current, true)
  {
    var n := |trail| - 1;
    if n == 0 {
      assert Moves(trail[..0]) == [];
      assert LinkAt(trail, 0, true);
      assert Moves(trail) == [trail[0]];
      assert LinkAt([trail[0]], 0, true);
    } else {
      var init, last := trail[..n], trail[n];
      assert LinkAt(trail, n, true);
      forall i {:trigger LinkAt(init, i, true)} | 0 <= i < |init| ensures LinkAt(init, i, true) {
        assert LinkAt(trail, i, true);
      }
      MovesAreAWalk(init, last.from.value);
      if last.from != Some(last.to) {
        WalkExtends(Moves(init), last.from.value, true, last);
        assert IsWalk(Moves(init) + [last], last.to, true);
      } else {
        assert Moves(trail) == Moves(init);
      }
    }
  }

  /** An entry into a stage after the first, or into a state the gauntlet opens, directly follows
      an entry into the stage before it. */
  lemma EnteredFromBefore(moves: seq<LogEntry>, current: State, i: nat)
    requires IsWalk(moves, current, true) && i < |moves|
    requires moves[i].from != Some(moves[i].to) && GauntletBefore(moves[i].to).Some?
    ensures i > 0 && GauntletBefore(moves[i].to) == Some(moves[i - 1].to)
  {
    assert LinkAt(moves, i, true);
    OneWayIn(moves[i].from.value, moves[i].to);
  }

  lemma {:induction false} MovesMove(trail: seq<LogEntry>)
    ensures forall i | 0 <= i < |Moves(trail)| :: Moves(trail)[i].from != Some(Moves(trail)[i].to)
  {
    if trail != [] { MovesMove(trail[..|trail| - 1]); }
  }

  function Targets(moves: seq<LogEntry>): seq<State> {
    seq(|moves|, i requires 0 <= i < |moves| => moves[i].to)
  }

  /** If the task's i-th move opens a PR or readies a merge-node, its five previous moves were the
      five audit stages in order. */
  ghost predicate OpensProperly(db: Db, id: string, i: nat) {
    var moves := Moves(Trail(db.log, id));
    id in db.tasks && i < |moves| && (moves[i].to.PR_OPENING? || moves[i].to.MERGE_NODE_READY?) ==>
      i >= 5 && Targets(moves)[i - 5..i] == GAUNTLET
  }

  /** So it is in every run: events, recoveries, supervisor forcing, seeding, rewinds, phase changes. */
  lemma OpeningFollowsTheGauntlet(steps: seq<Step>, id: string, i: nat)
    ensures OpensProperly(Run(steps), id, i)
  {
    LogIsAWalk(steps, true);
    assert WalkOf(Run(steps), id, true);
    if id in Run(steps).tasks {
      var trail, current := Trail(Run(steps).log, id), Run(steps).tasks[id].state;
      MovesAreAWalk(trail, current);
      MovesMove(trail);
      var moves := Moves(trail);
      if i < |moves| && (moves[i].to.PR_OPENING? || moves[i].to.MERGE_NODE_READY?) { FiveStagesBack(moves, current, i); }
    }
  }

  lemma FiveStagesBack(moves: seq<LogEntry>, current: State, i: nat)
    requires IsWalk(moves, current, true) && i < |moves|
    requires forall k | 0 <= k < |moves| :: moves[k].from != Some(moves[k].to)
    requires moves[i].to.PR_OPENING? || moves[i].to.MERGE_NODE_READY?
    ensures i >= 5 && Targets(moves)[i - 5..i] == GAUNTLET
  {
    assert i > 0 && moves[i - 1].to == AUDIT_BEHAVIOR by { EnteredFromBefore(moves, current, i); }
    assert i > 1 && moves[i - 2].to == AUDIT_ARCHITECTURE by { EnteredFromBefore(moves, current, i - 1); }
    assert i > 2 && moves[i - 3].to == AUDIT_STANDARDS by { EnteredFromBefore(moves, current, i - 2); }
    assert i > 3 && moves[i - 4].to == AUDIT_RUBRIC by { EnteredFromBefore(moves, current, i - 3); }
    assert i > 4 && moves[i - 5].to == AUDIT_LOCAL_CI by { EnteredFromBefore(moves, current, i - 4); }
    GauntletSlice(Targets(moves), i);
  }

  lemma GauntletSlice(targets: seq<State>, i: nat)
    requires 5 <= i <= |targets|
    requires targets[i - 5] == AUDIT_LOCAL_CI && targets[i - 4] == AUDIT_RUBRIC && targets[i - 3] == AUDIT_STANDARDS
    requires targets[i - 2] == AUDIT_ARCHITECTURE && targets[i - 1] == AUDIT_BEHAVIOR
    ensures targets[i - 5..i] == GAUNTLET
  {
  }

  // ----- recovery of the whole table -----

  /** The active states whose work is on a PR once there is one. */
  predicate MayHavePr(s: State) {
    s.PR_OPENING? || s.REBASING_TO_MAIN? || s.CONFLICT_RESOLVING? || IsAuditStage(s)
  }

  /** An active row after recovery: it waits on CI exactly if it has a PR and was in a state that
      may; a half-provisioned one forgets its workspace; every other one resumes from its
      subtasks; all budgets start afresh, all other columns stay. */
  function Restarted(r: Row): Row {
    var waitsOnCi := r.prNumber !in {None, Some(0)} && MayHavePr(r.state);
    r.(state := if waitsOnCi then PENDING_CI else PENDING,
       workspace := if r.state == PROVISIONING then Workspace(None, None, None) else r.workspace,
       resumeFromSubtasks := r.resumeFromSubtasks || !(r.state == PROVISIONING || waitsOnCi),
       retry := Retry(0, 0, false, false, None, None))
  }

  /** One recovery pass: every row is at rest afterwards; the rows that were at rest keep every
      column and gain no entry; every other row is restarted and gains exactly one entry. */
  lemma RecoveryPass(before: Db, after: Db, report: seq<(string, State, State)>, id: string)
    requires IsRecovery(before, after, report)
    ensures id in after.tasks <==> id in before.tasks
    ensures id in after.tasks ==> AtRest(after.tasks[id].state)
    ensures id in before.tasks && AtRest(before.tasks[id].state) ==>
              after.tasks[id] == before.tasks[id] && Trail(after.log, id) == Trail(before.log, id)
    ensures id in before.tasks && !AtRest(before.tasks[id].state) ==>
              && after.tasks[id] == Restarted(before.tasks[id])
              && Trail(after.log, id) == Trail(before.log, id) +
                   [LogEntry(id, Some(before.tasks[id].state), after.tasks[id].state, RecoveryNote(before.tasks[id].state))]
  {
    var ids :| InListingOrder(before, ids, after, report);
    if id in ids {
      RecoveredRow(before, ids, id);
      ActiveIffNotAtRest(before.tasks[id].state);
      if IsActive(before.tasks[id].state) {
        RecoveryRestarts(before.tasks[id]);
      }
    } else {
      RecoveryTouchesOnlyListed(before, ids, id);
      RecoveryLogsOnlyListed(before, ids, id);
    }
  }

  /** The ids a recovery reports. */
  function Reported(report: seq<(string, State, State)>): (ids: seq<string>)
    ensures |ids| == |report| && forall k | 0 <= k < |report| :: ids[k] == report[k].0
  {
    seq(|report|, k requires 0 <= k < |report| => report[k].0)
  }

  /** The report's line and the log's entry for one recovered row. */
  ghost predicate Accounts(before: Db, line: (string, State, State), e: LogEntry) {
    line.0 in before.tasks && line.1 == before.tasks[line.0].state &&
    line.2 == Restarted(before.tasks[line.0]).state &&
    e == LogEntry(line.0, Some(line.1), line.2, RecoveryNote(line.1))
  }

  /** The report lists the rows that were not at rest, each once and in id order, with its old and
      new state, and line by line it is what the pass appends to the log. */
  lemma RecoveryReports(before: Db, after: Db, report: seq<(string, State, State)>)
    requires IsRecovery(before, after, report)
    ensures Lists(Reported(report), set id | id in before.tasks && !AtRest(before.tasks[id].state))
    ensures Sorted(Reported(report))
    ensures |after.log| == |before.log| + |report| && before.log <= after.log
    ensures forall k | 0 <= k < |report| :: Accounts(before, report[k], after.log[|before.log| + k])
  {
    var ids :| InListingOrder(before, ids, after, report);
    ReportOf(before, ids);
    LogOf(before, ids);
    forall id ensures id in Reported(report) <==> id in before.tasks && !AtRest(before.tasks[id].state) { }
  }

  /** The report holds the ids of `ids` not at rest, in order. */
  ghost predicate ReportsOnly(db: Db, ids: seq<string>, report: seq<(string, State, State)>) {
    Distinct(Reported(report)) && Sorted(Reported(report)) &&
    forall x {:trigger x in Reported(report)} :: x in Reported(report) <==> x in ids && x in db.tasks && !AtRest(db.tasks[x].state)
  }

  ghost predicate LogsReport(db: Db, log: seq<LogEntry>, report: seq<(string, State, State)>) {
    |log| == |db.log| + |report| && db.log <= log &&
    forall k | 0 <= k < |report| :: Accounts(db, report[k], log[|db.log| + k])
  }

  function ReportLine(db: Db, id: string): (line: (string, State, State))
    requires id in db.tasks
    ensures line.0 == id
  {
    (id, db.tasks[id].state, Restarted(db.tasks[id]).state)
  }

  /** The last id of a pass adds its line, or nothing. */
  lemma ReportGrows(db: Db, ids: seq<string>, id: string)
    requires id in db.tasks
    ensures RecoveryReport(db, ids + [id]) ==
            RecoveryReport(db, ids) + AddedLine(db, id)
  {
    var all := ids + [id];
    assert all[..|all| - 1] == ids && all[|all| - 1] == id;
    ActiveIffNotAtRest(db.tasks[id].state);
    if IsActive(db.tasks[id].state) { RecoveryRestarts(db.tasks[id]); }
  }

  lemma LogGrows(db: Db, ids: seq<string>, id: string)
    requires id in db.tasks && id !in ids
    ensures RecoveredAll(db, ids + [id]).log ==
            RecoveredAll(db, ids).log + if AtRest(db.tasks[id].state) then [] else [RecoveryEntry(db, id)]
  {
    var all := ids + [id];
    assert all[..|all| - 1] == ids && all[|all| - 1] == id;
    RecoveryTouchesOnlyListed(db, ids, id);
    ActiveIffNotAtRest(db.tasks[id].state);
    if IsActive(db.tasks[id].state) { RecoveryRestarts(db.tasks[id]); }
  }

  function RecoveryEntry(db: Db, id: string): LogEntry
    requires id in db.tasks
  {
    LogEntry(id, Some(db.tasks[id].state), Restarted(db.tasks[id]).state, RecoveryNote(db.tasks[id].state))
  }

  /** What the last id of a pass adds. */
  ghost function AddedLine(db: Db, id: string): seq<(string, State, State)>
    requires id in db.tasks
  {
    if AtRest(db.tasks[id].state) then [] else [ReportLine(db, id)]
  }

  lemma ReportsOneMore(db: Db, ids: seq<string>, report: seq<(string, State, State)>, id: string)
    requires Distinct(ids + [id]) && Sorted(ids + [id]) && ReportsOnly(db, ids, report) && id in db.tasks
    ensures ReportsOnly(db, ids + [id], report + AddedLine(db, id))
  {
    var all := ids + [id];
    assert Reported(report + [ReportLine(db, id)]) == Reported(report) + [id];
    assert report + [] == report;
    forall k | 0 <= k < |report| ensures Reported(report)[k] != id && Leq(Reported(report)[k], id) {
      assert Reported(report)[k] in Reported(report);
      var i :| 0 <= i < |ids| && ids[i] == Reported(report)[k];
      assert all[i] != all[|ids|] && Leq(all[i], all[|ids|]);
    }
  }

  lemma {:induction false} ReportOf(db: Db, ids: seq<string>)
    requires Distinct(ids) && Sorted(ids) && forall id | id in ids :: id in db.tasks
    ensures ReportsOnly(db, ids, RecoveryReport(db, ids))
  {
    if ids != [] {
      var n := |ids| - 1;
      assert ids[..n] + [ids[n]] == ids;
      ReportOf(db, ids[..n]);
      ReportGrows(db, ids[..n], ids[n]);
      ReportsOneMore(db, ids[..n], RecoveryReport(db, ids[..n]), ids[n]);
    }
  }

  lemma LogsOneMore(db: Db, log: seq<LogEntry>, report: seq<(string, State, State)>, id: string)
    requires id in db.tasks && LogsReport(db, log, report)
    ensures LogsReport(db, log + [RecoveryEntry(db, id)], report + [ReportLine(db, id)])
  {
  }

  lemma {:induction false} LogOf(db: Db, ids: seq<string>)
    requires Distinct(ids) && forall id | id in ids :: id in db.tasks
    ensures LogsReport(db, RecoveredAll(db, ids).log, RecoveryReport(db, ids))
  {
    if ids != [] {
      var n := |ids| - 1;
      assert ids[..n] + [ids[n]] == ids;
      LogOf(db, ids[..n]);
      ReportGrows(db, ids[..n], ids[n]);
      LogGrows(db, ids[..n], ids[n]);
      LogsOneMore(db, RecoveredAll(db, ids[..n]).log, RecoveryReport(db, ids[..n]), ids[n]);
    }
  }

  /** The row recovery writes. */
  function RecoveredColumns(r: Row): Row {
    var target := RecoverAfterCrash(r.state, HasPr(r));
    WithFields(r.(state := target.0), RETRY_RESET + RecoveryWrites(target.1))
  }

  lemma WithFieldsAppend(r: Row, a: seq<Field>, b: seq<Field>)
    ensures WithFields(r, a + b) == WithFields(WithFields(r, a), b)
  {
    if b == [] {
      assert a + b == a;
    } else {
      var n := |b| - 1;
      assert (a + b)[..|a + b| - 1] == a + b[..n];
      WithFieldsAppend(r, a, b[..n]);
    }
  }

  lemma RecoveryRestarts(r: Row)
    requires IsActive(r.state)
    ensures RecoveredColumns(r) == Restarted(r)
  {
    var target := RecoverAfterCrash(r.state, HasPr(r));
    var moved := r.(state := target.0);
    WithFieldsAppend(moved, RETRY_RESET, RecoveryWrites(target.1));
    ResetClears(moved);
    RecoveryWritesDo(WithFields(moved, RETRY_RESET), target.1);
  }

  lemma ResetClears(r: Row)
    ensures WithFields(r, RETRY_RESET) == r.(retry := Retry(0, 0, false, false, None, None))
  {
    assert RETRY_RESET == BUDGET_RESET + ERROR_RESET;
    WithFieldsAppend(r, BUDGET_RESET, ERROR_RESET);
    BudgetsClear(r);
    ErrorsClear(WithFields(r, BUDGET_RESET));
  }

  const BUDGET_RESET := [SetCiTriageRetries(0), SetConflictResolveRetries(0), SetNeedsIntentReview(false)]

  const ERROR_RESET := [SetNeedsParentRebase(false), SetLastError(None), SetFailureReason(None)]

  lemma BudgetsClear(r: Row)
    ensures WithFields(r, BUDGET_RESET) ==
            r.(retry := r.retry.(ciTriageRetries := 0, conflictResolveRetries := 0, needsIntentReview := false))
  {
    ThreeFields(r, SetCiTriageRetries(0), SetConflictResolveRetries(0), SetNeedsIntentReview(false));
  }

  lemma ErrorsClear(r: Row)
    ensures WithFields(r, ERROR_RESET) ==
            r.(retry := r.retry.(needsParentRebase := false, lastError := None, failureReason := None))
  {
    ThreeFields(r, SetNeedsParentRebase(false), SetLastError(None), SetFailureReason(None));
  }

  lemma ThreeFields(r: Row, x: Field, y: Field, z: Field)
    ensures WithFields(r, [x, y, z]) == SetField(SetField(SetField(r, x), y), z)
  {
    assert [x, y, z][..2] == [x, y] && [x, y][..1] == [x];
    WithOneField(r, x);
  }

  lemma RecoveryWritesDo(r: Row, f: RecoveryFields)
    ensures WithFields(r, RecoveryWrites(f)) ==
            match f
            case NoFields => r
            case ForgetWorkspace => r.(workspace := Workspace(None, None, None))
            case ResumeSubtasks => r.(resumeFromSubtasks := true)
  {
    match f
    case NoFields =>
    case ForgetWorkspace => ThreeFields(r, SetBranch(None), SetWorktree(None), SetContainer(None));
    case ResumeSubtasks => WithOneField(r, SetResume(true));
  }

  lemma {:induction false} RecoveryLogsOnlyListed(db: Db, ids: seq<string>, id: string)
    requires id !in ids
    ensures Trail(RecoveredAll(db, ids).log, id) == Trail(db.log, id)
  {
    if ids != [] {
      var n := |ids| - 1;
      RecoveryLogsOnlyListed(db, ids[..n], id);
      RecoveredOneLog(RecoveredAll(db, ids[..n]), ids[n], id);
    }
  }

  lemma RecoveredOneLog(db: Db, x: string, id: string)
    ensures x != id ==> Trail(RecoveredOne(db, x).log, id) == Trail(db.log, id)
    ensures x == id && id in db.tasks && IsActive(db.tasks[id].state) ==>
              Trail(RecoveredOne(db, x).log, id) ==
              Trail(db.log, id) + [LogEntry(id, Some(db.tasks[id].state), RecoveredColumns(db.tasks[id]).state,
                                            RecoveryNote(db.tasks[id].state))]
  {
    if x in db.tasks && IsActive(db.tasks[x].state) {
      TrailAppend(db.log, LogEntry(x, Some(db.tasks[x].state), RecoveredColumns(db.tasks[x]).state,
                                   RecoveryNote(db.tasks[x].state)), id);
    }
  }

  lemma {:induction false} RecoveredRow(db: Db, ids: seq<string>, id: string)
    requires Distinct(ids) && id in ids && id in db.tasks
    ensures id in RecoveredAll(db, ids).tasks
    ensures RecoveredAll(db, ids).tasks[id] ==
            if IsActive(db.tasks[id].state) then RecoveredColumns(db.tasks[id]) else db.tasks[id]
    ensures Trail(RecoveredAll(db, ids).log, id) ==
            Trail(db.log, id) +
            if IsActive(db.tasks[id].state) then
              [LogEntry(id, Some(db.tasks[id].state), RecoveredColumns(db.tasks[id]).state, RecoveryNote(db.tasks[id].state))]
            else []
  {
    var n := |ids| - 1;
    var mid := RecoveredAll(db, ids[..n]);
    RecoveredOneLog(mid, ids[n], id);
    if ids[n] == id {
      RecoveryTouchesOnlyListed(db, ids[..n], id);
      RecoveryLogsOnlyListed(db, ids[..n], id);
    } else {
      RecoveredRow(db, ids[..n], id);
    }
  }

  /** A second pass finds nothing: it reports nothing and changes nothing. */
  lemma SecondRecoveryIsIdle(before: Db, middle: Db, after: Db, first: seq<(string, State, State)>,
                             second: seq<(string, State, State)>)
    requires IsRecovery(before, middle, first) && IsRecovery(middle, after, second)
    ensures second == [] && after == middle
  {
    forall id | id in middle.tasks ensures !IsActive(middle.tasks[id].state) {
      RecoveryPass(before, middle, first, id);
      ActiveIffNotAtRest(middle.tasks[id].state);
    }
    var ids :| InListingOrder(middle, ids, after, second);
    NothingToRecover(middle, ids);
  }

  lemma {:induction false} NothingToRecover(db: Db, ids: seq<string>)
    requires forall id | id in db.tasks :: !IsActive(db.tasks[id].state)
    ensures RecoveredAll(db, ids) == db && RecoveryReport(db, ids) == []
  {
    if ids != [] { NothingToRecover(db, ids[..|ids| - 1]); }
  }

  // ----- every compound writer is a run -----

  ghost predicate RewindFree(steps: seq<Step>) {
    forall i | 0 <= i < |steps| :: !steps[i].Rewind?
  }

  /** `after` is reached from `before` by single steps, none of them a rewind. */
  ghost predicate Leads(before: Db, after: Db) {
    exists steps :: RewindFree(steps) && after == RunFrom(before, steps)
  }

  lemma {:induction false} RunFromAppend(db: Db, a: seq<Step>, b: seq<Step>)
    ensures RunFrom(db, a + b) == RunFrom(RunFrom(db, a), b)
  {
    if b == [] {
      assert a + b == a;
    } else {
      var n := |b| - 1;
      assert (a + b)[..|a + b| - 1] == a + b[..n];
      RunFromAppend(db, a, b[..n]);
    }
  }

  /** What leads on from a run is itself a run. */
  lemma LeadsIsARun(steps: seq<Step>, after: Db) returns (more: seq<Step>)
    requires Leads(Run(steps), after)
    ensures RewindFree(more) && after == Run(steps + more)
  {
    more :| RewindFree(more) && after == RunFrom(Run(steps), more);
    RunFromAppend(Db(map[], []), steps, more);
  }

  /** What every run keeps: connected logs, unbroken ones without rewinds, and no opening without the
      gauntlet. */
  ghost predicate Promises(steps: seq<Step>, after: Db) {
    Walks(after, true) && (RewindFree(steps) ==> Walks(after, false)) &&
    forall id: string, i: nat {:trigger OpensProperly(after, id, i)} :: OpensProperly(after, id, i)
  }

  /** Whatever leads on from a run keeps the promises. */
  lemma LeadsKeepsPromises(steps: seq<Step>, after: Db)
    requires Leads(Run(steps), after)
    ensures Promises(steps, after)
  {
    var more := LeadsIsARun(steps, after);
    LogIsAWalk(steps + more, true);
    if RewindFree(steps) { LogIsAWalk(steps + more, false); }
    forall id: string, i: nat {:trigger OpensProperly(after, id, i)} ensures OpensProperly(after, id, i) {
      OpeningFollowsTheGauntlet(steps + more, id, i);
    }
  }

  lemma LeadsNowhere(db: Db)
    ensures Leads(db, db)
  {
    assert RewindFree([]) && db == RunFrom(db, []);
  }

  lemma LeadsOn(a: Db, b: Db, c: Db)
    requires Leads(a, b) && Leads(b, c)
    ensures Leads(a, c)
  {
    var first :| RewindFree(first) && b == RunFrom(a, first);
    var second :| RewindFree(second) && c == RunFrom(b, second);
    RunFromAppend(a, first, second);
    assert RewindFree(first + second);
  }

  lemma StepLeads(db: Db, step: Step)
    requires !step.Rewind?
    ensures Leads(db, Do(db, step))
  {
    assert [step][..0] == [];
    assert RunFrom(db, [step]) == Do(db, step);
    assert RewindFree([step]);
  }

  lemma FireLeads(db: Db, id: string, e: Event, note: Note, fields: seq<Field>)
    ensures Leads(db, Applied(db, id, e, note, fields))
  {
    StepLeads(db, Fire(id, e, note, fields));
  }

  /** Every `enter_*` helper is at most one event. */
  lemma HelperLeads(before: Db, after: Db, id: string, t: State, stays: bool, choice: Option<Event>, note: Note,
                    fields: seq<Field>, r: FsmRuntime.Answer)
    requires FsmRuntime.EntersVia(before, after, id, t, stays, choice, note, fields, r)
    ensures Leads(before, after)
  {
    if after == before {
      LeadsNowhere(before);
    } else {
      FireLeads(before, id, choice.value, note, fields);
      assert Outcome(before, id, choice.value) == Ok(t);
    }
  }

  lemma {:induction false} PathLeads(db: Db, id: string, path: seq<Event>, early: Note, note: Note, fields: seq<Field>)
    ensures Leads(db, FsmRuntime.FirePath(db, id, path, early, note, fields))
    decreases |path|
  {
    if path == [] {
      LeadsNowhere(db);
    } else if |path| == 1 {
      FireLeads(db, id, path[0], note, fields);
    } else {
      var next := Applied(db, id, path[0], early, []);
      FireLeads(db, id, path[0], early, []);
      PathLeads(next, id, path[1..], early, note, fields);
      LeadsOn(db, next, FsmRuntime.FirePath(next, id, path[1..], early, note, fields));
    }
  }

  lemma {:induction false} RecoveryLeads(before: Db, ids: seq<string>)
    ensures Leads(before, RecoveredAll(before, ids))
  {
    if ids == [] {
      LeadsNowhere(before);
    } else {
      var n := |ids| - 1;
      var mid := RecoveredAll(before, ids[..n]);
      RecoveryLeads(before, ids[..n]);
      StepLeads(mid, RecoverRow(ids[n]));
      LeadsOn(before, mid, RecoveredOne(mid, ids[n]));
    }
  }

  lemma AdvanceLeads(db: Db, p: string, id: string)
    ensures Leads(db, MergeNode.AdvancedOne(db, p, id))
  {
    if id in db.tasks && db.tasks[id].state == MERGE_NODE_READY {
      MergeNode.ReadyOutcomes(db, id);
      FireLeads(db, id, ParentAdvanced, AdvancedNote(p), [SetResume(true)]);
    } else {
      LeadsNowhere(db);
    }
  }

  lemma {:induction false} ParentAdvancedLeads(before: Db, p: string, ids: seq<string>)
    ensures Leads(before, MergeNode.AdvancedAll(before, p, ids))
  {
    if ids == [] {
      LeadsNowhere(before);
    } else {
      var n := |ids| - 1;
      var mid := MergeNode.AdvancedAll(before, p, ids[..n]);
      ParentAdvancedLeads(before, p, ids[..n]);
      AdvanceLeads(mid, p, ids[n]);
      LeadsOn(before, mid, MergeNode.AdvancedOne(mid, p, ids[n]));
    }
  }

  lemma SettleLeads(db: Db, p: string, id: string)
    requires id in db.tasks
    ensures Leads(db, MergeNode.Settled(db, p, id))
  {
    var row := db.tasks[id];
    if row.state != MERGE_NODE_READY {
      LeadsNowhere(db);
    } else {
      MergeNode.ReadyOutcomes(db, id);
      FireLeads(db, id, AllParentsMerged, AllMergedNote(p), []);
      FireLeads(db, id, ParentAdvanced, RemergeNote(p, |MergeNode.OrEmpty(row.parents.ids)|), [SetResume(true)]);
    }
  }

  lemma PruneAndSettleLeads(db: Db, p: string, id: string)
    ensures Leads(db, MergeNode.MergedOne(db, p, id))
  {
    if id in db.tasks {
      var pruned := MergeNode.Pruned(db, id, p);
      StepLeads(db, PruneParent(id, p));
      SettleLeads(pruned, p, id);
      LeadsOn(db, pruned, MergeNode.Settled(pruned, p, id));
    } else {
      LeadsNowhere(db);
    }
  }

  lemma {:induction false} ParentMergedLeads(before: Db, p: string, ids: seq<string>)
    ensures Leads(before, MergeNode.MergedAll(before, p, ids))
  {
    if ids == [] {
      LeadsNowhere(before);
    } else {
      var n := |ids| - 1;
      var mid := MergeNode.MergedAll(before, p, ids[..n]);
      ParentMergedLeads(before, p, ids[..n]);
      PruneAndSettleLeads(mid, p, ids[n]);
      LeadsOn(before, mid, MergeNode.MergedOne(mid, p, ids[n]));
    }
  }

  lemma CreateLeads(db: Db, id: string, parents: seq<string>, branches: seq<string>, branch: string)
    ensures Leads(db, MergeNode.Created(db, id, parents, branches, branch))
  {
    StepLeads(db, CreateMergeNode(id, parents, branches, branch));
  }

  lemma LookupLeads(before: Db, parents: seq<string>, branches: seq<string>, digest: string -> string)
    ensures Leads(before, MergeNode.LookedUp(before, parents, branches, digest))
  {
    match MergeNode.MergeNodeId(parents, digest)
    case None => LeadsNowhere(before);
    case Some(id) => CreateLeads(before, id, parents, branches, MergeNode.BranchName(id));
  }

  // ----- the promises after each compound writer -----

  /** A call of a writer that is more than one step, or picks its step by the state it finds, with the
      answer it gave. */
  datatype Writer =
    | Helper(id: string, target: State, stays: bool, choice: Option<Event>, note: Note, fields: seq<Field>,
             answer: FsmRuntime.Answer)
    | FixupStart(id: string, start: Event, note: Note, fields: seq<Field>, answer: FsmRuntime.Answer)
    | AuditStart(id: string, override: Option<Event>, note: Note, fields: seq<Field>, answer: FsmRuntime.Answer)
    | StageVerdict(id: string, passed: bool, stage: State, note: Note, fields: seq<Field>, answer: FsmRuntime.Answer)
    | BlockTaskNow(id: string, note: Note, fields: seq<Field>, answer: FsmRuntime.Answer)
    | ForceToCi(id: string, note: Note, fields: seq<Field>, answer: FsmRuntime.Answer)
    | MergeTask(id: string, note: Note, fields: seq<Field>, answer: FsmRuntime.Answer)
    | RecoverAll(report: seq<(string, State, State)>)
    | ParentAdvances(parent: string, ids: seq<string>)
    | ParentMerges(parent: string, ids: seq<string>)
    | LookUpMergeNode(parents: seq<string>, branches: seq<string>, digest: string -> string)

  /** What the writer's method promises of its call. */
  ghost predicate Wrote(before: Db, after: Db, w: Writer) {
    match w
    case Helper(id, t, stays, choice, note, fields, r) =>
      FsmRuntime.EntersVia(before, after, id, t, stays, choice, note, fields, r)
    case FixupStart(id, start, note, fields, r) => FsmRuntime.StartsFixup(before, after, id, start, note, fields, r)
    case AuditStart(id, override, note, fields, r) =>
      FsmRuntime.EntersAuditLocalCi(before, after, id, override, note, fields, r)
    case StageVerdict(id, passed, stage, note, fields, r) =>
      IsAuditStage(stage) && FsmRuntime.AdvancesStage(before, after, id, passed, stage, note, fields, r)
    case BlockTaskNow(id, note, fields, r) => FsmRuntime.BlocksCurrent(before, after, id, note, fields, r)
    case ForceToCi(id, note, fields, r) => FsmRuntime.ForcesPendingCi(before, after, id, note, fields, r)
    case MergeTask(id, note, fields, r) => FsmRuntime.MergesAlongPath(before, after, id, note, fields, r)
    case RecoverAll(report) => IsRecovery(before, after, report)
    case ParentAdvances(p, ids) => MergeNode.AdvancesListed(before, p, ids, after)
    case ParentMerges(p, ids) => MergeNode.MergesListed(before, p, ids, after)
    case LookUpMergeNode(parents, branches, digest) => after == MergeNode.LookedUp(before, parents, branches, digest)
  }

  /** Every compound writer is a sequence of steps, none of them a rewind. */
  lemma WriterLeads(before: Db, after: Db, w: Writer)
    requires Wrote(before, after, w)
    ensures Leads(before, after)
  {
    LeadsNowhere(before);
    match w
    case Helper(id, t, stays, choice, note, fields, r) => HelperLeads(before, after, id, t, stays, choice, note, fields, r);
    case FixupStart(id, start, note, fields, r) => FireLeads(before, id, start, note, fields);
    case AuditStart(id, None, note, fields, r) =>
      HelperLeads(before, after, id, AUDIT_LOCAL_CI, true, FsmRuntime.AuditStartEvent(FsmRuntime.StateOf(before, id)),
                  note, fields, r);
    case AuditStart(id, Some(e), note, fields, r) => FireLeads(before, id, e, note, fields);
    case StageVerdict(id, passed, stage, note, fields, r) =>
      FsmRuntime.StageEventLands(stage, passed);
      FireLeads(before, id, FsmRuntime.StageEvent(stage, passed), note, fields);
    case BlockTaskNow(id, note, fields, r) =>
      FsmRuntime.BlockEdges(FsmRuntime.StateOf(before, id));
      FireLeads(before, id, FsmRuntime.BlockEvent(FsmRuntime.StateOf(before, id)), note, fields);
    case ForceToCi(id, note, fields, r) => StepLeads(before, ForcePendingCi(id, OrElse(note, ForcedNote), fields));
    case MergeTask(id, note, fields, r) =>
      var s := FsmRuntime.StateOf(before, id);
      if FsmRuntime.MergePath(s).Some? {
        PathLeads(before, id, FsmRuntime.MergePath(s).value, FsmRuntime.EarlyNote(s, note), note, fields);
      }
    case RecoverAll(report) =>
      var ids :| InListingOrder(before, ids, after, report);
      RecoveryLeads(before, ids);
    case ParentAdvances(p, ids) => ParentAdvancedLeads(before, p, ids);
    case ParentMerges(p, ids) => ParentMergedLeads(before, p, ids);
    case LookUpMergeNode(parents, branches, digest) => LookupLeads(before, parents, branches, digest);
  }

  /** After any run and any compound writer the logs are connected walks and every opening follows the
      five audit stages. */
  lemma WritersKeepPromises(steps: seq<Step>, after: Db, w: Writer)
    requires Wrote(Run(steps), after, w)
    ensures Promises(steps, after)
  {
    WriterLeads(Run(steps), after, w);
    LeadsKeepsPromises(steps, after);
  }

  // ----- mark_merged, hop by hop -----

  /** `hops` entries were added for `id`, each an edge of the table, and no other row changed. */
  ghost predicate AddsHops(before: Db, after: Db, id: string, hops: nat) {
    |after.log| == |before.log| + hops && before.log <= after.log &&
    after.tasks.Keys == before.tasks.Keys &&
    (forall x | x in before.tasks && x != id :: after.tasks[x] == before.tasks[x]) &&
    forall i | |before.log| <= i < |after.log| :: IsHopOf(after.log[i], id)
  }

  ghost predicate IsHopOf(e: LogEntry, id: string) {
    e.task == id && e.from.Some? && Hop(e.from.value, e.to)
  }

  lemma OneHop(db: Db, id: string, e: Event, note: Note, fields: seq<Field>)
    requires id in db.tasks && Target(db.tasks[id].state, e).Some?
    ensures AddsHops(db, Applied(db, id, e, note, fields), id, 1)
    ensures Applied(db, id, e, note, fields).tasks[id].state == Target(db.tasks[id].state, e).value
  {
    OutcomeIsHop(db, id, e);
    var after := Applied(db, id, e, note, fields);
    assert after.log[|db.log|].to == after.tasks[id].state;
  }

  lemma {:induction false} PathAddsHops(db: Db, id: string, path: seq<Event>, early: Note, note: Note, fields: seq<Field>)
    requires id in db.tasks && FsmRuntime.Follow(db.tasks[id].state, path).Some?
    ensures var after := FsmRuntime.FirePath(db, id, path, early, note, fields);
            AddsHops(db, after, id, |path|) &&
            after.tasks[id].state == FsmRuntime.Follow(db.tasks[id].state, path).value
    decreases |path|
  {
    if |path| == 1 {
      OneHop(db, id, path[0], note, fields);
    } else if |path| > 1 {
      OneHop(db, id, path[0], early, []);
      PathAddsHops(Applied(db, id, path[0], early, []), id, path[1..], early, note, fields);
    }
  }

  /** `mark_merged` on an existing task never raises: it skips and leaves the tables alone, or it
      ends in MERGED after at most three entries, each an edge of the table. */
  lemma MarkMergedEndsMerged(before: Db, after: Db, id: string, note: Note, fields: seq<Field>, r: FsmRuntime.Answer)
    requires FsmRuntime.MergesAlongPath(before, after, id, note, fields, r) && id in before.tasks
    ensures r == Ok(None) || r == Ok(Some(MERGED))
    ensures r == Ok(None) ==> after == before
    ensures r == Ok(Some(MERGED)) ==>
              id in after.tasks && after.tasks[id].state == MERGED && exists hops :: 0 <= hops <= 3 && AddsHops(before, after, id, hops)
  {
    var s := before.tasks[id].state;
    if FsmRuntime.MergePath(s).Some? {
      var path := FsmRuntime.MergePath(s).value;
      FsmRuntime.MergePathMerges(s);
      PathAddsHops(before, id, path, FsmRuntime.EarlyNote(s, note), note, fields);
      assert AddsHops(before, after, id, |path|);
    }
  }

  lemma HopWrites(db: Db, id: string, e: Event, t: State, note: Note, fields: seq<Field>)
    requires id in db.tasks && Target(db.tasks[id].state, e) == Some(t)
    ensures var after := Applied(db, id, e, note, fields);
            && id in after.tasks && after.tasks[id] == WithFields(db.tasks[id].(state := t), fields)
            && |after.log| == |db.log| + 1 && db.log <= after.log
            && after.log[|db.log|].note == NoteOr(note, e)
  {
  }

  /** Among the entries from position `from` on, one for each event of the path, the last has the
      given note and the others the early one. */
  ghost predicate NotesFollow(log: seq<LogEntry>, from: nat, path: seq<Event>, early: Note, note: Note) {
    |log| == from + |path| &&
    forall k | 0 <= k < |path| :: log[from + k].note == NoteOr(if k == |path| - 1 then note else early, path[k])
  }

  /** The columns given are written once, with the last event, and nothing else but the state
      changes. */
  lemma {:induction false} PathWrites(db: Db, id: string, path: seq<Event>, t: State, early: Note, note: Note, fields: seq<Field>)
    requires id in db.tasks && path != [] && FsmRuntime.Follow(db.tasks[id].state, path) == Some(t)
    ensures var after := FsmRuntime.FirePath(db, id, path, early, note, fields);
            id in after.tasks && after.tasks[id] == WithFields(db.tasks[id].(state := t), fields)
    decreases |path|
  {
    var next := Target(db.tasks[id].state, path[0]).value;
    if |path| == 1 {
      HopWrites(db, id, path[0], next, note, fields);
    } else {
      HopWrites(db, id, path[0], next, early, []);
      PathWrites(Applied(db, id, path[0], early, []), id, path[1..], t, early, note, fields);
    }
  }

  lemma {:induction false} PathNotes(db: Db, id: string, path: seq<Event>, early: Note, note: Note, fields: seq<Field>)
    requires id in db.tasks && path != [] && FsmRuntime.Follow(db.tasks[id].state, path).Some?
    ensures var after := FsmRuntime.FirePath(db, id, path, early, note, fields);
            db.log <= after.log && NotesFollow(after.log, |db.log|, path, early, note)
    decreases |path|
  {
    var next := Target(db.tasks[id].state, path[0]).value;
    if |path| == 1 {
      HopWrites(db, id, path[0], next, note, fields);
    } else {
      HopWrites(db, id, path[0], next, early, []);
      PathNotes(Applied(db, id, path[0], early, []), id, path[1..], early, note, fields);
      NotesShift(FsmRuntime.FirePath(db, id, path, early, note, fields).log, |db.log|, path, early, note);
    }
  }

  lemma NotesShift(log: seq<LogEntry>, from: nat, path: seq<Event>, early: Note, note: Note)
    requires |path| > 1 && NotesFollow(log, from + 1, path[1..], early, note)
    requires log[from].note == NoteOr(early, path[0])
    ensures NotesFollow(log, from, path, early, note)
  {
    forall k | 0 < k < |path|
      ensures log[from + k].note == NoteOr(if k == |path| - 1 then note else early, path[k])
    {
      assert path[k] == path[1..][k - 1] && log[from + k] == log[from + 1 + (k - 1)];
    }
  }

  /** The event that ends a path to MERGED, and the only one that can precede a merge from review. */
  ghost predicate PathShape(s: State, path: seq<Event>) {
    path != [] && path[|path| - 1] == (if s == PENDING_CI || s == AWAITING_REVIEW then Merged else MarkMerged) &&
    (s == PENDING_CI ==> path[..|path| - 1] == [CiPassed])
  }

  lemma MergePathEnds(s: State)
    requires FsmRuntime.MergePath(s).Some? && s != MERGED
    ensures PathShape(s, FsmRuntime.MergePath(s).value)
  {
  }

  /** From position `from` on: the note given, or the event's name, on the last entry; the note
      given, or the bridging one, on those before it. */
  ghost predicate MergeNotes(log: seq<LogEntry>, from: nat, s: State, note: Note) {
    from < |log| &&
    log[|log| - 1].note == OrElse(note, OfEvent(if s == PENDING_CI || s == AWAITING_REVIEW then Merged else MarkMerged)) &&
    forall k | from <= k < |log| - 1 :: log[k].note == OrElse(note, if s == PENDING_CI then OfEvent(CiPassed) else BridgeNote)
  }

  lemma NotesToMerged(log: seq<LogEntry>, from: nat, path: seq<Event>, s: State, note: Note)
    requires NotesFollow(log, from, path, FsmRuntime.EarlyNote(s, note), note) && PathShape(s, path)
    ensures MergeNotes(log, from, s, note)
  {
    forall k | from <= k < |log| - 1
      ensures log[k].note == OrElse(note, if s == PENDING_CI then OfEvent(CiPassed) else BridgeNote)
    {
      assert log[from + (k - from)].note == NoteOr(FsmRuntime.EarlyNote(s, note), path[k - from]);
      assert path[k - from] == path[..|path| - 1][k - from];
    }
    assert log[from + (|path| - 1)].note == NoteOr(note, path[|path| - 1]);
  }

  /** What `mark_merged` writes: the state and the columns given, no other column, and its notes. */
  lemma MarkMergedWrites(before: Db, after: Db, id: string, note: Note, fields: seq<Field>, r: FsmRuntime.Answer)
    requires FsmRuntime.MergesAlongPath(before, after, id, note, fields, r) && r == Ok(Some(MERGED))
    requires id in before.tasks && before.tasks[id].state != MERGED
    ensures id in after.tasks && after.tasks[id] == WithFields(before.tasks[id].(state := MERGED), fields)
    ensures before.log <= after.log && MergeNotes(after.log, |before.log|, before.tasks[id].state, note)
  {
    var s := before.tasks[id].state;
    var path := FsmRuntime.MergePath(s).value;
    FsmRuntime.MergePathMerges(s);
    MergePathEnds(s);
    PathWrites(before, id, path, MERGED, FsmRuntime.EarlyNote(s, note), note, fields);
    PathNotes(before, id, path, FsmRuntime.EarlyNote(s, note), note, fields);
    NotesToMerged(after.log, |before.log|, path, s, note);
  }
}
