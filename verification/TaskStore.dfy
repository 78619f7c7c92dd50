/** The task table and its append-only state log, with the writers of the store mixins.

    Each `tx()` block is one atomic step. Foreign keys are on and `state_log.to_state` is not
    null, so a writer that would log a task without a row is rolled back. */
module TaskStore {
  import opened Ids
  import opened Fsm

  datatype Phase = INITIAL | PRE_PR_REVIEW | PR_REVIEW

  datatype Trigger = NO_TRIGGER | CI_FAILURE | REVIEW_FEEDBACK

  datatype Kind = SPEC | MERGE

  datatype Workspace = Workspace(branch: Option<string>, worktreePath: Option<string>, containerId: Option<string>)

  /** Retry budgets and flags that recovery clears. */
  datatype Retry = Retry(
    ciTriageRetries: int,
    conflictResolveRetries: int,
    needsIntentReview: bool,
    needsParentRebase: bool,
    lastError: Option<string>,
    failureReason: Option<string>)

  datatype Progress = Progress(phase: Phase, cycleInPhase: int, trigger: Trigger)

  datatype Seed = Seed(source: string, evidence: string)

  /** The three parent columns; NULL or a list. */
  datatype Parents = Parents(ids: Option<seq<string>>, branches: Option<seq<string>>, prBranches: Option<seq<string>>)

  datatype Row = Row(
    state: State,
    workspace: Workspace,
    prNumber: Option<int>,
    resumeFromSubtasks: bool,
    retry: Retry,
    progress: Progress,
    seed: Option<Seed>,
    kind: Kind,
    parents: Parents)

  /** A row with every column at its default. */
  function FreshRow(s: State): Row {
    Row(s, Workspace(None, None, None), None, false, Retry(0, 0, false, false, None, None),
        Progress(INITIAL, 1, NO_TRIGGER), None, SPEC, Parents(None, None, None))
  }

  /** The `**fields` a transition may carry: columns other than the state. */
  datatype Field =
    | SetBranch(branch: Option<string>)
    | SetWorktree(path: Option<string>)
    | SetContainer(container: Option<string>)
    | SetPrNumber(pr: Option<int>)
    | SetResume(resume: bool)
    | SetCiTriageRetries(n: int)
    | SetConflictResolveRetries(n: int)
    | SetNeedsIntentReview(flag: bool)
    | SetNeedsParentRebase(flag: bool)
    | SetLastError(text: Option<string>)
    | SetFailureReason(text: Option<string>)

  function SetField(r: Row, f: Field): Row {
    match f
    case SetBranch(x) => r.(workspace := r.workspace.(branch := x))
    case SetWorktree(x) => r.(workspace := r.workspace.(worktreePath := x))
    case SetContainer(x) => r.(workspace := r.workspace.(containerId := x))
    case SetPrNumber(x) => r.(prNumber := x)
    case SetResume(x) => r.(resumeFromSubtasks := x)
    case SetCiTriageRetries(n) => r.(retry := r.retry.(ciTriageRetries := n))
    case SetConflictResolveRetries(n) => r.(retry := r.retry.(conflictResolveRetries := n))
    case SetNeedsIntentReview(x) => r.(retry := r.retry.(needsIntentReview := x))
    case SetNeedsParentRebase(x) => r.(retry := r.retry.(needsParentRebase := x))
    case SetLastError(x) => r.(retry := r.retry.(lastError := x))
    case SetFailureReason(x) => r.(retry := r.retry.(failureReason := x))
  }

  function WithFields(r: Row, fields: seq<Field>): (r': Row)
    ensures r'.state == r.state && r'.kind == r.kind && r'.parents == r.parents
  {
    if fields == [] then r
    else SetField(WithFields(r, fields[..|fields| - 1]), fields[|fields| - 1])
  }

  /** What `r` holds in the column that `f` writes. */
  function Column(r: Row, f: Field): Field {
    match f
    case SetBranch(_) => SetBranch(r.workspace.branch)
    case SetWorktree(_) => SetWorktree(r.workspace.worktreePath)
    case SetContainer(_) => SetContainer(r.workspace.containerId)
    case SetPrNumber(_) => SetPrNumber(r.prNumber)
    case SetResume(_) => SetResume(r.resumeFromSubtasks)
    case SetCiTriageRetries(_) => SetCiTriageRetries(r.retry.ciTriageRetries)
    case SetConflictResolveRetries(_) => SetConflictResolveRetries(r.retry.conflictResolveRetries)
    case SetNeedsIntentReview(_) => SetNeedsIntentReview(r.retry.needsIntentReview)
    case SetNeedsParentRebase(_) => SetNeedsParentRebase(r.retry.needsParentRebase)
    case SetLastError(_) => SetLastError(r.retry.lastError)
    case SetFailureReason(_) => SetFailureReason(r.retry.failureReason)
  }

  predicate SameColumn(f: Field, g: Field) {
    (f.SetBranch? && g.SetBranch?) || (f.SetWorktree? && g.SetWorktree?) || (f.SetContainer? && g.SetContainer?) ||
    (f.SetPrNumber? && g.SetPrNumber?) || (f.SetResume? && g.SetResume?) ||
    (f.SetCiTriageRetries? && g.SetCiTriageRetries?) ||
    (f.SetConflictResolveRetries? && g.SetConflictResolveRetries?) ||
    (f.SetNeedsIntentReview? && g.SetNeedsIntentReview?) || (f.SetNeedsParentRebase? && g.SetNeedsParentRebase?) ||
    (f.SetLastError? && g.SetLastError?) || (f.SetFailureReason? && g.SetFailureReason?)
  }

  lemma FieldWrites(r: Row, f: Field, g: Field)
    ensures Column(SetField(r, f), g) == if SameColumn(f, g) then f else Column(r, g)
  {
  }

  /** A column ends with the last value given for it. */
  lemma {:induction false} LastWriteWins(r: Row, fields: seq<Field>, i: nat, g: Field)
    requires i < |fields| && SameColumn(fields[i], g)
    requires forall j | i < j < |fields| :: !SameColumn(fields[j], g)
    ensures Column(WithFields(r, fields), g) == fields[i]
  {
    var n := |fields| - 1;
    FieldWrites(WithFields(r, fields[..n]), fields[n], g);
    if i < n { LastWriteWins(r, fields[..n], i, g); }
  }

  /** A column that is not given stays. */
  lemma {:induction false} OtherColumnsStay(r: Row, fields: seq<Field>, g: Field)
    requires forall j | 0 <= j < |fields| :: !SameColumn(fields[j], g)
    ensures Column(WithFields(r, fields), g) == Column(r, g)
  {
    if fields != [] {
      var n := |fields| - 1;
      FieldWrites(WithFields(r, fields[..n]), fields[n], g);
      OtherColumnsStay(r, fields[..n], g);
    }
  }

  lemma WithOneField(r: Row, f: Field)
    ensures WithFields(r, [f]) == SetField(r, f)
  {
    assert [f][..0] == [];
  }

  /** The log's note, kept by meaning rather than by wording. */
  datatype Note =
    | NoNote
    | Text(text: string)
    | OfEvent(event: Event)
    | SeedNote(source: string)
    | PhaseNote(phase: Phase, cycle: int, trigger: Trigger)
    | CycleNote(cycle: int, trigger: Trigger)
    | RecoveryNote(from: State)
    | CreatedNote(parents: seq<string>)
    | AdvancedNote(parent: string)
    | RemergeNote(parent: string, remaining: nat)
    | AllMergedNote(parent: string)
    | BridgeNote
    | ForcedNote

  datatype LogEntry = LogEntry(task: string, from: Option<State>, to: State, note: Note)

  datatype StoreError = NoSuchTask | InvalidTransition | CannotSeed | DuplicateArgument | DuplicateTask

  /** The two tables as one value. */
  datatype Db = Db(tasks: map<string, Row>, log: seq<LogEntry>)

  /** One row replaced and one entry appended: the shape of every logged write. */
  function Logged(db: Db, id: string, row: Row, from: Option<State>, note: Note): Db {
    Db(db.tasks[id := row], db.log + [LogEntry(id, from, row.state, note)])
  }

  function Moved(db: Db, id: string, to: State, note: Note, fields: seq<Field>): Db
    requires id in db.tasks
  {
    Logged(db, id, WithFields(db.tasks[id].(state := to), fields), Some(db.tasks[id].state), note)
  }

  /** `note or fallback`. */
  function OrElse(note: Note, fallback: Note): Note {
    if note.NoNote? || (note.Text? && |note.text| == 0) then fallback else note
  }

  lemma EmptyNotesFallBack(note: Note, fallback: Note)
    ensures OrElse(note, fallback) == if note in {NoNote, Text("")} then fallback else note
  {
  }

  /** `note or str(event)`. */
  function NoteOr(note: Note, e: Event): Note {
    OrElse(note, OfEvent(e))
  }

  function Upserted(db: Db, id: string): Db {
    if id in db.tasks then db else Logged(db, id, FreshRow(PENDING), None, NoNote)
  }

  /** The answer of `apply_event`: the new state, or what it raises. */
  function Outcome(db: Db, id: string, e: Event): Result<State, StoreError> {
    if id !in db.tasks then Err(NoSuchTask)
    else
      match Target(db.tasks[id].state, e)
      case None => Err(InvalidTransition)
      case Some(target) => Ok(target)
  }

  function Applied(db: Db, id: string, e: Event, note: Note, fields: seq<Field>): Db {
    match Outcome(db, id, e)
    case Err(_) => db
    case Ok(target) => Moved(db, id, target, NoteOr(note, e), fields)
  }

  function Seeded(db: Db, id: string, source: string, evidence: string): Db {
    if id !in db.tasks then
      Logged(db, id, FreshRow(MERGED).(seed := Some(Seed(source, evidence))), None, SeedNote(source))
    else if db.tasks[id].state == PENDING then
      Logged(db, id, db.tasks[id].(state := MERGED, seed := Some(Seed(source, evidence))),
             Some(PENDING), SeedNote(source))
    else db
  }

  function PhaseEntered(db: Db, id: string, phase: Phase, cycle: int, trigger: Trigger, note: Note): Db {
    if id in db.tasks then
      Logged(db, id, db.tasks[id].(progress := Progress(phase, cycle, trigger)), Some(db.tasks[id].state),
             OrElse(note, PhaseNote(phase, cycle, trigger)))
    else db
  }

  function CycleBumped(db: Db, id: string, trigger: Option<Trigger>, note: Note): Db {
    if id in db.tasks then
      var row := db.tasks[id];
      var trigger := if trigger.Some? then trigger.value else row.progress.trigger;
      Logged(db, id, row.(progress := Progress(row.progress.phase, row.progress.cycleInPhase + 1, trigger)), Some(row.state),
             OrElse(note, CycleNote(row.progress.cycleInPhase + 1, trigger)))
    else db
  }

  /** `qk rewind` and `qk replan-cycle`: a blocked or failed task is set to PENDING directly,
      without a log entry. */
  function Rewound(db: Db, id: string): Db {
    if id in db.tasks && (db.tasks[id].state.BLOCKED? || db.tasks[id].state.FAILED?) then
      db.(tasks := db.tasks[id := WithFields(db.tasks[id].(state := PENDING),
                                             [SetLastError(None), SetFailureReason(None), SetContainer(None), SetResume(true)])])
    else db
  }

  // ----- crash recovery over the table -----

  const RETRY_RESET := [SetCiTriageRetries(0), SetConflictResolveRetries(0), SetNeedsIntentReview(false),
                        SetNeedsParentRebase(false), SetLastError(None), SetFailureReason(None)]

  function RecoveryWrites(f: RecoveryFields): seq<Field> {
    match f
    case NoFields => []
    case ForgetWorkspace => [SetBranch(None), SetWorktree(None), SetContainer(None)]
    case ResumeSubtasks => [SetResume(true)]
  }

  /** `bool(row.get("pr_number"))`: neither NULL nor zero. */
  predicate HasPr(r: Row) {
    r.prNumber.Some? && r.prNumber.value != 0
  }

  function RecoveredOne(db: Db, id: string): Db {
    if id in db.tasks && IsActive(db.tasks[id].state) then
      var s := db.tasks[id].state;
      var target := RecoverAfterCrash(s, HasPr(db.tasks[id]));
      Moved(db, id, target.0, RecoveryNote(s), RETRY_RESET + RecoveryWrites(target.1))
    else db
  }

  function RecoveredAll(db: Db, ids: seq<string>): Db {
    if ids == [] then db
    else RecoveredOne(RecoveredAll(db, ids[..|ids| - 1]), ids[|ids| - 1])
  }

  /** What `recover_orphan_tasks` reports: the recovered rows in listing order. */
  function RecoveryReport(db: Db, ids: seq<string>): seq<(string, State, State)> {
    if ids == [] then []
    else
      var id := ids[|ids| - 1];
      RecoveryReport(db, ids[..|ids| - 1]) +
      if id in db.tasks && IsActive(db.tasks[id].state) then
        [(id, db.tasks[id].state, RecoverAfterCrash(db.tasks[id].state, HasPr(db.tasks[id])).0)]
      else []
  }

  ghost predicate InListingOrder(before: Db, ids: seq<string>, after: Db, report: seq<(string, State, State)>) {
    Lists(ids, before.tasks.Keys) && Sorted(ids) &&
    after == RecoveredAll(before, ids) && report == RecoveryReport(before, ids)
  }

  ghost predicate IsRecovery(before: Db, after: Db, report: seq<(string, State, State)>) {
    exists ids :: InListingOrder(before, ids, after, report)
  }

  // ----- the store -----

  class Store {
    var tasks: map<string, Row>
    var log: seq<LogEntry>

    function Contents(): Db
      reads this
    {
      Db(tasks, log)
    }

    constructor ()
      ensures Contents() == Db(map[], [])
    {
      tasks, log := map[], [];
    }

    method Get(id: string) returns (r: Option<Row>)
      ensures r == if id in tasks then Some(tasks[id]) else None
    {
      r := if id in tasks then Some(tasks[id]) else None;
    }

    method UpsertPending(id: string)
      modifies this
      ensures Contents() == Upserted(old(Contents()), id)
      ensures id in tasks && (id in old(tasks) ==> unchanged(this)) && (id !in old(tasks) ==> tasks[id].state == PENDING)
      ensures id !in old(tasks) ==>
                && tasks[id].workspace == Workspace(None, None, None) && !HasPr(tasks[id]) && !tasks[id].resumeFromSubtasks
                && tasks[id].retry == Retry(0, 0, false, false, None, None)
                && tasks[id].progress == Progress(INITIAL, 1, NO_TRIGGER) && tasks[id].kind == SPEC
    {
      if id !in tasks {
        tasks := tasks[id := FreshRow(PENDING)];
        log := log + [LogEntry(id, None, PENDING, NoNote)];
      }
    }

    /** On a missing row the update touches nothing and the log insert violates its foreign key. */
    method Transition(id: string, to: State, note: Note, fields: seq<Field>) returns (ok: bool)
      modifies this
      ensures ok <==> id in old(tasks)
      ensures Contents() == if ok then Moved(old(Contents()), id, to, note, fields) else old(Contents())
    {
      if id !in tasks { return false; }
      var from := tasks[id].state;
      tasks := tasks[id := WithFields(tasks[id].(state := to), fields)];
      log := log + [LogEntry(id, Some(from), to, note)];
      return true;
    }

    method ApplyEvent(id: string, e: Event, note: Note, fields: seq<Field>) returns (r: Result<State, StoreError>)
      modifies this
      ensures Contents() == Applied(old(Contents()), id, e, note, fields)
      ensures r == Outcome(old(Contents()), id, e)
    {
      var row := Get(id);
      if row.None? { return Err(NoSuchTask); }
      var target := Target(row.value.state, e);
      if target.None? { return Err(InvalidTransition); }
      var ok := Transition(id, target.value, NoteOr(note, e), fields);
      return Ok(target.value);
    }

    method SeedMergedNode(id: string, source: string, evidence: string) returns (r: Result<(), StoreError>)
      modifies this
      ensures Contents() == Seeded(old(Contents()), id, source, evidence)
      ensures r.Err? <==> id in old(tasks) && old(tasks)[id].state != PENDING && old(tasks)[id].state != MERGED
      ensures r.Ok? ==> id in tasks && tasks[id].state == MERGED
      ensures |log| == |old(log)| ==> unchanged(this)
      ensures |log| > |old(log)| ==>
                && tasks[id].seed == Some(Seed(source, evidence)) && log == old(log) + [log[|old(log)|]]
                && log[|old(log)|].task == id && log[|old(log)|].to == MERGED
                && log[|old(log)|].from == if id in old(tasks) then Some(PENDING) else None
      ensures |log| > |old(log)| <==> id in old(tasks) ==> old(tasks)[id].state == PENDING
    {
      var from: Option<State>;
      if id !in tasks {
        tasks := tasks[id := FreshRow(MERGED).(seed := Some(Seed(source, evidence)))];
        from := None;
      } else if tasks[id].state == PENDING {
        tasks := tasks[id := tasks[id].(state := MERGED, seed := Some(Seed(source, evidence)))];
        from := Some(PENDING);
      } else if tasks[id].state == MERGED {
        return Ok(());
      } else {
        return Err(CannotSeed);
      }
      log := log + [LogEntry(id, from, MERGED, SeedNote(source))];
      return Ok(());
    }

    method EnterPhase(id: string, phase: Phase, cycle: int, trigger: Trigger, note: Note) returns (ok: bool)
      modifies this
      ensures ok <==> id in old(tasks)
      ensures Contents() == PhaseEntered(old(Contents()), id, phase, cycle, trigger, note)
      ensures ok ==> id in tasks && tasks[id] == old(tasks)[id].(progress := Progress(phase, cycle, trigger))
    {
      if id !in tasks { return false; }
      var current := tasks[id].state;
      tasks := tasks[id := tasks[id].(progress := Progress(phase, cycle, trigger))];
      log := log + [LogEntry(id, Some(current), current,
                             OrElse(note, PhaseNote(phase, cycle, trigger)))];
      return true;
    }

    method IncrementCycleInPhase(id: string, trigger: Option<Trigger>, note: Note) returns (r: Result<int, StoreError>)
      modifies this
      ensures Contents() == CycleBumped(old(Contents()), id, trigger, note)
      ensures r == if id in old(tasks) then Ok(old(tasks)[id].progress.cycleInPhase + 1) else Err(NoSuchTask)
    {
      if id !in tasks { return Err(NoSuchTask); }
      var row := tasks[id];
      var newCycle := row.progress.cycleInPhase + 1;
      var newTrigger := if trigger.Some? then trigger.value else row.progress.trigger;
      tasks := tasks[id := row.(progress := Progress(row.progress.phase, newCycle, newTrigger))];
      log := log + [LogEntry(id, Some(row.state), row.state,
                             OrElse(note, CycleNote(newCycle, newTrigger)))];
      return Ok(newCycle);
    }

    /** The direct `set_field(state=PENDING, ...)` of the two rewind commands. */
    method Rewind(id: string) returns (ok: bool)
      modifies this
      ensures ok <==> id in old(tasks) && (old(tasks)[id].state.BLOCKED? || old(tasks)[id].state.FAILED?)
      ensures Contents() == Rewound(old(Contents()), id)
    {
      if id !in tasks || !(tasks[id].state.BLOCKED? || tasks[id].state.FAILED?) { return false; }
      tasks := tasks[id := WithFields(tasks[id].(state := PENDING),
                                      [SetLastError(None), SetFailureReason(None), SetContainer(None), SetResume(true)])];
      return true;
    }

    /** `SELECT id FROM tasks ORDER BY id`. */
    method AllIds() returns (ids: seq<string>)
      ensures Lists(ids, tasks.Keys) && Sorted(ids)
    {
      ids := [];
      var rest := tasks.Keys;
      while rest != {}
        invariant Distinct(ids) && rest <= tasks.Keys
        invariant forall x | x in ids :: x in tasks && x !in rest
        invariant forall x | x in tasks :: x in ids || x in rest
      {
        var x :| x in rest;
        ids, rest := ids + [x], rest - {x};
      }
      SortKeepsListing(ids, tasks.Keys);
      ids := SortIds(ids);
    }

    /** The loop runs over a snapshot of the rows; each row is recovered by its own transition. */
    method RecoverOrphanTasks() returns (recovered: seq<(string, State, State)>)
      modifies this
      ensures IsRecovery(old(Contents()), Contents(), recovered)
    {
      var order := AllIds();
      var rows := tasks;
      recovered := [];
      for i := 0 to |order|
        invariant rows == old(tasks)
        invariant Contents() == RecoveredAll(old(Contents()), order[..i])
        invariant recovered == RecoveryReport(old(Contents()), order[..i])
      {
        assert order[..i + 1][..i] == order[..i];
        RecoveryTouchesOnlyListed(old(Contents()), order[..i], order[i]);
        var id := order[i];
        var cur := rows[id].state;
        if IsActive(cur) {
          var target := RecoverAfterCrash(cur, HasPr(rows[id]));
          var ok := Transition(id, target.0, RecoveryNote(cur), RETRY_RESET + RecoveryWrites(target.1));
          recovered := recovered + [(id, cur, target.0)];
        }
      }
      assert order[..|order|] == order;
      assert InListingOrder(old(Contents()), order, Contents(), recovered);
    }
  }

  lemma {:induction false} RecoveryTouchesOnlyListed(db: Db, ids: seq<string>, id: string)
    requires id !in ids
    ensures id in RecoveredAll(db, ids).tasks <==> id in db.tasks
    ensures id in db.tasks ==> RecoveredAll(db, ids).tasks[id] == db.tasks[id]
  {
    if ids != [] {
      RecoveryTouchesOnlyListed(db, ids[..|ids| - 1], id);
    }
  }
}
