/** The lifecycle helpers workers call: each reads the task's state and fires one to three events,
    or skips. */
module FsmRuntime {
  import opened Ids
  import opened Fsm
  import opened TaskStore

  /** A helper's answer: the state reached, `None` for a skip, or what `current_state` raises. */
  type Answer = Result<Option<State>, StoreError>

  /** The helper aims at `t` and, in this state, chooses `choice`. It fires exactly when the table
      has some edge from the current state to `t`, and then lands on `t`; otherwise it skips and
      touches nothing. With `stays`, a task already there is left alone. Only a missing task
      raises. */
  ghost predicate EntersVia(before: Db, after: Db, id: string, t: State, stays: bool, choice: Option<Event>,
                            note: Note, fields: seq<Field>, r: Answer) {
    if id !in before.tasks then r == Err(NoSuchTask) && after == before
    else
      var s := before.tasks[id].state;
      if stays && s == t then r == Ok(Some(t)) && after == before
      else
        (choice.Some? <==> Hop(s, t)) &&
        match choice
        case None => r == Ok(None) && after == before
        case Some(e) =>
          Target(s, e) == Some(t) && r == Ok(Some(t)) && after == Moved(before, id, t, NoteOr(note, e), fields)
  }

  function StateOf(db: Db, id: string): State {
    if id in db.tasks then db.tasks[id].state else PENDING
  }

  /** The common tail of the helpers: fire the chosen event or skip. */
  method FireOrSkip(store: Store, id: string, choice: Option<Event>, note: Note, fields: seq<Field>) returns (r: Answer)
    requires id in store.tasks
    requires choice.Some? ==> Target(store.tasks[id].state, choice.value).Some?
    modifies store
    ensures choice.None? ==> r == Ok(None) && store.Contents() == old(store.Contents())
    ensures choice.Some? ==>
              var t := Target(old(store.tasks)[id].state, choice.value).value;
              r == Ok(Some(t)) && store.Contents() == Moved(old(store.Contents()), id, t, NoteOr(note, choice.value), fields)
  {
    if choice.None? { return Ok(None); }
    var fired := store.ApplyEvent(id, choice.value, note, fields);
    return Ok(Some(fired.value));
  }

  // ----- where the table lets the helpers' targets be entered from -----

  lemma HopBy(s: State, e: Event)
    requires Target(s, e).Some?
    ensures Hop(s, Target(s, e).value)
  {
  }

  lemma SubtaskEntries(s: State, e: Event)
    ensures Target(s, e) == Some(CHECKING_SUBTASK) ==> s.DOING_SUBTASK?
    ensures Target(s, e) == Some(TRIAGING_SUBTASK) ==> s.CHECKING_SUBTASK?
    ensures Target(s, e) == Some(COMMITTING) ==> s.CHECKING_SUBTASK?
    ensures Target(s, e) == Some(PUSHING) ==> s.COMMITTING?
    ensures Target(s, e) == Some(LOCAL_CI_CHECKING) ==> s.PUSHING?
  {
  }

  lemma ReviewEntries(s: State, e: Event)
    ensures Target(s, e) == Some(AWAITING_REVIEW) ==> s.PENDING_CI?
    ensures Target(s, e) == Some(CONFLICT_RESOLVING) ==> s.REBASING_TO_MAIN?
  {
  }

  lemma PendingCiEntries(s: State, e: Event)
    ensures Target(s, e) == Some(PENDING_CI) ==> s.PR_OPENING? || s.REBASING_TO_MAIN?
  {
  }

  lemma DoingEntries(s: State, e: Event)
    ensures Target(s, e) == Some(DOING_SUBTASK) ==> DoingEvent(s).Some?
  {
  }

  lemma AuditEntries(s: State, e: Event)
    ensures Target(s, e) == Some(AUDIT_LOCAL_CI) ==> s.LOCAL_CI_CHECKING? || s.PENDING_CI? || s.AWAITING_REVIEW?
  {
    AuditEvents(e);
  }

  lemma AuditEvents(e: Event)
    ensures Lands(e) == AUDIT_LOCAL_CI ==> e.LocalCiPassed? || e.CiFixupStart? || e.ReviewFixupStart? || e.InitialAuditStart?
  {
  }

  lemma FixupEntries(s: State, e: Event)
    ensures Target(s, e) == Some(FIXUP_PLANNING) ==>
              s.LOCAL_CI_CHECKING? || s.AUDIT_LOCAL_CI? || s.AUDIT_RUBRIC? || s.AUDIT_STANDARDS? ||
              s.AUDIT_ARCHITECTURE? || s.AUDIT_BEHAVIOR?
  {
    FixupEvents(e);
  }

  lemma FixupEvents(e: Event)
    ensures Lands(e) == FIXUP_PLANNING ==>
              e.LocalCiFailed? || e.AuditLocalCiFailed? || e.AuditRubricFailed? || e.AuditStandardsFailed? ||
              e.AuditArchitectureFailed? || e.AuditBehaviorFailed? || e.CiFailed? || e.ChangesRequestedReceived?
  {
  }

  /** `choice` picks an edge into `t` whenever there is one. */
  ghost predicate PicksEdge(s: State, t: State, choice: Option<Event>) {
    (choice.Some? <==> Hop(s, t)) && (choice.Some? ==> Target(s, choice.value) == Some(t))
  }

  /** The helpers with a single source state. */
  function Only(s: State, source: State, e: Event): Option<Event> {
    if s == source then Some(e) else None
  }

  // ----- the subtask loop -----

  function DoingEvent(s: State): Option<Event> {
    match s
    case PLANNING => Some(PlanValid)
    case TRIAGING_SUBTASK => Some(RetrySubtask)
    case FIXUP_PLANNING => Some(FixupPlanValid)
    case PUSHING => Some(MoreSubtasks)
    case _ => None
  }

  lemma DoingEdges(s: State)
    ensures PicksEdge(s, DOING_SUBTASK, DoingEvent(s))
  {
    if e :| Target(s, e) == Some(DOING_SUBTASK) { DoingEntries(s, e); }
    if DoingEvent(s).Some? { HopBy(s, DoingEvent(s).value); }
  }

  method EnterDoingSubtask(store: Store, id: string, note: Note, fields: seq<Field>) returns (r: Answer)
    modifies store
    ensures EntersVia(old(store.Contents()), store.Contents(), id, DOING_SUBTASK, true,
                      DoingEvent(StateOf(old(store.Contents()), id)), note, fields, r)
  {
    if id !in store.tasks { return Err(NoSuchTask); }
    var state := store.tasks[id].state;
    if state == DOING_SUBTASK { return Ok(Some(state)); }
    DoingEdges(state);
    r := FireOrSkip(store, id, DoingEvent(state), note, fields);
  }

  lemma SubtaskEdges(s: State)
    ensures PicksEdge(s, CHECKING_SUBTASK, Only(s, DOING_SUBTASK, DoerDone))
    ensures PicksEdge(s, TRIAGING_SUBTASK, Only(s, CHECKING_SUBTASK, SubtaskFailed))
    ensures PicksEdge(s, COMMITTING, Only(s, CHECKING_SUBTASK, SubtaskPassed))
  {
    forall e { SubtaskEntries(s, e); }
    HopBy(DOING_SUBTASK, DoerDone);
    HopBy(CHECKING_SUBTASK, SubtaskFailed);
    HopBy(CHECKING_SUBTASK, SubtaskPassed);
  }

  lemma CommitEdges(s: State)
    ensures PicksEdge(s, PUSHING, Only(s, COMMITTING, CommitCreated))
    ensures PicksEdge(s, LOCAL_CI_CHECKING, Only(s, PUSHING, AllSubtasksDone))
  {
    forall e { SubtaskEntries(s, e); }
    HopBy(COMMITTING, CommitCreated);
    HopBy(PUSHING, AllSubtasksDone);
  }

  method EnterCheckingSubtask(store: Store, id: string, note: Note, fields: seq<Field>) returns (r: Answer)
    modifies store
    ensures EntersVia(old(store.Contents()), store.Contents(), id, CHECKING_SUBTASK, true,
                      Only(StateOf(old(store.Contents()), id), DOING_SUBTASK, DoerDone), note, fields, r)
  {
    if id !in store.tasks { return Err(NoSuchTask); }
    var state := store.tasks[id].state;
    if state == CHECKING_SUBTASK { return Ok(Some(state)); }
    SubtaskEdges(state);
    r := FireOrSkip(store, id, Only(state, DOING_SUBTASK, DoerDone), note, fields);
  }

  method EnterTriagingSubtask(store: Store, id: string, note: Note, fields: seq<Field>) returns (r: Answer)
    modifies store
    ensures EntersVia(old(store.Contents()), store.Contents(), id, TRIAGING_SUBTASK, true,
                      Only(StateOf(old(store.Contents()), id), CHECKING_SUBTASK, SubtaskFailed), note, fields, r)
  {
    if id !in store.tasks { return Err(NoSuchTask); }
    var state := store.tasks[id].state;
    if state == TRIAGING_SUBTASK { return Ok(Some(state)); }
    SubtaskEdges(state);
    r := FireOrSkip(store, id, Only(state, CHECKING_SUBTASK, SubtaskFailed), note, fields);
  }

  method EnterCommitting(store: Store, id: string, note: Note, fields: seq<Field>) returns (r: Answer)
    modifies store
    ensures EntersVia(old(store.Contents()), store.Contents(), id, COMMITTING, false,
                      Only(StateOf(old(store.Contents()), id), CHECKING_SUBTASK, SubtaskPassed), note, fields, r)
  {
    if id !in store.tasks { return Err(NoSuchTask); }
    var state := store.tasks[id].state;
    SubtaskEdges(state);
    r := FireOrSkip(store, id, Only(state, CHECKING_SUBTASK, SubtaskPassed), note, fields);
  }

  method EnterPushing(store: Store, id: string, note: Note, fields: seq<Field>) returns (r: Answer)
    modifies store
    ensures EntersVia(old(store.Contents()), store.Contents(), id, PUSHING, false,
                      Only(StateOf(old(store.Contents()), id), COMMITTING, CommitCreated), note, fields, r)
  {
    if id !in store.tasks { return Err(NoSuchTask); }
    var state := store.tasks[id].state;
    CommitEdges(state);
    r := FireOrSkip(store, id, Only(state, COMMITTING, CommitCreated), note, fields);
  }

  method EnterLocalCiChecking(store: Store, id: string, note: Note, fields: seq<Field>) returns (r: Answer)
    modifies store
    ensures EntersVia(old(store.Contents()), store.Contents(), id, LOCAL_CI_CHECKING, true,
                      Only(StateOf(old(store.Contents()), id), PUSHING, AllSubtasksDone), note, fields, r)
  {
    if id !in store.tasks { return Err(NoSuchTask); }
    var state := store.tasks[id].state;
    if state == LOCAL_CI_CHECKING { return Ok(Some(state)); }
    CommitEdges(state);
    r := FireOrSkip(store, id, Only(state, PUSHING, AllSubtasksDone), note, fields);
  }

  // ----- the gauntlet -----

  function AuditStartEvent(s: State): Option<Event> {
    match s
    case LOCAL_CI_CHECKING => Some(LocalCiPassed)
    case PENDING_CI => Some(CiFixupStart)
    case AWAITING_REVIEW => Some(ReviewFixupStart)
    case _ => None
  }

  lemma AuditStartEdges(s: State)
    ensures PicksEdge(s, AUDIT_LOCAL_CI, AuditStartEvent(s))
  {
    if e :| Target(s, e) == Some(AUDIT_LOCAL_CI) { AuditEntries(s, e); }
    if AuditStartEvent(s).Some? { HopBy(s, AuditStartEvent(s).value); }
  }

  function Answered(r: Result<State, StoreError>): Answer {
    match r
    case Ok(t) => Ok(Some(t))
    case Err(e) => Err(e)
  }

  /** `enter_audit_local_ci`. Without an `event` override it is an ordinary helper. The override is
      read only in AWAITING_REVIEW and fired as given there; from the two other firing states it
      collides with the positional event. */
  ghost predicate EntersAuditLocalCi(before: Db, after: Db, id: string, override: Option<Event>, note: Note,
                                     fields: seq<Field>, r: Answer) {
    match override
    case None => EntersVia(before, after, id, AUDIT_LOCAL_CI, true, AuditStartEvent(StateOf(before, id)), note, fields, r)
    case Some(e) =>
      if id !in before.tasks then r == Err(NoSuchTask) && after == before
      else
        var s := before.tasks[id].state;
        if s == AWAITING_REVIEW then r == Answered(Outcome(before, id, e)) && after == Applied(before, id, e, note, fields)
        else
          after == before &&
          r == if s == AUDIT_LOCAL_CI then Ok(Some(s))
               else if AuditStartEvent(s).Some? then Err(DuplicateArgument) else Ok(None)
  }

  method EnterAuditLocalCi(store: Store, id: string, override: Option<Event>, note: Note, fields: seq<Field>)
    returns (r: Answer)
    modifies store
    ensures EntersAuditLocalCi(old(store.Contents()), store.Contents(), id, override, note, fields, r)
  {
    if id !in store.tasks { return Err(NoSuchTask); }
    var state := store.tasks[id].state;
    AuditStartEdges(state);
    if state == AUDIT_LOCAL_CI { return Ok(Some(state)); }
    if state == AWAITING_REVIEW && override.Some? {
      var fired := store.ApplyEvent(id, override.value, note, fields);
      return Answered(fired);
    }
    if override.Some? && AuditStartEvent(state).Some? { return Err(DuplicateArgument); }
    r := FireOrSkip(store, id, AuditStartEvent(state), note, fields);
  }

  /** Either of the two fixup starts, given as the override in AWAITING_REVIEW, enters the gauntlet. */
  lemma OverrideEntersTheGauntlet(before: Db, after: Db, id: string, e: Event, note: Note, fields: seq<Field>, r: Answer)
    requires EntersAuditLocalCi(before, after, id, Some(e), note, fields, r)
    requires id in before.tasks && before.tasks[id].state == AWAITING_REVIEW
    requires e == CiFixupStart || e == ReviewFixupStart
    ensures r == Ok(Some(AUDIT_LOCAL_CI)) && after == Moved(before, id, AUDIT_LOCAL_CI, NoteOr(note, e), fields)
  {
    assert Target(AWAITING_REVIEW, e) == Some(AUDIT_LOCAL_CI);
  }

  function StageEvent(stage: State, passed: bool): Event
    requires IsAuditStage(stage)
  {
    match stage
    case AUDIT_LOCAL_CI => if passed then AuditLocalCiPassed else AuditLocalCiFailed
    case AUDIT_RUBRIC => if passed then AuditRubricPassed else AuditRubricFailed
    case AUDIT_STANDARDS => if passed then AuditStandardsPassed else AuditStandardsFailed
    case AUDIT_ARCHITECTURE => if passed then AuditArchitecturePassed else AuditArchitectureFailed
    case _ => if passed then AuditBehaviorPassed else AuditBehaviorFailed
  }

  /** The stage after `stage`; after the last one the PR opens. */
  function StageAfter(stage: State, passed: bool): State
    requires IsAuditStage(stage)
  {
    if !passed then FIXUP_PLANNING
    else
      match stage
      case AUDIT_LOCAL_CI => AUDIT_RUBRIC
      case AUDIT_RUBRIC => AUDIT_STANDARDS
      case AUDIT_STANDARDS => AUDIT_ARCHITECTURE
      case AUDIT_ARCHITECTURE => AUDIT_BEHAVIOR
      case _ => PR_OPENING
  }

  lemma StageEventLands(stage: State, passed: bool)
    requires IsAuditStage(stage)
    ensures Target(stage, StageEvent(stage, passed)) == Some(StageAfter(stage, passed))
  {
  }

  /** A stage verdict counts only in its own stage; a pass moves one stage on, a failure diverts
      to fixup planning, and a verdict for another stage is ignored. */
  ghost predicate AdvancesStage(before: Db, after: Db, id: string, passed: bool, expected: State, note: Note,
                                fields: seq<Field>, r: Answer)
    requires IsAuditStage(expected)
  {
    if id !in before.tasks then r == Err(NoSuchTask) && after == before
    else if before.tasks[id].state != expected then r == Ok(None) && after == before
    else
      var t := StageAfter(expected, passed);
      r == Ok(Some(t)) && after == Moved(before, id, t, NoteOr(note, StageEvent(expected, passed)), fields)
  }

  method AdvanceAuditStage(store: Store, id: string, passed: bool, expected: State, note: Note, fields: seq<Field>)
    returns (r: Answer)
    requires IsAuditStage(expected)
    modifies store
    ensures AdvancesStage(old(store.Contents()), store.Contents(), id, passed, expected, note, fields, r)
  {
    if id !in store.tasks { return Err(NoSuchTask); }
    if store.tasks[id].state != expected { return Ok(None); }
    StageEventLands(expected, passed);
    r := FireOrSkip(store, id, Some(StageEvent(expected, passed)), note, fields);
  }

  function FixupEvent(s: State): Option<Event> {
    match s
    case LOCAL_CI_CHECKING => Some(LocalCiFailed)
    case AUDIT_LOCAL_CI => Some(AuditLocalCiFailed)
    case AUDIT_RUBRIC => Some(AuditRubricFailed)
    case AUDIT_STANDARDS => Some(AuditStandardsFailed)
    case AUDIT_ARCHITECTURE => Some(AuditArchitectureFailed)
    case AUDIT_BEHAVIOR => Some(AuditBehaviorFailed)
    case _ => None
  }

  lemma FixupEventLands(s: State)
    requires FixupEvent(s).Some?
    ensures Target(s, FixupEvent(s).value) == Some(FIXUP_PLANNING)
  {
  }

  lemma FixupEdges(s: State)
    ensures PicksEdge(s, FIXUP_PLANNING, FixupEvent(s))
  {
    if e :| Target(s, e) == Some(FIXUP_PLANNING) { FixupEntries(s, e); }
    if FixupEvent(s).Some? { FixupEventLands(s); }
    if FixupEvent(s).Some? { HopBy(s, FixupEvent(s).value); }
  }

  method EnterFixupPlanning(store: Store, id: string, note: Note, fields: seq<Field>) returns (r: Answer)
    modifies store
    ensures EntersVia(old(store.Contents()), store.Contents(), id, FIXUP_PLANNING, true,
                      FixupEvent(StateOf(old(store.Contents()), id)), note, fields, r)
  {
    if id !in store.tasks { return Err(NoSuchTask); }
    var state := store.tasks[id].state;
    if state == FIXUP_PLANNING { return Ok(Some(state)); }
    FixupEdges(state);
    r := FireOrSkip(store, id, FixupEvent(state), note, fields);
  }

  // ----- review, rebase, conflict -----

  function PendingCiEvent(s: State): Option<Event> {
    match s
    case PR_OPENING => Some(PrOpened)
    case REBASING_TO_MAIN => Some(RebasePushed)
    case _ => None
  }

  lemma OpeningEdges(s: State)
    ensures PicksEdge(s, PR_OPENING, Only(s, AUDIT_BEHAVIOR, AuditBehaviorPassed))
  {
    if e :| Target(s, e) == Some(PR_OPENING) { OpeningEntries(s, e); }
    HopBy(AUDIT_BEHAVIOR, AuditBehaviorPassed);
  }

  lemma PendingCiEdges(s: State)
    ensures PicksEdge(s, PENDING_CI, PendingCiEvent(s))
  {
    if e :| Target(s, e) == Some(PENDING_CI) { PendingCiEntries(s, e); }
    if PendingCiEvent(s).Some? { HopBy(s, PendingCiEvent(s).value); }
  }

  lemma ReviewEdges(s: State)
    ensures PicksEdge(s, AWAITING_REVIEW, Only(s, PENDING_CI, CiPassed))
    ensures PicksEdge(s, CONFLICT_RESOLVING, Only(s, REBASING_TO_MAIN, Conflict))
  {
    forall e { ReviewEntries(s, e); }
    HopBy(PENDING_CI, CiPassed);
    HopBy(REBASING_TO_MAIN, Conflict);
  }

  method EnterPrOpening(store: Store, id: string, note: Note, fields: seq<Field>) returns (r: Answer)
    modifies store
    ensures EntersVia(old(store.Contents()), store.Contents(), id, PR_OPENING, true,
                      Only(StateOf(old(store.Contents()), id), AUDIT_BEHAVIOR, AuditBehaviorPassed), note, fields, r)
  {
    if id !in store.tasks { return Err(NoSuchTask); }
    var state := store.tasks[id].state;
    if state == PR_OPENING { return Ok(Some(state)); }
    OpeningEdges(state);
    r := FireOrSkip(store, id, Only(state, AUDIT_BEHAVIOR, AuditBehaviorPassed), note, fields);
  }

  method EnterPendingCi(store: Store, id: string, note: Note, fields: seq<Field>) returns (r: Answer)
    modifies store
    ensures EntersVia(old(store.Contents()), store.Contents(), id, PENDING_CI, true,
                      PendingCiEvent(StateOf(old(store.Contents()), id)), note, fields, r)
  {
    if id !in store.tasks { return Err(NoSuchTask); }
    var state := store.tasks[id].state;
    if state == PENDING_CI { return Ok(Some(state)); }
    PendingCiEdges(state);
    r := FireOrSkip(store, id, PendingCiEvent(state), note, fields);
  }

  method EnterAwaitingReview(store: Store, id: string, note: Note, fields: seq<Field>) returns (r: Answer)
    modifies store
    ensures EntersVia(old(store.Contents()), store.Contents(), id, AWAITING_REVIEW, true,
                      Only(StateOf(old(store.Contents()), id), PENDING_CI, CiPassed), note, fields, r)
  {
    if id !in store.tasks { return Err(NoSuchTask); }
    var state := store.tasks[id].state;
    if state == AWAITING_REVIEW { return Ok(Some(state)); }
    ReviewEdges(state);
    r := FireOrSkip(store, id, Only(state, PENDING_CI, CiPassed), note, fields);
  }

  method EnterConflictResolving(store: Store, id: string, note: Note, fields: seq<Field>) returns (r: Answer)
    modifies store
    ensures EntersVia(old(store.Contents()), store.Contents(), id, CONFLICT_RESOLVING, false,
                      Only(StateOf(old(store.Contents()), id), REBASING_TO_MAIN, Conflict), note, fields, r)
  {
    if id !in store.tasks { return Err(NoSuchTask); }
    var state := store.tasks[id].state;
    ReviewEdges(state);
    r := FireOrSkip(store, id, Only(state, REBASING_TO_MAIN, Conflict), note, fields);
  }

  function RebaseEvent(s: State): Option<Event> {
    if s == CONFLICT_RESOLVING then Some(Resolved)
    else if Target(s, ParentMergedOrConflict).Some? then Some(ParentMergedOrConflict)
    else None
  }

  lemma RebaseEntries(s: State, e: Event)
    ensures Target(s, e) == Some(REBASING_TO_MAIN) ==> e == ParentMergedOrConflict || s == CONFLICT_RESOLVING
  {
    RebaseEvents(e);
  }

  lemma RebaseEvents(e: Event)
    ensures Lands(e) == REBASING_TO_MAIN ==> e.ParentMergedOrConflict? || e.Resolved?
  {
  }

  lemma RebaseEdges(s: State)
    ensures PicksEdge(s, REBASING_TO_MAIN, RebaseEvent(s))
  {
    RebaseStarts(s);
    ConflictOutcomes();
    if e :| Target(s, e) == Some(REBASING_TO_MAIN) { RebaseEntries(s, e); }
    if RebaseEvent(s).Some? { HopBy(s, RebaseEvent(s).value); }
  }

  /** Tries the event and turns its `InvalidTransition` into a skip. */
  method TryEvent(store: Store, id: string, e: Event, note: Note, fields: seq<Field>) returns (r: Answer)
    requires id in store.tasks
    modifies store
    ensures store.Contents() == Applied(old(store.Contents()), id, e, note, fields)
    ensures r == Ok(Target(old(store.tasks)[id].state, e))
  {
    var fired := store.ApplyEvent(id, e, note, fields);
    return if fired.Ok? then Ok(Some(fired.value)) else Ok(None);
  }

  method EnterRebasingToMain(store: Store, id: string, note: Note, fields: seq<Field>) returns (r: Answer)
    modifies store
    ensures EntersVia(old(store.Contents()), store.Contents(), id, REBASING_TO_MAIN, true,
                      RebaseEvent(StateOf(old(store.Contents()), id)), note, fields, r)
  {
    if id !in store.tasks { return Err(NoSuchTask); }
    var state := store.tasks[id].state;
    if state == REBASING_TO_MAIN { return Ok(Some(state)); }
    RebaseEdges(state);
    if state == CONFLICT_RESOLVING {
      r := FireOrSkip(store, id, Some(Resolved), note, fields);
    } else {
      r := TryEvent(store, id, ParentMergedOrConflict, note, fields);
    }
  }

  /** `enter_audit_cycle_for_ci_fixup` (`start` is CI_FIXUP_START) and its review twin: inside the
      gauntlet nothing happens; otherwise the start event fires exactly where the table has it. */
  ghost predicate StartsFixup(before: Db, after: Db, id: string, start: Event, note: Note, fields: seq<Field>, r: Answer) {
    if id !in before.tasks then r == Err(NoSuchTask) && after == before
    else
      var s := before.tasks[id].state;
      if IsAuditStage(s) then r == Ok(Some(s)) && after == before
      else r == Ok(Target(s, start)) && after == Applied(before, id, start, note, fields)
  }

  lemma FixupStartEdges(s: State)
    ensures HasEntry(s, CiFixupStart) <==> s == PENDING_CI || s == AWAITING_REVIEW
    ensures HasEntry(s, ReviewFixupStart) <==> s == AWAITING_REVIEW
  {
  }

  method EnterAuditCycleForCiFixup(store: Store, id: string, note: Note, fields: seq<Field>) returns (r: Answer)
    modifies store
    ensures StartsFixup(old(store.Contents()), store.Contents(), id, CiFixupStart, note, fields, r)
  {
    if id !in store.tasks { return Err(NoSuchTask); }
    var state := store.tasks[id].state;
    FixupStartEdges(state);
    if IsAuditStage(state) { return Ok(Some(state)); }
    if state != PENDING_CI && state != AWAITING_REVIEW { return Ok(None); }
    r := TryEvent(store, id, CiFixupStart, note, fields);
  }

  method EnterAuditCycleForReviewFixup(store: Store, id: string, note: Note, fields: seq<Field>) returns (r: Answer)
    modifies store
    ensures StartsFixup(old(store.Contents()), store.Contents(), id, ReviewFixupStart, note, fields, r)
  {
    if id !in store.tasks { return Err(NoSuchTask); }
    var state := store.tasks[id].state;
    FixupStartEdges(state);
    if IsAuditStage(state) { return Ok(Some(state)); }
    if state != AWAITING_REVIEW { return Ok(None); }
    r := TryEvent(store, id, ReviewFixupStart, note, fields);
  }

  // ----- blocking -----

  function BlockEvent(s: State): Event {
    match s
    case TRIAGING_SUBTASK => RetryExhausted
    case FIXUP_PLANNING => FixupExhausted
    case CONFLICT_RESOLVING => Unresolved
    case _ => BlockTask
  }

  /** Blocking works from every driven state and from no state at rest, and lands on BLOCKED. */
  lemma BlockEdges(s: State)
    ensures Target(s, BlockEvent(s)) == if AtRest(s) then None else Some(BLOCKED)
  {
  }

  /** `block_current`: blocks a task that is not at rest, skips elsewhere. */
  ghost predicate BlocksCurrent(before: Db, after: Db, id: string, note: Note, fields: seq<Field>, r: Answer) {
    if id !in before.tasks then r == Err(NoSuchTask) && after == before
    else
      var s := before.tasks[id].state;
      if AtRest(s) then r == Ok(None) && after == before
      else r == Ok(Some(BLOCKED)) && after == Moved(before, id, BLOCKED, NoteOr(note, BlockEvent(s)), fields)
  }

  method BlockCurrent(store: Store, id: string, note: Note, fields: seq<Field>) returns (r: Answer)
    modifies store
    ensures BlocksCurrent(old(store.Contents()), store.Contents(), id, note, fields, r)
  {
    if id !in store.tasks { return Err(NoSuchTask); }
    BlockEdges(store.tasks[id].state);
    r := TryEvent(store, id, BlockEvent(store.tasks[id].state), note, fields);
  }

  /** `force_recover_to_pending_ci`: a raw move from any state but PENDING_CI itself. */
  ghost predicate ForcesPendingCi(before: Db, after: Db, id: string, note: Note, fields: seq<Field>, r: Answer) {
    if id !in before.tasks then r == Err(NoSuchTask) && after == before
    else
      r == Ok(Some(PENDING_CI)) &&
      after == if before.tasks[id].state == PENDING_CI then before
               else Moved(before, id, PENDING_CI, OrElse(note, ForcedNote), fields)
  }

  method ForceRecoverToPendingCi(store: Store, id: string, note: Note, fields: seq<Field>) returns (r: Answer)
    modifies store
    ensures ForcesPendingCi(old(store.Contents()), store.Contents(), id, note, fields, r)
  {
    if id !in store.tasks { return Err(NoSuchTask); }
    if store.tasks[id].state == PENDING_CI { return Ok(Some(PENDING_CI)); }
    var ok := store.Transition(id, PENDING_CI, OrElse(note, ForcedNote), fields);
    return Ok(Some(PENDING_CI));
  }

  // ----- merging -----

  /** The events `mark_merged` fires from a state; `None` where it skips. */
  function MergePath(s: State): Option<seq<Event>> {
    match s
    case MERGED => Some([])
    case PENDING => Some([MarkMerged])
    case PENDING_CI => Some([CiPassed, Merged])
    case AWAITING_REVIEW => Some([Merged])
    case BLOCKED => Some([RetryTask, MarkMerged])
    case FAILED => Some([RetryTask, MarkMerged])
    case ABORTED => Some([RetryTask, MarkMerged])
    case _ => if IsSideState(s) then Some([SideBlock(s), RetryTask, MarkMerged]) else None
  }

  /** The states `mark_merged` first blocks. */
  predicate IsSideState(s: State) {
    s.CONFLICT_RESOLVING? || s.REBASING_TO_MAIN? || IsAuditStage(s)
  }

  function SideBlock(s: State): Event {
    if s.CONFLICT_RESOLVING? then Unresolved else BlockTask
  }

  /** Where a sequence of events leads, if the table allows each of them. */
  function Follow(s: State, path: seq<Event>): Option<State>
    decreases |path|
  {
    if path == [] then Some(s)
    else if Target(s, path[0]).None? then None
    else Follow(Target(s, path[0]).value, path[1..])
  }

  /** Fires the events in turn; `note` and `fields` go with the last one, the earlier ones carry
      the note `early` and no fields. */
  function FirePath(db: Db, id: string, path: seq<Event>, early: Note, note: Note, fields: seq<Field>): Db
    decreases |path|
  {
    if path == [] then db
    else if |path| == 1 then Applied(db, id, path[0], note, fields)
    else FirePath(Applied(db, id, path[0], early, []), id, path[1..], early, note, fields)
  }

  lemma FireTwo(db: Db, id: string, a: Event, b: Event, early: Note, note: Note, fields: seq<Field>)
    ensures FirePath(db, id, [a, b], early, note, fields) == Applied(Applied(db, id, a, early, []), id, b, note, fields)
  {
    assert [a, b][1..] == [b];
  }

  /** `note or "auto-merge via ancestry: ..."`; the PENDING_CI hop passes the note as given. */
  function EarlyNote(s: State, note: Note): Note {
    if s == PENDING_CI then note else OrElse(note, BridgeNote)
  }

  lemma MergeHop(s: State)
    ensures s == PENDING ==> Target(s, MarkMerged) == Some(MERGED)
    ensures s == AWAITING_REVIEW ==> Target(s, Merged) == Some(MERGED)
    ensures s == PENDING_CI ==> Target(s, CiPassed) == Some(AWAITING_REVIEW)
  {
  }

  lemma RetryHop(s: State)
    ensures s == BLOCKED || s == FAILED || s == ABORTED ==> Target(s, RetryTask) == Some(PENDING)
  {
  }

  lemma BlockFromSideState(s: State)
    requires IsSideState(s)
    ensures Target(s, SideBlock(s)) == Some(BLOCKED)
  {
  }

  /** Fires an event whose target is known. */
  method Fire(store: Store, id: string, e: Event, t: State, note: Note, fields: seq<Field>)
    requires id in store.tasks && Target(store.tasks[id].state, e) == Some(t)
    modifies store
    ensures store.Contents() == Applied(old(store.Contents()), id, e, note, fields)
    ensures id in store.tasks && store.tasks[id].state == t
  {
    var fired := store.ApplyEvent(id, e, note, fields);
  }

  method MergeFromReview(store: Store, id: string, note: Note, fields: seq<Field>)
    requires id in store.tasks && store.tasks[id].state == PENDING_CI
    modifies store
    ensures store.Contents() == FirePath(old(store.Contents()), id, [CiPassed, Merged], note, note, fields)
  {
    FireTwo(store.Contents(), id, CiPassed, Merged, note, note, fields);
    MergeHop(PENDING_CI);
    Fire(store, id, CiPassed, AWAITING_REVIEW, note, []);
    MergeHop(AWAITING_REVIEW);
    Fire(store, id, Merged, MERGED, note, fields);
  }

  /** The retry-then-merge tail shared by the blocked, failed and aborted states. */
  method RetryAndMerge(store: Store, id: string, early: Note, note: Note, fields: seq<Field>)
    requires id in store.tasks
    requires var s := store.tasks[id].state; s == BLOCKED || s == FAILED || s == ABORTED
    modifies store
    ensures store.Contents() == FirePath(old(store.Contents()), id, [RetryTask, MarkMerged], early, note, fields)
  {
    FireTwo(store.Contents(), id, RetryTask, MarkMerged, early, note, fields);
    RetryHop(store.tasks[id].state);
    Fire(store, id, RetryTask, PENDING, early, []);
    MergeHop(PENDING);
    Fire(store, id, MarkMerged, MERGED, note, fields);
  }

  method BridgeToMerged(store: Store, id: string, block: Event, early: Note, note: Note, fields: seq<Field>)
    requires id in store.tasks && Target(store.tasks[id].state, block) == Some(BLOCKED)
    modifies store
    ensures store.Contents() == FirePath(old(store.Contents()), id, [block, RetryTask, MarkMerged], early, note, fields)
  {
    assert [block, RetryTask, MarkMerged][1..] == [RetryTask, MarkMerged];
    Fire(store, id, block, BLOCKED, early, []);
    RetryAndMerge(store, id, early, note, fields);
  }

  method MergeDirectly(store: Store, id: string, note: Note, fields: seq<Field>)
    requires id in store.tasks
    requires var s := store.tasks[id].state; s == PENDING || s == PENDING_CI || s == AWAITING_REVIEW
    modifies store
    ensures store.Contents() ==
            FirePath(old(store.Contents()), id, MergePath(old(store.tasks)[id].state).value, note, note, fields)
  {
    var state := store.tasks[id].state;
    MergeHop(state);
    if state == PENDING {
      Fire(store, id, MarkMerged, MERGED, note, fields);
    } else if state == PENDING_CI {
      MergeFromReview(store, id, note, fields);
    } else {
      Fire(store, id, Merged, MERGED, note, fields);
    }
  }

  predicate IsRetryable(s: State) {
    s.BLOCKED? || s.FAILED? || s.ABORTED?
  }

  lemma BridgePaths(s: State)
    ensures IsSideState(s) ==> MergePath(s) == Some([SideBlock(s), RetryTask, MarkMerged])
    ensures IsRetryable(s) ==> MergePath(s) == Some([RetryTask, MarkMerged])
  {
  }

  method MergeThroughPending(store: Store, id: string, ghost path: seq<Event>, early: Note, note: Note, fields: seq<Field>)
    requires id in store.tasks
    requires IsSideState(store.tasks[id].state) || IsRetryable(store.tasks[id].state)
    requires MergePath(store.tasks[id].state) == Some(path)
    modifies store
    ensures store.Contents() == FirePath(old(store.Contents()), id, path, early, note, fields)
  {
    var state := store.tasks[id].state;
    BridgePaths(state);
    if IsSideState(state) {
      BlockFromSideState(state);
      BridgeToMerged(store, id, SideBlock(state), early, note, fields);
    } else {
      RetryAndMerge(store, id, early, note, fields);
    }
  }

  /** Merged along the state's path, or skipped where it has none. */
  ghost predicate MergesAlongPath(before: Db, after: Db, id: string, note: Note, fields: seq<Field>, r: Answer) {
    if id !in before.tasks then r == Err(NoSuchTask) && after == before
    else
      var s := before.tasks[id].state;
      match MergePath(s)
      case None => r == Ok(None) && after == before
      case Some(path) => r == Ok(Some(MERGED)) && after == FirePath(before, id, path, EarlyNote(s, note), note, fields)
  }

  /** `mark_merged`. Only the last of several early notes matters: a path of one event has none. */
  method MarkTaskMerged(store: Store, id: string, note: Note, fields: seq<Field>) returns (r: Answer)
    modifies store
    ensures MergesAlongPath(old(store.Contents()), store.Contents(), id, note, fields, r)
  {
    if id !in store.tasks { return Err(NoSuchTask); }
    var state := store.tasks[id].state;
    if state == MERGED { return Ok(Some(state)); }
    if state == PENDING || state == PENDING_CI || state == AWAITING_REVIEW {
      MergeDirectly(store, id, note, fields);
      return Ok(Some(MERGED));
    }
    if IsSideState(state) || IsRetryable(state) {
      MergeThroughPending(store, id, MergePath(state).value, EarlyNote(state, note), note, fields);
      return Ok(Some(MERGED));
    }
    return Ok(None);
  }

  lemma FollowFirst(s: State, e: Event, t: State, rest: seq<Event>)
    requires Target(s, e) == Some(t)
    ensures Follow(s, [e] + rest) == Follow(t, rest)
  {
    assert ([e] + rest)[1..] == rest;
  }

  lemma PendingMerges()
    ensures Follow(PENDING, [MarkMerged]) == Some(MERGED)
  {
    MergeHop(PENDING);
    FollowFirst(PENDING, MarkMerged, MERGED, []);
    assert [MarkMerged] + [] == [MarkMerged];
  }

  lemma RetryMerges(s: State)
    requires s == BLOCKED || s == FAILED || s == ABORTED
    ensures Follow(s, [RetryTask, MarkMerged]) == Some(MERGED)
  {
    RetryHop(s);
    FollowFirst(s, RetryTask, PENDING, [MarkMerged]);
    PendingMerges();
  }

  lemma ReviewMerges(s: State)
    requires s == PENDING_CI || s == AWAITING_REVIEW
    ensures Follow(s, MergePath(s).value) == Some(MERGED)
  {
    MergeHop(AWAITING_REVIEW);
    FollowFirst(AWAITING_REVIEW, Merged, MERGED, []);
    assert [Merged] + [] == [Merged];
    if s == PENDING_CI {
      MergeHop(s);
      FollowFirst(s, CiPassed, AWAITING_REVIEW, [Merged]);
    }
  }

  /** The path of every state that has one is allowed by the table, ends in MERGED and has at most
      three hops. */
  lemma MergePathMerges(s: State)
    requires MergePath(s).Some?
    ensures Follow(s, MergePath(s).value) == Some(MERGED) && |MergePath(s).value| <= 3
  {
    if s == PENDING {
      PendingMerges();
    } else if s == PENDING_CI || s == AWAITING_REVIEW {
      ReviewMerges(s);
    } else if IsSideState(s) {
      SideStateMerges(s);
    } else if s != MERGED {
      RetryMerges(s);
    }
  }

  lemma SideStateMerges(s: State)
    requires IsSideState(s)
    ensures Follow(s, [SideBlock(s), RetryTask, MarkMerged]) == Some(MERGED)
  {
    BlockFromSideState(s);
    FollowFirst(s, SideBlock(s), BLOCKED, [RetryTask, MarkMerged]);
    RetryMerges(BLOCKED);
  }

  /** The states in which `mark_merged` skips. */
  lemma SkipsMerging(s: State)
    ensures MergePath(s).None? <==>
              s.PROVISIONING? || s.PLANNING? || s.DOING_SUBTASK? || s.CHECKING_SUBTASK? || s.TRIAGING_SUBTASK? ||
              s.COMMITTING? || s.PUSHING? || s.LOCAL_CI_CHECKING? || s.FIXUP_PLANNING? || s.PR_OPENING? ||
              s.MERGE_NODE_READY? || s.MERGE_NODE_RETIRED?
  {
  }

  lemma MergedEntries(s: State, e: Event)
    ensures Target(s, e) == Some(MERGED) ==> s.PENDING? || s.AWAITING_REVIEW?
  {
    EndingEvents(e);
  }

  lemma PendingEntries(s: State, e: Event)
    ensures Target(s, e) == Some(PENDING) ==> s.BLOCKED? || s.FAILED? || s.ABORTED? || s.MERGE_NODE_READY?
  {
    EndingEvents(e);
  }

  lemma EndingEvents(e: Event)
    ensures Lands(e) == MERGED ==> e.Merged? || e.MarkMerged?
    ensures Lands(e) == PENDING ==> e.ParentAdvanced? || e.RetryTask? || e.ResumeTask?
  {
  }

  /** MERGED is one hop away only from these states. */
  predicate NextToMerged(s: State) {
    s.PENDING? || s.AWAITING_REVIEW?
  }

  predicate TwoFromMerged(s: State) {
    s.PENDING_CI? || s.BLOCKED? || s.FAILED? || s.ABORTED? || s.MERGE_NODE_READY?
  }

  lemma DistanceToMerged(s: State, path: seq<Event>)
    requires Follow(s, path) == Some(MERGED)
    ensures |path| == 0 ==> s == MERGED
    ensures |path| == 1 ==> NextToMerged(s)
    ensures |path| == 2 ==> TwoFromMerged(s)
    decreases |path|
  {
    if |path| >= 1 {
      MergedEntries(s, path[0]);
      PendingEntries(s, path[0]);
      ReviewEntries(s, path[0]);
      if |path| == 2 {
        DistanceToMerged(Target(s, path[0]).value, path[1..]);
      }
    }
  }

  /** No table path to MERGED is shorter than the one taken. */
  lemma MergePathIsShortest(s: State, other: seq<Event>)
    requires MergePath(s).Some? && Follow(s, other) == Some(MERGED)
    ensures |MergePath(s).value| <= |other|
  {
    DistanceToMerged(s, other);
  }
}
