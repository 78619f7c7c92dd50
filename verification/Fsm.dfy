/** The task lifecycle: states, events, the transition table and crash recovery. */
module Fsm {
  import opened Ids

  datatype State =
    | PENDING | PROVISIONING | PLANNING | DOING_SUBTASK | CHECKING_SUBTASK | TRIAGING_SUBTASK
    | COMMITTING | PUSHING | LOCAL_CI_CHECKING
    | AUDIT_LOCAL_CI | AUDIT_RUBRIC | AUDIT_STANDARDS | AUDIT_ARCHITECTURE | AUDIT_BEHAVIOR
    | FIXUP_PLANNING | PR_OPENING | PENDING_CI | AWAITING_REVIEW | REBASING_TO_MAIN
    | CONFLICT_RESOLVING | MERGED | MERGE_NODE_READY | MERGE_NODE_RETIRED
    | BLOCKED | FAILED | ABORTED

  datatype Event =
    | StartTask | EnvironmentReady | PlanValid | DoerDone | SubtaskPassed | SubtaskFailed
    | RetrySubtask | RetryExhausted | CommitCreated | MoreSubtasks | AllSubtasksDone
    | LocalCiPassed | LocalCiFailed
    | AuditLocalCiPassed | AuditLocalCiFailed | AuditRubricPassed | AuditRubricFailed
    | AuditStandardsPassed | AuditStandardsFailed | AuditArchitecturePassed | AuditArchitectureFailed
    | AuditBehaviorPassed | AuditBehaviorFailed
    | InitialAuditStart | CiFixupStart | ReviewFixupStart | FixupPlanValid | FixupExhausted
    | PrOpened | CiPassed | CiFailed | ChangesRequestedReceived | Merged
    | MergeNodeBuilt | ParentAdvanced | AllParentsMerged
    | ParentMergedOrConflict | RebasePushed | Conflict | Resolved | Unresolved
    | Abort | Crash | RetryTask | ResumeTask | MarkMerged | PrClosed | BlockTask

  predicate IsAuditStage(s: State) {
    s.AUDIT_LOCAL_CI? || s.AUDIT_RUBRIC? || s.AUDIT_STANDARDS? || s.AUDIT_ARCHITECTURE? || s.AUDIT_BEHAVIOR?
  }

  /** `ACTIVE_STATES`: a worker is driving the task. */
  predicate IsActive(s: State) {
    IsAuditStage(s) ||
    s.PROVISIONING? || s.PLANNING? || s.DOING_SUBTASK? || s.CHECKING_SUBTASK? || s.TRIAGING_SUBTASK? ||
    s.COMMITTING? || s.PUSHING? || s.LOCAL_CI_CHECKING? || s.FIXUP_PLANNING? || s.PR_OPENING? ||
    s.REBASING_TO_MAIN? || s.CONFLICT_RESOLVING?
  }

  /** No worker drives the task: it waits, or it is over. */
  ghost predicate AtRest(s: State) {
    s.PENDING? || s.PENDING_CI? || s.AWAITING_REVIEW? || s.MERGE_NODE_READY? ||
    s.MERGED? || s.MERGE_NODE_RETIRED? || s.BLOCKED? || s.FAILED? || s.ABORTED?
  }

  /** A task is either driven by a worker or at rest. */
  lemma ActiveIffNotAtRest(s: State)
    ensures IsActive(s) <==> !AtRest(s)
  {
  }

  predicate IsTerminal(s: State) {
    s.MERGED? || s.MERGE_NODE_RETIRED? || s.BLOCKED? || s.FAILED? || s.ABORTED?
  }

  predicate IsPostPr(s: State) {
    s == PENDING_CI || s == AWAITING_REVIEW
  }

  /** The literal entries of `TRANSITIONS`, event by event: the states with an entry for `e`. */
  predicate HasEntry(s: State, e: Event) {
    match e
    case StartTask => s.PENDING?
    case EnvironmentReady => s.PROVISIONING?
    case PlanValid => s.PLANNING?
    case DoerDone => s.DOING_SUBTASK?
    case SubtaskPassed => s.CHECKING_SUBTASK?
    case SubtaskFailed => s.CHECKING_SUBTASK?
    case RetrySubtask => s.TRIAGING_SUBTASK?
    case RetryExhausted => s.TRIAGING_SUBTASK?
    case CommitCreated => s.COMMITTING?
    case MoreSubtasks => s.PUSHING?
    case AllSubtasksDone => s.PUSHING?
    case LocalCiPassed => s.LOCAL_CI_CHECKING?
    case LocalCiFailed => s.LOCAL_CI_CHECKING?
    case AuditLocalCiPassed => s.AUDIT_LOCAL_CI?
    case AuditLocalCiFailed => s.AUDIT_LOCAL_CI?
    case AuditRubricPassed => s.AUDIT_RUBRIC?
    case AuditRubricFailed => s.AUDIT_RUBRIC?
    case AuditStandardsPassed => s.AUDIT_STANDARDS?
    case AuditStandardsFailed => s.AUDIT_STANDARDS?
    case AuditArchitecturePassed => s.AUDIT_ARCHITECTURE?
    case AuditArchitectureFailed => s.AUDIT_ARCHITECTURE?
    case AuditBehaviorPassed => s.AUDIT_BEHAVIOR?
    case AuditBehaviorFailed => s.AUDIT_BEHAVIOR?
    case CiFixupStart => s.PENDING_CI? || s.AWAITING_REVIEW?
    case ReviewFixupStart => s.AWAITING_REVIEW?
    case FixupPlanValid => s.FIXUP_PLANNING?
    case FixupExhausted => s.FIXUP_PLANNING?
    case PrOpened => s.PR_OPENING?
    case CiPassed => s.PENDING_CI?
    case Merged => s.AWAITING_REVIEW?
    case MergeNodeBuilt => s.AUDIT_BEHAVIOR?
    case ParentAdvanced => s.MERGE_NODE_READY?
    case AllParentsMerged => s.MERGE_NODE_READY?
    case ParentMergedOrConflict => s.PENDING_CI? || s.AWAITING_REVIEW?
    case RebasePushed => s.REBASING_TO_MAIN?
    case Conflict => s.REBASING_TO_MAIN?
    case Resolved => s.CONFLICT_RESOLVING?
    case Unresolved => s.CONFLICT_RESOLVING?
    case Abort => s.PENDING?
    case Crash => IsActive(s)
    case RetryTask => s.BLOCKED? || s.FAILED? || s.ABORTED?
    case ResumeTask => s.BLOCKED? || s.FAILED?
    case MarkMerged => s.PENDING?
    case PrClosed => s.PENDING_CI? || s.AWAITING_REVIEW?
    case InitialAuditStart => false
    case CiFailed => false
    case ChangesRequestedReceived => false
    case BlockTask => false
  }

  /** The two families added after the literal entries: `BLOCK_TASK` and
      `PARENT_MERGED_OR_CONFLICT` from the active states. */
  predicate HasDerivedEntry(s: State, e: Event) {
    (e.BlockTask? && IsActive(s) && !s.CONFLICT_RESOLVING?) ||
    (e.ParentMergedOrConflict? && (IsActive(s) || IsPostPr(s)) && !s.REBASING_TO_MAIN?)
  }

  /** All entries of one event have the same target. */
  function Lands(e: Event): State {
    match e
    case StartTask => PROVISIONING
    case EnvironmentReady => PLANNING
    case PlanValid => DOING_SUBTASK
    case DoerDone => CHECKING_SUBTASK
    case SubtaskPassed => COMMITTING
    case SubtaskFailed => TRIAGING_SUBTASK
    case RetrySubtask => DOING_SUBTASK
    case RetryExhausted => BLOCKED
    case CommitCreated => PUSHING
    case MoreSubtasks => DOING_SUBTASK
    case AllSubtasksDone => LOCAL_CI_CHECKING
    case LocalCiPassed => AUDIT_LOCAL_CI
    case AuditLocalCiPassed => AUDIT_RUBRIC
    case AuditRubricPassed => AUDIT_STANDARDS
    case AuditStandardsPassed => AUDIT_ARCHITECTURE
    case AuditArchitecturePassed => AUDIT_BEHAVIOR
    case AuditBehaviorPassed => PR_OPENING
    case LocalCiFailed => FIXUP_PLANNING
    case AuditLocalCiFailed => FIXUP_PLANNING
    case AuditRubricFailed => FIXUP_PLANNING
    case AuditStandardsFailed => FIXUP_PLANNING
    case AuditArchitectureFailed => FIXUP_PLANNING
    case AuditBehaviorFailed => FIXUP_PLANNING
    case CiFixupStart => AUDIT_LOCAL_CI
    case ReviewFixupStart => AUDIT_LOCAL_CI
    case FixupPlanValid => DOING_SUBTASK
    case FixupExhausted => BLOCKED
    case PrOpened => PENDING_CI
    case CiPassed => AWAITING_REVIEW
    case Merged => MERGED
    case MergeNodeBuilt => MERGE_NODE_READY
    case ParentAdvanced => PENDING
    case AllParentsMerged => MERGE_NODE_RETIRED
    case ParentMergedOrConflict => REBASING_TO_MAIN
    case RebasePushed => PENDING_CI
    case Conflict => CONFLICT_RESOLVING
    case Resolved => REBASING_TO_MAIN
    case Unresolved => BLOCKED
    case Abort => ABORTED
    case Crash => FAILED
    case RetryTask => PENDING
    case ResumeTask => PENDING
    case MarkMerged => MERGED
    case PrClosed => ABORTED
    case BlockTask => BLOCKED
    case InitialAuditStart => AUDIT_LOCAL_CI
    case CiFailed => FIXUP_PLANNING
    case ChangesRequestedReceived => FIXUP_PLANNING
  }

  /** `target_for_event`; `None` is the raised `InvalidTransition`. */
  function Target(s: State, e: Event): Option<State> {
    if HasEntry(s, e) || HasDerivedEntry(s, e) then Some(Lands(e)) else None
  }

  /** Some event takes `s` to `t`. */
  ghost predicate Hop(s: State, t: State) {
    exists e :: Target(s, e) == Some(t)
  }

  // ----- the table, entry by entry -----

  /** The first plan. */
  lemma PlanningEntries()
    ensures Target(PENDING, StartTask) == Some(PROVISIONING)
    ensures Target(PROVISIONING, EnvironmentReady) == Some(PLANNING)
    ensures Target(PLANNING, PlanValid) == Some(DOING_SUBTASK)
    ensures Target(PENDING, Abort) == Some(ABORTED)
    ensures Target(PENDING, MarkMerged) == Some(MERGED)
  {
  }

  /** Starting over. */
  lemma RestartEntries()
    ensures Target(BLOCKED, RetryTask) == Some(PENDING)
    ensures Target(FAILED, RetryTask) == Some(PENDING)
    ensures Target(ABORTED, RetryTask) == Some(PENDING)
    ensures Target(BLOCKED, ResumeTask) == Some(PENDING)
    ensures Target(FAILED, ResumeTask) == Some(PENDING)
  {
  }

  /** One attempt at a subtask. */
  lemma AttemptEntries()
    ensures Target(DOING_SUBTASK, DoerDone) == Some(CHECKING_SUBTASK)
    ensures Target(CHECKING_SUBTASK, SubtaskPassed) == Some(COMMITTING)
    ensures Target(CHECKING_SUBTASK, SubtaskFailed) == Some(TRIAGING_SUBTASK)
    ensures Target(TRIAGING_SUBTASK, RetrySubtask) == Some(DOING_SUBTASK)
    ensures Target(TRIAGING_SUBTASK, RetryExhausted) == Some(BLOCKED)
  {
  }

  /** From the commit to the gauntlet. */
  lemma CommitEntries()
    ensures Target(COMMITTING, CommitCreated) == Some(PUSHING)
    ensures Target(PUSHING, MoreSubtasks) == Some(DOING_SUBTASK)
    ensures Target(PUSHING, AllSubtasksDone) == Some(LOCAL_CI_CHECKING)
    ensures Target(LOCAL_CI_CHECKING, LocalCiPassed) == Some(AUDIT_LOCAL_CI)
    ensures Target(LOCAL_CI_CHECKING, LocalCiFailed) == Some(FIXUP_PLANNING)
  {
  }

  /** Fixup planning. */
  lemma FixupPlanEntries()
    ensures Target(FIXUP_PLANNING, FixupPlanValid) == Some(DOING_SUBTASK)
    ensures Target(FIXUP_PLANNING, FixupExhausted) == Some(BLOCKED)
  {
  }

  /** The opened PR. */
  lemma PrEntries()
    ensures Target(PR_OPENING, PrOpened) == Some(PENDING_CI)
    ensures Target(PENDING_CI, CiPassed) == Some(AWAITING_REVIEW)
    ensures Target(AWAITING_REVIEW, Merged) == Some(MERGED)
  {
  }

  /** Back into the gauntlet, or out of the PR. */
  lemma FixupStartEntries()
    ensures Target(PENDING_CI, CiFixupStart) == Some(AUDIT_LOCAL_CI)
    ensures Target(AWAITING_REVIEW, CiFixupStart) == Some(AUDIT_LOCAL_CI)
    ensures Target(AWAITING_REVIEW, ReviewFixupStart) == Some(AUDIT_LOCAL_CI)
    ensures Target(PENDING_CI, PrClosed) == Some(ABORTED)
    ensures Target(AWAITING_REVIEW, PrClosed) == Some(ABORTED)
  {
  }

  /** How a rebase ends. */
  lemma RebaseOutcomes()
    ensures Target(REBASING_TO_MAIN, RebasePushed) == Some(PENDING_CI)
    ensures Target(REBASING_TO_MAIN, Conflict) == Some(CONFLICT_RESOLVING)
  {
  }

  /** How a conflict ends. */
  lemma ConflictOutcomes()
    ensures Target(CONFLICT_RESOLVING, Resolved) == Some(REBASING_TO_MAIN)
    ensures Target(CONFLICT_RESOLVING, Unresolved) == Some(BLOCKED)
  {
  }

  /** The merge-node's own states. */
  lemma MergeNodeEntries()
    ensures Target(AUDIT_BEHAVIOR, MergeNodeBuilt) == Some(MERGE_NODE_READY)
    ensures Target(MERGE_NODE_READY, ParentAdvanced) == Some(PENDING)
    ensures Target(MERGE_NODE_READY, AllParentsMerged) == Some(MERGE_NODE_RETIRED)
  {
  }

  /** Exactly the driven states can crash. */
  lemma CrashEntries(s: State)
    ensures Target(s, Crash) == if AtRest(s) then None else Some(FAILED)
  {
  }

  /** Exactly the driven states can be blocked, a conflict by an event of its own. */
  lemma BlockEntries(s: State)
    ensures Target(s, BlockTask) == if AtRest(s) || s == CONFLICT_RESOLVING then None else Some(BLOCKED)
  {
  }

  /** Exactly the driven states and those with an open PR can be sent to rebase, but a rebase is not
      sent to itself. */
  lemma RebaseStarts(s: State)
    ensures Target(s, ParentMergedOrConflict) ==
            if (AtRest(s) && s != PENDING_CI && s != AWAITING_REVIEW) || s == REBASING_TO_MAIN then None
            else Some(REBASING_TO_MAIN)
  {
  }

  lemma StartEntries(s: State, e: Event)
    ensures Target(s, e) == Some(PROVISIONING) ==> s.PENDING?
    ensures Target(s, e) == Some(PLANNING) ==> s.PROVISIONING?
  {
  }

  lemma EndEntries(s: State, e: Event)
    ensures Target(s, e) == Some(ABORTED) ==> s.PENDING? || s.PENDING_CI? || s.AWAITING_REVIEW?
    ensures Target(s, e) == Some(MERGE_NODE_RETIRED) ==> s.MERGE_NODE_READY?
  {
  }

  lemma FailureEntries(s: State, e: Event)
    ensures Target(s, e) == Some(FAILED) ==> !AtRest(s)
  {
  }

  lemma BlockedEntries(s: State, e: Event)
    ensures Target(s, e) == Some(BLOCKED) ==> !AtRest(s)
  {
  }

  // ----- the audit gauntlet -----

  /** The stages in the order the gauntlet walks them. */
  const GAUNTLET := [AUDIT_LOCAL_CI, AUDIT_RUBRIC, AUDIT_STANDARDS, AUDIT_ARCHITECTURE, AUDIT_BEHAVIOR]

  /** The state every table entry into `t` leaves, for the stages after the first and for the
      two states the gauntlet opens. */
  function GauntletBefore(t: State): Option<State> {
    if t.AUDIT_RUBRIC? then Some(AUDIT_LOCAL_CI)
    else if t.AUDIT_STANDARDS? then Some(AUDIT_RUBRIC)
    else if t.AUDIT_ARCHITECTURE? then Some(AUDIT_STANDARDS)
    else if t.AUDIT_BEHAVIOR? then Some(AUDIT_ARCHITECTURE)
    else if t.PR_OPENING? || t.MERGE_NODE_READY? then Some(AUDIT_BEHAVIOR)
    else None
  }

  lemma StageEntries(s: State, e: Event)
    ensures Target(s, e) == Some(AUDIT_RUBRIC) ==> s.AUDIT_LOCAL_CI?
    ensures Target(s, e) == Some(AUDIT_STANDARDS) ==> s.AUDIT_RUBRIC?
    ensures Target(s, e) == Some(AUDIT_ARCHITECTURE) ==> s.AUDIT_STANDARDS?
    ensures Target(s, e) == Some(AUDIT_BEHAVIOR) ==> s.AUDIT_ARCHITECTURE?
  {
  }

  lemma OpeningEntries(s: State, e: Event)
    ensures Target(s, e) == Some(PR_OPENING) ==> s.AUDIT_BEHAVIOR?
    ensures Target(s, e) == Some(MERGE_NODE_READY) ==> s.AUDIT_BEHAVIOR?
  {
  }

  /** No stage can be skipped: such a state is entered from the one before only. */
  lemma OneWayIn(s: State, t: State)
    ensures Hop(s, t) && GauntletBefore(t).Some? ==> GauntletBefore(t) == Some(s)
  {
    if e :| Target(s, e) == Some(t) {
      StageEntries(s, e);
      OpeningEntries(s, e);
    }
  }

  // ----- crash recovery -----

  /** What recovery writes besides the state. */
  datatype RecoveryFields = NoFields | ForgetWorkspace | ResumeSubtasks

  function RecoverAfterCrash(s: State, hasPr: bool): (State, RecoveryFields) {
    if IsTerminal(s) || s == PENDING then (s, NoFields)
    else if IsPostPr(s) then (PENDING_CI, NoFields)
    else if s == PROVISIONING then (PENDING, ForgetWorkspace)
    else if s.PR_OPENING? || s.REBASING_TO_MAIN? || s.CONFLICT_RESOLVING? || IsAuditStage(s) then
      if hasPr then (PENDING_CI, NoFields) else (PENDING, ResumeSubtasks)
    else (PENDING, ResumeSubtasks)
  }

  /** Recovery answers with a state at rest. A driven task lands in PENDING, or in PENDING_CI with a
      PR; among the states at rest only a review and a ready merge-node are touched. */
  lemma RecoveryIsAtRest(s: State, hasPr: bool)
    ensures AtRest(RecoverAfterCrash(s, hasPr).0)
    ensures !AtRest(s) ==> RecoverAfterCrash(s, hasPr).0 in {PENDING, PENDING_CI}
    ensures !AtRest(s) && RecoverAfterCrash(s, hasPr).0 == PENDING_CI ==> hasPr
    ensures AtRest(s) ==>
              RecoverAfterCrash(s, hasPr) ==
              if s == AWAITING_REVIEW then (PENDING_CI, NoFields)
              else if s == MERGE_NODE_READY then (PENDING, ResumeSubtasks)
              else (s, NoFields)
    ensures RecoverAfterCrash(RecoverAfterCrash(s, hasPr).0, hasPr).0 == RecoverAfterCrash(s, hasPr).0
  {
  }
}
