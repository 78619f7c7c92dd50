/** The subtasks table and its planning cycles: emission, appending, and dropping the latest
    cycle for a replan. */
module PlanningCycles {
  import opened Ids

  datatype SubtaskRow = SubtaskRow(rowid: nat, task: string, subtaskId: string, cycle: int, kind: string)

  /** One emitted subtask; the optional columns override the call's cycle and kind. */
  datatype Emission = Emission(subtaskId: string, cycle: Option<int>, kind: Option<string>)

  /** Rows in row-id order; ids are never reused. */
  datatype Table = Table(rows: seq<SubtaskRow>, nextId: nat)

  function TaskRows(rows: seq<SubtaskRow>, task: string): seq<SubtaskRow> {
    if rows == [] then []
    else
      var n := |rows| - 1;
      TaskRows(rows[..n], task) + if rows[n].task == task then [rows[n]] else []
  }

  /** `DELETE FROM subtasks WHERE task_id = ?`. */
  function DropTask(rows: seq<SubtaskRow>, task: string): seq<SubtaskRow> {
    if rows == [] then []
    else
      var n := |rows| - 1;
      DropTask(rows[..n], task) + if rows[n].task == task then [] else [rows[n]]
  }

  /** `DELETE FROM subtasks WHERE task_id = ? AND planning_cycle = ?`. */
  function DropCycle(rows: seq<SubtaskRow>, task: string, cycle: int): seq<SubtaskRow> {
    if rows == [] then []
    else
      var n := |rows| - 1;
      DropCycle(rows[..n], task, cycle) + if rows[n].task == task && rows[n].cycle == cycle then [] else [rows[n]]
  }

  /** `COALESCE(MAX(planning_cycle), 0)`. */
  function MaxCycle(rows: seq<SubtaskRow>): int {
    if rows == [] then 0
    else if |rows| == 1 then rows[0].cycle
    else
      var m, c := MaxCycle(rows[..|rows| - 1]), rows[|rows| - 1].cycle;
      if c > m then c else m
  }

  predicate HasSubtask(rows: seq<SubtaskRow>, task: string, subtaskId: string) {
    exists i | 0 <= i < |rows| :: rows[i].task == task && rows[i].subtaskId == subtaskId
  }

  function NewRow(task: string, e: Emission, rowid: nat, cycle: int, kind: string): SubtaskRow {
    SubtaskRow(rowid, task, e.subtaskId, if e.cycle.Some? then e.cycle.value else cycle,
               if e.kind.Some? then e.kind.value else kind)
  }

  function NewRows(task: string, es: seq<Emission>, from: nat, cycle: int, kind: string): (r: seq<SubtaskRow>)
    ensures |r| == |es|
    ensures forall i | 0 <= i < |r| :: r[i] == NewRow(task, es[i], from + i, cycle, kind)
  {
    seq(|es|, i requires 0 <= i < |es| => NewRow(task, es[i], from + i, cycle, kind))
  }

  function EmissionIds(es: seq<Emission>): (ids: seq<string>)
    ensures |ids| == |es| && forall i | 0 <= i < |es| :: ids[i] == es[i].subtaskId
  {
    seq(|es|, i requires 0 <= i < |es| => es[i].subtaskId)
  }

  /** The emissions whose subtask id the task does not have yet. */
  function Fresh(es: seq<Emission>, rows: seq<SubtaskRow>, task: string): seq<Emission> {
    if es == [] then []
    else
      var n := |es| - 1;
      Fresh(es[..n], rows, task) + if HasSubtask(rows, task, es[n].subtaskId) then [] else [es[n]]
  }

  ghost function Upserted(t: Table, task: string, es: seq<Emission>, cycle: int, kind: string): Table {
    if Distinct(EmissionIds(es)) then
      Table(DropTask(t.rows, task) + NewRows(task, es, t.nextId, cycle, kind), t.nextId + |es|)
    else t
  }

  function EffectiveCycle(t: Table, task: string, cycle: Option<int>): int {
    if cycle.Some? then cycle.value else MaxCycle(TaskRows(t.rows, task)) + 1
  }

  ghost function Appended(t: Table, task: string, es: seq<Emission>, cycle: Option<int>, kind: string): Table {
    var unseen := Fresh(es, t.rows, task);
    if Distinct(EmissionIds(unseen)) then
      Table(t.rows + NewRows(task, unseen, t.nextId, EffectiveCycle(t, task, cycle), kind), t.nextId + |unseen|)
    else t
  }

  function CycleDropped(t: Table, task: string, cycle: int): Table {
    t.(rows := DropCycle(t.rows, task, cycle))
  }

  // ----- the table as the store keeps it -----

  lemma {:induction false} DropTaskFacts(rows: seq<SubtaskRow>, task: string)
    ensures forall r | r in DropTask(rows, task) :: r.task != task
  {
    if rows != [] { DropTaskFacts(rows[..|rows| - 1], task); }
  }

  lemma HasAfterAppend(rows: seq<SubtaskRow>, more: seq<SubtaskRow>, task: string, id: string)
    ensures HasSubtask(rows + more, task, id) <==> HasSubtask(rows, task, id) || HasSubtask(more, task, id)
  {
    var all := rows + more;
    if HasSubtask(rows, task, id) {
      var i :| 0 <= i < |rows| && rows[i].task == task && rows[i].subtaskId == id;
      assert all[i] == rows[i];
    }
    if HasSubtask(more, task, id) {
      var i :| 0 <= i < |more| && more[i].task == task && more[i].subtaskId == id;
      assert all[|rows| + i] == more[i];
    }
  }

  lemma NewRowsHave(task: string, es: seq<Emission>, from: nat, cycle: int, kind: string, id: string)
    ensures HasSubtask(NewRows(task, es, from, cycle, kind), task, id) <==> id in EmissionIds(es)
  {
    var r := NewRows(task, es, from, cycle, kind);
    if id in EmissionIds(es) {
      var i :| 0 <= i < |es| && EmissionIds(es)[i] == id;
      assert r[i].task == task && r[i].subtaskId == id;
    }
    if HasSubtask(r, task, id) {
      var i :| 0 <= i < |r| && r[i].task == task && r[i].subtaskId == id;
      assert EmissionIds(es)[i] == id;
    }
  }

  /** Inserting one more row succeeds exactly when its id is new among the task's rows. */
  lemma NextInsert(base: seq<SubtaskRow>, task: string, es: seq<Emission>, i: nat, from: nat, cycle: int, kind: string)
    requires i < |es| && !HasSubtask(base, task, es[i].subtaskId)
    requires Distinct(EmissionIds(es[..i]))
    ensures NewRows(task, es[..i + 1], from, cycle, kind) ==
            NewRows(task, es[..i], from, cycle, kind) + [NewRow(task, es[i], from + i, cycle, kind)]
    ensures HasSubtask(base + NewRows(task, es[..i], from, cycle, kind), task, es[i].subtaskId) ==>
              !Distinct(EmissionIds(es))
    ensures !HasSubtask(base + NewRows(task, es[..i], from, cycle, kind), task, es[i].subtaskId) ==>
              Distinct(EmissionIds(es[..i + 1]))
  {
    var id := es[i].subtaskId;
    HasAfterAppend(base, NewRows(task, es[..i], from, cycle, kind), task, id);
    NewRowsHave(task, es[..i], from, cycle, kind, id);
    assert EmissionIds(es[..i + 1]) == EmissionIds(es[..i]) + [id];
    if id in EmissionIds(es[..i]) {
      var k :| 0 <= k < i && EmissionIds(es[..i])[k] == id;
      assert EmissionIds(es)[k] == EmissionIds(es)[i];
    }
  }

  // ----- what the table functions keep -----

  /** The subtask ids a task has. */
  ghost function TaskIds(rows: seq<SubtaskRow>, task: string): set<string> {
    set r | r in rows && r.task == task :: r.subtaskId
  }

  lemma HasSubtaskIsListed(rows: seq<SubtaskRow>, task: string, id: string)
    ensures HasSubtask(rows, task, id) <==> id in TaskIds(rows, task)
  {
    if HasSubtask(rows, task, id) {
      var i :| 0 <= i < |rows| && rows[i].task == task && rows[i].subtaskId == id;
      assert rows[i] in rows;
    }
  }

  /** `picked` are the emissions, at the positions `at`, whose id the task lacks. */
  ghost predicate AreTheUnseen(es: seq<Emission>, rows: seq<SubtaskRow>, task: string, picked: seq<Emission>, at: seq<nat>) {
    Filters(es, (e: Emission) => e.subtaskId !in TaskIds(rows, task), picked, at)
  }

  lemma {:induction false} FreshAreTheUnseen(es: seq<Emission>, rows: seq<SubtaskRow>, task: string) returns (at: seq<nat>)
    ensures AreTheUnseen(es, rows, task, Fresh(es, rows, task), at)
  {
    if es == [] {
      at := [];
    } else {
      var n := |es| - 1;
      at := FreshAreTheUnseen(es[..n], rows, task);
      HasSubtaskIsListed(rows, task, es[n].subtaskId);
      FiltersNext(es[..n], (e: Emission) => e.subtaskId !in TaskIds(rows, task), Fresh(es[..n], rows, task), at, es[n]);
      assert es == es[..n] + [es[n]];
      assert Fresh(es[..n], rows, task) + [] == Fresh(es[..n], rows, task);
      if es[n].subtaskId !in TaskIds(rows, task) { at := at + [n]; }
    }
  }

  lemma {:induction false} TaskRowsAreTheTasks(rows: seq<SubtaskRow>, task: string) returns (at: seq<nat>)
    ensures Filters(rows, (r: SubtaskRow) => r.task == task, TaskRows(rows, task), at)
  {
    if rows == [] {
      at := [];
    } else {
      var n := |rows| - 1;
      at := TaskRowsAreTheTasks(rows[..n], task);
      FiltersNext(rows[..n], (r: SubtaskRow) => r.task == task, TaskRows(rows[..n], task), at, rows[n]);
      assert rows == rows[..n] + [rows[n]];
      assert TaskRows(rows[..n], task) + [] == TaskRows(rows[..n], task);
      if rows[n].task == task { at := at + [n]; }
    }
  }

  /** `after` are the rows, at the positions `at`, that are not the task's rows of that cycle. */
  ghost predicate LosesTheCycle(rows: seq<SubtaskRow>, task: string, cycle: int, after: seq<SubtaskRow>, at: seq<nat>) {
    Filters(rows, (r: SubtaskRow) => !(r.task == task && r.cycle == cycle), after, at)
  }

  /** Deleting a cycle leaves every other row, in order. */
  lemma {:induction false} DropCycleKeepsTheRest(rows: seq<SubtaskRow>, task: string, cycle: int) returns (at: seq<nat>)
    ensures LosesTheCycle(rows, task, cycle, DropCycle(rows, task, cycle), at)
  {
    if rows == [] {
      at := [];
    } else {
      var n := |rows| - 1;
      at := DropCycleKeepsTheRest(rows[..n], task, cycle);
      FiltersNext(rows[..n], (r: SubtaskRow) => !(r.task == task && r.cycle == cycle), DropCycle(rows[..n], task, cycle), at, rows[n]);
      assert rows == rows[..n] + [rows[n]];
      assert DropCycle(rows[..n], task, cycle) + [] == DropCycle(rows[..n], task, cycle);
      if !(rows[n].task == task && rows[n].cycle == cycle) { at := at + [n]; }
    }
  }

  /** `after` are the rows, at the positions `at`, of the other tasks. */
  ghost predicate LosesTheTask(rows: seq<SubtaskRow>, task: string, after: seq<SubtaskRow>, at: seq<nat>) {
    Filters(rows, (r: SubtaskRow) => r.task != task, after, at)
  }

  /** Deleting a task's rows leaves every other row, in order. */
  lemma {:induction false} DropTaskKeepsTheRest(rows: seq<SubtaskRow>, task: string) returns (at: seq<nat>)
    ensures LosesTheTask(rows, task, DropTask(rows, task), at)
  {
    if rows == [] {
      at := [];
    } else {
      var n := |rows| - 1;
      at := DropTaskKeepsTheRest(rows[..n], task);
      FiltersNext(rows[..n], (r: SubtaskRow) => r.task != task, DropTask(rows[..n], task), at, rows[n]);
      assert rows == rows[..n] + [rows[n]];
      assert DropTask(rows[..n], task) + [] == DropTask(rows[..n], task);
      if rows[n].task != task { at := at + [n]; }
    }
  }

  /** The default cycle of an append: 1 for a task without rows, else one past a row's cycle and past
      every row's. */
  lemma DefaultCycleIsNext(t: Table, task: string)
    ensures TaskIds(t.rows, task) == {} ==> EffectiveCycle(t, task, None) == 1
    ensures forall r | r in t.rows && r.task == task :: r.cycle < EffectiveCycle(t, task, None)
    ensures TaskIds(t.rows, task) != {} ==>
              exists r :: r in t.rows && r.task == task && r.cycle == EffectiveCycle(t, task, None) - 1
  {
    var mine := TaskRows(t.rows, task);
    forall r ensures r in mine <==> r in t.rows && r.task == task { InTaskRows(t.rows, task, r); }
    if mine != [] {
      MaxIsAttained(mine);
      var k :| 0 <= k < |mine| && mine[k].cycle == MaxCycle(mine);
      assert mine[k] in mine && mine[k].subtaskId in TaskIds(t.rows, task);
    }
  }

  lemma {:induction false} InTaskRows(rows: seq<SubtaskRow>, task: string, r: SubtaskRow)
    ensures r in TaskRows(rows, task) <==> r in rows && r.task == task
  {
    if rows != [] {
      assert rows == rows[..|rows| - 1] + [rows[|rows| - 1]];
      InTaskRows(rows[..|rows| - 1], task, r);
    }
  }

  lemma {:induction false} FreshAreNew(es: seq<Emission>, rows: seq<SubtaskRow>, task: string)
    ensures forall e | e in Fresh(es, rows, task) :: !HasSubtask(rows, task, e.subtaskId)
  {
    if es != [] { FreshAreNew(es[..|es| - 1], rows, task); }
  }

  // ----- the store -----

  /** No id the task lacks occurs twice. */
  ghost predicate NothingNewTwice(rows: seq<SubtaskRow>, task: string, es: seq<Emission>) {
    forall i, j | 0 <= i < j < |es| && es[i].subtaskId == es[j].subtaskId :: es[i].subtaskId in TaskIds(rows, task)
  }

  /** The rows added for the emissions at the positions `at`, in that order. */
  ghost predicate AddedAt(before: Table, task: string, es: seq<Emission>, cycle: int, kind: string, at: seq<nat>, after: Table) {
    after.nextId == before.nextId + |at| && |after.rows| == |before.rows| + |at| && before.rows <= after.rows &&
    forall k {:trigger at[k]} | 0 <= k < |at| ::
      at[k] < |es| && IsRowOf(after.rows[|before.rows| + k], es[at[k]], task, before.nextId + k, cycle, kind)
  }

  /** The emission's own cycle and kind win over the call's. */
  ghost predicate IsRowOf(r: SubtaskRow, e: Emission, task: string, rowid: nat, cycle: int, kind: string) {
    r.rowid == rowid && r.task == task && r.subtaskId == e.subtaskId &&
    r.cycle == (if e.cycle.Some? then e.cycle.value else cycle) && r.kind == (if e.kind.Some? then e.kind.value else kind)
  }

  /** The task's rows are replaced by one row per emission, in order, behind the other tasks' rows. */
  ghost predicate ReplacesTheTask(before: Table, task: string, es: seq<Emission>, cycle: int, kind: string, after: Table) {
    exists others, at ::
      LosesTheTask(before.rows, task, others, at) && |after.rows| == |others| + |es| && others <= after.rows &&
      after.nextId == before.nextId + |es| &&
      forall k {:trigger es[k]} | 0 <= k < |es| ::
        IsRowOf(after.rows[|others| + k], es[k], task, before.nextId + k, cycle, kind)
  }

  lemma UpsertReplaces(t: Table, task: string, es: seq<Emission>, cycle: int, kind: string)
    ensures Distinct(EmissionIds(es)) ==> ReplacesTheTask(t, task, es, cycle, kind, Upserted(t, task, es, cycle, kind))
  {
    if Distinct(EmissionIds(es)) {
      var others := DropTask(t.rows, task);
      var at := DropTaskKeepsTheRest(t.rows, task);
      forall k {:trigger es[k]} | 0 <= k < |es|
        ensures IsRowOf(Upserted(t, task, es, cycle, kind).rows[|others| + k], es[k], task, t.nextId + k, cycle, kind)
      {
        NewRowIs(others, task, es, t.nextId, cycle, kind, k);
      }
      assert LosesTheTask(t.rows, task, others, at);
    }
  }

  /** Exactly the emissions whose id the task lacks are added, in their order. */
  ghost predicate AddsTheUnseen(before: Table, task: string, es: seq<Emission>, cycle: int, kind: string, after: Table) {
    exists picked, at ::
      AreTheUnseen(es, before.rows, task, picked, at) && AddedAt(before, task, es, cycle, kind, at, after)
  }

  lemma PickedDiffer(t: Table, task: string, es: seq<Emission>, at: seq<nat>, i: nat, j: nat)
    requires AreTheUnseen(es, t.rows, task, Fresh(es, t.rows, task), at)
    requires Distinct(EmissionIds(Fresh(es, t.rows, task))) && i < j < |es|
    ensures i in at && j in at ==> es[i].subtaskId != es[j].subtaskId
  {
    if i in at && j in at {
      var ids := EmissionIds(Fresh(es, t.rows, task));
      var k :| 0 <= k < |at| && at[k] == i;
      var l :| 0 <= l < |at| && at[l] == j;
      FiltersRise(es, (e: Emission) => e.subtaskId !in TaskIds(t.rows, task), Fresh(es, t.rows, task), at, k, l);
      assert ids[k] == es[i].subtaskId && ids[l] == es[j].subtaskId;
    }
  }

  lemma FreshDistinctIff(t: Table, task: string, es: seq<Emission>, at: seq<nat>)
    requires AreTheUnseen(es, t.rows, task, Fresh(es, t.rows, task), at)
    ensures Distinct(EmissionIds(Fresh(es, t.rows, task))) <==> NothingNewTwice(t.rows, task, es)
  {
    var ids := EmissionIds(Fresh(es, t.rows, task));
    if Distinct(ids) {
      forall i, j | 0 <= i < j < |es| && es[i].subtaskId == es[j].subtaskId ensures es[i].subtaskId in TaskIds(t.rows, task) {
        PickedDiffer(t, task, es, at, i, j);
      }
    }
    if NothingNewTwice(t.rows, task, es) {
      forall k, l | 0 <= k < l < |ids| ensures ids[k] != ids[l] {
        assert at[k] in at;
        assert at[k] < at[l];
      }
    }
  }

  /** An append succeeds exactly when no id the task lacks occurs twice, and then adds exactly the
      emissions the task lacks. */
  lemma AppendAddsTheUnseen(t: Table, task: string, es: seq<Emission>, cycle: Option<int>, kind: string)
    ensures Distinct(EmissionIds(Fresh(es, t.rows, task))) <==> NothingNewTwice(t.rows, task, es)
    ensures var after := Appended(t, task, es, cycle, kind);
            if NothingNewTwice(t.rows, task, es) then AddsTheUnseen(t, task, es, EffectiveCycle(t, task, cycle), kind, after)
            else after == t
  {
    var at := FreshAreTheUnseen(es, t.rows, task);
    FreshDistinctIff(t, task, es, at);
    if NothingNewTwice(t.rows, task, es) {
      FreshRowsAdded(t, task, es, EffectiveCycle(t, task, cycle), kind, at, Appended(t, task, es, cycle, kind));
    }
  }

  lemma FreshRowsAdded(t: Table, task: string, es: seq<Emission>, cycle: int, kind: string, at: seq<nat>, after: Table)
    requires AreTheUnseen(es, t.rows, task, Fresh(es, t.rows, task), at)
    requires after.rows == t.rows + NewRows(task, Fresh(es, t.rows, task), t.nextId, cycle, kind)
    requires after.nextId == t.nextId + |Fresh(es, t.rows, task)|
    ensures AddsTheUnseen(t, task, es, cycle, kind, after)
  {
    var unseen := Fresh(es, t.rows, task);
    forall k {:trigger at[k]} | 0 <= k < |at|
      ensures at[k] < |es| && IsRowOf(after.rows[|t.rows| + k], es[at[k]], task, t.nextId + k, cycle, kind)
    {
      assert unseen[k] == es[at[k]];
      NewRowIs(t.rows, task, unseen, t.nextId, cycle, kind, k);
    }
    assert AddedAt(t, task, es, cycle, kind, at, after);
  }

  lemma NewRowIs(base: seq<SubtaskRow>, task: string, es: seq<Emission>, from: nat, cycle: int, kind: string, k: nat)
    requires k < |es|
    ensures IsRowOf((base + NewRows(task, es, from, cycle, kind))[|base| + k], es[k], task, from + k, cycle, kind)
  {
  }

  /** So afterwards the task has the ids it had and the emitted ones. */
  lemma AddedIds(before: Table, task: string, es: seq<Emission>, cycle: int, kind: string, after: Table)
    requires AddsTheUnseen(before, task, es, cycle, kind, after)
    ensures TaskIds(after.rows, task) == TaskIds(before.rows, task) + Elements(EmissionIds(es))
  {
    var picked, at :| AreTheUnseen(es, before.rows, task, picked, at) && AddedAt(before, task, es, cycle, kind, at, after);
    forall r | r in after.rows && r.task == task ensures r.subtaskId in TaskIds(before.rows, task) || r.subtaskId in EmissionIds(es) {
      RowIsOldOrEmitted(before, task, es, cycle, kind, at, after, r);
    }
    forall r | r in before.rows && r.task == task ensures r.subtaskId in TaskIds(after.rows, task) { assert r in after.rows; }
    forall i: nat | i < |es| ensures es[i].subtaskId in TaskIds(after.rows, task) {
      EmittedIsThere(before, task, es, cycle, kind, picked, at, after, i);
    }
  }

  lemma RowIsOldOrEmitted(before: Table, task: string, es: seq<Emission>, cycle: int, kind: string, at: seq<nat>,
                          after: Table, r: SubtaskRow)
    requires AddedAt(before, task, es, cycle, kind, at, after) && r in after.rows && r.task == task
    ensures r.subtaskId in TaskIds(before.rows, task) || r.subtaskId in EmissionIds(es)
  {
    var n := |before.rows|;
    var i :| 0 <= i < |after.rows| && after.rows[i] == r;
    if i < n {
      assert r == before.rows[i];
    } else {
      var k := i - n;
      assert at[k] < |es| && IsRowOf(after.rows[n + k], es[at[k]], task, before.nextId + k, cycle, kind);
      assert EmissionIds(es)[at[k]] == r.subtaskId;
    }
  }

  lemma EmittedIsThere(before: Table, task: string, es: seq<Emission>, cycle: int, kind: string, picked: seq<Emission>,
                       at: seq<nat>, after: Table, i: nat)
    requires AreTheUnseen(es, before.rows, task, picked, at) && AddedAt(before, task, es, cycle, kind, at, after)
    requires i < |es|
    ensures es[i].subtaskId in TaskIds(after.rows, task)
  {
    if es[i].subtaskId in TaskIds(before.rows, task) {
      var r :| r in before.rows && r.task == task && r.subtaskId == es[i].subtaskId;
      assert r in after.rows;
    } else {
      assert i in at;
      var k :| 0 <= k < |at| && at[k] == i;
      assert IsRowOf(after.rows[|before.rows| + k], es[at[k]], task, before.nextId + k, cycle, kind);
      assert after.rows[|before.rows| + k] in after.rows;
    }
  }

  ghost predicate IsFirstOfCycle(r: seq<SubtaskRow>, cycle: int, i: int) {
    0 <= i < |r| && r[i].cycle == cycle && forall j | 0 <= j < i :: r[j].cycle != cycle
  }

  class SubtaskStore {
    var rows: seq<SubtaskRow>
    var nextId: nat

    function Contents(): Table
      reads this
    {
      Table(rows, nextId)
    }

    /** The insert loop inside a transaction: a violated UNIQUE(task_id, subtask_id) rolls the
        whole transaction back to `saved`. */
    method InsertAll(task: string, es: seq<Emission>, cycle: int, kind: string, saved: Table) returns (ok: bool)
      requires forall e | e in es :: !HasSubtask(rows, task, e.subtaskId)
      modifies this
      ensures ok <==> Distinct(EmissionIds(es))
      ensures Contents() == if ok then Table(old(rows) + NewRows(task, es, old(nextId), cycle, kind), old(nextId) + |es|)
                            else saved
    {
      ghost var base, from := rows, nextId;
      assert base + NewRows(task, es[..0], from, cycle, kind) == base;
      for i := 0 to |es|
        invariant Distinct(EmissionIds(es[..i]))
        invariant rows == base + NewRows(task, es[..i], from, cycle, kind) && nextId == from + i
      {
        NextInsert(base, task, es, i, from, cycle, kind);
        if HasSubtask(rows, task, es[i].subtaskId) {
          rows, nextId := saved.rows, saved.nextId;
          return false;
        }
        rows := rows + [NewRow(task, es[i], nextId, cycle, kind)];
        nextId := nextId + 1;
      }
      assert es[..|es|] == es;
      return true;
    }

    method UpsertSubtasks(task: string, es: seq<Emission>, cycle: int, kind: string) returns (ok: bool)
      modifies this
      ensures ok <==> Distinct(EmissionIds(es))
      ensures Contents() == Upserted(old(Contents()), task, es, cycle, kind)
      ensures !ok ==> Contents() == old(Contents())
      ensures ok ==> ReplacesTheTask(old(Contents()), task, es, cycle, kind, Contents())
    {
      var saved := Contents();
      DropTaskFacts(rows, task);
      UpsertReplaces(saved, task, es, cycle, kind);
      rows := DropTask(rows, task);
      ok := InsertAll(task, es, cycle, kind, saved);
    }

    /** Known ids are read once, before the loop. */
    method AppendSubtasks(task: string, es: seq<Emission>, cycle: Option<int>, kind: string) returns (ok: bool)
      modifies this
      ensures ok <==> NothingNewTwice(old(rows), task, es)
      ensures Contents() == Appended(old(Contents()), task, es, cycle, kind)
      ensures !ok ==> Contents() == old(Contents())
      ensures ok ==> AddsTheUnseen(old(Contents()), task, es, EffectiveCycle(old(Contents()), task, cycle), kind, Contents())
      ensures ok ==> TaskIds(rows, task) == TaskIds(old(rows), task) + Elements(EmissionIds(es))
    {
      var saved := Contents();
      var effective := EffectiveCycle(saved, task, cycle);
      FreshAreNew(es, rows, task);
      AppendAddsTheUnseen(saved, task, es, cycle, kind);
      ok := InsertAll(task, Fresh(es, rows, task), effective, kind, saved);
      if ok { AddedIds(saved, task, es, effective, kind, Contents()); }
    }

    method DeleteSubtasksInCycle(task: string, cycle: int) returns (deleted: nat)
      modifies this
      ensures Contents() == CycleDropped(old(Contents()), task, cycle)
      ensures exists at :: LosesTheCycle(old(rows), task, cycle, rows, at)
      ensures deleted == |old(rows)| - |rows|
    {
      DropShrinks(rows, task, cycle);
      ghost var at := DropCycleKeepsTheRest(rows, task, cycle);
      var kept := DropCycle(rows, task, cycle);
      deleted := |rows| - |kept|;
      rows := kept;
    }

    /** The largest cycle and the kind of its first row; `(0, None)` without rows. */
    method LatestPlanningCycle(task: string) returns (cycle: int, kind: Option<string>)
      ensures TaskRows(rows, task) == [] ==> cycle == 0 && kind == None
      ensures TaskRows(rows, task) != [] ==>
                cycle == MaxCycle(TaskRows(rows, task)) &&
                exists i :: IsFirstOfCycle(TaskRows(rows, task), cycle, i) && kind == Some(TaskRows(rows, task)[i].kind)
    {
      var mine := TaskRows(rows, task);
      if mine == [] { return 0, None; }
      cycle := MaxCycle(mine);
      MaxIsAttained(mine);
      var i := 0;
      while mine[i].cycle != cycle
        invariant 0 <= i < |mine| && forall j | 0 <= j < i :: mine[j].cycle != cycle
        decreases |mine| - i
      {
        i := i + 1;
      }
      assert IsFirstOfCycle(mine, cycle, i);
      kind := Some(mine[i].kind);
    }
  }

  lemma {:induction false} DropShrinks(rows: seq<SubtaskRow>, task: string, cycle: int)
    ensures |DropCycle(rows, task, cycle)| <= |rows|
  {
    if rows != [] { DropShrinks(rows[..|rows| - 1], task, cycle); }
  }

  lemma {:induction false} MaxIsAttained(rows: seq<SubtaskRow>)
    requires rows != []
    ensures exists i :: 0 <= i < |rows| && rows[i].cycle == MaxCycle(rows)
    ensures forall i | 0 <= i < |rows| :: rows[i].cycle <= MaxCycle(rows)
  {
    var n := |rows| - 1;
    if n > 0 {
      MaxIsAttained(rows[..n]);
      var i :| 0 <= i < n && rows[..n][i].cycle == MaxCycle(rows[..n]);
      assert rows[i].cycle == MaxCycle(rows[..n]);
      forall j | 0 <= j < |rows| ensures rows[j].cycle <= MaxCycle(rows) {
        if j < n { assert rows[..n][j] == rows[j]; }
      }
      assert rows[n].cycle == MaxCycle(rows) || rows[i].cycle == MaxCycle(rows);
    } else {
      assert rows[0].cycle == MaxCycle(rows);
    }
  }

  // ----- cycles of one task -----

  /** Cycles never fall along the rows, are exactly lo..MAX, and each has one kind. */
  ghost predicate CycledFrom(r: seq<SubtaskRow>, lo: int) {
    Ascending(r) && (forall i | 0 <= i < |r| :: lo <= r[i].cycle) &&
    (forall c | lo <= c <= MaxCycle(r) :: HasCycleRow(r, c)) &&
    (forall i: nat, j: nat {:trigger KindsAgree(r, i, j)} | i < |r| && j < |r| :: KindsAgree(r, i, j))
  }

  ghost predicate Ascending(r: seq<SubtaskRow>) {
    forall i: nat, j: nat {:trigger InOrder(r, i, j)} | i < j < |r| :: InOrder(r, i, j)
  }

  ghost predicate InOrder(r: seq<SubtaskRow>, i: nat, j: nat)
    requires i < j < |r|
  {
    r[i].cycle <= r[j].cycle
  }

  ghost predicate KindsAgree(r: seq<SubtaskRow>, i: nat, j: nat)
    requires i < |r| && j < |r|
  {
    r[i].cycle == r[j].cycle ==> r[i].kind == r[j].kind
  }

  /** The cycles are exactly 1..MAX. */
  ghost predicate WellCycled(r: seq<SubtaskRow>) {
    CycledFrom(r, 1)
  }

  ghost predicate HasCycleRow(r: seq<SubtaskRow>, c: int) {
    exists i :: 0 <= i < |r| && r[i].cycle == c
  }

  lemma LastIsMax(r: seq<SubtaskRow>)
    requires r != [] && Ascending(r)
    ensures MaxCycle(r) == r[|r| - 1].cycle
  {
    MaxIsAttained(r);
    var i :| 0 <= i < |r| && r[i].cycle == MaxCycle(r);
    if i < |r| - 1 { assert InOrder(r, i, |r| - 1); }
  }

  /** All rows of `more` share one cycle and one kind. */
  ghost predicate Uniform(more: seq<SubtaskRow>, cycle: int, kind: string) {
    forall i | 0 <= i < |more| :: more[i].cycle == cycle && more[i].kind == kind
  }

  /** The cycle and kind new rows may have: the first one of an empty list, then the next one, or
      the latest one with the kind that cycle has. */
  ghost predicate MayFollow(r: seq<SubtaskRow>, lo: int, cycle: int, kind: string) {
    if r == [] then cycle == lo
    else cycle == MaxCycle(r) + 1 || (cycle == MaxCycle(r) && kind == r[|r| - 1].kind)
  }

  /** Adding rows of one cycle and kind keeps the shape exactly when nothing is added or they may
      follow. */
  lemma ExtendIff(r: seq<SubtaskRow>, lo: int, more: seq<SubtaskRow>, cycle: int, kind: string)
    requires lo >= 1 && CycledFrom(r, lo) && Uniform(more, cycle, kind)
    ensures CycledFrom(r + more, lo) <==> more == [] || MayFollow(r, lo, cycle, kind)
  {
    if more == [] {
      assert r + more == r;
    } else {
      if CycledFrom(r + more, lo) { ExtendOnlyIf(r, lo, more, cycle, kind); }
      if MayFollow(r, lo, cycle, kind) { ExtendIf(r, lo, more, cycle, kind); }
    }
  }

  lemma ExtendOnlyIf(r: seq<SubtaskRow>, lo: int, more: seq<SubtaskRow>, cycle: int, kind: string)
    requires lo >= 1 && CycledFrom(r, lo) && Uniform(more, cycle, kind) && more != [] && CycledFrom(r + more, lo)
    ensures MayFollow(r, lo, cycle, kind)
  {
    var all := r + more;
    LastIsMax(all);
    assert all[|all| - 1] == more[|more| - 1];
    assert all[|r|] == more[0];
    if r == [] {
      assert all == more;
      assert HasCycleRow(all, lo);
    } else {
      LastIsMax(r);
      MaxIsAttained(r);
      assert all[|r| - 1] == r[|r| - 1];
      assert KindsAgree(all, |r| - 1, |r|) && InOrder(all, |r| - 1, |r|);
      if cycle > MaxCycle(r) {
        assert HasCycleRow(all, MaxCycle(r) + 1);
        var i :| 0 <= i < |all| && all[i].cycle == MaxCycle(r) + 1;
        assert forall k | 0 <= k < |r| :: all[k] == r[k];
        assert i >= |r|;
        assert all[i] == more[i - |r|];
      }
    }
  }

  lemma ExtendIf(r: seq<SubtaskRow>, lo: int, more: seq<SubtaskRow>, cycle: int, kind: string)
    requires lo >= 1 && CycledFrom(r, lo) && Uniform(more, cycle, kind) && more != []
    requires MayFollow(r, lo, cycle, kind)
    ensures CycledFrom(r + more, lo)
  {
    var all := r + more;
    if r != [] { LastIsMax(r); MaxIsAttained(r); }
    forall i | 0 <= i < |all|
      ensures all[i] == if i < |r| then r[i] else more[i - |r|]
      ensures i < |r| ==> lo <= all[i].cycle <= MaxCycle(r)
      ensures i >= |r| ==> all[i].cycle == cycle && all[i].kind == kind {
    }
    forall i: nat, j: nat {:trigger InOrder(all, i, j)} | i < j < |all| ensures InOrder(all, i, j) {
      if j < |r| { assert InOrder(r, i, j); }
    }
    LastIsMax(all);
    forall c | lo <= c <= MaxCycle(all) ensures HasCycleRow(all, c) { ExtendedHasRow(r, lo, more, cycle, kind, c); }
    forall i: nat, j: nat {:trigger KindsAgree(all, i, j)} | i < |all| && j < |all| ensures KindsAgree(all, i, j) {
      var a, b := if i < |r| then i else |r| - 1, if j < |r| then j else |r| - 1;
      if r != [] { assert KindsAgree(r, a, b); }
    }
  }

  lemma ExtendedHasRow(r: seq<SubtaskRow>, lo: int, more: seq<SubtaskRow>, cycle: int, kind: string, c: int)
    requires CycledFrom(r, lo) && Uniform(more, cycle, kind) && more != []
    requires lo <= c && (c <= MaxCycle(r) || c == cycle)
    ensures HasCycleRow(r + more, c)
  {
    var all := r + more;
    if c <= MaxCycle(r) {
      assert HasCycleRow(r, c);
      var i :| 0 <= i < |r| && r[i].cycle == c;
      assert all[i].cycle == c;
    } else {
      assert all[|r|] == more[0];
    }
  }

  /** The rows of one task without one cycle. */
  function WithoutCycle(r: seq<SubtaskRow>, c: int): seq<SubtaskRow> {
    if r == [] then []
    else
      var n := |r| - 1;
      WithoutCycle(r[..n], c) + if r[n].cycle == c then [] else [r[n]]
  }

  lemma {:induction false} NothingToDrop(r: seq<SubtaskRow>, c: int)
    requires forall i | 0 <= i < |r| :: r[i].cycle != c
    ensures WithoutCycle(r, c) == r
  {
    if r != [] { NothingToDrop(r[..|r| - 1], c); }
  }

  /** Dropping the latest cycle cuts the rows back to a prefix. */
  lemma {:induction false} DropLatestIsPrefix(r: seq<SubtaskRow>, lo: int) returns (k: nat)
    requires CycledFrom(r, lo) && r != []
    ensures k < |r| && WithoutCycle(r, MaxCycle(r)) == r[..k] && EarlierRows(r, k)
  {
    LastIsMax(r);
    k := PrefixBelow(r, MaxCycle(r));
  }

  /** The first `k` rows are exactly those of the cycles before the latest. */
  ghost predicate EarlierRows(r: seq<SubtaskRow>, k: int) {
    0 <= k <= |r| && forall i | 0 <= i < |r| :: i < k <==> r[i].cycle < MaxCycle(r)
  }

  lemma {:induction false} PrefixBelow(r: seq<SubtaskRow>, c: int) returns (k: nat)
    requires r != [] && r[|r| - 1].cycle == c && Ascending(r)
    ensures k < |r| && WithoutCycle(r, c) == r[..k]
    ensures forall i | 0 <= i < |r| :: i < k <==> r[i].cycle < c
  {
    var n := |r| - 1;
    if n > 0 && r[n - 1].cycle == c {
      PrefixAscending(r, n);
      k := PrefixBelow(r[..n], c);
      assert r[..n][..k] == r[..k];
      forall i | 0 <= i < |r| ensures i < k <==> r[i].cycle < c {
        if i < n { assert r[..n][i] == r[i]; }
      }
    } else {
      k := n;
      forall i | 0 <= i < n ensures r[i].cycle < c { BelowLast(r, i, c); }
      NothingToDrop(r[..n], c);
    }
  }

  lemma BelowLast(r: seq<SubtaskRow>, i: nat, c: int)
    requires Ascending(r) && i < |r| - 1 && r[|r| - 1].cycle == c && r[|r| - 2].cycle != c
    ensures r[i].cycle < c
  {
    var n := |r| - 1;
    assert InOrder(r, n - 1, n);
    if i < n - 1 { assert InOrder(r, i, n - 1); }
  }

  lemma PrefixAscending(r: seq<SubtaskRow>, k: nat)
    requires Ascending(r) && k <= |r|
    ensures Ascending(r[..k])
  {
    forall i: nat, j: nat {:trigger InOrder(r[..k], i, j)} | i < j < k ensures InOrder(r[..k], i, j) {
      assert InOrder(r, i, j);
    }
  }

  lemma PrefixCycled(r: seq<SubtaskRow>, lo: int, k: nat)
    requires lo >= 1 && CycledFrom(r, lo) && k <= |r|
    ensures CycledFrom(r[..k], lo)
  {
    var p := r[..k];
    forall i: nat, j: nat {:trigger KindsAgree(p, i, j)} | i < k && j < k ensures KindsAgree(p, i, j) {
      assert KindsAgree(r, i, j);
    }
    PrefixAscending(r, k);
    if k > 0 {
      LastIsMax(p);
      LastIsMax(r);
      if k < |r| { assert InOrder(r, k - 1, |r| - 1); }
      forall c | lo <= c <= MaxCycle(p) ensures HasCycleRow(p, c) {
        assert HasCycleRow(r, c);
        var i :| 0 <= i < |r| && r[i].cycle == c;
        if i < k {
          assert p[i].cycle == c;
        } else {
          assert i == k - 1 || InOrder(r, k - 1, i);
          assert p[k - 1].cycle == c;
        }
      }
    }
  }

  /** Dropping a cycle keeps the shape exactly when it is not one before the latest. */
  lemma DropIff(r: seq<SubtaskRow>, lo: int, c: int)
    requires lo >= 1 && CycledFrom(r, lo)
    ensures CycledFrom(WithoutCycle(r, c), lo) <==> !(lo <= c < MaxCycle(r))
  {
    if r == [] || c < lo || c > MaxCycle(r) {
      if r != [] { MaxIsAttained(r); }
      NothingToDrop(r, c);
    } else if c == MaxCycle(r) {
      var k := DropLatestIsPrefix(r, lo);
      PrefixCycled(r, lo, k);
    } else {
      LastIsMax(r);
      DropKeepsOthers(r, c);
      var w := WithoutCycle(r, c);
      MaxIsAttained(w);
      assert MaxCycle(w) >= MaxCycle(r);
      assert !HasCycleRow(w, c);
    }
  }

  lemma {:induction false} DropKeepsOthers(r: seq<SubtaskRow>, c: int)
    ensures forall i | 0 <= i < |WithoutCycle(r, c)| :: WithoutCycle(r, c)[i].cycle != c
    ensures r != [] && r[|r| - 1].cycle != c ==>
              WithoutCycle(r, c) != [] && WithoutCycle(r, c)[|WithoutCycle(r, c)| - 1] == r[|r| - 1]
  {
    if r != [] { DropKeepsOthers(r[..|r| - 1], c); }
  }

  // ----- from one task to the table -----

  lemma {:induction false} TaskRowsAppend(a: seq<SubtaskRow>, b: seq<SubtaskRow>, task: string)
    ensures TaskRows(a + b, task) == TaskRows(a, task) + TaskRows(b, task)
  {
    if b == [] {
      assert a + b == a;
    } else {
      var n := |b| - 1;
      assert (a + b)[..|a + b| - 1] == a + b[..n];
      TaskRowsAppend(a, b[..n], task);
    }
  }

  lemma {:induction false} TaskRowsOfNew(task: string, other: string, es: seq<Emission>, from: nat, cycle: int, kind: string)
    ensures TaskRows(NewRows(task, es, from, cycle, kind), other) ==
            if other == task then NewRows(task, es, from, cycle, kind) else []
  {
    if es != [] {
      var n := |es| - 1;
      var rows := NewRows(task, es, from, cycle, kind);
      assert rows[..n] == NewRows(task, es[..n], from, cycle, kind);
      TaskRowsOfNew(task, other, es[..n], from, cycle, kind);
      assert rows == rows[..n] + [rows[n]];
    }
  }

  lemma TaskRowsOne(row: SubtaskRow, task: string)
    ensures TaskRows([row], task) == if row.task == task then [row] else []
  {
    assert [row][..0] == [];
  }

  lemma {:induction false} TaskRowsAfterDropTask(rows: seq<SubtaskRow>, task: string, other: string)
    ensures TaskRows(DropTask(rows, task), other) == if other == task then [] else TaskRows(rows, other)
  {
    if rows != [] {
      var n := |rows| - 1;
      var init, last := DropTask(rows[..n], task), rows[n];
      TaskRowsAfterDropTask(rows[..n], task, other);
      TaskRowsOne(last, other);
      if last.task == task {
        assert DropTask(rows, task) == init;
      } else {
        assert DropTask(rows, task) == init + [last];
        TaskRowsAppend(init, [last], other);
      }
    }
  }

  lemma {:induction false} TaskRowsAfterDropCycle(rows: seq<SubtaskRow>, task: string, cycle: int, other: string)
    ensures TaskRows(DropCycle(rows, task, cycle), other) ==
            if other == task then WithoutCycle(TaskRows(rows, task), cycle) else TaskRows(rows, other)
  {
    if rows != [] {
      var n := |rows| - 1;
      var init, last, mine := DropCycle(rows[..n], task, cycle), rows[n], TaskRows(rows[..n], task);
      TaskRowsAfterDropCycle(rows[..n], task, cycle, other);
      TaskRowsOne(last, other);
      assert (mine + [last])[..|mine|] == mine;
      if last.task == task && last.cycle == cycle {
        assert DropCycle(rows, task, cycle) == init;
      } else {
        assert DropCycle(rows, task, cycle) == init + [last];
        TaskRowsAppend(init, [last], other);
      }
      if last.task == task {
        assert TaskRows(rows, task) == mine + [last];
      } else {
        assert TaskRows(rows, task) == mine;
      }
    }
  }

  /** No emission carries its own cycle or kind. */
  ghost predicate Plain(es: seq<Emission>) {
    forall i | 0 <= i < |es| :: es[i].cycle.None? && es[i].kind.None?
  }

  lemma {:induction false} FreshIsPlain(es: seq<Emission>, rows: seq<SubtaskRow>, task: string)
    requires Plain(es)
    ensures Plain(Fresh(es, rows, task))
  {
    if es != [] { FreshIsPlain(es[..|es| - 1], rows, task); }
  }

  /** Appending at the default cycle: the task's rows gain the unseen subtasks at the next cycle, and
      no other task's rows change. */
  lemma AppendRows(t: Table, task: string, other: string, es: seq<Emission>, cycle: Option<int>, kind: string)
    requires Distinct(EmissionIds(Fresh(es, t.rows, task)))
    ensures TaskRows(Appended(t, task, es, cycle, kind).rows, other) ==
            TaskRows(t.rows, other) +
            if other == task then NewRows(task, Fresh(es, t.rows, task), t.nextId, EffectiveCycle(t, task, cycle), kind) else []
  {
    var added := NewRows(task, Fresh(es, t.rows, task), t.nextId, EffectiveCycle(t, task, cycle), kind);
    TaskRowsAppend(t.rows, added, other);
    TaskRowsOfNew(task, other, Fresh(es, t.rows, task), t.nextId, EffectiveCycle(t, task, cycle), kind);
  }

  lemma UpsertRows(t: Table, task: string, other: string, es: seq<Emission>, cycle: int, kind: string)
    requires Distinct(EmissionIds(es))
    ensures TaskRows(Upserted(t, task, es, cycle, kind).rows, other) ==
            if other == task then NewRows(task, es, t.nextId, cycle, kind) else TaskRows(t.rows, other)
  {
    TaskRowsAppend(DropTask(t.rows, task), NewRows(task, es, t.nextId, cycle, kind), other);
    TaskRowsAfterDropTask(t.rows, task, other);
    TaskRowsOfNew(task, other, es, t.nextId, cycle, kind);
  }

  /** Appending keeps the shape exactly when nothing new is appended or the cycle may follow; the
      default cycle does, but for an empty task whose cycles are to start later. */
  lemma AppendKeepsCyclesIff(t: Table, task: string, lo: int, es: seq<Emission>, cycle: Option<int>, kind: string)
    requires lo >= 1 && CycledFrom(TaskRows(t.rows, task), lo) && Plain(es) && Distinct(EmissionIds(Fresh(es, t.rows, task)))
    ensures CycledFrom(TaskRows(Appended(t, task, es, cycle, kind).rows, task), lo) <==>
            Fresh(es, t.rows, task) == [] || MayFollow(TaskRows(t.rows, task), lo, EffectiveCycle(t, task, cycle), kind)
  {
    var unseen, c := Fresh(es, t.rows, task), EffectiveCycle(t, task, cycle);
    FreshIsPlain(es, t.rows, task);
    AppendOwnRows(t, task, es, cycle, kind);
    PlainRowsAreUniform(task, unseen, t.nextId, c, kind);
    ExtendedIff(TaskRows(t.rows, task), lo, NewRows(task, unseen, t.nextId, c, kind), c, kind,
                TaskRows(Appended(t, task, es, cycle, kind).rows, task));
  }

  lemma AppendOwnRows(t: Table, task: string, es: seq<Emission>, cycle: Option<int>, kind: string)
    requires Distinct(EmissionIds(Fresh(es, t.rows, task)))
    ensures TaskRows(Appended(t, task, es, cycle, kind).rows, task) ==
            TaskRows(t.rows, task) + NewRows(task, Fresh(es, t.rows, task), t.nextId, EffectiveCycle(t, task, cycle), kind)
  {
    AppendRows(t, task, task, es, cycle, kind);
  }

  lemma PlainRowsAreUniform(task: string, es: seq<Emission>, from: nat, cycle: int, kind: string)
    requires Plain(es)
    ensures Uniform(NewRows(task, es, from, cycle, kind), cycle, kind)
  {
  }

  lemma ExtendedIff(r: seq<SubtaskRow>, lo: int, more: seq<SubtaskRow>, cycle: int, kind: string, all: seq<SubtaskRow>)
    requires lo >= 1 && CycledFrom(r, lo) && Uniform(more, cycle, kind) && all == r + more
    ensures CycledFrom(all, lo) <==> |more| == 0 || MayFollow(r, lo, cycle, kind)
  {
    ExtendIff(r, lo, more, cycle, kind);
  }

  /** Replacing a task's subtasks leaves cycles lo..MAX exactly when the list is empty or the cycle
      is lo. */
  lemma UpsertKeepsCyclesIff(t: Table, task: string, lo: int, es: seq<Emission>, cycle: int, kind: string)
    requires lo >= 1 && Plain(es) && Distinct(EmissionIds(es))
    ensures CycledFrom(TaskRows(Upserted(t, task, es, cycle, kind).rows, task), lo) <==> es == [] || cycle == lo
  {
    UpsertRows(t, task, task, es, cycle, kind);
    FirstEmission(NewRows(task, es, t.nextId, cycle, kind), lo, cycle, kind);
  }

  lemma FirstEmission(added: seq<SubtaskRow>, lo: int, cycle: int, kind: string)
    requires lo >= 1 && Uniform(added, cycle, kind)
    ensures CycledFrom(added, lo) <==> added == [] || cycle == lo
  {
    assert CycledFrom([], lo) && MaxCycle([]) == 0;
    ExtendIff([], lo, added, cycle, kind);
    assert [] + added == added;
  }

  lemma NoRowsNoCycle(r: seq<SubtaskRow>, lo: int)
    requires lo >= 1 && CycledFrom(r, lo)
    ensures MaxCycle(r) == 0 <==> r == []
    ensures r != [] ==> MaxCycle(r) >= r[0].cycle == lo
  {
    if r != [] {
      LastIsMax(r);
      assert HasCycleRow(r, lo);
      var i :| 0 <= i < |r| && r[i].cycle == lo;
      if i > 0 { assert InOrder(r, 0, i); }
    }
  }

  // ----- the writers -----

  /** Emissions without a cycle or kind of their own: what every caller builds. */
  function Bare(ids: seq<string>): (es: seq<Emission>)
    ensures |es| == |ids| && EmissionIds(es) == ids && forall i | 0 <= i < |es| :: es[i].cycle.None? && es[i].kind.None?
  {
    seq(|ids|, i requires 0 <= i < |ids| => Emission(ids[i], None, None))
  }

  /** The replan after an intent conflict stores its whole list one past the latest cycle. */
  ghost function IntentReplanned(t: Table, task: string, ids: seq<string>): Table {
    Upserted(t, task, Bare(ids), MaxCycle(TaskRows(t.rows, task)) + 1, "replan")
  }

  /** It leaves cycles 1..MAX exactly when its list is empty or the task had no rows. */
  lemma IntentReplanKeepsCyclesIff(t: Table, task: string, lo: int, ids: seq<string>)
    requires Distinct(ids) && lo >= 1 && CycledFrom(TaskRows(t.rows, task), lo)
    ensures WellCycled(TaskRows(IntentReplanned(t, task, ids).rows, task)) <==> ids == [] || TaskRows(t.rows, task) == []
  {
    UpsertKeepsCyclesIff(t, task, 1, Bare(ids), MaxCycle(TaskRows(t.rows, task)) + 1, "replan");
    NoRowsNoCycle(TaskRows(t.rows, task), lo);
  }

  lemma {:induction false} WithoutCycleRows(r: seq<SubtaskRow>, c: int, x: SubtaskRow)
    ensures x in WithoutCycle(r, c) <==> x in r && x.cycle != c
  {
    if r != [] {
      assert r == r[..|r| - 1] + [r[|r| - 1]];
      WithoutCycleRows(r[..|r| - 1], c, x);
    }
  }

  /** `qk replan-cycle` deletes the latest cycle N >= 2 and the next fixup round appends: it emits
      cycle N again exactly when the task has a row at cycle N - 1. In any table, every other row
      of the task stays, unchanged and in place, and so do the other tasks' rows. */
  lemma ReplanReemitsCycle(t: Table, task: string, es: seq<Emission>, kind: string, other: string)
    requires MaxCycle(TaskRows(t.rows, task)) >= 2
    ensures var r := TaskRows(t.rows, task);
            var n := MaxCycle(r);
            var dropped := CycleDropped(t, task, n);
            var unseen := Fresh(es, dropped.rows, task);
            var emitted := EffectiveCycle(dropped, task, None);
            && (emitted == n <==> HasCycleRow(r, n - 1))
            && (Distinct(EmissionIds(unseen)) ==>
                  TaskRows(Appended(dropped, task, es, None, kind).rows, other) ==
                  if other == task then WithoutCycle(r, n) + NewRows(task, unseen, t.nextId, emitted, kind)
                  else TaskRows(t.rows, other))
  {
    var r := TaskRows(t.rows, task);
    var n := MaxCycle(r);
    var dropped := CycleDropped(t, task, n);
    TaskRowsAfterDropCycle(t.rows, task, n, task);
    TaskRowsAfterDropCycle(t.rows, task, n, other);
    ReplanCycleIff(r);
    if Distinct(EmissionIds(Fresh(es, dropped.rows, task))) { AppendRows(dropped, task, other, es, None, kind); }
  }

  lemma ReplanCycleIff(r: seq<SubtaskRow>)
    requires MaxCycle(r) >= 2
    ensures MaxCycle(WithoutCycle(r, MaxCycle(r))) + 1 == MaxCycle(r) <==> HasCycleRow(r, MaxCycle(r) - 1)
  {
    var n := MaxCycle(r);
    var w := WithoutCycle(r, n);
    forall x ensures x in w <==> x in r && x.cycle != n { WithoutCycleRows(r, n, x); }
    MaxIsAttained(r);
    if w != [] {
      MaxIsAttained(w);
      var k :| 0 <= k < |w| && w[k].cycle == MaxCycle(w);
      assert w[k] in r && w[k].cycle <= n;
    }
    if i :| 0 <= i < |r| && r[i].cycle == n - 1 {
      assert r[i] in w;
      var k :| 0 <= k < |w| && w[k] == r[i];
      assert w[k].cycle <= MaxCycle(w);
    }
  }

  // ----- runs -----

  /** The writers as their callers use them: a first plan (or a merge-node's), a fixup round, the
      replan after an intent conflict, and `qk replan-cycle`, which wants a latest cycle of at
      least 2. */
  datatype Op =
    | Emit(task: string, ids: seq<string>, kind: string)
    | Fixup(task: string, ids: seq<string>, kind: string)
    | IntentReplan(task: string, ids: seq<string>)
    | Replan(task: string)

  ghost function Do(t: Table, op: Op): Table {
    match op
    case Emit(task, ids, kind) => Upserted(t, task, Bare(ids), 1, kind)
    case Fixup(task, ids, kind) => Appended(t, task, Bare(ids), None, kind)
    case IntentReplan(task, ids) => IntentReplanned(t, task, ids)
    case Replan(task) =>
      var n := MaxCycle(TaskRows(t.rows, task));
      if n >= 2 then CycleDropped(t, task, n) else t
  }

  ghost function Run(ops: seq<Op>): Table {
    if ops == [] then Table([], 0) else Do(Run(ops[..|ops| - 1]), ops[|ops| - 1])
  }

  lemma UpsertLeavesOthers(t: Table, own: string, task: string, es: seq<Emission>, cycle: int, kind: string)
    requires own != task
    ensures TaskRows(Upserted(t, own, es, cycle, kind).rows, task) == TaskRows(t.rows, task)
  {
    if Distinct(EmissionIds(es)) { UpsertRows(t, own, task, es, cycle, kind); }
  }

  lemma AppendLeavesOthers(t: Table, own: string, task: string, es: seq<Emission>, cycle: Option<int>, kind: string)
    requires own != task
    ensures TaskRows(Appended(t, own, es, cycle, kind).rows, task) == TaskRows(t.rows, task)
  {
    if Distinct(EmissionIds(Fresh(es, t.rows, own))) {
      AppendRows(t, own, task, es, cycle, kind);
      assert TaskRows(t.rows, task) + [] == TaskRows(t.rows, task);
    }
  }

  lemma RunStep(ops: seq<Op>, op: Op)
    ensures Run(ops + [op]) == Do(Run(ops), op)
  {
    assert (ops + [op])[..|ops|] == ops;
  }

  /** The writer of one task leaves another task's rows alone. */
  lemma OthersKeepRows(t: Table, op: Op, task: string)
    requires op.task != task
    ensures TaskRows(Do(t, op).rows, task) == TaskRows(t.rows, task)
  {
    match op
    case Emit(own, ids, kind) => UpsertLeavesOthers(t, own, task, Bare(ids), 1, kind);
    case Fixup(own, ids, kind) => AppendLeavesOthers(t, own, task, Bare(ids), None, kind);
    case IntentReplan(own, ids) =>
      UpsertLeavesOthers(t, own, task, Bare(ids), MaxCycle(TaskRows(t.rows, own)) + 1, "replan");
    case Replan(own) => TaskRowsAfterDropCycle(t.rows, own, MaxCycle(TaskRows(t.rows, own)), task);
  }

  /** Where the task's cycles start after one of its own writers. */
  ghost function StartAfter(t: Table, op: Op, lo: int): int {
    match op
    case Emit(_, ids, _) => if Distinct(ids) then 1 else lo
    case Fixup(task, _, _) => if TaskRows(t.rows, task) == [] then 1 else lo
    case IntentReplan(task, ids) => if Distinct(ids) then MaxCycle(TaskRows(t.rows, task)) + 1 else lo
    case Replan(_) => lo
  }

  lemma FixupKeepsCycles(t: Table, lo: int, task: string, ids: seq<string>, kind: string)
    requires lo >= 1 && CycledFrom(TaskRows(t.rows, task), lo)
    ensures CycledFrom(TaskRows(Appended(t, task, Bare(ids), None, kind).rows, task),
                       if TaskRows(t.rows, task) == [] then 1 else lo)
  {
    var from := if TaskRows(t.rows, task) == [] then 1 else lo;
    if Distinct(EmissionIds(Fresh(Bare(ids), t.rows, task))) { AppendKeepsCyclesIff(t, task, from, Bare(ids), None, kind); }
  }

  lemma UpsertRestartsCycles(t: Table, lo: int, task: string, ids: seq<string>, cycle: int, kind: string)
    requires lo >= 1 && cycle >= 1 && CycledFrom(TaskRows(t.rows, task), lo)
    ensures CycledFrom(TaskRows(Upserted(t, task, Bare(ids), cycle, kind).rows, task), if Distinct(ids) then cycle else lo)
  {
    if Distinct(ids) { UpsertKeepsCyclesIff(t, task, cycle, Bare(ids), cycle, kind); }
  }

  lemma ReplanKeepsCycles(t: Table, lo: int, task: string)
    requires lo >= 1 && CycledFrom(TaskRows(t.rows, task), lo)
    ensures CycledFrom(TaskRows(Do(t, Replan(task)).rows, task), lo)
  {
    var r := TaskRows(t.rows, task);
    TaskRowsAfterDropCycle(t.rows, task, MaxCycle(r), task);
    DropIff(r, lo, MaxCycle(r));
  }

  lemma IntentReplanRestartsCycles(t: Table, lo: int, task: string, ids: seq<string>)
    requires lo >= 1 && CycledFrom(TaskRows(t.rows, task), lo)
    ensures StartAfter(t, IntentReplan(task, ids), lo) >= 1
    ensures CycledFrom(TaskRows(IntentReplanned(t, task, ids).rows, task), StartAfter(t, IntentReplan(task, ids), lo))
  {
    var next := MaxCycle(TaskRows(t.rows, task)) + 1;
    assert next >= 1 by { NoRowsNoCycle(TaskRows(t.rows, task), lo); }
    UpsertRestartsCycles(t, lo, task, ids, next, "replan");
  }

  lemma StepKeepsCycles(t: Table, op: Op, lo: int)
    requires lo >= 1 && CycledFrom(TaskRows(t.rows, op.task), lo)
    ensures StartAfter(t, op, lo) >= 1 && CycledFrom(TaskRows(Do(t, op).rows, op.task), StartAfter(t, op, lo))
  {
    match op
    case Emit(task, ids, kind) => UpsertRestartsCycles(t, lo, task, ids, 1, kind);
    case Fixup(task, ids, kind) => FixupKeepsCycles(t, lo, task, ids, kind);
    case IntentReplan(task, ids) => IntentReplanRestartsCycles(t, lo, task, ids);
    case Replan(task) => ReplanKeepsCycles(t, lo, task);
  }

  /** Where a task's cycles start after a run. */
  ghost function Start(ops: seq<Op>, task: string): int {
    if ops == [] then 1
    else
      var n := |ops| - 1;
      if ops[n].task == task then StartAfter(Run(ops[..n]), ops[n], Start(ops[..n], task)) else Start(ops[..n], task)
  }

  /** In every run of all four writers, every task's cycles are one unbroken range, never fall along
      the rows, and have one kind each. */
  lemma {:induction false} CyclesStayUnbroken(ops: seq<Op>, task: string)
    ensures Start(ops, task) >= 1 && CycledFrom(TaskRows(Run(ops).rows, task), Start(ops, task))
  {
    if ops != [] {
      var n := |ops| - 1;
      CyclesStayUnbroken(ops[..n], task);
      if ops[n].task == task {
        StepKeepsCycles(Run(ops[..n]), ops[n], Start(ops[..n], task));
      } else {
        OthersKeepRows(Run(ops[..n]), ops[n], task);
      }
    }
  }

  /** The range starts at 1 as long as the task is not replanned after an intent conflict. */
  lemma {:induction false} CyclesStayWellFormed(ops: seq<Op>, task: string)
    requires forall i | 0 <= i < |ops| :: !(ops[i].IntentReplan? && ops[i].task == task)
    ensures Start(ops, task) == 1 && WellCycled(TaskRows(Run(ops).rows, task))
  {
    CyclesStayUnbroken(ops, task);
    if ops != [] { CyclesStayWellFormed(ops[..|ops| - 1], task); }
  }

  /** After any run: `qk replan-cycle` on a latest cycle N >= 2 keeps the rows up to some position,
      those of the earlier cycles, and the next round emits N again exactly when the task's first
      row is at an earlier cycle. */
  lemma ReplanInARun(ops: seq<Op>, task: string) returns (k: nat)
    requires MaxCycle(TaskRows(Run(ops).rows, task)) >= 2
    ensures var r := TaskRows(Run(ops).rows, task);
            var dropped := CycleDropped(Run(ops), task, MaxCycle(r));
            && r != [] && k < |r| && EarlierRows(r, k) && TaskRows(dropped.rows, task) == r[..k]
            && (EffectiveCycle(dropped, task, None) == MaxCycle(r) <==> r[0].cycle < MaxCycle(r))
  {
    var r, lo := TaskRows(Run(ops).rows, task), Start(ops, task);
    CyclesStayUnbroken(ops, task);
    NoRowsNoCycle(r, lo);
    k := DropLatestIsPrefix(r, lo);
    TaskRowsAfterDropCycle(Run(ops).rows, task, MaxCycle(r), task);
    ReplanCycleIff(r);
    if r[0].cycle < MaxCycle(r) { assert HasCycleRow(r, MaxCycle(r) - 1); }
  }

  /** The runs that fail: a task with rows is replanned after an intent conflict and then by
      `qk replan-cycle`. All its rows were at one cycle N >= 2; none is left, and the next round
      emits cycle 1. */
  lemma IntentReplanLosesTheCycle(ops: seq<Op>, task: string, ids: seq<string>)
    requires TaskRows(Run(ops).rows, task) != [] && ids != [] && Distinct(ids)
    ensures var t := Run(ops + [IntentReplan(task, ids)]);
            var n := MaxCycle(TaskRows(t.rows, task));
            var dropped := CycleDropped(t, task, n);
            && n >= 2 && Do(t, Replan(task)) == dropped
            && TaskRows(dropped.rows, task) == [] && EffectiveCycle(dropped, task, None) == 1
  {
    RunStep(ops, IntentReplan(task, ids));
    var n := IntentReplanIsOneCycle(Run(ops), task, ids);
    RowsReachCycleOne(ops, task);
    OneCycleIsLost(IntentReplanned(Run(ops), task, ids), task, n);
    ReplanDrops(IntentReplanned(Run(ops), task, ids), task);
  }

  lemma ReplanDrops(t: Table, task: string)
    requires MaxCycle(TaskRows(t.rows, task)) >= 2
    ensures Do(t, Replan(task)) == CycleDropped(t, task, MaxCycle(TaskRows(t.rows, task)))
  {
  }

  lemma RowsReachCycleOne(ops: seq<Op>, task: string)
    requires TaskRows(Run(ops).rows, task) != []
    ensures MaxCycle(TaskRows(Run(ops).rows, task)) >= 1
  {
    CyclesStayUnbroken(ops, task);
    NoRowsNoCycle(TaskRows(Run(ops).rows, task), Start(ops, task));
  }

  lemma IntentReplanIsOneCycle(t: Table, task: string, ids: seq<string>) returns (n: int)
    requires ids != [] && Distinct(ids)
    ensures n == MaxCycle(TaskRows(t.rows, task)) + 1
    ensures var r := TaskRows(IntentReplanned(t, task, ids).rows, task);
            r != [] && MaxCycle(r) == n && OneCycle(r, n)
  {
    n := MaxCycle(TaskRows(t.rows, task)) + 1;
    UpsertRows(t, task, task, Bare(ids), n, "replan");
    MaxIsAttained(NewRows(task, Bare(ids), t.nextId, n, "replan"));
  }

  lemma OneCycleIsLost(t: Table, task: string, n: int)
    requires OneCycle(TaskRows(t.rows, task), n)
    ensures TaskRows(CycleDropped(t, task, n).rows, task) == [] && EffectiveCycle(CycleDropped(t, task, n), task, None) == 1
  {
    TaskRowsAfterDropCycle(t.rows, task, n, task);
    AllOneCycle(TaskRows(t.rows, task), n);
  }

  ghost predicate OneCycle(r: seq<SubtaskRow>, c: int) {
    forall i | 0 <= i < |r| :: r[i].cycle == c
  }

  lemma {:induction false} AllOneCycle(r: seq<SubtaskRow>, c: int)
    requires OneCycle(r, c)
    ensures WithoutCycle(r, c) == []
  {
    if r != [] { AllOneCycle(r[..|r| - 1], c); }
  }

  // ----- row ids -----

  /** Row ids rise along the rows and stay under the next one to be given out. */
  ghost predicate Rising(rows: seq<SubtaskRow>, bound: nat) {
    (forall i, j | 0 <= i < j < |rows| :: rows[i].rowid < rows[j].rowid) &&
    forall i | 0 <= i < |rows| :: rows[i].rowid < bound
  }

  lemma {:induction false} DropTaskRising(rows: seq<SubtaskRow>, task: string, bound: nat)
    requires Rising(rows, bound)
    ensures Rising(DropTask(rows, task), bound)
  {
    if rows != [] {
      var n := |rows| - 1;
      DropTaskRising(rows[..n], task, rows[n].rowid);
    }
  }

  lemma {:induction false} DropCycleRising(rows: seq<SubtaskRow>, task: string, cycle: int, bound: nat)
    requires Rising(rows, bound)
    ensures Rising(DropCycle(rows, task, cycle), bound)
  {
    if rows != [] {
      var n := |rows| - 1;
      DropCycleRising(rows[..n], task, cycle, rows[n].rowid);
    }
  }

  lemma NewRowsRising(rows: seq<SubtaskRow>, task: string, es: seq<Emission>, from: nat, cycle: int, kind: string)
    requires Rising(rows, from)
    ensures Rising(rows + NewRows(task, es, from, cycle, kind), from + |es|)
  {
  }

  /** In every run list order is row-id order and the next id
      is above all of them. */
  lemma {:induction false} RowIdsRise(ops: seq<Op>)
    ensures Rising(Run(ops).rows, Run(ops).nextId)
  {
    if ops != [] {
      var n := |ops| - 1;
      RowIdsRise(ops[..n]);
      var t := Run(ops[..n]);
      match ops[n]
      case Emit(task, ids, kind) =>
        DropTaskRising(t.rows, task, t.nextId);
        NewRowsRising(DropTask(t.rows, task), task, Bare(ids), t.nextId, 1, kind);
      case Fixup(task, ids, kind) =>
        NewRowsRising(t.rows, task, Fresh(Bare(ids), t.rows, task), t.nextId, EffectiveCycle(t, task, None), kind);
      case IntentReplan(task, ids) =>
        DropTaskRising(t.rows, task, t.nextId);
        NewRowsRising(DropTask(t.rows, task), task, Bare(ids), t.nextId, MaxCycle(TaskRows(t.rows, task)) + 1, "replan");
      case Replan(task) =>
        DropCycleRising(t.rows, task, MaxCycle(TaskRows(t.rows, task)), t.nextId);
    }
  }
}
