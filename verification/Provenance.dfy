/** The backfill of planning cycles for rows written before cycles were recorded: two passes over
    the rows that still hold the column defaults. */
module Provenance {
  import opened Ids
  import opened Text

  datatype Row = Row(task: string, subtaskId: string, cycle: int, kind: string)

  type Table = map<nat, Row>

  // ----- reading a subtask id -----

  /** `^(S-\d+|Z-99|R-\d+)-?` */
  predicate IsInitialId(s: string) {
    StartsWith(s, "Z-99") || ((StartsWith(s, "S-") || StartsWith(s, "R-")) && Digits(s[2..]) != "")
  }

  /** `^F-(\d+)-`: the number's digits. */
  function FixupDigits(s: string): (d: Option<string>)
    ensures d.Some? ==> AllDigits(d.value)
  {
    if !StartsWith(s, "F-") then None
    else
      var d := Digits(s[2..]);
      if d != "" && StartsWith(s[2..][|d|..], "-") then Some(d) else None
  }

  /** `^F-CI-` */
  predicate IsFixupCi(s: string) {
    StartsWith(s, "F-CI-")
  }

  /** `subtask_id LIKE 'F-CI-%'`, which ignores the case of ASCII letters. */
  predicate LikeFixupCi(s: string) {
    |s| >= 5 && LowerAscii(s[0]) == 'f' && s[1] == '-' && LowerAscii(s[2]) == 'c' && LowerAscii(s[3]) == 'i' && s[4] == '-'
  }

  /** Begins with an F, a dash, a C, an I and a dash, each letter in either case. */
  ghost predicate SpelledFci(s: string) {
    |s| >= 5 && s[0] in ['F', 'f'] && s[1] == '-' && s[2] in ['C', 'c'] && s[3] in ['I', 'i'] && s[4] == '-'
  }

  lemma LikeIsTheSpelling(s: string)
    ensures LikeFixupCi(s) <==> SpelledFci(s)
  {
  }

  lemma RegexImpliesLike(s: string)
    ensures IsFixupCi(s) ==> LikeFixupCi(s)
  {
    if IsFixupCi(s) {
      assert s[0] == "F-CI-"[0] && s[1] == "F-CI-"[1] && s[2] == "F-CI-"[2] && s[3] == "F-CI-"[3] && s[4] == "F-CI-"[4];
    }
  }

  /** Python refuses to convert longer digit strings to an integer. */
  const INT_DIGIT_LIMIT := 4300

  function Infer(s: string): (int, string) {
    if IsInitialId(s) then (1, "initial")
    else if FixupDigits(s).Some? then
      if |FixupDigits(s).value| > INT_DIGIT_LIMIT then (1, "initial")
      else
        var n := Value(FixupDigits(s).value) + 1;
        (if n > 2 then n else 2, "fixup")
    else if IsFixupCi(s) then (2, "fixup_ci")
    else (1, "initial")
  }

  lemma FixupIdIsNotInitial(s: string)
    requires s != "" && s[0] == 'F'
    ensures !IsInitialId(s)
  {
  }

  lemma NotFixupCi(s: string)
    ensures IsFixupCi(s) ==> |s| >= 2 && s[0] == 'F' && s[1] == '-'
  {
    if IsFixupCi(s) { assert s[..5][0] == s[0] && s[..5][1] == s[1]; }
  }

  /** An id that does not begin with `F-` belongs to the first plan. */
  lemma OtherIdsAreInitial(s: string)
    requires !(|s| >= 2 && s[0] == 'F' && s[1] == '-')
    ensures Infer(s) == (1, "initial")
  {
    NotFixupCi(s);
  }

  lemma FixupDigitsRead(d: string, rest: string)
    requires d != "" && AllDigits(d)
    ensures FixupDigits("F-" + (d + ("-" + rest))) == Some(d)
  {
    var tail := "-" + rest;
    var s := "F-" + (d + tail);
    assert s[..2] == "F-" && s[2..] == d + tail;
    DigitsOfAppend(d, tail);
    assert (d + tail)[|d|..] == tail;
    assert tail[..1] == "-";
  }

  /** The id of a fixup subtask of cycle n: the provenance read off it is cycle n + 1, and 2 at
      least, for every number short enough to convert. */
  lemma FixupIdNamesItsCycle(n: nat, rest: string)
    requires |Decimal(n)| <= INT_DIGIT_LIMIT
    ensures Infer("F-" + (Decimal(n) + ("-" + rest))) == (if n > 1 then n + 1 else 2, "fixup")
  {
    FixupIdIsNotInitial("F-" + (Decimal(n) + ("-" + rest)));
    FixupDigitsRead(Decimal(n), rest);
    ValueOfDecimal(n);
  }

  function InferWithContext(s: string, maxNonFci: int): (int, string) {
    if IsFixupCi(s) then ((if maxNonFci > 1 then maxNonFci else 1) + 1, "fixup_ci") else Infer(s)
  }

  predicate IsDefault(r: Row) {
    r.cycle == 1 && r.kind == "initial"
  }

  function Stamped(r: Row, p: (int, string)): Row {
    r.(cycle := p.0, kind := p.1)
  }

  // ----- what the backfill means -----

  predicate IsNonFci(t: Table, task: string, id: nat) {
    id in t && t[id].task == task && !LikeFixupCi(t[id].subtaskId)
  }

  /** `m` is the largest cycle of the task's rows outside `F-CI-%`, 0 without such rows. */
  ghost predicate IsMaxNonFci(t: Table, task: string, m: int) {
    (forall id | IsNonFci(t, task, id) :: t[id].cycle <= m) &&
    if exists id :: IsNonFci(t, task, id) then exists id :: IsNonFci(t, task, id) && t[id].cycle == m
    else m == 0
  }

  lemma MaxUnique(t: Table, task: string, a: int, b: int)
    requires IsMaxNonFci(t, task, a) && IsMaxNonFci(t, task, b)
    ensures a == b
  {
  }

  /** A default row gets the provenance its id implies: an `F-CI-` row sits one past the largest
      other cycle its task ends up with, at least at 2. Other rows are not touched. */
  ghost predicate RowBackfilled(before: Table, after: Table, id: nat)
    requires id in before && id in after
  {
    var r := before[id];
    if !IsDefault(r) then after[id] == r
    else if !IsFixupCi(r.subtaskId) then after[id] == Stamped(r, Infer(r.subtaskId))
    else exists m :: IsMaxNonFci(after, r.task, m) && after[id] == Stamped(r, InferWithContext(r.subtaskId, m))
  }

  ghost predicate Backfilled(before: Table, after: Table) {
    after.Keys == before.Keys &&
    forall id {:trigger RowBackfilled(before, after, id)} | id in before :: RowBackfilled(before, after, id)
  }

  // ----- when it finishes -----

  /** The largest integer a column holds; binding a larger one raises an error nobody catches. */
  const COLUMN_MAX := 0x7FFF_FFFF_FFFF_FFFF

  /** The cycle a row outside the `F-CI-` ids has once pass 1 is over. */
  function SettledCycle(r: Row): int {
    if IsDefault(r) then Infer(r.subtaskId).0 else r.cycle
  }

  /** The number in every default row's id fits, and every default `F-CI-` row finds room above the
      other rows of its task. */
  ghost predicate Finishes(t: Table) {
    (forall id | id in t && IsDefault(t[id]) && !IsFixupCi(t[id].subtaskId) :: Infer(t[id].subtaskId).0 <= COLUMN_MAX) &&
    forall id, other {:trigger t[id], IsNonFci(t, t[id].task, other)} |
      id in t && IsDefault(t[id]) && IsFixupCi(t[id].subtaskId) && IsNonFci(t, t[id].task, other) ::
      SettledCycle(t[other]) < COLUMN_MAX
  }

  lemma FixupCiIsNotNumeric(s: string)
    requires IsFixupCi(s)
    ensures FixupDigits(s).None?
  {
    assert s[2] == "F-CI-"[2];
    assert s[2..][0] == 'C';
  }

  lemma NumericIdIsFixup(s: string)
    requires FixupDigits(s).Some?
    ensures !IsInitialId(s) && !IsFixupCi(s)
  {
    assert s[..2] == "F-";
    assert s[0] == 'F';
    FixupIdIsNotInitial(s);
    if IsFixupCi(s) { FixupCiIsNotNumeric(s); }
  }

  /** `F-`, a number, a dash, and anything after it. */
  ghost predicate SpellsFixup(s: string, d: string) {
    d != "" && AllDigits(d) && exists rest :: s == "F-" + (d + ("-" + rest))
  }

  lemma FixupDigitsSpelled(s: string, d: string)
    ensures FixupDigits(s) == Some(d) <==> SpellsFixup(s, d)
  {
    if FixupDigits(s) == Some(d) {
      var tail := s[2..][|d|..];
      assert s == "F-" + s[2..] && s[2..] == d + tail && tail == "-" + tail[1..];
    }
    if SpellsFixup(s, d) {
      var rest :| s == "F-" + (d + ("-" + rest));
      FixupDigitsRead(d, rest);
    }
  }

  /** Only ids spelled like that name a cycle, and those whose number Python refuses to convert do
      not. */
  lemma OnlyFixupIdsNameACycle(s: string)
    ensures forall d | SpellsFixup(s, d) ::
              Infer(s) == if |d| > 4300 then (1, "initial") else (if Value(d) > 1 then Value(d) + 1 else 2, "fixup")
    ensures (forall d :: !SpellsFixup(s, d)) && !IsFixupCi(s) ==> Infer(s) == (1, "initial")
  {
    forall d ensures FixupDigits(s) == Some(d) <==> SpellsFixup(s, d) { FixupDigitsSpelled(s, d); }
    if FixupDigits(s).Some? { NumericIdIsFixup(s); }
  }

  /** One default `F-n-` row with n + 1 beyond the column is enough to stop startup. */
  lemma LongNumberStopsStartup(t: Table, id: nat)
    requires id in t && IsDefault(t[id]) && FixupDigits(t[id].subtaskId).Some?
    requires var d := FixupDigits(t[id].subtaskId).value; |d| <= INT_DIGIT_LIMIT && Value(d) >= COLUMN_MAX
    ensures !Finishes(t)
  {
    NumericIdIsFixup(t[id].subtaskId);
    assert Infer(t[id].subtaskId).0 > COLUMN_MAX;
  }

  // ----- the two passes -----

  /** Pass 1 over the default rows; the `F-CI-` rows are put off. It gives up at the first id whose
      number does not fit. */
  method BackfillNonFci(t0: Table, order: seq<nat>) returns (ok: bool, t: Table, pending: seq<nat>)
    requires Distinct(order) && forall id | id in order :: id in t0 && IsDefault(t0[id])
    ensures ok <==> forall id | id in order && !IsFixupCi(t0[id].subtaskId) :: Infer(t0[id].subtaskId).0 <= COLUMN_MAX
    ensures ok ==> t.Keys == t0.Keys && forall id | id in t0 ::
              t[id] == if id in order && !IsFixupCi(t0[id].subtaskId) then Stamped(t0[id], Infer(t0[id].subtaskId)) else t0[id]
    ensures ok ==> Distinct(pending) && (forall id | id in pending :: id in t0) &&
                   forall id | id in t0 :: id in pending <==> id in order && IsFixupCi(t0[id].subtaskId)
  {
    ok, t, pending := true, t0, [];
    for i := 0 to |order|
      invariant ok && t.Keys == t0.Keys
      invariant forall id | id in order[..i] && !IsFixupCi(t0[id].subtaskId) :: Infer(t0[id].subtaskId).0 <= COLUMN_MAX
      invariant forall id | id in t0 ::
                  t[id] == if id in order[..i] && !IsFixupCi(t0[id].subtaskId) then Stamped(t0[id], Infer(t0[id].subtaskId))
                           else t0[id]
      invariant Distinct(pending) && forall id | id in pending :: id in order[..i]
      invariant forall id | id in t0 :: id in pending <==> id in order[..i] && IsFixupCi(t0[id].subtaskId)
    {
      var id := order[i];
      assert order[..i + 1] == order[..i] + [id];
      assert id !in order[..i] && id in order;
      if IsFixupCi(t0[id].subtaskId) {
        pending := pending + [id];
        continue;
      }
      var p := Infer(t0[id].subtaskId);
      if p != (1, "initial") {
        if p.0 > COLUMN_MAX { return false, t, pending; }
        t := t[id := Stamped(t[id], p)];
      }
    }
    assert order[..|order|] == order;
  }

  /** `SELECT MAX(planning_cycle) ... WHERE task_id = ? AND subtask_id NOT LIKE 'F-CI-%'`. */
  method LookupMaxNonFci(t: Table, task: string) returns (m: int)
    ensures IsMaxNonFci(t, task, m)
    ensures forall id | id in t && t[id].task == task && !SpelledFci(t[id].subtaskId) :: t[id].cycle <= m
  {
    var best: Option<int> := None;
    var rest := t.Keys;
    while rest != {}
      invariant rest <= t.Keys
      invariant best.None? ==> forall id | IsNonFci(t, task, id) :: id in rest
      invariant best.Some? ==> forall id | IsNonFci(t, task, id) :: id in rest || t[id].cycle <= best.value
      invariant best.Some? ==> exists id :: IsNonFci(t, task, id) && t[id].cycle == best.value
    {
      var id :| id in rest;
      rest := rest - {id};
      if t[id].task == task && !LikeFixupCi(t[id].subtaskId) && (best.None? || t[id].cycle > best.value) {
        assert IsNonFci(t, task, id);
        best := Some(t[id].cycle);
      }
    }
    m := if best.Some? then best.value else 0;
    forall id | id in t { LikeIsTheSpelling(t[id].subtaskId); }
  }

  /** Rewriting `F-CI-` rows does not move any task's maximum. */
  lemma MaxIgnoresFci(t: Table, t': Table, task: string, m: int)
    requires t.Keys == t'.Keys
    requires forall id | id in t :: t'[id] == t[id] ||
               (LikeFixupCi(t[id].subtaskId) && t'[id].subtaskId == t[id].subtaskId && t'[id].task == t[id].task)
    ensures IsMaxNonFci(t, task, m) <==> IsMaxNonFci(t', task, m)
  {
    assert forall id :: IsNonFci(t, task, id) <==> IsNonFci(t', task, id);
    assert forall id | IsNonFci(t, task, id) :: t[id] == t'[id];
  }

  /** The row finds room above the other rows of its task. */
  ghost predicate HasRoom(t: Table, id: nat)
    requires id in t
  {
    forall other | IsNonFci(t, t[id].task, other) :: t[other].cycle < COLUMN_MAX
  }

  lemma RoomBelowMax(t: Table, id: nat, m: int)
    requires id in t && IsMaxNonFci(t, t[id].task, m)
    ensures HasRoom(t, id) <==> m < COLUMN_MAX
  {
  }

  /** One row of pass 2, `done` rows into it. */
  method StampFci(ghost t0: Table, t: Table, ghost done: seq<nat>, id: nat) returns (ok: bool, t': Table)
    requires t.Keys == t0.Keys && forall other | other in t0 && other !in done :: t[other] == t0[other]
    requires forall other {:trigger FciStamped(t0, t, other)} | other in done :: FciStamped(t0, t, other)
    requires forall other | other in done :: other in t0 && IsFixupCi(t0[other].subtaskId)
    requires id in t0 && id !in done && IsFixupCi(t0[id].subtaskId)
    ensures ok <==> HasRoom(t0, id)
    ensures ok ==> t'.Keys == t0.Keys && FciStamped(t0, t', id)
    ensures ok ==> forall other | other in t0 && other != id :: t'[other] == t[other]
  {
    var m := LookupMaxNonFci(t, t[id].task);
    LaterFciSameMax(t0, t, done, t0[id].task, m);
    RoomBelowMax(t0, id, m);
    var p := InferWithContext(t[id].subtaskId, m);
    if p.0 > COLUMN_MAX { return false, t; }
    return true, t[id := Stamped(t[id], p)];
  }

  /** Pass 2: the maxima are looked up in the table as pass 1 left it, row by row. */
  method BackfillFci(t0: Table, pending: seq<nat>) returns (ok: bool, t: Table)
    requires Distinct(pending) && forall id | id in pending :: id in t0 && IsFixupCi(t0[id].subtaskId)
    ensures ok <==> forall id | id in pending :: HasRoom(t0, id)
    ensures ok ==> t.Keys == t0.Keys && forall id | id in t0 && id !in pending :: t[id] == t0[id]
    ensures ok ==> forall id {:trigger FciStamped(t0, t, id)} | id in pending :: FciStamped(t0, t, id)
  {
    ok, t := true, t0;
    for i := 0 to |pending|
      invariant ok && t.Keys == t0.Keys
      invariant forall id {:trigger HasRoom(t0, id)} | id in pending[..i] :: HasRoom(t0, id)
      invariant forall id | id in t0 && id !in pending[..i] :: t[id] == t0[id]
      invariant forall id {:trigger FciStamped(t0, t, id)} | id in pending[..i] :: FciStamped(t0, t, id)
    {
      ghost var done, was := pending[..i], t;
      var id := pending[i];
      assert pending[..i + 1] == done + [id];
      assert forall other | other in done :: other in pending && other != id;
      ok, t := StampFci(t0, t, done, id);
      if !ok {
        assert id in pending;
        return;
      }
      forall other {:trigger FciStamped(t0, t, other)} | other in done + [id] ensures FciStamped(t0, t, other) {
        if other != id { StampKept(t0, was, t, other); }
      }
    }
    assert pending[..|pending|] == pending;
  }

  lemma StampKept(t0: Table, t: Table, t': Table, id: nat)
    requires FciStamped(t0, t, id) && id in t' && t'[id] == t[id]
    ensures FciStamped(t0, t', id)
  {
  }

  ghost predicate FciStamped(t0: Table, t: Table, id: nat) {
    id in t0 && id in t && exists m :: IsMaxNonFci(t0, t0[id].task, m) && t[id] == Stamped(t0[id], InferWithContext(t0[id].subtaskId, m))
  }

  lemma LaterFciSameMax(t0: Table, t: Table, done: seq<nat>, task: string, m: int)
    requires t.Keys == t0.Keys && forall id | id in t0 && id !in done :: t[id] == t0[id]
    requires forall id {:trigger FciStamped(t0, t, id)} | id in done :: FciStamped(t0, t, id)
    requires forall id | id in done :: id in t0 && IsFixupCi(t0[id].subtaskId)
    ensures IsMaxNonFci(t, task, m) <==> IsMaxNonFci(t0, task, m)
  {
    forall id | id in t0
      ensures t[id] == t0[id] || (LikeFixupCi(t0[id].subtaskId) && t[id].subtaskId == t0[id].subtaskId && t[id].task == t0[id].task)
    {
      RegexImpliesLike(t0[id].subtaskId);
      if id in done { assert FciStamped(t0, t, id); }
    }
    MaxIgnoresFci(t0, t, task, m);
  }

  lemma RoomAfterPassOne(t0: Table, t1: Table, id: nat)
    requires t1.Keys == t0.Keys && id in t0
    requires forall x | x in t0 ::
               t1[x] == if IsDefault(t0[x]) && !IsFixupCi(t0[x].subtaskId) then Stamped(t0[x], Infer(t0[x].subtaskId)) else t0[x]
    ensures HasRoom(t1, id) <==> forall other | IsNonFci(t0, t0[id].task, other) :: SettledCycle(t0[other]) < COLUMN_MAX
  {
    forall other
      ensures IsNonFci(t1, t1[id].task, other) <==> IsNonFci(t0, t0[id].task, other)
      ensures IsNonFci(t0, t0[id].task, other) ==> t1[other].cycle == SettledCycle(t0[other])
    {
      if other in t0 { RegexImpliesLike(t0[other].subtaskId); }
    }
  }

  /** The migration on the rows that hold the defaults, listed in any order. It finishes exactly when
      all cycles it has to write fit their column; otherwise startup fails. */
  method Backfill(t0: Table, order: seq<nat>) returns (r: Option<Table>)
    requires Distinct(order) && forall id :: id in order <==> id in t0 && IsDefault(t0[id])
    ensures r.Some? <==> Finishes(t0)
    ensures r.Some? ==> Backfilled(t0, r.value)
  {
    var ok, t1, pending := BackfillNonFci(t0, order);
    if !ok { return None; }
    forall id | id in pending
      ensures HasRoom(t1, id) <==> forall other | IsNonFci(t0, t0[id].task, other) :: SettledCycle(t0[other]) < COLUMN_MAX
    {
      RoomAfterPassOne(t0, t1, id);
    }
    var done, t := BackfillFci(t1, pending);
    if !done { return None; }
    PassesMeetTheDescription(t0, t1, t, pending);
    return Some(t);
  }

  lemma PassesMeetTheDescription(t0: Table, t1: Table, t: Table, pending: seq<nat>)
    requires t0.Keys == t1.Keys == t.Keys
    requires forall id | id in t0 ::
               t1[id] == if IsDefault(t0[id]) && !IsFixupCi(t0[id].subtaskId) then Stamped(t0[id], Infer(t0[id].subtaskId))
                         else t0[id]
    requires forall id :: id in pending <==> id in t0 && IsDefault(t0[id]) && IsFixupCi(t0[id].subtaskId)
    requires forall id | id in t1 && id !in pending :: t[id] == t1[id]
    requires forall id {:trigger FciStamped(t1, t, id)} | id in pending :: FciStamped(t1, t, id)
    ensures Backfilled(t0, t)
  {
    forall id {:trigger RowBackfilled(t0, t, id)} | id in t0 ensures RowBackfilled(t0, t, id) {
      if id in pending {
        assert FciStamped(t1, t, id);
        var m :| IsMaxNonFci(t1, t1[id].task, m) && t[id] == Stamped(t1[id], InferWithContext(t1[id].subtaskId, m));
        LaterFciSameMax(t1, t, pending, t1[id].task, m);
      }
    }
  }

  // ----- what it guarantees -----

  /** The result does not depend on the order in which the rows were visited. */
  lemma OrderDoesNotMatter(t0: Table, a: Table, b: Table)
    requires Backfilled(t0, a) && Backfilled(t0, b)
    ensures a == b
  {
    forall task, m ensures IsMaxNonFci(a, task, m) <==> IsMaxNonFci(b, task, m) { SameMaxima(t0, a, b, task, m); }
    forall id | id in t0 ensures a[id] == b[id] {
      assert RowBackfilled(t0, a, id) && RowBackfilled(t0, b, id);
      var r := t0[id];
      if IsDefault(r) && IsFixupCi(r.subtaskId) {
        var m :| IsMaxNonFci(a, r.task, m) && a[id] == Stamped(r, InferWithContext(r.subtaskId, m));
        var k :| IsMaxNonFci(b, r.task, k) && b[id] == Stamped(r, InferWithContext(r.subtaskId, k));
        MaxUnique(b, r.task, m, k);
      }
    }
  }

  lemma SameMaxima(t0: Table, a: Table, b: Table, task: string, m: int)
    requires Backfilled(t0, a) && Backfilled(t0, b)
    ensures IsMaxNonFci(a, task, m) <==> IsMaxNonFci(b, task, m)
  {
    forall id | id in a
      ensures b[id] == a[id] || (LikeFixupCi(a[id].subtaskId) && b[id].subtaskId == a[id].subtaskId && b[id].task == a[id].task)
    {
      assert RowBackfilled(t0, a, id) && RowBackfilled(t0, b, id);
      RegexImpliesLike(t0[id].subtaskId);
    }
    MaxIgnoresFci(a, b, task, m);
  }

  /** A default `F-CI-...` row becomes a CI fixup strictly above every row of its task that is not
      spelled like one in some case, and exactly one past the largest of 1 and their cycles. */
  lemma FciComesLast(before: Table, after: Table, id: nat, rest: string)
    requires Backfilled(before, after) && id in before
    requires before[id] == Row(before[id].task, "F-CI-" + rest, 1, "initial")
    ensures after[id].kind == "fixup_ci" && after[id].cycle >= 2
    ensures forall other | other in after && after[other].task == before[id].task && !SpelledFci(after[other].subtaskId) ::
              after[other].cycle < after[id].cycle
    ensures after[id].cycle == 2 ||
            exists other :: other in after && after[other].task == before[id].task && !SpelledFci(after[other].subtaskId) &&
                            after[other].cycle == after[id].cycle - 1
  {
    assert RowBackfilled(before, after, id);
    assert StartsWith(before[id].subtaskId, "F-CI-");
    var m :| IsMaxNonFci(after, before[id].task, m) && after[id] == Stamped(before[id], InferWithContext(before[id].subtaskId, m));
    forall other | other in after
      ensures IsNonFci(after, before[id].task, other) <==>
              after[other].task == before[id].task && !SpelledFci(after[other].subtaskId)
    {
      LikeIsTheSpelling(after[other].subtaskId);
    }
  }

  /** A default `F-n-...` row of the same task ends at cycle n + 1, and at least at 2, and the CI fixup
      above it. */
  lemma FciAboveNumeric(before: Table, after: Table, id: nat, rest: string, other: nat, n: nat, tail: string)
    requires Backfilled(before, after) && id in before && other in before && |Decimal(n)| <= INT_DIGIT_LIMIT
    requires before[id] == Row(before[id].task, "F-CI-" + rest, 1, "initial")
    requires before[other] == Row(before[id].task, "F-" + (Decimal(n) + ("-" + tail)), 1, "initial")
    ensures after[other].kind == "fixup" && after[other].cycle == if n > 1 then n + 1 else 2
    ensures after[id].cycle > after[other].cycle
  {
    assert RowBackfilled(before, after, other);
    FixupDigitsRead(Decimal(n), tail);
    NumericIdIsFixup(before[other].subtaskId);
    FixupIdNamesItsCycle(n, tail);
    FciComesLast(before, after, id, rest);
    NumericIsNotLike(before[other].subtaskId);
  }

  lemma NumericIsNotLike(s: string)
    requires FixupDigits(s).Some?
    ensures |s| >= 3 && s[2] !in ['C', 'c']
  {
    assert Digits(s[2..]) != "";
    assert IsDigit(s[2..][0]);
  }

  /** Rows that do not hold the defaults are not touched; default rows of other ids keep them. */
  lemma TheRestStays(before: Table, after: Table, id: nat)
    requires Backfilled(before, after) && id in before
    ensures before[id].cycle != 1 || before[id].kind != "initial" ==> after[id] == before[id]
    ensures !(var s := before[id].subtaskId; |s| >= 2 && s[0] == 'F' && s[1] == '-') ==> after[id] == before[id]
  {
    assert RowBackfilled(before, after, id);
    var s := before[id].subtaskId;
    if !(|s| >= 2 && s[0] == 'F' && s[1] == '-') {
      OtherIdsAreInitial(s);
      NotFixupCi(s);
    }
  }

  /** A row the migration leaves at the defaults has an id that implies the defaults. */
  lemma DefaultsAreMeant(before: Table, after: Table, id: nat)
    requires Backfilled(before, after) && id in before && IsDefault(after[id])
    ensures !IsFixupCi(after[id].subtaskId) && Infer(after[id].subtaskId) == (1, "initial")
  {
    assert RowBackfilled(before, after, id);
  }

  /** Running the migration again changes nothing. */
  lemma SecondBackfillIsIdle(t0: Table, t1: Table, t2: Table)
    requires Backfilled(t0, t1) && Backfilled(t1, t2)
    ensures t2 == t1
  {
    forall id | id in t1 ensures t2[id] == t1[id] {
      assert RowBackfilled(t0, t1, id) && RowBackfilled(t1, t2, id);
      if IsDefault(t1[id]) { DefaultsAreMeant(t0, t1, id); }
    }
  }
}
