/** Planner output: acceptance of a subtask list and the injected final stabilization subtask. */
module Plan {
  import opened Ids
  import opened Graph
  import opened Kahn

  datatype RubricTarget = RubricTarget(category: string, score: int)

  datatype Subtask = Subtask(
    id: string,
    dependsOn: seq<string>,
    acceptance: seq<string>,
    rubricTargets: seq<RubricTarget>,
    evidence: seq<string>)

  /** One entry of the parsed `subtasks` list: not an object, an object whose fields the schema
      rejects (with its id, "" if absent), or an object of the right shape. */
  datatype Item = NotADict | BadDict(id: string) | Good(subtask: Subtask)

  /** The parsed `subtasks` value; a missing key reads as an empty list. */
  datatype RawList = NotAList | Items(items: seq<Item>)

  datatype RawPlan = RawPlan(nodeId: string, finalAcceptance: seq<string>, subtasks: RawList)

  datatype Plan = Plan(nodeId: string, finalAcceptance: seq<string>, subtasks: seq<Subtask>)

  datatype PlanError =
    | BadFields
    | DuplicateId(id: string)
    | UnknownDependency(subtask: string, dependency: string)
    | Cycle(ids: seq<string>)
    | WrongNode

  const STABILIZATION_ID := "Z-99-stabilize-spec-gate"

  // ----- the subtask graph -----

  function IdsOf(ss: seq<Subtask>): (ids: seq<string>)
    ensures |ids| == |ss| && forall i | 0 <= i < |ss| :: ids[i] == ss[i].id
  {
    seq(|ss|, i requires 0 <= i < |ss| => ss[i].id)
  }

  function Depends(ss: seq<Subtask>): (g: Graph)
    ensures forall x :: x in g <==> x in IdsOf(ss)
  {
    if ss == [] then map[]
    else
      var n := |ss| - 1;
      assert IdsOf(ss) == IdsOf(ss[..n]) + [ss[n].id];
      Depends(ss[..n])[ss[n].id := ss[n].dependsOn]
  }

  lemma {:induction false} DependsAt(ss: seq<Subtask>, i: nat)
    requires i < |ss| && Distinct(IdsOf(ss))
    ensures Depends(ss)[ss[i].id] == ss[i].dependsOn
  {
    var n := |ss| - 1;
    if i < n {
      assert IdsOf(ss[..n]) == IdsOf(ss)[..n];
      DependsAt(ss[..n], i);
      assert IdsOf(ss)[i] != IdsOf(ss)[n];
    }
  }

  ghost predicate DependenciesListed(ss: seq<Subtask>) {
    forall i, d {:trigger d in ss[i].dependsOn} | 0 <= i < |ss| && d in ss[i].dependsOn :: d in IdsOf(ss)
  }

  ghost predicate WellFormed(ss: seq<Subtask>) {
    Distinct(IdsOf(ss)) && DependenciesListed(ss) && !HasCycle(Depends(ss))
  }

  // ----- validation loops -----

  /** The first loop: the first id that was already seen. */
  method FindDuplicate(ss: seq<Subtask>) returns (r: Option<string>)
    ensures r.None? <==> Distinct(IdsOf(ss))
    ensures r.Some? ==> exists k :: 0 <= k < |ss| && ss[k].id == r.value && r.value in IdsOf(ss)[..k] &&
                                    Distinct(IdsOf(ss)[..k])
  {
    var ids: set<string> := {};
    for k := 0 to |ss|
      invariant ids == Elements(IdsOf(ss)[..k]) && Distinct(IdsOf(ss)[..k])
    {
      assert IdsOf(ss)[..k + 1] == IdsOf(ss)[..k] + [ss[k].id];
      if ss[k].id in ids {
        var j :| 0 <= j < k && IdsOf(ss)[..k][j] == ss[k].id;
        assert IdsOf(ss)[j] == IdsOf(ss)[k];
        return Some(ss[k].id);
      }
      ids := ids + {ss[k].id};
    }
    assert IdsOf(ss)[..|ss|] == IdsOf(ss);
    return None;
  }

  method FindUnknown(ss: seq<Subtask>) returns (r: Option<(string, string)>)
    ensures r.None? <==> DependenciesListed(ss)
    ensures r.Some? ==> exists i :: 0 <= i < |ss| && ss[i].id == r.value.0 && r.value.1 in ss[i].dependsOn &&
                                    r.value.1 !in IdsOf(ss)
  {
    for i := 0 to |ss|
      invariant forall k, d | 0 <= k < i && d in ss[k].dependsOn :: d in IdsOf(ss)
    {
      for j := 0 to |ss[i].dependsOn|
        invariant forall d | d in ss[i].dependsOn[..j] :: d in IdsOf(ss)
      {
        if ss[i].dependsOn[j] !in IdsOf(ss) {
          assert ss[i].dependsOn[j] in ss[i].dependsOn;
          return Some((ss[i].id, ss[i].dependsOn[j]));
        }
      }
      assert ss[i].dependsOn[..|ss[i].dependsOn|] == ss[i].dependsOn;
    }
    return None;
  }

  /** The ids left out of `out`, in list order. */
  function LeftOut(ss: seq<Subtask>, out: seq<string>): (ids: seq<string>)
    ensures forall x :: x in ids <==> x in IdsOf(ss) && x !in out
  {
    if ss == [] then []
    else
      assert ss == [ss[0]] + ss[1..];
      assert IdsOf(ss) == [ss[0].id] + IdsOf(ss[1..]);
      (if ss[0].id !in out then [ss[0].id] else []) + LeftOut(ss[1..], out)
  }

  /** `by_id[cur]`. */
  function ById(ss: seq<Subtask>, id: string): (s: Subtask)
    requires id in IdsOf(ss)
    ensures s in ss && s.id == id
  {
    assert ss != [];
    var n := |ss| - 1;
    assert IdsOf(ss) == IdsOf(ss[..n]) + [ss[n].id];
    if ss[n].id == id then ss[n] else ById(ss[..n], id)
  }

  /** `_topo_order_raise_on_cycle`, on a list whose ids are unique and whose dependencies are
      all listed. */
  method TopoOrder(ss: seq<Subtask>) returns (r: Result<seq<Subtask>, PlanError>)
    requires Distinct(IdsOf(ss)) && DependenciesListed(ss)
    ensures r.Ok? <==> !HasCycle(Depends(ss))
    ensures r.Ok? ==> IsLeastTopoOrder(Depends(ss), IdsOf(r.value)) && forall s | s in r.value :: s in ss
    ensures r.Err? ==> r.error.Cycle? && forall x :: x in r.error.ids <==> x in IdsOf(ss) && LeadsIntoCycle(Depends(ss), x)
  {
    var g := Depends(ss);
    var out := KahnOrder(IdsOf(ss), g);
    CountDecides(g, out);
    DistinctSize(IdsOf(ss), g.Keys);
    if |out| != |ss| { return Err(Cycle(LeftOut(ss, out))); }
    var ordered := seq(|out|, i requires 0 <= i < |out| => ById(ss, out[i]));
    assert IdsOf(ordered) == out;
    return Ok(ordered);
  }

  /** The model validator: duplicates are reported before unknown ids, those before cycles. */
  method CheckUniqueAndAcyclic(ss: seq<Subtask>) returns (r: Option<PlanError>)
    ensures r.None? <==> WellFormed(ss)
    ensures r.Some? ==> (r.value.DuplicateId? <==> !Distinct(IdsOf(ss)))
    ensures r.Some? ==> (r.value.UnknownDependency? <==> Distinct(IdsOf(ss)) && !DependenciesListed(ss))
    ensures r.Some? && !r.value.DuplicateId? && !r.value.UnknownDependency? ==>
              r.value.Cycle? && forall x :: x in r.value.ids <==> x in IdsOf(ss) && LeadsIntoCycle(Depends(ss), x)
  {
    var duplicate := FindDuplicate(ss);
    if duplicate.Some? { return Some(DuplicateId(duplicate.value)); }
    var unknown := FindUnknown(ss);
    if unknown.Some? { return Some(UnknownDependency(unknown.value.0, unknown.value.1)); }
    var order := TopoOrder(ss);
    if order.Err? { return Some(order.error); }
    return None;
  }

  // ----- the schema -----

  predicate TargetOk(t: RubricTarget) {
    t.category != "" && 1 <= t.score <= 10
  }

  predicate FieldsOk(s: Subtask) {
    s.id != "" && s.acceptance != [] && forall t | t in s.rubricTargets :: TargetOk(t)
  }

  predicate ItemOk(i: Item) {
    i.Good? && FieldsOk(i.subtask)
  }

  predicate AllItemsOk(items: seq<Item>) {
    forall i | i in items :: ItemOk(i)
  }

  predicate ShellOk(raw: RawPlan) {
    raw.nodeId != "" && raw.finalAcceptance != []
  }

  function SubtasksOf(items: seq<Item>): (ss: seq<Subtask>)
    requires AllItemsOk(items)
    ensures |ss| == |items| && forall i | 0 <= i < |ss| :: items[i] == Good(ss[i])
  {
    assert forall i | 0 <= i < |items| :: ItemOk(items[i]);
    seq(|items|, i requires 0 <= i < |items| => items[i].subtask)
  }

  /** What the validated model accepts. */
  ghost predicate Accepts(raw: RawPlan) {
    ShellOk(raw) && raw.subtasks.Items? && raw.subtasks.items != [] && AllItemsOk(raw.subtasks.items) &&
    WellFormed(SubtasksOf(raw.subtasks.items))
  }

  /** What the schema asks of one item. */
  ghost predicate Shaped(i: Item) {
    i.Good? && i.subtask.id != "" && |i.subtask.acceptance| > 0 &&
    forall k | 0 <= k < |i.subtask.rubricTargets| ::
      i.subtask.rubricTargets[k].category != "" && 1 <= i.subtask.rubricTargets[k].score <= 10
  }

  lemma ShapedItems(items: seq<Item>)
    ensures AllItemsOk(items) <==> forall k | 0 <= k < |items| :: Shaped(items[k])
  {
    forall i: Item ensures ItemOk(i) <==> Shaped(i) { ShapedIsOk(i); }
  }

  lemma ShapedIsOk(i: Item)
    ensures ItemOk(i) <==> Shaped(i)
  {
    if Shaped(i) {
      forall t | t in i.subtask.rubricTargets ensures TargetOk(t) {
        var k :| 0 <= k < |i.subtask.rubricTargets| && i.subtask.rubricTargets[k] == t;
      }
    }
    if ItemOk(i) {
      forall k | 0 <= k < |i.subtask.rubricTargets| ensures TargetOk(i.subtask.rubricTargets[k]) {
        assert i.subtask.rubricTargets[k] in i.subtask.rubricTargets;
      }
    }
  }

  method ModelValidate(raw: RawPlan) returns (r: Result<Plan, PlanError>)
    ensures r.Ok? <==> Accepts(raw)
    ensures r.Ok? ==> r.value == Plan(raw.nodeId, raw.finalAcceptance, SubtasksOf(raw.subtasks.items))
    ensures r != Err(BadFields) <==>
            raw.nodeId != "" && |raw.finalAcceptance| > 0 && raw.subtasks.Items? && |raw.subtasks.items| > 0 &&
            forall k | 0 <= k < |raw.subtasks.items| :: Shaped(raw.subtasks.items[k])
  {
    if raw.subtasks.Items? { ShapedItems(raw.subtasks.items); }
    if !ShellOk(raw) || raw.subtasks.NotAList? || raw.subtasks.items == [] || !AllItemsOk(raw.subtasks.items) {
      return Err(BadFields);
    }
    var ss := SubtasksOf(raw.subtasks.items);
    var bad := CheckUniqueAndAcyclic(ss);
    if bad.Some? { return Err(bad.value); }
    return Ok(Plan(raw.nodeId, raw.finalAcceptance, ss));
  }

  // ----- Z-99 injection -----

  predicate IsStabilization(i: Item) {
    (i.BadDict? && i.id == STABILIZATION_ID) || (i.Good? && i.subtask.id == STABILIZATION_ID)
  }

  /** `[s.get("id", "") for s in subtasks if isinstance(s, dict) and s.get("id")]`. */
  function PriorIds(items: seq<Item>): seq<string> {
    if items == [] then []
    else
      var n := |items| - 1;
      var id := match items[n] case NotADict => "" case BadDict(id) => id case Good(s) => s.id;
      PriorIds(items[..n]) + if id != "" then [id] else []
  }

  function RubricTargets(categories: Option<seq<string>>, minScore: Option<int>): seq<RubricTarget> {
    if categories.Some? && minScore.Some? then
      seq(|categories.value|, i requires 0 <= i < |categories.value| => RubricTarget(categories.value[i], minScore.value))
    else []
  }

  function Stabilization(gate: string, prior: seq<string>, targets: seq<RubricTarget>): Subtask {
    Subtask(STABILIZATION_ID, prior,
            ["Spec gate (`" + gate + "`) passes with rc=0",
             "All committed changes from prior subtasks remain functional"],
            targets, [])
  }

  /** Injection leaves the plan alone: no gate command, no list, or Z-99 already there. */
  predicate LeftAlone(raw: RawPlan, gate: Option<string>) {
    gate.None? || gate.value == "" || raw.subtasks.NotAList? || exists i | i in raw.subtasks.items :: IsStabilization(i)
  }

  function MaybeInject(raw: RawPlan, gate: Option<string>, targets: seq<RubricTarget>): RawPlan {
    if LeftAlone(raw, gate) then raw
    else
      var items := raw.subtasks.items;
      raw.(subtasks := Items(items + [Good(Stabilization(gate.value, PriorIds(items), targets))]))
  }

  predicate NamesStabilization(i: Item) {
    i == BadDict("Z-99-stabilize-spec-gate") || (i.Good? && i.subtask.id == "Z-99-stabilize-spec-gate")
  }

  /** Injection happens exactly with a gate command, a list, and no item of that id in it. */
  lemma InjectsIff(raw: RawPlan, gate: Option<string>, targets: seq<RubricTarget>)
    ensures MaybeInject(raw, gate, targets) != raw <==>
            gate.Some? && gate.value != "" && raw.subtasks.Items? &&
            forall k | 0 <= k < |raw.subtasks.items| :: !NamesStabilization(raw.subtasks.items[k])
  {
    if raw.subtasks.Items? {
      var items := raw.subtasks.items;
      forall k | 0 <= k < |items| ensures NamesStabilization(items[k]) <==> IsStabilization(items[k]) { }
      if i :| i in items && IsStabilization(i) {
        var k :| 0 <= k < |items| && items[k] == i;
        assert NamesStabilization(items[k]);
      }
      if !LeftAlone(raw, gate) {
        assert |MaybeInject(raw, gate, targets).subtasks.items| == |items| + 1;
        forall k | 0 <= k < |items| ensures !NamesStabilization(items[k]) { assert items[k] in items; }
      }
    }
  }

  /** Where it happens it adds one item at the end, that waits for every subtask of a well-shaped list
      and changes nothing else. */
  lemma InjectsOne(raw: RawPlan, gate: Option<string>, targets: seq<RubricTarget>) returns (z: Subtask)
    requires MaybeInject(raw, gate, targets) != raw
    ensures raw.subtasks.Items? &&
            MaybeInject(raw, gate, targets) == raw.(subtasks := Items(raw.subtasks.items + [Good(z)]))
    ensures z.id == "Z-99-stabilize-spec-gate" && z.rubricTargets == targets && z.evidence == [] && |z.acceptance| == 2
    ensures AllItemsOk(raw.subtasks.items) ==> z.dependsOn == IdsOf(SubtasksOf(raw.subtasks.items))
  {
    z := Stabilization(gate.value, PriorIds(raw.subtasks.items), targets);
    if AllItemsOk(raw.subtasks.items) { PriorIdsOfGood(raw.subtasks.items); }
  }

  /** The injected targets are valid exactly if there are none or the score and the categories are. */
  lemma InjectedTargetsValid(categories: Option<seq<string>>, minScore: Option<int>)
    ensures (forall t | t in RubricTargets(categories, minScore) :: TargetOk(t)) <==>
            categories.None? || minScore.None? || categories.value == [] ||
            (1 <= minScore.value <= 10 && "" !in categories.value)
  {
    if categories.Some? && minScore.Some? {
      var ts := RubricTargets(categories, minScore);
      forall k | 0 <= k < |ts|
        ensures ts[k] in ts && (TargetOk(ts[k]) <==> categories.value[k] != "" && 1 <= minScore.value <= 10)
      {
      }
      if "" in categories.value {
        var k :| 0 <= k < |ts| && categories.value[k] == "";
        assert !TargetOk(ts[k]);
      }
      if categories.value != [] { assert ts[0] in ts; }
    }
  }

  method ValidateAndBuildPlan(raw: RawPlan, expectedNode: Option<string>, gate: Option<string>,
                              categories: Option<seq<string>>, minScore: Option<int>)
    returns (r: Result<Plan, PlanError>)
    ensures var injected := MaybeInject(raw, gate, RubricTargets(categories, minScore));
            && (r.Ok? <==> Accepts(injected) &&
                           (expectedNode.None? || expectedNode.value == "" || expectedNode.value == raw.nodeId))
            && (r.Ok? ==> r.value == Plan(raw.nodeId, raw.finalAcceptance, SubtasksOf(injected.subtasks.items)))
  {
    var injected := MaybeInject(raw, gate, RubricTargets(categories, minScore));
    r := ModelValidate(injected);
    if r.Ok? && expectedNode.Some? && expectedNode.value != "" && r.value.nodeId != expectedNode.value {
      r := Err(WrongNode);
    }
  }

  // ----- what injection does to acceptance and order -----

  lemma {:induction false} PriorIdsOfGood(items: seq<Item>)
    requires AllItemsOk(items)
    ensures PriorIds(items) == IdsOf(SubtasksOf(items))
  {
    if items != [] {
      var n := |items| - 1;
      PriorIdsOfGood(items[..n]);
      assert items[n] in items;
      assert SubtasksOf(items) == SubtasksOf(items[..n]) + [items[n].subtask];
      assert IdsOf(SubtasksOf(items)) == IdsOf(SubtasksOf(items[..n])) + [items[n].subtask.id];
    }
  }

  ghost predicate NobodyWaitsFor(ss: seq<Subtask>, id: string) {
    forall i | 0 <= i < |ss| :: id !in ss[i].dependsOn
  }

  ghost predicate ListedExcept(ss: seq<Subtask>, id: string) {
    forall i, d | 0 <= i < |ss| && d in ss[i].dependsOn :: d in IdsOf(ss) || d == id
  }

  lemma AppendIds(ss: seq<Subtask>, z: Subtask)
    ensures IdsOf(ss + [z]) == IdsOf(ss) + [z.id]
    ensures Depends(ss + [z]) == Depends(ss)[z.id := z.dependsOn]
  {
    assert (ss + [z])[..|ss|] == ss;
  }

  lemma AppendListed(ss: seq<Subtask>, z: Subtask)
    requires z.dependsOn == IdsOf(ss)
    ensures DependenciesListed(ss + [z]) <==> ListedExcept(ss, z.id)
  {
    AppendIds(ss, z);
    var all := ss + [z];
    if DependenciesListed(all) {
      forall i, d | 0 <= i < |ss| && d in ss[i].dependsOn ensures d in IdsOf(ss) || d == z.id {
        assert all[i] == ss[i];
        assert d in IdsOf(all);
      }
    }
    if ListedExcept(ss, z.id) {
      forall i, d | 0 <= i < |all| && d in all[i].dependsOn ensures d in IdsOf(all) {
        if i < |ss| { assert d in ss[i].dependsOn; }
      }
    }
  }

  /** A subtask that depends on everything else closes a cycle exactly when somebody depends on
      it. */
  lemma CyclesAfterAppend(ss: seq<Subtask>, z: Subtask)
    requires Distinct(IdsOf(ss)) && z.id !in IdsOf(ss) && z.dependsOn == IdsOf(ss)
    ensures HasCycle(Depends(ss)[z.id := z.dependsOn]) <==> HasCycle(Depends(ss)) || !NobodyWaitsFor(ss, z.id)
  {
    var g := Depends(ss);
    var g' := g[z.id := z.dependsOn];
    if p :| IsCycle(g, p) {
      forall i | 0 <= i < |p| - 1 ensures Edge(g', p[i], p[i + 1]) { assert Edge(g, p[i], p[i + 1]); }
      assert IsCycle(g', p);
    }
    if !NobodyWaitsFor(ss, z.id) {
      var i :| 0 <= i < |ss| && z.id in ss[i].dependsOn;
      DependsAt(ss, i);
      assert IdsOf(ss)[i] == ss[i].id;
      var p := [z.id, ss[i].id, z.id];
      assert Edge(g', p[0], p[1]) && Edge(g', p[1], p[2]);
      assert IsCycle(g', p);
    }
    if p :| IsCycle(g', p) && NobodyWaitsFor(ss, z.id) {
      CycleAvoids(ss, z, p);
      assert IsCycle(g, p);
    }
  }

  lemma CycleAvoids(ss: seq<Subtask>, z: Subtask, p: seq<string>)
    requires Distinct(IdsOf(ss)) && z.id !in IdsOf(ss) && z.dependsOn == IdsOf(ss)
    requires NobodyWaitsFor(ss, z.id) && IsCycle(Depends(ss)[z.id := z.dependsOn], p)
    ensures IsPath(Depends(ss), p)
  {
    var g, g' := Depends(ss), Depends(ss)[z.id := z.dependsOn];
    forall i | 0 < i < |p| ensures p[i] != z.id {
      assert Edge(g', p[i - 1], p[i]);
      if p[i - 1] != z.id {
        var k :| 0 <= k < |ss| && IdsOf(ss)[k] == p[i - 1];
        DependsAt(ss, k);
      }
    }
    forall i | 0 <= i < |p| - 1 ensures Edge(g, p[i], p[i + 1]) {
      assert Edge(g', p[i], p[i + 1]);
    }
  }

  /** Injection and acceptance, for every planner output: with a gate, a real list and no Z-99
      in it, the injected plan is accepted exactly when the injected targets are themselves
      valid and the original was accepted or had no subtasks at all. */
  lemma InjectionKeepsAcceptance(raw: RawPlan, gate: Option<string>, targets: seq<RubricTarget>)
    ensures LeftAlone(raw, gate) ==> MaybeInject(raw, gate, targets) == raw
    ensures !LeftAlone(raw, gate) ==>
              (Accepts(MaybeInject(raw, gate, targets)) <==>
               (forall t | t in targets :: TargetOk(t)) &&
               if raw.subtasks.items == [] then ShellOk(raw) else Accepts(raw))
  {
    if !LeftAlone(raw, gate) {
      var items := raw.subtasks.items;
      var z := Stabilization(gate.value, PriorIds(items), targets);
      ItemsOkAfterAppend(items, z);
      if AllItemsOk(items + [Good(z)]) {
        AcceptedTogether(items, z);
        assert SubtasksOf(items + [Good(z)]) == SubtasksOf(items) + [z];
        if items == [] { LoneSubtask(z); }
      }
    }
  }

  lemma ItemsOkAfterAppend(items: seq<Item>, z: Subtask)
    ensures AllItemsOk(items + [Good(z)]) <==> AllItemsOk(items) && FieldsOk(z)
  {
    var more := items + [Good(z)];
    assert more[|items|] == Good(z);
    if AllItemsOk(more) {
      assert Good(z) in more && ItemOk(Good(z));
      forall i | i in items ensures ItemOk(i) { assert i in more; }
    }
  }

  lemma LoneSubtask(z: Subtask)
    requires z.dependsOn == []
    ensures WellFormed([z])
  {
    assert [] + [z] == [z];
    AppendIds([], z);
    if p :| IsCycle(Depends([z]), p) {
      assert Edge(Depends([z]), p[0], p[1]);
    }
  }

  lemma AppendWellFormed(ss: seq<Subtask>, z: Subtask)
    requires z.id !in IdsOf(ss) && z.dependsOn == IdsOf(ss)
    ensures WellFormed(ss + [z]) <==> WellFormed(ss)
  {
    AppendIds(ss, z);
    AppendListed(ss, z);
    assert IdsOf(ss + [z])[..|ss|] == IdsOf(ss);
    assert Distinct(IdsOf(ss + [z])) <==> Distinct(IdsOf(ss));
    ListedSplit(ss, z.id);
    if Distinct(IdsOf(ss)) {
      CyclesAfterAppend(ss, z);
    }
  }

  lemma ListedSplit(ss: seq<Subtask>, id: string)
    requires id !in IdsOf(ss)
    ensures DependenciesListed(ss) <==> ListedExcept(ss, id) && NobodyWaitsFor(ss, id)
  {
  }

  lemma AcceptedTogether(items: seq<Item>, z: Subtask)
    requires AllItemsOk(items) && z.id == STABILIZATION_ID && z.dependsOn == PriorIds(items)
    requires forall i | i in items :: !IsStabilization(i)
    ensures WellFormed(SubtasksOf(items) + [z]) <==> WellFormed(SubtasksOf(items))
  {
    var ss := SubtasksOf(items);
    PriorIdsOfGood(items);
    forall i | 0 <= i < |ss| ensures IdsOf(ss)[i] != z.id { assert items[i] in items; }
    AppendWellFormed(ss, z);
  }

  /** A planner that already waits for Z-99 fails either way: an unknown id before injection, a
      cycle after it. */
  lemma WaitingForStabilization(ss: seq<Subtask>, z: Subtask)
    requires Distinct(IdsOf(ss)) && z.id !in IdsOf(ss) && z.dependsOn == IdsOf(ss)
    requires !NobodyWaitsFor(ss, z.id)
    ensures !DependenciesListed(ss)
    ensures HasCycle(Depends(ss + [z]))
  {
    AppendIds(ss, z);
    CyclesAfterAppend(ss, z);
    var i :| 0 <= i < |ss| && z.id in ss[i].dependsOn;
  }

  /** The accepted order is kept, Z-99 comes last. */
  lemma InjectedOrder(ss: seq<Subtask>, z: Subtask, o: seq<string>)
    requires WellFormed(ss) && z.id !in IdsOf(ss) && z.dependsOn == IdsOf(ss)
    requires IsLeastTopoOrder(Depends(ss), o)
    ensures IsLeastTopoOrder(Depends(ss + [z]), o + [z.id])
  {
    AppendIds(ss, z);
    var g, g' := Depends(ss), Depends(ss + [z]);
    OrderExtends(ss, z, o);
    forall other | IsTopoOrder(g', other) ensures LexLeq(o + [z.id], other) {
      var front := OrderEndsWith(ss, z, other);
      assert LexLeq(o, front);
      LexAppend(o, front, z.id);
    }
  }

  lemma LexAppend(a: seq<string>, b: seq<string>, x: string)
    requires LexLeq(a, b)
    ensures LexLeq(a + [x], b + [x])
  {
    if a != b {
      var k :| DiffersBelow(a, b, k);
      assert (a + [x])[..k] == a[..k] && (b + [x])[..k] == b[..k];
      assert DiffersBelow(a + [x], b + [x], k);
    }
  }

  lemma OrderExtends(ss: seq<Subtask>, z: Subtask, o: seq<string>)
    requires WellFormed(ss) && z.id !in IdsOf(ss) && z.dependsOn == IdsOf(ss)
    requires IsTopoOrder(Depends(ss), o)
    ensures IsTopoOrder(Depends(ss)[z.id := z.dependsOn], o + [z.id])
  {
    var g, g', o' := Depends(ss), Depends(ss)[z.id := z.dependsOn], o + [z.id];
    forall i, j | 0 <= i < |o'| && 0 <= j < |o'| && Edge(g', o'[i], o'[j]) ensures j < i {
      if i < |o| {
        var k :| 0 <= k < |ss| && IdsOf(ss)[k] == o[i];
        DependsAt(ss, k);
        assert o'[j] in ss[k].dependsOn;
        assert Edge(g, o[i], o[j]);
      }
    }
  }

  lemma StabilizationComesLast(ss: seq<Subtask>, z: Subtask, other: seq<string>)
    requires z.id !in IdsOf(ss) && z.dependsOn == IdsOf(ss) && IsTopoOrder(Depends(ss)[z.id := z.dependsOn], other)
    ensures other != [] && other[|other| - 1] == z.id
  {
    var g' := Depends(ss)[z.id := z.dependsOn];
    assert z.id in g' && z.id in other;
    var m :| 0 <= m < |other| && other[m] == z.id;
    var last := |other| - 1;
    assert other[last] in other && other[last] in g';
    WaitsForAll(ss, z, other[last]);
  }

  lemma WaitsForAll(ss: seq<Subtask>, z: Subtask, x: string)
    requires z.dependsOn == IdsOf(ss) && x in Depends(ss)[z.id := z.dependsOn]
    ensures x != z.id ==> Edge(Depends(ss)[z.id := z.dependsOn], z.id, x)
  {
  }

  lemma OrderEndsWith(ss: seq<Subtask>, z: Subtask, other: seq<string>) returns (front: seq<string>)
    requires WellFormed(ss) && z.id !in IdsOf(ss) && z.dependsOn == IdsOf(ss)
    requires IsTopoOrder(Depends(ss)[z.id := z.dependsOn], other)
    ensures other == front + [z.id] && IsTopoOrder(Depends(ss), front)
  {
    var g, g' := Depends(ss), Depends(ss)[z.id := z.dependsOn];
    StabilizationComesLast(ss, z, other);
    var m := |other| - 1;
    front := other[..m];
    forall x | x in g ensures x in front {
      assert x in other;
    }
    forall i, j | 0 <= i < |front| && 0 <= j < |front| && Edge(g, front[i], front[j]) ensures j < i {
      assert Edge(g', other[i], other[j]);
    }
  }

  /** The same for whole plans: an accepted planner output stays accepted, and its order gains
      Z-99 at the end. */
  lemma InjectedPlanOrder(raw: RawPlan, gate: Option<string>, targets: seq<RubricTarget>, o: seq<string>)
    requires Accepts(raw) && !LeftAlone(raw, gate) && forall t | t in targets :: TargetOk(t)
    requires IsLeastTopoOrder(Depends(SubtasksOf(raw.subtasks.items)), o)
    ensures Accepts(MaybeInject(raw, gate, targets))
    ensures IsLeastTopoOrder(Depends(SubtasksOf(MaybeInject(raw, gate, targets).subtasks.items)), o + [STABILIZATION_ID])
  {
    InjectionKeepsAcceptance(raw, gate, targets);
    var items := raw.subtasks.items;
    var ss, z := SubtasksOf(items), Stabilization(gate.value, PriorIds(items), targets);
    PriorIdsOfGood(items);
    forall i | 0 <= i < |ss| ensures IdsOf(ss)[i] != z.id { assert items[i] in items; }
    assert SubtasksOf(items + [Good(z)]) == ss + [z];
    InjectedOrder(ss, z, o);
  }

  lemma IdsTellApart(ss: seq<Subtask>, s: Subtask, t: Subtask)
    requires Distinct(IdsOf(ss)) && s in ss && t in ss && s != t
    ensures s.id != t.id
  {
    var a :| 0 <= a < |ss| && ss[a] == s;
    var b :| 0 <= b < |ss| && ss[b] == t;
    assert IdsOf(ss)[a] == s.id && IdsOf(ss)[b] == t.id;
  }

  /** Listing the same subtasks in another order changes neither the graph nor its order. */
  lemma ListingDoesNotMatter(ss: seq<Subtask>, tt: seq<Subtask>)
    requires multiset(ss) == multiset(tt) && Distinct(IdsOf(ss))
    ensures Distinct(IdsOf(tt)) && Depends(ss) == Depends(tt)
  {
    forall i, j | 0 <= i < j < |ss| ensures ss[i] != ss[j] { assert IdsOf(ss)[i] != IdsOf(ss)[j]; }
    DistinctMultiset(ss);
    MultisetDistinct(tt);
    forall i, j | 0 <= i < j < |tt| ensures IdsOf(tt)[i] != IdsOf(tt)[j] {
      assert tt[i] in multiset(ss) && tt[j] in multiset(ss);
      IdsTellApart(ss, tt[i], tt[j]);
    }
    forall x ensures x in Depends(ss) <==> x in Depends(tt)
             ensures x in Depends(ss) ==> Depends(ss)[x] == Depends(tt)[x] {
      SameEntry(ss, tt, x);
      SameEntry(tt, ss, x);
    }
  }

  lemma SameEntry(ss: seq<Subtask>, tt: seq<Subtask>, x: string)
    requires multiset(ss) == multiset(tt) && Distinct(IdsOf(ss)) && Distinct(IdsOf(tt))
    ensures x in Depends(ss) ==> x in Depends(tt) && Depends(tt)[x] == Depends(ss)[x]
  {
    if x in Depends(ss) {
      var a :| 0 <= a < |ss| && IdsOf(ss)[a] == x;
      assert ss[a] in multiset(tt);
      var b :| 0 <= b < |tt| && tt[b] == ss[a];
      assert IdsOf(tt)[b] == x;
      DependsAt(ss, a);
      DependsAt(tt, b);
    }
  }

  lemma InjectionIsIdempotent(raw: RawPlan, gate: Option<string>, targets: seq<RubricTarget>, again: seq<RubricTarget>)
    ensures var once := MaybeInject(raw, gate, targets); MaybeInject(once, gate, again) == once
  {
    if !LeftAlone(raw, gate) {
      var items := raw.subtasks.items;
      var z := Good(Stabilization(gate.value, PriorIds(items), targets));
      assert (items + [z])[|items|] == z;
      assert IsStabilization(z) && z in items + [z];
    }
  }
}
