/** The task DAG: ordering, layering, readiness and the three worklist closures. */
module Dag {
  import opened Ids
  import opened Graph
  import opened Kahn

  datatype Node = Node(id: string, kind: string, milestone: string, dependsOn: seq<string>)

  /** `nodes` is a Python dict: `order` is the order in which its keys were first inserted. */
  datatype Dag = Dag(order: seq<string>, nodes: map<string, Node>) {
    ghost predicate Valid() {
      Lists(order, nodes.Keys) && forall n | n in nodes :: nodes[n].id == n
    }

    function Deps(): (g: Graph)
      ensures g.Keys == nodes.Keys
    {
      map n | n in nodes :: nodes[n].dependsOn
    }
  }

  datatype DagError = CycleInDag | MaxOfNothing

  method TopoOrder(d: Dag) returns (r: Result<seq<string>, DagError>)
    requires d.Valid()
    ensures r.Err? <==> HasCycle(d.Deps())
    ensures r.Err? ==> r.error == CycleInDag
    ensures r.Ok? ==> IsLeastTopoOrder(d.Deps(), r.value)
  {
    var g := d.Deps();
    var out := KahnOrder(d.order, g);
    CountDecides(g, out);
    if |out| != |d.nodes.Keys| { return Err(CycleInDag); }
    return Ok(out);
  }

  // ----- layers -----

  /** `max(depth[d] for d in deps if d in depth)`; the maximum of nothing is an error. */
  method MaxKnown(deps: seq<string>, depth: map<string, nat>) returns (m: Option<nat>)
    ensures m.None? <==> forall d | d in deps :: d !in depth
    ensures m.Some? ==> exists d :: d in deps && d in depth && depth[d] == m.value
    ensures m.Some? ==> forall d | d in deps && d in depth :: depth[d] <= m.value
  {
    m := None;
    for i := 0 to |deps|
      invariant m.None? <==> forall d | d in deps[..i] :: d !in depth
      invariant m.Some? ==> exists d :: d in deps[..i] && d in depth && depth[d] == m.value
      invariant m.Some? ==> forall d | d in deps[..i] && d in depth :: depth[d] <= m.value
    {
      var d := deps[i];
      assert deps[..i + 1] == deps[..i] + [d];
      if d in depth && (m.None? || depth[d] > m.value) {
        m := Some(depth[d]);
        assert d in deps[..i + 1];
      }
    }
    assert deps[..|deps|] == deps;
  }

  /** Every dependency of `n` is an id no node defines, and there is at least one. */
  ghost predicate OnlyUnknown(g: Graph, n: string) {
    n in g && g[n] != [] && forall d | d in g[n] :: d !in g
  }

  lemma DepthOfRoot(g: Graph, n: string)
    requires n in g && g[n] == []
    ensures DepthIs(g, n, 0)
  {
  }

  lemma DepthAboveDeepest(g: Graph, n: string, depth: map<string, nat>, deepest: string)
    requires n in g && deepest in g[n] && deepest in depth
    requires forall d | d in depth :: DepthIs(g, d, depth[d])
    requires forall d | d in g[n] && d in g :: d in depth && depth[d] <= depth[deepest]
    ensures DepthIs(g, n, depth[deepest] + 1)
  {
    var k := depth[deepest] + 1;
    assert HasChain(g, deepest, k - 1);
    assert HasChain(g, n, k);
    if HasChain(g, n, k + 1) {
      var d :| d in g[n] && HasChain(g, d, k);
      ShorterChain(g, d, depth[d] + 1, k);
    }
  }

  method NodeDepth(g: Graph, nid: string, depth: map<string, nat>) returns (k: Option<nat>)
    requires nid in g && forall d | d in depth :: d in g && DepthIs(g, d, depth[d])
    requires forall d | d in g[nid] && d in g :: d in depth
    ensures k.None? <==> OnlyUnknown(g, nid)
    ensures k.Some? ==> DepthIs(g, nid, k.value)
    ensures k.Some? && k.value > 0 ==> exists d :: d in g[nid] && d in depth && depth[d] == k.value - 1
  {
    if g[nid] == [] {
      DepthOfRoot(g, nid);
      return Some(0);
    }
    var m := MaxKnown(g[nid], depth);
    if m.None? { return None; }
    ghost var deepest :| deepest in g[nid] && deepest in depth && depth[deepest] == m.value;
    DepthAboveDeepest(g, nid, depth, deepest);
    return Some(1 + m.value);
  }

  /** The depth dict of `topo_layers`, filled along the topological order. */
  method Depths(g: Graph, topo: seq<string>) returns (r: Result<map<string, nat>, DagError>)
    requires IsTopoOrder(g, topo)
    ensures r.Err? <==> exists n :: OnlyUnknown(g, n)
    ensures r.Err? ==> r.error == MaxOfNothing
    ensures r.Ok? ==> DepthTable(g, topo, r.value)
  {
    var depth: map<string, nat> := map[];
    for i := 0 to |topo|
      invariant DepthTable(g, topo[..i], depth)
      invariant forall n | n in topo[..i] :: !OnlyUnknown(g, n)
    {
      EarlierHoldsDependencies(g, topo, i);
      var k := NodeDepth(g, topo[i], depth);
      if k.None? {
        return Err(MaxOfNothing);
      }
      DepthTableGrows(g, topo, i, depth, k.value);
      depth := depth[topo[i] := k.value];
    }
    assert topo[..|topo|] == topo;
    forall n ensures !OnlyUnknown(g, n) {
      if n in g { assert n in topo; }
    }
    return Ok(depth);
  }

  ghost predicate DepthTable(g: Graph, listed: seq<string>, depth: map<string, nat>) {
    depth.Keys == Elements(listed) &&
    (forall n | n in depth :: n in g && DepthIs(g, n, depth[n])) &&
    (forall j | 0 <= j < |listed| :: depth[listed[j]] <= j)
  }

  lemma DepthTableGrows(g: Graph, topo: seq<string>, i: nat, depth: map<string, nat>, k: nat)
    requires IsTopoOrder(g, topo) && i < |topo| && DepthTable(g, topo[..i], depth) && topo[i] !in topo[..i]
    requires DepthIs(g, topo[i], k)
    requires k > 0 ==> exists d :: d in g[topo[i]] && d in depth && depth[d] == k - 1
    ensures DepthTable(g, topo[..i + 1], depth[topo[i] := k])
  {
    var listed, nid, grown := topo[..i], topo[i], depth[topo[i] := k];
    assert topo[..i + 1] == listed + [nid];
    assert k <= i by {
      if k > 0 {
        var d :| d in g[nid] && d in depth && depth[d] == k - 1;
        assert d in listed;
        var j :| 0 <= j < i && listed[j] == d;
      }
    }
    assert grown.Keys == Elements(topo[..i + 1]);
    var longer := topo[..i + 1];
    forall j | 0 <= j < |longer| ensures grown[longer[j]] <= j {
      if j < i { assert longer[j] == listed[j] && listed[j] in listed; }
    }
  }

  lemma EarlierHoldsDependencies(g: Graph, topo: seq<string>, i: nat)
    requires IsTopoOrder(g, topo) && i < |topo|
    ensures topo[i] !in topo[..i]
    ensures forall d | d in g[topo[i]] && d in g :: d in topo[..i]
  {
    forall d | d in g[topo[i]] && d in g ensures d in topo[..i] {
      assert d in topo;
      var j :| 0 <= j < |topo| && topo[j] == d;
      assert Edge(g, topo[i], topo[j]);
      assert topo[..i][j] == d;
    }
  }

  /** The nodes of depth `k`, in the order of `o`. */
  ghost function AtDepth(g: Graph, o: seq<string>, k: nat): seq<string> {
    if o == [] then []
    else
      var n := |o| - 1;
      AtDepth(g, o[..n], k) + if DepthIs(g, o[n], k) then [o[n]] else []
  }

  lemma {:induction false} AtDepthMembers(g: Graph, o: seq<string>, k: nat, x: string)
    ensures x in AtDepth(g, o, k) <==> x in o && DepthIs(g, x, k)
  {
    if o != [] {
      AtDepthMembers(g, o[..|o| - 1], k, x);
      assert o == o[..|o| - 1] + [o[|o| - 1]];
    }
  }

  lemma DepthUnique(g: Graph, n: string, j: nat, k: nat)
    requires DepthIs(g, n, j) && DepthIs(g, n, k)
    ensures j == k
  {
    if j < k { ShorterChain(g, n, j + 1, k); }
    if k < j { ShorterChain(g, n, k + 1, j); }
  }

  /** Below a node of depth `k` there is a node of every smaller depth. */
  lemma {:induction false} NoDepthGap(g: Graph, n: string, k: nat, j: nat) returns (m: string)
    requires DepthIs(g, n, k) && j <= k
    ensures DepthIs(g, m, j)
    decreases k
  {
    m := n;
    if j < k {
      var d :| d in g[n] && HasChain(g, d, k - 1);
      assert !HasChain(g, d, k);
      m := NoDepthGap(g, d, k - 1, j);
    }
  }

  /** Layer `k` lists the nodes whose longest dependency chain has `k` links, in the order of
      the least topological order; every node has a layer and no layer is empty. */
  ghost predicate IsLayering(g: Graph, layers: seq<seq<string>>) {
    exists o :: IsLeastTopoOrder(g, o) && LayersFollow(g, o, layers)
  }

  ghost predicate LayersFollow(g: Graph, o: seq<string>, layers: seq<seq<string>>) {
    (forall k | 0 <= k < |layers| :: layers[k] == AtDepth(g, o, k) && layers[k] != []) &&
    AtDepth(g, o, |layers|) == []
  }

  lemma DepthGroupsGrow(g: Graph, o: seq<string>, i: nat, k: nat)
    requires i < |o|
    ensures AtDepth(g, o[..i + 1], k) == AtDepth(g, o[..i], k) + if DepthIs(g, o[i], k) then [o[i]] else []
  {
    assert o[..i + 1][..i] == o[..i];
  }

  ghost predicate Grouped(g: Graph, listed: seq<string>, groups: map<nat, seq<string>>) {
    forall k: nat {:trigger GroupIs(g, listed, groups, k)} :: GroupIs(g, listed, groups, k)
  }

  ghost predicate GroupIs(g: Graph, listed: seq<string>, groups: map<nat, seq<string>>, k: nat) {
    if k in groups then groups[k] == AtDepth(g, listed, k) && groups[k] != [] else AtDepth(g, listed, k) == []
  }

  lemma GroupingStep(g: Graph, topo: seq<string>, i: nat, dep: nat,
                     groups: map<nat, seq<string>>, groups': map<nat, seq<string>>)
    requires i < |topo| && DepthIs(g, topo[i], dep) && Grouped(g, topo[..i], groups)
    requires groups' == groups[dep := (if dep in groups then groups[dep] else []) + [topo[i]]]
    ensures Grouped(g, topo[..i + 1], groups')
  {
    forall k: nat {:trigger GroupIs(g, topo[..i + 1], groups', k)} ensures GroupIs(g, topo[..i + 1], groups', k) {
      assert GroupIs(g, topo[..i], groups, k);
      DepthGroupsGrow(g, topo, i, k);
      if DepthIs(g, topo[i], k) { DepthUnique(g, topo[i], k, dep); }
    }
  }

  /** `layers[d].append(nid)` for each node in order. */
  method CollectGroups(g: Graph, topo: seq<string>, depth: map<string, nat>) returns (groups: map<nat, seq<string>>)
    requires IsTopoOrder(g, topo) && DepthTable(g, topo, depth)
    ensures Grouped(g, topo, groups)
  {
    groups := map[];
    assert forall k: nat :: GroupIs(g, topo[..0], groups, k);
    for i := 0 to |topo|
      invariant Grouped(g, topo[..i], groups)
    {
      var dep := depth[topo[i]];
      ghost var groups0 := groups;
      groups := groups[dep := (if dep in groups then groups[dep] else []) + [topo[i]]];
      GroupingStep(g, topo, i, dep, groups0, groups);
    }
    assert topo[..|topo|] == topo;
  }

  /** `[layers[d] for d in sorted(layers)]`. */
  method GroupsInOrder(g: Graph, topo: seq<string>, groups: map<nat, seq<string>>) returns (layers: seq<seq<string>>)
    requires IsTopoOrder(g, topo) && Grouped(g, topo, groups) && AtDepth(g, topo, |topo|) == []
    ensures LayersFollow(g, topo, layers)
  {
    layers := [];
    for k := 0 to |topo|
      invariant |layers| <= k
      invariant forall j | 0 <= j < |layers| :: layers[j] == AtDepth(g, topo, j) && layers[j] != []
      invariant |layers| < k ==> AtDepth(g, topo, |layers|) == []
    {
      assert GroupIs(g, topo, groups, k);
      if k in groups {
        GroupsContiguous(g, topo, |layers|, k);
        layers := layers + [groups[k]];
      }
    }
  }

  lemma NothingDeeper(g: Graph, topo: seq<string>, depth: map<string, nat>)
    requires IsTopoOrder(g, topo) && DepthTable(g, topo, depth)
    ensures AtDepth(g, topo, |topo|) == []
  {
    if AtDepth(g, topo, |topo|) != [] {
      var n := AtDepth(g, topo, |topo|)[0];
      AtDepthMembers(g, topo, |topo|, n);
      var j :| 0 <= j < |topo| && topo[j] == n;
      DepthUnique(g, n, depth[n], |topo|);
    }
  }

  lemma GroupsContiguous(g: Graph, topo: seq<string>, j: nat, k: nat)
    requires IsTopoOrder(g, topo) && j <= k && AtDepth(g, topo, k) != []
    ensures AtDepth(g, topo, j) != []
  {
    var n := AtDepth(g, topo, k)[0];
    AtDepthMembers(g, topo, k, n);
    var m := NoDepthGap(g, n, k, j);
    AtDepthMembers(g, topo, j, m);
  }

  method TopoLayers(d: Dag) returns (r: Result<seq<seq<string>>, DagError>)
    requires d.Valid()
    ensures r == Err(CycleInDag) <==> HasCycle(d.Deps())
    ensures r == Err(MaxOfNothing) <==> !HasCycle(d.Deps()) && exists n :: OnlyUnknown(d.Deps(), n)
    ensures r.Ok? ==> IsLayering(d.Deps(), r.value)
  {
    var topo := TopoOrder(d);
    if topo.Err? { return Err(topo.error); }
    var g := d.Deps();
    var depth := Depths(g, topo.value);
    if depth.Err? { return Err(depth.error); }
    var groups := CollectGroups(g, topo.value, depth.value);
    NothingDeeper(g, topo.value, depth.value);
    var layers := GroupsInOrder(g, topo.value, groups);
    assert IsLayering(g, layers);
    return Ok(layers);
  }

  // ----- readiness -----

  /** `n` is offered: not finished, not running, not of a skipped kind, all dependencies done. */
  predicate IsReady(d: Dag, completed: set<string>, inProgress: set<string>, skip: set<string>, n: string) {
    n in d.nodes && n !in completed && n !in inProgress && d.nodes[n].kind !in skip &&
    forall dep | dep in d.nodes[n].dependsOn :: dep in completed
  }

  ghost function ReadySet(d: Dag, completed: set<string>, inProgress: set<string>, skip: set<string>): set<string> {
    set n | n in d.nodes && IsReady(d, completed, inProgress, skip, n)
  }

  function NodeIds(ns: seq<Node>): (ids: seq<string>)
    ensures |ids| == |ns| && forall i | 0 <= i < |ns| :: ids[i] == ns[i].id
  {
    seq(|ns|, i requires 0 <= i < |ns| => ns[i].id)
  }

  predicate AllIn(deps: seq<string>, completed: set<string>) {
    forall dep | dep in deps :: dep in completed
  }

  method ReadyIds(d: Dag, completed: set<string>, inProgress: set<string>, skip: set<string>) returns (ids: seq<string>)
    requires d.Valid()
    ensures Lists(ids, ReadySet(d, completed, inProgress, skip))
  {
    ids := [];
    for i := 0 to |d.order|
      invariant Distinct(ids)
      invariant forall n :: n in ids <==> n in d.order[..i] && IsReady(d, completed, inProgress, skip, n)
    {
      var nid := d.order[i];
      assert d.order[..i + 1] == d.order[..i] + [nid];
      assert nid !in d.order[..i];
      if nid in completed || nid in inProgress || d.nodes[nid].kind in skip {
        continue;
      }
      if AllIn(d.nodes[nid].dependsOn, completed) {
        ids := ids + [nid];
      }
    }
    assert d.order[..|d.order|] == d.order;
  }

  method ReadyNodes(d: Dag, completed: set<string>, inProgress: set<string>, skip: set<string>)
    returns (ready: seq<Node>)
    requires d.Valid()
    ensures Lists(NodeIds(ready), ReadySet(d, completed, inProgress, skip)) && Sorted(NodeIds(ready))
    ensures forall i | 0 <= i < |ready| :: ready[i].id in d.nodes && ready[i] == d.nodes[ready[i].id]
  {
    var ids := ReadyIds(d, completed, inProgress, skip);
    var sorted := SortIds(ids);
    SortKeepsListing(ids, ReadySet(d, completed, inProgress, skip));
    assert forall i | 0 <= i < |sorted| :: sorted[i] in d.nodes by {
      forall i | 0 <= i < |sorted| ensures sorted[i] in d.nodes {
        assert sorted[i] in ReadySet(d, completed, inProgress, skip);
      }
    }
    ready := seq(|sorted|, i requires 0 <= i < |sorted| => d.nodes[sorted[i]]);
    assert NodeIds(ready) == sorted;
  }

  // ----- closures -----

  ghost function Universe(g: Graph, seed: set<string>): set<string> {
    seed + g.Keys + set n, dep | n in g && dep in g[n] :: dep
  }

  ghost predicate Forced(g: Graph, seed: set<string>, x: string) {
    x in Universe(g, seed) && InEveryClosure(g, seed, x)
  }

  /** What the dependency worklist keeps: nothing lost, nothing unforced. */
  ghost predicate Closing(g: Graph, seed: set<string>, out: set<string>, stack: seq<string>) {
    (forall x {:trigger x in seed} | x in seed :: x in out || x in stack) &&
    (forall n, dep {:trigger Edge(g, n, dep)} | n in out && Edge(g, n, dep) :: dep in out || dep in stack) &&
    (forall x {:trigger Forced(g, seed, x)} | x in out || x in stack :: Forced(g, seed, x))
  }

  lemma ClosingStep(g: Graph, seed: set<string>, out: set<string>, stack: seq<string>, cur: string)
    requires Closing(g, seed, out, stack + [cur])
    ensures Closing(g, seed, out + {cur}, stack + if cur in g then g[cur] else [])
    ensures cur in Universe(g, seed) && out <= Universe(g, seed)
  {
    assert cur in stack + [cur] && Forced(g, seed, cur);
    if cur in g { ClosureStep(g, seed, cur); }
    forall x | x in out ensures x in Universe(g, seed) { assert Forced(g, seed, x); }
    forall x | x in stack ensures Forced(g, seed, x) { assert x in stack + [cur]; }
  }

  lemma ClosingStart(g: Graph, stack: seq<string>)
    ensures Closing(g, Elements(stack), {}, stack)
  {
  }

  lemma ClosingSkip(g: Graph, seed: set<string>, out: set<string>, stack: seq<string>, cur: string)
    requires Closing(g, seed, out, stack + [cur]) && cur in out
    ensures Closing(g, seed, out, stack)
  {
    assert forall x | x in stack + [cur] :: x in out || x in stack;
  }

  lemma ClosingEnd(g: Graph, seed: set<string>, out: set<string>)
    requires Closing(g, seed, out, [])
    ensures IsDependencyClosure(g, seed, out)
  {
    forall t | DepClosed(g, t) && seed <= t ensures out <= t {
      forall x | x in out ensures x in t { assert Forced(g, seed, x); }
    }
  }

  /** One turn of the worklist; it either records an id or shortens the stack. */
  method CloseOnce(g: Graph, ghost seed: set<string>, out0: set<string>, stack0: seq<string>)
    returns (out: set<string>, stack: seq<string>)
    requires Closing(g, seed, out0, stack0) && stack0 != []
    ensures Closing(g, seed, out, stack)
    ensures Universe(g, seed) - out < Universe(g, seed) - out0 || (out == out0 && |stack| < |stack0|)
  {
    var cur, rest := Pop(stack0);
    out, stack := out0, rest;
    if cur in out {
      ClosingSkip(g, seed, out0, rest, cur);
    } else {
      ClosingStep(g, seed, out0, rest, cur);
      assert cur in Universe(g, seed) - out0;
      out := out + {cur};
      stack := stack + if cur in g then g[cur] else [];
    }
  }

  /** The worklist shared by `filter` and `ancestors_of`. */
  method CloseUnderDependencies(g: Graph, stack0: seq<string>) returns (out: set<string>)
    ensures IsDependencyClosure(g, Elements(stack0), out)
  {
    out := {};
    var stack := stack0;
    ghost var seed := Elements(stack0);
    ClosingStart(g, stack0);
    while stack != []
      invariant Closing(g, seed, out, stack)
      decreases Universe(g, seed) - out, |stack|
    {
      out, stack := CloseOnce(g, seed, out, stack);
    }
    ClosingEnd(g, seed, out);
  }

  /** `list(a_set)`: some listing, in no promised order. */
  method ListOf(s: set<string>) returns (r: seq<string>)
    ensures Lists(r, s)
  {
    r := [];
    var rest := s;
    while rest != {}
      invariant Distinct(r) && rest <= s
      invariant forall x | x in r :: x in s && x !in rest
      invariant forall x | x in s :: x in r || x in rest
    {
      var x :| x in rest;
      r, rest := r + [x], rest - {x};
    }
  }

  ghost function Seed(d: Dag, ids: Option<seq<string>>, milestone: Option<string>): set<string> {
    (if ids.Some? then set i | i in ids.value && i in d.nodes else {}) +
    (if milestone.Some? && milestone.value != "" then set n | n in d.nodes && d.nodes[n].milestone == milestone.value
     else {})
  }

  method Filter(d: Dag, ids: Option<seq<string>>, milestone: Option<string>) returns (out: set<string>)
    requires d.Valid()
    ensures ids.None? && milestone.None? ==> out == d.nodes.Keys
    ensures ids.Some? || milestone.Some? ==> IsDependencyClosure(d.Deps(), Seed(d, ids, milestone), out)
  {
    if ids.None? && milestone.None? {
      return d.nodes.Keys;
    }
    var seed: set<string> := {};
    if ids.Some? && ids.value != [] {
      seed := seed + set i | i in ids.value && i in d.nodes;
    }
    if milestone.Some? && milestone.value != "" {
      seed := seed + set n | n in d.nodes && d.nodes[n].milestone == milestone.value;
    }
    var stack := ListOf(seed);
    assert Elements(stack) == seed == Seed(d, ids, milestone);
    out := CloseUnderDependencies(d.Deps(), stack);
  }

  method AncestorsOf(d: Dag, nodeId: string) returns (out: set<string>)
    requires d.Valid()
    ensures IsAncestors(d.Deps(), nodeId, out)
  {
    if nodeId !in d.nodes {
      return {};
    }
    out := CloseUnderDependencies(d.Deps(), d.nodes[nodeId].dependsOn);
  }

  /** `rev.get(cur, [])`. */
  function Children(rev: map<string, seq<string>>, cur: string): seq<string> {
    if cur in rev then rev[cur] else []
  }

  ghost predicate AreDependents(g: Graph, listed: seq<string>, cur: string, children: seq<string>) {
    forall n :: n in children <==> n in listed && Edge(g, n, cur)
  }

  ghost predicate ReverseOf(g: Graph, listed: seq<string>, rev: map<string, seq<string>>) {
    forall cur {:trigger Children(rev, cur)} :: AreDependents(g, listed, cur, Children(rev, cur))
  }

  method ReverseNode(g: Graph, nid: string, rev0: map<string, seq<string>>) returns (rev: map<string, seq<string>>)
    requires nid in g
    ensures forall cur, n :: n in Children(rev, cur) <==> n in Children(rev0, cur) || (n == nid && cur in g[nid])
  {
    rev := rev0;
    var deps := g[nid];
    for j := 0 to |deps|
      invariant forall cur, n ::
                  n in Children(rev, cur) <==> n in Children(rev0, cur) || (n == nid && cur in deps[..j])
    {
      assert deps[..j + 1] == deps[..j] + [deps[j]];
      rev := rev[deps[j] := Children(rev, deps[j]) + [nid]];
    }
    assert deps[..|deps|] == deps;
  }

  lemma ReverseGrows(g: Graph, listed: seq<string>, nid: string,
                     rev: map<string, seq<string>>, rev': map<string, seq<string>>)
    requires nid in g && ReverseOf(g, listed, rev)
    requires forall cur, n :: n in Children(rev', cur) <==> n in Children(rev, cur) || (n == nid && cur in g[nid])
    ensures ReverseOf(g, listed + [nid], rev')
  {
    forall cur ensures AreDependents(g, listed + [nid], cur, Children(rev', cur)) {
      assert AreDependents(g, listed, cur, Children(rev, cur));
    }
  }

  method BuildReverse(order: seq<string>, g: Graph) returns (rev: map<string, seq<string>>)
    requires Lists(order, g.Keys)
    ensures ReverseOf(g, order, rev)
  {
    rev := map[];
    for i := 0 to |order|
      invariant ReverseOf(g, order[..i], rev)
    {
      assert order[..i + 1] == order[..i] + [order[i]];
      ghost var rev0 := rev;
      rev := ReverseNode(g, order[i], rev);
      ReverseGrows(g, order[..i], order[i], rev0, rev);
    }
    assert order[..|order|] == order;
  }

  ghost predicate ForcedDown(g: Graph, y: string, x: string) {
    x in g && InEveryDescent(g, y, x)
  }

  /** What the dependents worklist keeps. */
  ghost predicate Descending(g: Graph, y: string, out: set<string>, stack: seq<string>) {
    (forall n {:trigger Edge(g, n, y)} | Edge(g, n, y) :: n in out || y in stack) &&
    (forall n, dep {:trigger Edge(g, n, dep)} | dep in out && Edge(g, n, dep) :: n in out || dep in stack) &&
    (forall x {:trigger ForcedDown(g, y, x)} | x in out :: ForcedDown(g, y, x)) &&
    (forall x {:trigger x in stack} | x in stack :: x == y || x in out)
  }

  /** The inner loop: children not seen before are recorded and pushed. */
  method PushNew(children: seq<string>, out0: set<string>, stack0: seq<string>)
    returns (out: set<string>, stack: seq<string>)
    ensures out == out0 + Elements(children)
    ensures forall x :: x in stack <==> x in stack0 || (x in children && x !in out0)
    ensures out == out0 ==> stack == stack0
  {
    out, stack := out0, stack0;
    for k := 0 to |children|
      invariant out == out0 + Elements(children[..k])
      invariant forall x :: x in stack <==> x in stack0 || (x in children[..k] && x !in out0)
      invariant out == out0 ==> stack == stack0
    {
      var child := children[k];
      assert children[..k + 1] == children[..k] + [child];
      if child !in out {
        out := out + {child};
        stack := stack + [child];
      }
    }
    assert children[..|children|] == children;
  }

  lemma DescendingStep(g: Graph, order: seq<string>, y: string, out: set<string>, stack: seq<string>, cur: string,
                       children: seq<string>, out': set<string>, stack': seq<string>)
    requires Descending(g, y, out, stack + [cur])
    requires Lists(order, g.Keys) && AreDependents(g, order, cur, children)
    requires out' == out + Elements(children)
    requires forall x :: x in stack' <==> x in stack || (x in children && x !in out)
    ensures Descending(g, y, out', stack')
  {
    assert cur in stack + [cur];
    forall x | x in children ensures ForcedDown(g, y, x) {
      if cur != y { assert cur in out && ForcedDown(g, y, cur); }
      DescentStep(g, y, cur, x);
    }
    forall n, dep | dep in out' && Edge(g, n, dep) ensures n in out' || dep in stack' {
      if dep in out && n !in out { assert dep in stack + [cur]; }
    }
    forall n | Edge(g, n, y) ensures n in out' || y in stack' {
      if n !in out { assert y in stack + [cur]; }
    }
    forall x | x in stack' ensures x == y || x in out' {
      if x in stack { assert x in stack + [cur]; }
    }
  }

  lemma DescendingEnd(g: Graph, y: string, out: set<string>)
    requires Descending(g, y, out, [])
    ensures IsDescendants(g, y, out)
  {
    forall t | DependentClosed(g, t) && HoldsDependents(g, y, t) ensures out <= t {
      forall x | x in out ensures x in t { assert ForcedDown(g, y, x); }
    }
  }

  lemma DescendingFits(g: Graph, y: string, out: set<string>, stack: seq<string>)
    requires Descending(g, y, out, stack)
    ensures out <= g.Keys
  {
    forall x | x in out ensures x in g { assert ForcedDown(g, y, x); }
  }

  lemma DescendingStart(g: Graph, y: string)
    ensures Descending(g, y, {}, [y])
  {
  }

  /** One turn of the worklist; it either records a node or shortens the stack. */
  method DescendOnce(g: Graph, ghost order: seq<string>, rev: map<string, seq<string>>, y: string,
                     out0: set<string>, stack0: seq<string>)
    returns (out: set<string>, stack: seq<string>)
    requires Lists(order, g.Keys) && ReverseOf(g, order, rev)
    requires Descending(g, y, out0, stack0) && stack0 != []
    ensures Descending(g, y, out, stack)
    ensures |g.Keys - out| < |g.Keys - out0| || (out == out0 && |stack| < |stack0|)
  {
    var cur, rest := Pop(stack0);
    var children := Children(rev, cur);
    out, stack := PushNew(children, out0, rest);
    DescendingStep(g, order, y, out0, rest, cur, children, out, stack);
    DescendingFits(g, y, out, stack);
    if out != out0 {
      SubsetSmaller(g.Keys - out, g.Keys - out0);
    }
  }

  method DescendantsOf(d: Dag, nodeId: string) returns (out: set<string>)
    requires d.Valid()
    ensures IsDescendants(d.Deps(), nodeId, out)
  {
    var g := d.Deps();
    var rev := BuildReverse(d.order, g);
    out := {};
    var stack := [nodeId];
    DescendingStart(g, nodeId);
    while stack != []
      invariant Descending(g, nodeId, out, stack)
      decreases |g.Keys - out|, |stack|
    {
      out, stack := DescendOnce(g, d.order, rev, nodeId, out, stack);
    }
    DescendingEnd(g, nodeId, out);
  }

  lemma SubsetSmaller<T>(a: set<T>, b: set<T>)
    requires a < b
    ensures |a| < |b|
  {
    assert b == a + (b - a);
  }
}
