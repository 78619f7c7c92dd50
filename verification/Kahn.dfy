/** Kahn's algorithm as both the task DAG and the planner's subtask list run it: counters of
    unmet dependencies, reverse lists, and a ready list sorted before each pop. */
module Kahn {
  import opened Ids
  import opened Graph

  /** How many entries of `deps` are in `open`, repeats counted. */
  ghost function Unmet(deps: seq<string>, open: set<string>): nat {
    if deps == [] then 0
    else Unmet(deps[..|deps| - 1], open) + if deps[|deps| - 1] in open then 1 else 0
  }

  lemma UnmetExtend(deps: seq<string>, open: set<string>, j: int)
    requires 0 <= j < |deps|
    ensures Unmet(deps[..j + 1], open) == Unmet(deps[..j], open) + if deps[j] in open then 1 else 0
  {
    assert deps[..j + 1][..j] == deps[..j];
  }

  lemma {:induction false} UnmetRemove(deps: seq<string>, open: set<string>, c: string)
    requires c in open
    ensures Unmet(deps, open) == Unmet(deps, open - {c}) + multiset(deps)[c]
  {
    if deps != [] {
      var n := |deps| - 1;
      UnmetRemove(deps[..n], open, c);
      assert deps == deps[..n] + [deps[n]];
    }
  }

  lemma {:induction false} UnmetZero(deps: seq<string>, open: set<string>)
    ensures Unmet(deps, open) == 0 <==> forall d | d in deps :: d !in open
  {
    if deps != [] {
      var n := |deps| - 1;
      UnmetZero(deps[..n], open);
      assert deps == deps[..n] + [deps[n]];
    }
  }

  /** `n` can be emitted next: not emitted yet, and every known dependency already out. */
  ghost predicate Available(g: Graph, done: seq<string>, n: string) {
    n in g && n !in done && forall d | d in g[n] && d in g :: d in done
  }

  /** Each element was the least available id when it was emitted. */
  ghost predicate Greedy(g: Graph, out: seq<string>) {
    forall k | 0 <= k < |out| :: LeastAvailable(g, out[..k], out[k])
  }

  ghost predicate LeastAvailable(g: Graph, done: seq<string>, n: string) {
    Available(g, done, n) && forall m | Available(g, done, m) :: Leq(n, m)
  }

  ghost function Open(g: Graph, done: seq<string>): set<string> {
    g.Keys - Elements(done)
  }

  /** `list` holds each listed node once per mention of `c` among its dependencies. */
  ghost predicate Mentions(g: Graph, listed: seq<string>, c: string, list: seq<string>) {
    forall n {:trigger multiset(list)[n]} :: multiset(list)[n] == if n in g && n in listed then multiset(g[n])[c] else 0
  }

  ghost predicate CountedFor(g: Graph, listed: seq<string>, indeg: map<string, int>) {
    indeg.Keys == g.Keys &&
    forall n {:trigger indeg[n]} | n in g :: indeg[n] == if n in listed then Unmet(g[n], g.Keys) else 0
  }

  ghost predicate IndexedFor(g: Graph, listed: seq<string>, rev: map<string, seq<string>>) {
    rev.Keys == g.Keys && forall c {:trigger rev[c]} | c in g :: Mentions(g, listed, c, rev[c])
  }

  /** `nid` is added to each list once per mention of that list's id in `deps`. */
  ghost predicate EntersUnder(g: Graph, nid: string, deps: seq<string>, before: map<string, seq<string>>,
                              after: map<string, seq<string>>)
  {
    before.Keys == after.Keys == g.Keys &&
    forall c, n {:trigger multiset(after[c])[n]} | c in g ::
      multiset(after[c])[n] == multiset(before[c])[n] + if n == nid then multiset(deps)[c] else 0
  }

  /** The inner loop that indexes one node: count its known dependencies and enter it under
      each of them, once per mention. */
  method IndexNode(g: Graph, nid: string, indeg0: map<string, int>, rev0: map<string, seq<string>>)
    returns (indeg: map<string, int>, rev: map<string, seq<string>>)
    requires nid in g && indeg0.Keys == rev0.Keys == g.Keys && indeg0[nid] == 0
    ensures indeg == indeg0[nid := Unmet(g[nid], g.Keys)]
    ensures EntersUnder(g, nid, g[nid], rev0, rev)
  {
    indeg, rev := indeg0, rev0;
    var deps := g[nid];
    for j := 0 to |deps|
      invariant indeg == indeg0[nid := Unmet(deps[..j], g.Keys)]
      invariant EntersUnder(g, nid, deps[..j], rev0, rev)
    {
      UnmetExtend(deps, g.Keys, j);
      assert deps[..j + 1] == deps[..j] + [deps[j]];
      rev := EnterOne(g, nid, deps[..j], deps[j], rev0, rev);
      if deps[j] in g {
        indeg := indeg[nid := indeg[nid] + 1];
      }
    }
    assert deps[..|deps|] == deps;
  }

  method EnterOne(g: Graph, nid: string, ghost done: seq<string>, dep: string, ghost before: map<string, seq<string>>,
                  rev: map<string, seq<string>>)
    returns (rev': map<string, seq<string>>)
    requires EntersUnder(g, nid, done, before, rev)
    ensures EntersUnder(g, nid, done + [dep], before, rev')
  {
    rev' := if dep in g then rev[dep := rev[dep] + [nid]] else rev;
  }

  lemma CountStep(g: Graph, listed: seq<string>, nid: string, indeg: map<string, int>)
    requires nid in g && CountedFor(g, listed, indeg)
    ensures CountedFor(g, listed + [nid], indeg[nid := Unmet(g[nid], g.Keys)])
  {
    var counted := indeg[nid := Unmet(g[nid], g.Keys)];
    assert counted.Keys == g.Keys;
  }

  lemma IndexStep(g: Graph, listed: seq<string>, nid: string,
                  before: map<string, seq<string>>, after: map<string, seq<string>>)
    requires nid in g && nid !in listed && IndexedFor(g, listed, before) && EntersUnder(g, nid, g[nid], before, after)
    ensures IndexedFor(g, listed + [nid], after)
  {
    forall c | c in g ensures Mentions(g, listed + [nid], c, after[c]) {
      assert Mentions(g, listed, c, before[c]);
    }
  }

  /** The counters and reverse lists of `_topo_order` before its main loop. */
  method BuildIndex(order: seq<string>, g: Graph)
    returns (indeg: map<string, int>, rev: map<string, seq<string>>)
    requires Lists(order, g.Keys)
    ensures Counts(g, [], indeg) && IndexedFor(g, order, rev)
  {
    indeg := map n | n in g :: 0;
    rev := map n | n in g :: [];
    for i := 0 to |order|
      invariant CountedFor(g, order[..i], indeg) && IndexedFor(g, order[..i], rev)
    {
      assert order[..i + 1] == order[..i] + [order[i]];
      assert order[i] !in order[..i];
      CountStep(g, order[..i], order[i], indeg);
      ghost var rev0 := rev;
      indeg, rev := IndexNode(g, order[i], indeg, rev);
      IndexStep(g, order[..i], order[i], rev0, rev);
    }
    assert order[..|order|] == order;
    NothingDone(g, order, indeg);
  }

  lemma NothingDone(g: Graph, order: seq<string>, indeg: map<string, int>)
    requires Lists(order, g.Keys) && CountedFor(g, order, indeg)
    ensures Counts(g, [], indeg)
  {
    assert Open(g, []) == g.Keys;
  }

  /** The counters describe the graph with `done` already emitted. */
  ghost predicate Counts(g: Graph, done: seq<string>, indeg: map<string, int>) {
    indeg.Keys == g.Keys && forall n {:trigger indeg[n]} | n in g :: indeg[n] == Unmet(g[n], Open(g, done))
  }

  /** The ready list holds each available id exactly once. */
  ghost predicate ReadyList(g: Graph, done: seq<string>, ready: seq<string>) {
    forall n :: multiset(ready)[n] == if Available(g, done, n) then 1 else 0
  }

  ghost predicate ReadyWithout(g: Graph, done: seq<string>, cur: string, ready: seq<string>) {
    forall n :: multiset(ready)[n] == if Available(g, done, n) && n != cur then 1 else 0
  }

  lemma AvailableIffZero(g: Graph, done: seq<string>, n: string)
    requires n in g
    ensures Available(g, done, n) <==> n !in done && Unmet(g[n], Open(g, done)) == 0
  {
    UnmetZero(g[n], Open(g, done));
  }

  /** While the dependents of a popped node are processed, its pending mentions are still
      counted. */
  ghost predicate Pending(g: Graph, out: seq<string>, indeg: map<string, int>, rest: seq<string>) {
    indeg.Keys == g.Keys &&
    forall n {:trigger indeg[n]} | n in g :: indeg[n] == Unmet(g[n], Open(g, out)) + multiset(rest)[n]
  }

  ghost predicate ZeroList(g: Graph, out: seq<string>, indeg: map<string, int>, ready: seq<string>)
    requires indeg.Keys == g.Keys
  {
    forall n {:trigger multiset(ready)[n]} ::
      multiset(ready)[n] == if n in g && n !in out && indeg[n] == 0 then 1 else 0
  }

  /** The inner loop after `cur` was popped: every dependent of `cur` loses one unmet entry per
      mention, and joins the ready list when the last one goes. */
  method Release(g: Graph, ghost out: seq<string>, dependents: seq<string>,
                 indeg0: map<string, int>, ready0: seq<string>)
    returns (indeg: map<string, int>, ready: seq<string>)
    requires Pending(g, out, indeg0, dependents) && ZeroList(g, out, indeg0, ready0)
    requires forall n | n in dependents :: n in g && n !in out
    ensures Counts(g, out, indeg) && ReadyList(g, out, ready)
  {
    indeg, ready := indeg0, ready0;
    for i := 0 to |dependents|
      invariant Pending(g, out, indeg, dependents[i..]) && ZeroList(g, out, indeg, ready)
    {
      assert dependents[i..] == [dependents[i]] + dependents[i + 1..];
      indeg, ready := ReleaseOne(g, out, dependents[i], dependents[i + 1..], indeg, ready);
    }
    NothingPending(g, out, indeg, ready);
  }

  method ReleaseOne(g: Graph, ghost out: seq<string>, nxt: string, ghost rest: seq<string>,
                    indeg0: map<string, int>, ready0: seq<string>)
    returns (indeg: map<string, int>, ready: seq<string>)
    requires Pending(g, out, indeg0, [nxt] + rest) && ZeroList(g, out, indeg0, ready0)
    requires nxt in g && nxt !in out
    ensures Pending(g, out, indeg, rest) && ZeroList(g, out, indeg, ready)
  {
    indeg, ready := indeg0[nxt := indeg0[nxt] - 1], ready0;
    if indeg[nxt] == 0 {
      ready := ready + [nxt];
    }
  }

  lemma NothingPending(g: Graph, out: seq<string>, indeg: map<string, int>, ready: seq<string>)
    requires Pending(g, out, indeg, []) && ZeroList(g, out, indeg, ready)
    ensures Counts(g, out, indeg) && ReadyList(g, out, ready)
  {
    forall n ensures multiset(ready)[n] == if Available(g, out, n) then 1 else 0 {
      if n in g { AvailableIffZero(g, out, n); }
    }
  }

  /** Moving `cur` out leaves the counters short by its dependents' mentions of it. */
  lemma PopLeavesPending(g: Graph, order: seq<string>, done: seq<string>, cur: string, indeg: map<string, int>,
                         dependents: seq<string>, ready: seq<string>)
    requires Greedy(g, done) && Available(g, done, cur) && Counts(g, done, indeg)
    requires Mentions(g, order, cur, dependents) && Lists(order, g.Keys)
    requires ReadyWithout(g, done, cur, ready)
    ensures Pending(g, done + [cur], indeg, dependents) && ZeroList(g, done + [cur], indeg, ready)
    ensures forall n | n in dependents :: n in g && n !in done + [cur]
  {
    GreedyFacts(g, done);
    var out := done + [cur];
    assert Open(g, out) == Open(g, done) - {cur};
    forall n | n in g ensures indeg[n] == Unmet(g[n], Open(g, out)) + multiset(dependents)[n] {
      UnmetRemove(g[n], Open(g, done), cur);
    }
    forall n ensures multiset(ready)[n] == if n in g && n !in out && indeg[n] == 0 then 1 else 0 {
      if n in g { AvailableIffZero(g, done, n); }
    }
    forall n | n in dependents ensures n in g && n !in out {
      assert multiset(dependents)[n] > 0;
      assert cur in multiset(g[n]);
      assert Edge(g, n, cur);
    }
  }

  lemma GreedyFacts(g: Graph, out: seq<string>)
    requires Greedy(g, out)
    ensures Distinct(out) && DependenciesFirst(g, out)
    ensures forall n | n in out :: n in g
    ensures forall n, d | n in out && Edge(g, n, d) && d in g :: d in out
  {
    forall k | 0 <= k < |out| ensures out[k] in g && out[k] !in out[..k] {
      assert LeastAvailable(g, out[..k], out[k]);
    }
    forall i, j | 0 <= i < j < |out| ensures out[i] != out[j] {
      assert out[i] in out[..j];
    }
    forall i, j | 0 <= i < |out| && 0 <= j < |out| && Edge(g, out[i], out[j]) ensures j < i {
      assert LeastAvailable(g, out[..i], out[i]);
      assert out[j] in out[..i];
      var k :| 0 <= k < i && out[..i][k] == out[j];
    }
    forall n, d | n in out && Edge(g, n, d) && d in g ensures d in out {
      var k :| 0 <= k < |out| && out[k] == n;
      assert LeastAvailable(g, out[..k], out[k]);
    }
  }

  /** The ready list before the first pop: the nodes whose counter is zero. */
  method InitialReady(order: seq<string>, g: Graph, indeg: map<string, int>) returns (ready: seq<string>)
    requires Lists(order, g.Keys) && Counts(g, [], indeg)
    ensures ReadyList(g, [], ready)
  {
    ready := [];
    for i := 0 to |order|
      invariant forall n :: multiset(ready)[n] == if n in order[..i] && Available(g, [], n) then 1 else 0
    {
      AvailableIffZero(g, [], order[i]);
      assert order[..i + 1] == order[..i] + [order[i]];
      assert order[i] !in order[..i];
      if indeg[order[i]] == 0 {
        ready := ready + [order[i]];
      }
    }
    assert order[..|order|] == order;
  }

  /** `ready.sort(); ready.pop(0)`: the least available id. */
  method PopLeast(g: Graph, ghost done: seq<string>, ready0: seq<string>) returns (cur: string, ready: seq<string>)
    requires ReadyList(g, done, ready0) && ready0 != []
    ensures LeastAvailable(g, done, cur)
    ensures ReadyWithout(g, done, cur, ready)
  {
    var sorted := SortIds(ready0);
    cur, ready := sorted[0], sorted[1..];
    assert sorted == [cur] + ready;
    assert multiset(sorted)[cur] > 0;
    forall m | Available(g, done, m) ensures Leq(cur, m) {
      assert multiset(sorted)[m] == 1;
      assert m in sorted;
    }
  }

  /** Smallest-id-first emission. When it stops, the nodes left out are exactly those whose
      dependencies lead into a cycle. */
  method KahnOrder(order: seq<string>, g: Graph) returns (out: seq<string>)
    requires Lists(order, g.Keys)
    ensures Greedy(g, out)
    ensures forall n :: n in out <==> n in g && !LeadsIntoCycle(g, n)
  {
    var indeg, rev := BuildIndex(order, g);
    var ready := InitialReady(order, g, indeg);
    out := [];
    while ready != []
      invariant Greedy(g, out) && Counts(g, out, indeg) && ReadyList(g, out, ready)
      decreases |g.Keys| - |out|
    {
      var cur;
      cur, ready := PopLeast(g, out, ready);
      PopLeavesPending(g, order, out, cur, indeg, rev[cur], ready);
      indeg, ready := Release(g, out + [cur], rev[cur], indeg, ready);
      GreedyExtend(g, out, cur);
      out := out + [cur];
      GreedyFits(g, out);
    }
    StuckIffCyclic(g, out, ready);
  }

  lemma GreedyFits(g: Graph, out: seq<string>)
    requires Greedy(g, out)
    ensures |out| <= |g.Keys|
  {
    GreedyFacts(g, out);
    DistinctFits(out, g.Keys);
  }

  lemma GreedyExtend(g: Graph, out: seq<string>, cur: string)
    requires Greedy(g, out) && LeastAvailable(g, out, cur)
    ensures Greedy(g, out + [cur])
  {
    var longer := out + [cur];
    forall k | 0 <= k < |longer| ensures LeastAvailable(g, longer[..k], longer[k]) {
      if k < |out| {
        assert longer[..k] == out[..k];
      } else {
        assert longer[..k] == out;
      }
    }
  }

  lemma StuckIffCyclic(g: Graph, out: seq<string>, ready: seq<string>)
    requires Greedy(g, out) && ReadyList(g, out, ready) && ready == []
    ensures forall n :: n in out <==> n in g && !LeadsIntoCycle(g, n)
  {
    GreedyFacts(g, out);
    var left := Open(g, out);
    forall x | x in left ensures StaysIn(g, left, x) {
      assert multiset(ready)[x] == 0;
      assert !Available(g, out, x);
      var d :| d in g[x] && d in g && d !in out;
      assert d in left && Edge(g, x, d);
    }
    forall n ensures n in out <==> n in g && !LeadsIntoCycle(g, n) {
      if n in left {
        TrappedSetHasCycle(g, left, [n]);
      }
      if n in out && LeadsIntoCycle(g, n) {
        var p :| ReturningPath(g, p) && p[0] == n;
        NoReturn(g, out, p);
      }
    }
  }

  lemma NoReturn(g: Graph, out: seq<string>, p: seq<string>)
    requires Greedy(g, out) && IsPath(g, p) && p[0] in out
    ensures !ReturningPath(g, p)
  {
    if ReturningPath(g, p) {
      GreedyFacts(g, out);
      var i :| 0 <= i < |p| - 1 && p[..|p| - 1][i] == p[|p| - 1];
      assert Edge(g, p[i], p[i + 1]);
      var head, tail := p[..i + 1], p[i..];
      forall k | 0 <= k < |head| - 1 ensures Edge(g, head[k], head[k + 1]) { assert Edge(g, p[k], p[k + 1]); }
      forall k | 0 <= k < |tail| - 1 ensures Edge(g, tail[k], tail[k + 1]) { assert Edge(g, p[i + k], p[i + k + 1]); }
      PathDescends(g, out, head);
      PathDescends(g, out, tail);
    }
  }

  /** The greedy order is the least of all orders: where another order first differs, what it
      emits was available, so nothing smaller was. */
  lemma GreedyIsLeast(g: Graph, out: seq<string>)
    requires Greedy(g, out) && Lists(out, g.Keys)
    ensures IsLeastTopoOrder(g, out)
  {
    GreedyFacts(g, out);
    forall other | IsTopoOrder(g, other) ensures LexLeq(out, other) {
      DistinctSize(out, g.Keys);
      DistinctSize(other, g.Keys);
      GreedyBelow(g, out, other, 0);
    }
  }

  /** The emitted count tells whether the graph is cyclic, and if not the order is complete. */
  lemma CountDecides(g: Graph, out: seq<string>)
    requires Greedy(g, out) && forall n :: n in out <==> n in g && !LeadsIntoCycle(g, n)
    ensures |out| == |g.Keys| <==> !HasCycle(g)
    ensures |out| == |g.Keys| ==> IsLeastTopoOrder(g, out)
  {
    GreedyFacts(g, out);
    CycleIffSomeNodeLeadsIntoOne(g);
    if n :| n in g && n !in out {
      DistinctFits(out, g.Keys - {n});
    } else {
      DistinctSize(out, g.Keys);
      GreedyIsLeast(g, out);
    }
  }

  /** What a topological order emits next is available. */
  lemma OrderEmitsAvailable(g: Graph, other: seq<string>, k: nat)
    requires IsTopoOrder(g, other) && k < |other|
    ensures Available(g, other[..k], other[k])
  {
    assert other[k] in other;
    forall d | d in g[other[k]] && d in g ensures d in other[..k] {
      assert d in other;
      var j :| 0 <= j < |other| && other[j] == d;
      assert Edge(g, other[k], other[j]);
      assert other[..k][j] == d;
    }
  }

  lemma {:induction false} GreedyBelow(g: Graph, out: seq<string>, other: seq<string>, k: nat)
    requires Greedy(g, out) && IsTopoOrder(g, other)
    requires k <= |out| == |other| && out[..k] == other[..k]
    ensures LexLeq(out, other)
    decreases |out| - k
  {
    if k == |out| {
      assert out == out[..k] && other == other[..k];
    } else if out[k] == other[k] {
      assert out[..k + 1] == out[..k] + [out[k]] && other[..k + 1] == other[..k] + [other[k]];
      GreedyBelow(g, out, other, k + 1);
    } else {
      assert LeastAvailable(g, out[..k], out[k]);
      OrderEmitsAvailable(g, other, k);
      assert DiffersBelow(out, other, k);
    }
  }
}
