/** Dependency graphs: each known id mapped to the ids it names, known or not, repeats kept. */
module Graph {
  import opened Ids

  type Graph = map<string, seq<string>>

  ghost predicate Edge(g: Graph, x: string, y: string) {
    x in g && y in g[x]
  }

  /** `p[0]` depends on `p[1]`, which depends on `p[2]`, and so on. */
  ghost predicate IsPath(g: Graph, p: seq<string>) {
    |p| > 0 && forall i | 0 <= i < |p| - 1 :: Edge(g, p[i], p[i + 1])
  }

  ghost predicate IsCycle(g: Graph, p: seq<string>) {
    IsPath(g, p) && |p| >= 2 && p[0] == p[|p| - 1]
  }

  ghost predicate HasCycle(g: Graph) {
    exists p :: IsCycle(g, p)
  }

  /** A chain of dependencies from `n` that comes back to a node it already passed. */
  ghost predicate LeadsIntoCycle(g: Graph, n: string) {
    exists p :: ReturningPath(g, p) && p[0] == n
  }

  ghost predicate ReturningPath(g: Graph, p: seq<string>) {
    IsPath(g, p) && p[|p| - 1] in p[..|p| - 1]
  }

  ghost predicate AllKnown(g: Graph) {
    forall n, d | n in g && d in g[n] :: d in g
  }

  lemma CycleIffSomeNodeLeadsIntoOne(g: Graph)
    ensures HasCycle(g) <==> exists n :: n in g && LeadsIntoCycle(g, n)
  {
    if p :| IsCycle(g, p) {
      assert p[..|p| - 1][0] == p[0];
      assert ReturningPath(g, p);
      assert Edge(g, p[0], p[1]);
      assert LeadsIntoCycle(g, p[0]);
    }
    if n :| n in g && LeadsIntoCycle(g, n) {
      var p :| ReturningPath(g, p) && p[0] == n;
      var i :| 0 <= i < |p| - 1 && p[i] == p[|p| - 1];
      var c := p[i..];
      forall k | 0 <= k < |c| - 1 ensures Edge(g, c[k], c[k + 1]) {
        assert Edge(g, p[i + k], p[i + k + 1]);
      }
      assert IsCycle(g, c);
    }
  }

  ghost predicate StaysIn(g: Graph, trap: set<string>, x: string) {
    exists y :: y in trap && Edge(g, x, y)
  }

  /** A set whose every member depends on a member cannot be left: walking inside it for more
      steps than it has members repeats a node. */
  lemma {:induction false} TrappedSetHasCycle(g: Graph, trap: set<string>, p: seq<string>)
    requires IsPath(g, p) && forall x | x in p :: x in trap
    requires forall x {:trigger StaysIn(g, trap, x)} | x in trap :: StaysIn(g, trap, x)
    ensures LeadsIntoCycle(g, p[0])
    decreases 1 + |trap| - |p|
  {
    if |p| <= |trap| {
      var last := p[|p| - 1];
      assert StaysIn(g, trap, last);
      var y :| y in trap && Edge(g, last, y);
      TrappedSetHasCycle(g, trap, p + [y]);
    } else {
      RepeatReturns(g, p, trap);
    }
  }

  lemma TrapMeansCycle(g: Graph, trap: set<string>, n: string)
    requires n in trap && n in g
    requires forall x {:trigger StaysIn(g, trap, x)} | x in trap :: StaysIn(g, trap, x)
    ensures HasCycle(g)
  {
    TrappedSetHasCycle(g, trap, [n]);
    assert LeadsIntoCycle(g, n);
    CycleIffSomeNodeLeadsIntoOne(g);
  }

  lemma RepeatReturns(g: Graph, p: seq<string>, trap: set<string>)
    requires IsPath(g, p) && |p| > |trap| && forall x | x in p :: x in trap
    ensures LeadsIntoCycle(g, p[0])
  {
    if Distinct(p) { DistinctFits(p, trap); }
    var i, j :| 0 <= i < j < |p| && p[i] == p[j];
    var q := p[..j + 1];
    assert q[..|q| - 1][i] == q[|q| - 1];
    forall k | 0 <= k < |q| - 1 ensures Edge(g, q[k], q[k + 1]) {
      assert Edge(g, p[k], p[k + 1]);
    }
    assert ReturningPath(g, q);
  }

  // ----- chains -----

  /** Some chain of `k` dependencies through known nodes starts at `n`. */
  ghost predicate HasChain(g: Graph, n: string, k: nat)
    decreases k
  {
    n in g && (k > 0 ==> exists d :: d in g[n] && HasChain(g, d, k - 1))
  }

  /** The longest chain of dependencies from `n` has `k` links. */
  ghost predicate DepthIs(g: Graph, n: string, k: nat) {
    HasChain(g, n, k) && !HasChain(g, n, k + 1)
  }

  lemma {:induction false} ShorterChain(g: Graph, n: string, j: nat, k: nat)
    requires HasChain(g, n, k) && j <= k
    ensures HasChain(g, n, j)
    decreases k
  {
    if j > 0 {
      var d :| d in g[n] && HasChain(g, d, k - 1);
      ShorterChain(g, d, j - 1, k - 1);
    }
  }

  /** `HasChain` speaks of real paths: `k` links means a path of `k + 1` known nodes. */
  lemma {:induction false} ChainIsPath(g: Graph, n: string, k: nat)
    ensures HasChain(g, n, k) <==>
            exists p :: IsPath(g, p) && |p| == k + 1 && p[0] == n && p[k] in g
    decreases k
  {
    if k == 0 {
      if n in g { assert IsPath(g, [n]); }
    } else {
      if HasChain(g, n, k) {
        var d :| d in g[n] && HasChain(g, d, k - 1);
        ChainIsPath(g, d, k - 1);
        var q :| IsPath(g, q) && |q| == k && q[0] == d && q[k - 1] in g;
        var p := [n] + q;
        assert forall i | 0 <= i < |p| - 1 :: Edge(g, p[i], p[i + 1]);
        assert IsPath(g, p);
      }
      if p :| IsPath(g, p) && |p| == k + 1 && p[0] == n && p[k] in g {
        assert Edge(g, p[0], p[1]);
        PathTail(g, p);
        assert p[1..][k - 1] == p[k];
        ChainIsPath(g, p[1], k - 1);
      }
    }
  }

  lemma PathTail(g: Graph, p: seq<string>)
    requires IsPath(g, p) && |p| >= 2
    ensures IsPath(g, p[1..])
  {
    var q := p[1..];
    forall i | 0 <= i < |q| - 1 ensures Edge(g, q[i], q[i + 1]) {
      assert Edge(g, p[i + 1], p[i + 2]);
    }
  }

  // ----- closures -----

  ghost predicate DepClosed(g: Graph, t: set<string>) {
    forall n, d | n in t && Edge(g, n, d) :: d in t
  }

  ghost predicate DependentClosed(g: Graph, t: set<string>) {
    forall n, d | d in t && Edge(g, n, d) :: n in t
  }

  /** The least set holding `seed` and every dependency of its members. */
  ghost predicate IsDependencyClosure(g: Graph, seed: set<string>, out: set<string>) {
    seed <= out && DepClosed(g, out) && forall t | DepClosed(g, t) && seed <= t :: out <= t
  }

  ghost predicate InEveryClosure(g: Graph, seed: set<string>, x: string) {
    forall t | DepClosed(g, t) && seed <= t :: x in t
  }

  lemma ClosureStep(g: Graph, seed: set<string>, n: string)
    requires InEveryClosure(g, seed, n) && n in g
    ensures forall d | d in g[n] :: InEveryClosure(g, seed, d)
  {
    forall d, t | d in g[n] && DepClosed(g, t) && seed <= t ensures d in t {
      assert n in t && Edge(g, n, d);
    }
  }

  ghost function DirectDependencies(g: Graph, x: string): set<string> {
    if x in g then Elements(g[x]) else {}
  }

  /** Everything `x` depends on: the closure of its direct dependencies. */
  ghost predicate IsAncestors(g: Graph, x: string, out: set<string>) {
    IsDependencyClosure(g, DirectDependencies(g, x), out)
  }

  ghost predicate HoldsDependents(g: Graph, y: string, t: set<string>) {
    forall n | Edge(g, n, y) :: n in t
  }

  /** Everything that depends on `y`: the least set holding its dependents and theirs. */
  ghost predicate IsDescendants(g: Graph, y: string, out: set<string>) {
    HoldsDependents(g, y, out) && DependentClosed(g, out) &&
    forall t | DependentClosed(g, t) && HoldsDependents(g, y, t) :: out <= t
  }

  ghost predicate InEveryDescent(g: Graph, y: string, x: string) {
    forall t | DependentClosed(g, t) && HoldsDependents(g, y, t) :: x in t
  }

  lemma DescentStep(g: Graph, y: string, cur: string, n: string)
    requires cur == y || InEveryDescent(g, y, cur)
    requires Edge(g, n, cur)
    ensures InEveryDescent(g, y, n)
  {
    forall t | DependentClosed(g, t) && HoldsDependents(g, y, t) ensures n in t {
      if cur != y { assert cur in t; }
    }
  }

  /** `x` reaches `y` through one or more dependencies. */
  ghost predicate DependsOn(g: Graph, x: string, y: string) {
    exists p :: DependencyPath(g, p, x, y)
  }

  ghost predicate DependencyPath(g: Graph, p: seq<string>, x: string, y: string) {
    IsPath(g, p) && |p| >= 2 && p[0] == x && p[|p| - 1] == y
  }

  lemma DependsOnFirst(g: Graph, x: string, d: string, y: string)
    requires Edge(g, x, d) && (d == y || DependsOn(g, d, y))
    ensures DependsOn(g, x, y)
  {
    if d == y {
      assert DependencyPath(g, [x, y], x, y);
    } else {
      var p :| DependencyPath(g, p, d, y);
      var q := [x] + p;
      assert forall i | 0 <= i < |q| - 1 :: Edge(g, q[i], q[i + 1]);
      assert DependencyPath(g, q, x, y);
    }
  }

  lemma DependsOnLast(g: Graph, x: string, y: string, d: string)
    requires DependsOn(g, x, y) && Edge(g, y, d)
    ensures DependsOn(g, x, d)
  {
    var p :| DependencyPath(g, p, x, y);
    var q := p + [d];
    assert forall i | 0 <= i < |q| - 1 :: Edge(g, q[i], q[i + 1]);
    assert DependencyPath(g, q, x, d);
  }

  lemma {:induction false} PathStaysInClosure(g: Graph, t: set<string>, p: seq<string>)
    requires IsPath(g, p) && p[0] in t && DepClosed(g, t)
    ensures p[|p| - 1] in t
  {
    if |p| >= 2 {
      assert Edge(g, p[0], p[1]);
      PathTail(g, p);
      PathStaysInClosure(g, t, p[1..]);
    }
  }

  lemma {:induction false} PathComesFromDependents(g: Graph, t: set<string>, p: seq<string>, y: string)
    requires |p| >= 2 && DependencyPath(g, p, p[0], y) && HoldsDependents(g, y, t) && DependentClosed(g, t)
    ensures p[0] in t
  {
    assert Edge(g, p[0], p[1]);
    if |p| > 2 {
      PathTail(g, p);
      PathComesFromDependents(g, t, p[1..], y);
    }
  }

  /** The ancestor set is exactly what is reachable by dependency paths. */
  lemma AncestorsAreReached(g: Graph, x: string, out: set<string>, y: string)
    requires IsAncestors(g, x, out)
    ensures y in out <==> DependsOn(g, x, y)
  {
    if p :| DependencyPath(g, p, x, y) {
      assert Edge(g, p[0], p[1]);
      PathTail(g, p);
      PathStaysInClosure(g, out, p[1..]);
    }
    var reached := set z | z in out && DependsOn(g, x, z);
    forall d | d in DirectDependencies(g, x) ensures d in reached {
      DependsOnFirst(g, x, d, d);
    }
    forall n, d | n in reached && Edge(g, n, d) ensures d in reached {
      DependsOnLast(g, x, n, d);
    }
    assert DepClosed(g, reached);
  }

  /** The descendant set is exactly what reaches `y` by dependency paths. */
  lemma DescendantsReach(g: Graph, y: string, out: set<string>, x: string)
    requires IsDescendants(g, y, out)
    ensures x in out <==> DependsOn(g, x, y)
  {
    if p :| DependencyPath(g, p, x, y) {
      PathComesFromDependents(g, out, p, y);
    }
    var reaching := set z | z in out && DependsOn(g, z, y);
    forall n | Edge(g, n, y) ensures n in reaching {
      DependsOnFirst(g, n, y, y);
    }
    forall n, d | d in reaching && Edge(g, n, d) ensures n in reaching {
      DependsOnFirst(g, n, d, y);
    }
    assert DependentClosed(g, reaching) && HoldsDependents(g, y, reaching);
  }

  /** The two worklists answer the same question from opposite ends, on every graph: cycles,
      self-dependencies and ids no node defines included. */
  lemma AncestryIsDual(g: Graph, x: string, y: string, ancestors: set<string>, descendants: set<string>)
    requires IsAncestors(g, x, ancestors) && IsDescendants(g, y, descendants)
    ensures x in descendants <==> y in ancestors
  {
    AncestorsAreReached(g, x, ancestors, y);
    DescendantsReach(g, y, descendants, x);
  }

  // ----- topological orders -----

  ghost predicate IsTopoOrder(g: Graph, o: seq<string>) {
    Lists(o, g.Keys) && DependenciesFirst(g, o)
  }

  ghost predicate DependenciesFirst(g: Graph, o: seq<string>) {
    forall i, j | 0 <= i < |o| && 0 <= j < |o| && Edge(g, o[i], o[j]) :: j < i
  }

  /** Dictionary order on lists of ids. */
  ghost predicate LexLeq(a: seq<string>, b: seq<string>) {
    a == b || exists k :: DiffersBelow(a, b, k)
  }

  ghost predicate DiffersBelow(a: seq<string>, b: seq<string>, k: int) {
    0 <= k < |a| && k < |b| && a[..k] == b[..k] && Less(a[k], b[k])
  }

  ghost predicate IsLeastTopoOrder(g: Graph, o: seq<string>) {
    IsTopoOrder(g, o) && forall other | IsTopoOrder(g, other) :: LexLeq(o, other)
  }

  lemma LexAntisymmetric(a: seq<string>, b: seq<string>)
    requires LexLeq(a, b) && LexLeq(b, a)
    ensures a == b
  {
    if a != b {
      var i :| DiffersBelow(a, b, i);
      var j :| DiffersBelow(b, a, j);
      if i < j {
        assert b[..j][i] == a[..j][i];
      } else if j < i {
        assert a[..i][j] == b[..i][j];
      } else {
        LessTransitive(a[i], b[i], a[i]);
      }
      LessIrreflexive(a[i]);
      LessIrreflexive(b[j]);
    }
  }

  /** The least order is unique: it depends on the graph alone, not on how it was listed. */
  lemma LeastTopoOrderUnique(g: Graph, a: seq<string>, b: seq<string>)
    requires IsLeastTopoOrder(g, a) && IsLeastTopoOrder(g, b)
    ensures a == b
  {
    LexAntisymmetric(a, b);
  }

  /** A graph that can be ordered has no cycle. */
  lemma OrderedHasNoCycle(g: Graph, o: seq<string>)
    requires IsTopoOrder(g, o)
    ensures !HasCycle(g)
  {
    if p :| IsCycle(g, p) {
      assert Edge(g, p[0], p[1]);
      PathDescends(g, o, p);
    }
  }

  /** Along a path the positions in the order strictly fall. The order may list only part of
      the graph, provided it lists the dependencies of what it lists. */
  lemma {:induction false} PathDescends(g: Graph, o: seq<string>, p: seq<string>)
    requires Distinct(o) && DependenciesFirst(g, o)
    requires forall n, d | n in o && Edge(g, n, d) && d in g :: d in o
    requires IsPath(g, p) && p[0] in o && p[|p| - 1] in g
    ensures forall i, j | 0 <= i < |o| && 0 <= j < |o| && o[i] == p[0] && o[j] == p[|p| - 1] ::
              j <= i && (|p| >= 2 ==> j < i)
    ensures p[|p| - 1] in o
    decreases |p|
  {
    if |p| >= 2 {
      assert Edge(g, p[0], p[1]);
      if |p| > 2 { assert Edge(g, p[1], p[2]); }
      var q := p[1..];
      PathTail(g, p);
      var m :| 0 <= m < |o| && o[m] == p[1];
      PathDescends(g, o, q);
    }
  }
}
