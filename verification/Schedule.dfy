/** What readiness means over whole runs: greedy rounds are the layers, and no order of starting
    and finishing offered nodes gets stuck. */
module Schedule {
  import opened Ids
  import opened Graph
  import opened Dag

  // ----- rounds -----

  /** What is completed after `k` rounds of completing everything `ready_nodes` offers. */
  ghost function Completed(d: Dag, k: nat): set<string> {
    if k == 0 then {}
    else
      var c := Completed(d, k - 1);
      c + ReadySet(d, c, {}, {})
  }

  /** After `k` rounds exactly the nodes without a chain of `k` dependencies are completed. */
  lemma {:induction false} CompletedAreShallow(d: Dag, k: nat)
    requires d.Valid() && AllKnown(d.Deps())
    ensures forall n :: n in Completed(d, k) <==> n in d.nodes && !HasChain(d.Deps(), n, k)
  {
    var g := d.Deps();
    if k > 0 {
      CompletedAreShallow(d, k - 1);
      forall n ensures n in Completed(d, k) <==> n in d.nodes && !HasChain(g, n, k) {
        if n in g && HasChain(g, n, k) { ShorterChain(g, n, k - 1, k); }
        if n in g {
          forall dep | dep in g[n] ensures dep in g { }
        }
      }
    }
  }

  lemma {:induction false} DepthExists(g: Graph, n: string, k: nat, bound: nat) returns (j: nat)
    requires HasChain(g, n, k) && !HasChain(g, n, bound) && k <= bound
    ensures DepthIs(g, n, j) && j >= k
    decreases bound - k
  {
    if HasChain(g, n, k + 1) {
      j := DepthExists(g, n, k + 1, bound);
    } else {
      j := k;
    }
  }

  lemma AcyclicChainsAreShort(g: Graph, n: string)
    requires !HasCycle(g)
    ensures !HasChain(g, n, |g.Keys|)
  {
    if HasChain(g, n, |g.Keys|) {
      ChainIsPath(g, n, |g.Keys|);
      var p :| IsPath(g, p) && |p| == |g.Keys| + 1 && p[0] == n && p[|g.Keys|] in g;
      forall x | x in p ensures x in g {
        var i :| 0 <= i < |p| && p[i] == x;
        if i < |p| - 1 { assert Edge(g, p[i], p[i + 1]); }
      }
      RepeatReturns(g, p, g.Keys);
      CycleIffSomeNodeLeadsIntoOne(g);
    }
  }

  lemma RoundIsDepth(d: Dag, k: nat, n: string)
    requires d.Valid() && AllKnown(d.Deps())
    ensures n in ReadySet(d, Completed(d, k), {}, {}) <==> n in d.nodes && DepthIs(d.Deps(), n, k)
  {
    var g := d.Deps();
    CompletedAreShallow(d, k);
    CompletedAreShallow(d, k + 1);
    if n in g && HasChain(g, n, k + 1) { ShorterChain(g, n, k, k + 1); }
    assert Completed(d, k + 1) == Completed(d, k) + ReadySet(d, Completed(d, k), {}, {});
  }

  lemma LayersExhaust(d: Dag, o: seq<string>, layers: seq<seq<string>>, n: string)
    requires d.Valid() && IsLeastTopoOrder(d.Deps(), o) && LayersFollow(d.Deps(), o, layers)
    ensures !HasChain(d.Deps(), n, |layers|)
  {
    var g := d.Deps();
    if HasChain(g, n, |layers|) {
      OrderedHasNoCycle(g, o);
      AcyclicChainsAreShort(g, n);
      if |layers| > |g.Keys| { ShorterChain(g, n, |g.Keys|, |layers|); }
      var j := DepthExists(g, n, |layers|, |g.Keys|);
      var m := NoDepthGap(g, n, j, |layers|);
      AtDepthMembers(g, o, |layers|, m);
    }
  }

  lemma RoundIsLayer(d: Dag, o: seq<string>, layers: seq<seq<string>>, k: nat)
    requires d.Valid() && AllKnown(d.Deps()) && IsTopoOrder(d.Deps(), o) && LayersFollow(d.Deps(), o, layers)
    requires k < |layers|
    ensures ReadySet(d, Completed(d, k), {}, {}) == Elements(layers[k]) != {}
  {
    assert layers[k] == AtDepth(d.Deps(), o, k);
    forall n ensures n in ReadySet(d, Completed(d, k), {}, {}) <==> n in layers[k] {
      RoundIsDepth(d, k, n);
      AtDepthMembers(d.Deps(), o, k, n);
    }
    assert layers[k][0] in Elements(layers[k]);
  }

  /** Round `k` completes exactly layer `k`, never nothing, and the last layer ends the rounds. */
  lemma RoundsAreLayers(d: Dag, layers: seq<seq<string>>)
    requires d.Valid() && AllKnown(d.Deps()) && IsLayering(d.Deps(), layers)
    ensures forall k | 0 <= k < |layers| ::
              ReadySet(d, Completed(d, k), {}, {}) == Elements(layers[k]) != {}
    ensures Completed(d, |layers|) == d.nodes.Keys
  {
    var o :| IsLeastTopoOrder(d.Deps(), o) && LayersFollow(d.Deps(), o, layers);
    forall k | 0 <= k < |layers|
      ensures ReadySet(d, Completed(d, k), {}, {}) == Elements(layers[k]) != {}
    {
      RoundIsLayer(d, o, layers, k);
    }
    LastLayerFinishes(d, o, layers);
  }

  lemma LastLayerFinishes(d: Dag, o: seq<string>, layers: seq<seq<string>>)
    requires d.Valid() && AllKnown(d.Deps()) && IsLeastTopoOrder(d.Deps(), o) && LayersFollow(d.Deps(), o, layers)
    ensures Completed(d, |layers|) == d.nodes.Keys
  {
    CompletedAreShallow(d, |layers|);
    forall n | n in d.nodes ensures n in Completed(d, |layers|) { LayersExhaust(d, o, layers, n); }
  }

  // ----- interleavings -----

  datatype Sched = Sched(completed: set<string>, inProgress: set<string>)

  datatype Step = Start(id: string) | Finish(id: string)

  /** A node starts only when `ready_nodes` offers it; a running node may finish at any time. */
  ghost predicate CanStep(d: Dag, skip: set<string>, s: Sched, step: Step) {
    match step
    case Start(n) => n in ReadySet(d, s.completed, s.inProgress, skip)
    case Finish(n) => n in s.inProgress
  }

  ghost function After(s: Sched, step: Step): Sched {
    match step
    case Start(n) => s.(inProgress := s.inProgress + {n})
    case Finish(n) => Sched(s.completed + {n}, s.inProgress - {n})
  }

  /** Where a sequence of steps leads from an idle start, if every step was allowed. */
  ghost function Exec(d: Dag, skip: set<string>, steps: seq<Step>): Option<Sched> {
    if steps == [] then Some(Sched({}, {}))
    else
      var before := Exec(d, skip, steps[..|steps| - 1]);
      var step := steps[|steps| - 1];
      if before.Some? && CanStep(d, skip, before.value, step) then Some(After(before.value, step)) else None
  }

  ghost predicate Started(s: Sched, n: string) {
    n in s.completed || n in s.inProgress
  }

  /** Whatever was started is a known node with all its dependencies completed. */
  ghost predicate Sound(d: Dag, s: Sched) {
    s.completed !! s.inProgress && s.completed + s.inProgress <= d.nodes.Keys &&
    forall n {:trigger Started(s, n)} | Started(s, n) :: DependenciesDone(d, s, n)
  }

  ghost predicate DependenciesDone(d: Dag, s: Sched, n: string) {
    n in d.nodes && forall dep | dep in d.nodes[n].dependsOn :: dep in s.completed
  }

  lemma StepKeepsSound(d: Dag, skip: set<string>, s: Sched, step: Step)
    requires Sound(d, s) && CanStep(d, skip, s, step)
    ensures Sound(d, After(s, step))
    ensures 2 * |After(s, step).completed| + |After(s, step).inProgress| == 2 * |s.completed| + |s.inProgress| + 1
  {
    var s' := After(s, step);
    match step {
      case Start(n) => assert s'.inProgress - {n} == s.inProgress;
      case Finish(n) => assert Started(s, n); assert s'.completed - {n} == s.completed;
    }
    forall n | Started(s', n) ensures DependenciesDone(d, s', n) {
      if Started(s, n) { assert DependenciesDone(d, s, n); }
    }
  }

  /** Every run is sound, and each of its steps is accounted for: two per completed node and
      one per running node. */
  lemma {:induction false} StartedHasDependenciesDone(d: Dag, skip: set<string>, steps: seq<Step>)
    requires Exec(d, skip, steps).Some?
    ensures Sound(d, Exec(d, skip, steps).value)
    ensures |steps| == 2 * |Exec(d, skip, steps).value.completed| + |Exec(d, skip, steps).value.inProgress|
  {
    if steps != [] {
      var init := steps[..|steps| - 1];
      StartedHasDependenciesDone(d, skip, init);
      StepKeepsSound(d, skip, Exec(d, skip, init).value, steps[|steps| - 1]);
    }
  }

  /** `x` can never start: its kind is skipped, or it depends, near or far, on a node of a skipped
      kind. */
  ghost predicate Barred(d: Dag, skip: set<string>, x: string) {
    x in d.nodes && (d.nodes[x].kind in skip || exists y :: SkippedBelow(d, skip, x, y))
  }

  ghost predicate SkippedBelow(d: Dag, skip: set<string>, x: string, y: string) {
    y in d.nodes && d.nodes[y].kind in skip && DependsOn(d.Deps(), x, y)
  }

  ghost function Runnable(d: Dag, skip: set<string>): set<string> {
    set n | n in d.nodes && !Barred(d, skip, n)
  }

  lemma {:induction false} NoSkippedKindStarts(d: Dag, skip: set<string>, steps: seq<Step>, n: string)
    requires Exec(d, skip, steps).Some? && n in d.nodes && Started(Exec(d, skip, steps).value, n)
    ensures d.nodes[n].kind !in skip
  {
    var init := steps[..|steps| - 1];
    if Started(Exec(d, skip, init).value, n) { NoSkippedKindStarts(d, skip, init, n); }
  }

  /** In every run a started node neither is of a skipped kind nor depends on one. */
  lemma BarredNeverStarts(d: Dag, skip: set<string>, steps: seq<Step>, x: string)
    requires Exec(d, skip, steps).Some? && Started(Exec(d, skip, steps).value, x)
    ensures x in d.nodes && !Barred(d, skip, x)
  {
    var s := Exec(d, skip, steps).value;
    StartedHasDependenciesDone(d, skip, steps);
    assert DependenciesDone(d, s, x);
    NoSkippedKindStarts(d, skip, steps, x);
    if y :| SkippedBelow(d, skip, x, y) {
      var p :| DependencyPath(d.Deps(), p, x, y);
      StartedIsClosed(d, s);
      PathStaysInClosure(d.Deps(), s.completed + s.inProgress, p);
      NoSkippedKindStarts(d, skip, steps, y);
    }
  }

  lemma StartedIsClosed(d: Dag, s: Sched)
    requires Sound(d, s)
    ensures DepClosed(d.Deps(), s.completed + s.inProgress)
  {
    forall n, dep | n in s.completed + s.inProgress && Edge(d.Deps(), n, dep) ensures dep in s.completed + s.inProgress {
      assert Started(s, n) && DependenciesDone(d, s, n);
    }
  }

  lemma BarredAbove(d: Dag, skip: set<string>, x: string, dep: string)
    requires Edge(d.Deps(), x, dep)
    ensures Barred(d, skip, dep) ==> Barred(d, skip, x)
  {
    if Barred(d, skip, dep) {
      DependsOnFirst(d.Deps(), x, dep, dep);
      if d.nodes[dep].kind in skip {
        assert SkippedBelow(d, skip, x, dep);
      } else {
        var y :| SkippedBelow(d, skip, dep, y);
        DependsOnFirst(d.Deps(), x, dep, y);
        assert SkippedBelow(d, skip, x, y);
      }
    }
  }

  lemma UnofferedWaits(d: Dag, skip: set<string>, s: Sched, x: string)
    requires AllKnown(d.Deps()) && s.inProgress == {} && ReadySet(d, s.completed, s.inProgress, skip) == {}
    requires x in Runnable(d, skip) && x !in s.completed
    ensures StaysIn(d.Deps(), Runnable(d, skip) - s.completed, x)
  {
    assert x !in ReadySet(d, s.completed, s.inProgress, skip);
    var dep :| dep in d.nodes[x].dependsOn && dep !in s.completed;
    assert Edge(d.Deps(), x, dep);
    BarredAbove(d, skip, x, dep);
  }

  lemma NothingOfferedTraps(d: Dag, skip: set<string>, s: Sched)
    requires d.Valid() && AllKnown(d.Deps()) && s.inProgress == {}
    requires ReadySet(d, s.completed, s.inProgress, skip) == {}
    ensures Runnable(d, skip) <= s.completed || HasCycle(d.Deps())
  {
    var g, left := d.Deps(), Runnable(d, skip) - s.completed;
    forall x | x in left ensures StaysIn(g, left, x) {
      UnofferedWaits(d, skip, s, x);
    }
    if !(Runnable(d, skip) <= s.completed) {
      var n :| n in Runnable(d, skip) && n !in s.completed;
      TrapMeansCycle(g, left, n);
    }
  }

  lemma OnlyRunnableStart(d: Dag, skip: set<string>, steps: seq<Step>)
    requires Exec(d, skip, steps).Some?
    ensures var s := Exec(d, skip, steps).value; s.completed + s.inProgress <= Runnable(d, skip)
  {
    var s := Exec(d, skip, steps).value;
    forall x | x in s.completed + s.inProgress ensures x in Runnable(d, skip) {
      assert Started(s, x);
      BarredNeverStarts(d, skip, steps, x);
    }
  }

  /** No deadlock, whatever kinds are skipped: while a runnable node is not completed, something runs
      or something is offered. */
  lemma NeverStuck(d: Dag, skip: set<string>, steps: seq<Step>)
    requires d.Valid() && AllKnown(d.Deps()) && !HasCycle(d.Deps())
    requires Exec(d, skip, steps).Some?
    ensures var s := Exec(d, skip, steps).value;
            s.completed == Runnable(d, skip) || s.inProgress != {} || ReadySet(d, s.completed, s.inProgress, skip) != {}
  {
    OnlyRunnableStart(d, skip, steps);
    var s := Exec(d, skip, steps).value;
    if s.inProgress == {} && ReadySet(d, s.completed, s.inProgress, skip) == {} {
      NothingOfferedTraps(d, skip, s);
    }
  }

  ghost predicate Halted(d: Dag, skip: set<string>, s: Sched) {
    forall step {:trigger CanStep(d, skip, s, step)} :: !CanStep(d, skip, s, step)
  }

  lemma HaltedIff(d: Dag, skip: set<string>, s: Sched)
    ensures Halted(d, skip, s) <==> s.inProgress == {} && ReadySet(d, s.completed, s.inProgress, skip) == {}
  {
    if Halted(d, skip, s) {
      if n :| n in s.inProgress { assert CanStep(d, skip, s, Finish(n)); }
      if n :| n in ReadySet(d, s.completed, s.inProgress, skip) { assert CanStep(d, skip, s, Start(n)); }
    }
  }

  /** A run halts exactly when the runnable nodes are completed and nothing runs, which takes two
      steps per runnable node. */
  lemma HaltedMeansDone(d: Dag, skip: set<string>, steps: seq<Step>)
    requires d.Valid() && AllKnown(d.Deps()) && !HasCycle(d.Deps())
    requires Exec(d, skip, steps).Some?
    ensures Halted(d, skip, Exec(d, skip, steps).value) <==> Exec(d, skip, steps).value == Sched(Runnable(d, skip), {})
    ensures Halted(d, skip, Exec(d, skip, steps).value) <==> |steps| == 2 * |Runnable(d, skip)|
  {
    var s := Exec(d, skip, steps).value;
    StartedHasDependenciesDone(d, skip, steps);
    OnlyRunnableStart(d, skip, steps);
    NeverStuck(d, skip, steps);
    HaltedIff(d, skip, s);
    if s.completed == Runnable(d, skip) {
      forall x ensures x !in s.inProgress && x !in ReadySet(d, s.completed, s.inProgress, skip) {
        if x in ReadySet(d, s.completed, s.inProgress, skip) { OfferedIsRunnable(d, skip, steps, x); }
      }
    } else {
      CompletedAndRunningFit(s, Runnable(d, skip));
    }
  }

  lemma OfferedIsRunnable(d: Dag, skip: set<string>, steps: seq<Step>, x: string)
    requires Exec(d, skip, steps).Some?
    requires var s := Exec(d, skip, steps).value; x in ReadySet(d, s.completed, s.inProgress, skip)
    ensures x in Runnable(d, skip)
  {
    var more := steps + [Start(x)];
    assert more[..|steps|] == steps;
    OnlyRunnableStart(d, skip, more);
  }

  lemma CompletedAndRunningFit(s: Sched, all: set<string>)
    requires s.completed !! s.inProgress && s.completed + s.inProgress <= all
    ensures 2 * |s.completed| + |s.inProgress| <= 2 * |all|
    ensures s.completed != all ==> 2 * |s.completed| + |s.inProgress| < 2 * |all|
  {
    assert |s.completed + s.inProgress| == |s.completed| + |s.inProgress|;
    SubsetNotLarger(s.completed + s.inProgress, all);
    SubsetNotLarger(s.completed, all);
    if s.completed != all { SubsetSmaller(s.completed, all); }
  }

  lemma RunsAreShort(d: Dag, skip: set<string>, steps: seq<Step>)
    requires Exec(d, skip, steps).Some?
    ensures |steps| <= 2 * |Runnable(d, skip)|
  {
    StartedHasDependenciesDone(d, skip, steps);
    OnlyRunnableStart(d, skip, steps);
    CompletedAndRunningFit(Exec(d, skip, steps).value, Runnable(d, skip));
  }

  lemma NothingSkipped(d: Dag)
    ensures Runnable(d, {}) == d.nodes.Keys
  {
  }

  lemma SubsetNotLarger<T>(a: set<T>, b: set<T>)
    requires a <= b
    ensures |a| <= |b|
  {
    assert b == a + (b - a);
  }

  lemma CycleContinues(g: Graph, p: seq<string>, x: string) returns (next: string)
    requires IsCycle(g, p) && x in p
    ensures next in p && Edge(g, x, next)
  {
    var i :| 0 <= i < |p| && p[i] == x;
    var k := if i < |p| - 1 then i else 0;
    assert Edge(g, p[k], p[k + 1]);
    next := p[k + 1];
  }

  lemma {:induction false} CycleNeverStarts(d: Dag, steps: seq<Step>, p: seq<string>)
    requires d.Valid() && IsCycle(d.Deps(), p) && Exec(d, {}, steps).Some?
    ensures forall x | x in p :: !Started(Exec(d, {}, steps).value, x)
  {
    if steps != [] {
      var init, step := steps[..|steps| - 1], steps[|steps| - 1];
      CycleNeverStarts(d, init, p);
      var s := Exec(d, {}, init).value;
      forall x | x in p ensures !Started(After(s, step), x) {
        var next := CycleContinues(d.Deps(), p, x);
        assert !Started(s, x) && !Started(s, next);
      }
    }
  }

  /** Every run can be continued until the runnable nodes are completed. */
  lemma {:induction false} ExtendToCompletion(d: Dag, skip: set<string>, steps: seq<Step>) returns (full: seq<Step>)
    requires d.Valid() && AllKnown(d.Deps()) && !HasCycle(d.Deps())
    requires Exec(d, skip, steps).Some?
    ensures Exec(d, skip, full) == Some(Sched(Runnable(d, skip), {}))
    ensures steps <= full
    decreases 2 * |Runnable(d, skip)| - |steps|
  {
    HaltedMeansDone(d, skip, steps);
    RunsAreShort(d, skip, steps);
    full := steps;
    if !Halted(d, skip, Exec(d, skip, steps).value) {
      var step :| CanStep(d, skip, Exec(d, skip, steps).value, step);
      assert (steps + [step])[..|steps|] == steps;
      RunsAreShort(d, skip, steps + [step]);
      full := ExtendToCompletion(d, skip, steps + [step]);
    }
  }

  /** Some run completes every node exactly when the graph has no cycle and names no unknown
      id; nothing weaker would do. */
  lemma CompletableIffAcyclicAndKnown(d: Dag)
    requires d.Valid()
    ensures (exists steps :: Exec(d, {}, steps) == Some(Sched(d.nodes.Keys, {}))) <==>
            !HasCycle(d.Deps()) && AllKnown(d.Deps())
  {
    var g := d.Deps();
    if steps :| Exec(d, {}, steps) == Some(Sched(d.nodes.Keys, {})) {
      StartedHasDependenciesDone(d, {}, steps);
      var s := Exec(d, {}, steps).value;
      forall n, dep | n in g && dep in g[n] ensures dep in g {
        assert Started(s, n);
        assert DependenciesDone(d, s, n);
      }
      if p :| IsCycle(g, p) {
        CycleNeverStarts(d, steps, p);
        assert Edge(g, p[0], p[1]) && p[0] in p;
        assert Started(s, p[0]);
      }
    }
    if !HasCycle(g) && AllKnown(g) {
      NothingSkipped(d);
      var full := ExtendToCompletion(d, {}, []);
    }
  }
}
