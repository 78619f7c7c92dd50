/** Merge-nodes: synthetic tasks that integrate several parents, and what happens to them when a
    parent advances or merges. */
module MergeNode {
  import opened Ids
  import opened Fsm
  import opened TaskStore
  import Text

  // ----- identity -----

  function Join(ids: seq<string>): string {
    if ids == [] then ""
    else if |ids| == 1 then ids[0]
    else ids[0] + "," + Join(ids[1..])
  }

  /** `compute_merge_node_id`; `digest` stands for the short hash and may be any function. */
  function MergeNodeId(parents: seq<string>, digest: string -> string): Option<string> {
    if parents == [] then None else Some("M-" + digest(Join(SortIds(parents))))
  }

  function BranchName(id: string): string {
    "quikode/merge/" + Text.Lower(id)
  }

  /** Two tasks with the same parents get the same merge-node, whatever order they arrive in. */
  lemma IdIgnoresArrivalOrder(p: seq<string>, q: seq<string>, digest: string -> string)
    requires multiset(p) == multiset(q)
    ensures MergeNodeId(p, digest) == MergeNodeId(q, digest)
  {
    SortedIsCanonical(SortIds(p), SortIds(q));
    assert |multiset(p)| == |p| && |multiset(q)| == |q|;
  }

  ghost predicate CommaFree(ids: seq<string>) {
    forall i | 0 <= i < |ids| :: ',' !in ids[i]
  }

  ghost function UpToComma(s: string): string {
    if s == "" || s[0] == ',' then "" else [s[0]] + UpToComma(s[1..])
  }

  lemma {:induction false} UpToCommaOf(x: string, t: string)
    requires ',' !in x && (t == "" || t[0] == ',')
    ensures UpToComma(x + t) == x && (x + t)[|x|..] == t
  {
    if x == "" {
      assert x + t == t;
    } else {
      assert (x + t)[1..] == x[1..] + t;
      UpToCommaOf(x[1..], t);
    }
  }

  function AfterFirst(ids: seq<string>): string
    requires ids != []
  {
    if |ids| == 1 then "" else "," + Join(ids[1..])
  }

  /** The comma join of comma-free ids can be taken apart again. */
  lemma {:induction false} JoinIsInjective(a: seq<string>, b: seq<string>)
    requires a != [] && b != [] && CommaFree(a) && CommaFree(b) && Join(a) == Join(b)
    ensures a == b
  {
    JoinSplits(a);
    JoinSplits(b);
    assert a == [a[0]] + a[1..] && b == [b[0]] + b[1..];
    if |a| > 1 && |b| > 1 { JoinIsInjective(a[1..], b[1..]); }
  }

  /** The first id and what follows it can be read off the join. */
  lemma JoinSplits(a: seq<string>)
    requires a != [] && CommaFree(a)
    ensures UpToComma(Join(a)) == a[0] && Join(a)[|a[0]|..] == AfterFirst(a)
    ensures |a| > 1 ==> AfterFirst(a) != "" && AfterFirst(a)[1..] == Join(a[1..])
  {
    assert Join(a) == a[0] + AfterFirst(a);
    UpToCommaOf(a[0], AfterFirst(a));
  }

  ghost predicate Injective(digest: string -> string) {
    forall s, t {:trigger digest(s), digest(t)} :: digest(s) == digest(t) ==> s == t
  }

  /** With comma-free ids and a digest that does not collide, two parent lists share a merge-node
      exactly when they hold the same parents. */
  lemma SameNodeIff(p: seq<string>, q: seq<string>, digest: string -> string)
    requires p != [] && q != [] && CommaFree(p) && CommaFree(q) && Injective(digest)
    ensures MergeNodeId(p, digest) == MergeNodeId(q, digest) <==> multiset(p) == multiset(q)
  {
    if multiset(p) == multiset(q) { IdIgnoresArrivalOrder(p, q, digest); }
    if MergeNodeId(p, digest) == MergeNodeId(q, digest) {
      SortKeepsCommaFree(p);
      SortKeepsCommaFree(q);
      SameIdMeansSameList(SortIds(p), SortIds(q), digest);
    }
  }

  lemma SortKeepsCommaFree(p: seq<string>)
    requires CommaFree(p)
    ensures CommaFree(SortIds(p))
  {
    forall i | 0 <= i < |SortIds(p)| ensures ',' !in SortIds(p)[i] { assert SortIds(p)[i] in p; }
  }

  lemma SameIdMeansSameList(a: seq<string>, b: seq<string>, digest: string -> string)
    requires a != [] && b != [] && CommaFree(a) && CommaFree(b) && Injective(digest)
    requires "M-" + digest(Join(a)) == "M-" + digest(Join(b))
    ensures a == b
  {
    SamePrefix("M-", digest(Join(a)), digest(Join(b)));
    assert Join(a) == Join(b);
    JoinIsInjective(a, b);
  }

  lemma SamePrefix(prefix: string, a: string, b: string)
    requires prefix + a == prefix + b
    ensures a == b
  {
    assert a == (prefix + a)[|prefix|..] && b == (prefix + b)[|prefix|..];
  }

  /** PR branches mirror the task branches. */
  function MergeNodeRow(parents: seq<string>, branches: seq<string>, branch: string): Row {
    FreshRow(PENDING).(kind := MERGE, workspace := Workspace(Some(branch), None, None),
                       parents := Parents(Some(parents), Some(branches), Some(branches)))
  }

  function Created(db: Db, id: string, parents: seq<string>, branches: seq<string>, branch: string): Db {
    if id in db.tasks then db else Logged(db, id, MergeNodeRow(parents, branches, branch), None, CreatedNote(parents))
  }

  function LookedUp(db: Db, parents: seq<string>, branches: seq<string>, digest: string -> string): Db {
    match MergeNodeId(parents, digest)
    case None => db
    case Some(id) => Created(db, id, parents, branches, BranchName(id))
  }

  method CreateMergeNode(store: Store, id: string, parents: seq<string>, branches: seq<string>, branch: string)
    returns (ok: bool)
    modifies store
    ensures ok <==> id !in old(store.tasks)
    ensures store.Contents() == Created(old(store.Contents()), id, parents, branches, branch)
  {
    if id in store.tasks { return false; }
    store.tasks := store.tasks[id := MergeNodeRow(parents, branches, branch)];
    store.log := store.log + [LogEntry(id, None, PENDING, CreatedNote(parents))];
    return true;
  }

  method LookupOrCreateMergeNode(store: Store, parents: seq<string>, branches: seq<string>, digest: string -> string)
    returns (r: Option<string>)
    modifies store
    ensures r == MergeNodeId(parents, digest)
    ensures store.Contents() == LookedUp(old(store.Contents()), parents, branches, digest)
  {
    r := MergeNodeId(parents, digest);
    if r.None? { return; }
    var existing := store.Get(r.value);
    if existing.Some? { return; }
    var ok := CreateMergeNode(store, r.value, parents, branches, BranchName(r.value));
  }

  /** A second lookup, by the same parents in any order, changes nothing. */
  lemma LookupIsIdempotent(db: Db, p: seq<string>, q: seq<string>, branches: seq<string>, branches': seq<string>,
                           digest: string -> string)
    requires multiset(p) == multiset(q)
    ensures var once := LookedUp(db, p, branches, digest); LookedUp(once, q, branches', digest) == once
    ensures p != [] ==> MergeNodeId(p, digest).Some? &&
                        MergeNodeId(p, digest).value in LookedUp(db, q, branches, digest).tasks
  {
    IdIgnoresArrivalOrder(p, q, digest);
  }

  /** A run of lookups. */
  function LookedUpAll(db: Db, asked: seq<(seq<string>, seq<string>)>, digest: string -> string): Db {
    if asked == [] then db
    else LookedUp(LookedUpAll(db, asked[..|asked| - 1], digest), asked[|asked| - 1].0, asked[|asked| - 1].1, digest)
  }

  lemma LookupAddsItsId(db: Db, p: seq<string>, branches: seq<string>, digest: string -> string, x: string)
    ensures x in LookedUp(db, p, branches, digest).tasks <==> x in db.tasks || Some(x) == MergeNodeId(p, digest)
  {
  }

  /** Lookups for other parents do not make the node of these. */
  lemma {:induction false} OtherLookupsLeaveRoom(db: Db, asked: seq<(seq<string>, seq<string>)>, q: seq<string>,
                                                 digest: string -> string)
    requires q != [] && CommaFree(q) && Injective(digest) && MergeNodeId(q, digest).value !in db.tasks
    requires forall i | 0 <= i < |asked| :: CommaFree(asked[i].0) && multiset(asked[i].0) != multiset(q)
    ensures MergeNodeId(q, digest).value !in LookedUpAll(db, asked, digest).tasks
  {
    if asked != [] {
      var n := |asked| - 1;
      OtherLookupsLeaveRoom(db, asked[..n], q, digest);
      if asked[n].0 != [] { SameNodeIff(asked[n].0, q, digest); }
      LookupAddsItsId(LookedUpAll(db, asked[..n], digest), asked[n].0, asked[n].1, digest, MergeNodeId(q, digest).value);
    }
  }

  /** After any run of lookups for other parents, a lookup for parents without a node makes one: a
      waiting merge task on its own branch that lists exactly them, with the given branches, and
      that every one of them reaches when it advances or merges. No other row changes. */
  lemma LookupMakesItsOwnNode(db: Db, asked: seq<(seq<string>, seq<string>)>, q: seq<string>, branches: seq<string>,
                              digest: string -> string)
    requires q != [] && CommaFree(q) && Injective(digest) && MergeNodeId(q, digest).value !in db.tasks
    requires forall i | 0 <= i < |asked| :: CommaFree(asked[i].0) && multiset(asked[i].0) != multiset(q)
    ensures var id := MergeNodeId(q, digest).value;
            var before := LookedUpAll(db, asked, digest);
            var after := LookedUp(before, q, branches, digest);
            && id !in before.tasks && after.tasks.Keys == before.tasks.Keys + {id}
            && (forall x | x in before.tasks :: after.tasks[x] == before.tasks[x])
            && after.tasks[id].state == PENDING && after.tasks[id].kind == MERGE
            && after.tasks[id].workspace == Workspace(Some("quikode/merge/" + Text.Lower(id)), None, None)
            && after.tasks[id].parents == Parents(Some(q), Some(branches), Some(branches))
            && forall p :: id in Affected(after, p) <==> p in q
  {
    OtherLookupsLeaveRoom(db, asked, q, digest);
  }

  // ----- parent lists -----

  function RemoveAt<T>(s: seq<T>, i: nat): (r: seq<T>)
    ensures |r| == if i < |s| then |s| - 1 else |s|
    ensures forall j | 0 <= j < |r| :: r[j] == if i < |s| && j >= i then s[j + 1] else s[j]
  {
    if i < |s| then s[..i] + s[i + 1..] else s
  }

  /** `ids.index(x)`: the first occurrence. */
  function IndexOf(s: seq<string>, x: string): (i: nat)
    requires x in s
    ensures i < |s| && s[i] == x && forall j | 0 <= j < i :: s[j] != x
  {
    if s[0] == x then 0 else
      assert s == [s[0]] + s[1..];
      1 + IndexOf(s[1..], x)
  }

  function OrEmpty(s: Option<seq<string>>): seq<string> {
    if s.Some? then s.value else []
  }

  predicate ListsParent(r: Row, p: string) {
    r.parents.ids.Some? && p in r.parents.ids.value
  }

  /** The three parallel lists of a row. */
  datatype ParentLists = ParentLists(ids: seq<string>, branches: seq<string>, prBranches: seq<string>)

  function ListsOf(r: Row): ParentLists {
    ParentLists(OrEmpty(r.parents.ids), OrEmpty(r.parents.branches), OrEmpty(r.parents.prBranches))
  }

  /** The lists lose the position of the parent; a list too short to have it is kept. */
  function Without(l: ParentLists, p: string): ParentLists {
    if p !in l.ids then l
    else
      DropPosition(l, IndexOf(l.ids, p))
  }

  function WithLists(r: Row, l: ParentLists): Row {
    r.(parents := Parents(Some(l.ids), Some(l.branches), Some(l.prBranches)))
  }

  function PrunedRow(r: Row, p: string): (r': Row)
    ensures r'.state == r.state && r'.kind == r.kind
  {
    if ListsParent(r, p) then WithLists(r, Without(ListsOf(r), p)) else r
  }

  function Pruned(db: Db, id: string, p: string): Db {
    if id in db.tasks then db.(tasks := db.tasks[id := PrunedRow(db.tasks[id], p)]) else db
  }

  method PruneMergeNodeParent(store: Store, id: string, p: string) returns (remaining: seq<string>)
    modifies store
    ensures store.Contents() == Pruned(old(store.Contents()), id, p)
    ensures remaining == if id in old(store.tasks) then OrEmpty(store.tasks[id].parents.ids) else []
  {
    if id !in store.tasks { return []; }
    var row := store.tasks[id];
    if row.parents.ids.None? {
      assert store.tasks[id := row] == store.tasks;
      return [];
    }
    var ids, branches, prBranches := row.parents.ids.value, OrEmpty(row.parents.branches), OrEmpty(row.parents.prBranches);
    if p !in ids {
      assert store.tasks[id := row] == store.tasks;
      return ids;
    }
    var idx := IndexOf(ids, p);
    ids := RemoveAt(ids, idx);
    branches := RemoveAt(branches, idx);
    prBranches := RemoveAt(prBranches, idx);
    store.tasks := store.tasks[id := row.(parents := Parents(Some(ids), Some(branches), Some(prBranches)))];
    return ids;
  }

  /** Equally long lists: `ids[i]` was stacked on `branches[i]` and `prBranches[i]`. */
  predicate Aligned(l: ParentLists) {
    |l.ids| == |l.branches| == |l.prBranches|
  }

  /** `after` is `before` with one position taken out of all three lists at once. */
  ghost predicate LosesPosition(before: ParentLists, after: ParentLists, i: nat) {
    Aligned(before) && Aligned(after) && |after.ids| == |before.ids| - 1 && i < |before.ids| &&
    forall j | 0 <= j < |after.ids| ::
      var k := if j < i then j else j + 1;
      after.ids[j] == before.ids[k] && after.branches[j] == before.branches[k] &&
      after.prBranches[j] == before.prBranches[k]
  }

  /** Pruning removes one parent together with its own branches: what is left at each position
      stood together before, and only the named parent is gone. */
  lemma PruneKeepsAlignment(l: ParentLists, p: string)
    requires Aligned(l) && p in l.ids
    ensures exists i: nat :: LosesPosition(l, Without(l, p), i) && l.ids[i] == p
    ensures multiset(Without(l, p).ids) == multiset(l.ids) - multiset{p}
  {
    var i := IndexOf(l.ids, p);
    assert Without(l, p) == DropPosition(l, i);
    DropLosesPosition(l, i);
    OneLess(l.ids, i);
  }

  lemma DropLosesPosition(l: ParentLists, i: nat)
    requires Aligned(l) && i < |l.ids|
    ensures LosesPosition(l, DropPosition(l, i), i)
  {
  }

  lemma OneLess(s: seq<string>, i: nat)
    requires i < |s|
    ensures multiset(RemoveAt(s, i)) == multiset(s) - multiset{s[i]}
  {
    assert s == s[..i] + [s[i]] + s[i + 1..];
  }

  lemma RemovalsCommute<T>(s: seq<T>, i: nat, j: nat)
    requires i < j
    ensures RemoveAt(RemoveAt(s, i), j - 1) == RemoveAt(RemoveAt(s, j), i)
  {
    var c, e := RemoveAt(s, i), RemoveAt(s, j);
    var a, b := RemoveAt(c, j - 1), RemoveAt(e, i);
    forall k | 0 <= k < |a| ensures a[k] == b[k] {
      if k < i {
        assert a[k] == c[k] && b[k] == e[k];
      } else if k < j - 1 {
        assert a[k] == c[k] && b[k] == e[k + 1];
      } else if j < |s| {
        assert a[k] == c[k + 1] && b[k] == e[k + 1];
      }
    }
  }

  lemma IndexAfterRemoval(s: seq<string>, p: string, q: string)
    requires p in s && q in s && p != q && IndexOf(s, p) < IndexOf(s, q)
    ensures q in RemoveAt(s, IndexOf(s, p)) && p in RemoveAt(s, IndexOf(s, q))
    ensures IndexOf(RemoveAt(s, IndexOf(s, p)), q) == IndexOf(s, q) - 1
    ensures IndexOf(RemoveAt(s, IndexOf(s, q)), p) == IndexOf(s, p)
  {
    var i, j := IndexOf(s, p), IndexOf(s, q);
    assert RemoveAt(s, i)[j - 1] == q && RemoveAt(s, j)[i] == p;
    var k := IndexOf(RemoveAt(s, i), q);
    assert k <= j - 1;
    assert s[if k < i then k else k + 1] == q;
    var m := IndexOf(RemoveAt(s, j), p);
    assert m <= i;
    assert s[m] == p;
  }

  function DropPosition(l: ParentLists, i: nat): ParentLists {
    ParentLists(RemoveAt(l.ids, i), RemoveAt(l.branches, i), RemoveAt(l.prBranches, i))
  }

  lemma DropsCommute(l: ParentLists, i: nat, j: nat)
    requires i < j
    ensures DropPosition(DropPosition(l, i), j - 1) == DropPosition(DropPosition(l, j), i)
  {
    RemovalsCommute(l.ids, i, j);
    RemovalsCommute(l.branches, i, j);
    RemovalsCommute(l.prBranches, i, j);
  }

  lemma WithoutTwice(l: ParentLists, p: string, q: string, i: nat, k: nat)
    requires p in l.ids && IndexOf(l.ids, p) == i
    requires q in RemoveAt(l.ids, i) && IndexOf(RemoveAt(l.ids, i), q) == k
    ensures Without(Without(l, p), q) == DropPosition(DropPosition(l, i), k)
  {
    assert Without(l, p) == DropPosition(l, i);
  }

  lemma WithoutInOrder(l: ParentLists, p: string, q: string, i: nat, j: nat)
    requires p in l.ids && q in l.ids && p != q
    requires i == IndexOf(l.ids, p) && j == IndexOf(l.ids, q) && i < j
    ensures Without(Without(l, p), q) == Without(Without(l, q), p)
  {
    assert Without(Without(l, p), q) == DropPosition(DropPosition(l, i), j - 1) by {
      IndexAfterRemoval(l.ids, p, q);
      WithoutTwice(l, p, q, i, j - 1);
    }
    assert Without(Without(l, q), p) == DropPosition(DropPosition(l, j), i) by {
      IndexAfterRemoval(l.ids, p, q);
      WithoutTwice(l, q, p, j, i);
    }
    DropsCommute(l, i, j);
  }

  lemma OthersStayListed(l: ParentLists, p: string, q: string)
    requires p != q
    ensures q in Without(l, p).ids <==> q in l.ids
  {
    if p in l.ids {
      var i := IndexOf(l.ids, p);
      assert l.ids == l.ids[..i] + [p] + l.ids[i + 1..];
      assert RemoveAt(l.ids, i) == l.ids[..i] + l.ids[i + 1..];
    }
  }

  lemma WithoutCommutes(l: ParentLists, p: string, q: string)
    ensures Without(Without(l, p), q) == Without(Without(l, q), p)
  {
    if p != q {
      OthersStayListed(l, p, q);
      OthersStayListed(l, q, p);
      if p in l.ids && q in l.ids {
        var i, j := IndexOf(l.ids, p), IndexOf(l.ids, q);
        if i < j { WithoutInOrder(l, p, q, i, j); } else { WithoutInOrder(l, q, p, j, i); }
      }
    }
  }

  /** Two parents merging leave the same row in either order, aligned or not, repeats or not. */
  lemma PrunesCommute(r: Row, p: string, q: string)
    ensures PrunedRow(PrunedRow(r, p), q) == PrunedRow(PrunedRow(r, q), p)
  {
    WithoutCommutes(ListsOf(r), p, q);
    if p != q {
      OthersStayListed(ListsOf(r), p, q);
      OthersStayListed(ListsOf(r), q, p);
    }
  }

  // ----- propagation -----

  /** The states `merge_nodes_with_parent` leaves out. */
  predicate Excluded(s: State) {
    s.MERGE_NODE_RETIRED? || s.BLOCKED? || s.FAILED? || s.ABORTED?
  }

  predicate IsAffected(r: Row, p: string) {
    r.kind == MERGE && !Excluded(r.state) && ListsParent(r, p)
  }

  ghost function Affected(db: Db, p: string): set<string> {
    set id | id in db.tasks && IsAffected(db.tasks[id], p)
  }

  method MergeNodesWithParent(store: Store, p: string) returns (ids: seq<string>)
    ensures Lists(ids, Affected(store.Contents(), p)) && Sorted(ids)
    ensures forall x :: x in ids <==>
                        x in store.tasks && store.tasks[x].kind == MERGE &&
                        store.tasks[x].state !in {MERGE_NODE_RETIRED, BLOCKED, FAILED, ABORTED} &&
                        store.tasks[x].parents.ids.Some? && p in store.tasks[x].parents.ids.value
  {
    var all := store.AllIds();
    ids := [];
    for i := 0 to |all|
      invariant Distinct(ids)
      invariant forall x :: x in ids <==> x in all[..i] && IsAffected(store.tasks[x], p)
      invariant forall a | 0 <= a < |ids| :: ids[a] in all[..i]
      invariant Sorted(ids)
    {
      var id := all[i];
      assert all[..i + 1] == all[..i] + [id];
      assert id !in all[..i];
      if IsAffected(store.tasks[id], p) {
        forall a | 0 <= a < |ids| ensures Leq(ids[a], id) {
          var k :| 0 <= k < i && all[..i][k] == ids[a];
          assert Leq(all[k], all[i]);
        }
        ids := ids + [id];
      }
    }
    assert all[..|all|] == all;
  }

  function AdvancedOne(db: Db, p: string, id: string): Db {
    if id in db.tasks && db.tasks[id].state == MERGE_NODE_READY then
      Moved(db, id, PENDING, AdvancedNote(p), [SetResume(true)])
    else db
  }

  function AdvancedAll(db: Db, p: string, ids: seq<string>): Db {
    if ids == [] then db
    else AdvancedOne(AdvancedAll(db, p, ids[..|ids| - 1]), p, ids[|ids| - 1])
  }

  function MergedOne(db: Db, p: string, id: string): Db {
    if id in db.tasks then Settled(Pruned(db, id, p), p, id) else db
  }

  function MergedAll(db: Db, p: string, ids: seq<string>): Db {
    if ids == [] then db
    else MergedOne(MergedAll(db, p, ids[..|ids| - 1]), p, ids[|ids| - 1])
  }

  ghost predicate AdvancesListed(before: Db, p: string, ids: seq<string>, after: Db) {
    Lists(ids, Affected(before, p)) && Sorted(ids) && after == AdvancedAll(before, p, ids)
  }

  ghost predicate MergesListed(before: Db, p: string, ids: seq<string>, after: Db) {
    Lists(ids, Affected(before, p)) && Sorted(ids) && after == MergedAll(before, p, ids)
  }

  /** Ids not in the list keep their rows while the list is processed. */
  lemma {:induction false} AdvanceTouchesOnlyListed(db: Db, p: string, ids: seq<string>, id: string)
    requires id !in ids
    ensures id in AdvancedAll(db, p, ids).tasks <==> id in db.tasks
    ensures id in db.tasks ==> AdvancedAll(db, p, ids).tasks[id] == db.tasks[id]
  {
    if ids != [] { AdvanceTouchesOnlyListed(db, p, ids[..|ids| - 1], id); }
  }

  lemma {:induction false} MergeTouchesOnlyListed(db: Db, p: string, ids: seq<string>, id: string)
    requires id !in ids
    ensures id in MergedAll(db, p, ids).tasks <==> id in db.tasks
    ensures id in db.tasks ==> MergedAll(db, p, ids).tasks[id] == db.tasks[id]
  {
    if ids != [] { MergeTouchesOnlyListed(db, p, ids[..|ids| - 1], id); }
  }

  lemma {:induction false} AdvanceRow(db: Db, p: string, ids: seq<string>, id: string)
    requires Distinct(ids) && id in ids && id in db.tasks
    ensures id in AdvancedAll(db, p, ids).tasks
    ensures AdvancedAll(db, p, ids).tasks[id] ==
            if db.tasks[id].state == MERGE_NODE_READY then db.tasks[id].(state := PENDING, resumeFromSubtasks := true)
            else db.tasks[id]
  {
    var n := |ids| - 1;
    if ids[n] == id {
      AdvanceTouchesOnlyListed(db, p, ids[..n], id);
      WithOneField(db.tasks[id].(state := PENDING), SetResume(true));
    } else {
      AdvanceRow(db, p, ids[..n], id);
    }
  }

  /** What one affected row becomes when `p` merges. */
  function MergedRow(r: Row, p: string): Row {
    var pruned := PrunedRow(r, p);
    if r.state != MERGE_NODE_READY then pruned
    else if OrEmpty(pruned.parents.ids) == [] then pruned.(state := MERGE_NODE_RETIRED)
    else pruned.(state := PENDING, resumeFromSubtasks := true)
  }

  lemma {:induction false} MergeRow(db: Db, p: string, ids: seq<string>, id: string)
    requires Distinct(ids) && id in ids && id in db.tasks
    ensures id in MergedAll(db, p, ids).tasks && MergedAll(db, p, ids).tasks[id] == MergedRow(db.tasks[id], p)
  {
    var n := |ids| - 1;
    if ids[n] == id {
      MergeTouchesOnlyListed(db, p, ids[..n], id);
      WithOneField(PrunedRow(db.tasks[id], p).(state := PENDING), SetResume(true));
    } else {
      MergeRow(db, p, ids[..n], id);
    }
  }

  /** The loop body of `propagate_parent_advanced` on one snapshot row. */
  method AdvanceOne(store: Store, p: string, id: string, snapshot: Row) returns (done: bool)
    requires id in store.tasks && store.tasks[id] == snapshot
    modifies store
    ensures store.Contents() == AdvancedOne(old(store.Contents()), p, id)
    ensures done <==> snapshot.state == MERGE_NODE_READY
  {
    if snapshot.state != MERGE_NODE_READY { return false; }
    ReadyOutcomes(store.Contents(), id);
    var r := store.ApplyEvent(id, ParentAdvanced, AdvancedNote(p), [SetResume(true)]);
    return true;
  }

  /** The READY ones of the listed nodes, in order. */
  function ReadyOf(db: Db, ids: seq<string>): seq<string> {
    if ids == [] then []
    else
      var id := ids[|ids| - 1];
      ReadyOf(db, ids[..|ids| - 1]) + if id in db.tasks && db.tasks[id].state == MERGE_NODE_READY then [id] else []
  }

  method PropagateParentAdvanced(store: Store, p: string) returns (transitioned: seq<string>)
    modifies store
    ensures exists ids :: AdvancesListed(old(store.Contents()), p, ids, store.Contents()) &&
                          transitioned == ReadyOf(old(store.Contents()), ids)
    ensures Distinct(transitioned) && Sorted(transitioned)
    ensures forall x :: x in transitioned <==>
                        x in Affected(old(store.Contents()), p) && old(store.tasks)[x].state == MERGE_NODE_READY
  {
    var affected := MergeNodesWithParent(store, p);
    ghost var before := store.Contents();
    var rows := store.tasks;
    AffectedHaveRows(before, p, affected);
    transitioned := [];
    for i := 0 to |affected|
      invariant store.Contents() == AdvancedAll(before, p, affected[..i])
      invariant transitioned == ReadyOf(before, affected[..i])
    {
      var id := affected[i];
      ListStep(affected, i);
      AdvanceTouchesOnlyListed(before, p, affected[..i], id);
      var done := AdvanceOne(store, p, id, rows[id]);
      if done {
        transitioned := transitioned + [id];
      }
    }
    assert affected[..|affected|] == affected;
    assert AdvancesListed(before, p, affected, store.Contents());
    ReadyAre(before, affected);
  }

  /** The reported nodes are the READY ones of the list, each once and in its order. */
  lemma {:induction false} ReadyAre(db: Db, ids: seq<string>)
    requires Distinct(ids) && Sorted(ids)
    ensures Distinct(ReadyOf(db, ids)) && Sorted(ReadyOf(db, ids))
    ensures forall x :: x in ReadyOf(db, ids) <==> x in ids && x in db.tasks && db.tasks[x].state == MERGE_NODE_READY
  {
    if ids != [] {
      var n := |ids| - 1;
      ReadyAre(db, ids[..n]);
      forall x | x in ReadyOf(db, ids[..n]) ensures x != ids[n] && Leq(x, ids[n]) {
        var i :| 0 <= i < n && ids[i] == x;
      }
    }
  }

  lemma AffectedHaveRows(db: Db, p: string, ids: seq<string>)
    requires Lists(ids, Affected(db, p))
    ensures forall i | 0 <= i < |ids| :: ids[i] in db.tasks
  {
    forall i | 0 <= i < |ids| ensures ids[i] in db.tasks { assert ids[i] in Affected(db, p); }
  }

  lemma ListStep(ids: seq<string>, i: nat)
    requires Distinct(ids) && i < |ids|
    ensures ids[..i + 1] == ids[..i] + [ids[i]] && ids[..i + 1][..i] == ids[..i] && ids[i] !in ids[..i]
  {
  }

  /** The event part of the loop body, once the parent is pruned. */
  function Settled(db: Db, p: string, id: string): Db
    requires id in db.tasks
  {
    var row := db.tasks[id];
    if row.state != MERGE_NODE_READY then db
    else if OrEmpty(row.parents.ids) == [] then Moved(db, id, MERGE_NODE_RETIRED, AllMergedNote(p), [])
    else Moved(db, id, PENDING, RemergeNote(p, |OrEmpty(row.parents.ids)|), [SetResume(true)])
  }

  method Settle(store: Store, p: string, id: string, remaining: seq<string>, snapshot: State)
    requires id in store.tasks && store.tasks[id].state == snapshot
    requires remaining == OrEmpty(store.tasks[id].parents.ids)
    modifies store
    ensures store.Contents() == Settled(old(store.Contents()), p, id)
  {
    if snapshot != MERGE_NODE_READY { return; }
    ReadyOutcomes(store.Contents(), id);
    if remaining == [] {
      var r := store.ApplyEvent(id, AllParentsMerged, AllMergedNote(p), []);
    } else {
      var r := store.ApplyEvent(id, ParentAdvanced, RemergeNote(p, |remaining|), [SetResume(true)]);
    }
  }

  lemma ReadyOutcomes(db: Db, id: string)
    requires id in db.tasks && db.tasks[id].state == MERGE_NODE_READY
    ensures Outcome(db, id, ParentAdvanced) == Ok(PENDING)
    ensures Outcome(db, id, AllParentsMerged) == Ok(MERGE_NODE_RETIRED)
  {
  }

  /** The loop body of `propagate_parent_merged` on one snapshot row. */
  method MergeOne(store: Store, p: string, id: string, snapshot: Row)
    requires id in store.tasks && store.tasks[id] == snapshot
    modifies store
    ensures store.Contents() == MergedOne(old(store.Contents()), p, id)
  {
    var remaining := PruneMergeNodeParent(store, id, p);
    Settle(store, p, id, remaining, snapshot.state);
  }

  method PropagateParentMerged(store: Store, p: string) returns (touched: seq<string>)
    modifies store
    ensures MergesListed(old(store.Contents()), p, touched, store.Contents())
  {
    var affected := MergeNodesWithParent(store, p);
    ghost var before := store.Contents();
    var rows := store.tasks;
    AffectedHaveRows(before, p, affected);
    touched := [];
    for i := 0 to |affected|
      invariant store.Contents() == MergedAll(before, p, affected[..i])
      invariant touched == affected[..i]
    {
      var id := affected[i];
      ListStep(affected, i);
      MergeTouchesOnlyListed(before, p, affected[..i], id);
      MergeOne(store, p, id, rows[id]);
      touched := touched + [id];
    }
    assert affected[..|affected|] == affected;
  }

  // ----- what propagation guarantees -----

  /** Every merge-node naming `p` ends as `MergedRow` says, and no other row changes. */
  lemma ParentMergedRows(before: Db, p: string, ids: seq<string>, after: Db, id: string)
    requires MergesListed(before, p, ids, after)
    ensures id in after.tasks <==> id in before.tasks
    ensures id in before.tasks ==>
              after.tasks[id] == if IsAffected(before.tasks[id], p) then MergedRow(before.tasks[id], p) else before.tasks[id]
  {
    if id in ids {
      MergeRow(before, p, ids, id);
    } else {
      MergeTouchesOnlyListed(before, p, ids, id);
    }
  }

  /** `p` is listed once. */
  predicate ListsOnce(r: Row, p: string) {
    r.parents.ids.Some? && multiset(r.parents.ids.value)[p] == 1
  }

  lemma PruneCount(r: Row, p: string)
    requires ListsParent(r, p)
    ensures ListsParent(PrunedRow(r, p), p) <==> !ListsOnce(r, p)
  {
    var ids := r.parents.ids.value;
    var i := IndexOf(ids, p);
    assert ids == ids[..i] + [p] + ids[i + 1..];
    assert RemoveAt(ids, i) == ids[..i] + ids[i + 1..];
    assert multiset(RemoveAt(ids, i))[p] == multiset(ids)[p] - 1;
  }

  /** One row after its parent merged: never still READY, and retired only from READY with no
      parents left. */
  lemma MergedRowState(r: Row, p: string)
    requires IsAffected(r, p)
    ensures MergedRow(r, p).state != MERGE_NODE_READY
    ensures MergedRow(r, p).state == MERGE_NODE_RETIRED <==>
              r.state == MERGE_NODE_READY && OrEmpty(MergedRow(r, p).parents.ids) == []
  {
  }

  /** It still waits on `p` exactly when `p` was named more than once. */
  lemma MergedRowWaits(r: Row, p: string)
    requires IsAffected(r, p)
    ensures IsAffected(MergedRow(r, p), p) <==> !ListsOnce(r, p)
  {
    PruneCount(r, p);
    assert MergedRow(r, p).parents == PrunedRow(r, p).parents;
  }

  ghost predicate RetiredCorrectly(before: Db, p: string, after: Db, id: string) {
    id in before.tasks && id in after.tasks &&
    after.tasks[id].state != MERGE_NODE_READY &&
    (after.tasks[id].state == MERGE_NODE_RETIRED <==>
     before.tasks[id].state == MERGE_NODE_READY && OrEmpty(after.tasks[id].parents.ids) == [])
  }

  /** After `p` merged: of the nodes that named it none is still READY and exactly the READY ones
      left without parents are retired; and no live merge-node names `p` any more, exactly when
      none of them named it twice. */
  lemma ParentMergedLeavesNone(before: Db, p: string, ids: seq<string>, after: Db)
    requires MergesListed(before, p, ids, after)
    ensures forall id | id in Affected(before, p) :: RetiredCorrectly(before, p, after, id)
    ensures Affected(after, p) == {} <==> forall id | id in Affected(before, p) :: ListsOnce(before.tasks[id], p)
  {
    forall id | id in Affected(before, p)
      ensures RetiredCorrectly(before, p, after, id)
      ensures id in Affected(after, p) <==> !ListsOnce(before.tasks[id], p)
    {
      ParentMergedRows(before, p, ids, after, id);
      MergedRowState(before.tasks[id], p);
      MergedRowWaits(before.tasks[id], p);
    }
    forall id | id in Affected(after, p) ensures id in Affected(before, p) {
      ParentMergedRows(before, p, ids, after, id);
    }
  }

  /** Advancing resets exactly the READY nodes naming `p`, keeps their parents, and asks them to
      resume. */
  lemma ParentAdvancedRows(before: Db, p: string, ids: seq<string>, after: Db, id: string)
    requires AdvancesListed(before, p, ids, after)
    ensures id in after.tasks <==> id in before.tasks
    ensures id in before.tasks ==>
              after.tasks[id] ==
              if IsAffected(before.tasks[id], p) && before.tasks[id].state == MERGE_NODE_READY
              then before.tasks[id].(state := PENDING, resumeFromSubtasks := true) else before.tasks[id]
  {
    if id in ids {
      AdvanceRow(before, p, ids, id);
    } else {
      AdvanceTouchesOnlyListed(before, p, ids, id);
    }
  }
}
