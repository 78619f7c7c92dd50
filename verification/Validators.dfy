/** What the planner's validators accept: rubric coverage and the evidence partition. */
module Validators {
  import opened Ids
  import opened Plan
  import opened RubricText

  // ----- rubric coverage -----

  datatype CoverageError =
    | NoCategories
    | Missing(categories: seq<string>)
    | Unknown(references: seq<(string, string)>)

  /** A subtask names the category. */
  ghost predicate Names(s: Subtask, category: string) {
    exists t :: t in s.rubricTargets && t.category == category
  }

  ghost predicate Claimed(ss: seq<Subtask>, category: string) {
    exists s :: s in ss && Names(s, category)
  }

  /** The two loops over the subtasks' targets. */
  method SeenCategories(ss: seq<Subtask>) returns (seen: set<string>)
    ensures forall c :: c in seen <==> Claimed(ss, c)
  {
    seen := {};
    for i := 0 to |ss|
      invariant forall c :: c in seen <==> Claimed(ss[..i], c)
    {
      seen := AddNames(ss[i], seen);
      forall c ensures c in seen <==> Claimed(ss[..i + 1], c) { ClaimedStep(ss, i, c); }
    }
    assert ss[..|ss|] == ss;
  }

  lemma ClaimedStep(ss: seq<Subtask>, i: nat, c: string)
    requires i < |ss|
    ensures Claimed(ss[..i + 1], c) <==> Claimed(ss[..i], c) || Names(ss[i], c)
  {
    assert ss[..i + 1] == ss[..i] + [ss[i]];
    if Claimed(ss[..i], c) {
      var s :| s in ss[..i] && Names(s, c);
      assert s in ss[..i + 1];
    }
    if Names(ss[i], c) { assert ss[i] in ss[..i + 1]; }
  }

  method AddNames(s: Subtask, seen: set<string>) returns (more: set<string>)
    ensures forall c :: c in more <==> c in seen || Names(s, c)
  {
    more := seen;
    for j := 0 to |s.rubricTargets|
      invariant forall c :: c in more <==> c in seen || exists t :: t in s.rubricTargets[..j] && t.category == c
    {
      assert s.rubricTargets[..j + 1] == s.rubricTargets[..j] + [s.rubricTargets[j]];
      more := more + {s.rubricTargets[j].category};
    }
    assert s.rubricTargets[..|s.rubricTargets|] == s.rubricTargets;
  }

  method UnknownReferences(ss: seq<Subtask>, expected: set<string>) returns (unknown: seq<(string, string)>)
    ensures forall u :: u in unknown <==> IsUnknown(ss, expected, u)
  {
    unknown := [];
    for i := 0 to |ss|
      invariant forall u :: u in unknown <==> IsUnknown(ss[..i], expected, u)
    {
      unknown := AddUnknown(ss[i], expected, unknown);
      forall u ensures u in unknown <==> IsUnknown(ss[..i + 1], expected, u) { UnknownStep(ss, i, expected, u); }
    }
    assert ss[..|ss|] == ss;
  }

  ghost predicate IsUnknown(ss: seq<Subtask>, expected: set<string>, u: (string, string)) {
    exists s :: s in ss && u.0 == s.id && Names(s, u.1) && u.1 !in expected
  }

  lemma UnknownStep(ss: seq<Subtask>, i: nat, expected: set<string>, u: (string, string))
    requires i < |ss|
    ensures IsUnknown(ss[..i + 1], expected, u) <==>
            IsUnknown(ss[..i], expected, u) || (u.0 == ss[i].id && Names(ss[i], u.1) && u.1 !in expected)
  {
    assert ss[..i + 1] == ss[..i] + [ss[i]];
    if IsUnknown(ss[..i], expected, u) {
      var s :| s in ss[..i] && u.0 == s.id && Names(s, u.1) && u.1 !in expected;
      assert s in ss[..i + 1];
    }
    if u.0 == ss[i].id && Names(ss[i], u.1) && u.1 !in expected { assert ss[i] in ss[..i + 1]; }
  }

  method AddUnknown(s: Subtask, expected: set<string>, unknown: seq<(string, string)>) returns (more: seq<(string, string)>)
    ensures forall u :: u in more <==> u in unknown || (u.0 == s.id && Names(s, u.1) && u.1 !in expected)
  {
    more := unknown;
    for j := 0 to |s.rubricTargets|
      invariant forall u :: u in more <==>
                  u in unknown ||
                  (u.0 == s.id && u.1 !in expected && exists t :: t in s.rubricTargets[..j] && t.category == u.1)
    {
      var t := s.rubricTargets[j];
      assert s.rubricTargets[..j + 1] == s.rubricTargets[..j] + [t];
      if t.category !in expected {
        more := more + [(s.id, t.category)];
      }
    }
    assert s.rubricTargets[..|s.rubricTargets|] == s.rubricTargets;
  }

  /** `[cat for cat in expected if cat not in seen]` */
  function NotSeen(expected: seq<string>, seen: set<string>): (r: seq<string>)
    ensures forall c :: c in r <==> c in expected && c !in seen
  {
    if expected == [] then []
    else
      assert expected == [expected[0]] + expected[1..];
      (if expected[0] !in seen then [expected[0]] else []) + NotSeen(expected[1..], seen)
  }

  /** The claims cover the contract's categories: they are the same set, and not an empty one. */
  ghost predicate Covers(ss: seq<Subtask>, expected: seq<string>) {
    expected != [] && forall c :: c in expected <==> Claimed(ss, c)
  }

  method ValidateRubricCoverage(ss: seq<Subtask>, sourceText: string) returns (r: Option<CoverageError>)
    ensures var expected := CategoriesFromContract(sourceText);
            && (r.None? <==> Covers(ss, expected))
            && (r == Some(NoCategories) <==> expected == [])
            && (r.Some? && r.value.Missing? ==>
                  r.value.categories != [] && forall c :: c in r.value.categories <==> c in expected && !Claimed(ss, c))
            && (r.Some? && r.value.Unknown? ==>
                  (forall c | c in expected :: Claimed(ss, c)) && r.value.references != [] &&
                  forall u :: u in r.value.references <==> IsUnknown(ss, Elements(expected), u))
  {
    var expected := CategoriesFromContract(sourceText);
    if expected == [] { return Some(NoCategories); }
    var seen := SeenCategories(ss);
    var missing := NotSeen(expected, seen);
    if missing != [] {
      assert missing[0] in missing;
      return Some(Missing(missing));
    }
    assert forall c | c in expected :: c in seen by {
      assert forall c :: c in missing <==> c in expected && c !in seen;
    }
    var expectedSet := set c | c in expected;
    var unknown := UnknownReferences(ss, expectedSet);
    if unknown != [] {
      assert unknown[0] in unknown;
      StrangerIsClaimed(ss, expectedSet, unknown[0]);
      return Some(Unknown(unknown));
    }
    forall c | Claimed(ss, c) ensures c in expected {
      var s :| s in ss && Names(s, c);
      assert (s.id, c) !in unknown;
    }
    return None;
  }

  lemma StrangerIsClaimed(ss: seq<Subtask>, expected: set<string>, u: (string, string))
    requires IsUnknown(ss, expected, u)
    ensures Claimed(ss, u.1) && u.1 !in expected
  {
  }

  // ----- coverage of injected plans -----

  lemma StabilizationClaims(ss: seq<Subtask>, z: Subtask, categories: seq<string>, minScore: int, c: string)
    requires z.rubricTargets == RubricTargets(Some(categories), Some(minScore))
    ensures Claimed(ss + [z], c) <==> Claimed(ss, c) || c in categories
  {
    ClaimedStep(ss + [z], |ss|, c);
    assert (ss + [z])[..|ss|] == ss && (ss + [z])[..|ss| + 1] == ss + [z];
    if c in categories {
      var i :| 0 <= i < |categories| && categories[i] == c;
      assert z.rubricTargets[i] in z.rubricTargets && z.rubricTargets[i].category == c;
    }
  }

  /** A plan that ends with the injected subtask is covered, for any configuration at all,
      exactly when there is a category, every category survives the rendering, and no subtask
      names one outside the configured list. */
  lemma InjectedPlanCoverage(ss: seq<Subtask>, z: Subtask, categories: seq<string>, minScore: int)
    requires z.rubricTargets == RubricTargets(Some(categories), Some(minScore))
    ensures Covers(ss + [z], CategoriesFromContract(SourceText(categories, minScore))) <==>
            categories != [] && Readable(categories) && forall c | Claimed(ss, c) :: c in categories
  {
    var text := SourceText(categories, minScore);
    var expected := CategoriesFromContract(text);
    forall c ensures Claimed(ss + [z], c) <==> Claimed(ss, c) || c in categories {
      StabilizationClaims(ss, z, categories, minScore, c);
    }
    RubricRoundTrip(categories, minScore);
    OnlyPlainNames(text, true);
    if Covers(ss + [z], expected) {
      forall i | 0 <= i < |categories| ensures Plain(categories[i]) {
        assert categories[i] in expected;
      }
      PlainNamesComeBack(categories, minScore);
      assert "" !in NonEmpty(categories);
    }
  }

  /** The same for whole planner outputs that are injected and accepted. */
  lemma AcceptedInjectionCoverage(raw: RawPlan, gate: Option<string>, categories: seq<string>, minScore: int)
    requires !LeftAlone(raw, gate)
    requires Accepts(MaybeInject(raw, gate, RubricTargets(Some(categories), Some(minScore))))
    ensures AllItemsOk(raw.subtasks.items)
    ensures var plan := SubtasksOf(MaybeInject(raw, gate, RubricTargets(Some(categories), Some(minScore))).subtasks.items);
            Covers(plan, CategoriesFromContract(SourceText(categories, minScore))) <==>
            categories != [] && Readable(categories) &&
            forall c | Claimed(SubtasksOf(raw.subtasks.items), c) :: c in categories
  {
    var items := raw.subtasks.items;
    var z := Stabilization(gate.value, PriorIds(items), RubricTargets(Some(categories), Some(minScore)));
    ItemsOkAfterAppend(items, z);
    assert SubtasksOf(items + [Good(z)]) == SubtasksOf(items) + [z];
    InjectedPlanCoverage(SubtasksOf(items), z, categories, minScore);
  }

  // ----- the evidence partition -----

  /** Every claim of the plan in order: (owner, evidence id). */
  function Claims(ss: seq<Subtask>): seq<(string, string)> {
    if ss == [] then [] else Claims(ss[..|ss| - 1]) + ClaimsOf(ss[|ss| - 1])
  }

  function ClaimsOf(s: Subtask): (r: seq<(string, string)>)
    ensures |r| == |s.evidence| && forall i | 0 <= i < |r| :: r[i] == (s.id, s.evidence[i])
  {
    seq(|s.evidence|, i requires 0 <= i < |s.evidence| => (s.id, s.evidence[i]))
  }

  /** The owners of one evidence id, in the order they claim it. */
  function Owners(claims: seq<(string, string)>, id: string): (r: seq<string>)
    ensures r == [] <==> forall c | c in claims :: c.1 != id
  {
    if claims == [] then []
    else
      var n := |claims| - 1;
      assert claims == claims[..n] + [claims[n]];
      Owners(claims[..n], id) + if claims[n].1 == id then [claims[n].0] else []
  }

  /** The ids, in the order they are first claimed: how the dict of holders iterates. */
  function FirstClaimed(claims: seq<(string, string)>): (r: seq<string>)
    ensures Distinct(r) && forall id :: id in r <==> Owners(claims, id) != []
  {
    if claims == [] then []
    else
      var n := |claims| - 1;
      var front := FirstClaimed(claims[..n]);
      if claims[n].1 in front then front else front + [claims[n].1]
  }

  // ----- the claims, read off the plan -----

  /** All evidence ids of the plan, with repeats. */
  ghost function EvidenceBag(ss: seq<Subtask>): multiset<string> {
    if ss == [] then multiset{} else EvidenceBag(ss[..|ss| - 1]) + multiset(ss[|ss| - 1].evidence)
  }

  /** The ids of the subtasks that list the evidence id, in plan order, each as often as it lists it. */
  ghost function OwnersInPlan(ss: seq<Subtask>, id: string): seq<string> {
    if ss == [] then []
    else OwnersInPlan(ss[..|ss| - 1], id) + Repeat(ss[|ss| - 1].id, multiset(ss[|ss| - 1].evidence)[id])
  }

  lemma {:induction false} OwnersOfConcat(a: seq<(string, string)>, b: seq<(string, string)>, id: string)
    ensures Owners(a + b, id) == Owners(a, id) + Owners(b, id)
  {
    if b == [] {
      assert a + b == a;
    } else {
      var n := |b| - 1;
      assert (a + b)[..|a + b| - 1] == a + b[..n];
      OwnersOfConcat(a, b[..n], id);
    }
  }

  lemma {:induction false} OwnersInSubtask(owner: string, evidence: seq<string>, claims: seq<(string, string)>, id: string)
    requires |claims| == |evidence| && forall i | 0 <= i < |claims| :: claims[i] == (owner, evidence[i])
    ensures Owners(claims, id) == Repeat(owner, multiset(evidence)[id])
  {
    if evidence != [] {
      var n := |evidence| - 1;
      assert evidence == evidence[..n] + [evidence[n]];
      OwnersInSubtask(owner, evidence[..n], claims[..n], id);
    }
  }

  /** The recorded owners are the plan's. */
  lemma {:induction false} OwnersAreThePlans(ss: seq<Subtask>, id: string)
    ensures Owners(Claims(ss), id) == OwnersInPlan(ss, id)
  {
    if ss != [] {
      var n := |ss| - 1;
      OwnersAreThePlans(ss[..n], id);
      OwnersOfConcat(Claims(ss[..n]), ClaimsOf(ss[n]), id);
      OwnersInSubtask(ss[n].id, ss[n].evidence, ClaimsOf(ss[n]), id);
    }
  }

  lemma {:induction false} OwnersCount(ss: seq<Subtask>, id: string)
    ensures |OwnersInPlan(ss, id)| == EvidenceBag(ss)[id]
  {
    if ss != [] { OwnersCount(ss[..|ss| - 1], id); }
  }

  lemma {:induction false} OwnersList(ss: seq<Subtask>, owner: string, id: string)
    ensures owner in OwnersInPlan(ss, id) <==> exists s :: s in ss && s.id == owner && id in s.evidence
  {
    if ss != [] {
      var n := |ss| - 1;
      OwnersList(ss[..n], owner, id);
      assert ss == ss[..n] + [ss[n]];
      if id in ss[n].evidence && ss[n].id == owner { assert Repeat(owner, multiset(ss[n].evidence)[id])[0] == owner; }
    }
  }

  lemma {:induction false} ClaimsAreThePlans(ss: seq<Subtask>, owner: string, id: string)
    ensures (owner, id) in Claims(ss) <==> exists s :: s in ss && s.id == owner && id in s.evidence
  {
    if ss != [] {
      var n := |ss| - 1;
      ClaimsAreThePlans(ss[..n], owner, id);
      assert ss == ss[..n] + [ss[n]];
      if id in ss[n].evidence && ss[n].id == owner {
        var i :| 0 <= i < |ss[n].evidence| && ss[n].evidence[i] == id;
        assert ClaimsOf(ss[n])[i] == (owner, id);
      }
    }
  }

  /** The order of first claims: what is claimed later comes later. */
  lemma {:induction false} FirstClaimedGrows(a: seq<(string, string)>, b: seq<(string, string)>)
    ensures FirstClaimed(a) <= FirstClaimed(a + b)
  {
    if b == [] {
      assert a + b == a;
    } else {
      assert (a + b)[..|a + b| - 1] == a + b[..|b| - 1];
      FirstClaimedGrows(a, b[..|b| - 1]);
    }
  }

  // ----- the holders -----

  datatype Holders = Holders(keys: seq<string>, owners: map<string, seq<string>>)

  /** `holders[evid].append(s.id)` on a `defaultdict(list)`. */
  function Record(h: Holders, owner: string, id: string): Holders {
    if id in h.owners then Holders(h.keys, h.owners[id := h.owners[id] + [owner]])
    else Holders(h.keys + [id], h.owners[id := [owner]])
  }

  /** The dict after recording the claims in order. */
  function HoldersOf(claims: seq<(string, string)>): Holders {
    if claims == [] then Holders([], map[])
    else
      var n := |claims| - 1;
      Record(HoldersOf(claims[..n]), claims[n].0, claims[n].1)
  }

  /** The dict lists the claimed ids in the order of their first claim, each with its owners in
      order. */
  lemma {:induction false} HoldersAreOwners(claims: seq<(string, string)>)
    ensures var h := HoldersOf(claims);
            && h.keys == FirstClaimed(claims) && (forall id :: id in h.owners <==> id in h.keys)
            && forall id | id in h.owners :: h.owners[id] == Owners(claims, id)
  {
    if claims != [] { HoldersAreOwners(claims[..|claims| - 1]); }
  }

  method RecordAll(h: Holders, ghost claims: seq<(string, string)>, s: Subtask) returns (h': Holders)
    requires h == HoldersOf(claims)
    ensures h' == HoldersOf(claims + ClaimsOf(s))
  {
    h' := h;
    ghost var sofar := claims;
    for j := 0 to |s.evidence|
      invariant h' == HoldersOf(sofar) && sofar == claims + ClaimsOf(s)[..j]
    {
      h' := Record(h', s.id, s.evidence[j]);
      assert (sofar + [(s.id, s.evidence[j])])[..|sofar|] == sofar;
      sofar := sofar + [(s.id, s.evidence[j])];
    }
    assert sofar == claims + ClaimsOf(s);
  }

  method CollectHolders(ss: seq<Subtask>) returns (h: Holders)
    ensures h == HoldersOf(Claims(ss))
  {
    h := Holders([], map[]);
    for i := 0 to |ss|
      invariant h == HoldersOf(Claims(ss[..i]))
    {
      assert ss[..i + 1][..i] == ss[..i];
      h := RecordAll(h, Claims(ss[..i]), ss[i]);
    }
    assert ss[..|ss|] == ss;
  }

  /** More than one claim of one expected id, with the claiming subtasks sorted. */
  ghost predicate IsDuplicated(ss: seq<Subtask>, expected: seq<string>, d: (string, seq<string>)) {
    d.0 in expected && |OwnersInPlan(ss, d.0)| > 1 && d.1 == SortIds(OwnersInPlan(ss, d.0))
  }

  /** A subtask with that id claims an id nobody expects. */
  ghost predicate IsStray(ss: seq<Subtask>, expected: seq<string>, u: (string, string)) {
    u.1 !in expected && exists s :: s in ss && s.id == u.0 && u.1 in s.evidence
  }

  ghost predicate IsMissing(ss: seq<Subtask>, expected: seq<string>, id: string) {
    id in expected && forall s | s in ss :: id !in s.evidence
  }

  /** `[(evid, sorted(owners)) for evid, owners in holders.items() if ...]` */
  function Duplicated(keys: seq<string>, owners: map<string, seq<string>>, expected: seq<string>): seq<(string, seq<string>)>
    requires forall k | k in keys :: k in owners
  {
    if keys == [] then []
    else
      var id, rest := keys[0], Duplicated(keys[1..], owners, expected);
      if id in expected && |owners[id]| > 1 then [(id, SortIds(owners[id]))] + rest else rest
  }

  lemma {:induction false} DuplicatedIsRight(keys: seq<string>, owners: map<string, seq<string>>, expected: seq<string>,
                                             ss: seq<Subtask>, d: (string, seq<string>))
    requires forall k | k in keys :: k in owners && owners[k] == OwnersInPlan(ss, k)
    ensures d in Duplicated(keys, owners, expected) <==> d.0 in keys && IsDuplicated(ss, expected, d)
  {
    if keys != [] {
      assert keys == [keys[0]] + keys[1..];
      DuplicatedIsRight(keys[1..], owners, expected, ss, d);
    }
  }

  function WithId(owners: seq<string>, id: string): (r: seq<(string, string)>)
    ensures forall u :: u in r <==> u.1 == id && u.0 in owners
  {
    if owners == [] then []
    else
      assert owners == [owners[0]] + owners[1..];
      [(owners[0], id)] + WithId(owners[1..], id)
  }

  /** `[(owner, evid) for evid, owners in holders.items() if ... for owner in owners]` */
  function Strays(keys: seq<string>, owners: map<string, seq<string>>, expected: seq<string>): seq<(string, string)>
    requires forall k | k in keys :: k in owners
  {
    if keys == [] then []
    else if keys[0] !in expected then WithId(owners[keys[0]], keys[0]) + Strays(keys[1..], owners, expected)
    else Strays(keys[1..], owners, expected)
  }

  lemma {:induction false} StraysAreRight(keys: seq<string>, owners: map<string, seq<string>>, expected: seq<string>,
                                          u: (string, string))
    requires forall k | k in keys :: k in owners
    ensures u in Strays(keys, owners, expected) <==> u.1 in keys && u.1 !in expected && u.0 in owners[u.1]
  {
    if keys != [] {
      assert keys == [keys[0]] + keys[1..];
      StraysAreRight(keys[1..], owners, expected, u);
    }
  }

  /** `[x for x in s if p(x)]` */
  ghost function Where<T>(s: seq<T>, p: T -> bool): seq<T> {
    if s == [] then []
    else if p(s[0]) then [s[0]] + Where(s[1..], p)
    else Where(s[1..], p)
  }

  ghost function FirstsOf<A, B>(ps: seq<(A, B)>): seq<A> {
    if ps == [] then [] else [ps[0].0] + FirstsOf(ps[1..])
  }

  /** The claims of the ids, id by id, each with its owners in order. */
  ghost function ClaimsById(ids: seq<string>, claims: seq<(string, string)>): seq<(string, string)> {
    if ids == [] then [] else WithId(Owners(claims, ids[0]), ids[0]) + ClaimsById(ids[1..], claims)
  }

  lemma FirstsOfCons<A, B>(p: (A, B), ps: seq<(A, B)>)
    ensures FirstsOf([p] + ps) == [p.0] + FirstsOf(ps)
  {
    assert ([p] + ps)[1..] == ps;
  }

  lemma ClaimsByIdCons(id: string, ids: seq<string>, claims: seq<(string, string)>)
    ensures ClaimsById([id] + ids, claims) == WithId(Owners(claims, id), id) + ClaimsById(ids, claims)
  {
    assert ([id] + ids)[1..] == ids;
  }

  lemma {:induction false} MissingInOrder(expected: seq<string>, seen: set<string>, p: string -> bool)
    requires forall id | id in expected :: p(id) <==> id !in seen
    ensures NotSeen(expected, seen) == Where(expected, p)
  {
    if expected != [] {
      assert expected == [expected[0]] + expected[1..];
      MissingInOrder(expected[1..], seen, p);
    }
  }

  lemma {:induction false} DuplicatedInOrder(keys: seq<string>, owners: map<string, seq<string>>, expected: seq<string>,
                                             p: string -> bool)
    requires forall id | id in keys :: id in owners && (p(id) <==> id in expected && |owners[id]| > 1)
    ensures FirstsOf(Duplicated(keys, owners, expected)) == Where(keys, p)
  {
    if keys != [] {
      assert keys == [keys[0]] + keys[1..];
      DuplicatedInOrder(keys[1..], owners, expected, p);
      FirstsOfCons((keys[0], SortIds(owners[keys[0]])), Duplicated(keys[1..], owners, expected));
    }
  }

  lemma {:induction false} StraysInOrder(keys: seq<string>, owners: map<string, seq<string>>, expected: seq<string>,
                                         claims: seq<(string, string)>, p: string -> bool)
    requires forall id | id in keys :: id in owners && owners[id] == Owners(claims, id) && (p(id) <==> id !in expected)
    ensures Strays(keys, owners, expected) == ClaimsById(Where(keys, p), claims)
  {
    if keys != [] {
      assert keys == [keys[0]] + keys[1..];
      StraysInOrder(keys[1..], owners, expected, claims, p);
      ClaimsByIdCons(keys[0], Where(keys[1..], p), claims);
    }
  }

  /** Missing ids in the order they are expected; duplicated ids, with their owners sorted, and the
      claims of unknown ids, owner by owner, in the order the ids are first claimed. */
  method ClassifyEvidenceClaims(ss: seq<Subtask>, expected: seq<string>)
    returns (missing: seq<string>, duplicated: seq<(string, seq<string>)>, unknown: seq<(string, string)>)
    ensures missing == Where(expected, id => OwnersInPlan(ss, id) == [])
    ensures FirstsOf(duplicated) == Where(FirstClaimed(Claims(ss)), id => id in expected && |OwnersInPlan(ss, id)| > 1)
    ensures unknown == ClaimsById(Where(FirstClaimed(Claims(ss)), id => id !in expected), Claims(ss))
    ensures forall id :: id in missing <==> IsMissing(ss, expected, id)
    ensures forall d :: d in duplicated <==> IsDuplicated(ss, expected, d)
    ensures forall u :: u in unknown <==> IsStray(ss, expected, u)
  {
    var h := CollectHolders(ss);
    HoldersAreOwners(Claims(ss));
    forall id ensures Owners(Claims(ss), id) == OwnersInPlan(ss, id) { OwnersAreThePlans(ss, id); }
    missing := NotSeen(expected, h.owners.Keys);
    duplicated := Duplicated(h.keys, h.owners, expected);
    unknown := Strays(h.keys, h.owners, expected);
    forall id ensures id in missing <==> IsMissing(ss, expected, id) { UnownedIsUnlisted(ss, id); }
    forall d ensures d in duplicated <==> IsDuplicated(ss, expected, d) {
      DuplicatedIsRight(h.keys, h.owners, expected, ss, d);
    }
    forall u ensures u in unknown <==> IsStray(ss, expected, u) {
      StraysAreRight(h.keys, h.owners, expected, u);
      OwnersList(ss, u.0, u.1);
    }
    MissingInOrder(expected, h.owners.Keys, id => OwnersInPlan(ss, id) == []);
    DuplicatedInOrder(h.keys, h.owners, expected, id => id in expected && |OwnersInPlan(ss, id)| > 1);
    StraysInOrder(h.keys, h.owners, expected, Claims(ss), id => id !in expected);
  }

  lemma UnownedIsUnlisted(ss: seq<Subtask>, id: string)
    ensures OwnersInPlan(ss, id) == [] <==> forall s | s in ss :: id !in s.evidence
  {
    forall owner ensures owner in OwnersInPlan(ss, id) <==> exists s :: s in ss && s.id == owner && id in s.evidence {
      OwnersList(ss, owner, id);
    }
    HasFirst(OwnersInPlan(ss, id));
  }

  /** Every expected id is claimed exactly once, and nothing else is claimed. */
  ghost predicate IsPartition(ss: seq<Subtask>, expected: seq<string>) {
    EvidenceBag(ss) == multiset(Elements(expected))
  }

  lemma PartitionByCounts(ss: seq<Subtask>, expected: seq<string>)
    ensures IsPartition(ss, expected) <==>
            forall id :: |OwnersInPlan(ss, id)| == if id in expected then 1 else 0
  {
    forall id ensures EvidenceBag(ss)[id] == |OwnersInPlan(ss, id)| { OwnersCount(ss, id); }
    assert forall id :: multiset(Elements(expected))[id] == if id in expected then 1 else 0;
    if forall id :: |OwnersInPlan(ss, id)| == if id in expected then 1 else 0 {
      assert forall id :: EvidenceBag(ss)[id] == multiset(Elements(expected))[id];
    }
  }

  datatype PartitionError =
    | Unexpected(claims: seq<(string, string)>)
    | Broken(missing: seq<string>, duplicated: seq<(string, seq<string>)>, unknown: seq<(string, string)>)

  method ValidateEvidencePartition(ss: seq<Subtask>, expected: seq<string>) returns (r: Option<PartitionError>)
    ensures r.None? <==> EvidenceBag(ss) == multiset(Elements(expected))
    ensures r.Some? && r.value.Unexpected? ==>
              expected == [] && r.value.claims == Claims(ss) &&
              forall u :: u in r.value.claims <==> exists s :: s in ss && s.id == u.0 && u.1 in s.evidence
    ensures r.Some? && r.value.Broken? ==>
              (forall id :: id in r.value.missing <==> IsMissing(ss, expected, id)) &&
              (forall d :: d in r.value.duplicated <==> IsDuplicated(ss, expected, d)) &&
              forall u :: u in r.value.unknown <==> IsStray(ss, expected, u)
  {
    PartitionByCounts(ss, expected);
    if expected == [] {
      var claims := Claims(ss);
      NoClaimsIff(ss);
      forall u ensures u in claims <==> exists s :: s in ss && s.id == u.0 && u.1 in s.evidence {
        ClaimsAreThePlans(ss, u.0, u.1);
      }
      return if claims != [] then Some(Unexpected(claims)) else None;
    }
    var missing, duplicated, unknown := ClassifyEvidenceClaims(ss, expected);
    NothingToReport(ss, expected, missing, duplicated, unknown);
    return if missing == [] && duplicated == [] && unknown == [] then None else Some(Broken(missing, duplicated, unknown));
  }

  lemma NoClaimsIff(ss: seq<Subtask>)
    ensures Claims(ss) == [] <==> forall id :: |OwnersInPlan(ss, id)| == 0
  {
    if Claims(ss) == [] {
      forall id ensures OwnersInPlan(ss, id) == [] { OwnersAreThePlans(ss, id); }
    } else {
      FirstIsOwned(Claims(ss));
      OwnersAreThePlans(ss, Claims(ss)[0].1);
      assert |OwnersInPlan(ss, Claims(ss)[0].1)| > 0;
    }
  }

  lemma FirstIsOwned(claims: seq<(string, string)>)
    ensures claims == [] || Owners(claims, claims[0].1) != []
  {
    HasFirst(claims);
  }

  lemma NothingToReport(ss: seq<Subtask>, expected: seq<string>,
                        missing: seq<string>, duplicated: seq<(string, seq<string>)>, unknown: seq<(string, string)>)
    requires forall id :: id in missing <==> IsMissing(ss, expected, id)
    requires forall d :: d in duplicated <==> IsDuplicated(ss, expected, d)
    requires forall u :: u in unknown <==> IsStray(ss, expected, u)
    ensures missing == [] && duplicated == [] && unknown == [] <==>
            forall id :: |OwnersInPlan(ss, id)| == if id in expected then 1 else 0
  {
    HasFirst(missing);
    HasFirst(duplicated);
    HasFirst(unknown);
    forall id ensures OwnersInPlan(ss, id) == [] <==> forall s | s in ss :: id !in s.evidence { UnownedIsUnlisted(ss, id); }
    if missing == [] && duplicated == [] && unknown == [] {
      forall id ensures |OwnersInPlan(ss, id)| == if id in expected then 1 else 0 {
        var owners := OwnersInPlan(ss, id);
        assert !IsMissing(ss, expected, id) && !IsDuplicated(ss, expected, (id, SortIds(owners)));
        if id !in expected { StrayOwner(ss, expected, id); }
      }
    }
  }

  lemma HasFirst<T>(s: seq<T>)
    ensures s == [] || s[0] in s
  {
  }

  lemma StrayOwner(ss: seq<Subtask>, expected: seq<string>, id: string)
    requires id !in expected
    ensures var owners := OwnersInPlan(ss, id); owners == [] || IsStray(ss, expected, (owners[0], id))
  {
    var owners := OwnersInPlan(ss, id);
    if owners != [] { OwnersList(ss, owners[0], id); }
  }

  // ----- what does not change the verdict -----

  /** The injected subtask claims nothing, so injection keeps the verdict, the empty case
      included. */
  lemma PartitionIgnoresInjection(ss: seq<Subtask>, gate: string, targets: seq<RubricTarget>, expected: seq<string>)
    ensures IsPartition(ss + [Stabilization(gate, IdsOf(ss), targets)], expected) <==> IsPartition(ss, expected)
  {
    var z := Stabilization(gate, IdsOf(ss), targets);
    assert (ss + [z])[..|ss|] == ss;
    assert multiset(z.evidence) == multiset{};
  }

  lemma {:induction false} BagOfConcat(a: seq<Subtask>, b: seq<Subtask>)
    ensures EvidenceBag(a + b) == EvidenceBag(a) + EvidenceBag(b)
  {
    if b == [] {
      assert a + b == a;
    } else {
      assert (a + b)[..|a + b| - 1] == a + b[..|b| - 1];
      BagOfConcat(a, b[..|b| - 1]);
    }
  }

  /** Taking one subtask out takes exactly its claims out. */
  lemma BagWithout(a: seq<Subtask>, x: Subtask, b: seq<Subtask>)
    ensures EvidenceBag(a + [x] + b) == EvidenceBag(a + b) + EvidenceBag([x])
  {
    BagOfConcat(a, b);
    BagOfConcat(a, [x]);
    BagOfConcat(a + [x], b);
  }

  lemma {:induction false} BagIgnoresOrder(ss: seq<Subtask>, tt: seq<Subtask>)
    requires multiset(ss) == multiset(tt)
    ensures EvidenceBag(ss) == EvidenceBag(tt)
    decreases |ss|
  {
    if ss == [] {
      assert |multiset(tt)| == 0;
    } else {
      var rest, x := ss[1..], ss[0];
      assert ss == [] + [x] + rest && [] + rest == rest;
      var a, b := SplitAt(tt, x);
      assert multiset(rest) == multiset(a + b) by {
        WithoutOne(a, x, b);
        WithoutOne([], x, rest);
      }
      BagIgnoresOrder(rest, a + b);
      BagWithout([], x, rest);
      BagWithout(a, x, b);
    }
  }

  lemma WithoutOne(a: seq<Subtask>, x: Subtask, b: seq<Subtask>)
    ensures multiset(a + b) == multiset(a + [x] + b) - multiset{x}
  {
  }

  lemma SplitAt(tt: seq<Subtask>, x: Subtask) returns (a: seq<Subtask>, b: seq<Subtask>)
    requires x in multiset(tt)
    ensures tt == a + [x] + b
  {
    var i :| 0 <= i < |tt| && tt[i] == x;
    a, b := tt[..i], tt[i + 1..];
  }

  /** Listing the subtasks in another order keeps the verdict. */
  lemma PartitionIgnoresOrder(ss: seq<Subtask>, tt: seq<Subtask>, expected: seq<string>)
    requires multiset(ss) == multiset(tt)
    ensures IsPartition(ss, expected) <==> IsPartition(tt, expected)
  {
    BagIgnoresOrder(ss, tt);
  }
}
