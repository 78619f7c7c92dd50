/** Identifiers, their total order, and the small result types every module uses.

    Python orders strings by code point, first difference first, a proper prefix before
    its extensions; `Less` is that order. */
module Ids {
  datatype Option<+T> = None | Some(value: T)

  datatype Result<+T, +E> = Ok(value: T) | Err(error: E) {
    predicate IsFailure() {
      Err?
    }

    function PropagateFailure<U>(): Result<U, E>
      requires Err?
    {
      Err(error)
    }

    function Extract(): T
      requires Ok?
    {
      value
    }
  }

  predicate Less(a: string, b: string) {
    |b| > 0 && (|a| == 0 || a[0] < b[0] || (a[0] == b[0] && Less(a[1..], b[1..])))
  }

  predicate Leq(a: string, b: string) {
    a == b || Less(a, b)
  }

  /** `a` and `b` agree before position `k`, where `a` ends or has the smaller character. */
  ghost predicate DiffersAt(a: string, b: string, k: nat) {
    k <= |a| && k < |b| && a[..k] == b[..k] && (k == |a| || a[k] < b[k])
  }

  /** The first difference decides. */
  lemma {:induction false} LessIsFirstDifference(a: string, b: string)
    ensures Less(a, b) <==> exists k :: DiffersAt(a, b, k)
  {
    if Less(a, b) {
      if a == "" || a[0] < b[0] {
        assert DiffersAt(a, b, 0);
      } else {
        LessIsFirstDifference(a[1..], b[1..]);
        var k: nat :| DiffersAt(a[1..], b[1..], k);
        assert a[..k + 1] == [a[0]] + a[1..][..k] && b[..k + 1] == [b[0]] + b[1..][..k];
        assert DiffersAt(a, b, k + 1);
      }
    }
    if k: nat :| DiffersAt(a, b, k) && k > 0 {
      assert a[0] == a[..k][0] == b[..k][0] == b[0];
      assert a[1..][..k - 1] == a[..k][1..] && b[1..][..k - 1] == b[..k][1..];
      assert DiffersAt(a[1..], b[1..], k - 1);
      LessIsFirstDifference(a[1..], b[1..]);
    }
  }

  lemma LessIrreflexive(a: string)
    ensures !Less(a, a)
  {
    if |a| > 0 { LessIrreflexive(a[1..]); }
  }

  lemma LessTotal(a: string, b: string)
    ensures a == b || Less(a, b) || Less(b, a)
  {
    if |a| > 0 && |b| > 0 && a[0] == b[0] {
      LessTotal(a[1..], b[1..]);
      assert a == [a[0]] + a[1..] && b == [b[0]] + b[1..];
    }
  }

  lemma LessTransitive(a: string, b: string, c: string)
    requires Less(a, b) && Less(b, c)
    ensures Less(a, c)
  {
    if |a| > 0 && a[0] == b[0] == c[0] { LessTransitive(a[1..], b[1..], c[1..]); }
  }

  lemma LeqTransitive(a: string, b: string, c: string)
    requires Leq(a, b) && Leq(b, c)
    ensures Leq(a, c)
  {
    if a != b && b != c { LessTransitive(a, b, c); }
  }

  lemma LeqAntisymmetric(a: string, b: string)
    requires Leq(a, b) && Leq(b, a)
    ensures a == b
  {
    if a != b {
      LessTransitive(a, b, a);
      LessIrreflexive(a);
    }
  }

  ghost predicate Distinct<T>(s: seq<T>) {
    forall i, j | 0 <= i < j < |s| :: s[i] != s[j]
  }

  /** Every id of `s` once: how a Python dict with key set `s` iterates. */
  ghost predicate Lists<T>(order: seq<T>, s: set<T>) {
    Distinct(order) && (forall x | x in order :: x in s) && (forall x | x in s :: x in order)
  }

  ghost function Elements<T>(s: seq<T>): set<T> {
    set x | x in s
  }

  function Repeat<T>(x: T, n: nat): (r: seq<T>)
    ensures |r| == n && forall i | 0 <= i < n :: r[i] == x
  {
    seq(n, i => x)
  }

  /** `part` is `[x for x in whole if p(x)]`: the elements at the rising positions `at`, which are
      all the positions `p` accepts. */
  ghost predicate Filters<T(!new)>(whole: seq<T>, p: T -> bool, part: seq<T>, at: seq<nat>) {
    |at| == |part| && (forall k, l | 0 <= k < l < |at| :: at[k] < at[l]) &&
    (forall k | 0 <= k < |at| :: at[k] < |whole| && part[k] == whole[at[k]]) &&
    forall i: nat | i < |whole| :: i in at <==> p(whole[i])
  }

  lemma FiltersNext<T(!new)>(whole: seq<T>, p: T -> bool, part: seq<T>, at: seq<nat>, x: T)
    requires Filters(whole, p, part, at)
    ensures p(x) ==> Filters(whole + [x], p, part + [x], at + [|whole|])
    ensures !p(x) ==> Filters(whole + [x], p, part, at)
  {
    var more, at' := whole + [x], if p(x) then at + [|whole|] else at;
    forall i: nat | i < |more| ensures i in at' <==> p(more[i]) {
      if i < |whole| { assert more[i] == whole[i]; }
    }
  }

  lemma FiltersRise<T(!new)>(whole: seq<T>, p: T -> bool, part: seq<T>, at: seq<nat>, k: nat, l: nat)
    requires Filters(whole, p, part, at) && k < |at| && l < |at|
    ensures at[k] < at[l] ==> k < l
  {
  }

  ghost predicate Sorted(s: seq<string>) {
    forall i, j | 0 <= i < j < |s| :: Leq(s[i], s[j])
  }

  function Insert(x: string, s: seq<string>): (r: seq<string>)
    requires Sorted(s)
    ensures Sorted(r) && multiset(r) == multiset(s) + multiset{x}
  {
    if s == [] then [x]
    else if Leq(x, s[0]) then
      assert forall j | 0 <= j < |s| :: Leq(x, s[j]) by {
        forall j | 0 <= j < |s| ensures Leq(x, s[j]) { LeqTransitive(x, s[0], s[j]); }
      }
      [x] + s
    else
      var rest := Insert(x, s[1..]);
      assert s == [s[0]] + s[1..];
      assert forall y | y in rest :: Leq(s[0], y) by {
        LessTotal(x, s[0]);
        forall y | y in rest ensures Leq(s[0], y) {
          assert y in multiset(rest);
          assert y == x || y in s[1..];
        }
      }
      [s[0]] + rest
  }

  /** `sorted(xs)` and `xs.sort()`. */
  function SortIds(s: seq<string>): (r: seq<string>)
    ensures Sorted(r) && multiset(r) == multiset(s) && |r| == |s|
    ensures forall x :: x in r <==> x in s
  {
    if s == [] then []
    else
      assert s == [s[0]] + s[1..];
      var r := Insert(s[0], SortIds(s[1..]));
      assert multiset(r) == multiset(s);
      assert |multiset(r)| == |r|;
      assert forall x :: x in r <==> x in multiset(r);
      r
  }

  /** A sorted list is determined by its contents, so sorting forgets the input order. */
  lemma {:induction false} SortedIsCanonical(a: seq<string>, b: seq<string>)
    requires Sorted(a) && Sorted(b) && multiset(a) == multiset(b)
    ensures a == b
  {
    if a == [] {
      assert |multiset(b)| == 0;
    } else {
      assert a[0] in multiset(b) && |multiset(a)| == |multiset(b)|;
      assert b[0] in multiset(a);
      LeqAntisymmetric(a[0], b[0]);
      assert a == [a[0]] + a[1..] && b == [b[0]] + b[1..];
      assert multiset(a[1..]) == multiset(a) - multiset{a[0]};
      assert multiset(b[1..]) == multiset(b) - multiset{b[0]};
      SortedIsCanonical(a[1..], b[1..]);
    }
  }

  /** A list without repeats is no longer than any finite set holding all its elements. */
  lemma {:induction false} DistinctFits<T>(s: seq<T>, bound: set<T>)
    requires Distinct(s) && (forall x | x in s :: x in bound)
    ensures |s| <= |bound|
  {
    if s != [] {
      DistinctFits(s[1..], bound - {s[0]});
    }
  }

  lemma DistinctSize<T>(s: seq<T>, all: set<T>)
    requires Lists(s, all)
    ensures |s| == |all|
  {
    DistinctFits(s, all);
    if |s| < |all| {
      SetFits(all, s);
    }
  }

  lemma {:induction false} SetFits<T>(all: set<T>, s: seq<T>)
    requires forall x | x in all :: x in s
    ensures |all| <= |s|
  {
    if s == [] {
      assert all == {};
    } else {
      SetFits(all - {s[0]}, s[1..]);
    }
  }

  lemma {:induction false} DistinctMultiset<T(!new)>(s: seq<T>)
    requires Distinct(s)
    ensures forall x :: multiset(s)[x] == if x in s then 1 else 0
  {
    if s != [] {
      assert s == [s[0]] + s[1..];
      DistinctMultiset(s[1..]);
    }
  }

  lemma {:induction false} MultisetDistinct<T(!new)>(s: seq<T>)
    requires forall x :: multiset(s)[x] <= 1
    ensures Distinct(s)
  {
    if s != [] {
      assert s == [s[0]] + s[1..];
      assert forall x :: multiset(s)[x] == multiset(s[1..])[x] + if x == s[0] then 1 else 0;
      assert s[0] !in multiset(s[1..]);
      MultisetDistinct(s[1..]);
    }
  }

  lemma SortKeepsListing(ids: seq<string>, all: set<string>)
    requires Lists(ids, all)
    ensures Lists(SortIds(ids), all)
  {
    DistinctMultiset(ids);
    MultisetDistinct(SortIds(ids));
  }

  /** `stack.pop()`. */
  method Pop<T>(stack: seq<T>) returns (top: T, rest: seq<T>)
    requires |stack| > 0
    ensures stack == rest + [top] && |rest| == |stack| - 1
  {
    top, rest := stack[|stack| - 1], stack[..|stack| - 1];
  }
}
