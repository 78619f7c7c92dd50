/** The bounded retry history of a subtask, the signatures read out of it, and the stop-loss
    checks that rely on them. */
module Retries {
  import opened Ids
  import opened Text

  datatype Reason = Reason(attempt: int, category: string, signature: string, transient: bool)

  const WINDOW := 50

  const SIGNATURE_LIMIT := 200

  type Signature = (string, string)

  // ----- lists -----

  /** `xs[-n:]` for n >= 1. */
  function Last<T>(xs: seq<T>, n: nat): (r: seq<T>)
    ensures |r| == if |xs| <= n then |xs| else n
  {
    if |xs| <= n then xs else xs[|xs| - n..]
  }

  /** `xs[:n]` */
  function First<T>(xs: seq<T>, n: nat): (r: seq<T>)
    ensures |r| == if |xs| <= n then |xs| else n
  {
    if |xs| <= n then xs else xs[..n]
  }

  /** `xs[-n:]` for any integer: -0 is 0, and a negative n counts from the front. */
  function Slice<T>(xs: seq<T>, n: int): seq<T> {
    if n > 0 then Last(xs, n)
    else if -n >= |xs| then []
    else xs[-n..]
  }

  /** Where the slice starts. */
  lemma SliceIs<T>(xs: seq<T>, n: int)
    ensures n > 0 ==> Slice(xs, n) == xs[if |xs| <= n then 0 else |xs| - n..]
    ensures n <= 0 ==> Slice(xs, n) == xs[if -n <= |xs| then -n else |xs|..]
  {
  }

  function Signatures(rs: seq<Reason>): seq<Signature> {
    if rs == [] then []
    else
      var n := |rs| - 1;
      Signatures(rs[..n]) + if rs[n].transient then [] else [(rs[n].category, rs[n].signature)]
  }

  lemma {:induction false} SignaturesOfConcat(a: seq<Reason>, b: seq<Reason>)
    ensures Signatures(a + b) == Signatures(a) + Signatures(b)
  {
    if b == [] {
      assert a + b == a;
    } else {
      var n := |b| - 1;
      assert (a + b)[..|a + b| - 1] == a + b[..n];
      SignaturesOfConcat(a, b[..n]);
    }
  }

  /** Exactly the entries that are not transient, in order, as (category, signature). */
  lemma {:induction false} SignaturesAreTheRealOnes(rs: seq<Reason>) returns (kept: seq<Reason>, at: seq<nat>)
    ensures Filters(rs, (r: Reason) => !r.transient, kept, at) && |Signatures(rs)| == |kept|
    ensures forall k | 0 <= k < |kept| :: Signatures(rs)[k] == (kept[k].category, kept[k].signature)
  {
    if rs == [] {
      kept, at := [], [];
    } else {
      var n := |rs| - 1;
      kept, at := SignaturesAreTheRealOnes(rs[..n]);
      FiltersNext(rs[..n], (r: Reason) => !r.transient, kept, at, rs[n]);
      assert rs == rs[..n] + [rs[n]];
      if !rs[n].transient { kept, at := kept + [rs[n]], at + [n]; }
    }
  }

  // ----- the column -----

  function Kept(r: Reason): Reason {
    r.(signature := First(r.signature, SIGNATURE_LIMIT))
  }

  /** Only the signature is cut, to its first 200 characters. */
  lemma KeptSignature(r: Reason)
    ensures Kept(r).signature == (if |r.signature| > 200 then r.signature[..200] else r.signature)
    ensures Kept(r) == r.(signature := Kept(r).signature)
  {
  }

  function WithReason(column: seq<Reason>, r: Reason): seq<Reason> {
    var existing := column + [Kept(r)];
    if |existing| > WINDOW then existing[|existing| - WINDOW..] else existing
  }

  /** The subtask rows' `retry_reasons` by (task id, subtask id); NULL reads as []. */
  class RetryStore {
    var columns: map<(string, string), seq<Reason>>

    /** `append_retry_reason`: the UPDATE touches the one row, if it exists. */
    method AppendRetryReason(task: string, subtask: string, r: Reason)
      modifies this
      ensures columns == if (task, subtask) !in old(columns) then old(columns)
                         else old(columns)[(task, subtask) := WithReason(old(columns)[(task, subtask)], r)]
    {
      var key := (task, subtask);
      var existing: seq<Reason> := if key in columns then columns[key] else [];
      existing := existing + [Kept(r)];
      if |existing| > WINDOW {
        existing := existing[|existing| - WINDOW..];
      }
      if key in columns {
        columns := columns[key := existing];
      }
    }

    /** `reset_subtask_for_rewind`, and the operator's resume and reset of a blocked subtask. */
    method ResetSubtask(task: string, subtask: string)
      modifies this
      ensures columns == if (task, subtask) !in old(columns) then old(columns) else old(columns)[(task, subtask) := []]
    {
      if (task, subtask) in columns {
        columns := columns[(task, subtask) := []];
      }
    }

    /** `last_n_retry_signatures` */
    method LastNRetrySignatures(task: string, subtask: string, limit: int) returns (out: seq<Signature>)
      ensures out == if (task, subtask) in columns then Slice(Signatures(columns[(task, subtask)]), limit) else []
    {
      if (task, subtask) !in columns { return []; }
      var reasons := columns[(task, subtask)];
      out := [];
      for i := 0 to |reasons|
        invariant out == Signatures(reasons[..i])
      {
        assert reasons[..i + 1][..i] == reasons[..i];
        if reasons[i].transient {
          continue;
        }
        out := out + [(reasons[i].category, reasons[i].signature)];
      }
      assert reasons[..|reasons|] == reasons;
      out := Slice(out, limit);
    }
  }

  // ----- the window against the full history -----

  datatype Step = Append(reason: Reason) | Reset

  /** The column after a run of steps. */
  function Column(run: seq<Step>): seq<Reason> {
    if run == [] then []
    else
      match run[|run| - 1]
      case Append(r) => WithReason(Column(run[..|run| - 1]), r)
      case Reset => []
  }

  /** Everything recorded since the last reset. */
  function History(run: seq<Step>): seq<Reason> {
    if run == [] then []
    else
      match run[|run| - 1]
      case Append(r) => History(run[..|run| - 1]) + [Kept(r)]
      case Reset => []
  }

  /** After every run the column is the end of the history, 50 entries at most. */
  lemma {:induction false} ColumnIsTheTail(run: seq<Step>)
    ensures Column(run) == Last(History(run), WINDOW) == Slice(History(run), 50)
  {
    if run != [] {
      ColumnIsTheTail(run[..|run| - 1]);
    }
  }

  /** What the window no longer holds. */
  function Evicted(history: seq<Reason>): seq<Reason> {
    history[..|history| - |Last(history, WINDOW)|]
  }

  lemma SignaturesSplit(history: seq<Reason>)
    ensures Signatures(history) == Signatures(Evicted(history)) + Signatures(Last(history, WINDOW))
  {
    assert history == Evicted(history) + Last(history, WINDOW);
    SignaturesOfConcat(Evicted(history), Last(history, WINDOW));
  }

  lemma LastOfConcat<T>(a: seq<T>, b: seq<T>, n: nat)
    ensures Last(a + b, n) == Last(b, n) <==> |b| >= n || a == []
  {
    if |b| >= n {
      assert Last(a + b, n) == Last(b, n);
    } else if a == [] {
      assert a + b == b;
    } else {
      assert |Last(a + b, n)| > |Last(b, n)|;
    }
  }

  /** For every run and every limit of at least 1, the answer out of the window is the answer out
      of the full history exactly when the window supplies all `limit` entries or nothing but
      transient entries has been evicted. */
  lemma WindowAgreesIff(run: seq<Step>, limit: nat)
    requires limit >= 1
    ensures Slice(Signatures(Column(run)), limit) == Slice(Signatures(History(run)), limit) <==>
            |Slice(Signatures(Column(run)), limit)| == limit || Signatures(Evicted(History(run))) == []
  {
    ColumnIsTheTail(run);
    SignaturesSplit(History(run));
    LastOfConcat(Signatures(Evicted(History(run))), Signatures(Column(run)), limit);
  }

  /** Up to 50 entries nothing is lost, whatever the limit. */
  lemma ShortHistoryIsExact(run: seq<Step>, limit: int)
    requires |History(run)| <= 50
    ensures Slice(Signatures(Column(run)), limit) == Slice(Signatures(History(run)), limit)
  {
    ColumnIsTheTail(run);
  }

  // ----- stop-loss -----

  ghost predicate Contains(s: string, part: string) {
    exists i | 0 <= i <= |s| :: StartsWith(s[i..], part)
  }

  datatype Check = CannotReproduce | Transport | SameSignature

  ghost predicate OfLayer(sig: Signature, layer: string) {
    (sig.0 == "checker_fail" || sig.0 == "doer_output_invalid") && Contains(sig.1, layer)
  }

  /** The layer tag a check looks for; the third check looks for equal signatures instead. */
  function Layer(check: Check): string {
    if check.CannotReproduce? then ",layer=cannot_reproduce" else ",layer=transport"
  }

  ghost predicate Alike(check: Check, sigs: seq<Signature>) {
    if check.SameSignature? then forall i | 0 <= i < |sigs| :: sigs[i] == sigs[0]
    else forall i | 0 <= i < |sigs| :: OfLayer(sigs[i], Layer(check))
  }

  /** The three `maybe_*_stop_loss` functions. */
  ghost predicate StopLoss(check: Check, sigs: seq<Signature>, k: int) {
    k >= 2 && |sigs| >= k && Alike(check, sigs)
  }

  /** `tag in text` */
  ghost predicate Tagged(text: string, tag: string) {
    exists pre, post :: text == pre + (tag + post)
  }

  lemma ContainsIsTagged(text: string, tag: string)
    ensures Contains(text, tag) <==> Tagged(text, tag)
  {
    if Contains(text, tag) {
      var i :| 0 <= i <= |text| && StartsWith(text[i..], tag);
      assert text == text[..i] + (tag + text[i..][|tag|..]);
    }
    if Tagged(text, tag) {
      var pre, post :| text == pre + (tag + post);
      assert text[|pre|..] == tag + post && StartsWith(text[|pre|..], tag);
    }
  }

  ghost predicate FailedContent(sig: Signature, tag: string) {
    sig.0 in ["checker_fail", "doer_output_invalid"] && Tagged(sig.1, tag)
  }

  /** What each check looks for in the signatures it is handed: two layer tags, or equality. */
  lemma StopLossLooksFor(sigs: seq<Signature>, k: int)
    requires 2 <= k <= |sigs|
    ensures StopLoss(CannotReproduce, sigs, k) <==>
            forall i | 0 <= i < |sigs| :: FailedContent(sigs[i], ",layer=cannot_reproduce")
    ensures StopLoss(Transport, sigs, k) <==> forall i | 0 <= i < |sigs| :: FailedContent(sigs[i], ",layer=transport")
    ensures StopLoss(SameSignature, sigs, k) <==> forall i, j | 0 <= i < |sigs| && 0 <= j < |sigs| :: sigs[i] == sigs[j]
  {
    forall i, tag | 0 <= i < |sigs| ensures OfLayer(sigs[i], tag) <==> FailedContent(sigs[i], tag) {
      ContainsIsTagged(sigs[i].1, tag);
    }
    if StopLoss(SameSignature, sigs, k) { assert forall i | 0 <= i < |sigs| :: sigs[i] == sigs[0]; }
  }

  /** The configured counts, and the most attempts a subtask gets between two resets. */
  datatype Caps = Caps(cannotReproduce: nat, transport: nat, sameSignature: nat, hardMax: nat)

  /** The bounds the configuration enforces. */
  predicate InBounds(caps: Caps) {
    2 <= caps.cannotReproduce <= 10 && 2 <= caps.transport <= 10 && 2 <= caps.sameSignature <= 20 && 1 <= caps.hardMax <= 200
  }

  function Cap(caps: Caps, check: Check): nat {
    match check
    case CannotReproduce => caps.cannotReproduce
    case Transport => caps.transport
    case SameSignature => caps.sameSignature
  }

  function MaxCap(caps: Caps): nat {
    var m := if caps.cannotReproduce >= caps.transport then caps.cannotReproduce else caps.transport;
    if m >= caps.sameSignature then m else caps.sameSignature
  }

  /** One read of the last `MaxCap` signatures serves all three checks; each is handed the front of
      it. */
  ghost predicate Fires(check: Check, column: seq<Reason>, caps: Caps) {
    StopLoss(check, First(Slice(Signatures(column), MaxCap(caps)), Cap(caps, check)), Cap(caps, check))
  }

  ghost predicate Blocks(column: seq<Reason>, caps: Caps) {
    exists check :: Fires(check, column, caps)
  }

  /** What a check promises to look at: the last `Cap` non-transient retries. */
  ghost predicate Promised(check: Check, history: seq<Reason>, caps: Caps) {
    StopLoss(check, Last(Signatures(history), Cap(caps, check)), Cap(caps, check))
  }

  // ----- the attempt loop -----

  /** The last step was an attempt that failed for real: the moment the checks are made. */
  ghost predicate JustChecked(run: seq<Step>) {
    run != [] && run[|run| - 1].Append? && !run[|run| - 1].reason.transient
  }

  ghost predicate Stopped(run: seq<Step>, caps: Caps) {
    JustChecked(run) && Blocks(Column(run), caps)
  }

  /** The histories the attempt loop can leave behind: it records a failure, transient or not, only
      while no check has blocked the subtask, and at most `hardMax` real ones between two resets;
      a blocked subtask goes on after a reset only. */
  ghost predicate Reachable(run: seq<Step>, caps: Caps) {
    run == [] ||
    (var front := run[..|run| - 1];
     Reachable(front, caps) && (run[|run| - 1].Append? ==> !Stopped(front, caps)) &&
     |Signatures(History(run))| <= caps.hardMax)
  }

  /** The check fires exactly when it should, as far as the window can tell: the last `Cap` real
      failures of the history are alike, and the window still holds that many. */
  ghost predicate Agrees(check: Check, run: seq<Step>, caps: Caps) {
    Fires(check, Column(run), caps) <==>
    Promised(check, History(run), caps) && |Signatures(Column(run))| >= Cap(caps, check)
  }

  /** A check that is handed all of the read agrees in every run. */
  lemma LargestCapAgrees(check: Check, run: seq<Step>, caps: Caps)
    requires InBounds(caps) && Cap(caps, check) == MaxCap(caps)
    ensures Agrees(check, run, caps)
  {
    WindowAgreesIff(run, MaxCap(caps));
  }

  lemma ReachableFits(run: seq<Step>, caps: Caps)
    requires Reachable(run, caps)
    ensures |Signatures(History(run))| <= caps.hardMax
  {
  }

  /** So does one that gets no further attempt after its cap. */
  lemma ShortBudgetAgrees(check: Check, run: seq<Step>, caps: Caps)
    requires InBounds(caps) && caps.hardMax <= Cap(caps, check) && Reachable(run, caps)
    ensures Agrees(check, run, caps)
  {
    ReachableFits(run, caps);
    ColumnIsTheTail(run);
    SignaturesSplit(History(run));
    var all, held := Signatures(History(run)), Signatures(Column(run));
    assert |held| == |all| ==> held == all;
  }

  /** Over all runs of the attempt loop and any counts within the bounds: a check agrees with what
      it promises exactly when its count is the largest of the three, or the attempts end at its
      count anyway. */
  lemma StopLossAgreesIff(check: Check, caps: Caps)
    requires InBounds(caps)
    ensures (forall run | Reachable(run, caps) && JustChecked(run) :: Agrees(check, run, caps)) <==>
            Cap(caps, check) == MaxCap(caps) || caps.hardMax <= Cap(caps, check)
  {
    if Cap(caps, check) == MaxCap(caps) || caps.hardMax <= Cap(caps, check) {
      forall run | Reachable(run, caps) && JustChecked(run) ensures Agrees(check, run, caps) {
        if Cap(caps, check) == MaxCap(caps) {
          LargestCapAgrees(check, run, caps);
        } else {
          ShortBudgetAgrees(check, run, caps);
        }
      }
    } else {
      StormsAreWitnesses(check);
      MissedBlock(check, caps, OTHER, Storm(check));
    }
  }

  // ----- the runs that fail -----

  /** Real failures with the given signatures, one attempt each. */
  function Attempts(sigs: seq<Signature>): (run: seq<Step>)
    ensures |run| == |sigs|
    ensures forall i | 0 <= i < |sigs| :: run[i] == Append(Reason(i, sigs[i].0, sigs[i].1, false))
  {
    seq(|sigs|, i requires 0 <= i < |sigs| => Append(Reason(i, sigs[i].0, sigs[i].1, false)))
  }

  ghost predicate Short(sigs: seq<Signature>) {
    forall i | 0 <= i < |sigs| :: |sigs[i].1| <= SIGNATURE_LIMIT
  }

  lemma {:induction false} AttemptsRecord(sigs: seq<Signature>)
    requires Short(sigs)
    ensures |History(Attempts(sigs))| == |sigs| && Signatures(History(Attempts(sigs))) == sigs
  {
    if sigs != [] {
      var n := |sigs| - 1;
      AttemptsRecord(sigs[..n]);
      assert Attempts(sigs)[..n] == Attempts(sigs[..n]);
      var before, last := History(Attempts(sigs[..n])), Reason(n, sigs[n].0, sigs[n].1, false);
      assert Kept(last) == last;
      assert (before + [last])[..n] == before;
    }
  }

  /** Up to 50 attempts the column still holds them all. */
  lemma AttemptsHeld(sigs: seq<Signature>)
    requires Short(sigs) && |sigs| <= WINDOW
    ensures Signatures(Column(Attempts(sigs))) == sigs
  {
    AttemptsRecord(sigs);
    ColumnIsTheTail(Attempts(sigs));
  }

  /** A signature no layer check counts. */
  ghost predicate Layerless(sig: Signature) {
    forall check {:trigger Layer(check)} :: !OfLayer(sig, Layer(check))
  }

  /** An odd failure, then a storm of equal ones. */
  function OddThenStorm(odd: Signature, storm: Signature, n: nat): (sigs: seq<Signature>)
    ensures |sigs| == n + 1
  {
    [odd] + Repeat(storm, n)
  }

  ghost predicate Witness(check: Check, odd: Signature, storm: Signature) {
    odd != storm && Layerless(odd) && |odd.1| <= SIGNATURE_LIMIT && |storm.1| <= SIGNATURE_LIMIT &&
    (!check.SameSignature? ==> OfLayer(storm, Layer(check)))
  }

  /** While the read reaches back to the odd failure no check fires. */
  lemma OddHoldsBack(check: Check, caps: Caps, odd: Signature, storm: Signature, n: nat, column: seq<Reason>)
    requires InBounds(caps) && Layerless(odd) && odd != storm
    requires Signatures(column) == OddThenStorm(odd, storm, n) && n < MaxCap(caps)
    ensures !Fires(check, column, caps)
  {
    var k := Cap(caps, check);
    var handed := First(Slice(Signatures(column), MaxCap(caps)), k);
    assert handed == First(OddThenStorm(odd, storm, n), k);
    if n > 0 { assert handed[0] == odd && handed[1] == storm; }
  }

  lemma {:induction false} OddThenStormIsReachable(check: Check, caps: Caps, odd: Signature, storm: Signature, n: nat)
    requires InBounds(caps) && Witness(check, odd, storm) && n < MaxCap(caps) && n < caps.hardMax
    ensures var run := Attempts(OddThenStorm(odd, storm, n)); Reachable(run, caps) && !Stopped(run, caps)
  {
    var sigs := OddThenStorm(odd, storm, n);
    var run := Attempts(sigs);
    AttemptsRecord(sigs);
    AttemptsHeld(sigs);
    forall other ensures !Fires(other, Column(run), caps) { OddHoldsBack(other, caps, odd, storm, n, Column(run)); }
    if n == 0 {
      assert run[..0] == [];
      assert Reachable(run[..0], caps);
    } else {
      OddThenStormIsReachable(check, caps, odd, storm, n - 1);
      assert run[..n] == Attempts(OddThenStorm(odd, storm, n - 1));
    }
  }

  /** A block that does not happen: after one odd failure the last `Cap` failures are alike, and
      nothing fires, because the check is handed the odd one first. */
  lemma MissedBlock(check: Check, caps: Caps, odd: Signature, storm: Signature)
    requires InBounds(caps) && Witness(check, odd, storm)
    requires Cap(caps, check) < MaxCap(caps) && Cap(caps, check) < caps.hardMax
    ensures var run := Attempts(OddThenStorm(odd, storm, Cap(caps, check)));
            Reachable(run, caps) && JustChecked(run) && !Blocks(Column(run), caps) &&
            Promised(check, History(run), caps) && !Agrees(check, run, caps)
  {
    var k := Cap(caps, check);
    OddThenStormIsReachable(check, caps, odd, storm, k);
    StormIsPromised(check, caps, odd, storm);
  }

  lemma StormIsAlike(check: Check, odd: Signature, storm: Signature, n: nat)
    requires Witness(check, odd, storm)
    ensures Alike(check, Repeat(storm, n))
  {
  }

  lemma StormIsPromised(check: Check, caps: Caps, odd: Signature, storm: Signature)
    requires InBounds(caps) && Witness(check, odd, storm) && Cap(caps, check) < MaxCap(caps)
    ensures var run := Attempts(OddThenStorm(odd, storm, Cap(caps, check)));
            Promised(check, History(run), caps) && |Signatures(Column(run))| >= Cap(caps, check) && JustChecked(run)
  {
    var sigs := OddThenStorm(odd, storm, Cap(caps, check));
    AttemptsRecord(sigs);
    AttemptsHeld(sigs);
    assert Last(sigs, Cap(caps, check)) == Repeat(storm, Cap(caps, check));
    StormIsAlike(check, odd, storm, Cap(caps, check));
  }

  /** A block that should not happen: an odd failure, a storm, and an odd failure again, one more
      than a read. The read has just lost the first, so the check is handed the storm and fires
      although the last failure broke it. */
  lemma StaleBlock(check: Check, caps: Caps, odd: Signature, storm: Signature)
    requires InBounds(caps) && Witness(check, odd, storm)
    requires Cap(caps, check) < MaxCap(caps) && MaxCap(caps) < caps.hardMax
    ensures var run := Attempts(OddThenStorm(odd, storm, MaxCap(caps) - 1) + [odd]);
            Reachable(run, caps) && JustChecked(run) && Fires(check, Column(run), caps) &&
            !Promised(check, History(run), caps)
  {
    var m := MaxCap(caps);
    var front := OddThenStorm(odd, storm, m - 1);
    var sigs := front + [odd];
    var run := Attempts(sigs);
    OddThenStormIsReachable(check, caps, odd, storm, m - 1);
    assert run[..m] == Attempts(front);
    AttemptsRecord(sigs);
    StormThenOddFires(check, caps, odd, storm);
  }

  lemma StormThenOddFires(check: Check, caps: Caps, odd: Signature, storm: Signature)
    requires InBounds(caps) && Witness(check, odd, storm) && Cap(caps, check) < MaxCap(caps)
    ensures var run := Attempts(OddThenStorm(odd, storm, MaxCap(caps) - 1) + [odd]);
            Fires(check, Column(run), caps) && !Promised(check, History(run), caps)
  {
    var sigs := OddThenStorm(odd, storm, MaxCap(caps) - 1) + [odd];
    AttemptsRecord(sigs);
    AttemptsHeld(sigs);
    StormFires(check, caps, odd, storm, Column(Attempts(sigs)));
    OddEndsTheStorm(check, odd, storm, sigs, Cap(caps, check));
  }

  lemma StormFires(check: Check, caps: Caps, odd: Signature, storm: Signature, column: seq<Reason>)
    requires InBounds(caps) && Witness(check, odd, storm) && Cap(caps, check) < MaxCap(caps)
    requires Signatures(column) == OddThenStorm(odd, storm, MaxCap(caps) - 1) + [odd]
    ensures Fires(check, column, caps)
  {
    var k, m := Cap(caps, check), MaxCap(caps);
    var read := Slice(Signatures(column), m);
    assert read == Repeat(storm, m - 1) + [odd];
    assert First(read, k) == Repeat(storm, k);
  }

  lemma OddEndsTheStorm(check: Check, odd: Signature, storm: Signature, sigs: seq<Signature>, k: nat)
    requires Witness(check, odd, storm) && 2 <= k < |sigs| - 1
    requires sigs == OddThenStorm(odd, storm, |sigs| - 2) + [odd]
    ensures !StopLoss(check, Last(sigs, k), k)
  {
    var end := Last(sigs, k);
    assert end[0] == storm && end[k - 1] == odd;
  }

  // Signatures for the witnesses: a failure without details, and a storm for each check.

  const OTHER: Signature := ("checker_fail", "")

  function Storm(check: Check): Signature {
    if check.SameSignature? then ("doer_output_invalid", "") else ("checker_fail", Layer(check))
  }

  lemma StormsAreWitnesses(check: Check)
    ensures Witness(check, OTHER, Storm(check))
  {
    var layer := Layer(check);
    assert StartsWith(layer[0..], layer);
  }
}
