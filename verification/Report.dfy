/**
 The verification report: results in the order the checks add them, the four-way summary, printing
 grouped by step, and verify-deploy's in-place `-checks` filter with its exit verdict.
 */
module Report {
  import opened Text

  /** The outcome of a check; a status outside the four names is printed as UNKNOWN. */
  datatype Status = Pass | Warn | Fail | Skip | Other(code: int)

  datatype CheckResult = CheckResult(step: string, id: string, name: string, status: Status, message: string, fix: string)

  function CountStatus(results: seq<CheckResult>, status: Status): nat {
    if results == [] then 0
    else CountStatus(results[..|results| - 1], status) + (if results[|results| - 1].status == status then 1 else 0)
  }

  function Having(results: seq<CheckResult>, status: Status): set<nat> {
    set i: nat | i < |results| && results[i].status == status
  }

  /** The count of a status is the number of positions that have it. */
  lemma {:induction false} CountIsCardinality(results: seq<CheckResult>, status: Status)
    ensures CountStatus(results, status) == |Having(results, status)|
  {
    if results != [] {
      var n: nat := |results| - 1;
      CountIsCardinality(results[..n], status);
      HavingSnoc(results, status);
      assert n !in Having(results[..n], status);
    }
  }

  lemma HavingSnoc(results: seq<CheckResult>, status: Status)
    requires results != []
    ensures var n: nat := |results| - 1;
            Having(results, status) == Having(results[..n], status) + (if results[n].status == status then {n} else {})
  {
  }

  predicate AnyFailure(results: seq<CheckResult>) {
    exists i :: 0 <= i < |results| && results[i].status == Fail
  }

  lemma {:induction false} FailureIsCounted(results: seq<CheckResult>)
    ensures CountStatus(results, Fail) > 0 <==> AnyFailure(results)
  {
    if results != [] {
      var front := results[..|results| - 1];
      FailureIsCounted(front);
      if AnyFailure(front) {
        var i :| 0 <= i < |front| && front[i].status == Fail;
        assert results[i].status == Fail;
      }
      if AnyFailure(results) {
        var i :| 0 <= i < |results| && results[i].status == Fail;
        assert i < |front| ==> front[i].status == Fail;
      }
    }
  }

  /** The four counts cover every result exactly when no status is unknown. */
  lemma {:induction false} CountsCover(results: seq<CheckResult>)
    ensures var sum := CountStatus(results, Pass) + CountStatus(results, Warn)
                       + CountStatus(results, Fail) + CountStatus(results, Skip);
            sum <= |results| && (sum == |results| <==> forall i | 0 <= i < |results| :: !results[i].status.Other?)
  {
    if results != [] {
      var front := results[..|results| - 1];
      CountsCover(front);
      if forall i | 0 <= i < |front| :: !front[i].status.Other? {
        assert forall i | 0 <= i < |front| :: results[i] == front[i];
      } else {
        var i :| 0 <= i < |front| && front[i].status.Other?;
        assert results[i].status.Other?;
      }
    }
  }

  class Report {
    var results: seq<CheckResult>

    constructor ()
      ensures results == []
    {
      results := [];
    }

    method Add(result: CheckResult)
      modifies this
      ensures results == old(results) + [result]
    {
      results := results + [result];
    }

    method HasFailures() returns (failed: bool)
      ensures failed <==> AnyFailure(results)
    {
      var i := 0;
      while i < |results|
        invariant 0 <= i <= |results|
        invariant forall j | 0 <= j < i :: results[j].status != Fail
      {
        if results[i].status == Fail {
          return true;
        }
        i := i + 1;
      }
      return false;
    }

    /** The counts Summary prints: they add up exactly when no status is unknown. */
    method Summary() returns (passed: nat, warning: nat, failed: nat, skipped: nat)
      ensures passed == CountStatus(results, Pass) && warning == CountStatus(results, Warn)
      ensures failed == CountStatus(results, Fail) && skipped == CountStatus(results, Skip)
      ensures failed > 0 <==> AnyFailure(results)
      ensures passed + warning + failed + skipped == |results| <==> forall i | 0 <= i < |results| :: !results[i].status.Other?
    {
      passed, warning, failed, skipped := 0, 0, 0, 0;
      var i := 0;
      while i < |results|
        invariant 0 <= i <= |results|
        invariant passed == CountStatus(results[..i], Pass) && warning == CountStatus(results[..i], Warn)
        invariant failed == CountStatus(results[..i], Fail) && skipped == CountStatus(results[..i], Skip)
      {
        assert results[..i + 1][..i] == results[..i];
        match results[i].status {
          case Pass => passed := passed + 1;
          case Warn => warning := warning + 1;
          case Fail => failed := failed + 1;
          case Skip => skipped := skipped + 1;
          case Other(_) =>
        }
        i := i + 1;
      }
      assert results[..i] == results;
      FailureIsCounted(results);
      CountsCover(results);
    }

    /** The unique steps, collected by their first appearance. */
    method CollectSteps() returns (steps: seq<string>)
      ensures FirstOrdered(results, steps, |results|)
      ensures forall j | 0 <= j < |results| :: results[j].step in steps
    {
      steps := [];
      var seen: set<string> := {};
      var i := 0;
      while i < |results|
        invariant 0 <= i <= |results|
        invariant forall s :: s in seen <==> s in steps
        invariant forall j | 0 <= j < i :: results[j].step in steps
        invariant FirstOrdered(results, steps, i)
      {
        if results[i].step !in seen {
          FirstOrderedSnoc(results, steps, i);
          seen := seen + {results[i].step};
          steps := steps + [results[i].step];
        }
        i := i + 1;
      }
    }

    /** The inner loop: the results of one step. */
    method CollectGroup(step: string) returns (group: seq<CheckResult>)
      ensures group == OfStep(results, step)
    {
      group := [];
      var j := 0;
      while j < |results|
        invariant 0 <= j <= |results|
        invariant group == OfStep(results[..j], step)
      {
        assert results[..j + 1][..j] == results[..j];
        if results[j].step == step {
          group := group + [results[j]];
        }
        j := j + 1;
      }
      assert results[..j] == results;
    }

    /** The order in which Fprint prints: by step, in order of first appearance, each step's results in order. */
    method Fprint() returns (printed: seq<CheckResult>)
      ensures multiset(printed) == multiset(results)
      ensures forall step :: OfStep(printed, step) == OfStep(results, step)
      ensures ByFirst(results, printed)
    {
      var steps := CollectSteps();
      printed := [];
      var k := 0;
      while k < |steps|
        invariant 0 <= k <= |steps|
        invariant forall s :: OfStep(printed, s) == (if s in steps[..k] then OfStep(results, s) else [])
        invariant ByFirst(results, printed)
        invariant k < |steps| ==> forall p | p in printed :: First(results, p.step) < First(results, steps[k])
      {
        var group := CollectGroup(steps[k]);
        AppendGroup(results, steps, k, printed);
        AppendByFirst(results, printed, steps[k]);
        printed := printed + group;
        k := k + 1;
      }
      assert steps[..k] == steps;
      forall s ensures OfStep(printed, s) == OfStep(results, s) {
        if s !in steps {
          NoneOfStep(results, s);
        }
      }
      SameGroupsSameCounts(printed, results);
    }
  }

  predicate ByFirst(results: seq<CheckResult>, printed: seq<CheckResult>) {
    forall i, j | 0 <= i <= j < |printed| :: First(results, printed[i].step) <= First(results, printed[j].step)
  }

  lemma AppendByFirst(results: seq<CheckResult>, printed: seq<CheckResult>, step: string)
    requires ByFirst(results, printed)
    requires forall p | p in printed :: First(results, p.step) < First(results, step)
    ensures ByFirst(results, printed + OfStep(results, step))
    ensures forall p | p in printed + OfStep(results, step) :: First(results, p.step) <= First(results, step)
  {
    GroupFacts(results, step);
    var group := OfStep(results, step);
    var all := printed + group;
    forall i, j | 0 <= i <= j < |all| ensures First(results, all[i].step) <= First(results, all[j].step) {
      if j >= |printed| {
        assert all[j] in group;
        assert all[i] in (if i < |printed| then printed else group);
      }
    }
  }

  lemma AppendGroup(results: seq<CheckResult>, steps: seq<string>, k: nat, printed: seq<CheckResult>)
    requires k < |steps| && FirstOrdered(results, steps, |results|)
    requires forall s :: OfStep(printed, s) == (if s in steps[..k] then OfStep(results, s) else [])
    ensures forall s :: OfStep(printed + OfStep(results, steps[k]), s) == (if s in steps[..k + 1] then OfStep(results, s) else [])
  {
    var step := steps[k];
    assert steps[..k + 1] == steps[..k] + [step];
    assert step !in steps[..k] by {
      assert forall i | 0 <= i < k :: First(results, steps[i]) < First(results, step);
    }
    forall s ensures OfStep(printed + OfStep(results, step), s) == (if s in steps[..k + 1] then OfStep(results, s) else []) {
      OfStepConcat(printed, OfStep(results, step), s);
      OfStepAgain(results, step, s);
    }
  }

  // ---------------------------------------------------------------- grouping

  /** The results of one step, in order. */
  function OfStep(results: seq<CheckResult>, step: string): seq<CheckResult> {
    if results == [] then []
    else
      var last := results[|results| - 1];
      OfStep(results[..|results| - 1], step) + (if last.step == step then [last] else [])
  }

  /** Where a step first appears, or the length. */
  function First(results: seq<CheckResult>, step: string): (i: nat)
    ensures i <= |results|
    ensures forall j | 0 <= j < i :: results[j].step != step
    ensures i < |results| ==> results[i].step == step
  {
    if results == [] || results[0].step == step then 0 else 1 + First(results[1..], step)
  }

  /** The steps are distinct and listed by their first appearance, all before position n. */
  predicate FirstOrdered(results: seq<CheckResult>, steps: seq<string>, n: nat) {
    && (forall i | 0 <= i < |steps| :: First(results, steps[i]) < n)
    && (forall i, j | 0 <= i < j < |steps| :: First(results, steps[i]) < First(results, steps[j]))
  }

  lemma FirstOrderedSnoc(results: seq<CheckResult>, steps: seq<string>, i: nat)
    requires i < |results| && results[i].step !in steps && FirstOrdered(results, steps, i)
    requires forall j | 0 <= j < i :: results[j].step in steps
    ensures FirstOrdered(results, steps + [results[i].step], i + 1)
  {
    assert forall j | 0 <= j < i :: results[j].step != results[i].step;
    assert First(results, results[i].step) == i;
  }

  lemma {:induction false} OfStepConcat(a: seq<CheckResult>, b: seq<CheckResult>, step: string)
    ensures OfStep(a + b, step) == OfStep(a, step) + OfStep(b, step)
  {
    if b == [] {
      assert a + b == a;
    } else {
      assert (a + b)[..|a + b| - 1] == a + b[..|b| - 1];
      OfStepConcat(a, b[..|b| - 1], step);
    }
  }

  lemma {:induction false} GroupFacts(results: seq<CheckResult>, step: string)
    ensures forall p | p in OfStep(results, step) :: p.step == step
  {
    if results != [] {
      GroupFacts(results[..|results| - 1], step);
    }
  }

  lemma {:induction false} OfStepAgain(results: seq<CheckResult>, step: string, s: string)
    ensures OfStep(OfStep(results, step), s) == if s == step then OfStep(results, step) else []
  {
    if results != [] {
      var front, last := results[..|results| - 1], results[|results| - 1];
      OfStepAgain(front, step, s);
      var tail := if last.step == step then [last] else [];
      OfStepConcat(OfStep(front, step), tail, s);
      if tail != [] {
        assert tail[..0] == [];
      }
    }
  }

  lemma {:induction false} NoneOfStep(results: seq<CheckResult>, step: string)
    requires forall i | 0 <= i < |results| :: results[i].step != step
    ensures OfStep(results, step) == []
  {
    if results != [] {
      NoneOfStep(results[..|results| - 1], step);
    }
  }

  lemma {:induction false} CountInGroup(results: seq<CheckResult>, x: CheckResult)
    ensures multiset(results)[x] == multiset(OfStep(results, x.step))[x]
  {
    if results != [] {
      var front, last := results[..|results| - 1], results[|results| - 1];
      assert results == front + [last];
      CountInGroup(front, x);
    }
  }

  /** Equal groups for every step mean the same results with the same multiplicities. */
  lemma SameGroupsSameCounts(a: seq<CheckResult>, b: seq<CheckResult>)
    requires forall step :: OfStep(a, step) == OfStep(b, step)
    ensures multiset(a) == multiset(b)
  {
    forall x: CheckResult ensures multiset(a)[x] == multiset(b)[x] {
      CountInGroup(a, x);
      CountInGroup(b, x);
    }
  }

  // ---------------------------------------------------------------- the -checks filter

  /** The results whose id is allowed, in order. */
  function Keep(results: seq<CheckResult>, allowed: set<string>): seq<CheckResult> {
    if results == [] then []
    else
      var last := results[|results| - 1];
      Keep(results[..|results| - 1], allowed) + (if last.id in allowed then [last] else [])
  }

  /** Filtering keeps every allowed result as often as it occurs, and drops every other. */
  lemma {:induction false} KeepCounts(results: seq<CheckResult>, allowed: set<string>)
    ensures forall x :: multiset(Keep(results, allowed))[x] == if x.id in allowed then multiset(results)[x] else 0
  {
    if results != [] {
      var front, last := results[..|results| - 1], results[|results| - 1];
      assert results == front + [last];
      KeepCounts(front, allowed);
    }
  }

  /** The order is kept: what is kept of two lists one after the other is what is kept of each. */
  lemma {:induction false} KeepConcat(a: seq<CheckResult>, b: seq<CheckResult>, allowed: set<string>)
    ensures Keep(a + b, allowed) == Keep(a, allowed) + Keep(b, allowed)
  {
    if b == [] {
      assert a + b == a;
    } else {
      assert (a + b)[..|a + b| - 1] == a + b[..|b| - 1];
      KeepConcat(a, b[..|b| - 1], allowed);
    }
  }

  predicate AllowedFailure(results: seq<CheckResult>, allowed: set<string>) {
    exists i :: 0 <= i < |results| && results[i].id in allowed && results[i].status == Fail
  }

  /** What is kept holds a failure exactly if an allowed result failed. */
  lemma {:induction false} KeepFailure(results: seq<CheckResult>, allowed: set<string>)
    ensures AnyFailure(Keep(results, allowed)) <==> AllowedFailure(results, allowed)
  {
    if results != [] {
      var front, last := results[..|results| - 1], results[|results| - 1];
      KeepFailure(front, allowed);
      FailureOfSnoc(Keep(front, allowed), last);
      assert Keep(front, allowed) + [] == Keep(front, allowed);
      if AllowedFailure(front, allowed) {
        var i :| 0 <= i < |front| && front[i].id in allowed && front[i].status == Fail;
        assert results[i] == front[i];
      } else if last.id in allowed && last.status == Fail {
        assert results[|front|] == last;
      }
    }
  }

  lemma FailureOfSnoc(results: seq<CheckResult>, last: CheckResult)
    ensures AnyFailure(results + [last]) <==> AnyFailure(results) || last.status == Fail
  {
    var all := results + [last];
    if AnyFailure(results) {
      var i :| 0 <= i < |results| && results[i].status == Fail;
      assert all[i].status == Fail;
    }
    if last.status == Fail {
      assert all[|results|].status == Fail;
    }
  }

  /** A non-empty id that some part is after trimming. */
  predicate IsNamed(parts: seq<string>, id: string) {
    id != "" && exists p | p in parts :: Trim(p) == id
  }

  lemma NamedSnoc(parts: seq<string>, i: nat, id: string)
    requires i < |parts|
    ensures IsNamed(parts[..i + 1], id) <==> IsNamed(parts[..i], id) || (id != "" && id == Trim(parts[i]))
  {
    assert parts[..i + 1] == parts[..i] + [parts[i]];
    assert parts[i] in parts[..i + 1];
    assert forall p | p in parts[..i] :: p in parts[..i + 1];
  }

  /** The ids named by a comma-separated filter: its parts, trimmed, that are not empty. */
  function AllowedBy(filter: string): (allowed: set<string>)
    ensures forall id :: id in allowed <==> IsNamed(Split(filter, ','), id)
  {
    set p | p in Split(filter, ',') && Trim(p) != "" :: Trim(p)
  }

  method ParseFilter(filter: string) returns (allowed: set<string>)
    ensures allowed == AllowedBy(filter)
    ensures forall id :: id in allowed <==> IsNamed(Split(filter, ','), id)
  {
    var parts := Split(filter, ',');
    allowed := {};
    var i := 0;
    while i < |parts|
      invariant 0 <= i <= |parts|
      invariant forall id :: id in allowed <==> IsNamed(parts[..i], id)
    {
      forall id ensures IsNamed(parts[..i + 1], id) <==> IsNamed(parts[..i], id) || (id != "" && id == Trim(parts[i])) {
        NamedSnoc(parts, i, id);
      }
      if Trim(parts[i]) != "" {
        allowed := allowed + {Trim(parts[i])};
      }
      i := i + 1;
    }
    assert parts[..i] == parts;
  }

  /**
   `filtered := Results[:0]` and appending to it while ranging over the same backing array: the writes
   never reach a result that is still to be read.
   */
  method FilterInPlace(backing: array<CheckResult>, allowed: set<string>) returns (n: nat)
    modifies backing
    ensures n <= backing.Length
    ensures backing[..n] == Keep(old(backing[..]), allowed)
    ensures backing[n..] == old(backing[n..])
  {
    n := 0;
    var i := 0;
    while i < backing.Length
      invariant 0 <= n <= i <= backing.Length
      invariant backing[..n] == Keep(old(backing[..i]), allowed)
      invariant backing[n..] == old(backing[n..])
    {
      ghost var original := old(backing[..]);
      assert backing[i] == original[i];
      assert original[..i + 1][..i] == original[..i];
      if backing[i].id in allowed {
        backing[n] := backing[i];
        n := n + 1;
      }
      i := i + 1;
    }
    assert old(backing[..i]) == old(backing[..]);
  }

  /** verify-deploy from the collected results to its exit code; an empty filter keeps everything. */
  method VerifyDeploy(backing: array<CheckResult>, filter: string) returns (shown: seq<CheckResult>, exitCode: nat)
    modifies backing
    ensures shown == if filter == "" then old(backing[..]) else Keep(old(backing[..]), AllowedBy(filter))
    ensures exitCode == 1 <==> exists i :: 0 <= i < backing.Length && old(backing[i]).status == Fail
                                            && (filter == "" || old(backing[i]).id in AllowedBy(filter))
    ensures exitCode <= 1
  {
    var n := backing.Length;
    ghost var original := backing[..];
    if filter != "" {
      var allowed := ParseFilter(filter);
      n := FilterInPlace(backing, allowed);
      KeepFailure(original, allowed);
    }
    shown := backing[..n];
    var report := new Report();
    report.results := shown;
    var failed := report.HasFailures();
    exitCode := if failed then 1 else 0;
    assert forall i | 0 <= i < backing.Length :: old(backing[i]) == original[i];
  }
}
