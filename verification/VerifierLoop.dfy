/** The case loop of the APPS verifier: it may stop early, but never changes the verdict. */
module VerifierLoop {

  /** Whether the call-based task, the solution file and the case lists allow a run at all. */
  datatype Setup = Unsupported | Malformed | Runnable

  datatype Report = Report(caseCount: nat, resolved: bool, tested: nat, passed: nat, cases: seq<bool>)

  const MAX_CASES := 10

  function Passes(cases: seq<bool>): nat {
    if cases == [] then 0 else Passes(cases[..|cases| - 1]) + (if cases[|cases| - 1] then 1 else 0)
  }

  predicate AllPass(cases: seq<bool>) {
    forall i :: 0 <= i < |cases| ==> cases[i]
  }

  /** The first failing case, or the number of cases. */
  function FirstFailure(outcomes: seq<bool>): (f: nat)
    ensures f <= |outcomes| && AllPass(outcomes[..f]) && (f < |outcomes| ==> !outcomes[f])
  {
    if outcomes == [] || !outcomes[0] then 0
    else
      var f := 1 + FirstFailure(outcomes[1..]);
      assert forall i :: 1 <= i < f ==> outcomes[i] == outcomes[1..][i - 1];
      f
  }

  function Min(a: nat, b: nat): nat {
    if a < b then a else b
  }

  function Max(a: nat, b: nat): nat {
    if a < b then b else a
  }

  /**
   * How many cases the loop runs: all of them when none fails, else up to the tenth or the first failure, whichever is
   * later.
   */
  function Tested(outcomes: seq<bool>, evalAll: bool): nat {
    var n, f := |outcomes|, FirstFailure(outcomes);
    if f == n then n else if evalAll then Max(Min(n, MAX_CASES), f + 1) else f + 1
  }

  lemma {:induction false} PassesSplit(a: seq<bool>, b: seq<bool>)
    ensures Passes(a + b) == Passes(a) + Passes(b)
  {
    if b == [] {
      assert a + b == a;
    } else {
      PassesSplit(a, b[..|b| - 1]);
      assert (a + b)[..|a + b| - 1] == a + b[..|b| - 1];
    }
  }

  lemma {:induction false} PassesBound(cases: seq<bool>)
    ensures Passes(cases) <= |cases|
    ensures Passes(cases) == |cases| <==> AllPass(cases)
  {
    if cases != [] {
      var n := |cases| - 1;
      PassesBound(cases[..n]);
      assert forall i :: 0 <= i < n ==> cases[..n][i] == cases[i];
    }
  }

  lemma AllPassUpTo(outcomes: seq<bool>, n: nat)
    requires n <= |outcomes|
    ensures AllPass(outcomes[..n]) <==> n <= FirstFailure(outcomes)
  {
    var f := FirstFailure(outcomes);
    if n <= f {
      assert forall i :: 0 <= i < n ==> outcomes[..n][i] == outcomes[..f][i];
    } else {
      assert outcomes[..n][f] == outcomes[f];
    }
  }

  /** The loop over the cases; `outcomes[i]` is what running case `i` yields, a timeout being a failure. */
  method RunCases(outcomes: seq<bool>, evalAll: bool) returns (cases: seq<bool>)
    ensures Tested(outcomes, evalAll) <= |outcomes|
    ensures cases == outcomes[..Tested(outcomes, evalAll)]
  {
    cases := [];
    var maxEval := Min(|outcomes|, MAX_CASES);
    var index := 0;
    while index < |outcomes|
      invariant index <= |outcomes| && cases == outcomes[..index]
      invariant index <= FirstFailure(outcomes) || (evalAll && index < maxEval)
    {
      cases := cases + [outcomes[index]];
      AllPassUpTo(outcomes, index + 1);
      if !evalAll && !outcomes[index] {
        return;
      }
      if index >= maxEval - 1 && !AllPass(cases) {
        return;
      }
      index := index + 1;
    }
  }

  method Verify(setup: Setup, outcomes: seq<bool>, evalAll: bool) returns (report: Report, exitCode: nat)
    ensures report.caseCount == |outcomes|
    ensures report.resolved <==> setup == Runnable && AllPass(outcomes)
    ensures setup == Runnable ==>
            report.tested == Tested(outcomes, evalAll) && report.cases == outcomes[..report.tested]
    ensures report.passed <= Passes(outcomes) && (report.resolved ==> report.passed == Passes(outcomes) == |outcomes|)
    ensures setup == Runnable ==> Passes(outcomes) - report.passed <= |outcomes| - report.tested
    ensures exitCode == 0 <==> report.resolved
  {
    report := Report(|outcomes|, false, 0, 0, []);
    if setup == Runnable {
      var cases := RunCases(outcomes, evalAll);
      var passed := Passes(cases);
      report := Report(|outcomes|, |cases| == |outcomes| && passed == |outcomes|, |cases|, passed, cases);
      var t := Tested(outcomes, evalAll);
      assert outcomes == outcomes[..t] + outcomes[t..];
      PassesSplit(outcomes[..t], outcomes[t..]);
      PassesBound(outcomes[t..]);
      PassesBound(cases);
      AllPassUpTo(outcomes, |outcomes|);
      assert outcomes[..|outcomes|] == outcomes;
      PassesBound(outcomes);
    }
    exitCode := if report.resolved then 0 else 1;
  }

  /**
   * Stopping early never changes the verdict: all tested cases pass and none is left exactly when every case passes.
   */
  lemma EarlyStopKeepsVerdict(outcomes: seq<bool>, evalAll: bool)
    ensures var t := Tested(outcomes, evalAll);
            t <= |outcomes| && (t == |outcomes| && AllPass(outcomes[..t]) <==> AllPass(outcomes))
    ensures !AllPass(outcomes) ==> exists i :: 0 <= i < Tested(outcomes, evalAll) && !outcomes[i]
    ensures evalAll && !AllPass(outcomes) ==>
            exists f :: 0 <= f < |outcomes| && !outcomes[f] && AllPass(outcomes[..f])
                        && Tested(outcomes, evalAll) == Max(Min(|outcomes|, MAX_CASES), f + 1)
  {
    AllPassUpTo(outcomes, |outcomes|);
    assert outcomes[..|outcomes|] == outcomes;
    var f := FirstFailure(outcomes);
    if f < |outcomes| {
      assert !outcomes[f] && f < Tested(outcomes, evalAll);
    }
  }
}
