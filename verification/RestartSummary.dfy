/** The restart loop of a sample, and the failure accounting over samples.
    scripts/bench-gateway-restart.ts, runGatewaySample, resolveIterationFailure,
    summarizeCase and hasBenchmarkFailures. */
module RestartSummary {
  import opened Text

  datatype FailureCode =
    | InitialHealthzTimeout | InitialReadyLogTimeout | InitialReadyzTimeout
    | RestartDeadlineTimeout | RestartSignalFailed | RestartChildExited
    | NextHealthzTimeout | NextReadyzTimeout | ReadyLogTimeout | TraceMissing
    | ChildNonzeroExit | CleanupFailed

  /** What was measured around one restart. */
  datatype Measured = Measured(
    childExited: bool, healthzMs: Option<real>, readyzMs: Option<real>,
    gatewayReadyLogMs: Option<real>, restartReadyTotal: Option<real>)

  /** How one turn of the restart loop goes. */
  datatype Turn = ChildGone | IntentFailed | SignalFailed | Restarted(m: Measured)

  datatype Iteration = Iteration(index: nat, failureCode: Option<FailureCode>)

  datatype Sample = Sample(iterations: seq<Iteration>, failureCode: Option<FailureCode>)

  /** How the child had ended when it was stopped. */
  datatype Exit = Exit(beforeTeardown: bool, code: Option<int>)

  function ResolveIterationFailure(m: Measured): Option<FailureCode> {
    if m.healthzMs.None? then Some(NextHealthzTimeout)
    else if m.readyzMs.None? then Some(NextReadyzTimeout)
    else if m.gatewayReadyLogMs.None? then Some(ReadyLogTimeout)
    else if m.restartReadyTotal.None? then Some(TraceMissing)
    else None
  }

  function FinalizeIteration(m: Measured): Option<FailureCode> {
    if m.childExited then Some(RestartChildExited) else ResolveIterationFailure(m)
  }

  function ExitFailure(exit: Exit): Option<FailureCode> {
    if !exit.beforeTeardown then None
    else if exit.code.Some? && exit.code.value != 0 then Some(ChildNonzeroExit)
    else Some(RestartChildExited)
  }

  // ---------- the loop ----------

  /** The failure that a turn ends the loop with, if any. */
  function StopCode(t: Turn): Option<FailureCode> {
    match t
    case ChildGone => Some(RestartChildExited)
    case IntentFailed => Some(RestartSignalFailed)
    case SignalFailed => Some(RestartSignalFailed)
    case Restarted(m) => FinalizeIteration(m)
  }

  /** The first turn from the `n`th on that ends the loop. */
  function FirstStop(turns: nat -> Turn, n: nat, restarts: nat): (r: nat)
    requires n <= restarts
    ensures n <= r <= restarts && forall i :: n <= i < r ==> StopCode(turns(i)).None?
    ensures r < restarts ==> StopCode(turns(r)).Some?
    decreases restarts - n
  {
    if n == restarts || StopCode(turns(n)).Some? then n else FirstStop(turns, n + 1, restarts)
  }

  /** One iteration without failure for each turn before the first failing one, which adds
      its own unless the child was already gone. */
  ghost predicate Ran(turns: nat -> Turn, restarts: nat, iterations: seq<Iteration>, failure: Option<FailureCode>) {
    var n := FirstStop(turns, 0, restarts);
    && |iterations| == (if n == restarts || turns(n).ChildGone? then n else n + 1)
    && (forall i :: 0 <= i < n ==> iterations[i] == Iteration(i + 1, None))
    && (|iterations| == n + 1 ==> iterations[n] == Iteration(n + 1, StopCode(turns(n))))
    && failure == if n == restarts then None else StopCode(turns(n))
  }

  /** Consecutive indices from 1, and every iteration but possibly the last without failure. */
  ghost predicate Consecutive(iterations: seq<Iteration>) {
    && (forall i :: 0 <= i < |iterations| ==> iterations[i].index == i + 1)
    && (forall i :: 0 <= i < |iterations| - 1 ==> iterations[i].failureCode.None?)
  }

  method RunRestarts(restarts: nat, turns: nat -> Turn)
      returns (iterations: seq<Iteration>, failure: Option<FailureCode>)
    ensures Ran(turns, restarts, iterations, failure)
    ensures Consecutive(iterations)
  {
    iterations, failure := [], None;
    for index := 1 to restarts + 1
      invariant failure.None? && |iterations| == index - 1
      invariant FirstStop(turns, 0, restarts) == FirstStop(turns, index - 1, restarts)
      invariant forall i :: 0 <= i < |iterations| ==> iterations[i] == Iteration(i + 1, None)
    {
      match turns(index - 1) {
        case ChildGone =>
          return iterations, Some(RestartChildExited);
        case IntentFailed =>
          return iterations + [Iteration(index, Some(RestartSignalFailed))], Some(RestartSignalFailed);
        case SignalFailed =>
          return iterations + [Iteration(index, Some(RestartSignalFailed))], Some(RestartSignalFailed);
        case Restarted(m) =>
          var code := FinalizeIteration(m);
          iterations := iterations + [Iteration(index, code)];
          if code.Some? {
            return iterations, code;
          }
      }
    }
  }

  /** A sample: its iterations end at the first failure, which is then the sample's. */
  ghost predicate SampleOk(s: Sample) {
    && Consecutive(s.iterations)
    && (s.iterations != [] && s.iterations[|s.iterations| - 1].failureCode.Some? ==>
          s.failureCode == s.iterations[|s.iterations| - 1].failureCode)
  }

  function OrElse(a: Option<FailureCode>, b: Option<FailureCode>): Option<FailureCode> {
    if a.Some? then a else b
  }

  /** A sample without an initial failure: the loop's iterations, and the earliest failure
      of the loop, the exit and the clean-up, in that order. */
  ghost predicate SampleRan(s: Sample, restarts: nat, turns: nat -> Turn, exit: Exit, cleanupFails: bool) {
    exists loop :: Ran(turns, restarts, s.iterations, loop)
      && s.failureCode == OrElse(loop, OrElse(ExitFailure(exit), if cleanupFails then Some(CleanupFailed) else None))
  }

  method RunSample(initial: Option<FailureCode>, restarts: nat, turns: nat -> Turn, exit: Exit, cleanupFails: bool)
      returns (sample: Sample)
    ensures SampleOk(sample)
    ensures if initial.Some? then sample == Sample([], initial)
      else SampleRan(sample, restarts, turns, exit, cleanupFails)
    ensures sample.failureCode.None? <==>
      && initial.None? && !exit.beforeTeardown && !cleanupFails
      && forall i :: 0 <= i < restarts ==> StopCode(turns(i)).None?
  {
    var iterations, failureCode := [], initial;
    if failureCode.None? {
      iterations, failureCode := RunRestarts(restarts, turns);
    }
    ghost var loop := failureCode;
    if failureCode.None? {
      failureCode := ExitFailure(exit);
    }
    if cleanupFails && failureCode.None? {
      failureCode := Some(CleanupFailed);
    }
    sample := Sample(iterations, failureCode);
    assert initial.None? ==> Ran(turns, restarts, sample.iterations, loop);
  }

  // ---------- the summary ----------

  function IterationsOf(samples: seq<Sample>): seq<Iteration> {
    if samples == [] then [] else samples[0].iterations + IterationsOf(samples[1..])
  }

  function Failed(iterations: seq<Iteration>): seq<Iteration> {
    if iterations == [] then []
    else (if iterations[0].failureCode.Some? then [iterations[0]] else []) + Failed(iterations[1..])
  }

  function SampleOnly(samples: seq<Sample>): seq<Sample> {
    if samples == [] then []
    else
      (if samples[0].failureCode.Some? && Failed(samples[0].iterations) == [] then [samples[0]] else [])
      + SampleOnly(samples[1..])
  }

  function FirstSampleFailure(samples: seq<Sample>): Option<FailureCode> {
    if samples == [] then None
    else if samples[0].failureCode.Some? then samples[0].failureCode
    else FirstSampleFailure(samples[1..])
  }

  datatype Summary = Summary(failureRate: real, firstFailureCode: Option<FailureCode>)

  function FailedUnits(samples: seq<Sample>): nat {
    |Failed(IterationsOf(samples))| + |SampleOnly(samples)|
  }

  function FailureUnits(samples: seq<Sample>): nat {
    |IterationsOf(samples)| + |SampleOnly(samples)|
  }

  function SummarizeCase(samples: seq<Sample>): Summary {
    var failed := Failed(IterationsOf(samples));
    var units := FailureUnits(samples);
    Summary(
      if units == 0 then 0.0 else FailedUnits(samples) as real / units as real,
      if FirstSampleFailure(samples).Some? then FirstSampleFailure(samples)
      else if failed != [] then failed[0].failureCode
      else None)
  }

  predicate HasBenchmarkFailures(results: seq<Summary>) {
    exists i | 0 <= i < |results| :: results[i].failureRate > 0.0 || results[i].firstFailureCode.Some?
  }

  // ---------- theorems ----------

  lemma FailedAtMost(iterations: seq<Iteration>)
    ensures |Failed(iterations)| <= |iterations|
    ensures forall f :: f in Failed(iterations) ==> f.failureCode.Some?
  {
  }

  lemma {:induction false} FailedAppend(a: seq<Iteration>, b: seq<Iteration>)
    ensures Failed(a + b) == Failed(a) + Failed(b)
  {
    if a == [] {
      assert a + b == b;
    } else {
      FailedAppend(a[1..], b);
      var head, all := (if a[0].failureCode.Some? then [a[0]] else []), a + b;
      assert all[0] == a[0] && all[1..] == a[1..] + b;
      assert Failed(all) == head + Failed(all[1..]) && Failed(a) == head + Failed(a[1..]);
      hide Failed;
      Regroup(head, Failed(a[1..]), Failed(b));
    }
  }

  lemma NoSampleFailure(samples: seq<Sample>)
    ensures FirstSampleFailure(samples).None? ==> SampleOnly(samples) == []
  {
  }

  lemma {:induction false} SampleFailureCounts(samples: seq<Sample>)
    requires FirstSampleFailure(samples).Some?
    ensures FailedUnits(samples) > 0
  {
    FailedAppend(samples[0].iterations, IterationsOf(samples[1..]));
    if samples[0].failureCode.None? {
      SampleFailureCounts(samples[1..]);
    }
  }

  /** For any samples: the rate lies in [0, 1] and is positive exactly when a first failure
      code is reported. */
  lemma RateAndFirstFailure(samples: seq<Sample>)
    ensures 0.0 <= SummarizeCase(samples).failureRate <= 1.0
    ensures SummarizeCase(samples).failureRate > 0.0 <==> SummarizeCase(samples).firstFailureCode.Some?
  {
    FailedAtMost(IterationsOf(samples));
    NoSampleFailure(samples);
    if FirstSampleFailure(samples).Some? {
      SampleFailureCounts(samples);
    }
    var failed, units := FailedUnits(samples), FailureUnits(samples);
    if units > 0 {
      RatioBounds(failed, units);
    }
  }

  lemma RatioBounds(a: nat, b: nat)
    requires a <= b && b > 0
    ensures 0.0 <= a as real / b as real <= 1.0
    ensures a as real / b as real > 0.0 <==> a > 0
  {
  }

  function FailedSamples(samples: seq<Sample>): nat {
    if samples == [] then 0
    else (if samples[0].failureCode.Some? then 1 else 0) + FailedSamples(samples[1..])
  }

  lemma FailedOfSample(s: Sample)
    requires SampleOk(s)
    ensures |Failed(s.iterations)| <= 1
    ensures Failed(s.iterations) != [] ==> s.failureCode.Some? && Failed(s.iterations)[0].failureCode == s.failureCode
  {
    if s.iterations != [] {
      var n := |s.iterations| - 1;
      var init, last := s.iterations[..n], s.iterations[n];
      assert init + [last] == s.iterations;
      FailedAppend(init, [last]);
      NoneFailed(init);
      assert Failed([last]) == if last.failureCode.Some? then [last] else [];
    }
  }

  lemma NoneFailed(iterations: seq<Iteration>)
    requires forall i :: 0 <= i < |iterations| ==> iterations[i].failureCode.None?
    ensures Failed(iterations) == []
  {
  }

  /** For samples of the loop each failed sample contributes exactly one failed unit, the
      reported code is the first failed sample's, and the benchmark fails exactly when some
      sample failed. */
  lemma {:induction false} EachSampleCountsOnce(samples: seq<Sample>)
    requires forall s :: s in samples ==> SampleOk(s)
    ensures FailedUnits(samples) == FailedSamples(samples)
    ensures SummarizeCase(samples).firstFailureCode == FirstSampleFailure(samples)
    ensures SummarizeCase(samples).firstFailureCode.None? <==> FailedSamples(samples) == 0
  {
    if samples != [] {
      EachSampleCountsOnce(samples[1..]);
      FailedOfSample(samples[0]);
      FailedAppend(samples[0].iterations, IterationsOf(samples[1..]));
    }
  }

  lemma BenchmarkFailsIff(cases: seq<seq<Sample>>, results: seq<Summary>)
    requires |results| == |cases| && forall i :: 0 <= i < |cases| ==> results[i] == SummarizeCase(cases[i])
    requires forall i :: 0 <= i < |cases| ==> forall s :: s in cases[i] ==> SampleOk(s)
    ensures HasBenchmarkFailures(results) <==> exists i :: 0 <= i < |cases| && FailedSamples(cases[i]) > 0
  {
    forall i | 0 <= i < |cases|
      ensures (results[i].failureRate > 0.0 || results[i].firstFailureCode.Some?) <==> FailedSamples(cases[i]) > 0 {
      RateAndFirstFailure(cases[i]);
      EachSampleCountsOnce(cases[i]);
    }
  }

  // ---------- what a failure and the rate mean ----------

  /** A turn has no failure exactly if its restart was carried out, the child lives and all
      four measurements are there; otherwise the first thing missing, in that order, names it. */
  lemma TurnMeaning(t: Turn)
    ensures StopCode(t).None? <==> (t.Restarted? && !t.m.childExited
      && t.m.healthzMs.Some? && t.m.readyzMs.Some? && t.m.gatewayReadyLogMs.Some? && t.m.restartReadyTotal.Some?)
    ensures !t.Restarted? ==> StopCode(t) == Some(if t.ChildGone? then RestartChildExited else RestartSignalFailed)
    ensures t.Restarted? && t.m.childExited ==> StopCode(t) == Some(RestartChildExited)
    ensures StopCode(t) == Some(NextHealthzTimeout) <==> t.Restarted? && !t.m.childExited && t.m.healthzMs.None?
    ensures StopCode(t) == Some(NextReadyzTimeout) <==>
      t.Restarted? && !t.m.childExited && t.m.healthzMs.Some? && t.m.readyzMs.None?
    ensures StopCode(t) == Some(ReadyLogTimeout) <==>
      t.Restarted? && !t.m.childExited && t.m.healthzMs.Some? && t.m.readyzMs.Some? && t.m.gatewayReadyLogMs.None?
  {
  }

  function CountIterations(samples: seq<Sample>): nat {
    if samples == [] then 0 else |samples[0].iterations| + CountIterations(samples[1..])
  }

  /** The failed samples whose failure is not that of an iteration. */
  function CountOwnFailures(samples: seq<Sample>): nat {
    if samples == [] then 0
    else
      (if samples[0].failureCode.Some? && IterationsSucceed(samples[0]) then 1 else 0)
      + CountOwnFailures(samples[1..])
  }

  predicate IterationsSucceed(s: Sample) {
    forall i | 0 <= i < |s.iterations| :: s.iterations[i].failureCode.None?
  }

  lemma {:induction false} NoFailedIff(iterations: seq<Iteration>)
    ensures Failed(iterations) == [] <==> forall i :: 0 <= i < |iterations| ==> iterations[i].failureCode.None?
  {
    if iterations != [] {
      NoFailedIff(iterations[1..]);
      assert forall i :: 1 <= i < |iterations| ==> iterations[i] == iterations[1..][i - 1];
    }
  }

  lemma {:induction false} UnitsAre(samples: seq<Sample>)
    ensures FailureUnits(samples) == CountIterations(samples) + CountOwnFailures(samples)
  {
    if samples != [] {
      UnitsAre(samples[1..]);
      NoFailedIff(samples[0].iterations);
    }
  }

  lemma QuotientTimes(a: nat, b: nat)
    requires b > 0
    ensures (a as real / b as real) * (b as real) == a as real
  {
  }

  lemma RateIs(samples: seq<Sample>)
    ensures FailedUnits(samples) <= FailureUnits(samples)
    ensures SummarizeCase(samples).failureRate ==
      if FailureUnits(samples) == 0 then 0.0 else FailedUnits(samples) as real / FailureUnits(samples) as real
  {
    FailedAtMost(IterationsOf(samples));
    hide Failed, IterationsOf, SampleOnly, FirstSampleFailure;
  }

  /** The failure rate of samples of the loop: the failed samples over the units, which are
      all iterations and the failed samples whose failure is not that of an iteration. */
  lemma RateMeaning(samples: seq<Sample>)
    requires forall s :: s in samples ==> SampleOk(s)
    ensures var units := CountIterations(samples) + CountOwnFailures(samples);
      && SummarizeCase(samples).failureRate * units as real == FailedSamples(samples) as real
      && (units == 0 ==> SummarizeCase(samples).failureRate == 0.0 && FailedSamples(samples) == 0)
  {
    RateIs(samples);
    hide *;
    UnitsAre(samples);
    EachSampleCountsOnce(samples);
    if FailureUnits(samples) > 0 {
      QuotientTimes(FailedUnits(samples), FailureUnits(samples));
    }
  }

  /** A child that ended by itself before the sample was over is a failure, told apart by
      its exit code; one that was stopped is none. */
  lemma ExitMeaning(exit: Exit)
    ensures ExitFailure(exit).None? <==> !exit.beforeTeardown
    ensures exit.beforeTeardown ==>
      (ExitFailure(exit) == Some(ChildNonzeroExit) <==> exit.code.Some? && exit.code != Some(0))
    ensures ExitFailure(exit).Some? ==> ExitFailure(exit).value in {ChildNonzeroExit, RestartChildExited}
  {
  }

  /** The first failure reported is that of the first failed sample. */
  lemma {:induction false} FirstFailureMeaning(samples: seq<Sample>, i: nat)
    requires i < |samples| && samples[i].failureCode.Some?
    requires forall j :: 0 <= j < i ==> samples[j].failureCode.None?
    ensures SummarizeCase(samples).firstFailureCode == samples[i].failureCode
  {
    FirstFailed(samples, i);
    hide Failed, IterationsOf, SampleOnly;
  }

  lemma {:induction false} FirstFailed(samples: seq<Sample>, i: nat)
    requires i < |samples| && samples[i].failureCode.Some?
    requires forall j :: 0 <= j < i ==> samples[j].failureCode.None?
    ensures FirstSampleFailure(samples) == samples[i].failureCode
  {
    if i > 0 {
      FirstFailed(samples[1..], i - 1);
    }
  }
}
