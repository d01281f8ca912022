/** Probing a gateway endpoint across a restart.
    scripts/bench-gateway-restart.ts, requestProbeStatus and waitForRestartProbe. */
module RestartProbe {
  import opened Text

  // ---------- attempts ----------

  /** One request: an HTTP status, or an error before any; `at` is the time since the
      restart signal. */
  datatype Attempt =
    | Answered(code: nat, at: real)
    | Refused(kind: string, at: real)
  {
    function Status(): Option<nat> {
      if Answered? then Some(code) else None
    }

    function ErrorKind(): Option<string> {
      if Refused? then Some(kind)
      else if code == 200 then None
      else Some("http-" + Decimal(code))
    }

    predicate IsUp() {
      Status() == Some(200)
    }

    /** What the transition log compares. */
    function State(): (Option<nat>, Option<string>) {
      (Status(), ErrorKind())
    }
  }

  /** One turn of the polling loop before its deadline: whether the process is gone, whether
      the restart was already logged as ready, and what a request would find. */
  datatype Turn = Turn(processDone: bool, ready: bool, attempt: Attempt)

  datatype Transition = Transition(ms: real, status: Option<nat>, errorKind: Option<string>)

  datatype ProbeResult = ProbeResult(
    downtimeMs: Option<real>, firstErrorKind: Option<string>, firstRecoveryMs: Option<real>,
    ms: Option<real>, status: Option<nat>, transitions: seq<Transition>, unavailableMs: Option<real>)

  // ---------- the reference: what a history of attempts tells ----------

  function FirstDown(history: seq<Attempt>): (i: nat)
    ensures i <= |history|
    ensures forall j :: 0 <= j < i ==> history[j].IsUp()
    ensures i < |history| ==> !history[i].IsUp()
  {
    if history == [] || !history[0].IsUp() then 0 else 1 + FirstDown(history[1..])
  }

  predicate WasDown(history: seq<Attempt>) {
    FirstDown(history) < |history|
  }

  predicate EndsUp(history: seq<Attempt>) {
    history != [] && history[|history| - 1].IsUp()
  }

  function Last(history: seq<Attempt>): Attempt
    requires history != []
  {
    history[|history| - 1]
  }

  function FirstError(history: seq<Attempt>): Option<string> {
    if history == [] then None
    else if history[0].ErrorKind().Some? then history[0].ErrorKind()
    else FirstError(history[1..])
  }

  /** Run-length compression: one entry for each stretch of attempts in the same state. */
  function Compress(history: seq<Attempt>): seq<Transition> {
    if history == [] then []
    else
      var n := |history| - 1;
      var last := history[n];
      Compress(history[..n]) +
        if n > 0 && history[n - 1].State() == last.State() then []
        else [Transition(last.at, last.Status(), last.ErrorKind())]
  }

  function Verdict(history: seq<Attempt>): ProbeResult {
    var up, down := EndsUp(history), WasDown(history);
    ProbeResult(
      if up && down then Some(Last(history).at - history[FirstDown(history)].at) else None,
      FirstError(history),
      if up && down then Some(Last(history).at) else None,
      if up then Some(Last(history).at) else None,
      if history == [] then None else Last(history).Status(),
      Compress(history),
      if down then Some(history[FirstDown(history)].at) else None)
  }

  lemma FirstDownGrows(history: seq<Attempt>, a: Attempt)
    ensures FirstDown(history + [a]) ==
      if WasDown(history) then FirstDown(history)
      else if a.IsUp() then |history| + 1 else |history|
  {
    var all := history + [a];
    var i, j := FirstDown(history), FirstDown(all);
    assert all[..|history|] == history;
    assert i < |history| ==> all[i] == history[i];
    assert j < |history| ==> all[j] == history[j];
  }

  lemma {:induction false} FirstErrorGrows(history: seq<Attempt>, a: Attempt)
    ensures FirstError(history + [a]) == if FirstError(history).Some? then FirstError(history) else a.ErrorKind()
  {
    if history == [] {
      assert history + [a] == [a];
    } else {
      assert (history + [a])[1..] == history[1..] + [a];
      FirstErrorGrows(history[1..], a);
    }
  }

  lemma CompressGrows(history: seq<Attempt>, a: Attempt)
    ensures Compress(history + [a]) == Compress(history) +
      if history != [] && Last(history).State() == a.State() then []
      else [Transition(a.at, a.Status(), a.ErrorKind())]
  {
    assert (history + [a])[..|history|] == history;
  }

  // ---------- which turns are polled ----------

  /** The attempts that the loop makes over the turns before its deadline: it stops when
      the process is gone, when the restart is logged as ready after nothing but successes,
      and after the first success that follows a failure. */
  function Polled(turns: seq<Turn>, history: seq<Attempt>): seq<Attempt>
    decreases |turns|
  {
    if turns == [] || turns[0].processDone || (turns[0].ready && history != [] && !WasDown(history)) then history
    else
      var next := history + [turns[0].attempt];
      if EndsUp(next) && WasDown(next) then next else Polled(turns[1..], next)
  }

  /** The local variables of the loop. */
  datatype Watch = Watch(
    firstErrorKind: Option<string>, lastStatus: Option<nat>,
    lastState: Option<(Option<nat>, Option<string>)>, lastSuccessMs: Option<real>,
    unavailableMs: Option<real>, transitions: seq<Transition>, events: seq<Transition>)

  /** What the variables hold after a history of attempts. */
  ghost predicate Tracks(history: seq<Attempt>, w: Watch, offset: real) {
    && w.firstErrorKind == FirstError(history)
    && w.lastStatus == (if history == [] then None else Last(history).Status())
    && w.lastState == (if history == [] then None else Some(Last(history).State()))
    && w.unavailableMs == (if WasDown(history) then Some(history[FirstDown(history)].at) else None)
    && (!WasDown(history) ==> w.lastSuccessMs == if history == [] then None else Some(Last(history).at))
    && w.transitions == Compress(history)
    && |w.events| == |w.transitions|
    && forall k :: 0 <= k < |w.events| ==> w.events[k] == w.transitions[k].(ms := w.transitions[k].ms + offset)
  }

  lemma NotDownEndsUp(history: seq<Attempt>)
    requires history != [] && !WasDown(history)
    ensures EndsUp(history)
  {
    assert FirstDown(history) == |history|;
  }

  /** One attempt: the updates in the body of the loop. */
  method Observe(w: Watch, attempt: Attempt, offset: real, ghost history: seq<Attempt>) returns (w': Watch)
    requires Tracks(history, w, offset)
    ensures Tracks(history + [attempt], w', offset)
  {
    hide FirstDown, FirstError, Compress, Attempt.ErrorKind;
    FirstDownGrows(history, attempt);
    FirstErrorGrows(history, attempt);
    CompressGrows(history, attempt);
    w' := w.(lastStatus := attempt.Status());
    if w'.lastState != Some(attempt.State()) {
      var t := Transition(attempt.at, attempt.Status(), attempt.ErrorKind());
      w' := w'.(transitions := w'.transitions + [t], events := w'.events + [t.(ms := attempt.at + offset)],
                lastState := Some(attempt.State()));
    }
    if attempt.ErrorKind().Some? && w'.firstErrorKind.None? {
      w' := w'.(firstErrorKind := attempt.ErrorKind());
    }
    if !attempt.IsUp() && w'.unavailableMs.None? {
      w' := w'.(unavailableMs := Some(attempt.at));
    }
    if attempt.IsUp() {
      w' := w'.(lastSuccessMs := Some(attempt.at));
    }
  }

  /** The result is what the attempts made tell, and those are the polled ones; every
      transition is also reported as an event, on the sample's clock. */
  method WaitForRestartProbe(turns: seq<Turn>, offset: real) returns (r: ProbeResult, events: seq<Transition>)
    ensures r == Verdict(Polled(turns, []))
    ensures |events| == |r.transitions|
    ensures forall i :: 0 <= i < |events| ==> events[i] == r.transitions[i].(ms := r.transitions[i].ms + offset)
  {
    var w := Watch(None, None, None, None, None, [], []);
    ghost var history: seq<Attempt> := [];
    var i := 0;
    assert turns[0..] == turns;
    hide FirstDown, FirstError, Compress, Attempt.ErrorKind;
    TracksNothing(offset);
    while i < |turns|
      invariant 0 <= i <= |turns|
      invariant Tracks(history, w, offset) && !(EndsUp(history) && WasDown(history))
      invariant Polled(turns, []) == Polled(turns[i..], history)
    {
      var turn := turns[i];
      assert turns[i..][0] == turn && turns[i..][1..] == turns[i + 1..];
      if turn.processDone {
        break;
      }
      if turn.ready && w.unavailableMs.None? && w.lastSuccessMs.Some? {
        break;
      }
      var attempt := turn.attempt;
      w := Observe(w, attempt, offset, history);
      history := history + [attempt];
      if attempt.IsUp() && w.unavailableMs.Some? {
        r := ProbeResult(Some(attempt.at - w.unavailableMs.value), w.firstErrorKind, Some(attempt.at),
                         Some(attempt.at), attempt.Status(), w.transitions, w.unavailableMs);
        return r, w.events;
      }
      i := i + 1;
    }
    StoppedShort(history, w, offset);
    r := ProbeResult(None, w.firstErrorKind, None, if w.unavailableMs.None? then w.lastSuccessMs else None,
                     w.lastStatus, w.transitions, w.unavailableMs);
    return r, w.events;
  }

  /** Leaving the loop without a recovery. The early return for a ready restart gives the
      same result: only successes were seen, so the last status is 200. */
  lemma StoppedShort(history: seq<Attempt>, w: Watch, offset: real)
    requires Tracks(history, w, offset) && !(EndsUp(history) && WasDown(history))
    ensures Verdict(history) == ProbeResult(None, w.firstErrorKind, None,
      if w.unavailableMs.None? then w.lastSuccessMs else None, w.lastStatus, w.transitions, w.unavailableMs)
    ensures w.unavailableMs.None? && w.lastSuccessMs.Some? ==> w.lastStatus == Some(200)
  {
    if history != [] && !WasDown(history) {
      NotDownEndsUp(history);
    }
    hide FirstDown, FirstError, Compress;
  }

  lemma TracksNothing(offset: real)
    ensures Tracks([], Watch(None, None, None, None, None, [], []), offset)
  {
  }

  // ---------- what the result means ----------

  predicate TimesNonDecreasing(history: seq<Attempt>) {
    forall i, j | 0 <= i < j < |history| :: history[i].at <= history[j].at
  }

  predicate IsFirstFailure(history: seq<Attempt>, i: nat)
    requires i < |history|
  {
    !history[i].IsUp() && forall j | 0 <= j < i :: history[j].IsUp()
  }

  /** `ms` is there exactly when the last attempt was 200, and is its time; downtime is there
      exactly when that 200 followed a failure, runs from the first failure to it, and is not
      negative. The loop never polls on after a recovery, so a success after a failure is
      always the last attempt. */
  lemma ProbeMeaning(turns: seq<Turn>)
    ensures var h := Polled(turns, []);
      var r := Verdict(h);
      && (r.ms.Some? <==> h != [] && Last(h).IsUp())
      && (r.ms.Some? ==> r.ms.value == Last(h).at)
      && (r.downtimeMs.Some? <==> exists i, j :: 0 <= i < j < |h| && !h[i].IsUp() && h[j].IsUp())
      && (r.downtimeMs.Some? ==>
            exists i :: 0 <= i < |h| && IsFirstFailure(h, i) && r.downtimeMs.value == Last(h).at - h[i].at)
      && (r.downtimeMs.Some? && TimesNonDecreasing(h) ==> r.downtimeMs.value >= 0.0)
      && RecoversLast(h)
  {
    var h := Polled(turns, []);
    PolledRecoversLast(turns, []);
    if EndsUp(h) && WasDown(h) {
      assert !h[FirstDown(h)].IsUp() && h[|h| - 1].IsUp() && IsFirstFailure(h, FirstDown(h));
    }
  }

  /** No success follows a failure, except as the last attempt. */
  ghost predicate RecoversLast(h: seq<Attempt>) {
    forall i, j :: 0 <= i < j < |h| && !h[i].IsUp() && h[j].IsUp() ==> j == |h| - 1
  }

  lemma StaysDown(history: seq<Attempt>)
    requires !(EndsUp(history) && WasDown(history)) && RecoversLast(history)
    ensures forall i, j :: 0 <= i < j < |history| && !history[i].IsUp() ==> !history[j].IsUp()
  {
  }

  lemma {:induction false} PolledRecoversLast(turns: seq<Turn>, history: seq<Attempt>)
    requires !(EndsUp(history) && WasDown(history)) && RecoversLast(history)
    ensures RecoversLast(Polled(turns, history))
    decreases |turns|
  {
    if turns != [] {
      var next := history + [turns[0].attempt];
      StaysDown(history);
      assert RecoversLast(next);
      if !(EndsUp(next) && WasDown(next)) {
        PolledRecoversLast(turns[1..], next);
      }
    }
  }

  predicate Shows(t: Transition, a: Attempt) {
    (t.status, t.errorKind) == a.State()
  }

  /** It shows an attempt that was made, at its time. */
  ghost predicate ShowsSome(t: Transition, history: seq<Attempt>) {
    exists i :: 0 <= i < |history| && Shows(t, history[i]) && t.ms == history[i].at
  }

  /** The transitions are the run-length compression of the observed states: neighbours
      differ, the first attempt opens the first one, the last attempt is in the state of the
      last one, and each shows an attempt that was made, at its time. */
  lemma {:induction false} CompressIsRunLength(history: seq<Attempt>)
    requires history != []
    ensures Compress(history) != [] && Shows(Compress(history)[|Compress(history)| - 1], Last(history))
    ensures Shows(Compress(history)[0], history[0]) && Compress(history)[0].ms == history[0].at
    ensures forall k :: 0 < k < |Compress(history)| ==>
      (Compress(history)[k - 1].status, Compress(history)[k - 1].errorKind)
        != (Compress(history)[k].status, Compress(history)[k].errorKind)
    ensures forall k :: 0 <= k < |Compress(history)| ==> ShowsSome(Compress(history)[k], history)
  {
    hide Attempt.ErrorKind;
    var n := |history| - 1;
    var init, c := history[..n], Compress(history);
    if n > 0 {
      CompressIsRunLength(init);
    }
    forall k | 0 <= k < |c| ensures ShowsSome(c[k], history) {
      if n > 0 && k < |Compress(init)| {
        var i :| 0 <= i < |init| && Shows(Compress(init)[k], init[i]) && Compress(init)[k].ms == init[i].at;
        assert history[i] == init[i];
      } else {
        assert Shows(c[k], history[n]);
      }
    }
  }

  predicate IsChange(history: seq<Attempt>, i: nat)
    requires i < |history|
  {
    i == 0 || history[i - 1].State() != history[i].State()
  }

  /** The indices at which the state changes, the first attempt included, in order. */
  ghost predicate ListsChanges(history: seq<Attempt>, indices: seq<nat>) {
    && (forall k, l :: 0 <= k < l < |indices| ==> indices[k] < indices[l])
    && (forall i: nat :: i in indices <==> i < |history| && IsChange(history, i))
  }

  /** The transition that the attempt at `i` is logged as. */
  function TransitionAt(history: seq<Attempt>, i: nat): Transition
    requires i < |history|
  {
    Transition(history[i].at, history[i].Status(), history[i].ErrorKind())
  }

  lemma ChangesGrow(history: seq<Attempt>, indices: seq<nat>) returns (all: seq<nat>)
    requires history != [] && ListsChanges(history[..|history| - 1], indices)
    ensures var n := |history| - 1;
      all == indices + (if IsChange(history, n) then [n] else []) && ListsChanges(history, all)
  {
    hide Attempt.ErrorKind;
    var n := |history| - 1;
    var init := history[..n];
    forall i: nat | i < n ensures IsChange(init, i) <==> IsChange(history, i) {
    }
    all := indices + (if IsChange(history, n) then [n] else []);
    hide IsChange;
    assert forall k :: 0 <= k < |indices| ==> indices[k] in indices;
    assert forall i: nat :: i in all <==> i in indices || (IsChange(history, n) && i == n);
  }

  lemma CompressLast(history: seq<Attempt>)
    requires history != []
    ensures var n := |history| - 1;
      Compress(history) == Compress(history[..n]) + if IsChange(history, n) then [TransitionAt(history, n)] else []
  {
    hide Attempt.ErrorKind, Attempt.Status;
  }

  lemma SameTransition(history: seq<Attempt>, n: nat, i: nat)
    requires i < n <= |history|
    ensures TransitionAt(history[..n], i) == TransitionAt(history, i)
  {
  }

  /** Every change of state, and nothing else, is logged, in order: the k-th transition is
      the attempt at the k-th change. */
  lemma {:induction false} CompressLogsEveryChange(history: seq<Attempt>) returns (indices: seq<nat>)
    ensures ListsChanges(history, indices)
    ensures |Compress(history)| == |indices|
    ensures forall k :: 0 <= k < |indices| ==>
      indices[k] < |history| && Compress(history)[k] == TransitionAt(history, indices[k])
  {
    if history == [] {
      indices := [];
    } else {
      hide ListsChanges, TransitionAt, Compress, IsChange;
      var n := |history| - 1;
      var earlier := CompressLogsEveryChange(history[..n]);
      forall k | 0 <= k < |earlier|
        ensures TransitionAt(history[..n], earlier[k]) == TransitionAt(history, earlier[k]) {
        SameTransition(history, n, earlier[k]);
      }
      CompressLast(history);
      indices := ChangesGrow(history, earlier);
    }
  }

  // ---------- which attempts are made ----------

  function Attempts(turns: seq<Turn>): (r: seq<Attempt>)
    ensures |r| == |turns|
  {
    seq(|turns|, i requires 0 <= i < |turns| => turns[i].attempt)
  }

  /** A success after a failure, as the last of these attempts. */
  predicate Recovered(history: seq<Attempt>) {
    history != [] && Last(history).IsUp() && exists i | 0 <= i < |history| :: !history[i].IsUp()
  }

  /** Polling ends before this turn: the process is gone, or the restart was logged as ready
      after at least one attempt and nothing but successes. */
  predicate EndsPolling(history: seq<Attempt>, turn: Turn) {
    turn.processDone || (turn.ready && history != [] && forall i | 0 <= i < |history| :: history[i].IsUp())
  }

  lemma DownMeans(history: seq<Attempt>)
    ensures WasDown(history) <==> exists i :: 0 <= i < |history| && !history[i].IsUp()
    ensures EndsUp(history) && WasDown(history) <==> Recovered(history)
  {
    if WasDown(history) {
      assert !history[FirstDown(history)].IsUp();
    }
  }

  /** From `history` on, the first `n` turns are polled and no more: polling stops short of
      the deadline exactly at the first turn that ends it or after the first recovery. */
  ghost predicate PolledUpTo(turns: seq<Turn>, history: seq<Attempt>, n: nat) {
    && n <= |turns|
    && (forall i :: 0 <= i < n ==> GoesOn(turns, history, i))
    && (n < |turns| ==> !GoesOn(turns, history, n))
  }

  predicate GoesOn(turns: seq<Turn>, history: seq<Attempt>, i: nat)
    requires i < |turns|
  {
    var made := history + Attempts(turns[..i]);
    !EndsPolling(made, turns[i]) && !Recovered(made)
  }

  lemma GoesOnLater(turns: seq<Turn>, history: seq<Attempt>, i: nat)
    requires i + 1 < |turns|
    ensures GoesOn(turns, history, i + 1) <==> GoesOn(turns[1..], history + [turns[0].attempt], i)
  {
    hide EndsPolling, Recovered;
    assert history + Attempts(turns[..i + 1]) == history + [turns[0].attempt] + Attempts(turns[1..][..i]);
  }

  lemma OneMorePolled(turns: seq<Turn>, history: seq<Attempt>, m: nat)
    requires turns != [] && GoesOn(turns, history, 0)
    requires PolledUpTo(turns[1..], history + [turns[0].attempt], m)
    ensures PolledUpTo(turns, history, m + 1)
    ensures history + Attempts(turns[..m + 1]) == history + [turns[0].attempt] + Attempts(turns[1..][..m])
  {
    hide GoesOn;
    forall i | 0 <= i < m + 1 ensures GoesOn(turns, history, i) {
      if i > 0 {
        GoesOnLater(turns, history, i - 1);
      }
    }
    if m + 1 < |turns| {
      GoesOnLater(turns, history, m);
    }
  }

  lemma NothingPolled(turns: seq<Turn>, history: seq<Attempt>)
    ensures turns == [] || EndsPolling(history, turns[0]) || Recovered(history) ==> PolledUpTo(turns, history, 0)
    ensures turns != [] && !EndsPolling(history, turns[0]) && !Recovered(history) ==> GoesOn(turns, history, 0)
    ensures history + Attempts([]) == history
  {
    hide EndsPolling, Recovered;
    assert turns[..0] == [] && history + Attempts([]) == history;
  }

  lemma PolledStep(turns: seq<Turn>, history: seq<Attempt>)
    requires turns != [] && !Recovered(history) && !EndsPolling(history, turns[0])
    ensures var next := history + [turns[0].attempt];
      Polled(turns, history) == if Recovered(next) then next else Polled(turns[1..], next)
  {
    DownMeans(history);
    DownMeans(history + [turns[0].attempt]);
    hide FirstDown, Recovered, Attempt.IsUp;
  }

  lemma PolledStop(turns: seq<Turn>, history: seq<Attempt>)
    requires turns == [] || EndsPolling(history, turns[0])
    ensures Polled(turns, history) == history
  {
    DownMeans(history);
  }

  lemma {:induction false} PolledFrom(turns: seq<Turn>, history: seq<Attempt>) returns (n: nat)
    requires !Recovered(history)
    ensures PolledUpTo(turns, history, n) && Polled(turns, history) == history + Attempts(turns[..n])
    decreases |turns|
  {
    hide *;
    NothingPolled(turns, history);
    n := 0;
    assert turns[..0] == [];
    if turns == [] || EndsPolling(history, turns[0]) {
      PolledStop(turns, history);
    } else {
      PolledStep(turns, history);
      var next := history + [turns[0].attempt];
      var m := 0;
      if Recovered(next) {
        NothingPolled(turns[1..], next);
        assert turns[1..][..0] == [];
      } else {
        m := PolledFrom(turns[1..], next);
      }
      OneMorePolled(turns, history, m);
      n := m + 1;
    }
  }

  /** The attempts that a probe makes are those of the turns before its deadline, from the
      first on, and polling stops short exactly at the first turn that ends it, because the
      process is gone or the restart is ready after successes only, or after a recovery. */
  lemma PolledMeaning(turns: seq<Turn>) returns (n: nat)
    ensures PolledUpTo(turns, [], n) && Polled(turns, []) == Attempts(turns[..n])
  {
    n := PolledFrom(turns, []);
    hide Polled, PolledUpTo;
    assert [] + Attempts(turns[..n]) == Attempts(turns[..n]);
  }

  /** A first error is reported exactly if some attempt was not answered with 200, and is
      that of the first such attempt. */
  lemma {:induction false} FirstErrorMeaning(history: seq<Attempt>)
    ensures FirstError(history).Some? <==> exists i :: 0 <= i < |history| && !history[i].IsUp()
    ensures WasDown(history) ==> FirstError(history) == history[FirstDown(history)].ErrorKind()
  {
    if history != [] {
      FirstErrorMeaning(history[1..]);
      assert history[0].ErrorKind().None? <==> history[0].IsUp();
      hide Attempt.ErrorKind, Attempt.IsUp;
      assert forall i :: 1 <= i < |history| ==> history[i] == history[1..][i - 1];
      assert forall i :: 0 <= i < |history[1..]| ==> history[1..][i] == history[i + 1];
    }
  }

  /** The other fields of a result: when it first failed, when it recovered, what the last
      attempt was answered, and the first error. */
  lemma VerdictMeaning(history: seq<Attempt>)
    ensures var r := Verdict(history);
      && (r.unavailableMs.Some? <==> exists i :: 0 <= i < |history| && !history[i].IsUp())
      && (r.unavailableMs.Some? ==>
            exists i :: 0 <= i < |history| && IsFirstFailure(history, i) && r.unavailableMs.value == history[i].at)
      && r.firstRecoveryMs == (if Recovered(history) then Some(Last(history).at) else None)
      && (r.downtimeMs.Some? <==> Recovered(history))
      && r.status == (if history == [] then None else Last(history).Status())
      && (r.firstErrorKind.Some? <==> r.unavailableMs.Some?)
  {
    DownMeans(history);
    FirstErrorMeaning(history);
    if WasDown(history) {
      assert IsFirstFailure(history, FirstDown(history));
    }
    hide FirstError, Compress, Attempt.ErrorKind, Recovered;
  }
}
