/** The supervisor of a child process: bounded output capture, a timeout, a kill grace
    period, relayed parent signals, and one promise to settle.
    scripts/control-ui-i18n.ts, appendBoundedProcessOutput and runProcess. */
module ProcessSupervisor {
  import opened Text

  // ---------- bounded capture ----------

  datatype Capture = Capture(text: string, truncatedChars: nat)

  function AppendBounded(capture: Capture, chunk: string, maxChars: nat): Capture
    requires maxChars >= 1
  {
    var nextText := capture.text + chunk;
    if |nextText| <= maxChars then Capture(nextText, capture.truncatedChars)
    else Capture(nextText[|nextText| - maxChars..], capture.truncatedChars + |nextText| - maxChars)
  }

  /** A capture of a stream: its last `maxChars` characters, and how many came before them. */
  ghost predicate Captures(capture: Capture, stream: string, maxChars: nat) {
    && |capture.text| <= maxChars
    && capture.truncatedChars + |capture.text| == |stream|
    && capture.text == stream[capture.truncatedChars..]
    && (capture.truncatedChars > 0 ==> |capture.text| == maxChars)
  }

  lemma AppendCaptures(capture: Capture, stream: string, chunk: string, maxChars: nat)
    requires maxChars >= 1 && Captures(capture, stream, maxChars)
    ensures Captures(AppendBounded(capture, chunk, maxChars), stream + chunk, maxChars)
  {
    var nextText := capture.text + chunk;
    assert nextText == (stream + chunk)[capture.truncatedChars..];
  }

  // ---------- state and events ----------

  datatype Signal = SIGTERM | SIGKILL | SIGINT | SIGHUP

  datatype Exit = Exit(code: Option<int>, signal: Option<Signal>)

  datatype Settlement =
    | Resolved(code: int, stderr: string, stdout: string)
    | TimedOut
    | Failed(detail: string)
    | TooMuchOutput
    | SpawnError(message: string)

  /** What the environment can do: output arrives, an armed timer fires, the child reports
      an error or closes, the parent receives a signal. `failure` is the error message of
      an attempt to signal the process group that failed. */
  datatype Event =
    | Stdout(chunk: string)
    | Stderr(chunk: string)
    | TimeoutFires(failure: Option<string>)
    | KillGraceEnds(failure: Option<string>)
    | ChildError(message: string)
    | Close(exit: Exit, groupAlive: bool)
    | ParentSignal(signal: Signal, failure: Option<string>)

  datatype Settings = Settings(maxChars: nat, rejectOnFailure: bool) {
    predicate Valid() { maxChars >= 1 }
  }

  datatype State = State(
    stdout: Capture, stderr: Capture,
    timedOut: bool, waitingForKillGrace: bool, childClosed: Option<Exit>,
    timeoutArmed: bool, killArmed: bool, handlers: set<Signal>,
    settlement: Option<Settlement>, callbacks: nat,
    errorSeen: bool, closeSeen: bool, sent: seq<Signal>)

  const RELAYED := {SIGINT, SIGTERM, SIGHUP}

  const START := State(
    Capture("", 0), Capture("", 0), false, false, None, true, false, RELAYED, None, 0, false, false, [])

  // ---------- the specification: one step ----------

  /** Timers fire only while armed, the child's `error` and `close` are each heard once,
      no output follows `close`, and a parent signal reaches only an installed handler. */
  predicate Enabled(s: State, e: Event) {
    match e
    case Stdout(_) => !s.closeSeen
    case Stderr(_) => !s.closeSeen
    case TimeoutFires(_) => s.timeoutArmed
    case KillGraceEnds(_) => s.killArmed
    case ChildError(_) => !s.errorSeen
    case Close(_, _) => !s.closeSeen
    case ParentSignal(signal, _) => signal in s.handlers
  }

  function Settle(s: State, with: Settlement): State {
    if s.settlement.Some? then s
    else s.(settlement := Some(with), callbacks := s.callbacks + 1,
            timeoutArmed := false, killArmed := false, handlers := {})
  }

  function FormatOutput(capture: Capture): string {
    if capture.truncatedChars == 0 then capture.text
    else "[output truncated " + Decimal(capture.truncatedChars) + " chars; showing tail]\n" + capture.text
  }

  function SignalName(signal: Signal): string {
    match signal
    case SIGTERM => "SIGTERM"
    case SIGKILL => "SIGKILL"
    case SIGINT => "SIGINT"
    case SIGHUP => "SIGHUP"
  }

  /** The settlement that closing with `exit` calls for. */
  function CloseSettlement(cfg: Settings, s: State, exit: Exit): Settlement {
    var code := if exit.code.Some? then exit.code.value else 1;
    var out := FormatOutput(s.stdout);
    var err := FormatOutput(s.stderr);
    if s.timedOut then TimedOut
    else if code != 0 && cfg.rejectOnFailure then
      Failed(if Trim(err) != "" then Trim(err)
             else if Trim(out) != "" then Trim(out)
             else if exit.signal.Some? then "terminated by " + SignalName(exit.signal.value)
             else "")
    else if code == 0 && s.stdout.truncatedChars > 0 then TooMuchOutput
    else Resolved(code, err, s.stdout.text)
  }

  function FinishClose(cfg: Settings, s: State, exit: Exit): State {
    Settle(s, CloseSettlement(cfg, s, exit))
  }

  /** What a failed attempt to signal the process group adds to the captured errors. */
  function Complaint(signal: Signal, failure: string): string {
    "failed to send " + SignalName(signal) + " to process group: " + failure + "\n"
  }

  function SignalChild(cfg: Settings, s: State, signal: Signal, failure: Option<string>): State
    requires cfg.Valid()
  {
    s.(sent := s.sent + [signal],
       stderr := if failure.None? then s.stderr
                 else AppendBounded(s.stderr, Complaint(signal, failure.value), cfg.maxChars))
  }

  function Step(cfg: Settings, s: State, e: Event): State
    requires cfg.Valid()
  {
    match e
    case Stdout(chunk) => s.(stdout := AppendBounded(s.stdout, chunk, cfg.maxChars))
    case Stderr(chunk) => s.(stderr := AppendBounded(s.stderr, chunk, cfg.maxChars))
    case TimeoutFires(failure) =>
      var t := SignalChild(cfg, s.(timedOut := true, timeoutArmed := false), SIGTERM, failure);
      if t.waitingForKillGrace then t else t.(waitingForKillGrace := true, killArmed := true)
    case KillGraceEnds(failure) =>
      var t := SignalChild(cfg, s.(waitingForKillGrace := false, killArmed := false), SIGKILL, failure);
      if t.childClosed.Some? then FinishClose(cfg, t, t.childClosed.value) else t
    case ChildError(message) => Settle(s.(errorSeen := true), SpawnError(message))
    case Close(exit, groupAlive) =>
      var t := s.(closeSeen := true);
      if t.waitingForKillGrace && groupAlive then t.(childClosed := Some(exit)) else FinishClose(cfg, t, exit)
    case ParentSignal(signal, failure) => SignalChild(cfg, s, signal, failure).(handlers := {})
  }

  function Run(cfg: Settings, events: seq<Event>): State
    requires cfg.Valid()
  {
    if events == [] then START
    else Step(cfg, Run(cfg, events[..|events| - 1]), events[|events| - 1])
  }

  /** Every event happens while it can. */
  predicate Possible(cfg: Settings, events: seq<Event>)
    requires cfg.Valid()
  {
    events == [] ||
    (Possible(cfg, events[..|events| - 1]) && Enabled(Run(cfg, events[..|events| - 1]), events[|events| - 1]))
  }

  /** Everything the child has written to its standard output. */
  function StdoutStream(events: seq<Event>): string {
    if events == [] then ""
    else
      var last := events[|events| - 1];
      StdoutStream(events[..|events| - 1]) + if last.Stdout? then last.chunk else ""
  }

  /** Everything the child has written to its standard error, and the complaints about
      signals that could not be sent. */
  function StderrStream(events: seq<Event>): string {
    if events == [] then "" else StderrStream(events[..|events| - 1]) + ErrorText(events[|events| - 1])
  }

  function ErrorText(e: Event): string {
    match e
    case Stderr(chunk) => chunk
    case TimeoutFires(Some(failure)) => Complaint(SIGTERM, failure)
    case KillGraceEnds(Some(failure)) => Complaint(SIGKILL, failure)
    case ParentSignal(signal, Some(failure)) => Complaint(signal, failure)
    case _ => ""
  }

  /** The signals that these events call for: SIGTERM at the timeout, SIGKILL at the end of
      the grace period, and every relayed signal itself. */
  function SignalsOf(events: seq<Event>): seq<Signal> {
    if events == [] then [] else SignalsOf(events[..|events| - 1]) + SignalOf(events[|events| - 1])
  }

  function SignalOf(e: Event): seq<Signal> {
    match e
    case TimeoutFires(_) => [SIGTERM]
    case KillGraceEnds(_) => [SIGKILL]
    case ParentSignal(signal, _) => [signal]
    case _ => []
  }

  // ---------- the supervisor object ----------

  class Supervisor {
    const cfg: Settings
    var stdout: Capture
    var stderr: Capture
    var timedOut: bool
    var waitingForKillGrace: bool
    var childClosedResult: Option<Exit>
    var timeoutArmed: bool
    var killArmed: bool
    var handlers: set<Signal>
    var settlement: Option<Settlement>
    var callbacks: nat
    var errorSeen: bool
    var closeSeen: bool
    var sent: seq<Signal>

    function Abstract(): State
      reads this
    {
      State(stdout, stderr, timedOut, waitingForKillGrace, childClosedResult, timeoutArmed, killArmed,
            handlers, settlement, callbacks, errorSeen, closeSeen, sent)
    }

    constructor (cfg: Settings)
      requires cfg.Valid()
      ensures this.cfg == cfg && Abstract() == START
    {
      this.cfg := cfg;
      stdout, stderr := Capture("", 0), Capture("", 0);
      timedOut, waitingForKillGrace, childClosedResult := false, false, None;
      timeoutArmed, killArmed, handlers := true, false, RELAYED;
      settlement, callbacks := None, 0;
      errorSeen, closeSeen, sent := false, false, [];
    }

    method SettleWith(with: Settlement)
      modifies this
      ensures Abstract() == Settle(old(Abstract()), with)
    {
      if settlement.Some? {
        return;
      }
      settlement := Some(with);
      timeoutArmed := false;
      killArmed := false;
      handlers := {};
      callbacks := callbacks + 1;
    }

    method SendSignal(signal: Signal, failure: Option<string>)
      requires cfg.Valid()
      modifies this
      ensures Abstract() == SignalChild(cfg, old(Abstract()), signal, failure)
    {
      sent := sent + [signal];
      if failure.Some? {
        stderr := AppendBounded(stderr, Complaint(signal, failure.value), cfg.maxChars);
      }
    }

    method OnStdout(chunk: string)
      requires cfg.Valid()
      modifies this
      ensures Abstract() == Step(cfg, old(Abstract()), Stdout(chunk))
    {
      stdout := AppendBounded(stdout, chunk, cfg.maxChars);
    }

    method OnStderr(chunk: string)
      requires cfg.Valid()
      modifies this
      ensures Abstract() == Step(cfg, old(Abstract()), Stderr(chunk))
    {
      stderr := AppendBounded(stderr, chunk, cfg.maxChars);
    }

    method OnTimeout(failure: Option<string>)
      requires cfg.Valid()
      modifies this
      ensures Abstract() == Step(cfg, old(Abstract()), TimeoutFires(failure))
    {
      timeoutArmed := false;
      timedOut := true;
      SendSignal(SIGTERM, failure);
      if !waitingForKillGrace {
        waitingForKillGrace := true;
        killArmed := true;
      }
    }

    method OnKillGraceEnd(failure: Option<string>)
      requires cfg.Valid()
      modifies this
      ensures Abstract() == Step(cfg, old(Abstract()), KillGraceEnds(failure))
    {
      waitingForKillGrace := false;
      killArmed := false;
      SendSignal(SIGKILL, failure);
      if childClosedResult.Some? {
        SettleWith(CloseSettlement(cfg, Abstract(), childClosedResult.value));
      }
    }

    method OnError(message: string)
      requires cfg.Valid()
      modifies this
      ensures Abstract() == Step(cfg, old(Abstract()), ChildError(message))
      ensures settlement == if old(settlement).Some? then old(settlement) else Some(SpawnError(message))
    {
      errorSeen := true;
      SettleWith(SpawnError(message));
    }

    method OnClose(exit: Exit, groupAlive: bool)
      requires cfg.Valid()
      modifies this
      ensures Abstract() == Step(cfg, old(Abstract()), Close(exit, groupAlive))
    {
      closeSeen := true;
      if waitingForKillGrace && groupAlive {
        childClosedResult := Some(exit);
        return;
      }
      SettleWith(CloseSettlement(cfg, Abstract(), exit));
    }

    method OnParentSignal(signal: Signal, failure: Option<string>)
      requires cfg.Valid()
      modifies this
      ensures Abstract() == Step(cfg, old(Abstract()), ParentSignal(signal, failure))
    {
      SendSignal(signal, failure);
      handlers := {};
    }
  }

  // ---------- every run ----------

  /** What holds after any possible sequence of events. */
  ghost predicate Consistent(cfg: Settings, events: seq<Event>, s: State)
    requires cfg.Valid()
  {
    && Captures(s.stdout, StdoutStream(events), cfg.maxChars)
    && Captures(s.stderr, StderrStream(events), cfg.maxChars)
    && s.sent == SignalsOf(events)
    && Protocol(cfg, s)
  }

  ghost predicate Protocol(cfg: Settings, s: State) {
    && s.handlers <= RELAYED
    && s.callbacks == (if s.settlement.Some? then 1 else 0)
    && (s.settlement.Some? ==> !s.timeoutArmed && !s.killArmed && s.handlers == {})
    && (s.settlement.None? ==> s.timeoutArmed == !s.timedOut && s.killArmed == s.waitingForKillGrace)
    && (s.waitingForKillGrace ==> s.timedOut)
    && (s.errorSeen ==> s.settlement.Some?)
    && (s.closeSeen && s.settlement.None? ==> s.killArmed && s.childClosed.Some?)
    && (SIGKILL in s.sent ==> s.timedOut && SIGTERM in s.sent)
    && (s.timedOut ==> SIGTERM in s.sent)
    && (s.timedOut && s.settlement.None? ==> s.killArmed || SIGKILL in s.sent)
    && (s.childClosed.Some? ==> s.closeSeen)
    && (s.settlement.Some? ==> SettlementFits(cfg, s, s.settlement.value))
  }

  /** How a settlement relates to the state it was made in, which later events keep. */
  ghost predicate SettlementFits(cfg: Settings, s: State, with: Settlement) {
    match with
    case Resolved(code, _, stdout) =>
      && !s.timedOut && s.closeSeen && stdout == s.stdout.text
      && (code == 0 ==> s.stdout.truncatedChars == 0)
      && (cfg.rejectOnFailure ==> code == 0)
    case TimedOut => s.timedOut && s.closeSeen
    case Failed(_) => !s.timedOut && s.closeSeen && cfg.rejectOnFailure
    case TooMuchOutput => !s.timedOut && s.closeSeen && s.stdout.truncatedChars > 0
    case SpawnError(_) => s.errorSeen
  }

  lemma CloseFits(cfg: Settings, s: State, exit: Exit)
    requires s.closeSeen
    ensures SettlementFits(cfg, s, CloseSettlement(cfg, s, exit))
  {
    hide FormatOutput, Trim, SignalName;
  }

  lemma StepProtocol(cfg: Settings, s: State, e: Event)
    requires cfg.Valid() && Protocol(cfg, s) && Enabled(s, e)
    ensures Protocol(cfg, Step(cfg, s, e))
  {
    hide FormatOutput, Trim, SignalName, AppendBounded, CloseSettlement;
    match e
    case Stdout(chunk) =>
    case Stderr(chunk) =>
    case TimeoutFires(failure) =>
    case KillGraceEnds(failure) =>
      var t := SignalChild(cfg, s.(waitingForKillGrace := false, killArmed := false), SIGKILL, failure);
      if t.childClosed.Some? {
        CloseFits(cfg, t, t.childClosed.value);
      }
    case ChildError(message) =>
    case Close(exit, groupAlive) => CloseFits(cfg, s.(closeSeen := true), exit);
    case ParentSignal(signal, failure) =>
  }

  /** Signalling the child touches nothing but the captured errors and the signals sent. */
  lemma SignalKeeps(cfg: Settings)
    requires cfg.Valid()
    ensures forall s, signal, failure :: var t := SignalChild(cfg, s, signal, failure);
      t == s.(sent := s.sent + [signal], stderr := t.stderr)
  {
    hide AppendBounded;
  }

  /** One step appends to each captured stream, and sends, what the event calls for. */
  lemma StepStreams(cfg: Settings, s: State, e: Event)
    requires cfg.Valid()
    ensures var t := Step(cfg, s, e);
      && t.stdout == (if e.Stdout? then AppendBounded(s.stdout, e.chunk, cfg.maxChars) else s.stdout)
      && (|| t.stderr == AppendBounded(s.stderr, ErrorText(e), cfg.maxChars)
          || (ErrorText(e) == "" && t.stderr == s.stderr))
      && t.sent == s.sent + SignalOf(e)
  {
    StderrAfterSignal(cfg);
    SignalKeeps(cfg);
    hide AppendBounded, CloseSettlement, Complaint, SignalChild;
  }

  lemma StderrAfterSignal(cfg: Settings)
    requires cfg.Valid()
    ensures forall s, signal, failure ::
      SignalChild(cfg, s, signal, failure).stderr
        == if failure.None? then s.stderr else AppendBounded(s.stderr, Complaint(signal, failure.value), cfg.maxChars)
  {
    hide AppendBounded, Complaint;
  }

  lemma StepConsistent(cfg: Settings, events: seq<Event>, s: State, e: Event)
    requires cfg.Valid() && Consistent(cfg, events, s) && Enabled(s, e)
    ensures Consistent(cfg, events + [e], Step(cfg, s, e))
  {
    StepProtocol(cfg, s, e);
    StepStreams(cfg, s, e);
    assert (events + [e])[..|events|] == events;
    hide AppendBounded, Protocol, Captures, Step, ErrorText, SignalOf;
    if e.Stdout? {
      AppendCaptures(s.stdout, StdoutStream(events), e.chunk, cfg.maxChars);
    } else {
      assert StdoutStream(events) + "" == StdoutStream(events);
    }
    AppendCaptures(s.stderr, StderrStream(events), ErrorText(e), cfg.maxChars);
    assert ErrorText(e) == "" ==> StderrStream(events) + ErrorText(e) == StderrStream(events);
  }

  lemma {:induction false} RunConsistent(cfg: Settings, events: seq<Event>)
    requires cfg.Valid() && Possible(cfg, events)
    ensures Consistent(cfg, events, Run(cfg, events))
  {
    if events != [] {
      var n := |events| - 1;
      RunConsistent(cfg, events[..n]);
      assert events[..n] + [events[n]] == events;
      StepConsistent(cfg, events[..n], Run(cfg, events[..n]), events[n]);
    }
  }

  lemma PossiblePrefix(cfg: Settings, events: seq<Event>, n: nat)
    requires cfg.Valid() && Possible(cfg, events) && n <= |events|
    ensures Possible(cfg, events[..n])
  {
    if n < |events| {
      PossiblePrefix(cfg, events[..|events| - 1], n);
      assert events[..|events| - 1][..n] == events[..n];
    } else {
      assert events[..n] == events;
    }
  }

  // ---------- main results ----------

  lemma SettledState(cfg: Settings, events: seq<Event>)
    requires cfg.Valid() && Possible(cfg, events) && Run(cfg, events).settlement.Some?
    ensures var s := Run(cfg, events);
      s.callbacks == 1 && !s.timeoutArmed && !s.killArmed && s.handlers == {}
  {
    RunConsistent(cfg, events);
    hide Run, Possible, Captures;
  }

  lemma StepKeepsSettlement(cfg: Settings, s: State, e: Event)
    requires cfg.Valid() && s.settlement.Some? && !s.timeoutArmed && Enabled(s, e)
    ensures Step(cfg, s, e).settlement == s.settlement && Step(cfg, s, e).timedOut == s.timedOut
  {
    SignalKeeps(cfg);
    hide AppendBounded, CloseSettlement, SignalChild;
  }

  lemma {:induction false} SettledStays(cfg: Settings, events: seq<Event>, n: nat)
    requires cfg.Valid() && Possible(cfg, events) && n <= |events|
    requires Run(cfg, events[..n]).settlement.Some?
    ensures Run(cfg, events).settlement == Run(cfg, events[..n]).settlement
    ensures Run(cfg, events).timedOut == Run(cfg, events[..n]).timedOut
    decreases |events|
  {
    hide Step, Enabled;
    if n < |events| {
      var init := events[..|events| - 1];
      assert init[..n] == events[..n];
      SettledStays(cfg, init, n);
      SettledState(cfg, init);
      StepKeepsSettlement(cfg, Run(cfg, init), events[|events| - 1]);
    } else {
      assert events[..n] == events;
    }
  }

  /** Once settled, for good: the settlement never changes, its callback never runs again,
      and neither a timer nor a parent signal handler is left. */
  lemma SettlesOnce(cfg: Settings, events: seq<Event>, n: nat)
    requires cfg.Valid() && Possible(cfg, events) && n <= |events|
    requires Run(cfg, events[..n]).settlement.Some?
    ensures var before, after := Run(cfg, events[..n]), Run(cfg, events);
      && after.settlement == before.settlement
      && after.callbacks == 1
      && after.timedOut == before.timedOut
      && !after.timeoutArmed && !after.killArmed && after.handlers == {}
  {
    hide Step, Possible, Enabled;
    PossiblePrefix(cfg, events, n);
    SettledState(cfg, events[..n]);
    SettledStays(cfg, events, n);
    SettledState(cfg, events);
  }

  lemma TimedOutStays(cfg: Settings, s: State, e: Event)
    requires cfg.Valid() && s.timedOut
    ensures Step(cfg, s, e).timedOut
  {
    SignalKeeps(cfg);
    hide AppendBounded, CloseSettlement, SignalChild;
  }

  lemma SettledAfterTimeout(cfg: Settings, s: State)
    requires Protocol(cfg, s) && s.timedOut
    ensures s.settlement.Some? ==> s.settlement.value.TimedOut? || s.settlement.value.SpawnError?
  {
  }

  /** After a timeout the promise is never resolved: by the end of any run it is pending,
      rejected as timed out, or rejected by the child's own error. */
  lemma {:induction false} NeverResolvesAfterTimeout(cfg: Settings, events: seq<Event>, n: nat)
    requires cfg.Valid() && Possible(cfg, events) && n <= |events|
    requires Run(cfg, events[..n]).timedOut
    ensures var s := Run(cfg, events);
      s.timedOut && (s.settlement.Some? ==> s.settlement.value.TimedOut? || s.settlement.value.SpawnError?)
    decreases |events|
  {
    RunConsistent(cfg, events);
    assert Protocol(cfg, Run(cfg, events));
    hide Step, Protocol, Captures, Enabled;
    if n < |events| {
      var init := events[..|events| - 1];
      assert init[..n] == events[..n];
      NeverResolvesAfterTimeout(cfg, init, n);
      TimedOutStays(cfg, Run(cfg, init), events[|events| - 1]);
    } else {
      assert events[..n] == events;
    }
    SettledAfterTimeout(cfg, Run(cfg, events));
  }

  /** Once the child has closed, the promise is settled, or only the kill grace timer is
      awaited: it is armed, and its firing settles the promise. */
  lemma AlwaysSettles(cfg: Settings, events: seq<Event>, failure: Option<string>)
    requires cfg.Valid() && Possible(cfg, events) && Run(cfg, events).closeSeen
    ensures var s := Run(cfg, events);
      s.settlement.Some? ||
      (&& Enabled(s, KillGraceEnds(failure))
       && Step(cfg, s, KillGraceEnds(failure)).settlement == Some(TimedOut))
  {
    RunConsistent(cfg, events);
    hide AppendBounded, FormatOutput, Trim;
  }

  lemma StepNoHandlers(cfg: Settings, s: State, e: Event)
    requires cfg.Valid() && s.handlers == {}
    ensures Step(cfg, s, e).handlers == {}
  {
    SignalKeeps(cfg);
    hide AppendBounded, CloseSettlement, SignalChild;
  }

  lemma {:induction false} NoHandlersStay(cfg: Settings, events: seq<Event>, n: nat)
    requires cfg.Valid() && n <= |events| && Run(cfg, events[..n]).handlers == {}
    ensures Run(cfg, events).handlers == {}
    decreases |events|
  {
    hide Step;
    if n < |events| {
      var init := events[..|events| - 1];
      assert init[..n] == events[..n];
      NoHandlersStay(cfg, init, n);
      StepNoHandlers(cfg, Run(cfg, init), events[|events| - 1]);
    } else {
      assert events[..n] == events;
    }
  }

  /** The child's error settles a pending promise at once, with that error, and disarms
      every timer and handler. */
  lemma ErrorSettles(cfg: Settings, events: seq<Event>, message: string)
    requires cfg.Valid() && Possible(cfg, events)
    requires Run(cfg, events).settlement.None?
    ensures Enabled(Run(cfg, events), ChildError(message)) && Possible(cfg, events + [ChildError(message)])
    ensures var s := Run(cfg, events + [ChildError(message)]);
      && s.settlement == Some(SpawnError(message)) && s.callbacks == 1
      && !s.timeoutArmed && !s.killArmed && s.handlers == {}
  {
    RunConsistent(cfg, events);
    assert (events + [ChildError(message)])[..|events|] == events;
    hide AppendBounded, Captures;
  }

  lemma Formatted(capture: Capture, stream: string, maxChars: nat)
    requires Captures(capture, stream, maxChars)
    ensures |stream| <= maxChars ==> FormatOutput(capture) == stream
    ensures |stream| > maxChars ==>
      FormatOutput(capture) == "[output truncated " + Decimal(|stream| - maxChars) + " chars; showing tail]\n"
        + stream[|stream| - maxChars..]
  {
    hide Decimal;
  }

  /** What a settlement hands over for these captured outputs: the errors captured, and for
      a rejected failure the errors, else the output, else the signal that ended the child. */
  predicate HandsOver(settlement: Settlement, exit: Exit, out: string, err: string) {
    && (settlement.Resolved? ==> settlement.stderr == err && settlement.stdout == out)
    && (settlement.Failed? ==>
          && (!Blank(err) ==> settlement.detail == Trim(err))
          && (Blank(err) && !Blank(out) ==> settlement.detail == Trim(out))
          && (Blank(err) && Blank(out) && exit.signal.Some? ==>
                settlement.detail == "terminated by " + SignalName(exit.signal.value))
          && (Blank(err) && Blank(out) && exit.signal.None? ==> settlement.detail == ""))
  }

  lemma SettlementHandsOver(cfg: Settings, s: State, exit: Exit, out: string, err: string)
    requires FormatOutput(s.stdout) == out && s.stdout.text == out && FormatOutput(s.stderr) == err
    ensures HandsOver(CloseSettlement(cfg, s, exit), exit, out, err)
  {
    hide FormatOutput, Trim, SignalName;
  }

  lemma CloseSettlesWith(cfg: Settings, s: State, exit: Exit, groupAlive: bool)
    requires cfg.Valid() && s.settlement.None? && Step(cfg, s, Close(exit, groupAlive)).settlement.Some?
    ensures Step(cfg, s, Close(exit, groupAlive)).settlement == Some(CloseSettlement(cfg, s, exit))
  {
    hide FormatOutput, Trim, SignalName;
  }

  /** What a close that settles hands over, when the output fitted. */
  lemma CloseDetails(cfg: Settings, events: seq<Event>, exit: Exit, groupAlive: bool)
    requires cfg.Valid() && Possible(cfg, events)
    requires Run(cfg, events).settlement.None?
    requires |StdoutStream(events)| <= cfg.maxChars && |StderrStream(events)| <= cfg.maxChars
    ensures var settlement := Step(cfg, Run(cfg, events), Close(exit, groupAlive)).settlement;
      settlement.Some? ==> HandsOver(settlement.value, exit, StdoutStream(events), StderrStream(events))
  {
    RunConsistent(cfg, events);
    var s, out, err := Run(cfg, events), StdoutStream(events), StderrStream(events);
    assert Captures(s.stdout, out, cfg.maxChars) && Captures(s.stderr, err, cfg.maxChars);
    assert s.stdout.text == out;
    hide *;
    Formatted(s.stdout, out, cfg.maxChars);
    Formatted(s.stderr, err, cfg.maxChars);
    SettlementHandsOver(cfg, s, exit, out, err);
    if Step(cfg, s, Close(exit, groupAlive)).settlement.Some? {
      CloseSettlesWith(cfg, s, exit, groupAlive);
    }
  }

  lemma EnabledAt(cfg: Settings, events: seq<Event>, j: nat)
    requires cfg.Valid() && Possible(cfg, events) && j < |events|
    ensures Enabled(Run(cfg, events[..j]), events[j]) && Possible(cfg, events[..j])
    ensures Run(cfg, events[..j + 1]) == Step(cfg, Run(cfg, events[..j]), events[j])
  {
    PossiblePrefix(cfg, events, j + 1);
    assert events[..j + 1][..j] == events[..j] && events[..j + 1][j] == events[j];
    hide Step, Enabled;
  }

  lemma RelayedFromHandler(cfg: Settings, events: seq<Event>, j: nat)
    requires cfg.Valid() && Possible(cfg, events) && j < |events| && events[j].ParentSignal?
    ensures Possible(cfg, events[..j]) && Run(cfg, events[..j]).handlers != {}
    ensures Run(cfg, events[..j + 1]).handlers == {}
  {
    EnabledAt(cfg, events, j);
    hide Run, Possible, AppendBounded;
  }

  /** At most one parent signal is ever relayed, and none once the promise is settled. */
  lemma RelaysAtMostOnce(cfg: Settings, events: seq<Event>, i: nat, j: nat)
    requires cfg.Valid() && Possible(cfg, events) && i <= j < |events| && events[j].ParentSignal?
    ensures i < j ==> !events[i].ParentSignal?
    ensures Run(cfg, events[..i]).settlement.None?
  {
    hide Run, Step, Possible, Enabled;
    RelayedFromHandler(cfg, events, j);
    var before := events[..j];
    PossiblePrefix(cfg, before, i);
    assert before[..i] == events[..i];
    RunConsistent(cfg, events[..i]);
    if Run(cfg, events[..i]).settlement.Some? {
      NoHandlersStay(cfg, before, i);
    }
    if i < j && events[i].ParentSignal? {
      RelayedFromHandler(cfg, events, i);
      assert before[..i + 1] == events[..i + 1];
      NoHandlersStay(cfg, before, i + 1);
    }
  }

  /** Resolving with code 0 hands over the whole of what the child wrote; resolving with
      another code, its last `maxChars` characters. */
  lemma ResolvedOutput(cfg: Settings, events: seq<Event>)
    requires cfg.Valid() && Possible(cfg, events)
    requires Run(cfg, events).settlement.Some? && Run(cfg, events).settlement.value.Resolved?
    ensures var r, stream := Run(cfg, events).settlement.value, StdoutStream(events);
      && (r.code == 0 ==> r.stdout == stream)
      && r.stdout == stream[if |stream| <= cfg.maxChars then 0 else |stream| - cfg.maxChars..]
  {
    RunConsistent(cfg, events);
  }

  /** What a close without a pending grace period does, for every exit: in particular a
      clean exit resolves if and only if the output fitted and no timeout had fired. */
  lemma CloseOutcome(cfg: Settings, events: seq<Event>, exit: Exit, groupAlive: bool)
    requires cfg.Valid() && Possible(cfg, events)
    requires Run(cfg, events).settlement.None? && !Run(cfg, events).closeSeen
    ensures var s := Step(cfg, Run(cfg, events), Close(exit, groupAlive));
      && (s.settlement.None? <==> Run(cfg, events).waitingForKillGrace && groupAlive)
      && (exit.code == Some(0) && s.settlement.Some? ==>
            (s.settlement.value.Resolved? <==>
              !s.timedOut && |StdoutStream(events)| <= cfg.maxChars))
      && (exit.code != Some(0) && s.settlement.Some? ==>
            (s.settlement.value.Resolved? <==> !s.timedOut && !cfg.rejectOnFailure))
      && (s.settlement.Some? && s.settlement.value.Resolved? ==>
            s.settlement.value.code == if exit.code.Some? then exit.code.value else 1)
  {
    RunConsistent(cfg, events);
    hide AppendBounded, FormatOutput, Trim;
  }
}
