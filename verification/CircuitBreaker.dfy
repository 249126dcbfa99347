/** The circuit breaker of core/resilience.go, as interleaved steps: a call asks
    for admission, an admitted call later completes, time passes, an operator
    resets. Counters are unbounded; `now` is the only clock. */
module CircuitBreaker {
  import opened Prelude

  datatype Phase = Closed | Open | HalfOpen

  datatype Settings = Settings(maxFailures: nat, resetTimeout: int, halfOpenMaxCalls: nat)

  datatype State = State(
    phase: Phase,
    failures: nat,
    lastFailure: Option<int>, // None until a failure is recorded
    successCount: nat,
    halfOpenCalls: nat,
    totalCalls: nat,
    totalFailures: nat,
    totalSuccesses: nat
  )

  const FRESH := State(Closed, 0, None, 0, 0, 0, 0, 0)

  function ToOpen(s: State): State { s.(phase := Open, failures := 0, successCount := 0, halfOpenCalls := 0) }
  function ToHalfOpen(s: State): State { s.(phase := HalfOpen, successCount := 0, halfOpenCalls := 0) }
  function ToClosed(s: State): State { s.(phase := Closed, failures := 0, successCount := 0, halfOpenCalls := 0) }

  predicate TimedOut(c: Settings, s: State, now: int) {
    s.lastFailure.None? || now - s.lastFailure.value > c.resetTimeout
  }

  function Before(c: Settings, s: State, now: int): (State, bool) {
    var s := s.(totalCalls := s.totalCalls + 1);
    match s.phase
    case Closed => (s, true)
    case Open => if TimedOut(c, s, now) then (ToHalfOpen(s), true) else (s, false)
    case HalfOpen =>
      if s.halfOpenCalls >= c.halfOpenMaxCalls then (s, false) else (s.(halfOpenCalls := s.halfOpenCalls + 1), true)
  }

  function OnSuccess(c: Settings, s: State): State {
    var s := s.(totalSuccesses := s.totalSuccesses + 1);
    match s.phase
    case Closed => s.(failures := 0)
    case Open => s
    case HalfOpen =>
      var s := s.(successCount := s.successCount + 1);
      if s.successCount >= c.halfOpenMaxCalls then ToClosed(s) else s
  }

  function OnFailure(c: Settings, s: State, now: int): State {
    var s := s.(totalFailures := s.totalFailures + 1, failures := s.failures + 1, lastFailure := Some(now));
    match s.phase
    case Closed => if s.failures >= c.maxFailures then ToOpen(s) else s
    case Open => s
    case HalfOpen => ToOpen(s)
  }

  class Breaker {
    const settings: Settings
    var phase: Phase
    var failures: nat
    var lastFailure: Option<int>
    var successCount: nat
    var halfOpenCalls: nat
    var totalCalls: nat
    var totalFailures: nat
    var totalSuccesses: nat

    function View(): State reads this {
      State(phase, failures, lastFailure, successCount, halfOpenCalls, totalCalls, totalFailures, totalSuccesses)
    }

    constructor (settings: Settings)
      ensures this.settings == settings && View() == FRESH
    {
      this.settings, phase, failures, lastFailure, successCount := settings, Closed, 0, None, 0;
      halfOpenCalls, totalCalls, totalFailures, totalSuccesses := 0, 0, 0, 0;
    }

    method BeforeCall(now: int) returns (admitted: bool)
      modifies this
      ensures (View(), admitted) == Before(settings, old(View()), now)
    {
      totalCalls := totalCalls + 1;
      match phase
      case Closed =>
        admitted := true;
      case Open =>
        admitted := TimedOut(settings, View(), now);
        if admitted {
          phase, successCount, halfOpenCalls := HalfOpen, 0, 0;
        }
      case HalfOpen =>
        admitted := halfOpenCalls < settings.halfOpenMaxCalls;
        if admitted {
          halfOpenCalls := halfOpenCalls + 1;
        }
    }

    method AfterCall(success: bool, now: int)
      modifies this
      ensures View() == if success then OnSuccess(settings, old(View())) else OnFailure(settings, old(View()), now)
    {
      if success {
        totalSuccesses := totalSuccesses + 1;
        match phase
        case Closed =>
          failures := 0;
        case Open =>
        case HalfOpen =>
          successCount := successCount + 1;
          if successCount >= settings.halfOpenMaxCalls {
            Reset();
          }
      } else {
        totalFailures := totalFailures + 1;
        failures := failures + 1;
        lastFailure := Some(now);
        match phase
        case Closed =>
          if failures >= settings.maxFailures {
            TransitionToOpen();
          }
        case Open =>
        case HalfOpen =>
          TransitionToOpen();
      }
    }

    method TransitionToOpen()
      modifies this`phase, this`failures, this`successCount, this`halfOpenCalls
      ensures View() == ToOpen(old(View()))
      ensures phase == Open && failures == 0 && successCount == 0 && halfOpenCalls == 0
    {
      phase, failures, successCount, halfOpenCalls := Open, 0, 0, 0;
    }

    method Reset()
      modifies this`phase, this`failures, this`successCount, this`halfOpenCalls
      ensures View() == ToClosed(old(View()))
      ensures phase == Closed && failures == 0 && successCount == 0 && halfOpenCalls == 0
    {
      phase, failures, successCount, halfOpenCalls := Closed, 0, 0, 0;
    }
  }

  // ---- Every interleaving ----

  datatype Step = Call | Complete(success: bool) | Wait(d: nat) | Reset

  /** The breaker among its callers: `inFlight` admitted calls have not completed. */
  datatype World = World(s: State, now: int, inFlight: nat)

  /** One thing that happened, with the breaker's phase just before it. */
  datatype Happening = Happening(step: Step, time: int, phase: Phase, admitted: bool)

  function Next(c: Settings, w: World, step: Step): (World, Happening) {
    match step
    case Call =>
      var (s, ok) := Before(c, w.s, w.now);
      (w.(s := s, inFlight := if ok then w.inFlight + 1 else w.inFlight), Happening(step, w.now, w.s.phase, ok))
    case Complete(success) =>
      if w.inFlight == 0 then (w, Happening(Wait(0), w.now, w.s.phase, false))
      else
        (w.(s := if success then OnSuccess(c, w.s) else OnFailure(c, w.s, w.now), inFlight := w.inFlight - 1),
         Happening(step, w.now, w.s.phase, false))
    case Wait(d) => (w.(now := w.now + d), Happening(step, w.now, w.s.phase, false))
    case Reset => (w.(s := ToClosed(w.s)), Happening(step, w.now, w.s.phase, false))
  }

  function Run(c: Settings, start: int, steps: seq<Step>): (World, seq<Happening>) {
    if steps == [] then (World(FRESH, start, 0), [])
    else
      var (w, past) := Run(c, start, steps[..|steps| - 1]);
      var (w', h) := Next(c, w, steps[|steps| - 1]);
      (w', past + [h])
  }

  // ---- Read off the history, without looking at the counters ----

  /** Failures in a row since the last success or since the breaker last became closed. */
  function Streak(past: seq<Happening>): nat {
    if past == [] then 0
    else
      var h, earlier := past[|past| - 1], Streak(past[..|past| - 1]);
      if h.phase != Closed || h.step.Reset? || (h.step.Complete? && h.step.success) then 0
      else if h.step.Complete? then earlier + 1
      else earlier
  }

  function LastFailure(past: seq<Happening>): Option<int> {
    if past == [] then None
    else
      var h := past[|past| - 1];
      if h.step.Complete? && !h.step.success then Some(h.time) else LastFailure(past[..|past| - 1])
  }

  /** Calls admitted in the current half-open episode, the one that started it included. */
  function EpisodeAdmitted(past: seq<Happening>): nat {
    if past == [] then 0
    else
      var h, earlier := past[|past| - 1], EpisodeAdmitted(past[..|past| - 1]);
      if !h.admitted then earlier else if h.phase == HalfOpen then earlier + 1 else 1
  }

  /** Successes completed in the current half-open episode. */
  function EpisodeSuccesses(past: seq<Happening>): nat {
    if past == [] then 0
    else
      var h, earlier := past[|past| - 1], EpisodeSuccesses(past[..|past| - 1]);
      if h.admitted && h.phase == Open then 0
      else if h.phase == HalfOpen && h.step.Complete? && h.step.success then earlier + 1
      else earlier
  }

  function Rejected(past: seq<Happening>): nat {
    if past == [] then 0
    else
      var h := past[|past| - 1];
      Rejected(past[..|past| - 1]) + (if h.step.Call? && !h.admitted then 1 else 0)
  }

  function Calls(past: seq<Happening>): nat {
    if past == [] then 0 else Calls(past[..|past| - 1]) + if past[|past| - 1].step.Call? then 1 else 0
  }
  function Completed(past: seq<Happening>, success: bool): nat {
    if past == [] then 0
    else
      Completed(past[..|past| - 1], success) + if past[|past| - 1].step == Complete(success) then 1 else 0
  }

  ghost predicate Inv(c: Settings, w: World, past: seq<Happening>) {
    && (w.s.phase == Closed ==> w.s.failures == Streak(past) && (c.maxFailures >= 1 ==> Streak(past) < c.maxFailures))
    && w.s.lastFailure == LastFailure(past) && (w.s.phase == Open ==> w.s.lastFailure.Some?)
    && (w.s.phase == HalfOpen ==> EpisodeAdmitted(past) == w.s.halfOpenCalls + 1)
    && (w.s.phase == HalfOpen ==> w.s.halfOpenCalls <= c.halfOpenMaxCalls)
    && (w.s.phase == HalfOpen ==> w.s.successCount == EpisodeSuccesses(past))
    && w.s.totalCalls == Rejected(past) + w.inFlight + w.s.totalSuccesses + w.s.totalFailures
    && w.s.totalCalls == Calls(past)
    && w.s.totalSuccesses == Completed(past, true) && w.s.totalFailures == Completed(past, false)
  }

  lemma CallKeepsInv(c: Settings, w: World, past: seq<Happening>)
    requires Inv(c, w, past)
    ensures var (w', h) := Next(c, w, Call); Inv(c, w', past + [h])
  {
    var h := Next(c, w, Call).1;
    assert (past + [h])[..|past|] == past;
  }

  lemma CompleteKeepsInv(c: Settings, w: World, past: seq<Happening>, success: bool)
    requires Inv(c, w, past)
    ensures var (w', h) := Next(c, w, Complete(success)); Inv(c, w', past + [h])
  {
    var h := Next(c, w, Complete(success)).1;
    assert (past + [h])[..|past|] == past;
  }

  lemma StepKeepsInv(c: Settings, w: World, past: seq<Happening>, step: Step)
    requires Inv(c, w, past)
    ensures var (w', h) := Next(c, w, step); Inv(c, w', past + [h])
  {
    match step
    case Call => CallKeepsInv(c, w, past);
    case Complete(success) => CompleteKeepsInv(c, w, past, success);
    case _ =>
      var h := Next(c, w, step).1;
      assert (past + [h])[..|past|] == past;
  }

  lemma {:induction false} RunKeepsInv(c: Settings, start: int, steps: seq<Step>)
    ensures var (w, past) := Run(c, start, steps); Inv(c, w, past)
  {
    if steps != [] {
      RunKeepsInv(c, start, steps[..|steps| - 1]);
      var (w, past) := Run(c, start, steps[..|steps| - 1]);
      StepKeepsInv(c, w, past, steps[|steps| - 1]);
    }
  }

  // ---- What every run guarantees ----

  lemma {:induction false} HistoryLength(c: Settings, start: int, steps: seq<Step>)
    ensures |Run(c, start, steps).1| == |steps|
  {
    if steps != [] {
      HistoryLength(c, start, steps[..|steps| - 1]);
    }
  }

  /** The k-th happening is the one of the k-th step, after the run of the steps before it. */
  lemma {:induction false} HistoryPrefix(c: Settings, start: int, steps: seq<Step>, k: nat)
    requires k < |steps|
    ensures |Run(c, start, steps).1| == |steps|
    ensures Run(c, start, steps).1[..k] == Run(c, start, steps[..k]).1
    ensures Run(c, start, steps).1[k] == Next(c, Run(c, start, steps[..k]).0, steps[k]).1
  {
    HistoryLength(c, start, steps);
    HistoryLength(c, start, steps[..|steps| - 1]);
    if k == |steps| - 1 {
      assert Run(c, start, steps).1[..k] == Run(c, start, steps[..k]).1;
    } else {
      HistoryPrefix(c, start, steps[..|steps| - 1], k);
      assert steps[..|steps| - 1][..k] == steps[..k];
    }
  }

  /** The state in which the k-th step is taken. */
  lemma WorldBefore(c: Settings, start: int, steps: seq<Step>, k: nat) returns (w: World)
    requires k < |steps|
    ensures var past := Run(c, start, steps).1;
            |past| == |steps| && Inv(c, w, past[..k]) && past[k] == Next(c, w, steps[k]).1
  {
    w := Run(c, start, steps[..k]).0;
    HistoryPrefix(c, start, steps, k);
    RunKeepsInv(c, start, steps[..k]);
  }

  ghost predicate FewFailuresWhenClosed(c: Settings, start: int, steps: seq<Step>) {
    var (w, past) := Run(c, start, steps);
    w.s.phase == Closed ==> Streak(past) < c.maxFailures
  }

  /** While closed, fewer than `maxFailures` failures have come in a row; a breaker whose
      `maxFailures` is 0 starts closed all the same, so exactly the others keep this. */
  lemma ClosedMeansFewFailures(c: Settings, start: int)
    ensures (forall steps :: FewFailuresWhenClosed(c, start, steps)) <==> c.maxFailures >= 1
  {
    if c.maxFailures >= 1 {
      forall steps ensures FewFailuresWhenClosed(c, start, steps) {
        RunKeepsInv(c, start, steps);
      }
    } else {
      assert !FewFailuresWhenClosed(c, start, []);
    }
  }

  /** An open breaker admits a call exactly when the last recorded failure is older than the timeout. */
  lemma OpenAdmitsOnlyAfterTimeout(c: Settings, start: int, steps: seq<Step>, k: nat)
    requires k < |steps|
    ensures var past := Run(c, start, steps).1;
            && k < |past|
            && (past[k].phase == Open && past[k].step.Call? ==>
                  && LastFailure(past[..k]).Some?
                  && (past[k].admitted <==> past[k].time - LastFailure(past[..k]).value > c.resetTimeout))
  {
    var w := WorldBefore(c, start, steps, k);
  }

  // ---- The phase, read off the history ----

  /** The phase right after the k-th happening. */
  function PhaseAfter(c: Settings, start: int, steps: seq<Step>, k: nat): Phase
    requires k < |steps|
  {
    Run(c, start, steps[..k + 1]).0.s.phase
  }

  lemma PhaseBetween(c: Settings, start: int, steps: seq<Step>, k: nat)
    requires k < |steps|
    ensures var past := Run(c, start, steps).1;
            |past| == |steps| && (k + 1 < |steps| ==> PhaseAfter(c, start, steps, k) == past[k + 1].phase)
  {
    HistoryLength(c, start, steps);
    if k + 1 < |steps| {
      HistoryPrefix(c, start, steps, k + 1);
    }
  }

  /** A completed failure opens the breaker, or keeps it open. */
  predicate Trips(c: Settings, past: seq<Happening>, h: Happening) {
    && h.step.Complete? && !h.step.success
    && (h.phase == Closed ==> Streak(past) + 1 >= c.maxFailures)
  }

  /** A reset, or the success that completes a half-open episode. */
  predicate Closes(c: Settings, past: seq<Happening>, h: Happening) {
    || h.step.Reset?
    || (h.step.Complete? && h.step.success && h.phase == HalfOpen && EpisodeSuccesses(past) + 1 >= c.halfOpenMaxCalls)
  }

  /** When the phase changes, in every interleaving and at every happening: it becomes open exactly at a
      failure completed while half-open, or one that brings the failures in a row while closed to
      `maxFailures`; half-open exactly at a call admitted while open; closed exactly at a reset or at the
      success that brings those of the episode to `halfOpenMaxCalls`. */
  lemma PhaseChanges(c: Settings, start: int, steps: seq<Step>, k: nat)
    requires k < |steps|
    ensures var past := Run(c, start, steps).1;
            && k < |past|
            && var h, after := past[k], PhaseAfter(c, start, steps, k);
            && (h.phase != Open ==> (after == Open <==> Trips(c, past[..k], h)))
            && (h.phase != HalfOpen ==> (after == HalfOpen <==> h.phase == Open && h.step.Call? && h.admitted))
            && (h.phase != Closed ==> (after == Closed <==> Closes(c, past[..k], h)))
  {
    var past := Run(c, start, steps).1;
    HistoryPrefix(c, start, steps, k);
    RunKeepsInv(c, start, steps[..k]);
    assert steps[..k + 1][..k] == steps[..k];
    PhaseStep(c, Run(c, start, steps[..k]).0, past[..k], steps[k]);
  }

  lemma PhaseStep(c: Settings, w: World, past: seq<Happening>, step: Step)
    requires Inv(c, w, past)
    ensures var (w', h) := Next(c, w, step);
            && h.phase == w.s.phase
            && (h.phase != Open ==> (w'.s.phase == Open <==> Trips(c, past, h)))
            && (h.phase != HalfOpen ==> (w'.s.phase == HalfOpen <==> h.phase == Open && h.step.Call? && h.admitted))
            && (h.phase != Closed ==> (w'.s.phase == Closed <==> Closes(c, past, h)))
  {
  }

  /** Which calls get in: every one while closed, while open exactly those later than the timeout, while
      half-open exactly until `halfOpenMaxCalls` besides the first have got in. */
  lemma AdmittedIff(c: Settings, start: int, steps: seq<Step>, k: nat)
    requires k < |steps|
    ensures var past := Run(c, start, steps).1;
            && k < |past|
            && (past[k].admitted ==> past[k].step == Call)
            && (past[k].step == Call ==>
                  (past[k].admitted <==>
                     match past[k].phase
                     case Closed => true
                     case Open =>
                       var last := LastFailure(past[..k]);
                       last.Some? && past[k].time - last.value > c.resetTimeout
                     case HalfOpen => EpisodeAdmitted(past[..k]) <= c.halfOpenMaxCalls))
  {
    var w := WorldBefore(c, start, steps, k);
  }

  /** A half-open episode: opened by one admitted call, then half-open throughout. */
  predicate Episode(past: seq<Happening>, i: nat, j: nat) {
    i < j <= |past| && past[i].admitted && past[i].phase == Open && forall k :: i < k < j ==> past[k].phase == HalfOpen
  }

  function Admitted(past: seq<Happening>): nat {
    if past == [] then 0
    else
      Admitted(past[..|past| - 1]) + (if past[|past| - 1].admitted then 1 else 0)
  }

  lemma {:induction false} EpisodeCount(past: seq<Happening>, i: nat, j: nat)
    requires Episode(past, i, j)
    ensures EpisodeAdmitted(past[..j]) == Admitted(past[i..j])
    decreases j
  {
    assert past[..j][..j - 1] == past[..j - 1];
    assert past[i..j][..j - i - 1] == past[i..j - 1];
    if j > i + 1 {
      EpisodeCount(past, i, j - 1);
    }
  }

  lemma EpisodeAfter(c: Settings, w: World, past: seq<Happening>, step: Step)
    requires Inv(c, w, past)
    ensures var h := Next(c, w, step).1;
            h.phase == HalfOpen || (h.phase == Open && h.admitted) ==>
              EpisodeAdmitted(past + [h]) <= c.halfOpenMaxCalls + 1
  {
    var h := Next(c, w, step).1;
    assert (past + [h])[..|past|] == past;
  }

  /** One half-open episode admits at most `halfOpenMaxCalls` calls besides the one that started it. */
  lemma EpisodeBound(c: Settings, start: int, steps: seq<Step>, i: nat, j: nat)
    requires Episode(Run(c, start, steps).1, i, j)
    ensures Admitted(Run(c, start, steps).1[i..j]) <= c.halfOpenMaxCalls + 1
  {
    var past := Run(c, start, steps).1;
    HistoryLength(c, start, steps);
    var w := WorldBefore(c, start, steps, j - 1);
    EpisodeAfter(c, w, past[..j - 1], steps[j - 1]);
    assert past[..j] == past[..j - 1] + [past[j - 1]];
    EpisodeCount(past, i, j);
  }

  /** Every call is accounted for, and the counters are what the history counts. */
  lemma {:induction false} CallsBalance(c: Settings, start: int, steps: seq<Step>)
    ensures var (w, past) := Run(c, start, steps);
            && w.s.totalCalls == Rejected(past) + w.inFlight + w.s.totalSuccesses + w.s.totalFailures
            && w.s.totalCalls == Calls(past)
            && w.s.totalSuccesses == Completed(past, true) && w.s.totalFailures == Completed(past, false)
  {
    RunKeepsInv(c, start, steps);
  }

  lemma RunOneMore(c: Settings, start: int, steps: seq<Step>, step: Step)
    ensures var (w, past) := Run(c, start, steps);
            var (w', h) := Next(c, w, step);
            Run(c, start, steps + [step]) == (w', past + [h])
  {
    assert (steps + [step])[..|steps|] == steps;
  }

  /** Failures in a row that open a closed breaker; the first one always counts. */
  function Needed(c: Settings): nat { if c.maxFailures == 0 then 1 else c.maxFailures }

  lemma {:induction false} FailCalls(c: Settings, start: int, count: nat) returns (steps: seq<Step>)
    requires count <= Needed(c)
    ensures var w := Run(c, start, steps).0;
            && w.now == start && w.inFlight == 0
            && (count < Needed(c) ==> w.s.phase == Closed && w.s.failures == count)
            && (count == Needed(c) ==> w.s.phase == Open && w.s.lastFailure == Some(start))
  {
    if count == 0 {
      steps := [];
    } else {
      steps := FailCalls(c, start, count - 1);
      RunOneMore(c, start, steps, Call);
      RunOneMore(c, start, steps + [Call], Complete(false));
      steps := steps + [Call] + [Complete(false)];
    }
  }

  /** Some run ends with a half-open episode that began with its last call. */
  lemma HalfOpenRun(c: Settings, start: int) returns (steps: seq<Step>, i: nat)
    ensures var (w, past) := Run(c, start, steps);
            && w.s.phase == HalfOpen && w.s.halfOpenCalls == 0
            && Episode(past, i, |past|) && Admitted(past[i..]) == 1
  {
    steps := FailCalls(c, start, Needed(c));
    var wait := Wait(if c.resetTimeout < 0 then 0 else c.resetTimeout + 1);
    RunOneMore(c, start, steps, wait);
    RunOneMore(c, start, steps + [wait], Call);
    i := |Run(c, start, steps + [wait]).1|;
    steps := steps + [wait] + [Call];
    var past := Run(c, start, steps).1;
    assert past[i..] == [past[i]] && past[i..][..0] == [];
  }

  lemma AdmittedAppend(past: seq<Happening>, h: Happening)
    ensures Admitted(past + [h]) == Admitted(past) + if h.admitted then 1 else 0
  {
    assert (past + [h])[..|past|] == past;
  }

  lemma {:induction false} MoreCalls(c: Settings, start: int, steps: seq<Step>, i: nat, count: nat)
    returns (more: seq<Step>)
    requires var (w, past) := Run(c, start, steps);
             && w.s.phase == HalfOpen && w.s.halfOpenCalls + count <= c.halfOpenMaxCalls
             && Episode(past, i, |past|)
    ensures var past, past' := Run(c, start, steps).1, Run(c, start, more).1;
            Episode(past', i, |past'|) && Admitted(past'[i..]) == Admitted(past[i..]) + count
    decreases count
  {
    if count == 0 {
      more := steps;
    } else {
      var (w, past) := Run(c, start, steps);
      var h := Next(c, w, Call).1;
      RunOneMore(c, start, steps, Call);
      assert (past + [h])[i..] == past[i..] + [h];
      AdmittedAppend(past[i..], h);
      more := MoreCalls(c, start, steps + [Call], i, count - 1);
    }
  }

  /** The extra call does get in: whatever the settings, some run has an episode that admits
      `halfOpenMaxCalls` plus one calls. */
  lemma EpisodeBoundIsReached(c: Settings, start: int) returns (steps: seq<Step>, i: nat, j: nat)
    ensures var past := Run(c, start, steps).1;
            Episode(past, i, j) && Admitted(past[i..j]) == c.halfOpenMaxCalls + 1
  {
    steps, i := HalfOpenRun(c, start);
    steps := MoreCalls(c, start, steps, i, c.halfOpenMaxCalls);
    j := |Run(c, start, steps).1|;
    assert Run(c, start, steps).1[i..j] == Run(c, start, steps).1[i..];
  }
}
