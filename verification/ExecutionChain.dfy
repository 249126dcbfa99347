/** One execution of a job through its middleware chain: core/common.go, the
    overlap and reporting middlewares, and the wrapper of core/scheduler.go with
    the retry loop of core/retry.go around it. The chain is re-entrant: every
    middleware calls back into `Next`, which moves a cursor shared by all of
    them. Other executions of the same job may come and go meanwhile: `others(i)`
    is how many are in flight when position `i` looks. */
module ExecutionChain {
  import opened Prelude

  datatype Error = SkippedExecution | JobError(code: int) | ContextDone | Wrapped(context: string, inner: Error)

  predicate IsSkipped(e: Error) {
    match e
    case SkippedExecution => true
    case JobError(_) => false
    case ContextDone => false
    case Wrapped(_, inner) => IsSkipped(inner)
  }

  /** The error after unwrapping `k` times. */
  function Unwrapped(e: Error, k: nat): Option<Error> {
    if k == 0 then Some(e)
    else if e.Wrapped? then Unwrapped(e.inner, k - 1)
    else None
  }

  /** The chain of wrapped errors contains the skip error. */
  ghost predicate HasSkip(e: Error) { exists k: nat :: Unwrapped(e, k) == Some(SkippedExecution) }

  lemma {:induction false} SkippedIff(e: Error)
    ensures IsSkipped(e) <==> HasSkip(e)
  {
    if e.Wrapped? {
      SkippedIff(e.inner);
      if k: nat :| Unwrapped(e.inner, k) == Some(SkippedExecution) {
        assert Unwrapped(e, k + 1) == Some(SkippedExecution);
      }
      if k: nat :| Unwrapped(e, k) == Some(SkippedExecution) {
        assert k > 0 && Unwrapped(e.inner, k - 1) == Some(SkippedExecution);
      }
    } else {
      assert Unwrapped(e, 0) == Some(e);
    }
  }

  /** Overlap middleware; a reporter that always runs and reports after the rest
      of the chain (webhook, mail, slack, save); a composite of several reporters. */
  datatype Middleware = Overlap(noOverlap: bool) | Reporter | Composite(inner: nat) {
    predicate ContinueOnStop() { !Overlap? }
  }

  datatype Verdict = Verdict(failed: bool, skipped: bool, error: Option<Error>)
  const UNDECIDED := Verdict(false, false, None)

  /** What `Execution.Stop` records. */
  function VerdictOf(err: Option<Error>): Verdict {
    if err.None? then UNDECIDED
    else if IsSkipped(err.value) then Verdict(false, true, None)
    else Verdict(true, false, err)
  }

  datatype Event =
    | Enter(position: nat)
    | JobRun
    | Stopped(err: Option<Error>)
    | Report(position: nat, slot: nat, seen: Verdict)

  const JOB_RUN := "job run"

  function JobErr(outcome: Option<Error>): Option<Error> {
    if outcome.None? then None else Some(Wrapped(JOB_RUN, outcome.value))
  }

  predicate Overlaps(m: Middleware, others: int) { m.Overlap? && m.noOverlap && 1 + others > 1 }

  // ---- The run as a function of the chain ----

  /** The error of the first stop, when `Next` is called at position `i` of a running execution. */
  function FirstStop(ms: seq<Middleware>, i: nat, others: nat -> int, outcome: Option<Error>): Option<Error>
    requires i <= |ms|
    decreases |ms| - i
  {
    if i == |ms| then JobErr(outcome)
    else if Overlaps(ms[i], others(i)) then Some(SkippedExecution)
    else FirstStop(ms, i + 1, others, outcome)
  }

  function Reports(position: nat, count: nat, seen: Verdict): seq<Event> {
    seq(count, (k: nat) => Report(position, k, seen))
  }

  function ReportsOf(m: Middleware, position: nat, seen: Verdict): seq<Event> {
    match m
    case Overlap(_) => []
    case Reporter => Reports(position, 1, seen)
    case Composite(n) => Reports(position, n, seen)
  }

  /** The events of a call of `Next` at position `i` once the execution has stopped with verdict `v`. */
  function StoppedTrace(ms: seq<Middleware>, i: nat, v: Verdict): seq<Event>
    requires i <= |ms|
    decreases |ms| - i
  {
    if i == |ms| then []
    else if !ms[i].ContinueOnStop() then StoppedTrace(ms, i + 1, v)
    else [Enter(i)] + StoppedTrace(ms, i + 1, v) + ReportsOf(ms[i], i, v)
  }

  /** The events of a call of `Next` at position `i` of a running execution. */
  function RunningTrace(ms: seq<Middleware>, i: nat, others: nat -> int, outcome: Option<Error>): seq<Event>
    requires i <= |ms|
    decreases |ms| - i
  {
    if i == |ms| then [JobRun, Stopped(JobErr(outcome))]
    else if Overlaps(ms[i], others(i)) then
      [Enter(i), Stopped(Some(SkippedExecution))] + StoppedTrace(ms, i + 1, VerdictOf(Some(SkippedExecution)))
    else
      [Enter(i)] + RunningTrace(ms, i + 1, others, outcome)
        + ReportsOf(ms[i], i, VerdictOf(FirstStop(ms, i, others, outcome)))
  }

  class Context {
    const middlewares: seq<Middleware>
    const others: nat -> int
    const outcome: Option<Error>
    const answer: Option<Error> // what Next answers its callers; the source answers nil on every path
    var current: nat
    var executed: bool
    var isRunning: bool
    var verdict: Verdict
    var running: int // what this execution adds to the job's counter of running executions
    ghost var log: seq<Event>

    constructor (middlewares: seq<Middleware>, others: nat -> int, outcome: Option<Error>, answer: Option<Error>)
      ensures Valid() && Fresh() && log == []
      ensures this.middlewares == middlewares && this.others == others
      ensures this.outcome == outcome && this.answer == answer
    {
      this.middlewares, this.others, this.outcome, this.answer := middlewares, others, outcome, answer;
      current, executed, isRunning, verdict, running, log := 0, false, false, UNDECIDED, 0, [];
    }

    ghost predicate Valid() reads this {
      && current <= |middlewares|
      && (isRunning ==> verdict == UNDECIDED && !executed)
      && running == (if isRunning then 1 else 0)
    }

    ghost predicate Fresh() reads this {
      current == 0 && !isRunning && !executed && verdict == UNDECIDED
    }

    method Start()
      requires Valid() && Fresh()
      modifies this`isRunning, this`running
      ensures Valid() && isRunning
    {
      isRunning := true;
      running := running + 1;
    }

    /** Only the first stop counts. */
    method Stop(err: Option<Error>)
      requires isRunning ==> verdict == UNDECIDED
      modifies this`isRunning, this`verdict, this`running, this`log
      ensures !isRunning
      ensures old(isRunning) ==> verdict == VerdictOf(err) && running == old(running) - 1
      ensures old(isRunning) ==> log == old(log) + [Stopped(err)]
      ensures !old(isRunning) ==> verdict == old(verdict) && running == old(running) && log == old(log)
      ensures old(isRunning) ==> (verdict.skipped <==> err.Some? && HasSkip(err.value))
      ensures old(isRunning) ==> (verdict.failed <==> err.Some? && !HasSkip(err.value))
      ensures old(isRunning) ==> verdict.error == if verdict.failed then err else None
    {
      if !isRunning {
        return;
      }
      if err.Some? {
        SkippedIff(err.value);
      }
      isRunning := false;
      if err.Some? && !IsSkipped(err.value) {
        verdict := verdict.(error := err, failed := true);
      } else if err.Some? {
        verdict := verdict.(skipped := true);
      }
      log := log + [Stopped(err)];
      running := running - 1;
    }

    /** The events of a call of `Next` from the old state. */
    twostate function NextTrace(): seq<Event>
      requires old(current) <= |middlewares|
      reads this
    {
      if old(isRunning) then RunningTrace(middlewares, old(current), others, outcome)
      else StoppedTrace(middlewares, old(current), old(verdict))
    }

    /** The verdict after a call of `Next` from the old state. */
    twostate function NextVerdict(): Verdict
      requires old(current) <= |middlewares|
      reads this
    {
      if old(isRunning) then VerdictOf(FirstStop(middlewares, old(current), others, outcome)) else old(verdict)
    }

    twostate predicate Finished() reads this {
      Valid() && !isRunning && current == |middlewares| && (!old(isRunning) ==> executed == old(executed))
    }

    method Next() returns (err: Option<Error>)
      requires Valid()
      modifies this`current, this`executed, this`isRunning, this`verdict, this`running, this`log
      ensures Finished() && verdict == NextVerdict() && log == old(log) + NextTrace() && err == answer
      decreases |middlewares| - current, 2
    {
      var e := DoNext();
      if e.Some? || executed {
        Stop(e);
      }
      err := answer;
    }

    method DoNext() returns (err: Option<Error>)
      requires Valid()
      modifies this`current, this`executed, this`isRunning, this`verdict, this`running, this`log
      ensures old(isRunning) && old(current) == |middlewares| ==>
                && isRunning && executed && err == JobErr(outcome) && verdict == old(verdict)
                && current == |middlewares| && running == old(running) && log == old(log) + [JobRun]
      ensures !(old(isRunning) && old(current) == |middlewares|) ==>
                Finished() && verdict == NextVerdict() && log == old(log) + NextTrace()
      decreases |middlewares| - current, 1
    {
      while current < |middlewares|
        invariant old(current) <= current <= |middlewares|
        invariant unchanged(this`executed, this`isRunning, this`verdict, this`running, this`log)
        invariant isRunning ==> current == old(current)
        invariant !isRunning ==>
                    StoppedTrace(middlewares, old(current), verdict) == StoppedTrace(middlewares, current, verdict)
      {
        var m := middlewares[current];
        current := current + 1;
        if !isRunning && !m.ContinueOnStop() {
          continue;
        }
        var e := Run(m);
        return if e.Some? then Some(Wrapped("middleware run", e.value)) else None;
      }
      if !isRunning {
        return None;
      }
      executed := true;
      log := log + [JobRun];
      err := JobErr(outcome);
    }

    method Run(m: Middleware) returns (err: Option<Error>)
      requires Valid() && 0 < current && m == middlewares[current - 1] && (isRunning || m.ContinueOnStop())
      modifies this`current, this`executed, this`isRunning, this`verdict, this`running, this`log
      ensures Finished()
      ensures old(isRunning) ==>
                && verdict == VerdictOf(FirstStop(middlewares, old(current) - 1, others, outcome))
                && log == old(log) + RunningTrace(middlewares, old(current) - 1, others, outcome)
      ensures !old(isRunning) ==>
                && verdict == old(verdict)
                && log == old(log) + StoppedTrace(middlewares, old(current) - 1, verdict)
      decreases |middlewares| - current, 5
    {
      ghost var position := current - 1;
      log := log + [Enter(position)];
      match m
      case Overlap(noOverlap) =>
        err := RunOverlap(noOverlap);
      case Reporter =>
        err := RunReporter(position, 0);
        assert Reports(position, 1, verdict) == [Report(position, 0, verdict)];
      case Composite(inner) =>
        err := RunComposite(inner, position);
    }

    /** Skips the execution when another one of the same job is in flight. */
    method RunOverlap(noOverlap: bool) returns (err: Option<Error>)
      requires Valid() && 0 < current && isRunning
      modifies this`current, this`executed, this`isRunning, this`verdict, this`running, this`log
      ensures Finished()
      ensures if noOverlap && 1 + others(old(current) - 1) > 1
              then verdict == VerdictOf(Some(SkippedExecution))
                && log == old(log) + [Stopped(Some(SkippedExecution))]
                          + StoppedTrace(middlewares, old(current), verdict)
              else verdict == NextVerdict() && log == old(log) + NextTrace()
      decreases |middlewares| - current, 3
    {
      if noOverlap && running + others(current - 1) > 1 {
        Stop(Some(SkippedExecution));
      }
      err := Next();
    }

    method RunReporter(ghost position: nat, ghost slot: nat) returns (err: Option<Error>)
      requires Valid()
      modifies this`current, this`executed, this`isRunning, this`verdict, this`running, this`log
      ensures Finished() && verdict == NextVerdict()
      ensures log == old(log) + NextTrace() + [Report(position, slot, verdict)]
      decreases |middlewares| - current, 3
    {
      err := Next();
      Stop(err);
      log := log + [Report(position, slot, verdict)];
    }

    method RunComposite(inner: nat, ghost position: nat) returns (err: Option<Error>)
      requires Valid()
      modifies this`current, this`executed, this`isRunning, this`verdict, this`running, this`log
      ensures Finished() && verdict == NextVerdict()
      ensures log == old(log) + NextTrace() + Reports(position, inner, verdict)
      decreases |middlewares| - current, 4
    {
      err := Next();
      Stop(err);
      ghost var before, v := log, verdict;
      for k := 0 to inner
        invariant Finished() && verdict == v
        invariant log == before + Reports(position, k, v)
      {
        var _ := RunReporter(position, k);
      }
    }

    /** The retry loop around the chain; `canceled(k)` says whether the wait after attempt `k` is cut short.
        A second call of `Next` finds the chain spent, so a retry can never run anything again. */
    method ExecuteWithRetry(maxRetries: int, canceled: nat -> bool) returns (err: Option<Error>)
      requires Valid()
      modifies this`current, this`executed, this`isRunning, this`verdict, this`running, this`log
      ensures Finished() && verdict == NextVerdict() && log == old(log) + NextTrace()
      ensures answer == None ==> err == None
    {
      if maxRetries <= 0 {
        err := Next();
        return;
      }
      var lastErr: Option<Error> := None;
      var attempt := 0;
      while attempt <= maxRetries
        invariant 0 <= attempt
        invariant attempt == 0 ==> unchanged(this)
        invariant attempt > 0 ==> Finished() && verdict == NextVerdict() && log == old(log) + NextTrace()
        invariant attempt > 0 ==> answer.Some?
      {
        var e := Next();
        if e.None? {
          return None;
        }
        lastErr := e;
        if attempt >= maxRetries {
          break;
        }
        if canceled(attempt) {
          return Some(Wrapped("job retry interrupted", ContextDone));
        }
        attempt := attempt + 1;
      }
      err := if lastErr.Some? then Some(Wrapped("job failed", lastErr.value)) else None;
    }

    /** One firing of the job, as the scheduler runs it. */
    method RunWithCtx(schedulerRunning: bool, maxRetries: int, canceled: nat -> bool) returns (reported: Option<bool>)
      requires Valid() && Fresh()
      modifies this`current, this`executed, this`isRunning, this`verdict, this`running, this`log
      ensures Valid() && running == old(running)
      ensures !schedulerRunning ==> log == old(log) && verdict == old(verdict) && reported == None
      ensures schedulerRunning ==>
                && log == old(log) + RunningTrace(middlewares, 0, others, outcome)
                && verdict == VerdictOf(FirstStop(middlewares, 0, others, outcome))
                && (answer == None ==> reported == Some(!verdict.failed))
      ensures schedulerRunning ==>
                var overlap := OverlapFound(middlewares, others);
                var jobSkips := JobSkips(outcome);
                && (verdict.skipped <==> overlap || jobSkips)
                && (verdict.failed <==> !overlap && outcome.Some? && !jobSkips)
                && (verdict.failed ==> verdict.error == Some(Wrapped(JOB_RUN, outcome.value)))
                && (!verdict.failed ==> verdict.error == None)
                && (answer == None ==> (reported == Some(false) <==> !overlap && outcome.Some? && !jobSkips))
    {
      if !schedulerRunning {
        return None;
      }
      VerdictIs(middlewares, others, outcome);
      Start();
      var err := ExecuteWithRetry(maxRetries, canceled);
      Stop(err);
      reported := Some(err.None? && !verdict.failed);
    }
  }

  // ---- What every such run guarantees ----

  /** The first overlap, if any, lies at or after position `i` and before `end`. */
  predicate SkippedBefore(ms: seq<Middleware>, i: nat, end: nat, others: nat -> int)
    requires end <= |ms|
  {
    exists p :: i <= p < end && Overlaps(ms[p], others(p))
  }

  function Slots(m: Middleware): nat {
    match m case Overlap(_) => 0 case Reporter => 1 case Composite(n) => n
  }

  predicate ReportedOnce(ms: seq<Middleware>, i: nat, e: Event, v: Verdict) {
    e.Report? && i <= e.position < |ms| && e.slot < Slots(ms[e.position]) && e.seen == v
  }

  lemma ReportsCount(m: Middleware, position: nat, v: Verdict, e: Event)
    ensures multiset(ReportsOf(m, position, v))[e]
         == if e.Report? && e.position == position && e.slot < Slots(m) && e.seen == v then 1 else 0
  {
    ReportsCountUpTo(position, Slots(m), v, e);
    assert m.Overlap? ==> Reports(position, 0, v) == [];
  }

  lemma {:induction false} ReportsCountUpTo(position: nat, count: nat, v: Verdict, e: Event)
    ensures multiset(Reports(position, count, v))[e]
         == if e.Report? && e.position == position && e.slot < count && e.seen == v then 1 else 0
  {
    if count > 0 {
      ReportsCountUpTo(position, count - 1, v, e);
      assert Reports(position, count, v) == Reports(position, count - 1, v) + [Report(position, count - 1, v)];
    }
  }

  /** How often an event occurs in a call of `Next` at position `i` of a stopped execution. */
  function StoppedCount(ms: seq<Middleware>, i: nat, v: Verdict, e: Event): nat {
    match e
    case Enter(p) => if i <= p < |ms| && ms[p].ContinueOnStop() then 1 else 0
    case JobRun => 0
    case Stopped(_) => 0
    case Report(_, _, _) => if ReportedOnce(ms, i, e, v) then 1 else 0
  }

  lemma {:induction false} StoppedTraceCount(ms: seq<Middleware>, i: nat, v: Verdict, e: Event)
    requires i <= |ms|
    ensures multiset(StoppedTrace(ms, i, v))[e] == StoppedCount(ms, i, v, e)
    decreases |ms| - i
  {
    if i < |ms| {
      StoppedTraceCount(ms, i + 1, v, e);
      ReportsCount(ms[i], i, v, e);
    }
  }

  /** How often an event occurs in the run of a chain, which leaves nothing open: the job
      runs once unless some overlap is found, a position is entered once if it always runs
      or no overlap precedes it, there is one stop, and every reporter and every inner
      webhook reports once, seeing the final verdict. */
  function RunningCount(ms: seq<Middleware>, i: nat, others: nat -> int, outcome: Option<Error>, e: Event): nat
    requires i <= |ms|
  {
    match e
    case Enter(p) => if i <= p < |ms| && (ms[p].ContinueOnStop() || !SkippedBefore(ms, i, p, others)) then 1 else 0
    case JobRun => if SkippedBefore(ms, i, |ms|, others) then 0 else 1
    case Stopped(err) => if err == FirstStop(ms, i, others, outcome) then 1 else 0
    case Report(_, _, _) => if ReportedOnce(ms, i, e, VerdictOf(FirstStop(ms, i, others, outcome))) then 1 else 0
  }

  lemma SkippedBeforeStep(ms: seq<Middleware>, i: nat, end: nat, others: nat -> int)
    requires i < end <= |ms|
    ensures SkippedBefore(ms, i, end, others) <==> Overlaps(ms[i], others(i)) || SkippedBefore(ms, i + 1, end, others)
  {
  }

  lemma OverlapCount(ms: seq<Middleware>, i: nat, others: nat -> int, outcome: Option<Error>, e: Event)
    requires i < |ms| && Overlaps(ms[i], others(i))
    ensures RunningCount(ms, i, others, outcome, e)
         == multiset([Enter(i), Stopped(Some(SkippedExecution))])[e]
            + StoppedCount(ms, i + 1, VerdictOf(Some(SkippedExecution)), e)
  {
    if e.Enter? && i < e.position < |ms| {
      SkippedBeforeStep(ms, i, e.position, others);
    }
    SkippedBeforeStep(ms, i, |ms|, others);
  }

  lemma NoOverlapCount(ms: seq<Middleware>, i: nat, others: nat -> int, outcome: Option<Error>, e: Event)
    requires i < |ms| && !Overlaps(ms[i], others(i))
    ensures RunningCount(ms, i, others, outcome, e)
         == multiset([Enter(i)])[e] + RunningCount(ms, i + 1, others, outcome, e)
            + multiset(ReportsOf(ms[i], i, VerdictOf(FirstStop(ms, i, others, outcome))))[e]
  {
    if e.Enter? && i < e.position < |ms| {
      SkippedBeforeStep(ms, i, e.position, others);
    }
    SkippedBeforeStep(ms, i, |ms|, others);
    ReportsCount(ms[i], i, VerdictOf(FirstStop(ms, i, others, outcome)), e);
  }

  lemma {:induction false} RunningTraceCount(ms: seq<Middleware>, i: nat, others: nat -> int,
                                             outcome: Option<Error>, e: Event)
    requires i <= |ms|
    ensures multiset(RunningTrace(ms, i, others, outcome))[e] == RunningCount(ms, i, others, outcome, e)
    decreases |ms| - i
  {
    if i == |ms| {
    } else if Overlaps(ms[i], others(i)) {
      OverlapCount(ms, i, others, outcome, e);
      StoppedTraceCount(ms, i + 1, VerdictOf(Some(SkippedExecution)), e);
    } else {
      NoOverlapCount(ms, i, others, outcome, e);
      RunningTraceCount(ms, i + 1, others, outcome, e);
    }
  }

  predicate ReportsAfter(t: seq<Event>, k: nat) {
    k < |t| && t[k].Stopped? && forall j :: 0 <= j <= k ==> !t[j].Report?
  }

  /** Reports come after the stop that fixed the verdict they see. */
  lemma {:induction false} ReportsFollowStop(ms: seq<Middleware>, i: nat, others: nat -> int, outcome: Option<Error>)
    returns (k: nat)
    requires i <= |ms|
    ensures ReportsAfter(RunningTrace(ms, i, others, outcome), k)
    decreases |ms| - i
  {
    if i == |ms| || Overlaps(ms[i], others(i)) {
      k := 1;
    } else {
      k := ReportsFollowStop(ms, i + 1, others, outcome);
      k := k + 1;
    }
  }

  /** The verdict is the job's own, or a skip as soon as one overlap is found. */
  lemma {:induction false} FirstStopIs(ms: seq<Middleware>, i: nat, others: nat -> int, outcome: Option<Error>)
    requires i <= |ms|
    ensures FirstStop(ms, i, others, outcome)
         == if SkippedBefore(ms, i, |ms|, others) then Some(SkippedExecution) else JobErr(outcome)
    decreases |ms| - i
  {
    if i < |ms| {
      FirstStopIs(ms, i + 1, others, outcome);
    }
  }

  /** Some overlap middleware finds another execution in flight. */
  ghost predicate OverlapFound(ms: seq<Middleware>, others: nat -> int) {
    exists p :: 0 <= p < |ms| && ms[p].Overlap? && ms[p].noOverlap && others(p) >= 1
  }

  /** What an execution comes to: skipped if an overlap was found or the job's error is a skip, however
      deeply wrapped; failed, with that error, if the job gave any other. */
  lemma VerdictIs(ms: seq<Middleware>, others: nat -> int, outcome: Option<Error>)
    ensures VerdictOf(FirstStop(ms, 0, others, outcome)).skipped
       <==> OverlapFound(ms, others) || JobSkips(outcome)
    ensures VerdictOf(FirstStop(ms, 0, others, outcome)).failed
       <==> !OverlapFound(ms, others) && outcome.Some? && !JobSkips(outcome)
    ensures VerdictOf(FirstStop(ms, 0, others, outcome)).failed ==>
              VerdictOf(FirstStop(ms, 0, others, outcome)).error == Some(Wrapped(JOB_RUN, outcome.value))
    ensures !VerdictOf(FirstStop(ms, 0, others, outcome)).failed ==>
              VerdictOf(FirstStop(ms, 0, others, outcome)).error == None
  {
    FirstStopIs(ms, 0, others, outcome);
    assert SkippedBefore(ms, 0, |ms|, others) <==> OverlapFound(ms, others);
    if outcome.Some? {
      SkippedIff(outcome.value);
    }
  }

  /** The job's own error is a skip. */
  ghost predicate JobSkips(outcome: Option<Error>) { outcome.Some? && HasSkip(outcome.value) }

  // ---- The order of events ----

  /** Every event of a call of `Next` at position `i` concerns a position from `i` on. */
  predicate Concerns(e: Event, i: nat) {
    (e.Enter? ==> e.position >= i) && (e.Report? ==> e.position >= i)
  }

  /** What may come before what: positions are entered outside in, reports come inside out and slot by
      slot, no position is entered once reports have begun, and the job runs before the stop and after
      every entry. */
  predicate MayPrecede(d: Event, e: Event) {
    match d
    case Enter(p) => e.Enter? ==> p < e.position
    case JobRun => !e.Enter? && !e.JobRun?
    case Stopped(_) => !e.JobRun? && !e.Stopped?
    case Report(p, k, _) => e.Report? && (p > e.position || (p == e.position && k < e.slot))
  }

  ghost predicate InOrder(t: seq<Event>, i: nat) {
    (forall a, b :: 0 <= a < b < |t| ==> MayPrecede(t[a], t[b])) && (forall a :: 0 <= a < |t| ==> Concerns(t[a], i))
  }

  lemma Wraps(head: seq<Event>, inner: seq<Event>, m: Middleware, i: nat, v: Verdict)
    requires InOrder(inner, i + 1) && (head == [Enter(i)] || head == [])
    ensures InOrder(head + inner + ReportsOf(m, i, v), i)
  {
    var reports := ReportsOf(m, i, v);
    var t := head + inner + reports;
    forall a, b | 0 <= a < b < |t| ensures MayPrecede(t[a], t[b]) {
      assert t[a] == EventAt(head, inner, reports, a) && t[b] == EventAt(head, inner, reports, b);
    }
    forall a | 0 <= a < |t| ensures Concerns(t[a], i) {
      assert t[a] == EventAt(head, inner, reports, a);
    }
  }

  function EventAt(x: seq<Event>, y: seq<Event>, z: seq<Event>, a: nat): Event
    requires a < |x| + |y| + |z|
  {
    if a < |x| then x[a] else if a < |x| + |y| then y[a - |x|] else z[a - |x| - |y|]
  }

  lemma {:induction false} StoppedTraceInOrder(ms: seq<Middleware>, i: nat, v: Verdict)
    requires i <= |ms|
    ensures InOrder(StoppedTrace(ms, i, v), i)
    ensures forall e :: e in StoppedTrace(ms, i, v) ==> e.Enter? || e.Report?
    decreases |ms| - i
  {
    if i < |ms| {
      StoppedTraceInOrder(ms, i + 1, v);
      Wraps([Enter(i)], StoppedTrace(ms, i + 1, v), ms[i], i, v);
    }
  }

  /** The order of everything that happens in the run of a chain. */
  lemma {:induction false} TraceInOrder(ms: seq<Middleware>, i: nat, others: nat -> int, outcome: Option<Error>)
    requires i <= |ms|
    ensures InOrder(RunningTrace(ms, i, others, outcome), i)
    decreases |ms| - i
  {
    if i < |ms| && !Overlaps(ms[i], others(i)) {
      TraceInOrder(ms, i + 1, others, outcome);
      Wraps([Enter(i)], RunningTrace(ms, i + 1, others, outcome), ms[i], i,
            VerdictOf(FirstStop(ms, i, others, outcome)));
    } else if i < |ms| {
      var v := VerdictOf(Some(SkippedExecution));
      StoppedTraceInOrder(ms, i + 1, v);
      SkipInOrder(StoppedTrace(ms, i + 1, v), i);
    }
  }

  lemma SkipInOrder(inner: seq<Event>, i: nat)
    requires InOrder(inner, i + 1) && forall e :: e in inner ==> e.Enter? || e.Report?
    ensures InOrder([Enter(i), Stopped(Some(SkippedExecution))] + inner, i)
  {
    var t := [Enter(i), Stopped(Some(SkippedExecution))] + inner;
    assert forall a :: 2 <= a < |t| ==> t[a] == inner[a - 2] && t[a] in inner;
  }
}
