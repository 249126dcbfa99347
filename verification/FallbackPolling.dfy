/** The event-stream fallback of cli/docker_config_handler.go as interleaved
    steps. A failed stream spawns a goroutine that becomes the poller when it
    gets the lock; a recovered stream cancels the poller, which steps down when
    it notices. The flag and the stored cancel function are the shared state. */
module FallbackPolling {
  import opened Prelude

  /** `pending` goroutines have been spawned and have not reached the lock yet;
      `live` maps each running poller to whether its context is cancelled. */
  datatype State = State(
    eventsFailed: bool,
    active: bool,
    cancel: Option<nat>,
    pending: nat,
    live: map<nat, bool>,
    nextId: nat,
    shutdown: bool
  )

  const INITIAL := State(false, false, None, 0, map[], 0, false)

  datatype Step = StreamError | StreamEvent | Begin | Exit(poller: nat) | Shutdown

  /** `enabled` says whether a fallback interval is configured. */
  function Next(enabled: bool, s: State, step: Step): State {
    match step
    case StreamError =>
      if s.eventsFailed then s
      else if enabled && !s.active then s.(eventsFailed := true, pending := s.pending + 1)
      else s.(eventsFailed := true)
    case StreamEvent =>
      var s := s.(eventsFailed := false);
      if s.cancel.Some? && s.cancel.value in s.live then s.(live := s.live[s.cancel.value := true]) else s
    case Begin =>
      if s.pending == 0 then s
      else if s.active then s.(pending := s.pending - 1)
      else
        s.(pending := s.pending - 1, active := true, cancel := Some(s.nextId),
           live := s.live[s.nextId := s.shutdown], nextId := s.nextId + 1)
    case Exit(p) =>
      if p in s.live && s.live[p] then s.(active := false, cancel := None, live := s.live - {p}) else s
    case Shutdown => s.(shutdown := true, live := map p | p in s.live :: true)
  }

  function Run(enabled: bool, steps: seq<Step>): State {
    if steps == [] then INITIAL else Next(enabled, Run(enabled, steps[..|steps| - 1]), steps[|steps| - 1])
  }

  /** At most one poller is live; the flag and the cancel function are set exactly while it is,
      and the function is its own. */
  ghost predicate Inv(s: State) {
    && (s.active <==> s.cancel.Some?)
    && s.live.Keys == (if s.cancel.Some? then {s.cancel.value} else {})
    && (forall p :: p in s.live ==> p < s.nextId)
  }

  lemma StepKeepsInv(enabled: bool, s: State, step: Step)
    requires Inv(s)
    ensures Inv(Next(enabled, s, step))
  {
    var t := Next(enabled, s, step);
    match step
    case Exit(p) =>
      if p in s.live && s.live[p] {
        assert t.live.Keys == s.live.Keys - {p};
      }
    case _ =>
  }

  lemma {:induction false} OnePollerAtMost(enabled: bool, steps: seq<Step>)
    ensures var s := Run(enabled, steps);
            && Inv(s) && |s.live| <= 1 && (s.active <==> s.live != map[])
            && (forall p :: p in s.live <==> s.cancel == Some(p))
  {
    if steps != [] {
      OnePollerAtMost(enabled, steps[..|steps| - 1]);
      StepKeepsInv(enabled, Run(enabled, steps[..|steps| - 1]), steps[|steps| - 1]);
    }
    var s := Run(enabled, steps);
    assert |s.live.Keys| <= 1 && |s.live| == |s.live.Keys|;
    if s.live.Keys == {} {
      assert s.live == map[];
    }
  }

  /** Without a configured interval nobody ever polls. */
  lemma {:induction false} NoIntervalNoPoller(steps: seq<Step>)
    ensures var s := Run(false, steps); s.pending == 0 && s.live == map[] && !s.active && s.cancel.None?
  {
    if steps != [] {
      NoIntervalNoPoller(steps[..|steps| - 1]);
    }
  }

  /** An error that no event has followed. */
  predicate Uncleared(steps: seq<Step>, k: nat) {
    k < |steps| && steps[k] == StreamError && forall j :: k < j < |steps| ==> steps[j] != StreamEvent
  }

  /** The stream counts as failed exactly while there is such an error. */
  lemma {:induction false} FailedIff(enabled: bool, steps: seq<Step>)
    ensures Run(enabled, steps).eventsFailed <==> exists k: nat :: Uncleared(steps, k)
  {
    if steps != [] {
      var front, last := steps[..|steps| - 1], steps[|steps| - 1];
      FailedIff(enabled, front);
      var was, now := Run(enabled, front).eventsFailed, Run(enabled, steps).eventsFailed;
      assert now <==> last == StreamError || (last != StreamEvent && was);
      if k: nat :| Uncleared(front, k) && last != StreamEvent {
        UnclearedStep(steps, k);
      }
      if k: nat :| Uncleared(steps, k) {
        UnclearedStep(steps, k);
      }
      if last == StreamError {
        assert Uncleared(steps, |steps| - 1);
      }
    }
  }

  lemma UnclearedStep(steps: seq<Step>, k: nat)
    requires steps != [] && k < |steps|
    ensures var front, last := steps[..|steps| - 1], steps[|steps| - 1];
            Uncleared(steps, k) <==>
              if k == |front| then last == StreamError else last != StreamEvent && Uncleared(front, k)
  {
    var front := steps[..|steps| - 1];
    assert forall i :: 0 <= i < |front| ==> front[i] == steps[i];
  }

  // ---- When polling does resume ----

  /** A failed stream with no poller and none on its way. */
  predicate Stranded(s: State) {
    s.eventsFailed && s.pending == 0 && s.live == map[] && !s.active && s.cancel.None?
  }

  function From(s: State, steps: seq<Step>): State
    decreases steps
  {
    if steps == [] then s else From(Next(true, s, steps[0]), steps[1..])
  }

  /** The outage goes on: no event arrives and nobody shuts down. */
  predicate Outage(steps: seq<Step>) { StreamEvent !in steps && Shutdown !in steps }

  /** The outage may go on in a way that strands the stream. */
  ghost predicate MayStrand(s: State) {
    exists steps :: Outage(steps) && Stranded(From(s, steps))
  }

  /** A poller that has been told to stop has not stepped down yet. */
  predicate Leaving(s: State) { s.cancel.Some? && s.cancel.value in s.live && s.live[s.cancel.value] }

  /** A poller that nobody told to stop is at work, or one is on its way and finds the place free. */
  predicate Covered(s: State) { !Leaving(s) && (s.pending > 0 || s.active) }

  lemma {:induction false} CoveredStays(s: State, steps: seq<Step>)
    requires Inv(s) && s.eventsFailed && !s.shutdown && Covered(s) && Outage(steps)
    ensures Covered(From(s, steps)) && Inv(From(s, steps))
    decreases steps
  {
    if steps != [] {
      assert steps[0] in steps;
      StepKeepsInv(true, s, steps[0]);
      CoveredStays(Next(true, s, steps[0]), steps[1..]);
    }
  }

  lemma FromCons(s: State, step: Step, rest: seq<Step>)
    ensures From(s, [step] + rest) == From(Next(true, s, step), rest)
  {
    assert ([step] + rest)[1..] == rest;
  }

  /** Everyone on the way finds the place taken and gives up; then the poller leaves. */
  lemma {:induction false} LeavingStrands(s: State) returns (steps: seq<Step>)
    requires Inv(s) && s.eventsFailed && Leaving(s)
    ensures Outage(steps) && Stranded(From(s, steps))
    decreases s.pending
  {
    if s.pending == 0 {
      var t := Next(true, s, Exit(s.cancel.value));
      StepKeepsInv(true, s, Exit(s.cancel.value));
      assert t.live == map[];
      FromCons(s, Exit(s.cancel.value), []);
      steps := [Exit(s.cancel.value)] + [];
    } else {
      var rest := LeavingStrands(Next(true, s, Begin));
      FromCons(s, Begin, rest);
      steps := [Begin] + rest;
    }
  }

  /** During an outage, being covered is exactly what keeps the stream from ever being stranded. */
  lemma MayStrandIff(s: State)
    requires Inv(s) && s.eventsFailed && !s.shutdown
    ensures MayStrand(s) <==> !Covered(s)
  {
    if Covered(s) {
      forall steps | Outage(steps) ensures !Stranded(From(s, steps)) {
        CoveredStays(s, steps);
      }
    } else if Leaving(s) {
      var steps := LeavingStrands(s);
    } else {
      assert s.live == map[];
      assert Outage([]) && Stranded(From(s, []));
    }
  }

  ghost predicate Safe(s: State) { s.eventsFailed ==> !MayStrand(s) }

  /** An error is handled while the previous poller is on its way out. */
  predicate Race(s: State, step: Step) { step == StreamError && !s.eventsFailed && Leaving(s) }

  /** With a fallback configured and no shutdown, that race is the one step after which an outage can
      leave the stream without poller. */
  lemma SafeUnlessRace(s: State, step: Step)
    requires Inv(s) && Safe(s) && !s.shutdown && step != Shutdown
    ensures Safe(Next(true, s, step)) <==> !Race(s, step)
  {
    var t := Next(true, s, step);
    StepKeepsInv(true, s, step);
    if s.eventsFailed {
      MayStrandIff(s);
    }
    if t.eventsFailed {
      MayStrandIff(t);
    }
  }

  ghost predicate RaceFree(steps: seq<Step>) {
    forall k :: 0 <= k < |steps| ==> steps[k] != Shutdown && !Race(Run(true, steps[..k]), steps[k])
  }

  /** In a run without that race a failed stream is polled or about to be, and no outage can change that. */
  lemma {:induction false} RaceFreeRunsAreSafe(steps: seq<Step>)
    requires RaceFree(steps)
    ensures var s := Run(true, steps); !s.shutdown && Safe(s) && (s.eventsFailed ==> Covered(s))
  {
    if steps != [] {
      var front := steps[..|steps| - 1];
      assert forall k :: 0 <= k < |front| ==> front[..k] == steps[..k] && front[k] == steps[k];
      RaceFreeRunsAreSafe(front);
      OnePollerAtMost(true, front);
      SafeUnlessRace(Run(true, front), steps[|steps| - 1]);
    }
    OnePollerAtMost(true, steps);
    if Run(true, steps).eventsFailed {
      MayStrandIff(Run(true, steps));
    }
  }

  /** Once stranded, no further error helps: only a stream event ends it. */
  lemma {:induction false} StrandedStays(s: State, steps: seq<Step>)
    requires Stranded(s) && StreamEvent !in steps
    ensures Stranded(From(s, steps))
    decreases steps
  {
    if steps != [] {
      assert steps[0] != StreamEvent && steps[0] in steps;
      StrandedStays(Next(true, s, steps[0]), steps[1..]);
    }
  }

  /** The race can happen, and can strand the stream. */
  lemma RaceStrands()
    ensures Stranded(From(INITIAL, [StreamError] + ([Begin] + ([StreamEvent] + ([StreamError] + ([Exit(0)] + []))))))
  {
    var s1 := Next(true, INITIAL, StreamError);
    var s2 := Next(true, s1, Begin);
    assert s2.live == map[0 := false];
    var s3 := Next(true, s2, StreamEvent);
    assert s3.live == map[0 := true];
    var s4 := Next(true, s3, StreamError);
    assert Next(true, s4, Exit(0)).live == map[];
    FromCons(INITIAL, StreamError, [Begin] + ([StreamEvent] + ([StreamError] + ([Exit(0)] + []))));
    FromCons(s1, Begin, [StreamEvent] + ([StreamError] + ([Exit(0)] + [])));
    FromCons(s2, StreamEvent, [StreamError] + ([Exit(0)] + []));
    FromCons(s3, StreamError, [Exit(0)] + []);
    FromCons(s4, Exit(0), []);
  }

  // ---- When polling stops ----

  /** A healthy stream has no poller, except one on its way out. */
  predicate AtRest(s: State) { !s.eventsFailed ==> s.pending == 0 && (s.active ==> Leaving(s)) }

  /** The stream recovers while a spawned poller has not reached the lock: there is nothing to cancel yet. */
  predicate Overtakes(s: State, step: Step) { step == StreamEvent && s.pending > 0 }

  /** That is the one step after which a healthy stream may be polled. */
  lemma AtRestUnlessOvertaken(enabled: bool, s: State, step: Step)
    requires Inv(s) && AtRest(s)
    ensures AtRest(Next(enabled, s, step)) <==> !Overtakes(s, step)
  {
    StepKeepsInv(enabled, s, step);
  }

  ghost predicate NeverOvertaken(enabled: bool, steps: seq<Step>) {
    forall k :: 0 <= k < |steps| ==> !Overtakes(Run(enabled, steps[..k]), steps[k])
  }

  lemma {:induction false} PollingStops(enabled: bool, steps: seq<Step>)
    requires NeverOvertaken(enabled, steps)
    ensures AtRest(Run(enabled, steps))
  {
    if steps != [] {
      var front := steps[..|steps| - 1];
      assert forall k :: 0 <= k < |front| ==> front[..k] == steps[..k] && front[k] == steps[k];
      PollingStops(enabled, front);
      OnePollerAtMost(enabled, front);
      AtRestUnlessOvertaken(enabled, Run(enabled, front), steps[|steps| - 1]);
    }
  }

  /** A healthy stream is polled by a poller nobody told to stop. */
  predicate Lingering(s: State) { !s.eventsFailed && s.active && !Leaving(s) }

  /** It goes on until the next event or the shutdown: not even a new error and its handling end it. */
  lemma {:induction false} LingeringStays(s: State, steps: seq<Step>)
    requires Inv(s) && s.active && !Leaving(s) && Outage(steps)
    ensures var t := From(s, steps); t.active && !Leaving(t) && t.cancel == s.cancel
    decreases steps
  {
    if steps != [] {
      assert steps[0] in steps;
      StepKeepsInv(true, s, steps[0]);
      LingeringStays(Next(true, s, steps[0]), steps[1..]);
    }
  }

  lemma OvertakingLingers()
    ensures Lingering(From(INITIAL, [StreamError] + ([StreamEvent] + ([Begin] + []))))
  {
    var s1 := Next(true, INITIAL, StreamError);
    var s2 := Next(true, s1, StreamEvent);
    FromCons(INITIAL, StreamError, [StreamEvent] + ([Begin] + []));
    FromCons(s1, StreamEvent, [Begin] + []);
    FromCons(s2, Begin, []);
    assert Next(true, s2, Begin).live == map[0 := false];
  }

  /** The context of one poller. */
  class Poll {
    ghost const id: nat
    var cancelled: bool

    constructor (ghost id: nat)
      ensures this.id == id && !cancelled
    {
      this.id, cancelled := id, false;
    }
  }

  /** The handler's own fields are the real ones; the goroutines around it are ghost: how many have been
      spawned and not reached the lock, the contexts made so far, and which of them still have a poller. */
  class DockerHandler {
    const enabled: bool
    var eventsFailed: bool
    var active: bool
    var cancel: Poll?
    var shutdown: bool
    ghost var pending: nat
    ghost var polls: seq<Poll>
    ghost var running: set<nat>

    /** A poller's context is done when it was cancelled or the handler's own is. */
    ghost function View(): State
      requires Numbered()
      reads this, polls
    {
      State(eventsFailed, active, if cancel == null then None else Some(cancel.id), pending,
            map p | p in running :: polls[p].cancelled || shutdown, |polls|, shutdown)
    }

    ghost predicate Numbered() reads this {
      && (forall i :: 0 <= i < |polls| ==> polls[i].id == i)
      && (forall p :: p in running ==> p < |polls|)
      && (cancel != null ==> cancel in polls)
    }

    ghost predicate Valid() reads this, polls { Numbered() && Inv(View()) }

    constructor (enabled: bool)
      ensures this.enabled == enabled && Valid() && View() == INITIAL && polls == []
    {
      this.enabled := enabled;
      eventsFailed, active, cancel, shutdown, pending, polls, running := false, false, null, false, 0, [], {};
    }

    method HandleEventStreamError()
      requires Valid()
      modifies this`eventsFailed, this`pending
      ensures Valid() && View() == Next(enabled, old(View()), StreamError)
    {
      if eventsFailed {
        return;
      }
      eventsFailed := true;
      if enabled && !active {
        pending := pending + 1;
      }
    }

    method ClearEventStreamError()
      requires Valid()
      modifies this`eventsFailed, cancel
      ensures Valid() && View() == Next(enabled, old(View()), StreamEvent)
    {
      eventsFailed := false;
      if cancel != null {
        cancel.cancelled := true;
      }
    }

    /** A spawned goroutine reaches the lock: it becomes the poller or leaves. */
    method StartFallbackPolling() returns (poll: Poll?)
      requires Valid() && pending > 0
      modifies this`pending, this`active, this`cancel, this`polls, this`running
      ensures Valid() && View() == Next(enabled, old(View()), Begin)
      ensures (poll == null <==> old(active)) && (poll != null ==> fresh(poll) && cancel == poll)
    {
      assert !active ==> View().live.Keys == running == {};
      pending := pending - 1;
      if active {
        return null;
      }
      active := true;
      poll := new Poll(|polls|);
      cancel := poll;
      polls, running := polls + [poll], {poll.id};
      assert polls[poll.id] == poll && Numbered();
      assert View().live == map[poll.id := shutdown];
    }

    /** Cancelling the handler's own context ends every poller's. */
    method CancelAll()
      requires Valid()
      modifies this`shutdown
      ensures Valid() && View() == Next(enabled, old(View()), Shutdown)
    {
      shutdown := true;
    }

    /** A poller notices that its context is done. */
    method StopFallbackPolling(poll: Poll)
      requires Valid() && poll in polls && poll.id in running && (poll.cancelled || shutdown)
      modifies this`active, this`cancel, this`running
      ensures Valid() && View() == Next(enabled, old(View()), Exit(poll.id))
    {
      ghost var was := View();
      StepKeepsInv(enabled, was, Exit(poll.id));
      active, cancel := false, null;
      running := running - {poll.id};
      assert View().live == was.live - {poll.id};
    }
  }

  // ---- Reconnection backoff, in seconds ----

  datatype Outcome = ErrorReceived | ChannelClosed | EventReceived

  const INITIAL_BACKOFF := 1
  const MAX_BACKOFF := 300

  function Pow2(n: nat): nat { if n == 0 then 1 else 2 * Pow2(n - 1) }

  /** Errors received since the last event; a closed channel neither counts nor resets. */
  function Errors(past: seq<Outcome>): nat {
    if past == [] then 0
    else
      match past[|past| - 1]
      case ErrorReceived => Errors(past[..|past| - 1]) + 1
      case ChannelClosed => Errors(past[..|past| - 1])
      case EventReceived => 0
  }

  /** The wait after the k-th error in a row. */
  function WaitAfter(k: nat): int
    requires k > 0
  {
    Min(Pow2(k - 1), MAX_BACKOFF)
  }

  /** It starts at one second and doubles up to five minutes. */
  lemma WaitsDouble(k: nat)
    requires k > 0
    ensures WaitAfter(1) == 1 && WaitAfter(k + 1) == if 2 * WaitAfter(k) < 300 then 2 * WaitAfter(k) else 300
  {
  }

  /** The errors since the last event, if the outcomes from `k` on are those since. */
  lemma {:induction false} ErrorsAreSince(past: seq<Outcome>, k: nat)
    requires k <= |past| && (k > 0 ==> past[k - 1].EventReceived?)
    requires forall i :: k <= i < |past| ==> !past[i].EventReceived?
    ensures Errors(past) == multiset(past[k..])[ErrorReceived]
  {
    if k < |past| {
      var front := past[..|past| - 1];
      ErrorsAreSince(front, k);
      assert past[k..] == front[k..] + [past[|past| - 1]];
    }
  }

  /** How long the watcher waits after each outcome. */
  method WatchEvents(outcomes: seq<Outcome>) returns (waits: seq<int>)
    ensures |waits| == |outcomes|
    ensures forall i :: 0 <= i < |outcomes| ==>
              waits[i] == if outcomes[i].ErrorReceived? then WaitAfter(Errors(outcomes[..i + 1])) else 0
  {
    var backoff := INITIAL_BACKOFF;
    waits := [];
    for i := 0 to |outcomes|
      invariant |waits| == i && backoff == Min(Pow2(Errors(outcomes[..i])), MAX_BACKOFF)
      invariant forall k :: 0 <= k < i ==>
                  waits[k] == if outcomes[k].ErrorReceived? then WaitAfter(Errors(outcomes[..k + 1])) else 0
    {
      assert outcomes[..i + 1][..i] == outcomes[..i];
      match outcomes[i]
      case ErrorReceived =>
        waits := waits + [backoff];
        backoff := Min(backoff * 2, MAX_BACKOFF);
      case ChannelClosed =>
        waits := waits + [0];
      case EventReceived =>
        waits := waits + [0];
        backoff := INITIAL_BACKOFF;
    }
  }
}
