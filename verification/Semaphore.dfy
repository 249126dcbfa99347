/** The resizable concurrency limit of core/scheduler.go. Resizing installs a new
    channel; an invocation keeps using the channel it fetched. The steps of all
    invocations interleave freely, and fetching the channel and taking a slot in
    it are separate steps. */
module Semaphore {
  datatype Phase = Fetched(gen: nat) | Running(gen: nat)

  /** One entry per channel generation; the last is the current one. */
  datatype State = State(caps: seq<nat>, held: seq<nat>, jobs: map<nat, Phase>)

  datatype Step = Fetch(job: nat) | TryAcquire(job: nat) | Release(job: nat) | Resize(n: nat)

  predicate Shaped(s: State) {
    |s.caps| == |s.held| > 0 && forall j :: j in s.jobs ==> s.jobs[j].gen < |s.caps|
  }

  /** Receiving from an empty channel would block for good. */
  predicate Blocked(s: State, j: nat)
    requires Shaped(s)
  {
    j in s.jobs && s.jobs[j].Running? && s.held[s.jobs[j].gen] == 0
  }

  function Initial(n: nat): State { State([n], [0], map[]) }

  /** A step that its invocation is not in a position to take changes nothing. */
  function Next(s: State, step: Step): (t: State)
    requires Shaped(s)
    ensures Shaped(t)
  {
    match step
    case Fetch(j) =>
      if j in s.jobs then s else s.(jobs := s.jobs[j := Fetched(|s.caps| - 1)])
    case TryAcquire(j) =>
      if j !in s.jobs || !s.jobs[j].Fetched? then s
      else
        var g := s.jobs[j].gen;
        if s.held[g] < s.caps[g] then s.(held := s.held[g := s.held[g] + 1], jobs := s.jobs[j := Running(g)])
        else s.(jobs := s.jobs - {j}) // skipped
    case Release(j) =>
      if j !in s.jobs || !s.jobs[j].Running? || Blocked(s, j) then s
      else
        var g := s.jobs[j].gen;
        s.(held := s.held[g := s.held[g] - 1], jobs := s.jobs - {j})
    case Resize(n) => s.(caps := s.caps + [n], held := s.held + [0])
  }

  function Run(n: nat, steps: seq<Step>): (t: State)
    ensures Shaped(t)
  {
    if steps == [] then Initial(n) else Next(Run(n, steps[..|steps| - 1]), steps[|steps| - 1])
  }

  ghost function RunningIn(jobs: map<nat, Phase>, g: nat): set<nat> {
    set j | j in jobs && jobs[j] == Running(g)
  }
  ghost function RunningBelow(jobs: map<nat, Phase>, g: nat): set<nat> {
    set j | j in jobs && jobs[j].Running? && jobs[j].gen < g
  }
  ghost function AllRunning(jobs: map<nat, Phase>): set<nat> {
    set j | j in jobs && jobs[j].Running?
  }

  /** Held slots are the running jobs that took them, within each channel's capacity. */
  ghost predicate Inv(s: State) {
    Shaped(s) && forall g :: 0 <= g < |s.caps| ==> s.held[g] == |RunningIn(s.jobs, g)| && s.held[g] <= s.caps[g]
  }

  lemma NeverBlocked(s: State, j: nat)
    requires Inv(s)
    ensures !Blocked(s, j)
  {
    if j in s.jobs && s.jobs[j].Running? {
      assert j in RunningIn(s.jobs, s.jobs[j].gen);
    }
  }

  lemma AcquireKeepsInv(s: State, j: nat)
    requires Inv(s) && j in s.jobs && s.jobs[j].Fetched?
    ensures Inv(Next(s, TryAcquire(j)))
  {
    var t, g0 := Next(s, TryAcquire(j)), s.jobs[j].gen;
    assert j !in RunningIn(s.jobs, g0);
    if s.held[g0] < s.caps[g0] {
      assert RunningIn(t.jobs, g0) == RunningIn(s.jobs, g0) + {j};
      forall g | g != g0 ensures RunningIn(t.jobs, g) == RunningIn(s.jobs, g) {}
    } else {
      forall g ensures RunningIn(t.jobs, g) == RunningIn(s.jobs, g) {}
    }
  }

  lemma ReleaseKeepsInv(s: State, j: nat)
    requires Inv(s) && j in s.jobs && s.jobs[j].Running?
    ensures Inv(Next(s, Release(j)))
  {
    var t, g0 := Next(s, Release(j)), s.jobs[j].gen;
    NeverBlocked(s, j);
    assert RunningIn(t.jobs, g0) == RunningIn(s.jobs, g0) - {j};
    forall g | g != g0 ensures RunningIn(t.jobs, g) == RunningIn(s.jobs, g) {}
  }

  lemma StepKeepsInv(s: State, step: Step)
    requires Inv(s)
    ensures Inv(Next(s, step))
  {
    var t := Next(s, step);
    match step
    case Fetch(j) =>
      forall g ensures RunningIn(t.jobs, g) == RunningIn(s.jobs, g) {}
    case TryAcquire(j) =>
      if j in s.jobs && s.jobs[j].Fetched? {
        AcquireKeepsInv(s, j);
      }
    case Release(j) =>
      if j in s.jobs && s.jobs[j].Running? {
        ReleaseKeepsInv(s, j);
      }
    case Resize(n) =>
      assert RunningIn(s.jobs, |s.caps|) == {};
  }

  lemma {:induction false} RunKeepsInv(n: nat, steps: seq<Step>)
    ensures Inv(Run(n, steps))
  {
    if steps == [] {
      assert RunningIn(map[], 0) == {};
    } else {
      RunKeepsInv(n, steps[..|steps| - 1]);
      StepKeepsInv(Run(n, steps[..|steps| - 1]), steps[|steps| - 1]);
    }
  }

  function Sum(xs: seq<nat>): nat {
    if xs == [] then 0 else Sum(xs[..|xs| - 1]) + xs[|xs| - 1]
  }

  lemma SumOfFew(xs: seq<nat>)
    ensures |xs| == 1 ==> Sum(xs) == xs[0]
    ensures |xs| == 2 ==> Sum(xs) == xs[0] + xs[1]
  {
    if |xs| == 2 {
      assert xs[..1][..0] == [] && Sum(xs[..1]) == xs[0];
    } else if |xs| == 1 {
      assert xs[..0] == [];
    }
  }

  lemma {:induction false} RunningBelowSum(s: State, g: nat)
    requires Inv(s) && g <= |s.caps|
    ensures |RunningBelow(s.jobs, g)| == Sum(s.held[..g]) <= Sum(s.caps[..g])
  {
    if g == 0 {
      assert RunningBelow(s.jobs, 0) == {};
    } else {
      RunningBelowSum(s, g - 1);
      assert RunningBelow(s.jobs, g) == RunningBelow(s.jobs, g - 1) + RunningIn(s.jobs, g - 1);
      assert s.held[..g][..g - 1] == s.held[..g - 1] && s.caps[..g][..g - 1] == s.caps[..g - 1];
    }
  }

  /** The capacities a run installs, in order. */
  function Limits(n: nat, steps: seq<Step>): seq<nat> {
    if steps == [] then [n]
    else
      var last := steps[|steps| - 1];
      Limits(n, steps[..|steps| - 1]) + (if last.Resize? then [last.n] else [])
  }

  lemma {:induction false} CapsAreLimits(n: nat, steps: seq<Step>)
    ensures Run(n, steps).caps == Limits(n, steps)
  {
    if steps != [] {
      CapsAreLimits(n, steps[..|steps| - 1]);
    }
  }

  /** In every interleaving the running jobs never exceed the limits installed so far taken together:
      the one limit if there was no resize, old plus new if there was one; and no release blocks. */
  lemma RunningWithinLimits(n: nat, steps: seq<Step>, j: nat)
    ensures |AllRunning(Run(n, steps).jobs)| <= Sum(Limits(n, steps))
    ensures |Limits(n, steps)| == 1 ==> |AllRunning(Run(n, steps).jobs)| <= n
    ensures |Limits(n, steps)| == 2 ==> |AllRunning(Run(n, steps).jobs)| <= Limits(n, steps)[0] + Limits(n, steps)[1]
    ensures !Blocked(Run(n, steps), j)
  {
    var s := Run(n, steps);
    RunKeepsInv(n, steps);
    CapsAreLimits(n, steps);
    NeverBlocked(s, j);
    AllRunningIsHeld(n, steps);
    FirstLimit(n, steps);
    SumOfFew(s.caps);
  }

  /** The running jobs are the slots held of all channels together. */
  lemma AllRunningIsHeld(n: nat, steps: seq<Step>)
    ensures var s := Run(n, steps); |AllRunning(s.jobs)| == Sum(s.held) <= Sum(s.caps)
  {
    var s := Run(n, steps);
    RunKeepsInv(n, steps);
    RunningBelowSum(s, |s.caps|);
    assert RunningBelow(s.jobs, |s.caps|) == AllRunning(s.jobs);
    assert s.caps[..|s.caps|] == s.caps && s.held[..|s.held|] == s.held;
  }

  lemma {:induction false} FirstLimit(n: nat, steps: seq<Step>)
    ensures Limits(n, steps) != [] && Limits(n, steps)[0] == n
  {
    if steps != [] {
      FirstLimit(n, steps[..|steps| - 1]);
    }
  }

  // ---- The bound is reached ----

  lemma RunOneMore(n: nat, steps: seq<Step>, step: Step)
    ensures Run(n, steps + [step]) == Next(Run(n, steps), step)
    ensures Limits(n, steps + [step]) == if step.Resize? then Limits(n, steps) + [step.n] else Limits(n, steps)
  {
    assert (steps + [step])[..|steps|] == steps;
  }

  /** No invocation numbered `first` or higher is under way. */
  predicate Unused(s: State, first: nat) { forall j :: j in s.jobs ==> j < first }

  /** `t` is `s` with some more slots of the current channel taken. */
  predicate Took(s: State, t: State, count: nat)
    requires Shaped(s)
  {
    var last := |s.held| - 1;
    t.caps == s.caps && t.held == s.held[last := s.held[last] + count]
  }

  /** An invocation fetches the current channel and takes a slot. */
  lemma FetchAndAcquire(s: State, job: nat)
    requires Shaped(s) && Unused(s, job) && s.held[|s.held| - 1] < s.caps[|s.caps| - 1]
    ensures var t := Next(Next(s, Fetch(job)), TryAcquire(job)); Took(s, t, 1) && Unused(t, job + 1)
  {
    assert job !in s.jobs;
  }

  lemma TakeSlot(n: nat, steps: seq<Step>, first: nat) returns (more: seq<Step>)
    requires var s := Run(n, steps); Unused(s, first) && s.held[|s.held| - 1] < s.caps[|s.caps| - 1]
    ensures Limits(n, more) == Limits(n, steps)
    ensures Took(Run(n, steps), Run(n, more), 1) && Unused(Run(n, more), first + 1)
  {
    FetchAndAcquire(Run(n, steps), first);
    RunOneMore(n, steps, Fetch(first));
    RunOneMore(n, steps + [Fetch(first)], TryAcquire(first));
    more := steps + [Fetch(first)] + [TryAcquire(first)];
  }

  lemma TookMore(s: State, t: State, u: State, count: nat)
    requires Shaped(s) && Shaped(t) && Took(s, t, 1) && Took(t, u, count)
    ensures Took(s, u, count + 1)
  {
  }

  lemma {:induction false} TakeSlots(n: nat, steps: seq<Step>, first: nat, count: nat) returns (more: seq<Step>)
    requires var s := Run(n, steps); Unused(s, first) && s.held[|s.held| - 1] + count <= s.caps[|s.caps| - 1]
    ensures Limits(n, more) == Limits(n, steps)
    ensures Took(Run(n, steps), Run(n, more), count) && Unused(Run(n, more), first + count)
    decreases count
  {
    if count == 0 {
      more := steps;
    } else {
      var one := TakeSlot(n, steps, first);
      more := TakeSlots(n, one, first + 1, count - 1);
      TookMore(Run(n, steps), Run(n, one), Run(n, more), count - 1);
    }
  }

  /** A resize, and then every slot of the new channel is taken. */
  lemma ResizeAndFill(n: nat, steps: seq<Step>, first: nat, cap: nat) returns (more: seq<Step>)
    requires Unused(Run(n, steps), first)
    ensures Limits(n, more) == Limits(n, steps) + [cap]
    ensures Run(n, more).held == Run(n, steps).held + [cap] && Unused(Run(n, more), first + cap)
  {
    RunOneMore(n, steps, Resize(cap));
    more := TakeSlots(n, steps + [Resize(cap)], first, cap);
  }

  lemma {:induction false} FillAll(limits: seq<nat>) returns (steps: seq<Step>)
    requires limits != []
    ensures Limits(limits[0], steps) == limits && Run(limits[0], steps).held == limits
    ensures Unused(Run(limits[0], steps), Sum(limits))
  {
    var k := |limits| - 1;
    SumOfFew(limits);
    if k == 0 {
      steps := TakeSlots(limits[0], [], 0, limits[0]);
      assert limits == [limits[0]];
    } else {
      steps := FillAll(limits[..k]);
      steps := ResizeAndFill(limits[0], steps, Sum(limits[..k]), limits[k]);
      assert limits == limits[..k] + [limits[k]];
    }
  }

  /** For every sequence of limits there is a run that installs them and has their sum running: an
      invocation that took a slot of an old channel runs on. */
  lemma SumOfLimitsIsReached(limits: seq<nat>) returns (steps: seq<Step>)
    requires limits != []
    ensures Limits(limits[0], steps) == limits && |AllRunning(Run(limits[0], steps).jobs)| == Sum(limits)
  {
    steps := FillAll(limits);
    AllRunningIsHeld(limits[0], steps);
  }

  /** In particular old plus new, whatever they are. */
  lemma OldPlusNewIsReached(before: nat, after: nat) returns (steps: seq<Step>)
    ensures Limits(before, steps) == [before, after] && |AllRunning(Run(before, steps).jobs)| == before + after
  {
    steps := SumOfLimitsIsReached([before, after]);
    SumOfFew([before, after]);
  }

  // ---- The scheduler's side ----

  /** A channel used as a semaphore: sending takes a slot, receiving gives one back. */
  class Channel {
    const capacity: nat
    var held: nat

    constructor (capacity: nat)
      ensures this.capacity == capacity && held == 0
    {
      this.capacity, held := capacity, 0;
    }
  }

  /** The current channel is the real field. Which channels there have been, and the state of the step
      system they make up, are ghost; an invocation keeps the channel it fetched in a variable of its own. */
  class Limiter {
    var ch: Channel
    ghost var channels: seq<Channel>
    ghost var state: State

    ghost predicate Valid() reads this, channels {
      && Inv(state) && |channels| == |state.caps| && ch == channels[|channels| - 1]
      && (forall i :: 0 <= i < |channels| ==>
            channels[i].capacity == state.caps[i] && channels[i].held == state.held[i])
      && (forall i, k :: 0 <= i < k < |channels| ==> channels[i] != channels[k])
    }

    /** This invocation has fetched that channel. */
    ghost predicate Has(job: nat, c: Channel) reads this {
      job in state.jobs && state.jobs[job].gen < |channels| && channels[state.jobs[job].gen] == c
    }

    constructor (n: nat)
      ensures Valid() && state == Initial(n)
    {
      var c := new Channel(n);
      ch, channels, state := c, [c], Initial(n);
      new;
      RunKeepsInv(n, []);
    }

    method SetMaxConcurrentJobs(maxJobs: int)
      requires Valid()
      modifies this
      ensures Valid() && state == Next(old(state), Resize(if maxJobs < 1 then 1 else maxJobs))
      ensures fresh(ch) && ch.capacity == (if maxJobs < 1 then 1 else maxJobs) && ch.held == 0
    {
      var n := if maxJobs < 1 then 1 else maxJobs;
      StepKeepsInv(state, Resize(n));
      ch := new Channel(n);
      channels, state := channels + [ch], Next(state, Resize(n));
    }

    method GetChan(ghost job: nat) returns (c: Channel)
      requires Valid() && job !in state.jobs
      modifies this`state
      ensures Valid() && state == Next(old(state), Fetch(job)) && c == ch && Has(job, c)
    {
      StepKeepsInv(state, Fetch(job));
      state := Next(state, Fetch(job));
      c := ch;
    }

    /** The select of `RunWithContext`: take a slot of the fetched channel or skip. */
    method RunOrSkip(c: Channel, ghost job: nat) returns (acquired: bool)
      requires Valid() && Has(job, c) && state.jobs[job].Fetched?
      modifies c`held, this`state
      ensures Valid() && state == Next(old(state), TryAcquire(job))
      ensures acquired <==> |RunningIn(old(state).jobs, old(state).jobs[job].gen)| < c.capacity
      ensures if acquired then Has(job, c) && state.jobs[job].Running? else job !in state.jobs
    {
      StepKeepsInv(state, TryAcquire(job));
      assert c.held == state.held[state.jobs[job].gen];
      state := Next(state, TryAcquire(job));
      acquired := c.held < c.capacity;
      if acquired {
        c.held := c.held + 1;
      }
    }

    /** The deferred receive, which never finds the channel empty. */
    method Finish(c: Channel, ghost job: nat)
      requires Valid() && Has(job, c) && state.jobs[job].Running?
      modifies c`held, this`state
      ensures Valid() && state == Next(old(state), Release(job)) && job !in state.jobs
      ensures c.held == old(c.held) - 1
    {
      StepKeepsInv(state, Release(job));
      NeverBlocked(state, job);
      assert c.held == state.held[state.jobs[job].gen];
      state := Next(state, Release(job));
      c.held := c.held - 1;
    }
  }
}
