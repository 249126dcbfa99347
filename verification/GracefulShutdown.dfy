/** Shutdown hooks of core/shutdown.go: how registration orders them, how they
    are grouped by priority, and the run of `Shutdown` as interleaved steps of
    its own loop, the hooks' goroutines and the timeout. */
module GracefulShutdown {
  datatype Hook = Hook(name: string, priority: int)

  // ---- Registration ----

  predicate Sorted(hooks: seq<Hook>) {
    forall i, j :: 0 <= i < j < |hooks| ==> hooks[i].priority <= hooks[j].priority
  }

  function Kept(chosen: seq<Hook>, h: Hook, p: int): seq<Hook> {
    if h.priority == p then chosen + [h] else chosen
  }

  /** The hooks of one priority, in order. */
  function OfPriority(hooks: seq<Hook>, p: int): seq<Hook> {
    if hooks == [] then []
    else Kept(OfPriority(hooks[..|hooks| - 1], p), hooks[|hooks| - 1], p)
  }

  /** A new hook sinks below every hook of a higher number. */
  function Insert(hooks: seq<Hook>, h: Hook): seq<Hook> {
    if hooks == [] || h.priority >= hooks[|hooks| - 1].priority then hooks + [h]
    else Insert(hooks[..|hooks| - 1], h) + [hooks[|hooks| - 1]]
  }

  function Registered(hs: seq<Hook>): seq<Hook> {
    if hs == [] then [] else Insert(Registered(hs[..|hs| - 1]), hs[|hs| - 1])
  }

  lemma {:induction false} InsertSorted(hooks: seq<Hook>, h: Hook, top: int)
    requires Sorted(hooks) && h.priority <= top && forall i :: 0 <= i < |hooks| ==> hooks[i].priority <= top
    ensures Sorted(Insert(hooks, h)) && forall i :: 0 <= i < |Insert(hooks, h)| ==> Insert(hooks, h)[i].priority <= top
  {
    if hooks != [] && h.priority < hooks[|hooks| - 1].priority {
      var front, last := hooks[..|hooks| - 1], hooks[|hooks| - 1];
      InsertSorted(front, h, last.priority);
    }
  }

  lemma {:induction false} InsertAddsOne(hooks: seq<Hook>, h: Hook)
    ensures multiset(Insert(hooks, h)) == multiset(hooks) + multiset{h}
  {
    if hooks != [] && h.priority < hooks[|hooks| - 1].priority {
      var front, last := hooks[..|hooks| - 1], hooks[|hooks| - 1];
      InsertAddsOne(front, h);
      assert hooks == front + [last];
    }
  }

  lemma OfPriorityAppend(hooks: seq<Hook>, h: Hook, p: int)
    ensures OfPriority(hooks + [h], p) == Kept(OfPriority(hooks, p), h, p)
  {
    assert (hooks + [h])[..|hooks|] == hooks;
  }

  lemma {:induction false} InsertStable(hooks: seq<Hook>, h: Hook, p: int)
    requires Sorted(hooks)
    ensures OfPriority(Insert(hooks, h), p) == Kept(OfPriority(hooks, p), h, p)
  {
    if hooks == [] || h.priority >= hooks[|hooks| - 1].priority {
      OfPriorityAppend(hooks, h, p);
    } else {
      var front, last := hooks[..|hooks| - 1], hooks[|hooks| - 1];
      InsertStable(front, h, p);
      OfPriorityAppend(Insert(front, h), last, p);
    }
  }

  lemma {:induction false} RegisteredSorted(hs: seq<Hook>)
    ensures Sorted(Registered(hs))
  {
    if hs != [] {
      var r, h := Registered(hs[..|hs| - 1]), hs[|hs| - 1];
      RegisteredSorted(hs[..|hs| - 1]);
      InsertSorted(r, h, if r == [] || h.priority >= r[|r| - 1].priority then h.priority else r[|r| - 1].priority);
    }
  }

  lemma {:induction false} RegisteredAll(hs: seq<Hook>)
    ensures multiset(Registered(hs)) == multiset(hs)
  {
    if hs != [] {
      RegisteredAll(hs[..|hs| - 1]);
      InsertAddsOne(Registered(hs[..|hs| - 1]), hs[|hs| - 1]);
      assert hs == hs[..|hs| - 1] + [hs[|hs| - 1]];
    }
  }

  lemma {:induction false} RegisteredStable(hs: seq<Hook>, p: int)
    ensures OfPriority(Registered(hs), p) == OfPriority(hs, p)
  {
    if hs != [] {
      RegisteredStable(hs[..|hs| - 1], p);
      RegisteredSorted(hs[..|hs| - 1]);
      InsertStable(Registered(hs[..|hs| - 1]), hs[|hs| - 1], p);
    }
  }

  /** After any registrations the hooks are sorted, hold exactly what was registered, and
      keep the order of registration within a priority. */
  lemma RegistrationIsStableSort(hs: seq<Hook>, p: int)
    ensures Sorted(Registered(hs)) && multiset(Registered(hs)) == multiset(hs)
    ensures OfPriority(Registered(hs), p) == OfPriority(hs, p)
  {
    RegisteredSorted(hs);
    RegisteredAll(hs);
    RegisteredStable(hs, p);
  }

  /** The hooks while a new one has sunk to position `i`. */
  function With(hooks: seq<Hook>, h: Hook, i: nat): seq<Hook>
    requires i <= |hooks|
  {
    hooks[..i] + [h] + hooks[i..]
  }

  lemma Sinks(hooks: seq<Hook>, h: Hook, i: nat)
    requires 0 < i <= |hooks|
    ensures var w := With(hooks, h, i); w[i := w[i - 1]][i - 1 := w[i]] == With(hooks, h, i - 1)
  {
  }

  lemma WithLast(front: seq<Hook>, last: Hook, h: Hook, i: nat)
    requires i <= |front|
    ensures With(front + [last], h, i) == With(front, h, i) + [last]
  {
  }

  lemma {:induction false} SinksTo(hooks: seq<Hook>, h: Hook, i: nat)
    requires i <= |hooks| && (i > 0 ==> h.priority >= hooks[i - 1].priority)
    requires forall k :: i <= k < |hooks| ==> h.priority < hooks[k].priority
    ensures Insert(hooks, h) == With(hooks, h, i)
  {
    if i < |hooks| {
      var front, last := hooks[..|hooks| - 1], hooks[|hooks| - 1];
      SinksTo(front, h, i);
      WithLast(front, last, h, i);
      assert hooks == front + [last];
    }
  }

  class ShutdownManager {
    var hooks: seq<Hook>

    constructor ()
      ensures hooks == Registered([])
    {
      hooks := [];
    }

    method RegisterHook(h: Hook)
      modifies this
      ensures hooks == Insert(old(hooks), h)
    {
      ghost var before := hooks;
      hooks := hooks + [h];
      var i := |hooks| - 1;
      while i > 0 && hooks[i].priority < hooks[i - 1].priority
        invariant 0 <= i <= |before| && hooks == With(before, h, i)
        invariant forall k :: i <= k < |before| ==> h.priority < before[k].priority
      {
        Sinks(before, h, i);
        hooks := hooks[i := hooks[i - 1]][i - 1 := hooks[i]];
        i := i - 1;
      }
      SinksTo(before, h, i);
    }
  }

  // ---- Grouping ----

  /** The positions of the hooks with a priority among the first `n`, ascending. */
  function Positions(hooks: seq<Hook>, n: nat, p: int): seq<nat>
    requires n <= |hooks|
  {
    if n == 0 then [] else Positions(hooks, n - 1, p) + (if hooks[n - 1].priority == p then [n - 1] else [])
  }

  lemma {:induction false} PositionsMembers(hooks: seq<Hook>, n: nat, p: int)
    requires n <= |hooks|
    ensures forall h :: h in Positions(hooks, n, p) <==> 0 <= h < n && hooks[h].priority == p
    ensures forall i, j :: 0 <= i < j < |Positions(hooks, n, p)| ==>
              Positions(hooks, n, p)[i] < Positions(hooks, n, p)[j]
  {
    if n > 0 {
      PositionsMembers(hooks, n - 1, p);
      var ps := Positions(hooks, n - 1, p);
      assert forall i :: 0 <= i < |ps| ==> ps[i] in ps;
    }
  }

  lemma {:induction false} NoPositions(hooks: seq<Hook>, n: nat, p: int)
    requires n <= |hooks| && forall h :: 0 <= h < n ==> hooks[h].priority != p
    ensures Positions(hooks, n, p) == []
  {
    if n > 0 {
      NoPositions(hooks, n - 1, p);
    }
  }

  /** What the grouping loop has built from the first `n` hooks. */
  ghost predicate Grouped(hooks: seq<Hook>, n: nat, groups: map<int, seq<nat>>, priorities: seq<int>)
    requires n <= |hooks|
  {
    && (forall g :: 0 <= g < |priorities| ==> priorities[g] in groups)
    && (forall p :: p in groups ==> p in priorities && groups[p] == Positions(hooks, n, p) && groups[p] != [])
    && (forall h :: 0 <= h < n ==> hooks[h].priority in groups)
    && (forall f, g :: 0 <= f < g < |priorities| ==> priorities[f] < priorities[g])
  }

  lemma NewPriority(hooks: seq<Hook>, n: nat, groups: map<int, seq<nat>>, priorities: seq<int>)
    requires Sorted(hooks) && n < |hooks| && Grouped(hooks, n, groups, priorities) && hooks[n].priority !in groups
    ensures var p := hooks[n].priority;
            Positions(hooks, n, p) == [] && forall g :: 0 <= g < |priorities| ==> priorities[g] < p
  {
    var p := hooks[n].priority;
    NoPositions(hooks, n, p);
    forall g | 0 <= g < |priorities| ensures priorities[g] < p {
      var q := priorities[g];
      PositionsMembers(hooks, n, q);
      assert groups[q][0] in Positions(hooks, n, q);
    }
  }

  lemma GroupedWithNew(hooks: seq<Hook>, n: nat, groups: map<int, seq<nat>>, priorities: seq<int>)
    requires Sorted(hooks) && n < |hooks| && Grouped(hooks, n, groups, priorities) && hooks[n].priority !in groups
    ensures Grouped(hooks, n + 1, groups[hooks[n].priority := [n]], priorities + [hooks[n].priority])
  {
    NewPriority(hooks, n, groups, priorities);
  }

  lemma GroupedWithOld(hooks: seq<Hook>, n: nat, groups: map<int, seq<nat>>, priorities: seq<int>)
    requires n < |hooks| && Grouped(hooks, n, groups, priorities) && hooks[n].priority in groups
    ensures var p := hooks[n].priority; Grouped(hooks, n + 1, groups[p := groups[p] + [n]], priorities)
  {
  }

  /** The grouping at the head of `Shutdown`. The priorities come out in increasing order
      because the hooks are sorted, so sorting them again changes nothing. */
  method GroupHooks(hooks: seq<Hook>) returns (groups: map<int, seq<nat>>, priorities: seq<int>)
    requires Sorted(hooks)
    ensures Grouped(hooks, |hooks|, groups, priorities)
  {
    groups, priorities := map[], [];
    for i := 0 to |hooks|
      invariant Grouped(hooks, i, groups, priorities)
    {
      var p := hooks[i].priority;
      if p !in groups {
        GroupedWithNew(hooks, i, groups, priorities);
        priorities, groups := priorities + [p], groups[p := [i]];
      } else {
        GroupedWithOld(hooks, i, groups, priorities);
        groups := groups[p := groups[p] + [i]];
      }
    }
  }

  /** The groups in the order the loop of `Shutdown` takes them. */
  function InOrder(groups: map<int, seq<nat>>, priorities: seq<int>): seq<seq<nat>>
    requires forall g :: 0 <= g < |priorities| ==> priorities[g] in groups
  {
    seq(|priorities|, g requires 0 <= g < |priorities| => groups[priorities[g]])
  }

  /** Every hook has one place, a group and a position in it; lower numbers come in earlier groups. */
  ghost predicate Grouping(hooks: seq<Hook>, groups: seq<seq<nat>>, groupOf: seq<nat>, placeOf: seq<nat>) {
    && |groupOf| == |placeOf| == |hooks|
    && (forall h :: 0 <= h < |hooks| ==>
          groupOf[h] < |groups| && placeOf[h] < |groups[groupOf[h]]| && groups[groupOf[h]][placeOf[h]] == h)
    && (forall g, k :: 0 <= g < |groups| && 0 <= k < |groups[g]| ==>
          groups[g][k] < |hooks| && groupOf[groups[g][k]] == g && placeOf[groups[g][k]] == k)
    && (forall h, i :: 0 <= h < |hooks| && 0 <= i < |hooks| ==>
          (groupOf[h] < groupOf[i] <==> hooks[h].priority < hooks[i].priority))
  }

  /** The grouping gives every hook its one place. */
  lemma GroupsAreGrouping(hooks: seq<Hook>, groups: map<int, seq<nat>>, priorities: seq<int>)
    returns (groupOf: seq<nat>, placeOf: seq<nat>)
    requires Grouped(hooks, |hooks|, groups, priorities)
    ensures Grouping(hooks, InOrder(groups, priorities), groupOf, placeOf)
  {
    var ordered := InOrder(groups, priorities);
    groupOf, placeOf := [], [];
    for i := 0 to |hooks|
      invariant |groupOf| == |placeOf| == i
      invariant forall h :: 0 <= h < i ==> At(hooks, ordered, priorities, h, groupOf[h], placeOf[h])
    {
      var g, k := PlaceOf(hooks, groups, priorities, i);
      groupOf, placeOf := groupOf + [g], placeOf + [k];
    }
    forall g, k | 0 <= g < |ordered| && 0 <= k < |ordered[g]|
      ensures ordered[g][k] < |hooks| && groupOf[ordered[g][k]] == g && placeOf[ordered[g][k]] == k
    {
      UniquePlace(hooks, groups, priorities, g, k);
      assert At(hooks, ordered, priorities, ordered[g][k], groupOf[ordered[g][k]], placeOf[ordered[g][k]]);
    }
  }

  predicate At(hooks: seq<Hook>, ordered: seq<seq<nat>>, priorities: seq<int>, h: nat, g: nat, k: nat)
    requires |ordered| == |priorities| && h < |hooks|
  {
    g < |ordered| && priorities[g] == hooks[h].priority && k < |ordered[g]| && ordered[g][k] == h
  }

  lemma PlaceOf(hooks: seq<Hook>, groups: map<int, seq<nat>>, priorities: seq<int>, h: nat) returns (g: nat, k: nat)
    requires Grouped(hooks, |hooks|, groups, priorities) && h < |hooks|
    ensures At(hooks, InOrder(groups, priorities), priorities, h, g, k)
  {
    var p := hooks[h].priority;
    PositionsMembers(hooks, |hooks|, p);
    g :| 0 <= g < |priorities| && priorities[g] == p;
    k :| 0 <= k < |groups[p]| && groups[p][k] == h;
  }

  lemma UniquePlace(hooks: seq<Hook>, groups: map<int, seq<nat>>, priorities: seq<int>, g: nat, k: nat)
    requires Grouped(hooks, |hooks|, groups, priorities) && g < |priorities| && k < |groups[priorities[g]]|
    ensures var h, ordered := groups[priorities[g]][k], InOrder(groups, priorities);
            h < |hooks| && forall g', k' :: At(hooks, ordered, priorities, h, g', k') ==> g' == g && k' == k
  {
    var p := priorities[g];
    PositionsMembers(hooks, |hooks|, p);
    assert groups[p][k] in Positions(hooks, |hooks|, p);
  }

  // ---- The run of Shutdown ----

  datatype Result = Success | Failed | TimedOut
  datatype Phase = NotStarted | Launching | Waiting | Returned(result: Result)
  datatype Status = Idle | Launched | Running | Finished(ok: bool)

  /** The loop is at `group`, of which it has launched `next` hooks; `begun` counts how often
      each hook has been started; `errors` is what the loop has collected. */
  datatype State = State(phase: Phase, group: nat, next: nat, status: seq<Status>, begun: seq<nat>, errors: nat)

  datatype Step = CallShutdown | Launch | Begin(hook: nat) | Finish(hook: nat, ok: bool) | GroupDone | Timeout

  function Initial(n: nat): State {
    State(NotStarted, 0, 0, seq(n, _ => Idle), seq(n, _ => 0), 0)
  }

  predicate AllFinished(status: seq<Status>, group: seq<nat>) {
    forall h :: h in group ==> h < |status| && status[h].Finished?
  }

  function Failures(status: seq<Status>, group: seq<nat>): nat {
    if group == [] then 0
    else
      var h := group[|group| - 1];
      Failures(status, group[..|group| - 1]) + (if h < |status| && status[h] == Finished(false) then 1 else 0)
  }

  /** A second call of `Shutdown`, and any step its turn has not come for, changes nothing. */
  function Next(groups: seq<seq<nat>>, s: State, step: Step): State {
    match step
    case CallShutdown =>
      if !s.phase.NotStarted? then s
      else s.(phase := if groups == [] then Returned(Success) else Launching)
    case Launch =>
      if !s.phase.Launching? || s.group >= |groups| then s
      else if s.next >= |groups[s.group]| then s.(phase := Waiting)
      else
        var h := groups[s.group][s.next];
        if h >= |s.status| then s else s.(next := s.next + 1, status := s.status[h := Launched])
    case Begin(h) =>
      if h >= |s.status| || h >= |s.begun| || s.status[h] != Launched then s
      else s.(status := s.status[h := Running], begun := s.begun[h := s.begun[h] + 1])
    case Finish(h, ok) =>
      if h >= |s.status| || s.status[h] != Running then s else s.(status := s.status[h := Finished(ok)])
    case GroupDone =>
      if !s.phase.Waiting? || s.group >= |groups| || !AllFinished(s.status, groups[s.group]) then s
      else
        var errors := s.errors + Failures(s.status, groups[s.group]);
        s.(errors := errors, group := s.group + 1, next := 0,
           phase := if s.group + 1 < |groups| then Launching
                    else Returned(if errors == 0 then Success else Failed))
    case Timeout =>
      if !s.phase.Waiting? then s else s.(phase := Returned(TimedOut))
  }

  function Run(n: nat, groups: seq<seq<nat>>, steps: seq<Step>): State {
    if steps == [] then Initial(n) else Next(groups, Run(n, groups, steps[..|steps| - 1]), steps[|steps| - 1])
  }

  // ---- What holds throughout ----

  /** The loop has passed position `k` of group `g`. */
  predicate Passed(s: State, g: nat, k: nat) { g < s.group || (g == s.group && k < s.next) }

  /** The hooks launched so far are the ones passed, and all hooks of earlier groups are done. */
  ghost predicate Ordered(groupOf: seq<nat>, placeOf: seq<nat>, s: State) {
    && |groupOf| == |placeOf| == |s.status|
    && (forall h :: 0 <= h < |s.status| ==> (s.status[h] == Idle <==> !Passed(s, groupOf[h], placeOf[h])))
    && (forall h :: 0 <= h < |s.status| && groupOf[h] < s.group ==> s.status[h].Finished?)
  }

  ghost predicate Counted(s: State) {
    |s.begun| == |s.status| && forall h :: 0 <= h < |s.status| ==>
      s.begun[h] == if s.status[h].Running? || s.status[h].Finished? then 1 else 0
  }

  ghost predicate Placed(groups: seq<seq<nat>>, s: State) {
    && s.group <= |groups|
    && (s.group == |groups| ==> s.next == 0)
    && (s.group < |groups| ==> s.next <= |groups[s.group]|)
    && (s.phase.NotStarted? ==> s.group == 0 && s.next == 0)
    && (s.phase.Launching? ==> s.group < |groups|)
    && (s.phase.Waiting? ==> s.group < |groups| && s.next == |groups[s.group]|)
    && (s.phase == Returned(Success) ==> s.group == |groups| && s.errors == 0)
    && (s.phase == Returned(Failed) ==> s.group == |groups| && s.errors > 0)
  }

  /** No errors collected means no failure in the groups already done. */
  ghost predicate Tallied(groupOf: seq<nat>, s: State)
    requires |groupOf| == |s.status|
  {
    s.errors == 0 <==> forall h :: 0 <= h < |s.status| && groupOf[h] < s.group ==> s.status[h] != Finished(false)
  }

  ghost predicate Inv(groups: seq<seq<nat>>, groupOf: seq<nat>, placeOf: seq<nat>, s: State) {
    Placed(groups, s) && Ordered(groupOf, placeOf, s) && Counted(s) && Tallied(groupOf, s)
  }

  lemma {:induction false} NoFailures(status: seq<Status>, group: seq<nat>)
    requires forall h :: h in group ==> h < |status|
    ensures Failures(status, group) == 0 <==> forall h :: h in group ==> status[h] != Finished(false)
  {
    if group != [] {
      var front, last := group[..|group| - 1], group[|group| - 1];
      assert group == front + [last];
      assert forall h :: h in front ==> h in group;
      NoFailures(status, front);
    }
  }

  lemma LaunchKeepsOrder(hooks: seq<Hook>, groups: seq<seq<nat>>, groupOf: seq<nat>, placeOf: seq<nat>, s: State)
    requires Grouping(hooks, groups, groupOf, placeOf) && |s.status| == |hooks| && Inv(groups, groupOf, placeOf, s)
    ensures var t := Next(groups, s, Launch); Ordered(groupOf, placeOf, t) && Tallied(groupOf, t)
  {
  }

  lemma WorkKeepsInv(groups: seq<seq<nat>>, groupOf: seq<nat>, placeOf: seq<nat>, s: State, step: Step)
    requires Inv(groups, groupOf, placeOf, s) && (step.Begin? || step.Finish?)
    ensures Inv(groups, groupOf, placeOf, Next(groups, s, step))
  {
  }

  lemma GroupDoneKeepsInv(hooks: seq<Hook>, groups: seq<seq<nat>>, groupOf: seq<nat>, placeOf: seq<nat>, s: State)
    requires Grouping(hooks, groups, groupOf, placeOf) && |s.status| == |hooks| && Inv(groups, groupOf, placeOf, s)
    requires s.phase.Waiting? && AllFinished(s.status, groups[s.group])
    ensures Inv(groups, groupOf, placeOf, Next(groups, s, GroupDone))
  {
    NoFailures(s.status, groups[s.group]);
    assert forall h :: 0 <= h < |hooks| && groupOf[h] == s.group ==> h in groups[s.group];
  }

  lemma StepKeepsInv(hooks: seq<Hook>, groups: seq<seq<nat>>, groupOf: seq<nat>, placeOf: seq<nat>,
                     s: State, step: Step)
    requires Grouping(hooks, groups, groupOf, placeOf) && |s.status| == |hooks| && Inv(groups, groupOf, placeOf, s)
    ensures Inv(groups, groupOf, placeOf, Next(groups, s, step)) && |Next(groups, s, step).status| == |hooks|
  {
    match step
    case GroupDone =>
      if s.phase.Waiting? && AllFinished(s.status, groups[s.group]) {
        GroupDoneKeepsInv(hooks, groups, groupOf, placeOf, s);
      }
    case Launch => LaunchKeepsOrder(hooks, groups, groupOf, placeOf, s);
    case Begin(_) => WorkKeepsInv(groups, groupOf, placeOf, s, step);
    case Finish(_, _) => WorkKeepsInv(groups, groupOf, placeOf, s, step);
    case _ =>
  }

  lemma {:induction false} RunKeepsInv(hooks: seq<Hook>, groups: seq<seq<nat>>, groupOf: seq<nat>, placeOf: seq<nat>,
                                       steps: seq<Step>)
    requires Grouping(hooks, groups, groupOf, placeOf)
    ensures var s := Run(|hooks|, groups, steps); Inv(groups, groupOf, placeOf, s) && |s.status| == |hooks|
  {
    if steps != [] {
      RunKeepsInv(hooks, groups, groupOf, placeOf, steps[..|steps| - 1]);
      StepKeepsInv(hooks, groups, groupOf, placeOf, Run(|hooks|, groups, steps[..|steps| - 1]), steps[|steps| - 1]);
    }
  }

  ghost predicate Guaranteed(hooks: seq<Hook>, s: State) {
    && |s.status| == |s.begun| == |hooks|
    && (forall h, i :: 0 <= h < |hooks| && 0 <= i < |hooks| && hooks[h].priority < hooks[i].priority ==>
          s.status[i] != Idle ==> s.status[h].Finished?)
    && (forall h :: 0 <= h < |hooks| ==> s.begun[h] <= 1)
    && (s.phase == Returned(Success) ==> forall h :: 0 <= h < |hooks| ==> s.status[h] == Finished(true))
    && (s.phase == Returned(Failed) ==>
          && (forall h :: 0 <= h < |hooks| ==> s.status[h].Finished?)
          && (exists h :: 0 <= h < |hooks| && s.status[h] == Finished(false)))
  }

  /** Whatever was registered, grouped as `GroupHooks` groups it, in every interleaving: a hook that has
      been launched finds every hook of a lower number finished, no hook is started twice, a nil result
      means every hook finished without error, and an error result that is not the timeout means all
      finished and some failed. */
  lemma ShutdownGuarantees(hs: seq<Hook>, groups: map<int, seq<nat>>, priorities: seq<int>, steps: seq<Step>)
    requires Grouped(Registered(hs), |Registered(hs)|, groups, priorities)
    ensures Guaranteed(Registered(hs), Run(|Registered(hs)|, InOrder(groups, priorities), steps))
  {
    var hooks := Registered(hs);
    var groupOf, placeOf := GroupsAreGrouping(hooks, groups, priorities);
    GuaranteedByInv(hooks, InOrder(groups, priorities), groupOf, placeOf, steps);
  }

  lemma GuaranteedByInv(hooks: seq<Hook>, groups: seq<seq<nat>>, groupOf: seq<nat>, placeOf: seq<nat>, steps: seq<Step>)
    requires Grouping(hooks, groups, groupOf, placeOf)
    ensures Guaranteed(hooks, Run(|hooks|, groups, steps))
  {
    RunKeepsInv(hooks, groups, groupOf, placeOf, steps);
  }

  function From(groups: seq<seq<nat>>, s: State, steps: seq<Step>): State
    decreases steps
  {
    if steps == [] then s else From(groups, Next(groups, s, steps[0]), steps[1..])
  }

  /** After `Shutdown` has returned, by timeout or otherwise, no idle hook is ever launched, and a
      further call of `Shutdown` changes nothing. */
  lemma {:induction false} NothingLaunchedAfterReturn(groups: seq<seq<nat>>, s: State, steps: seq<Step>, h: nat)
    requires s.phase.Returned? && h < |s.status| && s.status[h] == Idle
    ensures var t := From(groups, s, steps); t.phase == s.phase && h < |t.status| && t.status[h] == Idle
    decreases steps
  {
    if steps != [] {
      NothingLaunchedAfterReturn(groups, Next(groups, s, steps[0]), steps[1..], h);
    }
  }

  lemma {:induction false} OnlyLaunchedBegin(groups: seq<seq<nat>>, s: State, steps: seq<Step>, h: nat)
    requires s.phase.Returned? && h < |s.status| == |s.begun| && s.status[h] != Launched
    ensures var t := From(groups, s, steps); h < |t.status| == |t.begun| && t.begun[h] == s.begun[h]
    decreases steps
  {
    if steps != [] {
      OnlyLaunchedBegin(groups, Next(groups, s, steps[0]), steps[1..], h);
    }
  }

  /** Some continuation starts the hook once more. */
  ghost predicate MayBegin(groups: seq<seq<nat>>, s: State, h: nat) {
    exists steps :: BeginsIn(groups, s, steps, h)
  }

  predicate BeginsIn(groups: seq<seq<nat>>, s: State, steps: seq<Step>, h: nat) {
    var t := From(groups, s, steps);
    h < |s.begun| && h < |t.begun| && t.begun[h] > s.begun[h]
  }

  /** After `Shutdown` has returned, by timeout or otherwise, a hook may still begin exactly if its
      goroutine had been launched and had not begun. */
  lemma LateStartIff(groups: seq<seq<nat>>, s: State, h: nat)
    requires s.phase.Returned? && h < |s.status| == |s.begun|
    ensures MayBegin(groups, s, h) <==> s.status[h] == Launched
  {
    if s.status[h] == Launched {
      FromCons(groups, s, Begin(h), []);
      assert BeginsIn(groups, s, [Begin(h)] + [], h);
    } else {
      forall steps ensures !BeginsIn(groups, s, steps, h) {
        OnlyLaunchedBegin(groups, s, steps, h);
      }
    }
  }

  /** Only a timeout leaves such a hook behind: after any other return every hook has finished. */
  lemma LateStartNeedsTimeout(hs: seq<Hook>, groups: map<int, seq<nat>>, priorities: seq<int>, steps: seq<Step>, h: nat)
    requires Grouped(Registered(hs), |Registered(hs)|, groups, priorities) && h < |Registered(hs)|
    ensures var gs := InOrder(groups, priorities);
            var s := Run(|Registered(hs)|, gs, steps);
            s.phase.Returned? && MayBegin(gs, s, h) ==> s.phase == Returned(TimedOut)
  {
    var gs := InOrder(groups, priorities);
    var s := Run(|Registered(hs)|, gs, steps);
    ShutdownGuarantees(hs, groups, priorities, steps);
    if s.phase.Returned? && s.phase.result != TimedOut {
      assert s.status[h].Finished?;
      LateStartIff(gs, s, h);
    }
  }

  // ---- What Shutdown gets done ----

  lemma {:induction false} RunFrom(n: nat, groups: seq<seq<nat>>, steps: seq<Step>, more: seq<Step>)
    ensures Run(n, groups, steps + more) == From(groups, Run(n, groups, steps), more)
    decreases more
  {
    if more == [] {
      assert steps + more == steps;
    } else {
      var one := steps + [more[0]];
      assert steps + more == one + more[1..] && one[..|steps|] == steps;
      RunFrom(n, groups, one, more[1..]);
    }
  }

  /** Only the first call of `Shutdown` does anything, whatever has happened since. */
  lemma SecondCallIgnored(n: nat, groups: seq<seq<nat>>, steps: seq<Step>)
    requires CallShutdown in steps
    ensures Run(n, groups, steps + [CallShutdown]) == Run(n, groups, steps)
  {
    CalledIsStarted(n, groups, steps);
    assert (steps + [CallShutdown])[..|steps|] == steps;
  }

  /** A step at which the timeout strikes: it is due while the loop waits for a group. */
  predicate Strikes(n: nat, groups: seq<seq<nat>>, steps: seq<Step>, k: nat)
    requires k < |steps|
  {
    steps[k] == Timeout && Run(n, groups, steps[..k]).phase == Waiting
  }

  /** The timeout is reported if and only if it struck. */
  lemma {:induction false} TimedOutIff(n: nat, groups: seq<seq<nat>>, steps: seq<Step>)
    ensures Run(n, groups, steps).phase == Returned(TimedOut)
       <==> exists k :: 0 <= k < |steps| && Strikes(n, groups, steps, k)
  {
    if steps != [] {
      var last := |steps| - 1;
      var front := steps[..last];
      TimedOutIff(n, groups, front);
      forall k | 0 <= k < last ensures Strikes(n, groups, front, k) <==> Strikes(n, groups, steps, k) {
        assert front[..k] == steps[..k];
      }
      var s := Run(n, groups, front);
      if s.phase == Returned(TimedOut) {
        var k :| 0 <= k < last && Strikes(n, groups, front, k);
        assert Strikes(n, groups, steps, k);
      } else if Run(n, groups, steps).phase == Returned(TimedOut) {
        assert Strikes(n, groups, steps, last);
      }
    }
  }

  /** Without a timeout the result is nil exactly if every hook finished without error. */
  lemma NilIff(hs: seq<Hook>, groups: map<int, seq<nat>>, priorities: seq<int>, steps: seq<Step>)
    requires Grouped(Registered(hs), |Registered(hs)|, groups, priorities) && Timeout !in steps
    ensures var s := Run(|Registered(hs)|, InOrder(groups, priorities), steps);
            s.phase.Returned? ==>
              (s.phase.result == Success <==> forall h :: 0 <= h < |s.status| ==> s.status[h] == Finished(true))
  {
    ShutdownGuarantees(hs, groups, priorities, steps);
    TimedOutIff(|Registered(hs)|, InOrder(groups, priorities), steps);
  }

  function Left(status: Status): nat {
    match status case Idle => 3 case Launched => 2 case Running => 1 case Finished(_) => 0
  }
  function LeftOf(status: seq<Status>): nat {
    if status == [] then 0 else LeftOf(status[..|status| - 1]) + Left(status[|status| - 1])
  }

  /** What is left to do before the loop has gone through all groups. */
  function Work(groups: seq<seq<nat>>, s: State): nat
    requires s.group <= |groups|
  {
    2 * (|groups| - s.group) + (if s.phase.Launching? then 1 else 0) + LeftOf(s.status)
  }

  lemma {:induction false} LeftAfter(status: seq<Status>, h: nat, to: Status)
    requires h < |status|
    ensures LeftOf(status[h := to]) == LeftOf(status) - Left(status[h]) + Left(to)
  {
    var front, last := status[..|status| - 1], status[|status| - 1];
    if h < |front| {
      LeftAfter(front, h, to);
      assert status[h := to][..|front|] == front[h := to];
    } else {
      assert status[h := to][..|front|] == front;
    }
  }

  ghost predicate GetsOn(groups: seq<seq<nat>>, s: State, step: Step)
    requires s.group <= |groups|
  {
    var t := Next(groups, s, step);
    && step != Timeout && t.group <= |groups| && Work(groups, t) < Work(groups, s)
    && t.phase != Returned(TimedOut) && !t.phase.NotStarted?
  }

  lemma LaunchGetsOn(hooks: seq<Hook>, groups: seq<seq<nat>>, groupOf: seq<nat>, placeOf: seq<nat>, s: State)
    requires Grouping(hooks, groups, groupOf, placeOf) && |s.status| == |hooks| && Inv(groups, groupOf, placeOf, s)
    requires s.phase.Launching?
    ensures GetsOn(groups, s, Launch)
  {
    if s.next < |groups[s.group]| {
      var h := groups[s.group][s.next];
      assert groupOf[h] == s.group && placeOf[h] == s.next && s.status[h] == Idle;
      LeftAfter(s.status, h, Launched);
    }
  }

  lemma HookGetsOn(groups: seq<seq<nat>>, s: State, h: nat)
    requires s.phase.Waiting? && s.group <= |groups| && h < |s.status| == |s.begun|
    requires s.status[h] == Launched || s.status[h] == Running
    ensures GetsOn(groups, s, if s.status[h] == Launched then Begin(h) else Finish(h, true))
  {
    LeftAfter(s.status, h, if s.status[h] == Launched then Running else Finished(true));
  }

  /** Whatever the state, some step gets on with it. */
  lemma Progress(hooks: seq<Hook>, groups: seq<seq<nat>>, groupOf: seq<nat>, placeOf: seq<nat>, s: State)
    returns (step: Step)
    requires Grouping(hooks, groups, groupOf, placeOf) && |s.status| == |hooks| && Inv(groups, groupOf, placeOf, s)
    requires s.phase.Launching? || s.phase.Waiting?
    ensures GetsOn(groups, s, step)
  {
    if s.phase.Launching? {
      LaunchGetsOn(hooks, groups, groupOf, placeOf, s);
      step := Launch;
    } else if k :| 0 <= k < |groups[s.group]| && !s.status[groups[s.group][k]].Finished? {
      var h := groups[s.group][k];
      assert groupOf[h] == s.group && placeOf[h] == k && s.status[h] != Idle;
      HookGetsOn(groups, s, h);
      step := if s.status[h] == Launched then Begin(h) else Finish(h, true);
    } else {
      step := GroupDone;
    }
  }

  lemma ReturnedIsDone(hooks: seq<Hook>, groups: seq<seq<nat>>, groupOf: seq<nat>, placeOf: seq<nat>, s: State)
    requires Grouping(hooks, groups, groupOf, placeOf) && |s.status| == |hooks| && Inv(groups, groupOf, placeOf, s)
    requires s.phase.Returned? && s.phase != Returned(TimedOut)
    ensures AllDone(s)
  {
    assert s.phase == Returned(s.phase.result) && (s.phase.result.Success? || s.phase.result.Failed?);
    assert forall h :: 0 <= h < |hooks| ==> groupOf[h] < |groups| && s.status[h].Finished?;
  }

  lemma {:induction false} Completes(hooks: seq<Hook>, groups: seq<seq<nat>>, groupOf: seq<nat>, placeOf: seq<nat>,
                                     s: State)
    returns (steps: seq<Step>)
    requires Grouping(hooks, groups, groupOf, placeOf) && |s.status| == |hooks| && Inv(groups, groupOf, placeOf, s)
    requires !s.phase.NotStarted? && s.phase != Returned(TimedOut)
    ensures Timeout !in steps
    ensures var t := From(groups, s, steps); AllDone(t) && |t.status| == |hooks|
    decreases Work(groups, s)
  {
    if s.phase.Returned? {
      ReturnedIsDone(hooks, groups, groupOf, placeOf, s);
      steps := [];
    } else {
      var step := Progress(hooks, groups, groupOf, placeOf, s);
      var t := Next(groups, s, step);
      StepKeepsInv(hooks, groups, groupOf, placeOf, s, step);
      var rest := Completes(hooks, groups, groupOf, placeOf, t);
      FromCons(groups, s, step, rest);
      steps := [step] + rest;
    }
  }

  /** Shutdown has returned, not by timeout, and every hook began exactly once and finished. */
  ghost predicate AllDone(s: State) {
    && s.phase.Returned? && s.phase != Returned(TimedOut) && |s.begun| == |s.status|
    && forall h :: 0 <= h < |s.status| ==> s.begun[h] == 1 && s.status[h].Finished?
  }

  lemma {:induction false} CalledIsStarted(n: nat, groups: seq<seq<nat>>, steps: seq<Step>)
    requires CallShutdown in steps
    ensures !Run(n, groups, steps).phase.NotStarted?
  {
    var front := steps[..|steps| - 1];
    if CallShutdown in front {
      CalledIsStarted(n, groups, front);
    }
  }

  /** From wherever a run has got to after `Shutdown` was called, unless the timeout has struck, it can go
      on, without a timeout, to a return after which every hook has begun exactly once and finished. */
  lemma EveryHookCanRun(hs: seq<Hook>, groups: map<int, seq<nat>>, priorities: seq<int>, steps: seq<Step>)
    returns (more: seq<Step>)
    requires Grouped(Registered(hs), |Registered(hs)|, groups, priorities) && CallShutdown in steps
    requires Run(|Registered(hs)|, InOrder(groups, priorities), steps).phase != Returned(TimedOut)
    ensures Timeout !in more && AllDone(Run(|Registered(hs)|, InOrder(groups, priorities), steps + more))
  {
    var hooks, gs := Registered(hs), InOrder(groups, priorities);
    var groupOf, placeOf := GroupsAreGrouping(hooks, groups, priorities);
    RunKeepsInv(hooks, gs, groupOf, placeOf, steps);
    CalledIsStarted(|hooks|, gs, steps);
    more := Completes(hooks, gs, groupOf, placeOf, Run(|hooks|, gs, steps));
    RunFrom(|hooks|, gs, steps, more);
  }

  /** A hook whose goroutine was launched in time may still start after the timeout has been reported. */
  lemma LateStart()
    ensures var s := From([[0]], Initial(1), [CallShutdown] + [Launch, Launch, Timeout]);
            s.phase == Returned(TimedOut) && s.begun == [0] && Next([[0]], s, Begin(0)).begun == [1]
  {
    var gs := [[0]];
    var s0 := Initial(1);
    assert s0.status == [Idle] && s0.begun == [0];
    var s1 := Next(gs, s0, CallShutdown);
    var s2 := Next(gs, s1, Launch);
    assert s2.status == [Launched];
    var s3 := Next(gs, s2, Launch);
    FromCons(gs, s0, CallShutdown, [Launch, Launch, Timeout]);
    FromCons(gs, s1, Launch, [Launch, Timeout]);
    FromCons(gs, s2, Launch, [Timeout]);
    FromCons(gs, s3, Timeout, []);
    assert [Launch] + [Launch, Timeout] == [Launch, Launch, Timeout] && [Launch] + [Timeout] == [Launch, Timeout];
    assert [Timeout] + [] == [Timeout];
  }

  lemma FromCons(groups: seq<seq<nat>>, s: State, step: Step, rest: seq<Step>)
    ensures From(groups, s, [step] + rest) == From(groups, Next(groups, s, step), rest)
  {
    assert ([step] + rest)[1..] == rest;
  }
}
