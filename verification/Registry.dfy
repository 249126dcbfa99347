/** The scheduler's job registry of core/scheduler.go over go-cron, taken as a
    registry that refuses a name it already has and hands out fresh ids. A job
    object is a value with its own handle; the cron id it carries is in `ids`. */
module Registry {
  import opened Prelude

  datatype Job = Job(handle: nat, name: string, schedule: string)
  datatype CronEntry = CronEntry(id: nat, tags: set<string>, paused: bool)

  datatype State = State(
    jobs: seq<Job>,
    byName: map<string, Job>,
    disabled: set<string>,
    removed: seq<Job>,
    ids: map<Job, nat>,
    cron: map<string, CronEntry>,
    nextId: nat
  )

  const EMPTY := State([], map[], {}, [], map[], map[], 1)

  /** A job that was never registered carries id 0. */
  function Id(ids: map<Job, nat>, j: Job): nat { if j in ids then ids[j] else 0 }

  function Without(jobs: seq<Job>, i: nat): seq<Job>
    requires i < |jobs|
  {
    jobs[..i] + jobs[i + 1..]
  }

  // ---- Lookups ----

  /** The linear scan. */
  function Scan(jobs: seq<Job>, n: string): Option<Job> {
    if jobs == [] then None else if jobs[0].name == n then Some(jobs[0]) else Scan(jobs[1..], n)
  }

  /** The first job that is `j` or carries its id, as `RemoveJob` looks for it. */
  function FirstMatch(jobs: seq<Job>, ids: map<Job, nat>, j: Job): (i: nat)
    ensures i <= |jobs|
    ensures i < |jobs| ==> jobs[i] == j || Id(ids, jobs[i]) == Id(ids, j)
    ensures forall k :: 0 <= k < i ==> jobs[k] != j && Id(ids, jobs[k]) != Id(ids, j)
  {
    if jobs == [] then 0
    else if jobs[0] == j || Id(ids, jobs[0]) == Id(ids, j) then 0
    else
      var r := FirstMatch(jobs[1..], ids, j);
      assert forall k :: 0 < k <= r && k < |jobs| ==> jobs[k] == jobs[1..][k - 1];
      r + 1
  }

  // ---- Operations ----

  function Added(s: State, j: Job, tags: set<string>, readable: bool): (State, bool) {
    if j.schedule == "" || !readable || j.name in s.cron then (s, false)
    else
      (s.(jobs := s.jobs + [j], byName := s.byName[j.name := j], ids := s.ids[j := s.nextId],
          cron := s.cron[j.name := CronEntry(s.nextId, tags, false)], nextId := s.nextId + 1), true)
  }

  function Removed(s: State, j: Job): State {
    var i := FirstMatch(s.jobs, s.ids, j);
    s.(jobs := if i < |s.jobs| then Without(s.jobs, i) else s.jobs,
       byName := s.byName - {j.name}, disabled := s.disabled - {j.name},
       removed := s.removed + [j], cron := s.cron - {j.name})
  }

  function Disabled(s: State, n: string): (State, bool) {
    if Scan(s.jobs, n).None? then (s, false)
    else if n in s.disabled then (s, true)
    else if n !in s.cron then (s, false)
    else (s.(disabled := s.disabled + {n}, cron := s.cron[n := s.cron[n].(paused := true)]), true)
  }

  function Enabled(s: State, n: string): (State, bool) {
    if n !in s.disabled then (s, n in s.byName)
    else if Scan(s.jobs, n).None? || n !in s.cron then (s, false)
    else (s.(disabled := s.disabled - {n}, cron := s.cron[n := s.cron[n].(paused := false)]), true)
  }

  /** The replacement keeps whatever cron id the new job object already carries. */
  function Updated(s: State, n: string, j: Job, readable: bool): (State, bool) {
    if Scan(s.jobs, n).None? || n in s.disabled || !readable || n !in s.cron then (s, false)
    else (s.(jobs := ReplaceFirst(s.jobs, n, j), byName := s.byName[n := j]), true)
  }
  function ReplaceFirst(jobs: seq<Job>, n: string, j: Job): seq<Job> {
    if jobs == [] then [] else if jobs[0].name == n then [j] + jobs[1..] else [jobs[0]] + ReplaceFirst(jobs[1..], n, j)
  }

  /** The last job carrying an id. */
  function LastWithId(jobs: seq<Job>, ids: map<Job, nat>, id: nat): (at: Option<nat>)
    ensures at.Some? ==> at.value < |jobs| && Id(ids, jobs[at.value]) == id
    ensures at.None? ==> forall k :: 0 <= k < |jobs| ==> Id(ids, jobs[k]) != id
  {
    if jobs == [] then None
    else if Id(ids, jobs[|jobs| - 1]) == id then Some(|jobs| - 1)
    else LastWithId(jobs[..|jobs| - 1], ids, id)
  }

  /** One entry of a removal by tag. */
  function Dropped(s: State, id: nat): State {
    var at := LastWithId(s.jobs, s.ids, id);
    if at.None? then s
    else
      var j := s.jobs[at.value];
      s.(jobs := Without(s.jobs, at.value), byName := s.byName - {j.name},
         disabled := s.disabled - {j.name}, removed := s.removed + [j])
  }

  function DroppedAll(s: State, cron: map<string, CronEntry>, names: seq<string>): State
    requires forall n :: n in names ==> n in cron
  {
    if names == [] then s else Dropped(DroppedAll(s, cron, names[..|names| - 1]), cron[names[|names| - 1]].id)
  }

  function Tagged(cron: map<string, CronEntry>, tag: string): set<string> {
    set n | n in cron && tag in cron[n].tags
  }

  /** `order` lists a set, each element once. */
  ghost predicate Lists(order: seq<string>, names: set<string>) {
    (forall n :: n in order <==> n in names) && forall i, k :: 0 <= i < k < |order| ==> order[i] != order[k]
  }

  lemma ListsOneMore(order: seq<string>, names: set<string>, n: string)
    requires Lists(order, names) && n !in names
    ensures Lists(order + [n], names + {n}) && (order + [n])[..|order|] == order
  {
  }

  ghost function JobsNamed(s: State, names: seq<string>): seq<Job>
    requires forall n :: n in names ==> n in s.byName
  {
    seq(|names|, i requires 0 <= i < |names| => s.byName[names[i]])
  }

  /** Removal by tag: the jobs of the tagged entries, in the order go-cron lists them. */
  function RemovedAll(s: State, order: seq<Job>): State {
    if order == [] then s else Removed(RemovedAll(s, order[..|order| - 1]), order[|order| - 1])
  }

  lemma {:induction false} ReplaceFirstAt(jobs: seq<Job>, n: string, j: Job, i: nat)
    requires i < |jobs| && jobs[i].name == n && forall k :: 0 <= k < i ==> jobs[k].name != n
    ensures ReplaceFirst(jobs, n, j) == jobs[i := j]
  {
    if i > 0 {
      ReplaceFirstAt(jobs[1..], n, j, i - 1);
      assert jobs[i := j] == [jobs[0]] + jobs[1..][i - 1 := j];
    }
  }

  // ---- The invariant ----

  ghost predicate Distinct(jobs: seq<Job>) {
    forall i, k :: 0 <= i < k < |jobs| ==> jobs[i].name != jobs[k].name
  }

  /** `byName` is exactly the index of `jobs`. */
  ghost predicate Indexed(jobs: seq<Job>, byName: map<string, Job>) {
    && Distinct(jobs)
    && (forall j :: j in jobs ==> j.name in byName && byName[j.name] == j)
    && (forall n :: n in byName ==> byName[n] in jobs && byName[n].name == n)
  }

  /** Ids are handed out once. */
  ghost predicate FreshIds(ids: map<Job, nat>, nextId: nat) {
    && nextId > 0
    && (forall j :: j in ids ==> 0 < ids[j] < nextId)
    && (forall i, j :: i in ids && j in ids && i != j ==> ids[i] != ids[j])
  }

  /** Every job has its cron entry, paused exactly when it is disabled. */
  ghost predicate Scheduled(jobs: seq<Job>, ids: map<Job, nat>, cron: map<string, CronEntry>, disabled: set<string>) {
    forall j :: j in jobs ==>
      && j in ids && j.name in cron && cron[j.name].id == ids[j]
      && (cron[j.name].paused <==> j.name in disabled)
  }

  ghost predicate Inv(s: State) {
    && Indexed(s.jobs, s.byName)
    && s.disabled <= s.byName.Keys && s.cron.Keys == s.byName.Keys
    && Scheduled(s.jobs, s.ids, s.cron, s.disabled)
    && FreshIds(s.ids, s.nextId)
  }

  lemma {:induction false} ScanFinds(jobs: seq<Job>, n: string)
    ensures var r := Scan(jobs, n);
            if r.Some? then r.value in jobs && r.value.name == n else forall j :: j in jobs ==> j.name != n
  {
    if jobs != [] && jobs[0].name != n {
      ScanFinds(jobs[1..], n);
    }
  }

  /** Looking a name up in the map and scanning the list give the same answer. */
  lemma MapLookupIsScan(s: State, n: string)
    requires Inv(s)
    ensures Scan(s.jobs, n) == if n in s.byName then Some(s.byName[n]) else None
  {
    ScanFinds(s.jobs, n);
  }

  lemma AddKeepsInv(s: State, j: Job, tags: set<string>, readable: bool)
    requires Inv(s)
    ensures Inv(Added(s, j, tags, readable).0)
  {
    var (t, ok) := Added(s, j, tags, readable);
    if ok {
      AppendIndexed(s.jobs, s.byName, j);
      AppendScheduled(s, j, CronEntry(s.nextId, tags, false));
      FreshIdsGrow(s.ids, s.nextId, j);
    }
  }

  lemma FreshIdsGrow(ids: map<Job, nat>, nextId: nat, j: Job)
    requires FreshIds(ids, nextId)
    ensures FreshIds(ids[j := nextId], nextId + 1)
  {
  }

  lemma AppendIndexed(jobs: seq<Job>, byName: map<string, Job>, j: Job)
    requires Indexed(jobs, byName) && j.name !in byName
    ensures Indexed(jobs + [j], byName[j.name := j])
  {
    assert forall i :: 0 <= i < |jobs| ==> jobs[i] in jobs;
  }

  lemma AppendScheduled(s: State, j: Job, e: CronEntry)
    requires Inv(s) && j.name !in s.byName && !e.paused
    ensures Scheduled(s.jobs + [j], s.ids[j := e.id], s.cron[j.name := e], s.disabled)
  {
    assert j !in s.jobs;
  }

  lemma DisableKeepsInv(s: State, n: string)
    requires Inv(s)
    ensures Inv(Disabled(s, n).0)
  {
    ScanFinds(s.jobs, n);
    if n in s.cron {
      assert s.cron[n := s.cron[n].(paused := true)].Keys == s.cron.Keys;
    }
  }

  lemma EnableKeepsInv(s: State, n: string)
    requires Inv(s)
    ensures Inv(Enabled(s, n).0)
  {
    if n in s.cron {
      assert s.cron[n := s.cron[n].(paused := false)].Keys == s.cron.Keys;
    }
  }

  /** What is left after taking out the i-th job. */
  lemma WithoutAt(jobs: seq<Job>, i: nat)
    requires i < |jobs|
    ensures var rest := Without(jobs, i);
            |rest| == |jobs| - 1 && forall k :: 0 <= k < |rest| ==> rest[k] == if k < i then jobs[k] else jobs[k + 1]
  {
  }

  lemma StaysWithout(jobs: seq<Job>, i: nat, k: nat)
    requires i < |jobs| && k < |jobs| && k != i
    ensures jobs[k] in Without(jobs, i)
  {
    assert Without(jobs, i)[if k < i then k else k - 1] == jobs[k];
  }

  lemma WithoutMembers(jobs: seq<Job>, i: nat)
    requires Distinct(jobs) && i < |jobs|
    ensures Distinct(Without(jobs, i))
    ensures forall j :: j in Without(jobs, i) <==> j in jobs && j != jobs[i]
  {
    WithoutAt(jobs, i);
    forall j | j in jobs && j != jobs[i] ensures j in Without(jobs, i) {
      var k :| 0 <= k < |jobs| && jobs[k] == j;
      StaysWithout(jobs, i, k);
    }
  }

  lemma WithoutIndexed(jobs: seq<Job>, byName: map<string, Job>, i: nat)
    requires Indexed(jobs, byName) && i < |jobs|
    ensures Indexed(Without(jobs, i), byName - {jobs[i].name})
    ensures forall j :: j in Without(jobs, i) <==> j in jobs && j != jobs[i]
  {
    WithoutMembers(jobs, i);
    assert jobs[i] in jobs;
  }

  lemma MatchesItself(s: State, j: Job)
    requires Inv(s) && j in s.jobs
    ensures var i := FirstMatch(s.jobs, s.ids, j); i < |s.jobs| && s.jobs[i] == j
  {
    var k :| 0 <= k < |s.jobs| && s.jobs[k] == j;
    var i := FirstMatch(s.jobs, s.ids, j);
    assert i <= k;
    assert s.jobs[i] in s.jobs;
    SameIdSameJob(s, s.jobs[i], j);
  }

  lemma RemoveRegistered(s: State, j: Job)
    requires Inv(s) && j in s.jobs
    ensures Inv(Removed(s, j))
    ensures FirstMatch(s.jobs, s.ids, j) < |s.jobs| && s.jobs[FirstMatch(s.jobs, s.ids, j)] == j
  {
    MatchesItself(s, j);
    WithoutKeepsInv(s, FirstMatch(s.jobs, s.ids, j));
  }

  lemma WithoutKeepsInv(s: State, i: nat)
    requires Inv(s) && i < |s.jobs|
    ensures var n := s.jobs[i].name;
            Inv(s.(jobs := Without(s.jobs, i), byName := s.byName - {n}, disabled := s.disabled - {n},
                   removed := s.removed + [s.jobs[i]], cron := s.cron - {n}))
  {
    WithoutIndexed(s.jobs, s.byName, i);
    WithoutScheduled(s, i);
  }

  lemma SameIdSameJob(s: State, i: Job, j: Job)
    requires Inv(s) && i in s.jobs && j in s.jobs && Id(s.ids, i) == Id(s.ids, j)
    ensures i == j
  {
  }

  lemma WithoutScheduled(s: State, i: nat)
    requires Inv(s) && i < |s.jobs|
    ensures var n := s.jobs[i].name;
            Scheduled(Without(s.jobs, i), s.ids, s.cron - {n}, s.disabled - {n})
  {
    WithoutIndexed(s.jobs, s.byName, i);
  }

  lemma RemoveUnknown(s: State, j: Job)
    requires Inv(s) && j !in s.jobs
    ensures FirstMatch(s.jobs, s.ids, j) == |s.jobs|
  {
    assert forall k :: 0 <= k < |s.jobs| ==> s.jobs[k] in s.ids;
  }

  /** `RemoveJob` keeps the registry consistent exactly for a registered job, or one whose name is free:
      called with a stale object it drops the name of a job it leaves in the list. */
  lemma RemoveKeepsInvIff(s: State, j: Job)
    requires Inv(s)
    ensures Inv(Removed(s, j)) <==> j in s.jobs || j.name !in s.byName
  {
    if j in s.jobs {
      RemoveRegistered(s, j);
    } else {
      RemoveUnknown(s, j);
      if j.name in s.byName {
        assert s.byName[j.name] in Removed(s, j).jobs;
      } else {
        assert s.byName - {j.name} == s.byName && s.disabled - {j.name} == s.disabled && s.cron - {j.name} == s.cron;
      }
    }
  }

  ghost function NameSet(order: seq<string>): set<string> { set n | n in order }

  ghost predicate Plausible(s: State, order: seq<string>) {
    && (forall n :: n in order ==> n in s.byName)
    && (forall i, k :: 0 <= i < k < |order| ==> order[i] != order[k])
  }

  /** The names, entries and ids left after removing some named jobs. */
  lemma {:induction false} RemovedAllLeaves(s: State, order: seq<string>)
    requires Plausible(s, order) && (forall n :: n in s.byName ==> s.byName[n].name == n)
    ensures var r := RemovedAll(s, JobsNamed(s, order));
            r.byName == s.byName - NameSet(order) && r.cron == s.cron - NameSet(order) && r.ids == s.ids
  {
    if order == [] {
      assert JobsNamed(s, order) == [] && s.byName - {} == s.byName && s.cron - {} == s.cron;
    } else {
      var front, n := order[..|order| - 1], order[|order| - 1];
      FrontPlausible(s, order);
      RemovedAllLeaves(s, front);
      NamedSplit(s, order);
      RemovedAllNext(s, JobsNamed(s, order));
      MinusOneMore(s.byName, NameSet(front), n);
      MinusOneMore(s.cron, NameSet(front), n);
    }
  }

  lemma RemovedAllNext(s: State, order: seq<Job>)
    requires order != []
    ensures var r, r', j := RemovedAll(s, order[..|order| - 1]), RemovedAll(s, order), order[|order| - 1];
            r'.byName == r.byName - {j.name} && r'.cron == r.cron - {j.name} && r'.ids == r.ids
  {
  }

  lemma MinusOneMore<V>(m: map<string, V>, names: set<string>, n: string)
    ensures (m - names) - {n} == m - (names + {n})
  {
  }

  lemma NamedSplit(s: State, order: seq<string>)
    requires order != [] && forall n :: n in order ==> n in s.byName
    ensures var front, n := order[..|order| - 1], order[|order| - 1];
            JobsNamed(s, order)[..|order| - 1] == JobsNamed(s, front) && JobsNamed(s, order)[|order| - 1] == s.byName[n]
    ensures NameSet(order) == NameSet(order[..|order| - 1]) + {order[|order| - 1]}
  {
    assert order == order[..|order| - 1] + [order[|order| - 1]];
  }

  lemma UnrollBoth(s: State, t: State, cron: map<string, CronEntry>, order: seq<string>)
    requires order != [] && (forall n :: n in order ==> n in s.byName && n in cron)
    ensures var front, n := order[..|order| - 1], order[|order| - 1];
            && n in order && (forall m :: m in front ==> m in order)
            && RemovedAll(s, JobsNamed(s, order)) == Removed(RemovedAll(s, JobsNamed(s, front)), s.byName[n])
            && DroppedAll(t, cron, order) == Dropped(DroppedAll(t, cron, front), cron[n].id)
  {
    NamedSplit(s, order);
  }

  /** While the entries are dropped one by one, the registry is the one from which their jobs
      had been removed properly, except that go-cron's table is already short of the rest. */
  lemma {:induction false} DroppedSoFar(s: State, order: seq<string>, c: map<string, CronEntry>)
    requires Inv(s) && Plausible(s, order)
    ensures var r := RemovedAll(s, JobsNamed(s, order));
            Inv(r) && DroppedAll(s.(cron := c), s.cron, order) == r.(cron := c)
  {
    if order == [] {
      assert JobsNamed(s, order) == [];
    } else {
      var front, n := order[..|order| - 1], order[|order| - 1];
      UnrollBoth(s, s.(cron := c), s.cron, order);
      FrontPlausible(s, order);
      var r := RemovedAll(s, JobsNamed(s, front));
      DroppedSoFar(s, front, c);
      RemovedAllLeaves(s, front);
      DropsNext(s, r, front, n, c);
    }
  }

  lemma FrontPlausible(s: State, order: seq<string>)
    requires Plausible(s, order) && order != []
    ensures Plausible(s, order[..|order| - 1]) && order[|order| - 1] !in order[..|order| - 1]
  {
  }

  lemma DropsNext(s: State, r: State, front: seq<string>, n: string, c: map<string, CronEntry>)
    requires Inv(s) && Inv(r) && n !in front && n in s.byName
    requires r.byName == s.byName - NameSet(front) && r.cron == s.cron - NameSet(front)
    ensures Inv(Removed(r, s.byName[n]))
    ensures Dropped(r.(cron := c), s.cron[n].id) == Removed(r, s.byName[n]).(cron := c)
  {
    assert n !in NameSet(front);
    DropIsRemove(r, n);
    DropIgnoresCron(r, c, s.cron[n].id);
  }

  lemma DropIgnoresCron(s: State, c: map<string, CronEntry>, id: nat)
    ensures Dropped(s.(cron := c), id) == Dropped(s, id).(cron := c)
  {
  }

  lemma DropIsRemove(s: State, n: string)
    requires Inv(s) && n in s.byName
    ensures Inv(Removed(s, s.byName[n])) && s.byName[n].name == n
    ensures Dropped(s, s.cron[n].id).(cron := s.cron - {n}) == Removed(s, s.byName[n])
  {
    var j := s.byName[n];
    RemoveRegistered(s, j);
    var at := LastWithId(s.jobs, s.ids, s.cron[n].id);
    var i := FirstMatch(s.jobs, s.ids, j);
    assert at.Some?;
    SameIdSameJob(s, s.jobs[at.value], j);
    assert at.value == i;
  }

  lemma DroppedIsRemoved(s: State, order: seq<string>, tagged: set<string>)
    requires Inv(s) && tagged <= s.cron.Keys && Lists(order, tagged)
    ensures var r := RemovedAll(s, JobsNamed(s, order));
            Inv(r) && DroppedAll(s.(cron := s.cron - tagged), s.cron, order) == r
  {
    DroppedSoFar(s, order, s.cron - tagged);
    RemovedAllLeaves(s, order);
    assert NameSet(order) == tagged;
  }

  // ---- What each operation does to a consistent registry ----

  /** A job is taken exactly if its schedule is not empty and readable and its name is free. The name then
      leads to it, under a fresh id with its tags and running; every other name is as before. */
  lemma AddEffect(s: State, j: Job, tags: set<string>, readable: bool)
    requires Inv(s)
    ensures var (t, ok) := Added(s, j, tags, readable);
            && (ok <==> j.schedule != "" && readable && j.name !in s.byName)
            && (!ok ==> t == s)
            && (ok ==>
                  && t.jobs == s.jobs + [j] && j.name in t.byName && t.byName[j.name] == j && j.name !in t.disabled
                  && j.name in t.cron && t.cron[j.name] == CronEntry(Id(t.ids, j), tags, false)
                  && (forall i :: i in s.ids && i != j ==> Id(t.ids, i) == Id(s.ids, i) != Id(t.ids, j)))
            && SameElsewhere(s, t, j.name) && t.removed == s.removed
  {
  }

  ghost predicate SameElsewhere(s: State, t: State, n: string) {
    && (forall m :: m != n ==> (m in t.byName <==> m in s.byName) && (m in t.cron <==> m in s.cron))
    && (forall m :: m != n && m in s.byName ==> t.byName[m] == s.byName[m])
    && (forall m :: m != n && m in s.cron ==> t.cron[m] == s.cron[m])
    && (forall m :: m != n ==> (m in t.disabled <==> m in s.disabled))
  }

  /** Removing a registered job leaves nothing of its name, records it, and touches no other. */
  lemma RemoveEffect(s: State, j: Job)
    requires Inv(s) && j in s.jobs
    ensures var t := Removed(s, j);
            && (forall i :: i in t.jobs <==> i in s.jobs && i != j)
            && j.name !in t.byName && j.name !in t.cron && j.name !in t.disabled
            && t.removed == s.removed + [j] && t.ids == s.ids && SameElsewhere(s, t, j.name)
  {
    MatchesItself(s, j);
    WithoutIndexed(s.jobs, s.byName, FirstMatch(s.jobs, s.ids, j));
  }

  /** A known name, disabled already or not, is never refused; it then is disabled and its entry paused. */
  lemma DisableEffect(s: State, n: string)
    requires Inv(s)
    ensures var (t, ok) := Disabled(s, n);
            && (ok <==> n in s.byName) && (!ok ==> t == s)
            && (ok ==> n in t.disabled && n in t.cron && t.cron[n] == s.cron[n].(paused := true))
            && t.jobs == s.jobs && t.byName == s.byName && SameElsewhere(s, t, n)
  {
    MapLookupIsScan(s, n);
  }

  /** Likewise: it then is neither. */
  lemma EnableEffect(s: State, n: string)
    requires Inv(s)
    ensures var (t, ok) := Enabled(s, n);
            && (ok <==> n in s.byName) && (!ok ==> t == s)
            && (ok ==> n !in t.disabled && n in t.cron && t.cron[n] == s.cron[n].(paused := false))
            && t.jobs == s.jobs && t.byName == s.byName && SameElsewhere(s, t, n)
  {
    MapLookupIsScan(s, n);
  }

  /** An update of an active name puts the new job where the old one was; it keeps the entry and any id. */
  lemma UpdateEffect(s: State, n: string, j: Job, readable: bool)
    requires Inv(s)
    ensures var (t, ok) := Updated(s, n, j, readable);
            && (ok <==> n in s.byName && n !in s.disabled && readable) && (!ok ==> t == s)
            && (ok ==>
                  && n in t.byName && t.byName[n] == j && |t.jobs| == |s.jobs|
                  && (forall i :: 0 <= i < |s.jobs| ==> t.jobs[i] == if s.jobs[i].name == n then j else s.jobs[i]))
            && t.ids == s.ids && t.cron == s.cron && t.disabled == s.disabled && t.removed == s.removed
  {
    MapLookupIsScan(s, n);
    if Updated(s, n, j, readable).1 {
      ReplacedMembers(s.jobs, n, j);
    }
  }

  // ---- The scheduler ----

  class Scheduler {
    var jobs: seq<Job>
    var byName: map<string, Job>
    var disabled: set<string>
    var removed: seq<Job>
    var ids: map<Job, nat>
    var cron: map<string, CronEntry>
    var nextId: nat

    ghost function View(): State reads this { State(jobs, byName, disabled, removed, ids, cron, nextId) }

    constructor ()
      ensures View() == EMPTY
    {
      jobs, byName, disabled, removed, ids, cron, nextId := [], map[], {}, [], map[], map[], 1;
    }

    method AddJobWithTags(j: Job, tags: set<string>, readable: bool) returns (ok: bool)
      modifies this
      ensures (View(), ok) == Added(old(View()), j, tags, readable)
    {
      if j.schedule == "" || !readable || j.name in cron {
        return false;
      }
      cron := cron[j.name := CronEntry(nextId, tags, false)];
      ids := ids[j := nextId];
      nextId := nextId + 1;
      jobs := jobs + [j];
      byName := byName[j.name := j];
      ok := true;
    }

    method ScanFor(j: Job) returns (i: nat)
      ensures i == FirstMatch(jobs, ids, j)
    {
      i := 0;
      while i < |jobs| && !(jobs[i] == j || Id(ids, jobs[i]) == Id(ids, j))
        invariant 0 <= i <= FirstMatch(jobs, ids, j)
      {
        i := i + 1;
      }
    }

    method RemoveJob(j: Job)
      modifies this
      ensures View() == Removed(old(View()), j)
    {
      cron := cron - {j.name};
      var i := ScanFor(j);
      if i < |jobs| {
        jobs := jobs[..i] + jobs[i + 1..];
      }
      byName, disabled, removed := byName - {j.name}, disabled - {j.name}, removed + [j];
    }

    /** The last job carrying an id, or none. */
    method ScanBack(id: nat) returns (at: Option<nat>)
      ensures at == LastWithId(jobs, ids, id)
    {
      var i := |jobs|;
      assert jobs[..|jobs|] == jobs;
      while i > 0 && Id(ids, jobs[i - 1]) != id
        invariant 0 <= i <= |jobs|
        invariant LastWithId(jobs, ids, id) == LastWithId(jobs[..i], ids, id)
      {
        assert jobs[..i][..i - 1] == jobs[..i - 1];
        i := i - 1;
      }
      at := if i > 0 then Some(i - 1) else None;
    }

    /** One entry of a removal by tag; go-cron has already dropped the entry. */
    method DropEntry(id: nat)
      modifies this`jobs, this`byName, this`disabled, this`removed
      ensures View() == Dropped(old(View()), id)
    {
      var at := ScanBack(id);
      if at.Some? {
        var j := jobs[at.value];
        byName, disabled, removed := byName - {j.name}, disabled - {j.name}, removed + [j];
        jobs := jobs[..at.value] + jobs[at.value + 1..];
      }
    }

    method DropEntries(entries: set<string>, was: map<string, CronEntry>) returns (ghost order: seq<string>)
      requires entries <= was.Keys
      modifies this`jobs, this`byName, this`disabled, this`removed
      ensures Lists(order, entries) && View() == DroppedAll(old(View()), was, order)
    {
      var todo := entries;
      order := [];
      while todo != {}
        invariant todo <= entries && Lists(order, entries - todo)
        invariant View() == DroppedAll(old(View()), was, order)
      {
        var n :| n in todo;
        DropEntry(was[n].id);
        ListsOneMore(order, entries - todo, n);
        assert entries - todo + {n} == entries - (todo - {n});
        todo := todo - {n};
        order := order + [n];
      }
    }

    /** go-cron lists the tagged entries in an order of its own; `order` is their names in that order. */
    method RemoveJobsByTag(tag: string) returns (count: nat, ghost order: seq<string>)
      requires Inv(View())
      modifies this
      ensures Lists(order, Tagged(old(cron), tag)) && count == |Tagged(old(cron), tag)|
      ensures forall n :: n in order <==> n in old(cron) && tag in old(cron)[n].tags
      ensures forall n :: n in cron <==> n in old(cron) && tag !in old(cron)[n].tags
      ensures forall n :: n in byName <==> n in old(cron) && tag !in old(cron)[n].tags
      ensures View() == RemovedAll(old(View()), JobsNamed(old(View()), order)) && Inv(View())
    {
      var entries, was := Tagged(cron, tag), cron;
      count := |entries|;
      cron := cron - entries;
      order := DropEntries(entries, was);
      DroppedIsRemoved(old(View()), order, entries);
      RemovedAllLeaves(old(View()), order);
    }

    /** The map lookup finds what the scan would. */
    method LookupJob(n: string) returns (r: Option<Job>)
      requires Inv(View())
      ensures r == Scan(jobs, n)
      ensures r.Some? <==> exists i :: 0 <= i < |jobs| && jobs[i].name == n
    {
      MapLookupIsScan(View(), n);
      ScanFinds(jobs, n);
      r := if n in byName then Some(byName[n]) else None;
    }

    /** The linear scan. */
    method ScanByName(n: string) returns (r: Option<Job>)
      ensures r == Scan(jobs, n)
      ensures r.None? ==> forall i :: 0 <= i < |jobs| ==> jobs[i].name != n
      ensures r.Some? ==>
                exists i :: 0 <= i < |jobs| && jobs[i] == r.value && jobs[i].name == n
                         && forall k :: 0 <= k < i ==> jobs[k].name != n
    {
      for i := 0 to |jobs|
        invariant Scan(jobs, n) == Scan(jobs[i..], n)
        invariant forall k :: 0 <= k < i ==> jobs[k].name != n
      {
        if jobs[i].name == n {
          return Some(jobs[i]);
        }
      }
      r := None;
    }

    method DisableJob(n: string) returns (ok: bool)
      modifies this
      ensures (View(), ok) == Disabled(old(View()), n)
    {
      var j := ScanByName(n);
      if j.None? {
        return false;
      }
      if n in disabled {
        return true;
      }
      if n !in cron {
        return false;
      }
      cron := cron[n := cron[n].(paused := true)];
      disabled := disabled + {n};
      ok := true;
    }

    method EnableJob(n: string) returns (ok: bool)
      modifies this
      ensures (View(), ok) == Enabled(old(View()), n)
    {
      if n !in disabled {
        return n in byName;
      }
      var j := ScanByName(n);
      if j.None? || n !in cron {
        return false;
      }
      cron := cron[n := cron[n].(paused := false)];
      disabled := disabled - {n};
      ok := true;
    }

    /** The entry of a name gets a new schedule and job; the job keeps whatever cron id it carries. */
    method UpdateJob(n: string, j: Job, readable: bool) returns (ok: bool)
      modifies this`jobs, this`byName
      ensures (View(), ok) == Updated(old(View()), n, j, readable)
    {
      var found := ScanByName(n);
      if found.None? || n in disabled {
        return false;
      }
      if !readable || n !in cron {
        return false;
      }
      ghost var was := jobs;
      ScanFinds(jobs, n);
      for i := 0 to |jobs|
        invariant jobs == was && forall k :: 0 <= k < i ==> jobs[k].name != n
      {
        if jobs[i].name == n {
          ReplaceFirstAt(jobs, n, j, i);
          jobs := jobs[i := j];
          break;
        }
      }
      byName := byName[n := j];
      ok := true;
    }

    /** The list of active jobs, or of the disabled ones. */
    method ListJobs(wantDisabled: bool) returns (r: seq<Job>)
      ensures r == Pick(jobs, disabled, wantDisabled)
    {
      r := [];
      for i := 0 to |jobs|
        invariant r == Pick(jobs[..i], disabled, wantDisabled)
      {
        assert jobs[..i + 1][..i] == jobs[..i];
        if (jobs[i].name in disabled) == wantDisabled {
          r := r + [jobs[i]];
        }
      }
      assert jobs[..|jobs|] == jobs;
    }
  }

  // ---- Every run ----

  datatype Op =
    | Add(job: Job, tags: set<string>, readable: bool)
    | Remove(job: Job)
    | RemoveByTag(tag: string, order: seq<string>)
    | Disable(name: string)
    | Enable(name: string)
    | Update(name: string, job: Job, readable: bool)

  /** What the scheduler's callers keep to; updates are treated apart. */
  ghost predicate Sensible(s: State, op: Op) {
    match op
    case Remove(j) => j in s.jobs || j.name !in s.byName
    case RemoveByTag(tag, order) => Lists(order, Tagged(s.cron, tag))
    case Update(_, _, _) => false
    case _ => true
  }

  ghost function Apply(s: State, op: Op): State {
    match op
    case Add(j, tags, readable) => Added(s, j, tags, readable).0
    case Remove(j) => Removed(s, j)
    case RemoveByTag(tag, order) => DroppedByTag(s, tag, order)
    case Disable(n) => Disabled(s, n).0
    case Enable(n) => Enabled(s, n).0
    case Update(n, j, readable) => Updated(s, n, j, readable).0
  }

  /** go-cron forgets the tagged entries, then their jobs are dropped by id, in the order it listed them. */
  ghost function DroppedByTag(s: State, tag: string, order: seq<string>): State {
    if Lists(order, Tagged(s.cron, tag)) then DroppedAll(s.(cron := s.cron - Tagged(s.cron, tag)), s.cron, order) else s
  }

  ghost function After(ops: seq<Op>): State {
    if ops == [] then EMPTY else Apply(After(ops[..|ops| - 1]), ops[|ops| - 1])
  }

  ghost predicate AllSensible(ops: seq<Op>) {
    forall k :: 0 <= k < |ops| ==> Sensible(After(ops[..k]), ops[k])
  }

  lemma {:induction false} DroppedGrows(s: State, cron: map<string, CronEntry>, names: seq<string>)
    requires forall n :: n in names ==> n in cron
    ensures s.removed <= DroppedAll(s, cron, names).removed
  {
    if names != [] {
      DroppedGrows(s, cron, names[..|names| - 1]);
    }
  }

  lemma RemoveByTagKeepsInv(s: State, tag: string, order: seq<string>)
    requires Inv(s) && Lists(order, Tagged(s.cron, tag))
    ensures forall n :: n in order ==> n in s.byName
    ensures DroppedByTag(s, tag, order) == RemovedAll(s, JobsNamed(s, order)) && Inv(DroppedByTag(s, tag, order))
  {
    DroppedIsRemoved(s, order, Tagged(s.cron, tag));
  }

  lemma RemovedOnlyGrows(s: State, op: Op)
    ensures s.removed <= Apply(s, op).removed
  {
    if op.RemoveByTag? && Lists(op.order, Tagged(s.cron, op.tag)) {
      DroppedGrows(s.(cron := s.cron - Tagged(s.cron, op.tag)), s.cron, op.order);
    }
  }

  lemma ApplyKeepsInv(s: State, op: Op)
    requires Inv(s) && Sensible(s, op)
    ensures Inv(Apply(s, op))
  {
    match op
    case Add(j, tags, readable) => AddKeepsInv(s, j, tags, readable);
    case Remove(j) => RemoveKeepsInvIff(s, j);
    case RemoveByTag(tag, order) => RemoveByTagKeepsInv(s, tag, order);
    case Disable(n) => DisableKeepsInv(s, n);
    case Enable(n) => EnableKeepsInv(s, n);
  }

  /** In every run the name index is exact, cron and disabled names agree with it, and the
      record of removed jobs only grows. */
  lemma {:induction false} RunKeepsInv(ops: seq<Op>, k: nat)
    requires AllSensible(ops) && k <= |ops|
    ensures Inv(After(ops)) && After(ops[..k]).removed <= After(ops).removed
  {
    assert ops[..|ops|] == ops;
    if ops != [] {
      var front := ops[..|ops| - 1];
      assert forall i :: 0 <= i < |front| ==> front[..i] == ops[..i] && front[i] == ops[i];
      if k < |ops| {
        assert front[..k] == ops[..k];
        RunKeepsInv(front, k);
      } else {
        RunKeepsInv(front, 0);
      }
      ApplyKeepsInv(After(front), ops[|ops| - 1]);
      RemovedOnlyGrows(After(front), ops[|ops| - 1]);
    }
  }

  function Pick(jobs: seq<Job>, disabled: set<string>, wantDisabled: bool): seq<Job> {
    if jobs == [] then []
    else
      var last := jobs[|jobs| - 1];
      var earlier := Pick(jobs[..|jobs| - 1], disabled, wantDisabled);
      if (last.name in disabled) == wantDisabled then earlier + [last] else earlier
  }

  /** The active and the disabled jobs partition the list. */
  lemma {:induction false} ActiveAndDisabledPartition(jobs: seq<Job>, disabled: set<string>)
    ensures multiset(Pick(jobs, disabled, false)) + multiset(Pick(jobs, disabled, true)) == multiset(jobs)
    ensures forall j :: j in Pick(jobs, disabled, true) ==> j.name in disabled
    ensures forall j :: j in Pick(jobs, disabled, false) ==> j.name !in disabled
  {
    if jobs != [] {
      assert jobs == jobs[..|jobs| - 1] + [jobs[|jobs| - 1]];
      ActiveAndDisabledPartition(jobs[..|jobs| - 1], disabled);
    }
  }

  /** The list that `Pick` gives, as positions in the list of jobs: all of that kind, in their order. */
  lemma {:induction false} PickKeepsOrder(jobs: seq<Job>, disabled: set<string>, wantDisabled: bool)
    returns (at: seq<nat>)
    ensures |at| == |Pick(jobs, disabled, wantDisabled)| && (forall a, b :: 0 <= a < b < |at| ==> at[a] < at[b])
    ensures forall a :: 0 <= a < |at| ==> at[a] < |jobs| && jobs[at[a]] == Pick(jobs, disabled, wantDisabled)[a]
    ensures forall i :: 0 <= i < |jobs| ==> (i in at <==> (jobs[i].name in disabled) == wantDisabled)
  {
    if jobs == [] {
      at := [];
    } else {
      at := PickKeepsOrder(jobs[..|jobs| - 1], disabled, wantDisabled);
      if (jobs[|jobs| - 1].name in disabled) == wantDisabled {
        at := at + [|jobs| - 1];
      }
    }
  }

  // ---- UpdateJob ----

  /** Removing a listed job keeps the index exactly when no earlier job carries the same id. */
  lemma RemoveKeepsIndexIff(s: State, k: nat)
    requires Indexed(s.jobs, s.byName) && k < |s.jobs|
    ensures var t := Removed(s, s.jobs[k]);
            Indexed(t.jobs, t.byName) <==> forall i :: 0 <= i < k ==> Id(s.ids, s.jobs[i]) != Id(s.ids, s.jobs[k])
  {
    var j := s.jobs[k];
    var i := FirstMatch(s.jobs, s.ids, j);
    WithoutIndexed(s.jobs, s.byName, i);
    if i < k {
      assert j in Without(s.jobs, i);
      assert s.jobs[i].name != j.name;
    }
  }

  /** Removing any job keeps the index exactly when the job it takes out of the list has that job's name,
      or it takes out none and the name is free. */
  predicate TakesItsName(s: State, j: Job) {
    var i := FirstMatch(s.jobs, s.ids, j);
    if i < |s.jobs| then s.jobs[i].name == j.name else j.name !in s.byName
  }

  lemma RemovalIndexed(s: State, j: Job)
    requires Indexed(s.jobs, s.byName)
    ensures var t := Removed(s, j); Indexed(t.jobs, t.byName) <==> TakesItsName(s, j)
  {
    var i := FirstMatch(s.jobs, s.ids, j);
    if i < |s.jobs| {
      WithoutIndexed(s.jobs, s.byName, i);
      assert s.jobs[i] in s.jobs;
      if s.jobs[i].name != j.name {
        assert s.jobs[i].name in s.byName - {j.name} && s.jobs[i] !in Without(s.jobs, i);
      }
    } else if j.name !in s.byName {
      assert s.byName - {j.name} == s.byName;
    } else {
      assert s.byName[j.name] in s.jobs;
    }
  }

  lemma {:induction false} ReplacedMembers(jobs: seq<Job>, n: string, j: Job)
    requires Distinct(jobs) && Scan(jobs, n).Some?
    ensures var r := ReplaceFirst(jobs, n, j);
            && |r| == |jobs| && j in r
            && (forall i :: 0 <= i < |r| ==> r[i] == if jobs[i].name == n then j else jobs[i])
  {
    if jobs[0].name != n {
      ReplacedMembers(jobs[1..], n, j);
    }
  }

  /** An update keeps the index exactly when it is refused or the new job keeps the name. */
  lemma UpdateKeepsIndexIff(s: State, n: string, j: Job, readable: bool)
    requires Indexed(s.jobs, s.byName)
    ensures var (t, ok) := Updated(s, n, j, readable); Indexed(t.jobs, t.byName) <==> !ok || j.name == n
  {
    var (t, ok) := Updated(s, n, j, readable);
    if ok && j.name == n {
      ReplacedMembers(s.jobs, n, j);
      UpdateIndexed(s.jobs, s.byName, t.jobs, j);
    } else if ok {
      assert n in t.byName && t.byName[n].name != n;
    }
  }

  lemma UpdateIndexed(jobs: seq<Job>, byName: map<string, Job>, jobs': seq<Job>, j: Job)
    requires Indexed(jobs, byName) && j in jobs' && |jobs'| == |jobs|
    requires forall i :: 0 <= i < |jobs'| ==> jobs'[i] == if jobs[i].name == j.name then j else jobs[i]
    ensures Indexed(jobs', byName[j.name := j])
  {
    forall n | n in byName && n != j.name ensures byName[n] in jobs' {
      var i :| 0 <= i < |jobs| && jobs[i] == byName[n];
      assert jobs'[i] == jobs[i];
    }
    assert forall i :: 0 <= i < |jobs| ==> jobs[i] in jobs;
  }

  lemma {:induction false} DroppedIndexed(s: State, cron: map<string, CronEntry>, names: seq<string>)
    requires Indexed(s.jobs, s.byName) && forall n :: n in names ==> n in cron
    ensures var t := DroppedAll(s, cron, names); Indexed(t.jobs, t.byName) && t.ids == s.ids && t.cron == s.cron
  {
    if names != [] {
      DroppedIndexed(s, cron, names[..|names| - 1]);
      var r := DroppedAll(s, cron, names[..|names| - 1]);
      var at := LastWithId(r.jobs, r.ids, cron[names[|names| - 1]].id);
      if at.Some? {
        WithoutIndexed(r.jobs, r.byName, at.value);
      }
    }
  }

  /** The guard a caller can check before an operation, updates included. */
  ghost predicate KeepsIndex(s: State, op: Op) {
    match op
    case Add(j, tags, readable) => Added(s, j, tags, readable).1 ==> j.name !in s.byName
    case Remove(j) => TakesItsName(s, j)
    case Update(n, j, readable) => Updated(s, n, j, readable).1 ==> j.name == n
    case _ => true
  }

  lemma ApplyKeepsIndexIff(s: State, op: Op)
    requires Indexed(s.jobs, s.byName)
    ensures var t := Apply(s, op); Indexed(t.jobs, t.byName) <==> KeepsIndex(s, op)
  {
    match op
    case Add(j, tags, readable) =>
      if Added(s, j, tags, readable).1 {
        AddedIndexed(s.jobs, s.byName, j);
      }
    case Remove(j) => RemovalIndexed(s, j);
    case RemoveByTag(tag, order) =>
      if Lists(order, Tagged(s.cron, tag)) {
        DroppedIndexed(s.(cron := s.cron - Tagged(s.cron, tag)), s.cron, order);
      }
    case Update(n, j, readable) => UpdateKeepsIndexIff(s, n, j, readable);
    case _ =>
  }

  lemma AddedIndexed(jobs: seq<Job>, byName: map<string, Job>, j: Job)
    requires Indexed(jobs, byName)
    ensures Indexed(jobs + [j], byName[j.name := j]) <==> j.name !in byName
  {
    if j.name !in byName {
      AppendIndexed(jobs, byName, j);
    } else {
      var i :| 0 <= i < |jobs| && jobs[i] == byName[j.name];
      assert (jobs + [j])[i].name == (jobs + [j])[|jobs|].name;
    }
  }

  ghost predicate IndexedThroughout(ops: seq<Op>) {
    forall k :: 0 <= k <= |ops| ==> Indexed(After(ops[..k]).jobs, After(ops[..k]).byName)
  }

  ghost predicate GuardedThroughout(ops: seq<Op>) {
    forall k :: 0 <= k < |ops| ==> KeepsIndex(After(ops[..k]), ops[k])
  }

  lemma AfterPrefix(ops: seq<Op>, k: nat)
    requires k < |ops|
    ensures After(ops[..k + 1]) == Apply(After(ops[..k]), ops[k])
  {
    assert ops[..k + 1][..k] == ops[..k];
  }

  lemma {:induction false} GuardedPrefix(ops: seq<Op>, k: nat)
    requires GuardedThroughout(ops) && k <= |ops|
    ensures Indexed(After(ops[..k]).jobs, After(ops[..k]).byName)
  {
    if k > 0 {
      GuardedPrefix(ops, k - 1);
      AfterPrefix(ops, k - 1);
      ApplyKeepsIndexIff(After(ops[..k - 1]), ops[k - 1]);
    }
  }

  /** Over any run, updates included, the index is exact after every step exactly if every step met its guard. */
  lemma RunKeepsIndexIff(ops: seq<Op>)
    ensures IndexedThroughout(ops) <==> GuardedThroughout(ops)
  {
    if GuardedThroughout(ops) {
      forall k | 0 <= k <= |ops| ensures Indexed(After(ops[..k]).jobs, After(ops[..k]).byName) {
        GuardedPrefix(ops, k);
      }
    }
    if IndexedThroughout(ops) {
      forall k | 0 <= k < |ops| ensures KeepsIndex(After(ops[..k]), ops[k]) {
        AfterPrefix(ops, k);
        assert Indexed(After(ops[..k]).jobs, After(ops[..k]).byName);
        ApplyKeepsIndexIff(After(ops[..k]), ops[k]);
      }
    }
  }

  lemma {:induction false} DropsOnlyItsIds(s: State, cron: map<string, CronEntry>, names: seq<string>, j: Job)
    requires j in s.jobs && forall n :: n in names ==> n in cron && cron[n].id != Id(s.ids, j)
    ensures var t := DroppedAll(s, cron, names); j in t.jobs && t.ids == s.ids
  {
    if names != [] {
      var front, last := names[..|names| - 1], names[|names| - 1];
      DropsOnlyItsIds(s, cron, front, j);
      var r := DroppedAll(s, cron, front);
      var k :| 0 <= k < |r.jobs| && r.jobs[k] == j;
      var at := LastWithId(r.jobs, r.ids, cron[last].id);
      if at.Some? {
        StaysWithout(r.jobs, at.value, k);
      }
    }
  }

  /** An updated job carries no id, so a removal by its tag takes it out of go-cron and leaves it in the
      list and the index: it is still shown and never runs again. */
  lemma UpdatedJobOutlivesTag(s: State, j: Job, tag: string, order: seq<string>)
    requires Inv(s) && j !in s.ids && Updated(s, j.name, j, true).1 && tag in s.cron[j.name].tags
    requires Lists(order, Tagged(s.cron, tag))
    ensures var t := DroppedByTag(Updated(s, j.name, j, true).0, tag, order);
            j in t.jobs && j.name in t.byName && t.byName[j.name] == j && j.name !in t.cron
  {
    var u := Updated(s, j.name, j, true).0;
    ReplacedMembers(s.jobs, j.name, j);
    UpdateKeepsIndexIff(s, j.name, j, true);
    forall n | n in order ensures n in s.cron && s.cron[n].id != 0 {
      assert s.byName[n] in s.jobs;
    }
    var v := u.(cron := u.cron - Tagged(u.cron, tag));
    DropsOnlyItsIds(v, u.cron, order, j);
    DroppedIndexed(v, u.cron, order);
  }

  lemma UpdateFirst(s: State, a: Job, b: Job, a': Job)
    requires s.jobs == [a, b] && a.name != b.name && a'.name == a.name && a.name in s.cron && s.disabled == {}
    ensures Updated(s, a.name, a', true).0 == s.(jobs := [a', b], byName := s.byName[a.name := a'])
  {
    assert [a, b][1..] == [b];
  }

  lemma UpdateSecond(s: State, a: Job, b: Job, b': Job)
    requires s.jobs == [a, b] && a.name != b.name && b'.name == b.name && b.name in s.cron && s.disabled == {}
    ensures Updated(s, b.name, b', true).0 == s.(jobs := [a, b'], byName := s.byName[b.name := b'])
  {
    assert [a, b][1..] == [b];
    assert Scan([b], b.name).Some?;
    assert ReplaceFirst([b], b.name, b') == [b'] && ReplaceFirst([a, b], b.name, b') == [a] + [b'];
  }

  lemma RemoveSecond(s: State, a: Job, b: Job)
    requires s.jobs == [a, b] && a.name != b.name && a !in s.ids && b !in s.ids
    ensures Removed(s, b).jobs == [b] && Removed(s, b).byName == s.byName - {b.name}
  {
    assert FirstMatch(s.jobs, s.ids, b) == 0;
    assert Without([a, b], 0) == [b];
  }

  /** Two updates leave two jobs with id 0, so removing the second takes the first out of the
      list and the second out of the index. */
  lemma UpdatesBreakIndex(a: Job, b: Job, a': Job, b': Job)
    requires a.name != b.name && a'.name == a.name && b'.name == b.name && a.schedule != "" && b.schedule != ""
    requires a' != a && b' != b
    ensures var s := Added(Added(EMPTY, a, {}, true).0, b, {}, true).0;
            var t := Removed(Updated(Updated(s, a.name, a', true).0, b.name, b', true).0, b');
            t.jobs == [b'] && t.byName == map[a.name := a']
  {
    var s := Added(Added(EMPTY, a, {}, true).0, b, {}, true).0;
    assert s.jobs == [a, b] && s.ids.Keys == {a, b} && a' !in {a, b} && b' !in {a, b};
    UpdateFirst(s, a, b, a');
    var u1 := Updated(s, a.name, a', true).0;
    UpdateSecond(u1, a', b, b');
    RemoveSecond(Updated(u1, b.name, b', true).0, a', b');
  }
}
