/** Configuration reconciliation of cli/config.go: two sources, the INI file and
    the container labels, repeatedly rewrite one map of jobs and the scheduler's
    registrations. `J` is a parsed job configuration; what its kind does with it
    (preparation, validation, hashing, whether the scheduler takes its schedule)
    is a parameter. */
module Reconcile {
  import opened Prelude

  datatype Origin = Ini | Label | Unset

  datatype Entry<J> = Entry(job: J, origin: Origin)

  datatype Kind<!J> = Kind(
    prep: (string, J) -> J,
    valid: J -> bool,
    hash: J -> Option<string>,
    schedulable: J -> bool
  )

  datatype Call<J> = Add(job: J) | Remove

  /** Everything about one name: its entry in the map, the job the scheduler
      holds under it, and the scheduler calls made about it so far. */
  datatype Slot<J> = Slot(entry: Option<Entry<J>>, held: Option<J>, calls: seq<Call<J>>)

  function Get<V>(m: map<string, V>, n: string): Option<V> {
    if n in m then Some(m[n]) else None
  }

  // ---- One name through one pass ----

  /** go-cron refuses a name it already has and a schedule it cannot read. */
  function Registered<J>(k: Kind<J>, s: Slot<J>, j: J): Slot<J> {
    s.(held := if s.held.None? && k.schedulable(j) then Some(j) else s.held, calls := s.calls + [Add(j)])
  }
  function Deregistered<J>(s: Slot<J>): Slot<J> {
    s.(held := None, calls := s.calls + [Remove])
  }

  /** The first loop visits the entries this source owns. */
  predicate Owned<J>(e: Entry<J>, source: Origin) {
    source == Unset || e.origin == source || e.origin == Unset
  }

  /** `replaceIfChanged` replaces the job. */
  predicate Changed<J>(k: Kind<J>, was: J, j: J) {
    k.valid(j) && k.hash(j).Some? && k.hash(was).Some? && k.hash(j) != k.hash(was)
  }

  function Replaced<J>(k: Kind<J>, s: Slot<J>, was: J, j: J): Slot<J> {
    if Changed(k, was, j) then Registered(k, Deregistered(s), j) else s
  }

  /** What the first loop leaves under a name. */
  function Swept<J>(k: Kind<J>, n: string, s: Slot<J>, par: Option<Entry<J>>, source: Origin): Slot<J> {
    if s.entry.None? || !Owned(s.entry.value, source) then s
    else if par.None? then Deregistered(s).(entry := None)
    else
      var j, was := k.prep(n, par.value.job), s.entry.value.job;
      if Changed(k, was, j) then Replaced(k, s, was, j).(entry := Some(Entry(j, source))) else s
  }

  /** What `addNewJob` leaves; a pass without a source keeps the parsed entry's. */
  function Added<J>(k: Kind<J>, s: Slot<J>, j: J, origin: Origin): Slot<J> {
    if k.valid(j) then Registered(k, s, j).(entry := Some(Entry(j, origin))) else s
  }

  /** What the second loop leaves under a name. */
  function Filled<J>(k: Kind<J>, n: string, s: Slot<J>, par: Option<Entry<J>>, source: Origin): Slot<J> {
    if par.None? then s
    else
      var j, origin := k.prep(n, par.value.job), if source != Unset then source else par.value.origin;
      if s.entry.None? then Added(k, s, j, origin)
      else if source == Ini && s.entry.value.origin == Label then Added(k, Deregistered(s), j, origin)
      else s
  }

  function Synced<J>(k: Kind<J>, n: string, s: Slot<J>, par: Option<Entry<J>>, source: Origin): Slot<J> {
    Filled(k, n, Swept(k, n, s, par, source), par, source)
  }

  class Config<J> {
    const kind: Kind<J>
    var jobs: map<string, Entry<J>>
    var registered: map<string, J>
    ghost var calls: map<string, seq<Call<J>>>

    constructor (kind: Kind<J>)
      ensures this.kind == kind && forall n :: At(n) == Slot(None, None, [])
    {
      this.kind, jobs, registered, calls := kind, map[], map[], map[];
    }

    ghost function At(n: string): Slot<J> reads this {
      Slot(Get(jobs, n), Get(registered, n), if n in calls then calls[n] else [])
    }

    /** Only this name was touched, and its slot is now `s`. */
    twostate predicate Became(n: string, s: Slot<J>) reads this {
      forall m :: At(m) == if m == n then s else old(At(m))
    }

    method AddJob(n: string, j: J)
      modifies this`registered, this`calls
      ensures Became(n, Registered(kind, old(At(n)), j))
    {
      if kind.schedulable(j) && n !in registered {
        registered := registered[n := j];
      }
      calls := calls[n := At(n).calls + [Add(j)]];
    }

    method RemoveJob(n: string)
      modifies this`registered, this`calls
      ensures Became(n, Deregistered(old(At(n))))
    {
      registered := registered - {n};
      calls := calls[n := At(n).calls + [Remove]];
    }

    method ReplaceIfChanged(n: string, oldJob: J, newJob: J) returns (updated: bool)
      modifies this`registered, this`calls
      ensures updated == Changed(kind, oldJob, newJob)
      ensures updated <==>
                && kind.valid(newJob) && kind.hash(newJob).Some? && kind.hash(oldJob).Some?
                && kind.hash(newJob).value != kind.hash(oldJob).value
      ensures Became(n, Replaced(kind, old(At(n)), oldJob, newJob))
    {
      if !kind.valid(newJob) {
        return false;
      }
      var newHash := kind.hash(newJob);
      if newHash.None? {
        return false;
      }
      var oldHash := kind.hash(oldJob);
      if oldHash.None? {
        return false;
      }
      if newHash.value == oldHash.value {
        return false;
      }
      RemoveJob(n);
      AddJob(n, newJob);
      updated := true;
    }

    method AddNewJob(n: string, j: J, origin: Origin)
      modifies this`jobs, this`registered, this`calls
      ensures Became(n, Added(kind, old(At(n)), j, origin))
    {
      if !kind.valid(j) {
        return;
      }
      AddJob(n, j);
      jobs := jobs[n := Entry(j, origin)];
    }

    method SweepOne(n: string, parsed: map<string, Entry<J>>, source: Origin)
      requires n in jobs
      modifies this`jobs, this`registered, this`calls
      ensures Became(n, Swept(kind, n, old(At(n)), Get(parsed, n), source))
    {
      var j := jobs[n];
      if source != Unset && j.origin != source && j.origin != Unset {
        return;
      }
      if n !in parsed {
        RemoveJob(n);
        jobs := jobs - {n};
        return;
      }
      var newJob := kind.prep(n, parsed[n].job);
      var updated := ReplaceIfChanged(n, j.job, newJob);
      if updated {
        jobs := jobs[n := Entry(newJob, source)];
      }
    }

    method FillOne(n: string, parsed: map<string, Entry<J>>, source: Origin)
      requires n in parsed
      modifies this`jobs, this`registered, this`calls
      ensures Became(n, Filled(kind, n, old(At(n)), Get(parsed, n), source))
    {
      if n in jobs {
        var cur := jobs[n].origin;
        if cur == source {
          return;
        } else if source == Ini && cur == Label {
          RemoveJob(n);
        } else {
          return; // among them a label job that meets an INI job of the same name
        }
      }
      AddNewJob(n, kind.prep(n, parsed[n].job), if source != Unset then source else parsed[n].origin);
    }

    /** The first loop. The map is visited in an arbitrary order; the result does not depend on it. */
    method SweepAll(parsed: map<string, Entry<J>>, source: Origin)
      modifies this`jobs, this`registered, this`calls
      ensures forall n :: At(n) == Swept(kind, n, old(At(n)), Get(parsed, n), source)
    {
      var todo := jobs.Keys;
      while todo != {}
        invariant forall n :: n in todo ==> n in old(jobs) && At(n) == old(At(n))
        invariant forall n :: n !in todo ==> At(n) == Swept(kind, n, old(At(n)), Get(parsed, n), source)
      {
        var n :| n in todo;
        assert At(n).entry.Some?;
        SweepOne(n, parsed, source);
        todo := todo - {n};
      }
    }

    /** The second loop, likewise. */
    method FillAll(parsed: map<string, Entry<J>>, source: Origin)
      modifies this`jobs, this`registered, this`calls
      ensures forall n :: At(n) == Filled(kind, n, old(At(n)), Get(parsed, n), source)
    {
      var todo := parsed.Keys;
      while todo != {}
        invariant todo <= parsed.Keys
        invariant forall n :: n in todo ==> At(n) == old(At(n))
        invariant forall n :: n !in todo ==> At(n) == Filled(kind, n, old(At(n)), Get(parsed, n), source)
      {
        var n :| n in todo;
        FillOne(n, parsed, source);
        todo := todo - {n};
      }
    }

    method SyncJobMap(parsed: map<string, Entry<J>>, source: Origin)
      modifies this`jobs, this`registered, this`calls
      ensures forall n :: At(n) == Synced(kind, n, old(At(n)), Get(parsed, n), source)
    {
      SweepAll(parsed, source);
      FillAll(parsed, source);
    }

    /** An INI reload and then a label reload, on any state whose entries have a source and a hash: each
        name becomes, up to hashes, that of a fresh start, exactly if the job it takes is valid or was
        there; and the scheduler holds its job exactly unless that is a label job left orphaned. */
    method ReloadBoth(ini: map<string, J>, labels: map<string, J>)
      requires forall n :: Known(kind, At(n)) && Agrees(kind, At(n))
      requires forall n :: HasHash(kind, n, Get(ini, n)) && HasHash(kind, n, Get(labels, n))
      modifies this`jobs, this`registered, this`calls
      ensures forall n ::
                (SameUpToHash(kind, Get(jobs, n), Booted(kind, n, Get(ini, n), Get(labels, n)).entry)
                 <==> Reaches(kind, n, old(At(n)), Get(ini, n), Get(labels, n)))
      ensures forall n :: Agrees(kind, At(n)) <==> !StaysOrphaned(kind, n, old(At(n)), Get(ini, n), Get(labels, n))
    {
      SyncJobMap(map n | n in ini :: Entry(ini[n], Ini), Ini);
      SyncJobMap(map n | n in labels :: Entry(labels[n], Label), Label);
      forall n
        ensures SameUpToHash(kind, Get(jobs, n), Booted(kind, n, Get(ini, n), Get(labels, n)).entry)
           <==> Reaches(kind, n, old(At(n)), Get(ini, n), Get(labels, n))
        ensures Agrees(kind, At(n)) <==> !StaysOrphaned(kind, n, old(At(n)), Get(ini, n), Get(labels, n))
      {
        Converges(kind, n, old(At(n)), Get(ini, n), Get(labels, n));
      }
    }

    /** Start-up: the INI jobs, then the label jobs they leave room for, each prepared and registered. */
    method MergeAndRegister(ini: map<string, J>, labels: map<string, J>)
      requires forall n :: At(n) == Slot(None, None, [])
      modifies this`jobs, this`registered, this`calls
      ensures forall n :: At(n) == Booted(kind, n, Get(ini, n), Get(labels, n))
    {
      var merged := MergeJobs(map n | n in ini :: Entry(ini[n], Ini), map n | n in labels :: Entry(labels[n], Label));
      RegisterAllJobs(merged);
    }

    /** It leaves one entry for each name of either source, the INI file's where there are two; the scheduler
        holds exactly the schedulable ones, and was called once for each. */
    method Boot(ini: map<string, J>, labels: map<string, J>)
      requires forall n :: At(n) == Slot(None, None, [])
      modifies this`jobs, this`registered, this`calls
      ensures forall n :: n in jobs <==> n in ini || n in labels
      ensures forall n :: n in ini ==> jobs[n] == Entry(kind.prep(n, ini[n]), Ini)
      ensures forall n :: n in labels && n !in ini ==> jobs[n] == Entry(kind.prep(n, labels[n]), Label)
      ensures forall n :: n in registered <==> n in jobs && kind.schedulable(jobs[n].job)
      ensures forall n :: n in registered ==> registered[n] == jobs[n].job
      ensures forall n :: At(n).calls == if n in jobs then [Add(jobs[n].job)] else []
    {
      MergeAndRegister(ini, labels);
      forall n ensures Started(n, Get(ini, n), Get(labels, n)) {
        BootedIs(kind, n, Get(ini, n), Get(labels, n));
      }
      forall n | n in ini ensures n in jobs && jobs[n] == Entry(kind.prep(n, ini[n]), Ini) {
        assert Started(n, Get(ini, n), Get(labels, n));
      }
      forall n | n in labels && n !in ini ensures n in jobs && jobs[n] == Entry(kind.prep(n, labels[n]), Label) {
        assert Started(n, Get(ini, n), Get(labels, n));
      }
      forall n
        ensures n in jobs ==> n in ini || n in labels
        ensures n in registered <==> n in jobs && kind.schedulable(jobs[n].job)
        ensures n in registered ==> registered[n] == jobs[n].job
        ensures At(n).calls == if n in jobs then [Add(jobs[n].job)] else []
      {
        assert Started(n, Get(ini, n), Get(labels, n));
      }
    }

    ghost predicate Started(n: string, ini: Option<J>, lab: Option<J>) reads this {
      && Get(jobs, n) == (if ini.Some? then Some(Entry(kind.prep(n, ini.value), Ini))
                          else if lab.Some? then Some(Entry(kind.prep(n, lab.value), Label))
                          else None)
      && (n in registered <==> n in jobs && kind.schedulable(jobs[n].job))
      && (n in registered ==> registered[n] == jobs[n].job)
      && At(n).calls == if n in jobs then [Add(jobs[n].job)] else []
    }

    method RegisterAllJobs(merged: map<string, Entry<J>>)
      requires forall n :: At(n) == Slot(None, None, [])
      modifies this`jobs, this`registered, this`calls
      ensures forall n :: At(n) == RegisteredAtBoot(kind, n, Get(merged, n))
    {
      var todo := merged.Keys;
      while todo != {}
        invariant todo <= merged.Keys
        invariant forall n :: n in todo || n !in merged ==> At(n) == Slot(None, None, [])
        invariant forall n :: n in merged && n !in todo ==> At(n) == RegisteredAtBoot(kind, n, Some(merged[n]))
      {
        var n :| n in todo;
        var j := kind.prep(n, merged[n].job);
        AddJob(n, j);
        jobs := jobs[n := Entry(j, merged[n].origin)];
        todo := todo - {n};
      }
    }
  }

  // ---- Start-up ----

  function Merged<J>(dst: Option<Entry<J>>, src: Option<Entry<J>>): Option<Entry<J>> {
    if src.None? || (dst.Some? && dst.value.origin == Ini) then dst else src
  }

  method MergeJobs<J>(dst: map<string, Entry<J>>, src: map<string, Entry<J>>) returns (r: map<string, Entry<J>>)
    ensures forall n :: Get(r, n) == Merged(Get(dst, n), Get(src, n))
  {
    r := dst;
    var todo := src.Keys;
    while todo != {}
      invariant todo <= src.Keys
      invariant forall n :: n in todo || n !in src ==> Get(r, n) == Get(dst, n)
      invariant forall n :: n in src && n !in todo ==> Get(r, n) == Merged(Get(dst, n), Get(src, n))
    {
      var n :| n in todo;
      assert Get(r, n) == Get(dst, n);
      if !(n in r && r[n].origin == Ini) {
        r := r[n := src[n]];
      }
      todo := todo - {n};
    }
  }

  function RegisteredAtBoot<J>(k: Kind<J>, n: string, e: Option<Entry<J>>): Slot<J> {
    if e.None? then Slot(None, None, [])
    else
      var j := k.prep(n, e.value.job);
      Registered(k, Slot(None, None, []), j).(entry := Some(Entry(j, e.value.origin)))
  }

  function From<J>(j: Option<J>, origin: Origin): Option<Entry<J>> {
    if j.None? then None else Some(Entry(j.value, origin))
  }

  function Booted<J>(k: Kind<J>, n: string, ini: Option<J>, lab: Option<J>): Slot<J> {
    RegisteredAtBoot(k, n, Merged(From(ini, Ini), From(lab, Label)))
  }

  /** A fresh start stores and registers one job under each name, once: the INI file's if it has one. */
  lemma BootedIs<J>(k: Kind<J>, n: string, ini: Option<J>, lab: Option<J>)
    ensures var b := Booted(k, n, ini, lab);
            && (ini.Some? ==>
                  var j := k.prep(n, ini.value);
                  b == Slot(Some(Entry(j, Ini)), if k.schedulable(j) then Some(j) else None, [Add(j)]))
            && (ini.None? && lab.Some? ==>
                  var j := k.prep(n, lab.value);
                  b == Slot(Some(Entry(j, Label)), if k.schedulable(j) then Some(j) else None, [Add(j)]))
            && (ini.None? && lab.None? ==> b == Slot(None, None, []))
  {
  }

  // ---- What passes guarantee ----

  /** The scheduler holds exactly the schedulable job of the map. */
  ghost predicate Agrees<J>(k: Kind<J>, s: Slot<J>) {
    s.held == if s.entry.Some? && k.schedulable(s.entry.value.job) then Some(s.entry.value.job) else None
  }

  /** An invalid INI job meets a scheduled label job: `RemoveJob` has run, `addNewJob` gives up,
      and the label job stays in the map without being scheduled. */
  predicate Orphans<J>(k: Kind<J>, n: string, s: Slot<J>, par: Option<Entry<J>>, source: Origin) {
    && source == Ini && par.Some? && !k.valid(k.prep(n, par.value.job))
    && s.entry.Some? && s.entry.value.origin == Label && k.schedulable(s.entry.value.job)
  }

  /** A pass keeps map and scheduler in agreement except in that one case. */
  lemma PassKeepsAgreement<J>(k: Kind<J>, n: string, s: Slot<J>, par: Option<Entry<J>>, source: Origin)
    requires Agrees(k, s)
    ensures Agrees(k, Synced(k, n, s, par, source)) <==> !Orphans(k, n, s, par, source)
  {
  }

  /** An entry without a source belongs to whoever passes, and a pass without a source owns every entry: it is
      dropped if the parse has it no more, replaced and claimed if it changed, and otherwise left as it is. */
  lemma UnsetIsOwned<J>(k: Kind<J>, n: string, s: Slot<J>, par: Option<Entry<J>>, source: Origin)
    requires s.entry.Some? && (s.entry.value.origin == Unset || source == Unset)
    ensures var t, was := Synced(k, n, s, par, source), s.entry.value.job;
            && (par.None? ==> t == Slot(None, None, s.calls + [Remove]))
            && (par.Some? ==>
                  var j := k.prep(n, par.value.job);
                  if k.valid(j) && k.hash(j).Some? && k.hash(was).Some? && k.hash(j) != k.hash(was)
                  then t.entry == Some(Entry(j, source)) && t.calls == s.calls + [Remove] + [Add(j)]
                  else t == s)
  {
  }

  /** A pass without a source adds a new job under the source its parse gave it. */
  lemma UnsetPassAdds<J>(k: Kind<J>, n: string, s: Slot<J>, par: Entry<J>)
    requires s.entry.None? && k.valid(k.prep(n, par.job))
    ensures Synced(k, n, s, Some(par), Unset).entry == Some(Entry(k.prep(n, par.job), par.origin))
  {
  }

  /** The scheduler calls that lead from one entry to another. */
  function CallsBetween<J(==)>(was: Option<Entry<J>>, now: Option<Entry<J>>): seq<Call<J>> {
    if was == now then []
    else if now.None? then [Remove]
    else if was.None? then [Add(now.value.job)]
    else [Remove, Add(now.value.job)]
  }

  /** A pass calls the scheduler for exactly what it changes: a new job is added, a job that is gone is
      removed, a job that is replaced or taken over is removed and added. */
  lemma PassCalls<J>(k: Kind<J>, n: string, s: Slot<J>, par: Option<Entry<J>>, source: Origin)
    requires source != Unset && (par.Some? ==> k.valid(k.prep(n, par.value.job)))
    ensures var t := Synced(k, n, s, par, source); t.calls == s.calls + CallsBetween(s.entry, t.entry)
  {
    var t := Synced(k, n, s, par, source);
    assert s.calls + [] == s.calls;
    if t.calls != s.calls && s.entry.Some? && t.entry.Some? {
      assert s.calls + [Remove] + [Add(t.entry.value.job)] == s.calls + [Remove, Add(t.entry.value.job)];
    }
  }

  function LabelPasses<J>(k: Kind<J>, n: string, s: Slot<J>, parses: seq<Option<J>>): Slot<J> {
    if parses == [] then s
    else
      Synced(k, n, LabelPasses(k, n, s, parses[..|parses| - 1]), From(parses[|parses| - 1], Label), Label)
  }

  /** No sequence of label passes, whatever they parse, touches an INI entry or its registration. */
  lemma {:induction false} LabelPassesSpareIni<J>(k: Kind<J>, n: string, s: Slot<J>, parses: seq<Option<J>>)
    requires s.entry.Some? && s.entry.value.origin == Ini
    ensures LabelPasses(k, n, s, parses) == s
  {
    if parses != [] {
      LabelPassesSpareIni(k, n, s, parses[..|parses| - 1]);
    }
  }

  predicate IsValid<J>(k: Kind<J>, n: string, par: Option<J>) {
    par.Some? ==> k.valid(k.prep(n, par.value))
  }
  predicate HasHash<J>(k: Kind<J>, n: string, par: Option<J>) {
    par.Some? ==> k.hash(k.prep(n, par.value)).Some?
  }

  predicate Known<J>(k: Kind<J>, s: Slot<J>) {
    s.entry.Some? ==> s.entry.value.origin != Unset && k.hash(s.entry.value.job).Some?
  }

  predicate SameUpToHash<J>(k: Kind<J>, a: Option<Entry<J>>, b: Option<Entry<J>>) {
    if a.None? || b.None? then a.None? && b.None?
    else a.value.origin == b.value.origin && k.hash(a.value.job) == k.hash(b.value.job)
  }

  /** One pass of a fixed pair of parses: `true` is the INI file, `false` the labels. */
  function Pass<J>(k: Kind<J>, n: string, s: Slot<J>, ini: Option<J>, lab: Option<J>, fromIni: bool): Slot<J> {
    if fromIni then Synced(k, n, s, From(ini, Ini), Ini) else Synced(k, n, s, From(lab, Label), Label)
  }

  function Run<J>(k: Kind<J>, n: string, s: Slot<J>, ini: Option<J>, lab: Option<J>, run: seq<bool>): Slot<J> {
    if run == [] then s
    else
      Pass(k, n, Run(k, n, s, ini, lab, run[..|run| - 1]), ini, lab, run[|run| - 1])
  }

  /** The map already holds this job, up to its hash, under this source. */
  predicate Holds<J>(k: Kind<J>, n: string, s: Slot<J>, j: J, origin: Origin) {
    s.entry.Some? && s.entry.value.origin == origin && k.hash(s.entry.value.job) == k.hash(k.prep(n, j))
  }

  /** The job a fresh start would take can be got into the map: it is valid, or already there. A fresh
      start takes it unvalidated, a pass does not. */
  predicate Reaches<J>(k: Kind<J>, n: string, s: Slot<J>, ini: Option<J>, lab: Option<J>) {
    if ini.Some? then IsValid(k, n, ini) || Holds(k, n, s, ini.value, Ini)
    else IsValid(k, n, lab) || Holds(k, n, s, lab.value, Label)
  }

  /** An invalid INI job has orphaned a label job, and the labels still define that job unchanged. */
  predicate StaysOrphaned<J>(k: Kind<J>, n: string, s: Slot<J>, ini: Option<J>, lab: Option<J>) {
    && Orphans(k, n, s, From(ini, Ini), Ini)
    && lab.Some? && !Changed(k, s.entry.value.job, k.prep(n, lab.value))
  }

  /** An INI pass and then a label pass reach what a fresh start would build exactly if the job it would
      take is valid or already there; and they keep the scheduler in agreement exactly if they leave no
      label job orphaned. */
  lemma Converges<J>(k: Kind<J>, n: string, s: Slot<J>, ini: Option<J>, lab: Option<J>)
    requires Known(k, s) && HasHash(k, n, ini) && HasHash(k, n, lab)
    ensures var end := Pass(k, n, Pass(k, n, s, ini, lab, true), ini, lab, false);
            && (SameUpToHash(k, end.entry, Booted(k, n, ini, lab).entry) <==> Reaches(k, n, s, ini, lab))
            && (Agrees(k, s) ==> (Agrees(k, end) <==> !StaysOrphaned(k, n, s, ini, lab)))
  {
  }

  /** An invalid label job shows the difference: a fresh start runs it, passes from nothing never do. */
  lemma InvalidLabelIsLost<J>(k: Kind<J>, n: string, lab: J)
    requires !k.valid(k.prep(n, lab))
    ensures var end := Pass(k, n, Pass(k, n, Slot(None, None, []), None, Some(lab), true), None, Some(lab), false);
            end.entry.None? && Booted(k, n, None, Some(lab)).entry.Some?
  {
  }

  /** Where a fresh start leads both passes find nothing to do and call the scheduler no more. */
  lemma ThenQuiet<J>(k: Kind<J>, n: string, s: Slot<J>, ini: Option<J>, lab: Option<J>)
    requires Known(k, s) && HasHash(k, n, ini) && HasHash(k, n, lab)
    requires SameUpToHash(k, s.entry, Booted(k, n, ini, lab).entry)
    ensures Pass(k, n, s, ini, lab, true) == s && Pass(k, n, s, ini, lab, false) == s
  {
  }

  /** A label pass repeated with an equal parse changes nothing and makes no scheduler call, whatever
      the state and the parse. */
  lemma LabelRepeatIsQuiet<J>(k: Kind<J>, n: string, s: Slot<J>, lab: Option<J>)
    ensures var once := Synced(k, n, s, From(lab, Label), Label);
            Synced(k, n, once, From(lab, Label), Label) == once
  {
  }

  predicate InvalidOverLabel<J>(k: Kind<J>, n: string, s: Slot<J>, ini: Option<J>) {
    ini.Some? && !k.valid(k.prep(n, ini.value)) && s.entry.Some? && s.entry.value.origin == Label
  }

  /** An INI pass repeated with an equal parse is quiet exactly unless an invalid job meets a label entry:
      each repeat then removes the label job from the scheduler again. */
  lemma IniRepeatIsQuietIff<J>(k: Kind<J>, n: string, s: Slot<J>, ini: Option<J>)
    ensures var once := Synced(k, n, s, From(ini, Ini), Ini);
            Synced(k, n, once, From(ini, Ini), Ini) == once <==> !InvalidOverLabel(k, n, s, ini)
  {
  }

  lemma PassKeeps<J>(k: Kind<J>, n: string, s: Slot<J>, ini: Option<J>, lab: Option<J>, fromIni: bool)
    requires Known(k, s) && HasHash(k, n, ini) && HasHash(k, n, lab)
    ensures var t := Pass(k, n, s, ini, lab, fromIni);
            && Known(k, t) && (Reaches(k, n, t, ini, lab) <==> Reaches(k, n, s, ini, lab))
            && (Agrees(k, s) && IsValid(k, n, ini) ==> Agrees(k, t))
  {
  }

  lemma {:induction false} RunKeeps<J>(k: Kind<J>, n: string, s: Slot<J>, ini: Option<J>, lab: Option<J>,
                                       run: seq<bool>)
    requires Known(k, s) && HasHash(k, n, ini) && HasHash(k, n, lab)
    ensures var t := Run(k, n, s, ini, lab, run);
            && Known(k, t) && (Reaches(k, n, t, ini, lab) <==> Reaches(k, n, s, ini, lab))
            && (Agrees(k, s) && IsValid(k, n, ini) ==> Agrees(k, t))
  {
    if run != [] {
      var front := run[..|run| - 1];
      RunKeeps(k, n, s, ini, lab, front);
      PassKeeps(k, n, Run(k, n, s, ini, lab, front), ini, lab, run[|run| - 1]);
    }
  }

  /** No pass moves the entry any more. A valid INI file, and the labels in any case, change nothing at all. */
  predicate Stable<J(==)>(k: Kind<J>, n: string, s: Slot<J>, ini: Option<J>, lab: Option<J>) {
    && Pass(k, n, s, ini, lab, true).entry == s.entry && Pass(k, n, s, ini, lab, false) == s
    && (IsValid(k, n, ini) ==> Pass(k, n, s, ini, lab, true) == s)
  }

  lemma BothPassesStabilise<J>(k: Kind<J>, n: string, s: Slot<J>, ini: Option<J>, lab: Option<J>)
    requires Known(k, s) && HasHash(k, n, ini) && HasHash(k, n, lab)
    ensures Stable(k, n, Pass(k, n, Pass(k, n, s, ini, lab, true), ini, lab, false), ini, lab)
  {
  }

  lemma StableStays<J>(k: Kind<J>, n: string, s: Slot<J>, ini: Option<J>, lab: Option<J>, fromIni: bool)
    requires Stable(k, n, s, ini, lab)
    ensures Stable(k, n, Pass(k, n, s, ini, lab, fromIni), ini, lab)
    ensures Pass(k, n, s, ini, lab, fromIni).entry == s.entry
  {
  }

  lemma StableOutcome<J>(k: Kind<J>, n: string, s: Slot<J>, ini: Option<J>, lab: Option<J>)
    requires Known(k, s) && HasHash(k, n, ini) && HasHash(k, n, lab) && Stable(k, n, s, ini, lab)
    ensures SameUpToHash(k, s.entry, Booted(k, n, ini, lab).entry) <==> Reaches(k, n, s, ini, lab)
  {
  }

  lemma {:induction false} EveryRunStabilises<J>(k: Kind<J>, n: string, s: Slot<J>, ini: Option<J>, lab: Option<J>,
                                                 run: seq<bool>, i: nat, j: nat)
    requires Known(k, s) && HasHash(k, n, ini) && HasHash(k, n, lab)
    requires i < j < |run| && run[i] && !run[j]
    ensures var end, early := Run(k, n, s, ini, lab, run), Run(k, n, s, ini, lab, run[..j + 1]);
            && Stable(k, n, end, ini, lab) && end.entry == early.entry
            && (IsValid(k, n, ini) ==> end == early)
  {
    var last := |run| - 1;
    var front := run[..last];
    if j < last {
      EveryRunStabilises(k, n, s, ini, lab, front, i, j);
      assert front[..j + 1] == run[..j + 1];
      StableStays(k, n, Run(k, n, s, ini, lab, front), ini, lab, run[last]);
    } else {
      assert run[..j + 1] == run;
      if run[last - 1] {
        var earlier := front[..last - 1];
        RunKeeps(k, n, s, ini, lab, earlier);
        BothPassesStabilise(k, n, Run(k, n, s, ini, lab, earlier), ini, lab);
      } else {
        EveryRunStabilises(k, n, s, ini, lab, front, i, last - 1);
      }
    }
  }

  /** Whatever passes came before, and whatever repeats come after: once the labels have been read
      after the INI file, the entry never moves again. It is the one of a fresh start exactly if the job
      that would take is valid or was there at the beginning. With a valid INI file nothing moves at all,
      and map and scheduler agree. */
  lemma EveryRunConverges<J>(k: Kind<J>, n: string, s: Slot<J>, ini: Option<J>, lab: Option<J>, run: seq<bool>,
                             i: nat, j: nat)
    requires Known(k, s) && Agrees(k, s) && HasHash(k, n, ini) && HasHash(k, n, lab)
    requires i < j < |run| && run[i] && !run[j]
    ensures var end, early := Run(k, n, s, ini, lab, run), Run(k, n, s, ini, lab, run[..j + 1]);
            && (SameUpToHash(k, end.entry, Booted(k, n, ini, lab).entry) <==> Reaches(k, n, s, ini, lab))
            && end.entry == early.entry
            && (IsValid(k, n, ini) ==> end == early && Agrees(k, end))
  {
    EveryRunStabilises(k, n, s, ini, lab, run, i, j);
    RunKeeps(k, n, s, ini, lab, run);
    StableOutcome(k, n, Run(k, n, s, ini, lab, run), ini, lab);
  }
}
