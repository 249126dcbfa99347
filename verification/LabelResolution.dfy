/** Turning container labels into run and exec jobs, cli/docker-labels.go. A
    label is taken apart into job type, job name and parameter; no container has
    two labels with the same three parts. */
module LabelResolution {
  import opened Prelude

  datatype Label = Label(jobType: string, job: string, param: string)

  datatype Container = Container(
    name: string,
    running: bool,
    created: int,
    service: bool,
    composeService: string, // empty if the container was not made by Compose
    labels: map<Label, string>
  )

  type Params = map<string, string>
  type Jobs = map<string, Params>

  const JOB_EXEC := "job-exec"
  const JOB_RUN := "job-run"
  const JOB_LOCAL := "job-local"
  const JOB_SERVICE_RUN := "job-service-run"
  const JOB_COMPOSE := "job-compose"

  // ---- Sort order ----

  /** The library's comparison of strings: by the first difference, shorter first. */
  function Compare(a: string, b: string): int {
    if a == "" && b == "" then 0
    else if a == "" then -1
    else if b == "" then 1
    else if a[0] < b[0] then -1
    else if a[0] > b[0] then 1
    else Compare(a[1..], b[1..])
  }

  lemma {:induction false} CompareOrders(a: string, b: string)
    ensures Compare(a, b) == 0 <==> a == b
    ensures Compare(a, b) == -Compare(b, a)
  {
    if a != "" && b != "" && a[0] == b[0] {
      CompareOrders(a[1..], b[1..]);
      assert a == [a[0]] + a[1..] && b == [b[0]] + b[1..];
    }
  }

  /** One string comes first exactly if it is a proper prefix, or has the lesser character at the first
      difference. */
  lemma {:induction false} CompareIs(a: string, b: string)
    ensures Compare(a, b) < 0
       <==> exists k :: 0 <= k <= |a| && k < |b| && a[..k] == b[..k] && (k == |a| || a[k] < b[k])
  {
    if a == "" && b != "" {
      assert a[..0] == b[..0];
    } else if a != "" && b != "" {
      CompareIs(a[1..], b[1..]);
      if a[0] == b[0] {
        forall k | 0 <= k <= |a| - 1 && k < |b| - 1
          ensures a[1..][..k] == b[1..][..k] <==> a[..k + 1] == b[..k + 1]
        {
          assert a[..k + 1] == [a[0]] + a[1..][..k] && b[..k + 1] == [b[0]] + b[1..][..k];
          assert a[..k + 1][1..] == a[1..][..k] && b[..k + 1][1..] == b[1..][..k];
        }
        var a', b' := a[1..], b[1..];
        if k :| 0 <= k <= |a'| && k < |b'| && a'[..k] == b'[..k] && (k == |a'| || a'[k] < b'[k]) {
          assert a[..k + 1] == b[..k + 1];
        }
        if k :| 0 <= k <= |a| && k < |b| && a[..k] == b[..k] && (k == |a| || a[k] < b[k]) {
          assert k > 0;
          assert a[1..][..k - 1] == b[1..][..k - 1];
        }
      } else if a[0] < b[0] {
        assert a[..0] == b[..0];
      } else {
        forall k | 0 < k <= |a| && k < |b| ensures a[..k] != b[..k] {
          assert a[..k][0] != b[..k][0];
        }
      }
    }
  }

  lemma {:induction false} CompareTransitive(a: string, b: string, c: string)
    requires Compare(a, b) < 0 && Compare(b, c) < 0
    ensures Compare(a, c) < 0
  {
    if a != "" && b != "" && c != "" && a[0] == b[0] == c[0] {
      CompareTransitive(a[1..], b[1..], c[1..]);
    }
  }

  /** Running before stopped, then newest first, then by name. */
  predicate Precedes(x: Container, y: Container) {
    if x.running != y.running then x.running
    else if x.created != y.created then x.created > y.created
    else Compare(x.name, y.name) < 0
  }

  predicate SameKey(x: Container, y: Container) {
    x.running == y.running && x.created == y.created && x.name == y.name
  }

  lemma PrecedesOrders(x: Container, y: Container, z: Container)
    ensures Precedes(x, y) && Precedes(y, z) ==> Precedes(x, z)
    ensures SameKey(x, y) || Precedes(x, y) || Precedes(y, x)
    ensures Precedes(x, y) ==> !Precedes(y, x) && !SameKey(x, y)
  {
    CompareOrders(x.name, y.name);
    if Compare(x.name, y.name) < 0 && Compare(y.name, z.name) < 0 {
      CompareTransitive(x.name, y.name, z.name);
    }
  }

  /** Insertion of one element, and the sort: a stable one, as the library's. */
  function Place(cs: seq<Container>, c: Container): seq<Container> {
    if cs == [] then [c]
    else if Precedes(c, cs[|cs| - 1]) then Place(cs[..|cs| - 1], c) + [cs[|cs| - 1]]
    else cs + [c]
  }
  function SortContainers(cs: seq<Container>): seq<Container> {
    if cs == [] then [] else Place(SortContainers(cs[..|cs| - 1]), cs[|cs| - 1])
  }

  ghost predicate DistinctKeys(cs: seq<Container>) {
    forall i, j :: 0 <= i < j < |cs| ==> !SameKey(cs[i], cs[j])
  }

  ghost predicate Ordered(cs: seq<Container>) {
    forall i, j :: 0 <= i < j < |cs| ==> Precedes(cs[i], cs[j])
  }

  lemma {:induction false} PlacePermutes(cs: seq<Container>, c: Container)
    ensures multiset(Place(cs, c)) == multiset(cs) + multiset{c}
  {
    if cs != [] {
      assert cs == cs[..|cs| - 1] + [cs[|cs| - 1]];
      PlacePermutes(cs[..|cs| - 1], c);
    }
  }

  lemma BeforeLast(r: seq<Container>, front: seq<Container>, c: Container, last: Container)
    requires multiset(r) == multiset(front) + multiset{c} && Precedes(c, last)
    requires forall k :: 0 <= k < |front| ==> Precedes(front[k], last)
    ensures forall i :: 0 <= i < |r| ==> Precedes(r[i], last)
  {
    forall i | 0 <= i < |r| ensures Precedes(r[i], last) {
      assert r[i] in multiset(r);
      assert r[i] == c || r[i] in multiset(front);
    }
  }

  lemma {:induction false} PlaceOrders(cs: seq<Container>, c: Container)
    requires Ordered(cs) && forall i :: 0 <= i < |cs| ==> !SameKey(cs[i], c)
    ensures Ordered(Place(cs, c))
  {
    if cs != [] {
      var front, last := cs[..|cs| - 1], cs[|cs| - 1];
      if Precedes(c, last) {
        PlaceOrders(front, c);
        PlacePermutes(front, c);
        BeforeLast(Place(front, c), front, c, last);
      } else {
        PrecedesOrders(last, c, c);
        forall i | 0 <= i < |cs| ensures Precedes(cs[i], c) {
          PrecedesOrders(cs[i], last, c);
        }
      }
    }
  }

  lemma {:induction false} SortOrders(cs: seq<Container>)
    requires DistinctKeys(cs)
    ensures Ordered(SortContainers(cs)) && multiset(SortContainers(cs)) == multiset(cs)
  {
    if cs != [] {
      var front, last := cs[..|cs| - 1], cs[|cs| - 1];
      assert cs == front + [last];
      SortOrders(front);
      var sorted := SortContainers(front);
      forall i | 0 <= i < |sorted| ensures !SameKey(sorted[i], last) {
        assert sorted[i] in multiset(sorted);
        assert sorted[i] in front;
      }
      PlaceOrders(sorted, last);
      PlacePermutes(sorted, last);
    }
  }

  lemma {:induction false} OrderedUnique(a: seq<Container>, b: seq<Container>)
    requires Ordered(a) && Ordered(b) && multiset(a) == multiset(b)
    ensures a == b
  {
    assert |multiset(a)| == |a| && |multiset(b)| == |b|;
    if a != [] {
      SameHead(a, b);
      TailMultiset(a);
      TailMultiset(b);
      OrderedUnique(a[1..], b[1..]);
      assert a == [a[0]] + a[1..] && b == [b[0]] + b[1..];
    }
  }

  lemma SameHead(a: seq<Container>, b: seq<Container>)
    requires Ordered(a) && Ordered(b) && multiset(a) == multiset(b) && a != [] && b != []
    ensures a[0] == b[0]
  {
    assert a[0] in multiset(b) && b[0] in multiset(a);
    PrecedesOrders(a[0], b[0], a[0]);
  }

  lemma TailMultiset(a: seq<Container>)
    requires a != []
    ensures multiset(a[1..]) == multiset(a) - multiset{a[0]}
  {
    assert a == [a[0]] + a[1..];
  }

  /** The order in which containers are listed does not matter. */
  lemma ListingOrderIrrelevant(a: seq<Container>, b: seq<Container>)
    requires DistinctKeys(a) && DistinctKeys(b) && multiset(a) == multiset(b)
    ensures SortContainers(a) == SortContainers(b)
  {
    SortOrders(a);
    SortOrders(b);
    OrderedUnique(SortContainers(a), SortContainers(b));
  }

  // ---- The jobs of one container ----

  /** Local and service jobs need a service container; anything but a run job needs a running one. */
  predicate CanRun(jobType: string, c: Container) {
    && (c.service || jobType == JOB_RUN || jobType == JOB_EXEC || jobType == JOB_COMPOSE)
    && (c.running || jobType == JOB_RUN)
  }

  function Prefix(c: Container): string { if c.composeService != "" then c.composeService else c.name }

  /** The parameters a container's labels give one job. */
  function ParamsOf(labels: map<Label, string>, jobType: string, job: string): Params {
    map p | p in (set l | l in labels && l.jobType == jobType && l.job == job :: l.param) ::
      labels[Label(jobType, job, p)]
  }
  function JobsOf(labels: map<Label, string>, jobType: string): set<string> {
    set l | l in labels && l.jobType == jobType :: l.job
  }

  /** A job without an image runs in the container that defines it, unless that is a service container. */
  function Homed(c: Container, params: Params): Params {
    if c.service || "image" in params || "container" in params then params else params["container" := c.name]
  }
  function HomedAny(c: Container, params: Option<Params>): Option<Params> {
    if params.None? then None else Some(Homed(c, params.value))
  }

  /** What labels define under a name that consists of a prefix and the job's own name. */
  function Defined(labels: map<Label, string>, jobType: string, prefix: string, n: string): Option<Params> {
    if |prefix| <= |n| && n[..|prefix|] == prefix && n[|prefix|..] in JobsOf(labels, jobType)
    then Some(ParamsOf(labels, jobType, n[|prefix|..])) else None
  }

  function RunJob(c: Container, n: string): Option<Params> {
    HomedAny(c, Defined(c.labels, JOB_RUN, "", n))
  }
  function ExecJob(c: Container, n: string): Option<Params> {
    if c.running then HomedAny(c, Defined(c.labels, JOB_EXEC, Prefix(c) + ".", n)) else None
  }

  function Get(jobs: Jobs, n: string): Option<Params> { if n in jobs then Some(jobs[n]) else None }

  function WithParam(params: Option<Params>, param: string, value: string): Params {
    (if params.None? then map[] else params.value)[param := value]
  }

  lemma ParamsOfOneMore(labels: map<Label, string>, l: Label, v: string, jobType: string, job: string)
    requires l !in labels
    ensures ParamsOf(labels[l := v], jobType, job)
         == if l.jobType == jobType && l.job == job then ParamsOf(labels, jobType, job)[l.param := v]
            else ParamsOf(labels, jobType, job)
    ensures JobsOf(labels[l := v], jobType) == JobsOf(labels, jobType) + if l.jobType == jobType then {l.job} else {}
  {
    var more := labels[l := v];
    assert forall k :: k in more <==> k in labels || k == l;
  }

  lemma NoParams(labels: map<Label, string>, jobType: string, job: string)
    requires job !in JobsOf(labels, jobType)
    ensures ParamsOf(labels, jobType, job) == map[]
  {
  }

  lemma DefinedOneMore(labels: map<Label, string>, l: Label, v: string, jobType: string, prefix: string, n: string)
    requires l !in labels
    ensures Defined(labels[l := v], jobType, prefix, n)
         == var was := Defined(labels, jobType, prefix, n);
            if l.jobType == jobType && n == prefix + l.job then Some(WithParam(was, l.param, v)) else was
  {
    assert (prefix + l.job)[|prefix|..] == l.job && (prefix + l.job)[..|prefix|] == prefix;
    if |prefix| <= |n| && n[..|prefix|] == prefix {
      var job := n[|prefix|..];
      assert n == prefix + job;
      ParamsOfOneMore(labels, l, v, jobType, job);
      if job !in JobsOf(labels, jobType) {
        NoParams(labels, jobType, job);
      }
    }
  }

  /** What a label makes of the jobs of one type. */
  function Taking(jobs: Jobs, l: Label, v: string, prefix: string): Jobs {
    jobs[prefix + l.job := WithParam(Get(jobs, prefix + l.job), l.param, v)]
  }

  ghost predicate Collected(jobs: Jobs, labels: map<Label, string>, jobType: string, prefix: string) {
    forall n :: Get(jobs, n) == Defined(labels, jobType, prefix, n)
  }

  lemma LabelTaken(jobs: Jobs, labels: map<Label, string>, l: Label, v: string, jobType: string, prefix: string)
    requires l !in labels && Collected(jobs, labels, jobType, prefix)
    ensures var jobs' := if l.jobType == jobType then Taking(jobs, l, v, prefix) else jobs;
            Collected(jobs', labels[l := v], jobType, prefix)
  {
    var jobs' := if l.jobType == jobType then Taking(jobs, l, v, prefix) else jobs;
    forall n ensures Get(jobs', n) == Defined(labels[l := v], jobType, prefix, n) {
      DefinedOneMore(labels, l, v, jobType, prefix, n);
    }
  }

  /** The labels of a container, read in any order. */
  method CollectJobs(c: Container) returns (exec: Jobs, run: Jobs)
    ensures Collected(run, c.labels, JOB_RUN, "")
    ensures if c.running then Collected(exec, c.labels, JOB_EXEC, Prefix(c) + ".") else exec == map[]
  {
    exec, run := map[], map[];
    var todo := c.labels.Keys;
    ghost var done: map<Label, string> := map[];
    while todo != {}
      invariant todo <= c.labels.Keys && done == c.labels - todo
      invariant Collected(run, done, JOB_RUN, "")
      invariant if c.running then Collected(exec, done, JOB_EXEC, Prefix(c) + ".") else exec == map[]
    {
      var l :| l in todo;
      var value := c.labels[l];
      LabelTaken(run, done, l, value, JOB_RUN, "");
      if c.running {
        LabelTaken(exec, done, l, value, JOB_EXEC, Prefix(c) + ".");
      }
      assert |JOB_RUN| != |JOB_EXEC|;
      if CanRun(l.jobType, c) {
        if l.jobType == JOB_EXEC {
          exec := Taking(exec, l, value, Prefix(c) + ".");
        } else if l.jobType == JOB_RUN {
          run := Taking(run, l, value, "");
        }
      }
      todo := todo - {l};
      done := done[l := value];
      assert done == c.labels - todo;
    }
    assert c.labels - {} == c.labels;
  }

  method AddContainerName(c: Container, jobs: Jobs) returns (r: Jobs)
    ensures forall n :: Get(r, n) == HomedAny(c, Get(jobs, n))
  {
    r := jobs;
    if c.service {
      return;
    }
    var todo := jobs.Keys;
    while todo != {}
      invariant todo <= jobs.Keys
      invariant forall n :: Get(r, n) == if n in todo then Get(jobs, n) else HomedAny(c, Get(jobs, n))
    {
      var n :| n in todo;
      assert Get(r, n) == Get(jobs, n);
      if "image" !in r[n] && "container" !in r[n] {
        r := r[n := r[n]["container" := c.name]];
      }
      todo := todo - {n};
    }
  }

  // ---- Merging over the sorted containers ----

  function Merged(left: Option<Params>, right: Option<Params>, useRight: bool): Option<Params> {
    if right.Some? && (left.None? || useRight) then right else left
  }

  method MergeJobMaps(left: Jobs, right: Jobs, useRight: bool) returns (r: Jobs)
    ensures forall n :: Get(r, n) == Merged(Get(left, n), Get(right, n), useRight)
  {
    r := left;
    var todo := right.Keys;
    while todo != {}
      invariant todo <= right.Keys
      invariant forall n :: n in todo ==> Get(r, n) == Get(left, n)
      invariant forall n :: n !in todo ==> Get(r, n) == Merged(Get(left, n), Get(right, n), useRight)
    {
      var n :| n in todo;
      assert Get(r, n) == Get(left, n);
      if n !in r || useRight {
        r := r[n := right[n]];
      }
      todo := todo - {n};
    }
  }

  /** What one container offers for a name, and whether it is running. */
  datatype Offer = Offer(running: bool, params: Option<Params>)

  function ExecOffers(cs: seq<Container>, n: string): seq<Offer> {
    seq(|cs|, i requires 0 <= i < |cs| => Offer(false, ExecJob(cs[i], n)))
  }
  function RunOffers(cs: seq<Container>, n: string): seq<Offer> {
    seq(|cs|, i requires 0 <= i < |cs| => Offer(cs[i].running, RunJob(cs[i], n)))
  }

  /** The merges in a row; only run jobs of running containers replace what is there. */
  function Taken(offers: seq<Offer>): Option<Params> {
    if offers == [] then None
    else
      var last := offers[|offers| - 1];
      Merged(Taken(offers[..|offers| - 1]), last.params, last.running)
  }

  lemma OffersGrow(cs: seq<Container>, i: nat, n: string)
    requires i < |cs|
    ensures Taken(ExecOffers(cs[..i + 1], n)) == Merged(Taken(ExecOffers(cs[..i], n)), ExecJob(cs[i], n), false)
    ensures Taken(RunOffers(cs[..i + 1], n)) == Merged(Taken(RunOffers(cs[..i], n)), RunJob(cs[i], n), cs[i].running)
  {
    assert ExecOffers(cs[..i + 1], n)[..i] == ExecOffers(cs[..i], n);
    assert RunOffers(cs[..i + 1], n)[..i] == RunOffers(cs[..i], n);
  }

  method ResolveLabels(containers: seq<Container>) returns (exec: Jobs, run: Jobs)
    ensures forall n :: Get(exec, n) == Taken(ExecOffers(SortContainers(containers), n))
    ensures forall n :: Get(run, n) == Taken(RunOffers(SortContainers(containers), n))
  {
    var sorted := SortContainers(containers);
    exec, run := map[], map[];
    for i := 0 to |sorted|
      invariant forall n :: Get(exec, n) == Taken(ExecOffers(sorted[..i], n))
      invariant forall n :: Get(run, n) == Taken(RunOffers(sorted[..i], n))
    {
      var c := sorted[i];
      var containerExec, containerRun := ContainerJobs(c);
      exec := MergeJobMaps(exec, containerExec, false);
      run := MergeJobMaps(run, containerRun, c.running);
      forall n
        ensures Get(exec, n) == Taken(ExecOffers(sorted[..i + 1], n))
        ensures Get(run, n) == Taken(RunOffers(sorted[..i + 1], n))
      {
        OffersGrow(sorted, i, n);
      }
    }
    assert sorted[..|sorted|] == sorted;
  }

  method ContainerJobs(c: Container) returns (exec: Jobs, run: Jobs)
    ensures forall n :: Get(exec, n) == ExecJob(c, n)
    ensures forall n :: Get(run, n) == RunJob(c, n)
  {
    exec, run := CollectJobs(c);
    exec := AddContainerName(c, exec);
    run := AddContainerName(c, run);
  }

  // ---- Where a job comes from ----

  lemma {:induction false} NothingOffered(offers: seq<Offer>)
    requires forall k :: 0 <= k < |offers| ==> offers[k].params.None?
    ensures Taken(offers).None?
  {
    if offers != [] {
      NothingOffered(offers[..|offers| - 1]);
    }
  }

  /** The last replacing offer wins. */
  lemma {:induction false} LastReplacing(offers: seq<Offer>, i: nat)
    requires i < |offers| && offers[i].running && offers[i].params.Some?
    requires forall k :: i < k < |offers| ==> !(offers[k].running && offers[k].params.Some?)
    ensures Taken(offers) == offers[i].params
  {
    if i < |offers| - 1 {
      LastReplacing(offers[..|offers| - 1], i);
    }
  }

  /** Without a replacing offer the first one wins. */
  lemma {:induction false} FirstOffered(offers: seq<Offer>, i: nat)
    requires i < |offers| && offers[i].params.Some?
    requires forall k :: 0 <= k < |offers| && offers[k].params.Some? ==> !offers[k].running && i <= k
    ensures Taken(offers) == offers[i].params
  {
    if i < |offers| - 1 {
      FirstOffered(offers[..|offers| - 1], i);
    } else {
      NothingOffered(offers[..|offers| - 1]);
    }
  }

  /** An exec job comes whole from the first running container, in sort order, that defines it. */
  lemma ExecJobSource(cs: seq<Container>, n: string, i: nat)
    requires i < |cs| && ExecJob(cs[i], n).Some? && forall k :: 0 <= k < i ==> ExecJob(cs[k], n).None?
    ensures Taken(ExecOffers(cs, n)) == ExecJob(cs[i], n) && cs[i].running
  {
    FirstOffered(ExecOffers(cs, n), i);
  }

  /** A run job comes whole from the last running container, in sort order, that defines it. */
  lemma RunJobFromRunning(cs: seq<Container>, n: string, i: nat)
    requires i < |cs| && cs[i].running && RunJob(cs[i], n).Some?
    requires forall k :: i < k < |cs| ==> !(cs[k].running && RunJob(cs[k], n).Some?)
    ensures Taken(RunOffers(cs, n)) == RunJob(cs[i], n)
  {
    LastReplacing(RunOffers(cs, n), i);
  }

  /** If no running container defines it, a run job comes whole from the first stopped one in sort order. */
  lemma RunJobFromStopped(cs: seq<Container>, n: string, i: nat)
    requires i < |cs| && RunJob(cs[i], n).Some?
    requires forall k :: 0 <= k < |cs| && RunJob(cs[k], n).Some? ==> !cs[k].running && i <= k
    ensures Taken(RunOffers(cs, n)) == RunJob(cs[i], n)
  {
    FirstOffered(RunOffers(cs, n), i);
  }

  /** In sort order every running container comes before every stopped one, and among either the newer
      comes first, names deciding between equals. */
  lemma SortOrderIs(cs: seq<Container>, i: nat, k: nat)
    requires Ordered(cs) && i < k < |cs|
    ensures cs[k].running ==> cs[i].running
    ensures cs[i].running == cs[k].running ==> cs[k].created <= cs[i].created
    ensures cs[i].running == cs[k].running && cs[k].created == cs[i].created ==> Compare(cs[i].name, cs[k].name) < 0
  {
    assert Precedes(cs[i], cs[k]);
  }

  /** An exec job comes from the newest running container that defines it. */
  lemma ExecJobIsNewest(cs: seq<Container>, n: string, i: nat, k: nat)
    requires Ordered(cs) && i < |cs| && k < |cs| && ExecJob(cs[i], n).Some? && ExecJob(cs[k], n).Some?
    requires forall m :: 0 <= m < i ==> ExecJob(cs[m], n).None?
    ensures Taken(ExecOffers(cs, n)) == ExecJob(cs[i], n) && cs[i].running && cs[k].created <= cs[i].created
  {
    ExecJobSource(cs, n, i);
    if i < k {
      SortOrderIs(cs, i, k);
    }
  }

  /** Among the stopped containers the first to define a run job is the newest. */
  lemma FirstStoppedIsNewest(cs: seq<Container>, i: nat, k: nat)
    requires Ordered(cs) && i < k < |cs| && !cs[i].running
    ensures !cs[k].running && cs[k].created <= cs[i].created
  {
    SortOrderIs(cs, i, k);
  }

  /** What a container defines under a name: an exec job only if it runs, under its Compose service if it has
      one and else its own name, a dot and the job's name; a run job under the job's name. */
  lemma DefinesIff(c: Container, n: string)
    ensures ExecJob(c, n).Some?
       <==> c.running && exists l :: l in c.labels && l.jobType == "job-exec"
                                  && n == (if c.composeService != "" then c.composeService else c.name) + "." + l.job
    ensures RunJob(c, n).Some? <==> exists l :: l in c.labels && l.jobType == "job-run" && n == l.job
  {
    DefinedIff(c.labels, JOB_EXEC, Prefix(c) + ".", n);
    DefinedIff(c.labels, JOB_RUN, "", n);
    assert forall l: Label :: "" + l.job == l.job;
  }

  lemma DefinedIff(labels: map<Label, string>, jobType: string, prefix: string, n: string)
    ensures Defined(labels, jobType, prefix, n).Some?
       <==> exists l :: l in labels && l.jobType == jobType && n == prefix + l.job
  {
    if Defined(labels, jobType, prefix, n).Some? {
      var l :| l in labels && l.jobType == jobType && l.job == n[|prefix|..];
      assert n == prefix + l.job;
    }
    if l :| l in labels && l.jobType == jobType && n == prefix + l.job {
      assert n[..|prefix|] == prefix && n[|prefix|..] == l.job;
    }
  }

  /** A job keeps its parameters; without image and container, and outside a service container, it gets the
      container that defines it, and nothing else. */
  lemma HomedIs(c: Container, params: Params)
    ensures forall p :: p in params ==> p in Homed(c, params) && Homed(c, params)[p] == params[p]
    ensures forall p :: p in Homed(c, params) && p !in params ==> p == "container" && Homed(c, params)[p] == c.name
    ensures "container" !in params ==> ("container" in Homed(c, params) <==> !c.service && "image" !in params)
  {
  }

  /** The parameters of a job are those of its labels; one without image and container, of a container that
      is no service container, gets that container besides, and no other job gets anything. */
  lemma ParamsAre(c: Container, l: Label, p: string)
    requires l in c.labels && l.jobType == JOB_RUN
    ensures var defined, params := p in ParamsOf(c.labels, JOB_RUN, l.job), RunJob(c, l.job).value;
            && RunJob(c, l.job).Some?
            && (defined <==> Label(JOB_RUN, l.job, p) in c.labels)
            && (defined ==> p in params && params[p] == c.labels[Label(JOB_RUN, l.job, p)])
            && (!defined && p in params ==> p == "container" && params[p] == c.name)
            && (!defined && p == "container" ==>
                  (p in params <==> !c.service && Label(JOB_RUN, l.job, "image") !in c.labels))
  {
    assert l.job[0..] == l.job && l.job[..0] == "";
  }

  /** The resolved jobs do not depend on the order in which containers are listed. */
  lemma ResolutionIgnoresListing(a: seq<Container>, b: seq<Container>, n: string)
    requires DistinctKeys(a) && DistinctKeys(b) && multiset(a) == multiset(b)
    ensures Taken(ExecOffers(SortContainers(a), n)) == Taken(ExecOffers(SortContainers(b), n))
    ensures Taken(RunOffers(SortContainers(a), n)) == Taken(RunOffers(SortContainers(b), n))
    ensures Ordered(SortContainers(a))
  {
    ListingOrderIrrelevant(a, b);
    SortOrders(a);
  }
}
