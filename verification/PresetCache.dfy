/** The two-tier preset cache of middlewares/preset_cache.go: memory in front of
    disk. A disk entry stands for the metadata file and the preset file, which
    are written and removed together; reading one back yields the preset that
    was written. Each operation happens at one point in time. */
module PresetCache {
  import opened Prelude

  datatype Cached<P> = Cached(preset: P, expiresAt: int)
  datatype OnDisk<P> = OnDisk(url: string, preset: P, expiresAt: int)
  datatype State<P> = State(memory: map<string, Cached<P>>, disk: map<string, OnDisk<P>>)

  /** The time to live, and the hash that names a URL's files. */
  datatype Settings = Settings(ttl: int, key: string -> string)

  ghost predicate Injective(key: string -> string) {
    forall a, b :: key(a) == key(b) ==> a == b
  }

  function Got<P>(c: Settings, s: State<P>, url: string, now: int): (State<P>, Option<P>) {
    var k := c.key(url);
    if k in s.memory && now < s.memory[k].expiresAt then (s, Some(s.memory[k].preset))
    else if k !in s.disk then (s, None)
    else if now > s.disk[k].expiresAt then (s.(disk := s.disk - {k}), None)
    else if s.disk[k].url != url then (s, None)
    else (s.(memory := s.memory[k := Cached(s.disk[k].preset, now + c.ttl)]), Some(s.disk[k].preset))
  }

  function WithPut<P>(c: Settings, s: State<P>, url: string, p: P, now: int): State<P> {
    var k := c.key(url);
    State(s.memory[k := Cached(p, now + c.ttl)], s.disk[k := OnDisk(url, p, now + c.ttl)])
  }

  function Without<P>(c: Settings, s: State<P>, url: string): State<P> {
    State(s.memory - {c.key(url)}, s.disk - {c.key(url)})
  }

  function Cleaned<P>(s: State<P>, now: int): State<P> {
    State(map k | k in s.memory && now <= s.memory[k].expiresAt :: s.memory[k],
          map k | k in s.disk && now <= s.disk[k].expiresAt :: s.disk[k])
  }

  class Cache<P> {
    const settings: Settings
    var memory: map<string, Cached<P>>
    var disk: map<string, OnDisk<P>>

    ghost function View(): State<P> reads this { State(memory, disk) }

    /** A cache over a directory that may hold the entries of an earlier process. */
    constructor (settings: Settings, disk: map<string, OnDisk<P>>)
      ensures this.settings == settings && View() == State(map[], disk)
    {
      this.settings, this.disk, memory := settings, disk, map[];
    }

    method Get(url: string, now: int) returns (r: Option<P>)
      modifies this
      ensures (View(), r) == Got(settings, old(View()), url, now)
    {
      var k := settings.key(url);
      if k in memory && now < memory[k].expiresAt {
        return Some(memory[k].preset);
      }
      r := GetFromDisk(k, url, now);
      if r.Some? {
        memory := memory[k := Cached(r.value, now + settings.ttl)];
      }
    }

    method GetFromDisk(k: string, url: string, now: int) returns (r: Option<P>)
      modifies this`disk
      ensures disk == if k in old(disk) && now > old(disk)[k].expiresAt then old(disk) - {k} else old(disk)
      ensures r == if k in disk && disk[k].url == url then Some(disk[k].preset) else None
    {
      if k !in disk {
        return None;
      }
      if now > disk[k].expiresAt {
        disk := disk - {k};
        return None;
      }
      if disk[k].url != url {
        return None;
      }
      r := Some(disk[k].preset);
    }

    method Put(url: string, p: P, now: int)
      modifies this
      ensures View() == WithPut(settings, old(View()), url, p, now)
    {
      var k, expiresAt := settings.key(url), now + settings.ttl;
      memory := memory[k := Cached(p, expiresAt)];
      disk := disk[k := OnDisk(url, p, expiresAt)];
    }

    method Invalidate(url: string)
      modifies this
      ensures View() == Without(settings, old(View()), url)
    {
      memory := memory - {settings.key(url)};
      disk := disk - {settings.key(url)};
    }

    method Cleanup(now: int)
      modifies this
      ensures View() == Cleaned(old(View()), now)
      ensures forall k :: k in memory <==> k in old(memory) && now <= old(memory)[k].expiresAt
      ensures forall k :: k in disk <==> k in old(disk) && now <= old(disk)[k].expiresAt
    {
      var todo := memory.Keys;
      while todo != {}
        invariant todo <= old(memory).Keys && memory.Keys <= old(memory).Keys && disk == old(disk)
        invariant forall k :: k in memory ==> memory[k] == old(memory)[k]
        invariant forall k :: k in old(memory) ==> (k in memory <==> k in todo || now <= old(memory)[k].expiresAt)
      {
        var k :| k in todo;
        if now > memory[k].expiresAt {
          memory := memory - {k};
        }
        todo := todo - {k};
      }
      assert memory == Cleaned(old(View()), now).memory;
      todo := disk.Keys;
      while todo != {}
        invariant todo <= old(disk).Keys && disk.Keys <= old(disk).Keys && memory == Cleaned(old(View()), now).memory
        invariant forall k :: k in disk ==> disk[k] == old(disk)[k]
        invariant forall k :: k in old(disk) ==> (k in disk <==> k in todo || now <= old(disk)[k].expiresAt)
      {
        var k :| k in todo;
        if now > disk[k].expiresAt {
          disk := disk - {k};
        }
        todo := todo - {k};
      }
      assert disk == Cleaned(old(View()), now).disk;
    }
  }

  // ---- Runs ----

  datatype Event<P> =
    | Get(url: string, time: int)
    | Put(url: string, preset: P, time: int)
    | Invalidate(url: string, time: int)
    | Cleanup(time: int)
    | Restart(time: int) // a new cache over the same directory

  predicate Orderly<P>(events: seq<Event<P>>) {
    forall i, j :: 0 <= i < j < |events| ==> events[i].time <= events[j].time
  }

  function Step<P>(c: Settings, s: State<P>, e: Event<P>): State<P> {
    match e
    case Get(url, now) => Got(c, s, url, now).0
    case Put(url, p, now) => WithPut(c, s, url, p, now)
    case Invalidate(url, _) => Without(c, s, url)
    case Cleanup(now) => Cleaned(s, now)
    case Restart(_) => State(map[], s.disk)
  }

  function After<P>(c: Settings, events: seq<Event<P>>): State<P> {
    if events == [] then State(map[], map[]) else Step(c, After(c, events[..|events| - 1]), events[|events| - 1])
  }

  // ---- What a hit may return, without the tables ----

  datatype Stamp<P> = Stamp(preset: P, time: int)

  /** The last Put of a URL since it was last invalidated. */
  function LastPut<P>(events: seq<Event<P>>, url: string): Option<Stamp<P>> {
    if events == [] then None
    else
      var e, earlier := events[|events| - 1], LastPut(events[..|events| - 1], url);
      if e.Put? && e.url == url then Some(Stamp(e.preset, e.time))
      else if e.Invalidate? && e.url == url then None
      else earlier
  }

  predicate Fresh<P>(c: Settings, put: Option<Stamp<P>>, now: int) {
    put.Some? && now - put.value.time <= c.ttl
  }
  predicate Alive(until: Option<int>, now: int) { until.Some? && now < until.value }

  /** Until when memory holds a copy: a Put and a Get served from disk each give it one ttl, and an
      invalidation or a restart takes it away. */
  function CopyUntil<P>(c: Settings, events: seq<Event<P>>, url: string): Option<int> {
    if events == [] then None
    else
      var e, front := events[|events| - 1], events[..|events| - 1];
      var until := CopyUntil(c, front, url);
      match e
      case Restart(_) => None
      case Cleanup(_) => until
      case Invalidate(u, _) => if u == url then None else until
      case Put(u, _, now) => if u == url then Some(now + c.ttl) else until
      case Get(u, now) =>
        if u == url && Fresh(c, LastPut(front, url), now) && !Alive(until, now) then Some(now + c.ttl) else until
  }

  /** A Get at `now` would be served from disk. */
  predicate FromDisk<P>(c: Settings, events: seq<Event<P>>, url: string, now: int) {
    Fresh(c, LastPut(events, url), now) && !Alive(CopyUntil(c, events, url), now)
  }

  /** The tables hold what the history says, as far as any later Get can see. */
  ghost predicate Faithful<P>(c: Settings, s: State<P>, events: seq<Event<P>>, now: int) {
    forall url :: FaithfulFor(c, s, LastPut(events, url), CopyUntil(c, events, url), url, now)
  }

  ghost predicate FaithfulFor<P>(c: Settings, s: State<P>, put: Option<Stamp<P>>, until: Option<int>, url: string,
                                 now: int)
  {
    var k := c.key(url);
    && (until.Some? ==> put.Some?)
    && (k in s.memory ==> until.Some? && s.memory[k] == Cached(put.value.preset, until.value))
    && (until.Some? && now <= until.value ==> k in s.memory)
    && (k in s.disk ==> put.Some? && s.disk[k] == OnDisk(url, put.value.preset, put.value.time + c.ttl))
    && (put.Some? && now - put.value.time <= c.ttl ==> k in s.disk)
  }

  lemma GetFaithful<P>(c: Settings, s: State<P>, put: Option<Stamp<P>>, until: Option<int>, url: string, now: int)
    requires FaithfulFor(c, s, put, until, url, now)
    ensures FaithfulFor(c, Got(c, s, url, now).0, put,
                        if Fresh(c, put, now) && !Alive(until, now) then Some(now + c.ttl) else until, url, now)
  {
  }

  lemma OthersFaithful<P>(c: Settings, s: State<P>, e: Event<P>, put: Option<Stamp<P>>, until: Option<int>, url: string)
    requires Injective(c.key) && FaithfulFor(c, s, put, until, url, e.time)
    requires (e.Get? || e.Put? || e.Invalidate?) && e.url != url
    ensures FaithfulFor(c, Step(c, s, e), put, until, url, e.time)
  {
    assert c.key(e.url) != c.key(url);
  }

  lemma StepFaithful<P>(c: Settings, events: seq<Event<P>>, e: Event<P>)
    requires Injective(c.key) && Faithful(c, After(c, events), events, e.time)
    ensures Faithful(c, After(c, events + [e]), events + [e], e.time)
  {
    assert (events + [e])[..|events|] == events;
    var s, t := After(c, events), After(c, events + [e]);
    forall url
      ensures FaithfulFor(c, t, LastPut(events + [e], url), CopyUntil(c, events + [e], url), url, e.time)
    {
      var put, until := LastPut(events, url), CopyUntil(c, events, url);
      assert FaithfulFor(c, s, put, until, url, e.time);
      if (e.Get? || e.Put? || e.Invalidate?) && e.url != url {
        OthersFaithful(c, s, e, put, until, url);
      } else if e.Get? {
        GetFaithful(c, s, put, until, url, e.time);
      }
    }
  }

  lemma {:induction false} RunFaithful<P>(c: Settings, events: seq<Event<P>>, now: int)
    requires Injective(c.key) && Follows(events, now)
    ensures Faithful(c, After(c, events), events, now)
  {
    if events != [] {
      var front, last := events[..|events| - 1], events[|events| - 1];
      assert events == front + [last];
      RunFaithful(c, front, last.time);
      StepFaithful(c, front, last);
    }
  }

  /** Time runs forward up to `now`. */
  predicate Follows<P>(events: seq<Event<P>>, now: int) {
    Orderly(events) && forall i :: 0 <= i < |events| ==> events[i].time <= now
  }

  /** A hit is the last Put since the last invalidation; there is one exactly while its file is fresh
      or memory holds a copy, and it comes from disk exactly if `FromDisk` says so. */
  lemma HitsAreLastPuts<P>(c: Settings, events: seq<Event<P>>, url: string, now: int)
    requires Injective(c.key) && Follows(events, now)
    ensures var s := After(c, events);
            var r, put := Got(c, s, url, now).1, LastPut(events, url);
            && (r.Some? ==> put.Some? && r.value == put.value.preset)
            && (r.Some? <==> Fresh(c, put, now) || Alive(CopyUntil(c, events, url), now))
            && (r.Some? && LiveInMemory(s, c.key(url), now).None? <==> FromDisk(c, events, url, now))
  {
    RunFaithful(c, events, now);
    assert FaithfulFor(c, After(c, events), LastPut(events, url), CopyUntil(c, events, url), url, now);
  }

  // ---- How old a hit may be ----

  /** The k-th event is a Get of the URL that was served from disk. */
  predicate ServedFromDisk<P>(c: Settings, events: seq<Event<P>>, k: nat, url: string) {
    k < |events| && events[k].Get? && events[k].url == url && FromDisk(c, events[..k], url, events[k].time)
  }

  /** Nothing since then has taken or replaced the copy in memory. */
  predicate KeptSince<P>(events: seq<Event<P>>, k: nat, url: string) {
    forall j :: k < j < |events| ==>
      !events[j].Restart? && ((events[j].Put? || events[j].Invalidate?) ==> events[j].url != url)
  }

  predicate Promoted<P>(c: Settings, events: seq<Event<P>>, k: nat, url: string, now: int) {
    ServedFromDisk(c, events, k, url) && KeptSince(events, k, url) && now < events[k].time + c.ttl
  }

  lemma {:induction false} PromotedIsInMemory<P>(c: Settings, events: seq<Event<P>>, k: nat, url: string)
    requires Orderly(events) && ServedFromDisk(c, events, k, url) && KeptSince(events, k, url)
    ensures var until := CopyUntil(c, events, url); until.Some? && events[k].time + c.ttl <= until.value
    ensures var put := LastPut(events, url); put.Some? && put == LastPut(events[..k], url)
  {
    var front := events[..|events| - 1];
    if k < |front| {
      assert front[..k] == events[..k];
      PromotedIsInMemory(c, front, k, url);
    }
  }

  /** A copy in memory that outlives the file was put there by a Get served from disk. */
  lemma {:induction false} CopyWasPromoted<P>(c: Settings, events: seq<Event<P>>, url: string) returns (k: nat)
    requires Orderly(events) && CopyUntil(c, events, url).Some? && LastPut(events, url).Some?
    requires CopyUntil(c, events, url).value > LastPut(events, url).value.time + c.ttl
    ensures ServedFromDisk(c, events, k, url) && KeptSince(events, k, url)
    ensures events[k].time + c.ttl == CopyUntil(c, events, url).value
  {
    var last := |events| - 1;
    var e, front := events[last], events[..last];
    if e.Get? && e.url == url && FromDisk(c, front, url, e.time) {
      k := last;
    } else {
      k := CopyWasPromoted(c, front, url);
      assert front[..k] == events[..k] && front[k] == events[k];
    }
  }

  /** Within one ttl of the last Put there always is a hit. Later there is one exactly if some Get since
      that Put was served from disk less than one ttl ago and no restart came since. */
  lemma HitIffFreshOrPromoted<P>(c: Settings, events: seq<Event<P>>, url: string, now: int)
    requires Injective(c.key) && Follows(events, now)
    ensures var r, put := Got(c, After(c, events), url, now).1, LastPut(events, url);
            r.Some? <==>
              put.Some? && (now - put.value.time <= c.ttl || exists k: nat :: Promoted(c, events, k, url, now))
  {
    HitsAreLastPuts(c, events, url, now);
    if k: nat :| Promoted(c, events, k, url, now) {
      PromotedIsInMemory(c, events, k, url);
    }
    var put := LastPut(events, url);
    if put.Some? && now - put.value.time > c.ttl && Alive(CopyUntil(c, events, url), now) {
      var k := CopyWasPromoted(c, events, url);
      assert Promoted(c, events, k, url, now);
    }
  }

  /** No hit is two ttl old. */
  lemma AgeBound<P>(c: Settings, events: seq<Event<P>>, url: string, now: int)
    requires Injective(c.key) && c.ttl > 0 && Follows(events, now)
    ensures var r, put := Got(c, After(c, events), url, now).1, LastPut(events, url);
            r.Some? ==> put.Some? && now - put.value.time < 2 * c.ttl
  {
    HitIffFreshOrPromoted(c, events, url, now);
    if k: nat :| Promoted(c, events, k, url, now) {
      PromotedIsInMemory(c, events, k, url);
    }
  }

  /** Every age below two ttl is reached: a new process reads the file late and keeps it for another ttl. */
  lemma PromotionRestartsTtl<P>(c: Settings, url: string, p: P, age: int)
    requires c.ttl < age < 2 * c.ttl
    ensures var events := [Put(url, p, 0)] + [Restart(0)] + [Get(url, age - c.ttl + 1)];
            Follows(events, age) && Got(c, After(c, events), url, age).1 == Some(p)
  {
    var put, restart, get := Put(url, p, 0), Restart(0), Get(url, age - c.ttl + 1);
    AfterAppend(c, [], put);
    AfterAppend(c, [put], restart);
    AfterAppend(c, [put] + [restart], get);
    assert [] + [put] == [put];
  }

  lemma {:induction false} CopyOutlivesFile<P>(c: Settings, events: seq<Event<P>>, url: string)
    requires Orderly(events) && (forall i :: 0 <= i < |events| ==> !events[i].Restart?) && LastPut(events, url).Some?
    ensures var put, until := LastPut(events, url).value, CopyUntil(c, events, url);
            until.Some? && put.time + c.ttl <= until.value && put.time <= events[|events| - 1].time
  {
    var e := events[|events| - 1];
    if e.Restart? || e.Cleanup? || e.url != url || e.Get? {
      CopyOutlivesFile(c, events[..|events| - 1], url);
    }
  }

  /** Without a restart a Get is served from disk only at the instant the file expires. */
  lemma PromotionNeedsRestart<P>(c: Settings, events: seq<Event<P>>, k: nat, url: string)
    requires Orderly(events) && ServedFromDisk(c, events, k, url)
    requires forall i :: 0 <= i < k ==> !events[i].Restart?
    ensures LastPut(events[..k], url).Some?
    ensures events[k].time == LastPut(events[..k], url).value.time + c.ttl
  {
    CopyOutlivesFile(c, events[..k], url);
  }

  lemma AfterAppend<P>(c: Settings, events: seq<Event<P>>, e: Event<P>)
    ensures After(c, events + [e]) == Step(c, After(c, events), e)
  {
    assert (events + [e])[..|events|] == events;
  }

  // ---- Cleanup ----

  function LiveInMemory<P>(s: State<P>, k: string, now: int): Option<Cached<P>> {
    if k in s.memory && now < s.memory[k].expiresAt then Some(s.memory[k]) else None
  }
  function LiveOnDisk<P>(s: State<P>, k: string, now: int): Option<OnDisk<P>> {
    if k in s.disk && now <= s.disk[k].expiresAt then Some(s.disk[k]) else None
  }

  /** Two caches that no Get from `now` on can tell apart. */
  ghost predicate Alike<P>(a: State<P>, b: State<P>, now: int) {
    forall k :: AlikeAt(a, b, k, now)
  }

  ghost predicate AlikeAt<P>(a: State<P>, b: State<P>, k: string, now: int) {
    LiveInMemory(a, k, now) == LiveInMemory(b, k, now) && LiveOnDisk(a, k, now) == LiveOnDisk(b, k, now)
  }

  lemma StillAlike<P>(a: State<P>, b: State<P>, now: int, later: int)
    requires Alike(a, b, now) && now <= later
    ensures Alike(a, b, later)
  {
    forall k ensures AlikeAt(a, b, k, later) {
      assert AlikeAt(a, b, k, now);
    }
  }

  lemma SameAnswer<P>(c: Settings, a: State<P>, b: State<P>, url: string, now: int)
    requires Alike(a, b, now)
    ensures Got(c, a, url, now).1 == Got(c, b, url, now).1
    ensures Alike(Got(c, a, url, now).0, Got(c, b, url, now).0, now)
  {
    var k0 := c.key(url);
    assert AlikeAt(a, b, k0, now);
    var a', b' := Got(c, a, url, now).0, Got(c, b, url, now).0;
    forall k ensures AlikeAt(a', b', k, now) {
      assert AlikeAt(a, b, k, now);
    }
  }

  lemma StepsStayAlike<P>(c: Settings, a: State<P>, b: State<P>, e: Event<P>)
    requires Alike(a, b, e.time)
    ensures Alike(Step(c, a, e), Step(c, b, e), e.time)
    ensures e.Cleanup? ==> Alike(Step(c, a, e), b, e.time)
  {
    if e.Get? {
      SameAnswer(c, a, b, e.url, e.time);
    } else {
      var a', b' := Step(c, a, e), Step(c, b, e);
      forall k ensures AlikeAt(a', b', k, e.time) && (e.Cleanup? ==> AlikeAt(a', b, k, e.time)) {
        assert AlikeAt(a, b, k, e.time);
      }
    }
  }

  function WithoutCleanups<P>(events: seq<Event<P>>): seq<Event<P>> {
    if events == [] then []
    else
      var earlier := WithoutCleanups(events[..|events| - 1]);
      if events[|events| - 1].Cleanup? then earlier else earlier + [events[|events| - 1]]
  }

  lemma {:induction false} CleanupsDoNotMatter<P>(c: Settings, events: seq<Event<P>>, url: string, now: int)
    requires Follows(events, now)
    ensures Alike(After(c, events), After(c, WithoutCleanups(events)), now)
    ensures Got(c, After(c, events), url, now).1 == Got(c, After(c, WithoutCleanups(events)), url, now).1
  {
    var a, b := After(c, events), After(c, WithoutCleanups(events));
    if events != [] {
      var front, last := events[..|events| - 1], events[|events| - 1];
      CleanupsDoNotMatter(c, front, url, last.time);
      StepsStayAlike(c, After(c, front), After(c, WithoutCleanups(front)), last);
      if !last.Cleanup? {
        assert WithoutCleanups(events)[..|WithoutCleanups(events)| - 1] == WithoutCleanups(front);
      }
      StillAlike(a, b, last.time, now);
    }
    SameAnswer(c, a, b, url, now);
  }
}
