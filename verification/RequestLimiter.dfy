/** The per-address sliding-window limiter of web/middleware.go. */
module RequestLimiter {
  /** The times less than one window old. */
  function Recent(ts: seq<int>, now: int, window: int): seq<int> {
    if ts == [] then []
    else
      var earlier := Recent(ts[..|ts| - 1], now, window);
      if now - ts[|ts| - 1] < window then earlier + [ts[|ts| - 1]] else earlier
  }

  function Stored(requests: map<string, seq<int>>, ip: string): seq<int> {
    if ip in requests then requests[ip] else []
  }

  /** One request: the decision and the table after it. A refused request leaves the old times in place. */
  function Requested(limit: int, window: int, requests: map<string, seq<int>>, ip: string, now: int):
    (map<string, seq<int>>, bool)
  {
    var valid := Recent(Stored(requests, ip), now, window);
    if |valid| >= limit then (requests[ip := Stored(requests, ip)], false) else (requests[ip := valid + [now]], true)
  }

  function Cleaned(window: int, requests: map<string, seq<int>>, now: int): map<string, seq<int>> {
    map ip | ip in requests && Recent(requests[ip], now, window) != [] :: Recent(requests[ip], now, window)
  }

  class RateLimiter {
    const limit: int
    const window: int
    var requests: map<string, seq<int>>

    constructor (limit: int, window: int)
      ensures this.limit == limit && this.window == window && requests == map[]
    {
      this.limit, this.window, requests := limit, window, map[];
    }

    method Valid(ts: seq<int>, now: int) returns (valid: seq<int>)
      ensures valid == Recent(ts, now, window)
    {
      valid := [];
      for i := 0 to |ts|
        invariant valid == Recent(ts[..i], now, window)
      {
        assert ts[..i + 1][..i] == ts[..i];
        if now - ts[i] < window {
          valid := valid + [ts[i]];
        }
      }
      assert ts[..|ts|] == ts;
    }

    method Request(ip: string, now: int) returns (ok: bool)
      modifies this
      ensures (requests, ok) == Requested(limit, window, old(requests), ip, now)
    {
      if ip !in requests {
        requests := requests[ip := []];
      }
      var valid := Valid(requests[ip], now);
      if |valid| >= limit {
        assert requests == old(requests)[ip := requests[ip]];
        return false;
      }
      requests := requests[ip := valid + [now]];
      assert requests == old(requests)[ip := valid + [now]];
      ok := true;
    }

    method Cleanup(now: int)
      modifies this
      ensures requests == Cleaned(window, old(requests), now)
      ensures forall ip :: ip in requests <==>
                ip in old(requests) && exists t :: t in old(requests)[ip] && now - t < window
      ensures forall ip, t :: ip in requests ==> (t in requests[ip] <==> t in old(requests)[ip] && now - t < window)
    {
      var was := requests;
      var todo := requests.Keys;
      while todo != {}
        invariant todo <= was.Keys
        invariant forall ip :: ip in todo ==> ip in requests && requests[ip] == was[ip]
        invariant forall ip :: ip !in todo ==>
                    && (ip in requests <==> ip in Cleaned(window, was, now))
                    && (ip in requests ==> requests[ip] == Cleaned(window, was, now)[ip])
      {
        var ip :| ip in todo;
        var valid := Valid(requests[ip], now);
        if |valid| > 0 {
          requests := requests[ip := valid];
        } else {
          requests := requests - {ip};
        }
        todo := todo - {ip};
      }
      forall ip, t | ip in was ensures t in Recent(was[ip], now, window) <==> t in was[ip] && now - t < window {
        RecentMembers(was[ip], now, window, t);
      }
      forall ip | ip in was
        ensures Recent(was[ip], now, window) != [] <==> exists t :: t in was[ip] && now - t < window
      {
        assert Recent(was[ip], now, window) != [] ==> Recent(was[ip], now, window)[0] in Recent(was[ip], now, window);
      }
    }
  }

  lemma {:induction false} RecentMembers(ts: seq<int>, now: int, window: int, t: int)
    ensures t in Recent(ts, now, window) <==> t in ts && now - t < window
  {
    if ts != [] {
      RecentMembers(ts[..|ts| - 1], now, window, t);
    }
  }

  /** The recent times are all that are less than one window old, in their order: here as positions. */
  lemma {:induction false} RecentPicks(ts: seq<int>, now: int, window: int) returns (at: seq<nat>)
    ensures |at| == |Recent(ts, now, window)| && (forall a, b :: 0 <= a < b < |at| ==> at[a] < at[b])
    ensures forall a :: 0 <= a < |at| ==> at[a] < |ts| && ts[at[a]] == Recent(ts, now, window)[a]
    ensures forall i :: 0 <= i < |ts| ==> (i in at <==> now - ts[i] < window)
  {
    if ts == [] {
      at := [];
    } else {
      at := RecentPicks(ts[..|ts| - 1], now, window);
      if now - ts[|ts| - 1] < window {
        at := at + [|ts| - 1];
      }
    }
  }

  // ---- Runs ----

  datatype Event = Request(ip: string, time: int) | Cleanup(time: int)
  datatype Entry = Entry(ip: string, time: int, ok: bool)

  predicate Orderly(events: seq<Event>) {
    forall i, j :: 0 <= i < j < |events| ==> events[i].time <= events[j].time
  }

  /** The table after a run and the decisions it took. */
  function Run(limit: int, window: int, events: seq<Event>): (map<string, seq<int>>, seq<Entry>) {
    if events == [] then (map[], [])
    else
      var (requests, log) := Run(limit, window, events[..|events| - 1]);
      match events[|events| - 1]
      case Request(ip, now) =>
        var (after, ok) := Requested(limit, window, requests, ip, now);
        (after, log + [Entry(ip, now, ok)])
      case Cleanup(now) => (Cleaned(window, requests, now), log)
  }

  // ---- What the limiter is for, without a table ----

  function Requests(events: seq<Event>): seq<Event> {
    if events == [] then []
    else
      var earlier := Requests(events[..|events| - 1]);
      if events[|events| - 1].Request? then earlier + [events[|events| - 1]] else earlier
  }

  /** When an address was let in. */
  function Admitted(log: seq<Entry>, ip: string): seq<int> {
    if log == [] then []
    else
      var e, earlier := log[|log| - 1], Admitted(log[..|log| - 1], ip);
      if e.ip == ip && e.ok then earlier + [e.time] else earlier
  }

  /** A request is let in when fewer than `limit` of the address's requests were in the last window. */
  function Reference(limit: int, window: int, requests: seq<Event>): seq<Entry>
    requires forall i :: 0 <= i < |requests| ==> requests[i].Request?
  {
    if requests == [] then []
    else
      var log := Reference(limit, window, requests[..|requests| - 1]);
      var r := requests[|requests| - 1];
      log + [Entry(r.ip, r.time, |Recent(Admitted(log, r.ip), r.time, window)| < limit)]
  }

  lemma {:induction false} RequestsAreRequests(events: seq<Event>)
    ensures forall i :: 0 <= i < |Requests(events)| ==> Requests(events)[i].Request?
  {
    if events != [] {
      RequestsAreRequests(events[..|events| - 1]);
    }
  }

  lemma {:induction false} RecentConcat(a: seq<int>, b: seq<int>, now: int, window: int)
    ensures Recent(a + b, now, window) == Recent(a, now, window) + Recent(b, now, window)
  {
    if b == [] {
      assert a + b == a;
    } else {
      RecentConcat(a, b[..|b| - 1], now, window);
      assert (a + b)[..|a + b| - 1] == a + b[..|b| - 1];
    }
  }

  /** Dropping what is old now loses nothing that is recent later. */
  lemma {:induction false} RecentLater(ts: seq<int>, now: int, later: int, window: int)
    requires now <= later
    ensures Recent(Recent(ts, now, window), later, window) == Recent(ts, later, window)
  {
    if ts != [] {
      var front, last := ts[..|ts| - 1], ts[|ts| - 1];
      RecentLater(front, now, later, window);
      var kept := Recent(front, now, window);
      assert (kept + [last])[..|kept|] == kept;
    }
  }

  /** The table knows as much as the whole history about any later time. */
  ghost predicate Faithful(window: int, requests: map<string, seq<int>>, log: seq<Entry>, since: int) {
    forall ip, t :: since <= t ==> Recent(Stored(requests, ip), t, window) == Recent(Admitted(log, ip), t, window)
  }

  lemma CleanupFaithful(window: int, requests: map<string, seq<int>>, log: seq<Entry>, now: int)
    requires Faithful(window, requests, log, now)
    ensures Faithful(window, Cleaned(window, requests, now), log, now)
  {
    forall ip, t | now <= t
      ensures Recent(Stored(Cleaned(window, requests, now), ip), t, window) == Recent(Admitted(log, ip), t, window)
    {
      RecentLater(Stored(requests, ip), now, t, window);
    }
  }

  lemma RequestFaithful(limit: int, window: int, requests: map<string, seq<int>>, log: seq<Entry>, ip: string, now: int)
    requires Faithful(window, requests, log, now)
    ensures var (after, ok) := Requested(limit, window, requests, ip, now);
            && ok == (|Recent(Admitted(log, ip), now, window)| < limit)
            && Faithful(window, after, log + [Entry(ip, now, ok)], now)
  {
    var (after, ok) := Requested(limit, window, requests, ip, now);
    assert (log + [Entry(ip, now, ok)])[..|log|] == log;
    forall a, t | now <= t
      ensures Recent(Stored(after, a), t, window) == Recent(Admitted(log + [Entry(ip, now, ok)], a), t, window)
    {
      if a == ip && ok {
        RecentLater(Stored(requests, ip), now, t, window);
        RecentConcat(Recent(Stored(requests, ip), now, window), [now], t, window);
        RecentConcat(Admitted(log, ip), [now], t, window);
      }
    }
  }

  /** With time running forward every decision is the reference's, so cleanups, wherever they
      come, never change one. */
  lemma {:induction false} DecisionsAreReference(limit: int, window: int, events: seq<Event>)
    requires Orderly(events)
    ensures forall i :: 0 <= i < |Requests(events)| ==> Requests(events)[i].Request?
    ensures Run(limit, window, events).1 == Reference(limit, window, Requests(events))
  {
    RequestsAreRequests(events);
    if events != [] {
      var front, last := events[..|events| - 1], events[|events| - 1];
      RequestsAreRequests(front);
      DecisionsAreReference(limit, window, front);
      if last.Request? {
        TableIsFaithful(limit, window, front, last.time);
        var (requests, log) := Run(limit, window, front);
        RequestFaithful(limit, window, requests, log, last.ip, last.time);
        assert Requests(events)[..|Requests(events)| - 1] == Requests(front);
      }
    }
  }

  lemma {:induction false} TableIsFaithful(limit: int, window: int, events: seq<Event>, since: int)
    requires Orderly(events) && forall i :: 0 <= i < |events| ==> events[i].time <= since
    ensures Faithful(window, Run(limit, window, events).0, Run(limit, window, events).1, since)
  {
    if events != [] {
      var front, last := events[..|events| - 1], events[|events| - 1];
      TableIsFaithful(limit, window, front, last.time);
      var (requests, log) := Run(limit, window, front);
      match last
      case Cleanup(now) => CleanupFaithful(window, requests, log, now);
      case Request(ip, now) => RequestFaithful(limit, window, requests, log, ip, now);
    }
  }

  function InInterval(ts: seq<int>, from: int, to: int): nat {
    if ts == [] then 0
    else
      InInterval(ts[..|ts| - 1], from, to) + (if from <= ts[|ts| - 1] < to then 1 else 0)
  }

  lemma {:induction false} IntervalIsRecent(ts: seq<int>, from: int, window: int, now: int)
    requires now < from + window
    ensures InInterval(ts, from, from + window) <= |Recent(ts, now, window)|
  {
    if ts != [] {
      IntervalIsRecent(ts[..|ts| - 1], from, window, now);
    }
  }

  lemma {:induction false} ReferenceBound(limit: int, window: int, requests: seq<Event>, ip: string, from: int)
    requires forall i :: 0 <= i < |requests| ==> requests[i].Request?
    ensures var times := Admitted(Reference(limit, window, requests), ip);
            InInterval(times, from, from + window) <= if limit > 0 then limit else 0
  {
    if requests != [] {
      var front, r := requests[..|requests| - 1], requests[|requests| - 1];
      ReferenceBound(limit, window, front, ip, from);
      var log := Reference(limit, window, front);
      var all := Reference(limit, window, requests);
      assert all[..|all| - 1] == log;
      var e := all[|all| - 1];
      if e.ip == ip && e.ok {
        var ts := Admitted(log, ip);
        assert (ts + [e.time])[..|ts|] == ts;
        if from <= e.time < from + window {
          IntervalIsRecent(ts, from, window, e.time);
        }
      }
    }
  }

  /** In any run, any half-open interval of one window holds at most `limit` admitted requests of an address. */
  lemma WindowBound(limit: int, window: int, events: seq<Event>, ip: string, from: int)
    requires Orderly(events)
    ensures var times := Admitted(Run(limit, window, events).1, ip);
            InInterval(times, from, from + window) <= if limit > 0 then limit else 0
  {
    DecisionsAreReference(limit, window, events);
    ReferenceBound(limit, window, Requests(events), ip, from);
  }

  /** The times an address was let in, as positions in the log. */
  lemma {:induction false} AdmittedPicks(log: seq<Entry>, ip: string) returns (at: seq<nat>)
    ensures |at| == |Admitted(log, ip)| && (forall a, b :: 0 <= a < b < |at| ==> at[a] < at[b])
    ensures forall a :: 0 <= a < |at| ==> at[a] < |log| && log[at[a]].time == Admitted(log, ip)[a]
    ensures forall i :: 0 <= i < |log| ==> (i in at <==> log[i].ip == ip && log[i].ok)
  {
    if log == [] {
      at := [];
    } else {
      at := AdmittedPicks(log[..|log| - 1], ip);
      if log[|log| - 1].ip == ip && log[|log| - 1].ok {
        at := at + [|log| - 1];
      }
    }
  }

  lemma {:induction false} ReferencePrefix(limit: int, window: int, requests: seq<Event>, k: nat)
    requires (forall i :: 0 <= i < |requests| ==> requests[i].Request?) && k < |requests|
    ensures var log := Reference(limit, window, requests);
            && |log| == |requests| && log[k].ip == requests[k].ip && log[k].time == requests[k].time
            && (log[k].ok <==> |Recent(Admitted(log[..k], log[k].ip), log[k].time, window)| < limit)
  {
    var front := requests[..|requests| - 1];
    var log, earlier := Reference(limit, window, requests), Reference(limit, window, front);
    if k < |front| {
      ReferencePrefix(limit, window, front, k);
      assert log[..k] == earlier[..k];
    } else {
      if front != [] {
        ReferencePrefix(limit, window, front, 0);
      }
      assert log[..k] == earlier;
    }
  }

  /** Every request gets one decision, and is let in exactly if fewer than `limit` requests of its address
      were let in less than one window ago. */
  lemma AdmittedIff(limit: int, window: int, events: seq<Event>, k: nat)
    requires Orderly(events) && k < |Requests(events)|
    ensures var log, r := Run(limit, window, events).1, Requests(events)[k];
            && r.Request? && |log| == |Requests(events)| && log[k].ip == r.ip && log[k].time == r.time
            && (log[k].ok <==> |Recent(Admitted(log[..k], r.ip), r.time, window)| < limit)
  {
    DecisionsAreReference(limit, window, events);
    ReferencePrefix(limit, window, Requests(events), k);
  }
}
