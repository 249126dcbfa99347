/** Suppression of repeated error notifications, middlewares/dedup.go. A key
    stands for job name, command and error message. */
module NotificationDedup {
  function Decided(cooldown: int, entries: map<string, int>, key: string, failed: bool, now: int):
    (map<string, int>, bool)
  {
    if cooldown == 0 || !failed then (entries, true)
    else if key !in entries || now - entries[key] >= cooldown then (entries[key := now], true)
    else (entries, false)
  }

  function Cleaned(cooldown: int, entries: map<string, int>, now: int): map<string, int> {
    map key | key in entries && now - entries[key] < cooldown :: entries[key]
  }

  class Dedup {
    const cooldown: int
    var entries: map<string, int>

    constructor (cooldown: int)
      ensures this.cooldown == cooldown && entries == map[]
    {
      this.cooldown, entries := cooldown, map[];
    }

    method ShouldNotify(key: string, failed: bool, now: int) returns (ok: bool)
      modifies this
      ensures (entries, ok) == Decided(cooldown, old(entries), key, failed, now)
    {
      if cooldown == 0 {
        return true;
      }
      if !failed {
        return true;
      }
      if key !in entries || now - entries[key] >= cooldown {
        entries := entries[key := now];
        return true;
      }
      ok := false;
    }

    method Cleanup(now: int)
      modifies this
      ensures entries == Cleaned(cooldown, old(entries), now)
      ensures forall key :: key in entries <==> key in old(entries) && now - old(entries)[key] < cooldown
      ensures forall key :: key in entries ==> entries[key] == old(entries)[key]
    {
      var was := entries;
      var todo := entries.Keys;
      while todo != {}
        invariant todo <= was.Keys && entries.Keys <= was.Keys
        invariant forall key :: key in entries ==> entries[key] == was[key]
        invariant forall key :: key in was ==> (key in entries <==> key in todo || now - was[key] < cooldown)
      {
        var key :| key in todo;
        if now - entries[key] >= cooldown {
          entries := entries - {key};
        }
        todo := todo - {key};
      }
    }
  }

  // ---- Runs ----

  datatype Event = Notify(key: string, failed: bool, time: int) | Cleanup(time: int)
  datatype Entry = Entry(key: string, failed: bool, time: int, ok: bool)

  predicate Orderly(events: seq<Event>) {
    forall i, j :: 0 <= i < j < |events| ==> events[i].time <= events[j].time
  }

  function Run(cooldown: int, events: seq<Event>): (map<string, int>, seq<Entry>) {
    if events == [] then (map[], [])
    else
      var (entries, log) := Run(cooldown, events[..|events| - 1]);
      match events[|events| - 1]
      case Notify(key, failed, now) =>
        var (after, ok) := Decided(cooldown, entries, key, failed, now);
        (after, log + [Entry(key, failed, now, ok)])
      case Cleanup(now) => (Cleaned(cooldown, entries, now), log)
  }

  // ---- What it is for, without a table ----

  function Notifications(events: seq<Event>): seq<Event> {
    if events == [] then []
    else
      var earlier := Notifications(events[..|events| - 1]);
      if events[|events| - 1].Notify? then earlier + [events[|events| - 1]] else earlier
  }

  /** No error notification of this key went out less than one cooldown ago. */
  predicate Quiet(cooldown: int, log: seq<Entry>, key: string, now: int) {
    forall i :: 0 <= i < |log| && log[i].key == key && log[i].failed && log[i].ok ==> now - log[i].time >= cooldown
  }

  function Reference(cooldown: int, events: seq<Event>): seq<Entry>
    requires forall i :: 0 <= i < |events| ==> events[i].Notify?
  {
    if events == [] then []
    else
      var log := Reference(cooldown, events[..|events| - 1]);
      var e := events[|events| - 1];
      log + [Entry(e.key, e.failed, e.time, cooldown == 0 || !e.failed || Quiet(cooldown, log, e.key, e.time))]
  }

  /** The table answers for the history at any later time. */
  ghost predicate Faithful(cooldown: int, entries: map<string, int>, log: seq<Entry>, since: int) {
    forall key, t :: since <= t ==>
      ((key !in entries || t - entries[key] >= cooldown) <==> Quiet(cooldown, log, key, t))
  }

  lemma NotifyFaithful(cooldown: int, entries: map<string, int>, log: seq<Entry>, key: string, failed: bool, now: int)
    requires cooldown != 0 && Faithful(cooldown, entries, log, now)
    ensures var (after, ok) := Decided(cooldown, entries, key, failed, now);
            && ok == (!failed || Quiet(cooldown, log, key, now))
            && Faithful(cooldown, after, log + [Entry(key, failed, now, ok)], now)
  {
    var (after, ok) := Decided(cooldown, entries, key, failed, now);
    var log' := log + [Entry(key, failed, now, ok)];
    forall k, t | now <= t ensures (k !in after || t - after[k] >= cooldown) <==> Quiet(cooldown, log', k, t) {
      assert log'[|log|] == Entry(key, failed, now, ok);
      assert forall i :: 0 <= i < |log| ==> log'[i] == log[i];
      var spaced := k == key && failed && ok ==> t - now >= cooldown;
      assert Quiet(cooldown, log', k, t) <==> Quiet(cooldown, log, k, t) && spaced;
      if k == key && failed && ok && t - now >= cooldown {
        assert Quiet(cooldown, log, k, now);
        assert Quiet(cooldown, log, k, t);
      }
    }
  }

  lemma CleanupFaithful(cooldown: int, entries: map<string, int>, log: seq<Entry>, now: int)
    requires Faithful(cooldown, entries, log, now)
    ensures Faithful(cooldown, Cleaned(cooldown, entries, now), log, now)
  {
  }

  lemma {:induction false} NotificationsNotify(events: seq<Event>)
    ensures forall i :: 0 <= i < |Notifications(events)| ==> Notifications(events)[i].Notify?
  {
    if events != [] {
      NotificationsNotify(events[..|events| - 1]);
    }
  }

  /** With time running forward every decision is the reference's, so cleanups never change one. */
  lemma {:induction false} DecisionsAreReference(cooldown: int, events: seq<Event>)
    requires Orderly(events)
    ensures forall i :: 0 <= i < |Notifications(events)| ==> Notifications(events)[i].Notify?
    ensures Run(cooldown, events).1 == Reference(cooldown, Notifications(events))
    ensures cooldown != 0 && events != [] ==>
              Faithful(cooldown, Run(cooldown, events).0, Run(cooldown, events).1, events[|events| - 1].time)
  {
    NotificationsNotify(events);
    if events != [] {
      var front, last := events[..|events| - 1], events[|events| - 1];
      NotificationsNotify(front);
      DecisionsAreReference(cooldown, front);
      var (entries, log) := Run(cooldown, front);
      assert cooldown != 0 ==> Faithful(cooldown, entries, log, last.time);
      match last
      case Cleanup(now) =>
        if cooldown != 0 {
          CleanupFaithful(cooldown, entries, log, now);
        }
      case Notify(key, failed, now) =>
        if cooldown != 0 {
          NotifyFaithful(cooldown, entries, log, key, failed, now);
        }
        assert Notifications(events)[..|Notifications(events)| - 1] == Notifications(front);
    }
  }

  /** Two error notifications of one key that both went out. */
  predicate BothSent(d: Entry, e: Entry) { d.key == e.key && d.failed && e.failed && d.ok && e.ok }

  lemma {:induction false} ReferenceSpaced(cooldown: int, events: seq<Event>, i: nat, j: nat)
    requires forall i :: 0 <= i < |events| ==> events[i].Notify?
    requires forall i, j :: 0 <= i < j < |events| ==> events[i].time <= events[j].time
    ensures var log := Reference(cooldown, events);
            && |log| == |events| && (forall k :: 0 <= k < |log| ==> log[k].time == events[k].time)
            && (i < j < |log| && BothSent(log[i], log[j]) ==> log[j].time - log[i].time >= cooldown)
  {
    if events != [] {
      ReferenceSpaced(cooldown, events[..|events| - 1], i, j);
    }
  }

  /** Two error notifications of one key that both go out are at least one cooldown apart. */
  lemma NotificationsAreSpaced(cooldown: int, events: seq<Event>, i: nat, j: nat)
    requires Orderly(events)
    ensures var log := Run(cooldown, events).1;
            i < j < |log| && BothSent(log[i], log[j]) ==> log[j].time - log[i].time >= cooldown
  {
    DecisionsAreReference(cooldown, events);
    NotificationsOrderly(events);
    ReferenceSpaced(cooldown, Notifications(events), i, j);
  }

  lemma {:induction false} NotificationsOrderly(events: seq<Event>)
    requires Orderly(events)
    ensures Orderly(Notifications(events))
    ensures forall k :: 0 <= k < |Notifications(events)| ==>
              events != [] && Notifications(events)[k].time <= events[|events| - 1].time
  {
    if events != [] {
      NotificationsOrderly(events[..|events| - 1]);
    }
  }

  lemma {:induction false} ReferencePrefix(cooldown: int, events: seq<Event>, k: nat)
    requires (forall i :: 0 <= i < |events| ==> events[i].Notify?) && k < |events|
    ensures var log, e := Reference(cooldown, events), events[k];
            && |log| == |events| && log[k] == Entry(e.key, e.failed, e.time, log[k].ok)
            && (log[k].ok <==> cooldown == 0 || !e.failed || Quiet(cooldown, log[..k], e.key, e.time))
  {
    var front := events[..|events| - 1];
    var log, earlier := Reference(cooldown, events), Reference(cooldown, front);
    if k < |front| {
      ReferencePrefix(cooldown, front, k);
      assert log[..k] == earlier[..k];
    } else {
      if front != [] {
        ReferencePrefix(cooldown, front, 0);
      }
      assert log[..k] == earlier;
    }
  }

  /** Every execution gets one decision: it is notified exactly if suppression is off, it did not fail, or no
      notified failure of its key is less than one cooldown old. */
  lemma NotifiedIff(cooldown: int, events: seq<Event>, k: nat)
    requires Orderly(events) && k < |Notifications(events)|
    ensures var log, e := Run(cooldown, events).1, Notifications(events)[k];
            && |log| == |Notifications(events)| && e.Notify? && log[k] == Entry(e.key, e.failed, e.time, log[k].ok)
            && (log[k].ok <==>
                  || cooldown == 0 || !e.failed
                  || forall i :: 0 <= i < k && log[i].key == e.key && log[i].failed && log[i].ok ==>
                       e.time - log[i].time >= cooldown)
  {
    DecisionsAreReference(cooldown, events);
    ReferencePrefix(cooldown, Notifications(events), k);
    var log := Run(cooldown, events).1;
    assert forall i :: 0 <= i < k ==> log[..k][i] == log[i];
  }
}
