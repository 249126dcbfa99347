/** The simulated clock of core/clock.go: a discrete-event simulator over
    tickers, one-shot timers and waiters. A ticker or timer handle is its index
    in the clock's list; a waiter is identified by the order of its creation.
    Advancing also returns, for the specification, the firings in order and the
    values the clock showed on the way. */
module FakeClock {
  import opened Prelude

  datatype Ticker = Ticker(duration: int, nextTick: int, stopped: bool, ch: Option<int>)
  datatype Timer = Timer(deadline: int, stopped: bool, fired: bool, ch: Option<int>) {
    predicate Active() { !stopped && !fired }
  }
  datatype Waiter = Waiter(id: nat, deadline: int)

  datatype Source = OfTicker(index: nat) | OfTimer(index: nat) | OfWaiter(index: nat) {
    /** Within one instant the clock fires tickers, then timers, then waiters. */
    function Rank(): nat {
      match this case OfTicker(_) => 0 case OfTimer(_) => 1 case OfWaiter(_) => 2
    }
  }
  datatype Event = Event(source: Source, time: int)

  /** A send on a channel of capacity one that drops the value when full. */
  function Offer(ch: Option<int>, v: int): Option<int> {
    if ch.None? then Some(v) else ch
  }

  // ---- What fires when, stated without the event loop ----

  /** The points n, n + d, n + 2d, ... that do not exceed the target. */
  function Ticks(n: int, d: int, target: int): seq<int>
    requires d > 0
    decreases target - n
  {
    if n > target then [] else [n] + Ticks(n + d, d, target)
  }

  /** The first of those points after the target. */
  function NextPoint(n: int, d: int, target: int): int
    requires d > 0
    decreases target - n
  {
    if n > target then n else NextPoint(n + d, d, target)
  }

  lemma {:induction false} TicksClosedForm(n: int, d: int, target: int)
    requires d > 0
    ensures var k := |Ticks(n, d, target)|;
            && NextPoint(n, d, target) == n + k * d
            && (forall i :: 0 <= i < k ==> Ticks(n, d, target)[i] == n + i * d)
            && n + k * d > target
            && (k > 0 ==> n + (k - 1) * d <= target)
    decreases target - n
  {
    if n <= target {
      TicksClosedForm(n + d, d, target);
      var rest := Ticks(n + d, d, target);
      forall i | 0 <= i < |rest| + 1 ensures Ticks(n, d, target)[i] == n + i * d {
        if i > 0 {
          assert n + d + (i - 1) * d == n + i * d;
        }
      }
      assert n + d + |rest| * d == n + (|rest| + 1) * d;
    }
  }

  function WaiterDeadline(ws: seq<Waiter>, id: nat): Option<int> {
    if ws == [] then None
    else if ws[0].id == id then Some(ws[0].deadline)
    else WaiterDeadline(ws[1..], id)
  }

  /** The firing times of one source up to the target. */
  ghost function Schedule(tickers: seq<Ticker>, timers: seq<Timer>, waiters: seq<Waiter>, s: Source,
                          target: int): seq<int>
    requires Advancing(tickers, target)
  {
    match s
    case OfTicker(i) => if i < |tickers| then TickerSchedule(tickers[i], target) else []
    case OfTimer(i) => if i < |timers| then TimerSchedule(timers[i], target) else []
    case OfWaiter(id) => Once(WaiterDeadline(waiters, id), target)
  }

  function Once(d: Option<int>, target: int): seq<int> {
    if d.Some? && d.value <= target then [d.value] else []
  }
  ghost function TickerSchedule(t: Ticker, target: int): seq<int>
    requires MovesOn(t, target)
  {
    if t.stopped || t.nextTick > target then [] else Ticks(t.nextTick, t.duration, target)
  }
  function TimerSchedule(t: Timer, target: int): seq<int> {
    Once(if t.Active() then Some(t.deadline) else None, target)
  }

  function Prepend(due: bool, now: int, rest: seq<int>): seq<int> {
    if due then [now] + rest else rest
  }

  /** A ticker that is due by the target has somewhere to go. */
  predicate MovesOn(t: Ticker, target: int) { !t.stopped && t.nextTick <= target ==> t.duration > 0 }

  predicate Advancing(tickers: seq<Ticker>, target: int) {
    forall i :: 0 <= i < |tickers| ==> MovesOn(tickers[i], target)
  }

  predicate OrderedWaiters(ws: seq<Waiter>) {
    forall i, j :: 0 <= i < j < |ws| ==> ws[i].id < ws[j].id
  }

  /** The firing times of one source in a log. */
  function Times(log: seq<Event>, s: Source): seq<int> {
    if log == [] then []
    else if log[0].source == s then [log[0].time] + Times(log[1..], s)
    else Times(log[1..], s)
  }

  lemma {:induction false} TimesConcat(a: seq<Event>, b: seq<Event>, s: Source)
    ensures Times(a + b, s) == Times(a, s) + Times(b, s)
  {
    if a == [] {
      assert a + b == b;
    } else {
      TimesConcat(a[1..], b, s);
      assert (a + b)[0] == a[0] && (a + b)[1..] == a[1..] + b;
      Associative([a[0].time], Times(a[1..], s), Times(b, s));
    }
  }

  lemma Associative(x: seq<int>, y: seq<int>, z: seq<int>)
    ensures x + (y + z) == (x + y) + z
  {
  }

  /** The order of firings: by time, then kind, then creation. */
  predicate Before(a: Event, b: Event) {
    || a.time < b.time
    || (a.time == b.time && a.source.Rank() < b.source.Rank())
    || (a.time == b.time && a.source.Rank() == b.source.Rank() && a.source.index < b.source.index)
  }

  predicate Chronological(log: seq<Event>) {
    forall i, j :: 0 <= i < j < |log| ==> Before(log[i], log[j])
  }

  // ---- The lists the three firing loops produce ----

  predicate TickerDue(t: Ticker, now: int) { !t.stopped && t.nextTick <= now }
  predicate TimerDue(t: Timer, now: int) { t.Active() && t.deadline <= now }

  function TickOnce(t: Ticker, now: int): Ticker {
    if TickerDue(t, now) then t.(ch := Offer(t.ch, now), nextTick := now + t.duration) else t
  }
  function FireOnce(t: Timer, now: int): Timer {
    if TimerDue(t, now) then t.(ch := Offer(t.ch, now), fired := true) else t
  }

  function TickOf(i: nat, t: Ticker, now: int): seq<Event> {
    if TickerDue(t, now) then [Event(OfTicker(i), now)] else []
  }
  function FiringOf(i: nat, t: Timer, now: int): seq<Event> {
    if TimerDue(t, now) then [Event(OfTimer(i), now)] else []
  }
  function WakeOf(w: Waiter, now: int): seq<Event> {
    if w.deadline <= now then [Event(OfWaiter(w.id), now)] else []
  }

  function TickerEvents(ts: seq<Ticker>, now: int): seq<Event> {
    if ts == [] then []
    else
      TickerEvents(ts[..|ts| - 1], now) + TickOf(|ts| - 1, ts[|ts| - 1], now)
  }
  function TimerEvents(ts: seq<Timer>, now: int): seq<Event> {
    if ts == [] then []
    else
      TimerEvents(ts[..|ts| - 1], now) + FiringOf(|ts| - 1, ts[|ts| - 1], now)
  }
  function WaiterEvents(ws: seq<Waiter>, now: int): seq<Event> {
    if ws == [] then []
    else
      WaiterEvents(ws[..|ws| - 1], now) + WakeOf(ws[|ws| - 1], now)
  }
  function Unexpired(ws: seq<Waiter>, now: int): seq<Waiter> {
    if ws == [] then []
    else
      Unexpired(ws[..|ws| - 1], now) + (if ws[|ws| - 1].deadline <= now then [] else [ws[|ws| - 1]])
  }

  function Lookup(m: map<nat, int>, id: nat): Option<int> {
    if id in m then Some(m[id]) else None
  }

  function Deliver(delivered: map<nat, int>, ws: seq<Waiter>, now: int): map<nat, int> {
    if ws == [] then delivered
    else
      var rest := Deliver(delivered, ws[..|ws| - 1], now);
      if ws[|ws| - 1].deadline <= now then rest[ws[|ws| - 1].id := now] else rest
  }

  function Round(tickers: seq<Ticker>, timers: seq<Timer>, waiters: seq<Waiter>, now: int): seq<Event> {
    TickerEvents(tickers, now) + TimerEvents(timers, now) + WaiterEvents(waiters, now)
  }

  lemma {:induction false} TickerEventsTimes(ts: seq<Ticker>, now: int, s: Source)
    ensures Times(TickerEvents(ts, now), s)
         == if s.OfTicker? && s.index < |ts| && TickerDue(ts[s.index], now) then [now] else []
  {
    if ts != [] {
      TickerEventsTimes(ts[..|ts| - 1], now, s);
      TimesConcat(TickerEvents(ts[..|ts| - 1], now), TickOf(|ts| - 1, ts[|ts| - 1], now), s);
    }
  }

  lemma {:induction false} TimerEventsTimes(ts: seq<Timer>, now: int, s: Source)
    ensures Times(TimerEvents(ts, now), s)
         == if s.OfTimer? && s.index < |ts| && TimerDue(ts[s.index], now) then [now] else []
  {
    if ts != [] {
      TimerEventsTimes(ts[..|ts| - 1], now, s);
      TimesConcat(TimerEvents(ts[..|ts| - 1], now), FiringOf(|ts| - 1, ts[|ts| - 1], now), s);
    }
  }

  lemma {:induction false} WaiterDeadlineAppend(ws: seq<Waiter>, w: Waiter, id: nat)
    ensures WaiterDeadline(ws + [w], id)
         == if WaiterDeadline(ws, id).Some? then WaiterDeadline(ws, id)
            else if w.id == id then Some(w.deadline) else None
  {
    if ws == [] {
      assert ws + [w] == [w];
    } else {
      WaiterDeadlineAppend(ws[1..], w, id);
      assert (ws + [w])[1..] == ws[1..] + [w];
    }
  }

  lemma {:induction false} WaiterDeadlineMember(ws: seq<Waiter>, id: nat)
    ensures var d := WaiterDeadline(ws, id);
            if d.Some? then Waiter(id, d.value) in ws else forall w :: w in ws ==> w.id != id
  {
    if ws != [] && ws[0].id != id {
      WaiterDeadlineMember(ws[1..], id);
    }
  }

  lemma {:induction false} UnexpiredMembers(ws: seq<Waiter>, now: int)
    requires OrderedWaiters(ws)
    ensures OrderedWaiters(Unexpired(ws, now))
    ensures forall w :: w in Unexpired(ws, now) <==> w in ws && w.deadline > now
  {
    if ws != [] {
      var front, last := ws[..|ws| - 1], ws[|ws| - 1];
      assert ws == front + [last];
      UnexpiredMembers(front, now);
    }
  }

  lemma {:induction false} WaiterEventsTimes(ws: seq<Waiter>, now: int, id: nat)
    requires OrderedWaiters(ws)
    ensures var d := WaiterDeadline(ws, id);
            Times(WaiterEvents(ws, now), OfWaiter(id)) == if d.Some? && d.value <= now then [now] else []
  {
    if ws != [] {
      var front, last := ws[..|ws| - 1], ws[|ws| - 1];
      assert ws == front + [last];
      WaiterEventsTimes(front, now, id);
      TimesConcat(WaiterEvents(front, now), WakeOf(last, now), OfWaiter(id));
      WaiterDeadlineAppend(front, last, id);
      WaiterDeadlineMember(front, id);
    }
  }

  lemma {:induction false} WaiterEventsNotOthers(ws: seq<Waiter>, now: int, s: Source)
    requires !s.OfWaiter?
    ensures Times(WaiterEvents(ws, now), s) == []
  {
    if ws != [] {
      WaiterEventsNotOthers(ws[..|ws| - 1], now, s);
      TimesConcat(WaiterEvents(ws[..|ws| - 1], now), WakeOf(ws[|ws| - 1], now), s);
    }
  }

  lemma {:induction false} UnexpiredDeadline(ws: seq<Waiter>, now: int, id: nat)
    requires OrderedWaiters(ws)
    ensures var d := WaiterDeadline(ws, id);
            WaiterDeadline(Unexpired(ws, now), id) == if d.Some? && d.value <= now then None else d
  {
    if ws != [] {
      var front, last := ws[..|ws| - 1], ws[|ws| - 1];
      assert ws == front + [last];
      UnexpiredDeadline(front, now, id);
      assert Unexpired(front, now) + [] == Unexpired(front, now);
      WaiterDeadlineAppend(front, last, id);
      WaiterDeadlineAppend(Unexpired(front, now), last, id);
      WaiterDeadlineMember(front, id);
    }
  }

  lemma {:induction false} TickerEventsOrdered(ts: seq<Ticker>, now: int)
    ensures Chronological(TickerEvents(ts, now))
    ensures forall e :: e in TickerEvents(ts, now) ==> e.time == now && e.source.OfTicker? && e.source.index < |ts|
  {
    if ts != [] {
      TickerEventsOrdered(ts[..|ts| - 1], now);
    }
  }

  lemma {:induction false} TimerEventsOrdered(ts: seq<Timer>, now: int)
    ensures Chronological(TimerEvents(ts, now))
    ensures forall e :: e in TimerEvents(ts, now) ==> e.time == now && e.source.OfTimer? && e.source.index < |ts|
  {
    if ts != [] {
      TimerEventsOrdered(ts[..|ts| - 1], now);
    }
  }

  lemma {:induction false} WaiterEventsOrdered(ws: seq<Waiter>, now: int)
    requires OrderedWaiters(ws)
    ensures Chronological(WaiterEvents(ws, now))
    ensures forall e :: e in WaiterEvents(ws, now) ==>
              e.time == now && e.source.OfWaiter? && ws != [] && e.source.index <= ws[|ws| - 1].id
  {
    if ws != [] {
      var front := ws[..|ws| - 1];
      WaiterEventsOrdered(front, now);
    }
  }

  lemma RoundOrdered(tickers: seq<Ticker>, timers: seq<Timer>, ws: seq<Waiter>, now: int)
    requires OrderedWaiters(ws)
    ensures Chronological(Round(tickers, timers, ws, now))
    ensures forall e :: e in Round(tickers, timers, ws, now) ==> e.time == now
  {
    TickerEventsOrdered(tickers, now);
    TimerEventsOrdered(timers, now);
    WaiterEventsOrdered(ws, now);
    var a, b, c := TickerEvents(tickers, now), TimerEvents(timers, now), WaiterEvents(ws, now);
    forall i, j | 0 <= i < j < |a + b + c| ensures Before((a + b + c)[i], (a + b + c)[j]) {
      var x, y := (a + b + c)[i], (a + b + c)[j];
      assert x == (if i < |a| then a[i] else if i < |a| + |b| then b[i - |a|] else c[i - |a| - |b|]);
      assert y == (if j < |a| then a[j] else if j < |a| + |b| then b[j - |a|] else c[j - |a| - |b|]);
      assert x in a || x in b || x in c;
      assert y in a || y in b || y in c;
    }
  }

  // ---- Where a ticker, a timer and a waiter end up ----

  ghost function SettledTicker(t: Ticker, target: int): Ticker
    requires MovesOn(t, target)
  {
    if t.stopped || t.nextTick > target then t
    else t.(ch := Offer(t.ch, t.nextTick), nextTick := NextPoint(t.nextTick, t.duration, target))
  }
  ghost function SettledTimer(t: Timer, target: int): Timer {
    if TimerDue(t, target) then t.(ch := Offer(t.ch, t.deadline), fired := true) else t
  }
  ghost function SettledDelivery(delivered: map<nat, int>, ws: seq<Waiter>, id: nat, target: int): Option<int> {
    var d := WaiterDeadline(ws, id);
    if d.Some? && d.value <= target then d else Lookup(delivered, id)
  }

  ghost function SettledWaiter(ws: seq<Waiter>, id: nat, target: int): Option<int> {
    var d := WaiterDeadline(ws, id);
    if d.Some? && d.value <= target then None else d
  }

  // ---- One round of the event loop ----

  ghost predicate NothingBefore(tickers: seq<Ticker>, timers: seq<Timer>, waiters: seq<Waiter>, t: int) {
    && (forall i :: 0 <= i < |tickers| && !tickers[i].stopped ==> t <= tickers[i].nextTick)
    && (forall i :: 0 <= i < |timers| && timers[i].Active() ==> t <= timers[i].deadline)
    && (forall w :: w in waiters ==> t <= w.deadline)
  }

  ghost predicate SomethingAt(tickers: seq<Ticker>, timers: seq<Timer>, waiters: seq<Waiter>, t: int) {
    || (exists i :: 0 <= i < |tickers| && !tickers[i].stopped && tickers[i].nextTick == t)
    || (exists i :: 0 <= i < |timers| && timers[i].Active() && timers[i].deadline == t)
    || (exists w :: w in waiters && w.deadline == t)
  }

  ghost predicate DueAt(tickers: seq<Ticker>, timers: seq<Timer>, waiters: seq<Waiter>, s: Source, now: int) {
    match s
    case OfTicker(i) => i < |tickers| && TickerDue(tickers[i], now)
    case OfTimer(i) => i < |timers| && TimerDue(timers[i], now)
    case OfWaiter(id) => var d := WaiterDeadline(waiters, id); d.Some? && d.value <= now
  }

  lemma RoundParts(tickers: seq<Ticker>, timers: seq<Timer>, waiters: seq<Waiter>, now: int, s: Source)
    ensures Times(Round(tickers, timers, waiters, now), s)
         == Times(TickerEvents(tickers, now), s) + Times(TimerEvents(timers, now), s)
            + Times(WaiterEvents(waiters, now), s)
  {
    var a, b, c := TickerEvents(tickers, now), TimerEvents(timers, now), WaiterEvents(waiters, now);
    TimesConcat(a, b, s);
    TimesConcat(a + b, c, s);
  }

  lemma RoundTimes(tickers: seq<Ticker>, timers: seq<Timer>, waiters: seq<Waiter>, now: int, s: Source)
    requires OrderedWaiters(waiters)
    ensures Times(Round(tickers, timers, waiters, now), s) == Prepend(DueAt(tickers, timers, waiters, s, now), now, [])
  {
    RoundParts(tickers, timers, waiters, now, s);
    TickerEventsTimes(tickers, now, s);
    TimerEventsTimes(timers, now, s);
    if s.OfWaiter? {
      WaiterEventsTimes(waiters, now, s.index);
    } else {
      WaiterEventsNotOthers(waiters, now, s);
    }
  }

  lemma TickerAfterRound(t: Ticker, now: int, target: int)
    requires MovesOn(t, target) && (!t.stopped ==> now <= t.nextTick) && now <= target
    ensures Prepend(TickerDue(t, now), now, TickerSchedule(TickOnce(t, now), target)) == TickerSchedule(t, target)
  {
    if TickerDue(t, now) {
      assert Ticks(now, t.duration, target) == [now] + Ticks(now + t.duration, t.duration, target);
    }
  }

  lemma TimerAfterRound(t: Timer, now: int, target: int)
    requires (t.Active() ==> now <= t.deadline) && now <= target
    ensures Prepend(TimerDue(t, now), now, TimerSchedule(FireOnce(t, now), target)) == TimerSchedule(t, target)
  {
  }

  lemma WaiterAfterRound(waiters: seq<Waiter>, now: int, target: int, id: nat)
    requires OrderedWaiters(waiters) && now <= target && forall w :: w in waiters ==> now <= w.deadline
    ensures var d := WaiterDeadline(waiters, id);
            var d' := WaiterDeadline(Unexpired(waiters, now), id);
            Prepend(d.Some? && d.value <= now, now, Once(d', target)) == Once(d, target)
  {
    UnexpiredDeadline(waiters, now, id);
    WaiterDeadlineMember(waiters, id);
  }

  /** Firing everything due at the earliest instant consumes exactly the heads of the schedules. */
  lemma ScheduleAfterRound(tickers: seq<Ticker>, timers: seq<Timer>, waiters: seq<Waiter>,
                           tickers': seq<Ticker>, timers': seq<Timer>, now: int, target: int, s: Source)
    requires Advancing(tickers, target) && Advancing(tickers', target) && OrderedWaiters(waiters) && now <= target
    requires NothingBefore(tickers, timers, waiters, now)
    requires |tickers'| == |tickers| && forall i :: 0 <= i < |tickers| ==> tickers'[i] == TickOnce(tickers[i], now)
    requires |timers'| == |timers| && forall i :: 0 <= i < |timers| ==> timers'[i] == FireOnce(timers[i], now)
    ensures var after := Schedule(tickers', timers', Unexpired(waiters, now), s, target);
            var due := DueAt(tickers, timers, waiters, s, now);
            Prepend(due, now, after) == Schedule(tickers, timers, waiters, s, target)
  {
    match s
    case OfTicker(i) =>
      if i < |tickers| {
        TickerAfterRound(tickers[i], now, target);
      }
    case OfTimer(i) =>
      if i < |timers| {
        TimerAfterRound(timers[i], now, target);
      }
    case OfWaiter(id) =>
      WaiterAfterRound(waiters, now, target, id);
  }

  lemma NothingLeft(tickers: seq<Ticker>, timers: seq<Timer>, waiters: seq<Waiter>, target: int, s: Source)
    requires Advancing(tickers, target) && NothingBefore(tickers, timers, waiters, target + 1)
    ensures Schedule(tickers, timers, waiters, s, target) == []
  {
    if s.OfWaiter? {
      WaiterDeadlineMember(waiters, s.index);
    }
  }

  // ---- Advancing in pieces ----

  lemma {:induction false} TicksInPieces(n: int, d: int, middle: int, target: int)
    requires d > 0 && middle <= target
    ensures Ticks(n, d, target) == Ticks(n, d, middle) + Ticks(NextPoint(n, d, middle), d, target)
    ensures NextPoint(n, d, target) == NextPoint(NextPoint(n, d, middle), d, target)
    decreases middle - n
  {
    if n <= middle {
      TicksInPieces(n + d, d, middle, target);
      Associative([n], Ticks(n + d, d, middle), Ticks(NextPoint(n, d, middle), d, target));
    }
  }

  // ---- Why the loop ends ----

  function TickerWork(ts: seq<Ticker>, target: int): nat {
    if ts == [] then 0
    else
      var t := ts[|ts| - 1];
      TickerWork(ts[..|ts| - 1], target) + (if t.stopped || t.nextTick > target then 0 else target - t.nextTick + 1)
  }
  function TimerWork(ts: seq<Timer>): nat {
    if ts == [] then 0 else TimerWork(ts[..|ts| - 1]) + (if ts[|ts| - 1].Active() then 1 else 0)
  }

  lemma {:induction false} TickerWorkShrinks(ts: seq<Ticker>, ts': seq<Ticker>, now: int, target: int)
    requires Advancing(ts, target) && now <= target
    requires |ts'| == |ts| && forall i :: 0 <= i < |ts| ==> ts'[i] == TickOnce(ts[i], now)
    ensures TickerWork(ts', target) <= TickerWork(ts, target)
    ensures (exists i :: 0 <= i < |ts| && TickerDue(ts[i], now)) ==> TickerWork(ts', target) < TickerWork(ts, target)
  {
    if ts != [] {
      TickerWorkShrinks(ts[..|ts| - 1], ts'[..|ts| - 1], now, target);
      if exists i :: 0 <= i < |ts| && TickerDue(ts[i], now) {
        var i :| 0 <= i < |ts| && TickerDue(ts[i], now);
        if i < |ts| - 1 {
          assert TickerDue(ts[..|ts| - 1][i], now);
        }
      }
    }
  }

  lemma {:induction false} TimerWorkShrinks(ts: seq<Timer>, ts': seq<Timer>, now: int)
    requires |ts'| == |ts| && forall i :: 0 <= i < |ts| ==> ts'[i] == FireOnce(ts[i], now)
    ensures TimerWork(ts') <= TimerWork(ts)
    ensures (exists i :: 0 <= i < |ts| && TimerDue(ts[i], now)) ==> TimerWork(ts') < TimerWork(ts)
  {
    if ts != [] {
      TimerWorkShrinks(ts[..|ts| - 1], ts'[..|ts| - 1], now);
      if exists i :: 0 <= i < |ts| && TimerDue(ts[i], now) {
        var i :| 0 <= i < |ts| && TimerDue(ts[i], now);
        if i < |ts| - 1 {
          assert TimerDue(ts[..|ts| - 1][i], now);
        }
      }
    }
  }

  lemma {:induction false} WaitersShrink(ws: seq<Waiter>, now: int)
    ensures |Unexpired(ws, now)| <= |ws|
    ensures (exists w :: w in ws && w.deadline <= now) ==> |Unexpired(ws, now)| < |ws|
  {
    if ws != [] {
      var front, last := ws[..|ws| - 1], ws[|ws| - 1];
      assert ws == front + [last];
      WaitersShrink(front, now);
    }
  }

  // ---- A log meeting the specification is unique ----

  lemma {:induction false} TimesMember(log: seq<Event>, e: Event)
    ensures e in log <==> e.time in Times(log, e.source)
  {
    if log != [] {
      TimesMember(log[1..], e);
      assert log == [log[0]] + log[1..];
    }
  }

  lemma {:induction false} SameMembersSameLog(a: seq<Event>, b: seq<Event>)
    requires Chronological(a) && Chronological(b)
    requires forall e :: e in a <==> e in b
    ensures a == b
  {
    SameMembersNonEmpty(a, b);
    if a != [] {
      assert a[0] in b && b[0] in a;
      assert a[0] == b[0];
      var a', b' := a[1..], b[1..];
      forall e ensures e in a' <==> e in b' {
        if e in a' { assert e in b && Before(a[0], e); }
        if e in b' { assert e in a && Before(b[0], e); }
      }
      SameMembersSameLog(a', b');
      assert a == [a[0]] + a' && b == [b[0]] + b';
    }
  }

  lemma SameMembersNonEmpty(a: seq<Event>, b: seq<Event>)
    requires forall e :: e in a <==> e in b
    ensures a == [] <==> b == []
  {
    if a != [] {
      assert a[0] in a;
    }
    if b != [] {
      assert b[0] in b;
    }
  }

  /** Chronological order and the per-source schedules pin down the whole run. */
  lemma LogIsDetermined(a: seq<Event>, b: seq<Event>)
    requires Chronological(a) && Chronological(b)
    requires forall s :: Times(a, s) == Times(b, s)
    ensures a == b
  {
    forall e ensures e in a <==> e in b {
      TimesMember(a, e);
      TimesMember(b, e);
    }
    SameMembersSameLog(a, b);
  }

  // ---- The loop, turn by turn ----

  datatype Agenda = Agenda(tickers: seq<Ticker>, timers: seq<Timer>, waiters: seq<Waiter>, delivered: map<nat, int>)

  ghost predicate Sound(a: Agenda, target: int) {
    Advancing(a.tickers, target) && OrderedWaiters(a.waiters)
  }

  ghost function Planned(a: Agenda, s: Source, target: int): seq<int>
    requires Advancing(a.tickers, target)
  {
    Schedule(a.tickers, a.timers, a.waiters, s, target)
  }

  function RoundOf(a: Agenda, now: int): seq<Event> { Round(a.tickers, a.timers, a.waiters, now) }

  function Work(a: Agenda, target: int): nat {
    TickerWork(a.tickers, target) + TimerWork(a.timers) + |a.waiters|
  }

  /** `b` is `a` after everything due at `now` has fired. */
  ghost predicate Turned(a: Agenda, b: Agenda, now: int) {
    && |b.tickers| == |a.tickers| && (forall i :: 0 <= i < |a.tickers| ==> b.tickers[i] == TickOnce(a.tickers[i], now))
    && |b.timers| == |a.timers| && (forall i :: 0 <= i < |a.timers| ==> b.timers[i] == FireOnce(a.timers[i], now))
    && b.waiters == Unexpired(a.waiters, now)
    && b.delivered == Deliver(a.delivered, a.waiters, now)
  }

  ghost predicate Due(a: Agenda, now: int) {
    NothingBefore(a.tickers, a.timers, a.waiters, now) && SomethingAt(a.tickers, a.timers, a.waiters, now)
  }

  /** Nothing is pending at all. */
  ghost predicate Idle(a: Agenda) {
    && (forall i :: 0 <= i < |a.tickers| ==> a.tickers[i].stopped)
    && (forall i :: 0 <= i < |a.timers| ==> !a.timers[i].Active())
    && a.waiters == []
  }

  /** `b` is `a` after everything due by the target has fired, each at its own time. */
  ghost predicate Settled(a: Agenda, b: Agenda, target: int)
    requires Sound(a, target)
  {
    && |b.tickers| == |a.tickers| && |b.timers| == |a.timers|
    && (forall i :: 0 <= i < |a.tickers| ==> b.tickers[i] == SettledTicker(a.tickers[i], target))
    && (forall i :: 0 <= i < |a.timers| ==> b.timers[i] == SettledTimer(a.timers[i], target))
    && (forall id :: WaiterDeadline(b.waiters, id) == SettledWaiter(a.waiters, id, target))
    && (forall id :: Lookup(b.delivered, id) == SettledDelivery(a.delivered, a.waiters, id, target))
  }

  lemma TickerInPieces(t: Ticker, middle: int, target: int)
    requires MovesOn(t, target) && middle <= target
    ensures var u := SettledTicker(t, middle);
            && SettledTicker(u, target) == SettledTicker(t, target)
            && TickerSchedule(t, middle) + TickerSchedule(u, target) == TickerSchedule(t, target)
  {
    if !t.stopped && t.nextTick <= middle {
      TicksInPieces(t.nextTick, t.duration, middle, target);
      TicksClosedForm(t.nextTick, t.duration, middle);
    }
  }

  lemma TimerInPieces(t: Timer, middle: int, target: int)
    requires middle <= target
    ensures var u := SettledTimer(t, middle);
            && SettledTimer(u, target) == SettledTimer(t, target)
            && TimerSchedule(t, middle) + TimerSchedule(u, target) == TimerSchedule(t, target)
  {
  }

  lemma OnceInPieces(d: Option<int>, middle: int, target: int)
    requires middle <= target
    ensures Once(d, middle) + Once(if d.Some? && d.value <= middle then None else d, target) == Once(d, target)
  {
  }

  /** Advancing to one time and then to a later one settles everything as advancing there at once does,
      and every source fires at the same times. */
  lemma AdvanceInPieces(a: Agenda, b: Agenda, c: Agenda, middle: int, target: int)
    requires Sound(a, target) && Sound(b, target) && middle <= target && Settled(a, b, middle) && Settled(b, c, target)
    ensures Settled(a, c, target)
    ensures forall s :: Planned(a, s, middle) + Planned(b, s, target) == Planned(a, s, target)
  {
    forall i | 0 <= i < |a.tickers| ensures c.tickers[i] == SettledTicker(a.tickers[i], target) {
      TickerInPieces(a.tickers[i], middle, target);
    }
    forall i | 0 <= i < |a.timers| ensures c.timers[i] == SettledTimer(a.timers[i], target) {
      TimerInPieces(a.timers[i], middle, target);
    }
    forall id ensures WaiterDeadline(c.waiters, id) == SettledWaiter(a.waiters, id, target)
                   && Lookup(c.delivered, id) == SettledDelivery(a.delivered, a.waiters, id, target) {
      assert WaiterDeadline(b.waiters, id) == SettledWaiter(a.waiters, id, middle);
      assert Lookup(b.delivered, id) == SettledDelivery(a.delivered, a.waiters, id, middle);
    }
    forall s ensures Planned(a, s, middle) + Planned(b, s, target) == Planned(a, s, target) {
      SourceInPieces(a, b, middle, target, s);
    }
  }

  lemma SourceInPieces(a: Agenda, b: Agenda, middle: int, target: int, s: Source)
    requires Sound(a, target) && Sound(b, target) && middle <= target && Settled(a, b, middle)
    ensures Planned(a, s, middle) + Planned(b, s, target) == Planned(a, s, target)
  {
    match s
    case OfTicker(i) =>
      if i < |a.tickers| {
        TickerInPieces(a.tickers[i], middle, target);
      }
    case OfTimer(i) =>
      if i < |a.timers| {
        TimerInPieces(a.timers[i], middle, target);
      }
    case OfWaiter(id) =>
      OnceInPieces(WaiterDeadline(a.waiters, id), middle, target);
      assert WaiterDeadline(b.waiters, id) == SettledWaiter(a.waiters, id, middle);
  }

  /** Both agendas end up alike once everything due by the target has fired. */
  ghost predicate SameOutcome(a: Agenda, b: Agenda, target: int)
    requires Sound(a, target) && Sound(b, target)
  {
    && |a.tickers| == |b.tickers| && |a.timers| == |b.timers|
    && (forall i :: 0 <= i < |b.tickers| ==> SettledTicker(b.tickers[i], target) == SettledTicker(a.tickers[i], target))
    && (forall i :: 0 <= i < |b.timers| ==> SettledTimer(b.timers[i], target) == SettledTimer(a.timers[i], target))
    && (forall id :: SettledWaiter(b.waiters, id, target) == SettledWaiter(a.waiters, id, target))
    && (forall id ::
          SettledDelivery(b.delivered, b.waiters, id, target) == SettledDelivery(a.delivered, a.waiters, id, target))
  }

  lemma {:induction false} DeliverLookup(delivered: map<nat, int>, ws: seq<Waiter>, now: int, id: nat)
    requires OrderedWaiters(ws)
    ensures var d := WaiterDeadline(ws, id);
            Lookup(Deliver(delivered, ws, now), id)
              == if d.Some? && d.value <= now then Some(now) else Lookup(delivered, id)
  {
    if ws != [] {
      var front, last := ws[..|ws| - 1], ws[|ws| - 1];
      assert ws == front + [last];
      var rest := Deliver(delivered, front, now);
      assert Deliver(delivered, ws, now) == if last.deadline <= now then rest[last.id := now] else rest;
      DeliverLookup(delivered, front, now, id);
      WaiterDeadlineAppend(front, last, id);
      WaiterDeadlineMember(front, id);
    }
  }

  lemma TurnSchedules(a: Agenda, b: Agenda, now: int, target: int)
    requires Sound(a, target) && Due(a, now) && Turned(a, b, now) && now <= target
    ensures Sound(b, target)
    ensures NothingBefore(b.tickers, b.timers, b.waiters, now + 1)
    ensures forall s :: Times(RoundOf(a, now), s) + Planned(b, s, target) == Planned(a, s, target)
  {
    UnexpiredMembers(a.waiters, now);
    forall s ensures Times(RoundOf(a, now), s) + Planned(b, s, target) == Planned(a, s, target) {
      RoundTimes(a.tickers, a.timers, a.waiters, now, s);
      ScheduleAfterRound(a.tickers, a.timers, a.waiters, b.tickers, b.timers, now, target, s);
    }
  }

  lemma TurnShrinks(a: Agenda, b: Agenda, now: int, target: int)
    requires Sound(a, target) && Due(a, now) && Turned(a, b, now) && now <= target
    ensures Work(b, target) < Work(a, target)
  {
    WaitersShrink(a.waiters, now);
    TickerWorkShrinks(a.tickers, b.tickers, now, target);
    TimerWorkShrinks(a.timers, b.timers, now);
    SomethingDue(a.tickers, a.timers, a.waiters, now);
  }

  /** The final state does not depend on when within the run it is computed. */
  lemma TurnKeepsOutcome(a: Agenda, b: Agenda, now: int, target: int)
    requires Sound(a, target) && Due(a, now) && Turned(a, b, now) && now <= target && Sound(b, target)
    ensures SameOutcome(a, b, target)
  {
    forall id
      ensures SettledDelivery(b.delivered, b.waiters, id, target) == SettledDelivery(a.delivered, a.waiters, id, target)
      ensures SettledWaiter(b.waiters, id, target) == SettledWaiter(a.waiters, id, target)
    {
      UnexpiredDeadline(a.waiters, now, id);
      DeliverLookup(a.delivered, a.waiters, now, id);
      WaiterDeadlineMember(a.waiters, id);
    }
    forall i | 0 <= i < |a.tickers| ensures SettledTicker(b.tickers[i], target) == SettledTicker(a.tickers[i], target) {
      assert b.tickers[i] == TickOnce(a.tickers[i], now);
      if TickerDue(a.tickers[i], now) {
        assert a.tickers[i].nextTick == now;
        var d := a.tickers[i].duration;
        assert NextPoint(now, d, target) == NextPoint(now + d, d, target);
      }
    }
    forall i | 0 <= i < |a.timers| ensures SettledTimer(b.timers[i], target) == SettledTimer(a.timers[i], target) {
      assert b.timers[i] == FireOnce(a.timers[i], now);
    }
  }

  /** What holds between turns: `fired` has been logged and `shown` displayed since the start. */
  ghost predicate Halfway(start: Agenda, a: Agenda, fired: seq<Event>, shown: seq<int>, target: int) {
    && Sound(start, target) && Sound(a, target) && SameOutcome(start, a, target)
    && (forall w :: w in a.waiters ==> w in start.waiters)
    && Accounts(start, a, fired, target)
    && InOrder(start, a, fired, shown, target)
  }

  ghost predicate Accounts(start: Agenda, a: Agenda, fired: seq<Event>, target: int)
    requires Sound(start, target) && Sound(a, target)
  {
    forall s :: Times(fired, s) + Planned(a, s, target) == Planned(start, s, target)
  }

  ghost predicate InOrder(start: Agenda, a: Agenda, fired: seq<Event>, shown: seq<int>, target: int) {
    LogInOrder(fired, shown) && ClockInOrder(start, a, shown, target)
  }

  ghost predicate LogInOrder(fired: seq<Event>, shown: seq<int>) {
    && Chronological(fired)
    && (if shown == [] then fired == [] else forall e :: e in fired ==> e.time <= shown[|shown| - 1])
  }

  ghost predicate ClockInOrder(start: Agenda, a: Agenda, shown: seq<int>, target: int) {
    && NonDecreasing(shown)
    && (shown == [] ==> a == start)
    && (shown != [] ==>
          && shown[|shown| - 1] <= target
          && NothingBefore(a.tickers, a.timers, a.waiters, shown[|shown| - 1] + 1)
          && Due(start, shown[0]))
  }

  lemma ClockGrows(start: Agenda, a: Agenda, b: Agenda, shown: seq<int>, now: int, target: int)
    requires ClockInOrder(start, a, shown, target) && Due(a, now) && now <= target
    requires NothingBefore(b.tickers, b.timers, b.waiters, now + 1) && (shown != [] ==> shown[|shown| - 1] < now)
    ensures ClockInOrder(start, b, shown + [now], target)
  {
  }

  lemma LogGrows(fired: seq<Event>, shown: seq<int>, round: seq<Event>, now: int)
    requires LogInOrder(fired, shown) && (shown != [] ==> shown[|shown| - 1] < now)
    requires Chronological(round) && forall e :: e in round ==> e.time == now
    ensures LogInOrder(fired + round, shown + [now])
  {
    ChronologicalConcat(fired, round);
  }

  lemma TurnAccounts(start: Agenda, a: Agenda, b: Agenda, fired: seq<Event>, now: int, target: int)
    requires Sound(start, target) && Sound(a, target) && Accounts(start, a, fired, target)
    requires Due(a, now) && Turned(a, b, now) && now <= target
    ensures Sound(b, target) && NothingBefore(b.tickers, b.timers, b.waiters, now + 1)
    ensures Accounts(start, b, fired + Round(a.tickers, a.timers, a.waiters, now), target)
  {
    TurnSchedules(a, b, now, target);
    var round := Round(a.tickers, a.timers, a.waiters, now);
    forall s ensures Times(fired + round, s) + Planned(b, s, target) == Planned(start, s, target) {
      TimesConcat(fired, round, s);
      Associative(Times(fired, s), Times(round, s), Planned(b, s, target));
    }
  }

  lemma TurnInOrder(start: Agenda, a: Agenda, b: Agenda, fired: seq<Event>, shown: seq<int>, now: int, target: int)
    requires Sound(a, target) && InOrder(start, a, fired, shown, target)
    requires Due(a, now) && now <= target && NothingBefore(b.tickers, b.timers, b.waiters, now + 1)
    ensures InOrder(start, b, fired + Round(a.tickers, a.timers, a.waiters, now), shown + [now], target)
  {
    RoundOrdered(a.tickers, a.timers, a.waiters, now);
    if shown != [] {
      DueLater(a, shown[|shown| - 1] + 1, now);
    }
    LogGrows(fired, shown, Round(a.tickers, a.timers, a.waiters, now), now);
    ClockGrows(start, a, b, shown, now, target);
  }

  lemma TurnKeepsHalfway(start: Agenda, a: Agenda, b: Agenda, fired: seq<Event>, shown: seq<int>, now: int, target: int)
    requires Halfway(start, a, fired, shown, target)
    requires Due(a, now) && Turned(a, b, now) && now <= target
    ensures Halfway(start, b, fired + Round(a.tickers, a.timers, a.waiters, now), shown + [now], target)
    ensures Work(b, target) < Work(a, target)
  {
    TurnAccounts(start, a, b, fired, now, target);
    TurnInOrder(start, a, b, fired, shown, now, target);
    TurnShrinks(a, b, now, target);
    TurnKeepsOutcome(a, b, now, target);
    UnexpiredMembers(a.waiters, now);
  }

  /** The agendas a run of the loop passes through, turning at the given times. */
  ghost predicate Path(path: seq<Agenda>, times: seq<int>, target: int) {
    && |path| == |times| + 1
    && forall k :: 0 <= k < |times| ==> Turns(path[k], path[k + 1], times[k], target)
  }

  /** One turn of the loop, at the earliest due instant. */
  ghost predicate Turns(a: Agenda, b: Agenda, now: int, target: int) {
    now <= target && Due(a, now) && Turned(a, b, now)
  }

  ghost function Rounds(path: seq<Agenda>, times: seq<int>): seq<Event>
    requires |path| == |times| + 1
  {
    if times == [] then []
    else
      var k := |times| - 1;
      Rounds(path[..k + 1], times[..k]) + Round(path[k].tickers, path[k].timers, path[k].waiters, times[k])
  }

  lemma {:induction false} PathHalfway(path: seq<Agenda>, times: seq<int>, target: int)
    requires Path(path, times, target) && Sound(path[0], target)
    ensures Halfway(path[0], path[|times|], Rounds(path, times), times, target)
  {
    if times != [] {
      var k := |times| - 1;
      PathHalfway(path[..k + 1], times[..k], target);
      TurnKeepsHalfway(path[0], path[k], path[k + 1], Rounds(path[..k + 1], times[..k]), times[..k], times[k], target);
      assert times == times[..k] + [times[k]];
    }
  }

  lemma PathGrows(path: seq<Agenda>, times: seq<int>, next: Agenda, now: int, target: int)
    requires Path(path, times, target) && Turns(path[|times|], next, now, target)
    ensures Path(path + [next], times + [now], target)
  {
  }

  lemma RoundsGrow(path: seq<Agenda>, times: seq<int>, next: Agenda, now: int)
    requires |path| == |times| + 1
    ensures Rounds(path + [next], times + [now])
         == Rounds(path, times) + Round(path[|times|].tickers, path[|times|].timers, path[|times|].waiters, now)
  {
    assert (path + [next])[..|path|] == path && (times + [now])[..|times|] == times;
  }

  lemma PathTurnShrinks(path: seq<Agenda>, times: seq<int>, next: Agenda, now: int, target: int)
    requires Path(path, times, target) && Sound(path[0], target) && Turns(path[|times|], next, now, target)
    ensures Work(next, target) < Work(path[|times|], target)
  {
    PathHalfway(path, times, target);
    TurnShrinks(path[|times|], next, now, target);
  }

  lemma NothingMoreDue(a: Agenda, earliest: Option<int>, target: int)
    requires if earliest.None? then Idle(a) else Due(a, earliest.value) && earliest.value > target
    ensures NothingBefore(a.tickers, a.timers, a.waiters, target + 1)
  {
  }

  lemma DueLater(a: Agenda, t: int, now: int)
    requires NothingBefore(a.tickers, a.timers, a.waiters, t) && SomethingAt(a.tickers, a.timers, a.waiters, now)
    ensures t <= now
  {
  }

  lemma ChronologicalConcat(a: seq<Event>, b: seq<Event>)
    requires Chronological(a) && Chronological(b)
    requires forall x, y :: x in a && y in b ==> x.time < y.time
    ensures Chronological(a + b)
  {
    forall i, j | 0 <= i < j < |a + b| ensures Before((a + b)[i], (a + b)[j]) {
      if i < |a| <= j {
        assert (a + b)[i] in a && (a + b)[j] in b;
      }
    }
  }

  lemma Arrived(start: Agenda, a: Agenda, fired: seq<Event>, shown: seq<int>, now: int, target: int)
    requires Halfway(start, a, fired, shown, target)
    requires NothingBefore(a.tickers, a.timers, a.waiters, target + 1)
    ensures Chronological(fired) && Advancing(a.tickers, target)
    ensures forall s :: Times(fired, s) == Planned(start, s, target)
    ensures Settled(start, a, target) && forall w :: w in a.waiters ==> w in start.waiters
    ensures NonDecreasing([now] + (shown + [target]))
       <==> NothingBefore(start.tickers, start.timers, start.waiters, now) && now <= target
  {
    forall s ensures Planned(a, s, target) == [] {
      NothingLeft(a.tickers, a.timers, a.waiters, target, s);
    }
    forall id ensures WaiterDeadline(a.waiters, id).Some? ==> WaiterDeadline(a.waiters, id).value > target {
      WaiterDeadlineMember(a.waiters, id);
    }
    ReadingsVerdict(start.tickers, start.timers, start.waiters, now, shown, target);
  }

  lemma PathArrives(path: seq<Agenda>, times: seq<int>, now: int, target: int)
    requires Path(path, times, target) && Sound(path[0], target)
    requires var end := path[|times|]; NothingBefore(end.tickers, end.timers, end.waiters, target + 1)
    ensures Chronological(Rounds(path, times))
    ensures forall s :: Times(Rounds(path, times), s) == Planned(path[0], s, target)
    ensures Settled(path[0], path[|times|], target) && Sound(path[|times|], target)
    ensures forall w :: w in path[|times|].waiters ==> w in path[0].waiters
    ensures NonDecreasing([now] + (times + [target]))
       <==> NothingBefore(path[0].tickers, path[0].timers, path[0].waiters, now) && now <= target
  {
    PathHalfway(path, times, target);
    Arrived(path[0], path[|times|], Rounds(path, times), times, now, target);
  }

  lemma SomethingDue(tickers: seq<Ticker>, timers: seq<Timer>, waiters: seq<Waiter>, now: int)
    requires SomethingAt(tickers, timers, waiters, now)
    ensures || (exists i :: 0 <= i < |tickers| && TickerDue(tickers[i], now))
            || (exists i :: 0 <= i < |timers| && TimerDue(timers[i], now))
            || (exists w :: w in waiters && w.deadline <= now)
  {
    if i :| 0 <= i < |tickers| && !tickers[i].stopped && tickers[i].nextTick == now {
      assert TickerDue(tickers[i], now);
    } else if i :| 0 <= i < |timers| && timers[i].Active() && timers[i].deadline == now {
      assert TimerDue(timers[i], now);
    }
  }

  // ---- When the loop ends ----

  ghost function Turn(a: Agenda, now: int): Agenda {
    Agenda(seq(|a.tickers|, i requires 0 <= i < |a.tickers| => TickOnce(a.tickers[i], now)),
           seq(|a.timers|, i requires 0 <= i < |a.timers| => FireOnce(a.timers[i], now)),
           Unexpired(a.waiters, now), Deliver(a.delivered, a.waiters, now))
  }

  ghost function PendingTimes(a: Agenda): set<int> {
    (set i | 0 <= i < |a.tickers| && !a.tickers[i].stopped :: a.tickers[i].nextTick)
    + (set i | 0 <= i < |a.timers| && a.timers[i].Active() :: a.timers[i].deadline)
    + (set w | w in a.waiters :: w.deadline)
  }

  lemma {:induction false} Least(times: set<int>, some: int) returns (t: int)
    requires some in times
    ensures t in times && t <= some && forall u :: u in times ==> t <= u
  {
    t := some;
    if u :| u in times && u < some {
      t := Least(times - {some}, u);
      assert forall v :: v in times ==> v == some || v in times - {some};
    }
  }

  lemma PendingTimesAre(a: Agenda, t: int)
    ensures t in PendingTimes(a) <==> SomethingAt(a.tickers, a.timers, a.waiters, t)
  {
  }

  /** Something is pending before a time unless nothing is. */
  lemma PendingBefore(a: Agenda, t: int) returns (u: int)
    requires !NothingBefore(a.tickers, a.timers, a.waiters, t)
    ensures u < t && SomethingAt(a.tickers, a.timers, a.waiters, u)
  {
    if i :| 0 <= i < |a.tickers| && !a.tickers[i].stopped && a.tickers[i].nextTick < t {
      u := a.tickers[i].nextTick;
    } else if i :| 0 <= i < |a.timers| && a.timers[i].Active() && a.timers[i].deadline < t {
      u := a.timers[i].deadline;
    } else {
      var w :| w in a.waiters && w.deadline < t;
      u := w.deadline;
    }
  }

  /** While something is due by the target there is a next turn. */
  lemma NextTurn(a: Agenda, target: int) returns (now: int)
    requires !NothingBefore(a.tickers, a.timers, a.waiters, target + 1)
    ensures Turns(a, Turn(a, now), now, target)
  {
    var u := PendingBefore(a, target + 1);
    PendingTimesAre(a, u);
    now := Least(PendingTimes(a), u);
    PendingTimesAre(a, now);
    if !NothingBefore(a.tickers, a.timers, a.waiters, now) {
      var v := PendingBefore(a, now);
      PendingTimesAre(a, v);
      assert false;
    }
  }

  /** A loop that starts with `a` goes through these turns. */
  ghost predicate Goes(a: Agenda, path: seq<Agenda>, times: seq<int>, target: int) {
    Path(path, times, target) && path[0] == a
  }

  /** It then finds nothing due, and ends. */
  ghost predicate Ends(a: Agenda, path: seq<Agenda>, times: seq<int>, target: int) {
    Goes(a, path, times, target)
    && var end := path[|times|]; NothingBefore(end.tickers, end.timers, end.waiters, target + 1)
  }

  lemma TurnIsForced(a: Agenda, b: Agenda, c: Agenda, now: int, later: int)
    requires Due(a, now) && Turned(a, b, now) && Due(a, later) && Turned(a, c, later)
    ensures now == later && b == c
  {
    DueLater(a, now, later);
    DueLater(a, later, now);
    assert b.tickers == c.tickers && b.timers == c.timers;
  }

  /** The loop has no choice: of two ways to go from one start, one continues the other. */
  lemma {:induction false} PathsAgree(path: seq<Agenda>, times: seq<int>, path': seq<Agenda>, times': seq<int>,
                                      target: int)
    requires Path(path, times, target) && Path(path', times', target) && path[0] == path'[0] && |times| <= |times'|
    ensures times == times'[..|times|] && path == path'[..|path|]
  {
    if times != [] {
      var k := |times| - 1;
      PathsAgree(path[..k + 1], times[..k], path', times', target);
      assert path[k] == path[..k + 1][k] && Turns(path[k], path[k + 1], times[k], target);
      assert Turns(path'[k], path'[k + 1], times'[k], target);
      TurnIsForced(path[k], path[k + 1], path'[k + 1], times[k], times'[k]);
      assert times == times[..k] + [times[k]] && path == path[..k + 1] + [path[k + 1]];
    }
  }

  lemma {:induction false} AdvancingEnds(a: Agenda, target: int) returns (path: seq<Agenda>, times: seq<int>)
    requires Sound(a, target)
    ensures Ends(a, path, times, target)
    decreases Work(a, target)
  {
    if NothingBefore(a.tickers, a.timers, a.waiters, target + 1) {
      path, times := [a], [];
    } else {
      var now := NextTurn(a, target);
      TurnShrinks(a, Turn(a, now), now, target);
      TurnSchedules(a, Turn(a, now), now, target);
      var rest, later := AdvancingEnds(Turn(a, now), target);
      path, times := [a] + rest, [now] + later;
      PathPrepends(a, rest, now, later, target);
    }
  }

  lemma PathPrepends(a: Agenda, path: seq<Agenda>, now: int, times: seq<int>, target: int)
    requires Path(path, times, target) && Turns(a, path[0], now, target)
    ensures Path([a] + path, [now] + times, target)
  {
    var path', times' := [a] + path, [now] + times;
    forall k | 0 <= k < |times'| ensures Turns(path'[k], path'[k + 1], times'[k], target) {
      if k > 0 {
        assert Turns(path[k - 1], path[k], times[k - 1], target);
      }
    }
  }

  /** A ticker that has nowhere to go is due again after every turn. */
  lemma {:induction false} StuckTicker(path: seq<Agenda>, times: seq<int>, target: int, i: nat)
    requires Path(path, times, target) && i < |path[0].tickers| && !MovesOn(path[0].tickers[i], target)
    ensures var end := path[|times|]; i < |end.tickers| && !MovesOn(end.tickers[i], target)
  {
    if times != [] {
      var k := |times| - 1;
      StuckTicker(path[..k + 1], times[..k], target, i);
      assert Turns(path[k], path[k + 1], times[k], target);
      assert path[k + 1].tickers[i] == TickOnce(path[k].tickers[i], times[k]);
    }
  }

  lemma {:induction false} StuckGoesOn(a: Agenda, target: int, i: nat, turns: nat)
    returns (path: seq<Agenda>, times: seq<int>)
    requires i < |a.tickers| && !MovesOn(a.tickers[i], target)
    ensures Goes(a, path, times, target) && |times| == turns
  {
    if turns == 0 {
      path, times := [a], [];
    } else {
      path, times := StuckGoesOn(a, target, i, turns - 1);
      StuckTicker(path, times, target, i);
      var now := NextTurn(path[|times|], target);
      PathGrows(path, times, Turn(path[|times|], now), now, target);
      path, times := path + [Turn(path[|times|], now)], times + [now];
    }
  }

  /** The loop ends exactly if every running ticker that is due by the target has a positive duration. */
  lemma LoopEndsIff(a: Agenda, target: int)
    requires OrderedWaiters(a.waiters)
    ensures (exists path, times :: Ends(a, path, times, target)) <==> Advancing(a.tickers, target)
  {
    if Advancing(a.tickers, target) {
      var path, times := AdvancingEnds(a, target);
    } else {
      var i :| 0 <= i < |a.tickers| && !MovesOn(a.tickers[i], target);
      forall path, times ensures !Ends(a, path, times, target) {
        if Path(path, times, target) && path[0] == a {
          StuckTicker(path, times, target, i);
        }
      }
    }
  }

  /** Otherwise it goes on for any number of turns. */
  lemma LoopNeverEnds(a: Agenda, target: int, turns: nat)
    requires !Advancing(a.tickers, target)
    ensures exists path, times :: Goes(a, path, times, target) && |times| == turns
  {
    var i :| 0 <= i < |a.tickers| && !MovesOn(a.tickers[i], target);
    var path, times := StuckGoesOn(a, target, i, turns);
  }

  predicate NonDecreasing(s: seq<int>) {
    forall i, j :: 0 <= i < j < |s| ==> s[i] <= s[j]
  }

  /** The clock steps backwards only if asked to, or if it starts with an overdue event. */
  lemma ReadingsVerdict(tickers: seq<Ticker>, timers: seq<Timer>, waiters: seq<Waiter>, now: int, shown: seq<int>,
                        target: int)
    requires NonDecreasing(shown)
    requires shown == [] ==> NothingBefore(tickers, timers, waiters, target + 1)
    requires shown != [] ==> shown[|shown| - 1] <= target && NothingBefore(tickers, timers, waiters, shown[0])
    requires shown != [] ==> SomethingAt(tickers, timers, waiters, shown[0])
    ensures NonDecreasing([now] + (shown + [target])) <==> NothingBefore(tickers, timers, waiters, now) && now <= target
  {
    var all := [now] + (shown + [target]);
    assert all[|all| - 1] == target && all[0] == now;
    if NonDecreasing(all) && shown != [] {
      assert all[1] == shown[0];
      assert all[0] <= all[1];
    }
    if now <= target && NothingBefore(tickers, timers, waiters, now) {
      assert forall i :: 0 < i < |all| ==> all[i] == if i - 1 < |shown| then shown[i - 1] else target;
    }
  }

  // ---- What an advance leaves behind, told by the log ----

  /** A channel of capacity one keeps the first value it is sent, unless it held one already. */
  predicate Received(before: Option<int>, after: Option<int>, sent: seq<int>) {
    after == if before.None? && sent != [] then Some(sent[0]) else before
  }

  /** A ticker fired at the points of its progression up to the target, and waits for the next one. */
  ghost predicate TickerTold(t: Ticker, u: Ticker, sent: seq<int>, target: int) {
    && u.duration == t.duration && u.stopped == t.stopped && Received(t.ch, u.ch, sent)
    && u.nextTick == t.nextTick + |sent| * t.duration
    && (forall k :: 0 <= k < |sent| ==> sent[k] == t.nextTick + k * t.duration <= target)
    && (if t.stopped then sent == [] else u.nextTick > target)
  }

  /** A timer fired once, at its deadline, if it was active and due. */
  ghost predicate TimerTold(t: Timer, u: Timer, sent: seq<int>, target: int) {
    && sent == (if !t.stopped && !t.fired && t.deadline <= target then [t.deadline] else [])
    && u.deadline == t.deadline && u.stopped == t.stopped && Received(t.ch, u.ch, sent)
    && (u.fired <==> t.fired || sent != [])
  }

  /** A waiter got its deadline and is gone, or waits on; nobody else is told anything. */
  ghost predicate WaitersTold(a: Agenda, b: Agenda, fired: seq<Event>, target: int) {
    && (forall w :: w in b.waiters <==> w in a.waiters && w.deadline > target)
    && (forall w :: w in a.waiters ==>
          Times(fired, OfWaiter(w.id)) == if w.deadline <= target then [w.deadline] else [])
    && (forall w :: w in a.waiters && w.deadline <= target ==> Lookup(b.delivered, w.id) == Some(w.deadline))
    && (forall id :: Times(fired, OfWaiter(id)) == [] ==> Lookup(b.delivered, id) == Lookup(a.delivered, id))
  }

  ghost predicate Told(a: Agenda, b: Agenda, fired: seq<Event>, target: int) {
    && |b.tickers| == |a.tickers| && |b.timers| == |a.timers|
    && (forall i :: 0 <= i < |a.tickers| ==>
          TickerTold(a.tickers[i], b.tickers[i], Times(fired, OfTicker(i)), target))
    && (forall i :: 0 <= i < |a.timers| ==> TimerTold(a.timers[i], b.timers[i], Times(fired, OfTimer(i)), target))
    && WaitersTold(a, b, fired, target)
  }

  lemma {:induction false} TicksUpTo(n: int, d: int, target: int, k: nat)
    requires d > 0 && k < |Ticks(n, d, target)|
    ensures Ticks(n, d, target)[k] <= target
    decreases target - n
  {
    if k > 0 {
      TicksUpTo(n + d, d, target, k - 1);
    }
  }

  lemma SettledTickerTold(t: Ticker, target: int)
    requires MovesOn(t, target)
    ensures TickerTold(t, SettledTicker(t, target), TickerSchedule(t, target), target)
  {
    if !t.stopped && t.nextTick <= target {
      var sent := Ticks(t.nextTick, t.duration, target);
      TicksClosedForm(t.nextTick, t.duration, target);
      forall k | 0 <= k < |sent| ensures sent[k] == t.nextTick + k * t.duration <= target {
        TicksUpTo(t.nextTick, t.duration, target, k);
      }
    }
  }

  lemma {:induction false} DeadlineOf(ws: seq<Waiter>, w: Waiter)
    requires OrderedWaiters(ws) && w in ws
    ensures WaiterDeadline(ws, w.id) == Some(w.deadline)
  {
    if ws[0].id != w.id {
      assert w in ws[1..];
      DeadlineOf(ws[1..], w);
    } else {
      var k :| 0 <= k < |ws| && ws[k] == w;
    }
  }

  lemma SettledWaitersTold(a: Agenda, b: Agenda, fired: seq<Event>, target: int)
    requires Sound(a, target) && Settled(a, b, target) && OrderedWaiters(b.waiters)
    requires forall s :: Times(fired, s) == Planned(a, s, target)
    ensures WaitersTold(a, b, fired, target)
  {
    forall w | w in a.waiters
      ensures Times(fired, OfWaiter(w.id)) == if w.deadline <= target then [w.deadline] else []
      ensures w.deadline > target ==> w in b.waiters
      ensures w.deadline <= target ==> Lookup(b.delivered, w.id) == Some(w.deadline)
    {
      DeadlineOf(a.waiters, w);
      WaiterDeadlineMember(b.waiters, w.id);
      assert WaiterDeadline(b.waiters, w.id) == SettledWaiter(a.waiters, w.id, target);
    }
    forall w | w in b.waiters ensures w in a.waiters && w.deadline > target {
      DeadlineOf(b.waiters, w);
      WaiterDeadlineMember(a.waiters, w.id);
      assert WaiterDeadline(b.waiters, w.id) == SettledWaiter(a.waiters, w.id, target);
    }
  }

  lemma SettledTold(a: Agenda, b: Agenda, fired: seq<Event>, target: int)
    requires Sound(a, target) && Settled(a, b, target) && OrderedWaiters(b.waiters)
    requires forall s :: Times(fired, s) == Planned(a, s, target)
    ensures Told(a, b, fired, target)
  {
    forall i | 0 <= i < |a.tickers|
      ensures TickerTold(a.tickers[i], b.tickers[i], Times(fired, OfTicker(i)), target)
    {
      SettledTickerTold(a.tickers[i], target);
    }
    SettledWaitersTold(a, b, fired, target);
  }

  ghost predicate NoTickerBefore(ts: seq<Ticker>, t: Option<int>) {
    forall k :: 0 <= k < |ts| && !ts[k].stopped ==> t.Some? && t.value <= ts[k].nextTick
  }
  ghost predicate NoTimerBefore(ts: seq<Timer>, t: Option<int>) {
    forall k :: 0 <= k < |ts| && ts[k].Active() ==> t.Some? && t.value <= ts[k].deadline
  }

  class Clock {
    var now: int
    var tickers: seq<Ticker>
    var timers: seq<Timer>
    var waiters: seq<Waiter>
    var created: nat
    var delivered: map<nat, int>

    ghost predicate Valid() reads this {
      && OrderedWaiters(waiters)
      && forall w :: w in waiters ==> w.id < created
    }

    /** No pending event lies in the clock's past. */
    ghost predicate Punctual() reads this {
      NothingBefore(tickers, timers, waiters, now)
    }

    ghost function DueBy(s: Source, target: int): seq<int>
      requires Advancing(tickers, target)
      reads this
    {
      Schedule(tickers, timers, waiters, s, target)
    }

    constructor (start: int)
      ensures Valid() && Punctual() && now == start
      ensures tickers == [] && timers == [] && waiters == []
    {
      now, tickers, timers, waiters, created := start, [], [], [], 0;
      delivered := map[];
    }

    method NewTicker(d: int) returns (handle: nat)
      requires Valid()
      modifies this`tickers
      ensures Valid() && handle == old(|tickers|)
      ensures forall t :: Advancing(tickers, t) <==> Advancing(old(tickers), t) && (now + d <= t ==> d > 0)
      ensures tickers == old(tickers) + [Ticker(d, now + d, false, None)]
      ensures old(Punctual()) ==> (Punctual() <==> d >= 0)
    {
      handle := |tickers|;
      tickers := tickers + [Ticker(d, now + d, false, None)];
      assert tickers[handle] == Ticker(d, now + d, false, None);
      assert forall i :: 0 <= i < handle ==> tickers[i] == old(tickers)[i];
    }

    method NewTimer(d: int) returns (handle: nat)
      requires Valid()
      modifies this`timers
      ensures Valid() && handle == old(|timers|)
      ensures timers == old(timers) + [Timer(now + d, false, false, None)]
      ensures old(Punctual()) ==> (Punctual() <==> d >= 0)
    {
      handle := |timers|;
      timers := timers + [Timer(now + d, false, false, None)];
      assert timers[|timers| - 1] == Timer(now + d, false, false, None);
    }

    /** A non-positive delay is delivered at once and never queued. */
    method After(d: int) returns (id: nat)
      requires Valid()
      modifies this`waiters, this`created, this`delivered
      ensures Valid() && id == old(created) && created == id + 1
      ensures d <= 0 ==> waiters == old(waiters) && delivered == old(delivered)[id := now]
      ensures d > 0 ==> waiters == old(waiters) + [Waiter(id, now + d)] && delivered == old(delivered)
      ensures old(Punctual()) ==> Punctual()
    {
      id := created;
      created := created + 1;
      if d <= 0 {
        delivered := delivered[id := now];
      } else {
        waiters := waiters + [Waiter(id, now + d)];
      }
    }

    method StopTicker(i: nat)
      requires Valid() && i < |tickers|
      modifies this`tickers
      ensures Valid() && tickers == old(tickers)[i := old(tickers[i]).(stopped := true)]
      ensures forall t :: Advancing(old(tickers), t) ==> Advancing(tickers, t)
      ensures old(Punctual()) ==> Punctual()
    {
      tickers := tickers[i := tickers[i].(stopped := true)];
    }

    method StopTimer(i: nat) returns (wasActive: bool)
      requires Valid() && i < |timers|
      modifies this`timers
      ensures Valid() && wasActive == old(timers[i].Active())
      ensures timers == old(timers)[i := old(timers[i]).(stopped := true)]
      ensures old(Punctual()) ==> Punctual()
    {
      wasActive := timers[i].Active();
      timers := timers[i := timers[i].(stopped := true)];
    }

    method ResetTimer(i: nat, d: int) returns (wasActive: bool)
      requires Valid() && i < |timers|
      modifies this`timers
      ensures Valid() && wasActive == old(timers[i].Active())
      ensures timers == old(timers)[i := old(timers[i]).(stopped := false, fired := false, deadline := now + d)]
      ensures old(Punctual()) ==> (Punctual() <==> d >= 0)
    {
      wasActive := timers[i].Active();
      timers := timers[i := timers[i].(stopped := false, fired := false, deadline := now + d)];
      assert timers[i].Active();
    }

    method FindEarliestEvent() returns (earliest: Option<int>)
      ensures earliest.None? ==> Idle(Pending())
      ensures earliest.Some? ==> Due(Pending(), earliest.value)
    {
      earliest := None;
      for i := 0 to |tickers|
        invariant NoTickerBefore(tickers[..i], earliest)
        invariant earliest.Some? ==> SomethingAt(tickers, timers, waiters, earliest.value)
      {
        var t := tickers[i];
        if !t.stopped && (earliest.None? || t.nextTick < earliest.value) {
          earliest := Some(t.nextTick);
        }
      }
      for i := 0 to |timers|
        invariant NoTickerBefore(tickers, earliest)
        invariant NoTimerBefore(timers[..i], earliest)
        invariant earliest.Some? ==> SomethingAt(tickers, timers, waiters, earliest.value)
      {
        var t := timers[i];
        if t.Active() && (earliest.None? || t.deadline < earliest.value) {
          earliest := Some(t.deadline);
        }
      }
      for i := 0 to |waiters|
        invariant NoTickerBefore(tickers, earliest)
        invariant NoTimerBefore(timers, earliest)
        invariant forall k :: 0 <= k < i ==> earliest.Some? && earliest.value <= waiters[k].deadline
        invariant earliest.Some? ==> SomethingAt(tickers, timers, waiters, earliest.value)
      {
        if earliest.None? || waiters[i].deadline < earliest.value {
          earliest := Some(waiters[i].deadline);
          assert waiters[i] in waiters;
        }
      }
      if |waiters| > 0 {
        assert waiters[0] in waiters && earliest.Some?;
      }
    }

    method FireTickers() returns (ghost events: seq<Event>)
      modifies this`tickers
      ensures |tickers| == old(|tickers|)
      ensures forall i :: 0 <= i < |tickers| ==> tickers[i] == TickOnce(old(tickers)[i], now)
      ensures forall i :: 0 <= i < |tickers| ==>
                var t := old(tickers)[i];
                tickers[i].ch == if !t.stopped && t.nextTick <= now && t.ch.None? then Some(now) else t.ch
      ensures events == TickerEvents(old(tickers), now)
    {
      events := [];
      ghost var was := tickers;
      for i := 0 to |tickers|
        invariant |tickers| == |was|
        invariant forall k :: 0 <= k < |was| ==> tickers[k] == if k < i then TickOnce(was[k], now) else was[k]
        invariant events == TickerEvents(was[..i], now)
      {
        assert was[..i + 1][..i] == was[..i];
        var t := tickers[i];
        if !t.stopped && t.nextTick <= now {
          tickers := tickers[i := t.(ch := Offer(t.ch, now), nextTick := now + t.duration)];
          events := events + [Event(OfTicker(i), now)];
        }
      }
      assert was[..|was|] == was;
    }

    method FireTimers() returns (ghost events: seq<Event>)
      modifies this`timers
      ensures |timers| == old(|timers|)
      ensures forall i :: 0 <= i < |timers| ==> timers[i] == FireOnce(old(timers)[i], now)
      ensures forall i :: 0 <= i < |timers| ==>
                var t := old(timers)[i];
                timers[i].ch == if t.Active() && t.deadline <= now && t.ch.None? then Some(now) else t.ch
      ensures events == TimerEvents(old(timers), now)
    {
      events := [];
      ghost var was := timers;
      for i := 0 to |timers|
        invariant |timers| == |was|
        invariant forall k :: 0 <= k < |was| ==> timers[k] == if k < i then FireOnce(was[k], now) else was[k]
        invariant events == TimerEvents(was[..i], now)
      {
        assert was[..i + 1][..i] == was[..i];
        var t := timers[i];
        if t.Active() && t.deadline <= now {
          timers := timers[i := t.(ch := Offer(t.ch, now), fired := true)];
          events := events + [Event(OfTimer(i), now)];
        }
      }
      assert was[..|was|] == was;
    }

    method FireWaiters() returns (ghost events: seq<Event>)
      modifies this`waiters, this`delivered
      ensures waiters == Unexpired(old(waiters), now)
      ensures delivered == Deliver(old(delivered), old(waiters), now)
      ensures events == WaiterEvents(old(waiters), now)
    {
      events := [];
      ghost var was := waiters;
      var remaining: seq<Waiter> := [];
      for i := 0 to |waiters|
        invariant waiters == was
        invariant remaining == Unexpired(was[..i], now)
        invariant delivered == Deliver(old(delivered), was[..i], now)
        invariant events == WaiterEvents(was[..i], now)
      {
        assert was[..i + 1][..i] == was[..i];
        var w := waiters[i];
        if w.deadline <= now {
          delivered := delivered[w.id := now];
          events := events + [Event(OfWaiter(w.id), now)];
        } else {
          remaining := remaining + [w];
        }
      }
      assert was[..|was|] == was;
      waiters := remaining;
    }

    ghost function Pending(): Agenda reads this {
      Agenda(tickers, timers, waiters, delivered)
    }

    /** One turn of the loop: jump to the earliest event and fire everything due there. */
    method FireAt(earliest: int) returns (ghost round: seq<Event>)
      modifies this`now, this`tickers, this`timers, this`waiters, this`delivered
      ensures now == earliest
      ensures Turned(old(Pending()), Pending(), earliest)
      ensures round == Round(old(tickers), old(timers), old(waiters), earliest)
    {
      now := earliest;
      ghost var ticks := FireTickers();
      ghost var firings := FireTimers();
      ghost var wakes := FireWaiters();
      round := ticks + firings + wakes;
    }

    method FireUpTo(target: int) returns (ghost fired: seq<Event>, ghost path: seq<Agenda>, ghost shown: seq<int>)
      requires Valid() && Advancing(tickers, target)
      modifies this`now, this`tickers, this`timers, this`waiters, this`delivered
      ensures Path(path, shown, target) && path[0] == old(Pending()) && path[|shown|] == Pending()
      ensures fired == Rounds(path, shown)
      ensures NothingBefore(tickers, timers, waiters, target + 1)
    {
      fired, path, shown := [], [Pending()], [];
      while true
        invariant Path(path, shown, target) && path[0] == old(Pending()) && path[|shown|] == Pending()
        invariant fired == Rounds(path, shown)
        decreases Work(Pending(), target)
      {
        var earliest := FindEarliestEvent();
        if earliest.None? || earliest.value > target {
          NothingMoreDue(Pending(), earliest, target);
          break;
        }
        ghost var round := FireAt(earliest.value);
        PathTurnShrinks(path, shown, Pending(), earliest.value, target);
        PathGrows(path, shown, Pending(), earliest.value, target);
        RoundsGrow(path, shown, Pending(), earliest.value);
        path, shown, fired := path + [Pending()], shown + [earliest.value], fired + round;
      }
    }

    /** Advance and Set both end here. */
    method AdvanceTo(target: int) returns (ghost fired: seq<Event>, ghost shown: seq<int>)
      requires Valid() && Advancing(tickers, target)
      modifies this`now, this`tickers, this`timers, this`waiters, this`delivered
      ensures Valid() && now == target
      ensures forall t :: Advancing(old(tickers), t) ==> Advancing(tickers, t)
      ensures NothingBefore(tickers, timers, waiters, target + 1)
      ensures Chronological(fired)
      ensures forall s :: Times(fired, s) == old(DueBy(s, target))
      ensures Settled(old(Pending()), Pending(), target)
      ensures Told(old(Pending()), Pending(), fired, target)
      ensures shown != [] && shown[|shown| - 1] == target
      ensures NonDecreasing([old(now)] + shown) <==> old(Punctual()) && old(now) <= target
    {
      ghost var path, turns;
      fired, path, turns := FireUpTo(target);
      PathArrives(path, turns, old(now), target);
      SettledTold(old(Pending()), Pending(), fired, target);
      now := target;
      shown := turns + [target];
    }

    method Advance(d: int) returns (ghost fired: seq<Event>, ghost shown: seq<int>)
      requires Valid() && Advancing(tickers, now + d)
      modifies this`now, this`tickers, this`timers, this`waiters, this`delivered
      ensures Valid() && now == old(now) + d && Punctual()
      ensures forall t :: Advancing(old(tickers), t) ==> Advancing(tickers, t)
      ensures forall s :: Times(fired, s) == old(DueBy(s, now + d))
      ensures Chronological(fired) && Settled(old(Pending()), Pending(), old(now) + d)
      ensures Told(old(Pending()), Pending(), fired, old(now) + d)
      ensures d >= 0 && old(Punctual()) ==> NonDecreasing([old(now)] + shown)
    {
      fired, shown := AdvanceTo(now + d);
    }
  }
}
