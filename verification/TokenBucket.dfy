/** The token bucket of core/resilience.go over an explicit clock, in seconds.
    Floats are modelled as reals. */
module TokenBucket {
  datatype Bucket = Bucket(rate: real, capacity: real, tokens: real, lastRefill: real)

  function Create(rate: real, capacity: int, now: real): Bucket {
    Bucket(rate, capacity as real, capacity as real, now)
  }

  function Refill(b: Bucket, now: real): Bucket {
    var tokens := b.tokens + (now - b.lastRefill) * b.rate;
    b.(tokens := if tokens > b.capacity then b.capacity else tokens, lastRefill := now)
  }

  function Allow(b: Bucket, n: int, now: real): (Bucket, bool) {
    var b := Refill(b, now);
    if b.tokens >= n as real then (b.(tokens := b.tokens - n as real), true) else (b, false)
  }

  class RateLimiter {
    const rate: real
    const capacity: int
    var tokens: real
    var lastRefill: real

    function View(): Bucket reads this { Bucket(rate, capacity as real, tokens, lastRefill) }

    constructor (rate: real, capacity: int, now: real)
      ensures View() == Create(rate, capacity, now)
    {
      this.rate, this.capacity, tokens, lastRefill := rate, capacity, capacity as real, now;
    }

    method RefillNow(now: real)
      modifies this`tokens, this`lastRefill
      ensures View() == Refill(old(View()), now)
    {
      tokens := tokens + (now - lastRefill) * rate;
      if tokens > capacity as real {
        tokens := capacity as real;
      }
      lastRefill := now;
    }

    method AllowN(n: int, now: real) returns (ok: bool)
      modifies this`tokens, this`lastRefill
      ensures (View(), ok) == Allow(old(View()), n, now)
    {
      RefillNow(now);
      ok := tokens >= n as real;
      if ok {
        tokens := tokens - n as real;
      }
    }
  }

  // ---- Every trace of calls ----

  datatype Request = Request(n: int, time: real)

  predicate Orderly(start: real, rs: seq<Request>) {
    && (forall i :: 0 <= i < |rs| ==> rs[i].n >= 0 && start <= rs[i].time)
    && (forall i, j :: 0 <= i < j < |rs| ==> rs[i].time <= rs[j].time)
  }

  /** The bucket after a trace, and how much each call was granted. */
  function Run(b: Bucket, rs: seq<Request>): (Bucket, seq<int>) {
    if rs == [] then (b, [])
    else
      var (b1, granted) := Run(b, rs[..|rs| - 1]);
      var last := rs[|rs| - 1];
      var (b2, ok) := Allow(b1, last.n, last.time);
      (b2, granted + [if ok then last.n else 0])
  }

  /** A call is granted all it asks for, or nothing. */
  lemma {:induction false} GrantedAllOrNothing(b: Bucket, rs: seq<Request>, k: nat)
    requires k < |rs|
    ensures var granted := Run(b, rs).1;
            && |granted| == |rs|
            && granted[k] == if Allow(Run(b, rs[..k]).0, rs[k].n, rs[k].time).1 then rs[k].n else 0
  {
    var front := rs[..|rs| - 1];
    if k < |front| {
      GrantedAllOrNothing(b, front, k);
      assert front[..k] == rs[..k];
    } else if front != [] {
      GrantedAllOrNothing(b, front, 0);
    }
  }

  function Sum(xs: seq<int>): int {
    if xs == [] then 0 else Sum(xs[..|xs| - 1]) + xs[|xs| - 1]
  }

  /** When the i-th window opens: window 0 with the limiter itself, window i with the i-th call. */
  function Opens(start: real, rs: seq<Request>, i: nat): real
    requires i <= |rs|
  {
    if i == 0 then start else rs[i - 1].time
  }

  /** Granted since window i opened: by the calls from the i-th on, counting from one. */
  function GrantedSince(granted: seq<int>, i: nat): int
    requires i <= |granted| + 1
  {
    Sum(granted[if i == 0 then 0 else i - 1..])
  }

  /** Tokens the refill has produced by a point in time, counted from time zero. */
  function Produced(rate: real, t: real): real { rate * t }

  lemma ProducedBetween(rate: real, t: real, t': real)
    ensures (t' - t) * rate == rate * (t' - t) == Produced(rate, t') - Produced(rate, t)
    ensures rate >= 0.0 && t <= t' ==> Produced(rate, t) <= Produced(rate, t')
  {
    if rate >= 0.0 && t <= t' {
      assert (t' - t) * rate >= 0.0;
    }
  }

  /** What window i leaves for a call at `now`. */
  function Headroom(b: Bucket, start: real, rs: seq<Request>, granted: seq<int>, i: nat, now: real): real
    requires i <= |rs| == |granted|
  {
    b.capacity + Produced(b.rate, now) - Produced(b.rate, Opens(start, rs, i)) - GrantedSince(granted, i) as real
  }

  /** A call of size `n` at `now` keeps to the capacity and the refill since window i opened. */
  predicate Fits(rate: real, capacity: int, start: real, rs: seq<Request>, granted: seq<int>, i: nat, n: int, now: real)
    requires i <= |rs| == |granted|
  {
    var begin := if i == 0 then start else rs[i - 1].time;
    (Sum(granted[if i == 0 then 0 else i - 1..]) + n) as real <= capacity as real + rate * (now - begin)
  }

  lemma FitsHeadroom(rate: real, capacity: int, start: real, rs: seq<Request>, granted: seq<int>, i: nat, n: int,
                     now: real)
    requires i <= |rs| == |granted|
    ensures var room := Headroom(Create(rate, capacity, start), start, rs, granted, i, now);
            Fits(rate, capacity, start, rs, granted, i, n, now) <==> n as real <= room
  {
    ProducedBetween(rate, Opens(start, rs, i), now);
  }

  lemma SumAppend(xs: seq<int>, x: int, i: nat)
    requires i <= |xs|
    ensures Sum((xs + [x])[i..]) == Sum(xs[i..]) + x
  {
    assert (xs + [x])[i..] == xs[i..] + [x];
    assert (xs[i..] + [x])[..|xs[i..]|] == xs[i..];
  }

  /** The token count is the least headroom of any window. */
  ghost predicate LeastHeadroom(b0: Bucket, b: Bucket, start: real, rs: seq<Request>, granted: seq<int>) {
    && |granted| == |rs| && b.lastRefill == Opens(start, rs, |rs|)
    && b.rate == b0.rate && b.capacity == b0.capacity && 0.0 <= b.tokens <= b.capacity
    && (forall i :: 0 <= i <= |rs| ==> b.tokens <= Headroom(b0, start, rs, granted, i, b.lastRefill))
    && (exists i :: 0 <= i <= |rs| && b.tokens == Headroom(b0, start, rs, granted, i, b.lastRefill))
  }

  lemma {:induction false} TokensAreLeastHeadroom(rate: real, capacity: int, start: real, rs: seq<Request>)
    requires rate >= 0.0 && capacity >= 0 && Orderly(start, rs)
    ensures var b0 := Create(rate, capacity, start);
            var (b, granted) := Run(b0, rs);
            LeastHeadroom(b0, b, start, rs, granted)
  {
    var b0 := Create(rate, capacity, start);
    if rs == [] {
      assert Headroom(b0, start, rs, [], 0, start) == b0.tokens;
    } else {
      var front, last := rs[..|rs| - 1], rs[|rs| - 1];
      assert rs == front + [last];
      TokensAreLeastHeadroom(rate, capacity, start, front);
      var (b1, granted1) := Run(b0, front);
      StepLeastHeadroom(b0, b1, start, front, granted1, last);
    }
  }

  /** After one more call every window has paid for it, and a new window opens. */
  lemma HeadroomsMove(b0: Bucket, start: real, front: seq<Request>, granted: seq<int>, last: Request, x: int,
                      i: nat, now: real)
    requires |granted| == |front| && i <= |front|
    ensures var before := Headroom(b0, start, front, granted, i, now);
            Headroom(b0, start, front + [last], granted + [x], i, now) == before - x as real
  {
    SumAppend(granted, x, if i == 0 then 0 else i - 1);
    assert Opens(start, front + [last], i) == Opens(start, front, i);
  }

  lemma NewHeadroom(b0: Bucket, start: real, front: seq<Request>, granted: seq<int>, last: Request, x: int)
    requires |granted| == |front|
    ensures Headroom(b0, start, front + [last], granted + [x], |front| + 1, last.time) == b0.capacity - x as real
  {
    assert (granted + [x])[|front|..] == [x] && [x][..0] == [];
    assert Sum([x]) == Sum([x][..0]) + x;
  }

  lemma RefillLinear(b: Bucket, now: real)
    ensures var t := b.tokens + Produced(b.rate, now) - Produced(b.rate, b.lastRefill);
            Refill(b, now).tokens == if t > b.capacity then b.capacity else t
  {
    ProducedBetween(b.rate, b.lastRefill, now);
  }

  lemma StepLeastHeadroom(b0: Bucket, b1: Bucket, start: real, front: seq<Request>, granted1: seq<int>, last: Request)
    requires b0.rate >= 0.0 && LeastHeadroom(b0, b1, start, front, granted1)
    requires last.n >= 0 && b1.lastRefill <= last.time
    ensures var (b, ok) := Allow(b1, last.n, last.time);
            LeastHeadroom(b0, b, start, front + [last], granted1 + [if ok then last.n else 0])
  {
    var (b, ok) := Allow(b1, last.n, last.time);
    var x := if ok then last.n else 0;
    var rs, granted := front + [last], granted1 + [x];
    RefillLinear(b1, last.time);
    ProducedBetween(b0.rate, b1.lastRefill, last.time);
    NewHeadroom(b0, start, front, granted1, last, x);
    forall i | 0 <= i <= |rs| ensures b.tokens <= Headroom(b0, start, rs, granted, i, last.time) {
      if i <= |front| {
        HeadroomsMove(b0, start, front, granted1, last, x, i, last.time);
        assert b1.tokens <= Headroom(b0, start, front, granted1, i, b1.lastRefill);
      }
    }
    var i :| 0 <= i <= |front| && b1.tokens == Headroom(b0, start, front, granted1, i, b1.lastRefill);
    HeadroomsMove(b0, start, front, granted1, last, x, i, last.time);
    assert b.tokens == Headroom(b0, start, rs, granted, i, last.time)
        || b.tokens == Headroom(b0, start, rs, granted, |rs|, last.time);
  }

  lemma AdmitsWithin(b0: Bucket, b: Bucket, start: real, rs: seq<Request>, granted: seq<int>, r: Request)
    requires LeastHeadroom(b0, b, start, rs, granted)
    ensures Allow(b, r.n, r.time).1 <==>
              && r.n as real <= b0.capacity
              && forall i :: 0 <= i <= |rs| ==> r.n as real <= Headroom(b0, start, rs, granted, i, r.time)
  {
    RefillLinear(b, r.time);
    var gain := Produced(b.rate, r.time) - Produced(b.rate, b.lastRefill);
    forall i | 0 <= i <= |rs| ensures b.tokens + gain <= Headroom(b0, start, rs, granted, i, r.time) {
      assert b.tokens <= Headroom(b0, start, rs, granted, i, b.lastRefill);
    }
    var i :| 0 <= i <= |rs| && b.tokens == Headroom(b0, start, rs, granted, i, b.lastRefill);
    assert Headroom(b0, start, rs, granted, i, r.time) == b.tokens + gain;
  }

  /** The limiter admits a call exactly when it is no larger than the capacity and no window would be
      overdrawn: neither more than the capacity plus the refill since the limiter was made, nor more than
      that since any earlier call. */
  lemma AdmittedIffNoWindowOverdrawn(rate: real, capacity: int, start: real, rs: seq<Request>, r: Request)
    requires rate >= 0.0 && capacity >= 0 && Orderly(start, rs)
    ensures var (b, granted) := Run(Create(rate, capacity, start), rs);
            && |granted| == |rs|
            && (Allow(b, r.n, r.time).1 <==>
                  && r.n <= capacity
                  && forall i :: 0 <= i <= |rs| ==> Fits(rate, capacity, start, rs, granted, i, r.n, r.time))
  {
    var b0 := Create(rate, capacity, start);
    var (b, granted) := Run(b0, rs);
    TokensAreLeastHeadroom(rate, capacity, start, rs);
    AdmitsWithin(b0, b, start, rs, granted, r);
    forall i | 0 <= i <= |rs|
      ensures Fits(rate, capacity, start, rs, granted, i, r.n, r.time)
         <==> r.n as real <= Headroom(b0, start, rs, granted, i, r.time)
    {
      FitsHeadroom(rate, capacity, start, rs, granted, i, r.n, r.time);
    }
  }

  /** From the i-th call to the last, both included, counting from one. */
  predicate WithinWindow(rate: real, capacity: real, rs: seq<Request>, granted: seq<int>, i: nat)
    requires 0 < i <= |rs| == |granted|
  {
    Sum(granted[i - 1..]) as real <= capacity + rate * (rs[|rs| - 1].time - rs[i - 1].time)
  }

  /** Between any two calls the limiter admits at most its capacity plus what the elapsed time refills. */
  lemma WindowBound(rate: real, capacity: int, start: real, rs: seq<Request>, i: nat)
    requires rate >= 0.0 && capacity >= 0 && Orderly(start, rs) && 0 < i <= |rs|
    ensures var (b, granted) := Run(Create(rate, capacity, start), rs);
            && |granted| == |rs| && 0.0 <= b.tokens <= capacity as real
            && WithinWindow(rate, capacity as real, rs, granted, i)
  {
    var b0 := Create(rate, capacity, start);
    var (b, granted) := Run(b0, rs);
    TokensAreLeastHeadroom(rate, capacity, start, rs);
    WindowBoundFrom(b0, b, start, rs, granted, i);
  }

  lemma WindowBoundFrom(b0: Bucket, b: Bucket, start: real, rs: seq<Request>, granted: seq<int>, i: nat)
    requires LeastHeadroom(b0, b, start, rs, granted) && 0 < i <= |rs|
    ensures WithinWindow(b0.rate, b0.capacity, rs, granted, i)
  {
    assert b.tokens <= Headroom(b0, start, rs, granted, i, b.lastRefill);
    ProducedBetween(b0.rate, rs[i - 1].time, rs[|rs| - 1].time);
  }

  /** A call of size `n` at `t`, after a trace, leaves the tokens between 0 and the capacity. */
  predicate StaysWithin(rate: real, capacity: int, start: real, rs: seq<Request>, n: int, t: real) {
    0.0 <= Allow(Run(Create(rate, capacity, start), rs).0, n, t).0.tokens <= capacity as real
  }

  /** The call may follow the trace. */
  predicate Follows(start: real, rs: seq<Request>, t: real) {
    Orderly(start, rs) && start <= t && forall i :: 0 <= i < |rs| ==> rs[i].time <= t
  }

  lemma NonNegativeStaysWithin(rate: real, capacity: int, start: real, rs: seq<Request>, n: int, t: real)
    requires rate >= 0.0 && capacity >= 0 && n >= 0 && Follows(start, rs, t)
    ensures StaysWithin(rate, capacity, start, rs, n, t)
  {
    var all := rs + [Request(n, t)];
    assert all[..|rs|] == rs;
    TokensAreLeastHeadroom(rate, capacity, start, all);
  }

  /** A negative request is always admitted, and lifts the tokens of a full bucket above the capacity. */
  lemma NegativeRequestOverfills(rate: real, capacity: int, start: real, n: int)
    requires capacity >= 0 && n < 0
    ensures var (b, ok) := Allow(Create(rate, capacity, start), n, start); ok && b.tokens > b.capacity
  {
  }

  /** The bounds hold after every trace exactly for requests of at least 0. */
  lemma WithinBoundsIffNonNegative(rate: real, capacity: int, start: real, n: int)
    requires rate >= 0.0 && capacity >= 0
    ensures (forall rs, t :: Follows(start, rs, t) ==> StaysWithin(rate, capacity, start, rs, n, t)) <==> n >= 0
  {
    if n >= 0 {
      forall rs, t | Follows(start, rs, t) ensures StaysWithin(rate, capacity, start, rs, n, t) {
        NonNegativeStaysWithin(rate, capacity, start, rs, n, t);
      }
    } else {
      NegativeRequestOverfills(rate, capacity, start, n);
      assert Follows(start, [], start) && !StaysWithin(rate, capacity, start, [], n, start);
    }
  }
}
