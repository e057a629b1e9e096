/** The timer contract that the simulated clock relies on, and the ideal grid of deadlines
    against which its firings are measured.

    A timer is a period and the instant of its next call.  It is ready once that instant is
    not after the clock.  Calling it moves the instant on by one period; when the result is
    still behind the clock, whole periods are skipped. */
module Timers {

  datatype TimerState = Timer(period: int, next: int)

  /** A timer whose period is positive. */
  type Timer = t: TimerState | t.period > 0 witness Timer(1, 0)

  predicate IsReady(t: Timer, now: int) {
    t.next <= now
  }

  /** Skips whole periods until the instant is not behind the clock. */
  function CatchUp(due: int, period: int, now: int): int
    requires period > 0
    decreases now - due
  {
    if due >= now then due else CatchUp(due + period, period, now)
  }

  function Call(t: Timer, now: int): Timer {
    t.(next := CatchUp(t.next + t.period, t.period, now))
  }

  /** The deadlines next, next + period, ... up to and including limit, in order. */
  function Grid(next: int, period: int, limit: int): seq<int>
    requires period > 0
    decreases limit - next
  {
    if next > limit then [] else [next] + Grid(next + period, period, limit)
  }

  /** The same progression cut to the half-open window (lo, hi]. */
  function GridWithin(next: int, period: int, lo: int, hi: int): seq<int>
    requires period > 0
    decreases hi - next
  {
    if next > hi then []
    else (if next > lo then [next] else []) + GridWithin(next + period, period, lo, hi)
  }

  /** The timer once every deadline up to limit has been served. */
  function Served(t: Timer, limit: int): Timer {
    t.(next := t.next + t.period * |Grid(t.next, t.period, limit)|)
  }

  /** A grid has floor((limit - next) / period) + 1 points, evenly spaced from next. */
  lemma {:induction false} GridShape(next: int, period: int, limit: int)
    requires period > 0
    ensures var g := Grid(next, period, limit);
            && |g| == (if next > limit then 0 else (limit - next) / period + 1)
            && forall k :: 0 <= k < |g| ==> g[k] == next + k * period
    decreases limit - next
  {
    if next <= limit {
      var rest := Grid(next + period, period, limit);
      GridShape(next + period, period, limit);
      if next + period > limit {
        assert (limit - next) / period == 0;
      } else {
        QuotientStep(limit - next, period);
      }
      forall k | 0 <= k < |rest| + 1
        ensures Grid(next, period, limit)[k] == next + k * period
      {
        if k > 0 {
          assert Grid(next, period, limit)[k] == rest[k - 1] == next + period + (k - 1) * period;
        }
      }
    }
  }

  lemma QuotientStep(a: int, p: int)
    requires p > 0 && a >= p
    ensures a / p == (a - p) / p + 1
  {
    var q := (a - p) / p;
    var r := (a - p) % p;
    assert a == (q + 1) * p + r;
    QuotientUnique(a, p, q + 1, r);
  }

  lemma QuotientUnique(a: int, p: int, q: int, r: int)
    requires p > 0 && 0 <= r < p && a == q * p + r
    ensures a / p == q
  {
    var d := a / p - q;
    assert d * p == r - a % p;
    assert d >= 1 ==> d * p >= p;
    assert d <= -1 ==> d * p <= -p;
  }

  /** Serving up to a and then up to b is serving up to b. */
  lemma {:induction false} GridSplit(t: Timer, a: int, b: int)
    requires a <= b
    ensures Grid(t.next, t.period, b) == Grid(t.next, t.period, a) + Grid(Served(t, a).next, t.period, b)
    ensures Served(Served(t, a), b) == Served(t, b)
    decreases a - t.next
  {
    if t.next <= a {
      var u := t.(next := t.next + t.period);
      GridSplit(u, a, b);
      ServedStep(t, a);
      ServedStep(t, b);
      assert Served(u, a) == Served(t, a);
    }
  }

  lemma ServedStep(t: Timer, limit: int)
    requires t.next <= limit
    ensures Served(t, limit) == Served(t.(next := t.next + t.period), limit)
  {
    var n := |Grid(t.next + t.period, t.period, limit)|;
    assert t.period * (n + 1) == t.period * n + t.period;
  }

  /** Serving up to limit leaves the next call strictly after limit, and within one period of
      it unless it was further away already. */
  lemma {:induction false} ServedPhase(t: Timer, limit: int)
    ensures Served(t, limit).next > limit
    ensures t.next <= limit + t.period ==> Served(t, limit).next <= limit + t.period
    decreases limit - t.next
  {
    if t.next <= limit {
      ServedStep(t, limit);
      ServedPhase(t.(next := t.next + t.period), limit);
    }
  }

  /** A window that opens before the first deadline cuts nothing off. */
  lemma {:induction false} GridWithinAll(next: int, period: int, lo: int, hi: int)
    requires period > 0 && lo < next
    ensures GridWithin(next, period, lo, hi) == Grid(next, period, hi)
    decreases hi - next
  {
    if next <= hi {
      GridWithinAll(next + period, period, lo, hi);
    }
  }

  /** Every point of a cut grid lies in its window. */
  lemma {:induction false} GridWithinWindow(next: int, period: int, lo: int, hi: int)
    requires period > 0
    ensures forall x :: x in GridWithin(next, period, lo, hi) ==> lo < x <= hi
    decreases hi - next
  {
    if next <= hi {
      GridWithinWindow(next + period, period, lo, hi);
    }
  }

  lemma {:induction false} EmptyWindow(next: int, period: int, at: int)
    requires period > 0
    ensures GridWithin(next, period, at, at) == []
    decreases at - next
  {
    if next <= at {
      EmptyWindow(next + period, period, at);
    }
  }

  /** Skipping ends at the first point of the timer's grid that is not behind the clock. */
  lemma {:induction false} CatchUpIsFirst(due: int, period: int, now: int) returns (k: nat)
    requires period > 0
    ensures CatchUp(due, period, now) == due + k * period
    ensures now <= CatchUp(due, period, now)
    ensures k > 0 ==> CatchUp(due, period, now) < now + period
    decreases now - due
  {
    if due >= now {
      k := 0;
    } else {
      var j := CatchUpIsFirst(due + period, period, now);
      k := j + 1;
      assert (j + 1) * period == j * period + period;
    }
  }
}
