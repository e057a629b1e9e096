/** What the stepping clock guarantees: coarse steps of the smallest period give every timer
    exactly the firings of an ideal periodic timer, however the advance is split. */
module ClockTheorems {
  import opened Timers
  import opened Registry
  import opened TestClock

  /** The deadlines that a trace serves for one timer, in order. */
  function DeadlinesOf(trace: seq<Firing>, id: EntityId): seq<int> {
    if trace == [] then []
    else DeadlinesOf(trace[..|trace| - 1], id) +
         if trace[|trace| - 1].timer == id then [trace[|trace| - 1].deadline] else []
  }

  lemma {:induction false} DeadlinesOfConcat(a: seq<Firing>, b: seq<Firing>, id: EntityId)
    ensures DeadlinesOf(a + b, id) == DeadlinesOf(a, id) + DeadlinesOf(b, id)
  {
    if b == [] {
      assert a + b == a;
    } else {
      var init := b[..|b| - 1];
      assert (a + b)[..|a + b| - 1] == a + init;
      DeadlinesOfConcat(a, init, id);
    }
  }

  lemma DeadlinesOfSnoc(a: seq<Firing>, f: Firing, id: EntityId)
    ensures DeadlinesOf(a + [f], id) == DeadlinesOf(a, id) + if f.timer == id then [f.deadline] else []
  {
    assert (a + [f])[..|a|] == a;
  }

  // ----- One firing pass -----

  /** A timer that is not among the first n is not touched by them. */
  lemma {:induction false} PassMisses(ids: seq<EntityId>, n: nat, now: int, store: Store, id: EntityId)
    requires n <= |ids| && Known(ids, store) && id in store
    requires forall i :: 0 <= i < n ==> ids[i] != id
    ensures var p := FirePass(ids, n, now, store);
            p.store[id] == store[id] && DeadlinesOf(p.fired, id) == []
  {
    if n > 0 {
      PassMisses(ids, n - 1, now, store, id);
      var before, u := FirePass(ids, n - 1, now, store), ids[n - 1];
      DeadlinesOfSnoc(before.fired, Firing(u, n - 1, before.store[u].next, now), id);
    }
  }

  /** A listed timer fires exactly when it is ready, and once. */
  lemma {:induction false} PassHits(ids: seq<EntityId>, n: nat, now: int, store: Store, j: nat)
    requires j < n <= |ids| && Known(ids, store) && Distinct(ids)
    ensures var p, id := FirePass(ids, n, now, store), ids[j];
            var fires := IsReady(store[id], now);
            && p.store[id] == (if fires then Call(store[id], now) else store[id])
            && DeadlinesOf(p.fired, id) == (if fires then [store[id].next] else [])
  {
    var id, before, u := ids[j], FirePass(ids, n - 1, now, store), ids[n - 1];
    if j == n - 1 {
      PassMisses(ids, j, now, store, id);
    } else {
      PassHits(ids, n - 1, now, store, j);
    }
    DeadlinesOfSnoc(before.fired, Firing(u, n - 1, before.store[u].next, now), id);
  }

  lemma {:induction false} CatchUpNotBefore(due: int, period: int, now: int)
    requires period > 0
    ensures CatchUp(due, period, now) >= due
    decreases now - due
  {
    if due < now {
      CatchUpNotBefore(due + period, period, now);
    }
  }

  lemma {:induction false} PassNotBefore(ids: seq<EntityId>, n: nat, now: int, store: Store, id: EntityId)
    requires n <= |ids| && Known(ids, store) && id in store
    ensures FirePass(ids, n, now, store).store[id].next >= store[id].next
  {
    if n > 0 {
      PassNotBefore(ids, n - 1, now, store, id);
      var t := FirePass(ids, n - 1, now, store).store[ids[n - 1]];
      CatchUpNotBefore(t.next + t.period, t.period, now);
    }
  }

  /** A firing of the pass at `now` for a deadline that the timer had ahead of it before. */
  predicate ServesFrom(f: Firing, ids: seq<EntityId>, store: Store, now: int) {
    && f.rank < |ids| && f.timer == ids[f.rank] && f.timer in store
    && store[f.timer].next <= f.deadline <= now == f.at
  }

  ghost predicate InListOrder(fired: seq<Firing>, n: nat, ids: seq<EntityId>, store: Store, now: int) {
    && (forall i :: 0 <= i < |fired| ==> ServesFrom(fired[i], ids, store, now) && fired[i].rank < n)
    && (forall i, j :: 0 <= i < j < |fired| ==> fired[i].rank < fired[j].rank)
  }

  lemma OneMoreInOrder(fired: seq<Firing>, f: Firing, n: nat, ids: seq<EntityId>, store: Store, now: int)
    requires n > 0 && InListOrder(fired, n - 1, ids, store, now) && f.rank == n - 1 && ServesFrom(f, ids, store, now)
    ensures InListOrder(fired + [f], n, ids, store, now)
  {
  }

  /** The firings of a pass happen at its clock time, serve deadlines not after it, and follow
      the order of the list. */
  lemma {:induction false} PassOrder(ids: seq<EntityId>, n: nat, now: int, store: Store)
    requires n <= |ids| && Known(ids, store)
    ensures InListOrder(FirePass(ids, n, now, store).fired, n, ids, store, now)
  {
    if n > 0 {
      PassOrder(ids, n - 1, now, store);
      PassNotBefore(ids, n - 1, now, store, ids[n - 1]);
      var before := FirePass(ids, n - 1, now, store);
      var f := Firing(ids[n - 1], n - 1, before.store[ids[n - 1]].next, now);
      if f.deadline <= now {
        OneMoreInOrder(before.fired, f, n, ids, store, now);
      }
    }
  }

  // ----- Phase -----

  /** The timer is not overdue; `InPhase` adds that its next call is at most a period away. */
  predicate NotOverdue(t: Timer, now: int) {
    now < t.next
  }

  predicate InPhase(t: Timer, now: int) {
    now < t.next <= now + t.period
  }

  lemma PassPerTimer(ids: seq<EntityId>, now: int, store: Store, id: EntityId)
    requires Known(ids, store) && Distinct(ids) && id in store
    ensures var p := FirePass(ids, |ids|, now, store);
            var fires := id in ids && IsReady(store[id], now);
            && p.store[id] == (if fires then Call(store[id], now) else store[id])
            && DeadlinesOf(p.fired, id) == (if fires then [store[id].next] else [])
  {
    if id in ids {
      var j :| 0 <= j < |ids| && ids[j] == id;
      PassHits(ids, |ids|, now, store, j);
    } else {
      PassMisses(ids, |ids|, now, store, id);
    }
  }

  /** What one round does to one timer: it fires if listed and ready, once, and nothing else
      about the list matters. */
  lemma StepPerTimer(s: Sim, ids: seq<EntityId>, step: int, id: EntityId)
    requires Known(ids, s.store) && Distinct(ids) && id in s.store
    ensures var t, r := s.store[id], Step(s, ids, step);
            var fires := id in ids && IsReady(t, r.now);
            && r.now == s.now + step
            && r.store[id] == (if fires then Call(t, r.now) else t)
            && DeadlinesOf(r.trace, id) == DeadlinesOf(s.trace, id) + (if fires then [t.next] else [])
  {
    PassPerTimer(ids, s.now + step, s.store, id);
    DeadlinesOfConcat(s.trace, FirePass(ids, |ids|, s.now + step, s.store).fired, id);
  }

  /** A step no longer than the period keeps a timer not overdue (and in phase), makes it due at
      most once, and never uses the branch of Call that skips periods. */
  lemma StepKeepsPhase(s: Sim, ids: seq<EntityId>, step: int, id: EntityId)
    requires Known(ids, s.store) && Distinct(ids) && id in ids
    requires NotOverdue(s.store[id], s.now) && 0 <= step <= s.store[id].period
    ensures var t, r := s.store[id], Step(s, ids, step);
            && r.now == s.now + step
            && NotOverdue(r.store[id], r.now)
            && (InPhase(t, s.now) ==> InPhase(r.store[id], r.now))
            && r.store[id] == (if IsReady(t, r.now) then t.(next := t.next + t.period) else t)
            && r.store[id] == Served(t, r.now)
            && DeadlinesOf(r.trace, id) == DeadlinesOf(s.trace, id) + Grid(t.next, t.period, r.now)
  {
    StepPerTimer(s, ids, step, id);
    var t, now := s.store[id], s.now + step;
    if IsReady(t, now) {
      assert Grid(t.next + t.period, t.period, now) == [];
      assert Grid(t.next, t.period, now) == [t.next];
      assert t.period * 1 == t.period;
    }
  }

  // ----- A whole advance -----

  /** Between s and r the timer was served exactly its own grid up to the later clock. */
  ghost predicate ServedExactly(s: Sim, r: Sim, id: EntityId)
    requires id in s.store && id in r.store
  {
    var t := s.store[id];
    && r.store[id] == Served(t, r.now)
    && DeadlinesOf(r.trace, id) == DeadlinesOf(s.trace, id) + Grid(t.next, t.period, r.now)
  }

  lemma ServedExactlyCompose(s: Sim, mid: Sim, r: Sim, id: EntityId)
    requires id in s.store && id in mid.store && id in r.store
    requires ServedExactly(s, mid, id) && ServedExactly(mid, r, id) && mid.now <= r.now
    ensures ServedExactly(s, r, id)
  {
    var t := s.store[id];
    GridSplit(t, mid.now, r.now);
    Reassociate(DeadlinesOf(s.trace, id), Grid(t.next, t.period, mid.now), Grid(mid.store[id].next, t.period, r.now));
  }

  lemma Reassociate(a: seq<int>, b: seq<int>, c: seq<int>)
    ensures a + b + c == a + (b + c)
  {
  }

  /** Exact firings: from a timer that is not overdue, an advance by d serves exactly the
      timer's own grid up to now + d, whatever the other timers are. */
  lemma {:induction false} StepsExact(s: Sim, ids: seq<EntityId>, m: int, d: int, id: EntityId)
    requires Known(ids, s.store) && Distinct(ids) && id in ids
    requires 0 < m <= s.store[id].period && d >= 0
    requires NotOverdue(s.store[id], s.now)
    ensures Steps(s, ids, m, d).now == s.now + d
    ensures ServedExactly(s, Steps(s, ids, m, d), id)
    decreases d
  {
    if d > 0 {
      var step := Min(m, d);
      StepKeepsPhase(s, ids, step, id);
      StepsExact(Step(s, ids, step), ids, m, d - step, id);
      ServedExactlyCompose(s, Step(s, ids, step), Steps(s, ids, m, d), id);
    }
  }

  /** The same for a whole advance, with the phase that it leaves: never overdue, and within one
      period if it was so before. */
  lemma AdvanceExact(s: Sim, ids: seq<EntityId>, d: int, id: EntityId)
    requires Known(ids, s.store) && Distinct(ids) && id in ids && d >= 0
    requires NotOverdue(s.store[id], s.now)
    ensures var t, r := s.store[id], Advanced(s, ids, d);
            && r.now == s.now + d
            && ServedExactly(s, r, id)
            && NotOverdue(r.store[id], r.now)
            && (InPhase(t, s.now) ==> InPhase(r.store[id], r.now))
  {
    MinPeriodPositive(ids, s.store);
    StepsExact(s, ids, MinPeriod(ids, s.store), d, id);
    ServedPhase(s.store[id], s.now + d);
  }

  /** The number of firings, as a formula: floor((now + d - next) / period) + 1, or none. */
  lemma FiringCount(s: Sim, ids: seq<EntityId>, d: int, id: EntityId)
    requires Known(ids, s.store) && Distinct(ids) && id in ids && d >= 0
    requires NotOverdue(s.store[id], s.now)
    ensures var t, r := s.store[id], Advanced(s, ids, d);
            var count := if t.next > s.now + d then 0 else (s.now + d - t.next) / t.period + 1;
            && r.store[id] == t.(next := t.next + t.period * count)
            && |DeadlinesOf(r.trace, id)| == |DeadlinesOf(s.trace, id)| + count
            && forall k :: 0 <= k < count ==>
                 DeadlinesOf(r.trace, id)[|DeadlinesOf(s.trace, id)| + k] == t.next + k * t.period
  {
    var t := s.store[id];
    AdvanceExact(s, ids, d, id);
    GridShape(t.next, t.period, s.now + d);
  }

  ghost predicate Unserved(s: Sim, r: Sim, id: EntityId)
    requires id in s.store && id in r.store
  {
    r.store[id] == s.store[id] && DeadlinesOf(r.trace, id) == DeadlinesOf(s.trace, id)
  }

  /** Timers outside the list are untouched and do not fire. */
  lemma {:induction false} StepsFrame(s: Sim, ids: seq<EntityId>, m: int, d: int, id: EntityId)
    requires Known(ids, s.store) && Distinct(ids) && id in s.store && id !in ids && m > 0
    ensures Unserved(s, Steps(s, ids, m, d), id)
    decreases d
  {
    if d > 0 {
      var step := Min(m, d);
      StepPerTimer(s, ids, step, id);
      StepsFrame(Step(s, ids, step), ids, m, d - step, id);
    }
  }

  lemma AdvanceFrame(s: Sim, ids: seq<EntityId>, d: int, id: EntityId)
    requires Known(ids, s.store) && Distinct(ids) && id in s.store && id !in ids
    ensures Unserved(s, Advanced(s, ids, d), id)
  {
    if ids != [] {
      MinPeriodPositive(ids, s.store);
      StepsFrame(s, ids, MinPeriod(ids, s.store), d, id);
    }
  }

  /** The firings that one round adds to the trace, all of listed timers. */
  function FiredIn(s: Sim, ids: seq<EntityId>, step: int): seq<Firing>
    requires Known(ids, s.store)
  {
    FirePass(ids, |ids|, s.now + step, s.store).fired
  }

  lemma {:induction false} PassFiresOnlyListed(ids: seq<EntityId>, n: nat, now: int, store: Store)
    requires n <= |ids| && Known(ids, store)
    ensures forall i :: 0 <= i < |FirePass(ids, n, now, store).fired| ==> FirePass(ids, n, now, store).fired[i].timer in ids
  {
    if n > 0 {
      PassFiresOnlyListed(ids, n - 1, now, store);
    }
  }

  /** An advance only appends to the trace, and only firings of listed timers. */
  lemma {:induction false} StepsFireOnlyListed(s: Sim, ids: seq<EntityId>, m: int, d: int) returns (fired: seq<Firing>)
    requires Known(ids, s.store) && m > 0
    ensures Steps(s, ids, m, d).trace == s.trace + fired
    ensures forall i :: 0 <= i < |fired| ==> fired[i].timer in ids
    decreases d
  {
    if d <= 0 {
      fired := [];
    } else {
      var step := Min(m, d);
      var first := FiredIn(s, ids, step);
      PassFiresOnlyListed(ids, |ids|, s.now + step, s.store);
      var rest := StepsFireOnlyListed(Step(s, ids, step), ids, m, d - step);
      fired := first + rest;
      assert s.trace + fired == s.trace + first + rest;
    }
  }

  lemma AdvanceFiresOnlyListed(s: Sim, ids: seq<EntityId>, d: int) returns (fired: seq<Firing>)
    requires Known(ids, s.store)
    ensures Advanced(s, ids, d).trace == s.trace + fired
    ensures forall i :: 0 <= i < |fired| ==> fired[i].timer in ids
  {
    if ids == [] {
      fired := [];
    } else {
      MinPeriodPositive(ids, s.store);
      fired := StepsFireOnlyListed(s, ids, MinPeriod(ids, s.store), d);
    }
  }

  /** The exact condition: a positive advance gives a listed timer precisely the points of its
      own grid in (now, now + d] if and only if the timer is not overdue when it starts. */
  lemma ExactIffNotOverdue(s: Sim, ids: seq<EntityId>, d: int, id: EntityId)
    requires Known(ids, s.store) && Distinct(ids) && id in ids && d > 0
    ensures var t := s.store[id];
            DeadlinesOf(Advanced(s, ids, d).trace, id)
            == DeadlinesOf(s.trace, id) + GridWithin(t.next, t.period, s.now, s.now + d)
            <==> NotOverdue(t, s.now)
  {
    var t, m := s.store[id], MinPeriod(ids, s.store);
    MinPeriodPositive(ids, s.store);
    if NotOverdue(t, s.now) {
      AdvanceExact(s, ids, d, id);
      GridWithinAll(t.next, t.period, s.now, s.now + d);
    } else {
      OverdueFiresFirst(s, ids, m, d, id);
      GridWithinWindow(t.next, t.period, s.now, s.now + d);
      NotAPrefix(DeadlinesOf(s.trace, id), t.next, GridWithin(t.next, t.period, s.now, s.now + d));
    }
  }

  lemma NotAPrefix(a: seq<int>, x: int, g: seq<int>)
    requires x !in g
    ensures !(a + [x] <= a + g)
  {
    if g != [] {
      assert (a + g)[|a|] == g[0] && (a + [x])[|a|] == x;
    }
  }

  lemma OverdueFiresFirst(s: Sim, ids: seq<EntityId>, m: int, d: int, id: EntityId)
    requires Known(ids, s.store) && Distinct(ids) && id in ids && m > 0 && d > 0
    requires s.store[id].next <= s.now
    ensures DeadlinesOf(s.trace, id) + [s.store[id].next] <= DeadlinesOf(Steps(s, ids, m, d).trace, id)
  {
    StepPerTimer(s, ids, Min(m, d), id);
    StepsAfterFiring(s, ids, m, d, id, s.store[id].next);
  }

  lemma StepsAfterFiring(s: Sim, ids: seq<EntityId>, m: int, d: int, id: EntityId, deadline: int)
    requires Known(ids, s.store) && m > 0 && d > 0
    requires DeadlinesOf(Step(s, ids, Min(m, d)).trace, id) == DeadlinesOf(s.trace, id) + [deadline]
    ensures DeadlinesOf(s.trace, id) + [deadline] <= DeadlinesOf(Steps(s, ids, m, d).trace, id)
  {
    TraceGrows(Step(s, ids, Min(m, d)), ids, m, d - Min(m, d), id);
  }

  lemma {:induction false} TraceGrows(s: Sim, ids: seq<EntityId>, m: int, d: int, id: EntityId)
    requires Known(ids, s.store) && m > 0
    ensures DeadlinesOf(s.trace, id) <= DeadlinesOf(Steps(s, ids, m, d).trace, id)
    decreases d
  {
    if d > 0 {
      var step := Min(m, d);
      var mid := Step(s, ids, step);
      DeadlinesOfConcat(s.trace, mid.trace[|s.trace|..], id);
      assert mid.trace == s.trace + mid.trace[|s.trace|..];
      TraceGrows(mid, ids, m, d - step, id);
    }
  }

  // ----- Splitting an advance -----

  /** Two outcomes that no observer of clock, timers or firings per timer can tell apart. */
  ghost predicate SameOutcome(r: Sim, q: Sim) {
    && r.now == q.now
    && r.store == q.store
    && forall id :: id in r.store ==> DeadlinesOf(r.trace, id) == DeadlinesOf(q.trace, id)
  }

  ghost predicate SameTimer(r: Sim, q: Sim, id: EntityId)
    requires id in r.store && id in q.store
  {
    r.store[id] == q.store[id] && DeadlinesOf(r.trace, id) == DeadlinesOf(q.trace, id)
  }

  lemma SplitListed(s: Sim, ids: seq<EntityId>, a: int, b: int, id: EntityId)
    requires Known(ids, s.store) && Distinct(ids) && a >= 0 && b >= 0 && id in ids
    requires NotOverdue(s.store[id], s.now)
    ensures ServedExactly(s, Advanced(Advanced(s, ids, a), ids, b), id)
    ensures ServedExactly(s, Advanced(s, ids, a + b), id)
  {
    AdvanceExact(s, ids, a, id);
    AdvanceExact(Advanced(s, ids, a), ids, b, id);
    AdvanceExact(s, ids, a + b, id);
    ServedExactlyCompose(s, Advanced(s, ids, a), Advanced(Advanced(s, ids, a), ids, b), id);
  }

  lemma SplitUnlisted(s: Sim, ids: seq<EntityId>, a: int, b: int, id: EntityId)
    requires Known(ids, s.store) && Distinct(ids) && id in s.store && id !in ids
    ensures Unserved(s, Advanced(Advanced(s, ids, a), ids, b), id)
    ensures Unserved(s, Advanced(s, ids, a + b), id)
  {
    AdvanceFrame(s, ids, a, id);
    AdvanceFrame(Advanced(s, ids, a), ids, b, id);
    AdvanceFrame(s, ids, a + b, id);
  }

  /** An overdue timer after its first call, wherever before its new instant that call was made. */
  function Recovered(t: Timer, now: int): Timer {
    t.(next := CatchUp(t.next + t.period, t.period, now + 1))
  }

  /** The timer is not overdue, or its first call takes it beyond the first step of size m. */
  predicate Harmless(t: Timer, now: int, m: int) {
    NotOverdue(t, now) || Recovered(t, now).next > now + m
  }

  lemma {:induction false} CatchUpStable(due: int, period: int, x: int, y: int)
    requires period > 0 && x <= y <= CatchUp(due, period, x)
    ensures CatchUp(due, period, y) == CatchUp(due, period, x)
    decreases x - due
  {
    if due < x {
      CatchUpStable(due + period, period, x, y);
    }
  }

  /** Between s and r the overdue timer was called for its old deadline and from there on served
      exactly the grid on which that call put it. */
  ghost predicate ServedLate(s: Sim, r: Sim, id: EntityId)
    requires id in s.store && id in r.store
  {
    var t := Recovered(s.store[id], s.now);
    && r.store[id] == Served(t, r.now)
    && DeadlinesOf(r.trace, id) == DeadlinesOf(s.trace, id) + [s.store[id].next] + Grid(t.next, t.period, r.now)
  }

  lemma StepRecovers(s: Sim, ids: seq<EntityId>, step: int, id: EntityId)
    requires Known(ids, s.store) && Distinct(ids) && id in ids && step > 0
    requires !NotOverdue(s.store[id], s.now) && Harmless(s.store[id], s.now, step)
    ensures var t, r := s.store[id], Step(s, ids, step);
            && r.now == s.now + step
            && r.store[id] == Recovered(t, s.now) && NotOverdue(r.store[id], r.now)
            && DeadlinesOf(r.trace, id) == DeadlinesOf(s.trace, id) + [t.next]
  {
    var t := s.store[id];
    StepPerTimer(s, ids, step, id);
    CatchUpStable(t.next + t.period, t.period, s.now + 1, s.now + step);
  }

  lemma RecoveredThenExactly(s: Sim, mid: Sim, r: Sim, id: EntityId)
    requires id in s.store && id in mid.store && id in r.store && ServedExactly(mid, r, id)
    requires mid.store[id] == Recovered(s.store[id], s.now)
    requires DeadlinesOf(mid.trace, id) == DeadlinesOf(s.trace, id) + [s.store[id].next]
    ensures ServedLate(s, r, id) && NotOverdue(r.store[id], r.now)
  {
    ServedPhase(mid.store[id], r.now);
  }

  lemma AdvanceRecovers(s: Sim, ids: seq<EntityId>, d: int, id: EntityId)
    requires Known(ids, s.store) && Distinct(ids) && id in ids && d > 0
    requires !NotOverdue(s.store[id], s.now) && Harmless(s.store[id], s.now, MinPeriod(ids, s.store))
    ensures Advanced(s, ids, d).now == s.now + d
    ensures ServedLate(s, Advanced(s, ids, d), id)
    ensures NotOverdue(Advanced(s, ids, d).store[id], s.now + d)
  {
    var m := MinPeriod(ids, s.store);
    MinPeriodPositive(ids, s.store);
    StepRecovers(s, ids, Min(m, d), id);
    StepsExact(Step(s, ids, Min(m, d)), ids, m, d - Min(m, d), id);
    RecoveredThenExactly(s, Step(s, ids, Min(m, d)), Steps(s, ids, m, d), id);
  }

  lemma ServedLateThenExactly(s: Sim, mid: Sim, r: Sim, id: EntityId)
    requires id in s.store && id in mid.store && id in r.store
    requires ServedLate(s, mid, id) && ServedExactly(mid, r, id) && mid.now <= r.now
    ensures ServedLate(s, r, id)
  {
    var t := Recovered(s.store[id], s.now);
    GridSplit(t, mid.now, r.now);
    Reassociate(DeadlinesOf(s.trace, id) + [s.store[id].next], Grid(t.next, t.period, mid.now),
                Grid(mid.store[id].next, t.period, r.now));
  }

  lemma SplitLate(s: Sim, ids: seq<EntityId>, a: int, b: int, id: EntityId)
    requires Known(ids, s.store) && Distinct(ids) && id in ids && a > 0 && b >= 0
    requires !NotOverdue(s.store[id], s.now) && Harmless(s.store[id], s.now, MinPeriod(ids, s.store))
    ensures ServedLate(s, Advanced(Advanced(s, ids, a), ids, b), id)
    ensures ServedLate(s, Advanced(s, ids, a + b), id)
  {
    AdvanceRecovers(s, ids, a, id);
    AdvanceExact(Advanced(s, ids, a), ids, b, id);
    AdvanceRecovers(s, ids, a + b, id);
    ServedLateThenExactly(s, Advanced(s, ids, a), Advanced(Advanced(s, ids, a), ids, b), id);
  }

  lemma SplitNow(s: Sim, ids: seq<EntityId>, a: int, b: int)
    requires Known(ids, s.store) && a >= 0 && b >= 0
    ensures Known(ids, Advanced(s, ids, a).store)
    ensures var split, whole := Advanced(Advanced(s, ids, a), ids, b), Advanced(s, ids, a + b);
            split.now == whole.now && split.store.Keys == whole.store.Keys == s.store.Keys
  {
    AdvancedNow(s, ids, a);
    AdvancedNow(Advanced(s, ids, a), ids, b);
    AdvancedNow(s, ids, a + b);
  }

  lemma SplitSameTimer(s: Sim, ids: seq<EntityId>, a: int, b: int, id: EntityId)
    requires Known(ids, s.store) && Distinct(ids) && a > 0 && b >= 0 && id in s.store
    requires id in ids ==> Harmless(s.store[id], s.now, MinPeriod(ids, s.store))
    ensures SameTimer(Advanced(Advanced(s, ids, a), ids, b), Advanced(s, ids, a + b), id)
  {
    SplitNow(s, ids, a, b);
    if id !in ids {
      SplitUnlisted(s, ids, a, b, id);
    } else if NotOverdue(s.store[id], s.now) {
      SplitListed(s, ids, a, b, id);
    } else {
      SplitLate(s, ids, a, b, id);
    }
  }

  ghost predicate SplitSame(s: Sim, ids: seq<EntityId>, a: int, b: int)
    requires Known(ids, s.store)
  {
    SameOutcome(Advanced(Advanced(s, ids, a), ids, b), Advanced(s, ids, a + b))
  }

  lemma HarmlessSplit(s: Sim, ids: seq<EntityId>, a: int, b: int)
    requires Known(ids, s.store) && Distinct(ids) && a > 0 && b >= 0
    requires forall id :: id in ids ==> Harmless(s.store[id], s.now, MinPeriod(ids, s.store))
    ensures SplitSame(s, ids, a, b)
  {
    SplitNow(s, ids, a, b);
    forall id | id in s.store
      ensures SameTimer(Advanced(Advanced(s, ids, a), ids, b), Advanced(s, ids, a + b), id)
    {
      SplitSameTimer(s, ids, a, b, id);
    }
  }

  /** An advance by nothing changes at most the override. */
  lemma SplitAtZero(s: Sim, ids: seq<EntityId>, b: int)
    requires Known(ids, s.store) && b >= 0
    ensures SplitSame(s, ids, 0, b)
  {
    if ids != [] {
      MinPeriodPositive(ids, s.store);
    }
  }

  /** Advancing by a and then by b ends in the same clock, the same timers and the same firings
      per timer as advancing by a + b, if no timer is overdue. */
  lemma SplitAdvance(s: Sim, ids: seq<EntityId>, a: int, b: int)
    requires Known(ids, s.store) && Distinct(ids) && a >= 0 && b >= 0
    requires forall id :: id in ids ==> NotOverdue(s.store[id], s.now)
    ensures SameOutcome(Advanced(Advanced(s, ids, a), ids, b), Advanced(s, ids, a + b))
  {
    if a == 0 {
      SplitAtZero(s, ids, b);
    } else {
      HarmlessSplit(s, ids, a, b);
    }
  }

  /** Steps of one nanosecond compose whatever the timers. */
  lemma {:induction false} UnitStepsCompose(s: Sim, ids: seq<EntityId>, a: int, b: int)
    requires Known(ids, s.store) && a >= 0 && b >= 0
    ensures Known(ids, Steps(s, ids, 1, a).store)
    ensures Steps(Steps(s, ids, 1, a), ids, 1, b) == Steps(s, ids, 1, a + b)
    decreases a
  {
    if a > 0 {
      UnitStepsCompose(Step(s, ids, 1), ids, a - 1, b);
    }
  }

  lemma {:induction false} StepsKeepPeriod(s: Sim, ids: seq<EntityId>, m: int, d: int, id: EntityId)
    requires Known(ids, s.store) && Distinct(ids) && id in s.store && m > 0
    ensures Steps(s, ids, m, d).store[id].period == s.store[id].period
    decreases d
  {
    if d > 0 {
      StepPerTimer(s, ids, Min(m, d), id);
      StepsKeepPeriod(Step(s, ids, Min(m, d)), ids, m, d - Min(m, d), id);
    }
  }

  lemma {:induction false} SamePeriodsSameMin(ids: seq<EntityId>, a: Store, b: Store)
    requires Known(ids, a) && Known(ids, b)
    requires forall id :: id in ids ==> a[id].period == b[id].period
    ensures MinPeriod(ids, a) == MinPeriod(ids, b)
  {
    if ids != [] {
      SamePeriodsSameMin(ids[..|ids| - 1], a, b);
    }
  }

  lemma StepsKeepMinPeriod(s: Sim, ids: seq<EntityId>, m: int, d: int)
    requires Known(ids, s.store) && Distinct(ids) && m > 0
    ensures Known(ids, Steps(s, ids, m, d).store)
    ensures MinPeriod(ids, Steps(s, ids, m, d).store) == MinPeriod(ids, s.store)
  {
    forall id | id in ids
      ensures Steps(s, ids, m, d).store[id].period == s.store[id].period
    {
      StepsKeepPeriod(s, ids, m, d, id);
    }
    SamePeriodsSameMin(ids, Steps(s, ids, m, d).store, s.store);
  }

  lemma UnitPeriodSplit(s: Sim, ids: seq<EntityId>, a: int, b: int)
    requires Known(ids, s.store) && Distinct(ids) && ids != [] && MinPeriod(ids, s.store) == 1 && a >= 0 && b >= 0
    ensures SplitSame(s, ids, a, b)
  {
    StepsKeepMinPeriod(s, ids, 1, a);
    UnitStepsCompose(s, ids, a, b);
  }

  /** An advance that fits into one step. */
  lemma OneStep(s: Sim, ids: seq<EntityId>, d: int)
    requires Known(ids, s.store) && ids != [] && 0 < d <= MinPeriod(ids, s.store)
    ensures Advanced(s, ids, d) == Step(s, ids, d)
  {
    var m := MinPeriod(ids, s.store);
    assert Min(m, d) == d;
    assert Steps(s, ids, m, d) == Steps(Step(s, ids, d), ids, m, 0);
  }

  lemma SplitInTwoSteps(s: Sim, ids: seq<EntityId>, a: int, b: int)
    requires Known(ids, s.store) && Distinct(ids) && ids != []
    requires 0 < a <= MinPeriod(ids, s.store) && 0 < b <= MinPeriod(ids, s.store)
    ensures Advanced(Advanced(s, ids, a), ids, b) == Step(Step(s, ids, a), ids, b)
  {
    OneStep(s, ids, a);
    StepsKeepMinPeriod(s, ids, MinPeriod(ids, s.store), a);
    OneStep(Step(s, ids, a), ids, b);
  }

  /** A harmful timer is called twice in advance(1); advance(m - 1), and once in advance(m). */
  lemma HarmfulSplitIsSeen(s: Sim, ids: seq<EntityId>, id: EntityId)
    requires Known(ids, s.store) && Distinct(ids) && id in ids && MinPeriod(ids, s.store) > 1
    requires !Harmless(s.store[id], s.now, MinPeriod(ids, s.store))
    ensures !SplitSame(s, ids, 1, MinPeriod(ids, s.store) - 1)
  {
    var t, m := s.store[id], MinPeriod(ids, s.store);
    OneStep(s, ids, m);
    StepPerTimer(s, ids, m, id);
    SplitInTwoSteps(s, ids, 1, m - 1);
    StepPerTimer(s, ids, 1, id);
    StepPerTimer(Step(s, ids, 1), ids, m - 1, id);
    assert |DeadlinesOf(Step(Step(s, ids, 1), ids, m - 1).trace, id)| == |DeadlinesOf(s.trace, id)| + 2;
    assert |DeadlinesOf(Step(s, ids, m).trace, id)| == |DeadlinesOf(s.trace, id)| + 1;
  }

  lemma SplitIsUnseen(s: Sim, ids: seq<EntityId>, a: int, b: int)
    requires Known(ids, s.store) && Distinct(ids) && ids != [] && a >= 0 && b >= 0
    requires var m := MinPeriod(ids, s.store);
             m == 1 || forall id :: id in ids ==> Harmless(s.store[id], s.now, m)
    ensures SplitSame(s, ids, a, b)
  {
    if MinPeriod(ids, s.store) == 1 {
      UnitPeriodSplit(s, ids, a, b);
    } else if a == 0 {
      SplitAtZero(s, ids, b);
    } else {
      HarmlessSplit(s, ids, a, b);
    }
  }

  /** The exact condition for any list of timers: every split of every advance is unobservable if
      and only if the smallest period is a single nanosecond, or each timer is not overdue or
      catches up beyond now + smallest period with its first call. */
  lemma SplitUnseenIff(s: Sim, ids: seq<EntityId>)
    requires Known(ids, s.store) && Distinct(ids) && ids != []
    ensures var m := MinPeriod(ids, s.store);
            (forall a, b :: a >= 0 && b >= 0 ==> SplitSame(s, ids, a, b))
            <==> m == 1 || forall id :: id in ids ==> Harmless(s.store[id], s.now, m)
  {
    var m := MinPeriod(ids, s.store);
    if m == 1 || forall id :: id in ids ==> Harmless(s.store[id], s.now, m) {
      forall a, b | a >= 0 && b >= 0
        ensures SplitSame(s, ids, a, b)
      {
        SplitIsUnseen(s, ids, a, b);
      }
    } else {
      MinPeriodPositive(ids, s.store);
      var id :| id in ids && !Harmless(s.store[id], s.now, m);
      HarmfulSplitIsSeen(s, ids, id);
    }
  }

  /** The instants at which callbacks run may differ between the two: with one timer of period
      10 first due at 5, an advance by 10 fires it at 10, two advances by 5 fire it at 5. */
  lemma SplitInstantsMayDiffer()
    ensures var s := Sim(0, 0, [0], map[7 := Timer(10, 5)], []);
            && Advanced(s, [7], 10).trace == [Firing(7, 0, 5, 10)]
            && Advanced(Advanced(s, [7], 5), [7], 5).trace == [Firing(7, 0, 5, 5)]
  {
    var s := Sim(0, 0, [0], map[7 := Timer(10, 5)], []);
    MinPeriodOne(7, s.store);
    var half := Step(s, [7], 5);
    assert FirePass([7], 1, 5, s.store) == Pass(map[7 := Timer(10, 15)], [Firing(7, 0, 5, 5)]);
    assert Advanced(s, [7], 5) == half;
    MinPeriodOne(7, half.store);
    assert FirePass([7], 1, 10, half.store) == Pass(half.store, []);
    assert Advanced(half, [7], 5) == Step(half, [7], 5);
    assert FirePass([7], 1, 10, s.store) == Pass(map[7 := Timer(10, 15)], [Firing(7, 0, 5, 10)]);
    assert Advanced(s, [7], 10) == Step(s, [7], 10);
  }

  lemma MinPeriodOne(id: EntityId, store: Store)
    requires id in store && store[id].period <= INT64_MAX
    ensures MinPeriod([id], store) == store[id].period
  {
    assert [id][..0] == [];
    assert MinPeriod([], store) == INT64_MAX;
  }

  // ----- Lateness and order -----

  /** Strictly before: earlier clock time, or same time and earlier in the list. */
  predicate Precedes(f: Firing, g: Firing) {
    f.at < g.at || (f.at == g.at && f.rank < g.rank)
  }

  ghost predicate Ordered(trace: seq<Firing>) {
    forall i, j :: 0 <= i < j < |trace| ==> Precedes(trace[i], trace[j])
  }

  lemma RoundInOrder(s: Sim, ids: seq<EntityId>, step: int)
    requires Known(ids, s.store)
    ensures var fired := FiredIn(s, ids, step);
            && Step(s, ids, step).trace == s.trace + fired
            && Ordered(fired)
            && forall i :: 0 <= i < |fired| ==> ServesFrom(fired[i], ids, s.store, s.now + step)
  {
    PassOrder(ids, |ids|, s.now + step, s.store);
    var fired := FiredIn(s, ids, step);
    assert fired == FirePass(ids, |ids|, s.now + step, s.store).fired;
    forall i | 0 <= i < |fired|
      ensures ServesFrom(fired[i], ids, s.store, s.now + step)
    {
    }
  }

  lemma OrderedConcat(a: seq<Firing>, b: seq<Firing>)
    requires Ordered(a) && Ordered(b)
    requires forall i, j :: 0 <= i < |a| && 0 <= j < |b| ==> a[i].at < b[j].at
    ensures Ordered(a + b)
  {
    forall i, j | 0 <= i < j < |a + b|
      ensures Precedes((a + b)[i], (a + b)[j])
    {
      if i < |a| <= j {
        assert a[i].at < b[j - |a|].at;
      } else if i >= |a| {
        assert Precedes(b[i - |a|], b[j - |a|]);
      }
    }
  }

  /** The callbacks of an advance are strictly sorted by (time, list order) and run inside it. */
  lemma {:induction false} StepsInOrder(s: Sim, ids: seq<EntityId>, m: int, d: int) returns (fired: seq<Firing>)
    requires Known(ids, s.store) && m > 0 && d >= 0
    ensures Steps(s, ids, m, d).trace == s.trace + fired
    ensures Ordered(fired)
    ensures forall i :: 0 <= i < |fired| ==> s.now < fired[i].at <= s.now + d
    decreases d
  {
    if d == 0 {
      fired := [];
    } else {
      var step := Min(m, d);
      var first := FiredIn(s, ids, step);
      RoundInOrder(s, ids, step);
      forall i | 0 <= i < |first|
        ensures first[i].at == s.now + step
      {
        assert ServesFrom(first[i], ids, s.store, s.now + step);
      }
      var rest := StepsInOrder(Step(s, ids, step), ids, m, d - step);
      OrderedConcat(first, rest);
      fired := first + rest;
      assert s.trace + fired == s.trace + first + rest;
    }
  }

  /** The same for a whole advance. */
  lemma AdvanceInOrder(s: Sim, ids: seq<EntityId>, d: int) returns (fired: seq<Firing>)
    requires Known(ids, s.store) && d >= 0
    ensures Advanced(s, ids, d).trace == s.trace + fired
    ensures Ordered(fired)
    ensures forall i :: 0 <= i < |fired| ==> s.now < fired[i].at <= s.now + d
  {
    if ids == [] {
      fired := [];
    } else {
      MinPeriodPositive(ids, s.store);
      fired := StepsInOrder(s, ids, MinPeriod(ids, s.store), d);
    }
  }

  /** A callback that runs at or after its deadline, but less than m after it. */
  predicate Prompt(f: Firing, m: int) {
    f.deadline <= f.at < f.deadline + m
  }

  ghost predicate AllPrompt(trace: seq<Firing>, from: nat, m: int) {
    forall i :: from <= i < |trace| ==> Prompt(trace[i], m)
  }

  /** Timers that the first round finds less than m late are served promptly throughout. */
  lemma {:induction false} PromptFromFirstRound(s: Sim, ids: seq<EntityId>, m: int, d: int)
    requires Known(ids, s.store) && Distinct(ids) && m > 0 && d >= 0
    requires forall id :: id in ids ==> s.store[id].next > s.now + Min(m, d) - m && m <= s.store[id].period
    ensures |s.trace| <= |Steps(s, ids, m, d).trace| && AllPrompt(Steps(s, ids, m, d).trace, |s.trace|, m)
    decreases d
  {
    if d > 0 {
      var step := Min(m, d);
      RoundIsPrompt(s, ids, m, step);
      RoundLeavesNotOverdue(s, ids, m, step);
      PromptFromFirstRound(Step(s, ids, step), ids, m, d - step);
      PromptJoins(s, ids, m, d);
    }
  }

  /** One round from timers that are less than m late by the end of it. */
  lemma RoundIsPrompt(s: Sim, ids: seq<EntityId>, m: int, step: int)
    requires Known(ids, s.store)
    requires forall id :: id in ids ==> s.store[id].next > s.now + step - m
    ensures |s.trace| <= |Step(s, ids, step).trace| && AllPrompt(Step(s, ids, step).trace, |s.trace|, m)
  {
    RoundInOrder(s, ids, step);
    var fired := FiredIn(s, ids, step);
    forall i | 0 <= i < |fired|
      ensures Prompt(fired[i], m)
    {
      assert ServesFrom(fired[i], ids, s.store, s.now + step);
    }
  }

  /** Such a round leaves no timer overdue. */
  lemma RoundLeavesNotOverdue(s: Sim, ids: seq<EntityId>, m: int, step: int)
    requires Known(ids, s.store) && Distinct(ids) && 0 < m
    requires forall id :: id in ids ==> s.store[id].next > s.now + step - m && m <= s.store[id].period
    ensures Known(ids, Step(s, ids, step).store)
    ensures var r := Step(s, ids, step);
            forall id :: id in ids ==> NotOverdue(r.store[id], r.now) && m <= r.store[id].period
  {
    forall id | id in ids
      ensures NotOverdue(Step(s, ids, step).store[id], s.now + step) && m <= Step(s, ids, step).store[id].period
    {
      StepPerTimer(s, ids, step, id);
    }
  }

  lemma PromptJoins(s: Sim, ids: seq<EntityId>, m: int, d: int)
    requires Known(ids, s.store) && m > 0 && d > 0
    requires var mid := Step(s, ids, Min(m, d));
             && |s.trace| <= |mid.trace| && AllPrompt(mid.trace, |s.trace|, m)
             && |mid.trace| <= |Steps(s, ids, m, d).trace| && AllPrompt(Steps(s, ids, m, d).trace, |mid.trace|, m)
    ensures |s.trace| <= |Steps(s, ids, m, d).trace| && AllPrompt(Steps(s, ids, m, d).trace, |s.trace|, m)
  {
    var rest := StepsFireOnlyListed(Step(s, ids, Min(m, d)), ids, m, d - Min(m, d));
    var mid, r := Step(s, ids, Min(m, d)), Steps(s, ids, m, d);
    assert r.trace == mid.trace + rest;
    forall i | |s.trace| <= i < |r.trace|
      ensures Prompt(r.trace[i], m)
    {
      assert i < |mid.trace| ==> r.trace[i] == mid.trace[i];
    }
  }

  lemma {:induction false} ServedSomewhere(trace: seq<Firing>, id: EntityId, deadline: int)
    requires deadline in DeadlinesOf(trace, id)
    ensures exists i :: 0 <= i < |trace| && trace[i].timer == id && trace[i].deadline == deadline
  {
    var init, f := trace[..|trace| - 1], trace[|trace| - 1];
    if f.timer == id && f.deadline == deadline {
      assert trace[|trace| - 1] == f;
    } else {
      ServedSomewhere(init, id, deadline);
      var i :| 0 <= i < |init| && init[i].timer == id && init[i].deadline == deadline;
      assert trace[i] == init[i];
    }
  }

  /** A ready timer's call is among those of the round. */
  lemma ReadyTimerFires(s: Sim, ids: seq<EntityId>, step: int, id: EntityId) returns (i: nat)
    requires Known(ids, s.store) && Distinct(ids) && id in ids && s.store[id].next <= s.now + step
    ensures i < |FiredIn(s, ids, step)|
    ensures FiredIn(s, ids, step)[i].deadline == s.store[id].next && FiredIn(s, ids, step)[i].at == s.now + step
  {
    var j :| 0 <= j < |ids| && ids[j] == id;
    PassHits(ids, |ids|, s.now + step, s.store, j);
    assert [s.store[id].next][0] in DeadlinesOf(FiredIn(s, ids, step), id);
    ServedSomewhere(FiredIn(s, ids, step), id, s.store[id].next);
    i :| 0 <= i < |FiredIn(s, ids, step)| && FiredIn(s, ids, step)[i].timer == id
         && FiredIn(s, ids, step)[i].deadline == s.store[id].next;
    RoundInOrder(s, ids, step);
    assert ServesFrom(FiredIn(s, ids, step)[i], ids, s.store, s.now + step);
  }

  /** The calls of the first round follow the old trace. */
  lemma FirstRoundInTrace(s: Sim, ids: seq<EntityId>, m: int, d: int, i: nat)
    requires Known(ids, s.store) && m > 0 && d > 0 && i < |FiredIn(s, ids, Min(m, d))|
    ensures |s.trace| + i < |Steps(s, ids, m, d).trace|
    ensures Steps(s, ids, m, d).trace[|s.trace| + i] == FiredIn(s, ids, Min(m, d))[i]
  {
    var rest := FirstRoundThenRest(s, ids, m, d);
    InTheMiddle(s.trace, FiredIn(s, ids, Min(m, d)), rest, i);
  }

  lemma FirstRoundThenRest(s: Sim, ids: seq<EntityId>, m: int, d: int) returns (rest: seq<Firing>)
    requires Known(ids, s.store) && m > 0 && d > 0
    ensures Steps(s, ids, m, d).trace == s.trace + FiredIn(s, ids, Min(m, d)) + rest
  {
    rest := StepsFireOnlyListed(Step(s, ids, Min(m, d)), ids, m, d - Min(m, d));
  }

  lemma InTheMiddle(a: seq<Firing>, b: seq<Firing>, c: seq<Firing>, i: nat)
    requires i < |b|
    ensures (a + b + c)[|a| + i] == b[i]
  {
  }

  /** A timer that is m or more late by the end of the first round is called too late in it. */
  lemma LateTimerIsLate(s: Sim, ids: seq<EntityId>, m: int, d: int, id: EntityId)
    requires Known(ids, s.store) && Distinct(ids) && m > 0 && d > 0 && id in ids
    requires s.store[id].next <= s.now + Min(m, d) - m
    ensures !AllPrompt(Steps(s, ids, m, d).trace, |s.trace|, m)
  {
    var i := ReadyTimerFires(s, ids, Min(m, d), id);
    FirstRoundInTrace(s, ids, m, d, i);
    assert !Prompt(Steps(s, ids, m, d).trace[|s.trace| + i], m);
  }

  /** Bounded lateness, exactly: all callbacks of a positive advance run less than the smallest
      period after their deadlines if and only if every timer's next call is later than one such
      period before the end of the first step; timers that are not overdue always satisfy that. */
  lemma AdvancePromptIff(s: Sim, ids: seq<EntityId>, d: int)
    requires Known(ids, s.store) && Distinct(ids) && ids != [] && d > 0
    ensures var m := MinPeriod(ids, s.store);
            AllPrompt(Advanced(s, ids, d).trace, |s.trace|, m)
            <==> forall id :: id in ids ==> s.store[id].next > s.now + Min(m, d) - m
  {
    var m := MinPeriod(ids, s.store);
    MinPeriodPositive(ids, s.store);
    if forall id :: id in ids ==> s.store[id].next > s.now + Min(m, d) - m {
      PromptFromFirstRound(s, ids, m, d);
    } else {
      var id :| id in ids && s.store[id].next <= s.now + Min(m, d) - m;
      LateTimerIsLate(s, ids, m, d, id);
    }
  }

  // ----- Conservation of time -----

  function CeilDiv(d: int, m: int): int
    requires m > 0
  {
    (d + m - 1) / m
  }

  lemma CeilStep(d: int, m: int)
    requires m > 0 && d > 0
    ensures CeilDiv(d, m) == 1 + CeilDiv(d - Min(m, d), m)
  {
    if d >= m {
      QuotientStep(d + m - 1, m);
    } else {
      QuotientUnique(d + m - 1, m, 1, d - 1);
      QuotientUnique(m - 1, m, 0, m - 1);
    }
  }

  /** The clock values of the steps of an advance. */
  function Instants(now: int, m: int, d: int): seq<int>
    requires m > 0
    decreases d
  {
    if d <= 0 then [] else [now + Min(m, d)] + Instants(now + Min(m, d), m, d - Min(m, d))
  }

  /** There are ceil(d / m) of them; the i-th is now + min((i + 1) * m, d). */
  lemma {:induction false} InstantsShape(now: int, m: int, d: int)
    requires m > 0 && d >= 0
    ensures var at := Instants(now, m, d);
            && |at| == CeilDiv(d, m)
            && (forall i :: 0 <= i < |at| ==> at[i] == now + Min((i + 1) * m, d) && now < at[i] <= now + d)
            && (d > 0 ==> at[|at| - 1] == now + d)
    decreases d
  {
    if d == 0 {
      QuotientUnique(m - 1, m, 0, m - 1);
    } else {
      var step := Min(m, d);
      var at, rest := Instants(now, m, d), Instants(now + step, m, d - step);
      InstantsShape(now + step, m, d - step);
      CeilStep(d, m);
      forall i | 0 <= i < |at|
        ensures at[i] == now + Min((i + 1) * m, d) && now < at[i] <= now + d
      {
        if i > 0 {
          assert at[i] == rest[i - 1] == now + step + Min(i * m, d - step);
          assert (i + 1) * m == i * m + m;
        }
      }
    }
  }

  /** Conservation of time: the steps of an advance by d set the clock to exactly those instants
      and end at now + d; the override agrees with the counter once a step was taken. */
  lemma {:induction false} TimeIsConserved(s: Sim, ids: seq<EntityId>, m: int, d: int)
    requires Known(ids, s.store) && m > 0 && d >= 0
    ensures var r := Steps(s, ids, m, d);
            && r.now == s.now + d
            && r.ticks == s.ticks + Instants(s.now, m, d)
            && (if d == 0 then r == s else r.rosTime == r.now)
    decreases d
  {
    if d > 0 {
      var step := Min(m, d);
      var mid := Step(s, ids, step);
      assert mid.ticks == s.ticks + [s.now + step];
      TimeIsConserved(mid, ids, m, d - step);
    }
  }

  lemma AdvancedNow(s: Sim, ids: seq<EntityId>, d: int)
    requires Known(ids, s.store) && d >= 0
    ensures Advanced(s, ids, d).now == s.now + d
  {
    if ids != [] {
      MinPeriodPositive(ids, s.store);
      TimeIsConserved(s, ids, MinPeriod(ids, s.store), d);
    }
  }

  /** The clock is set ceil(d / smallest period) times (once without timers), never outside
      [now, now + d]: if both ends fit into 64 bits, so does every value in between. */
  lemma AdvanceConservesTime(s: Sim, ids: seq<EntityId>, d: int)
    requires Known(ids, s.store) && d >= 0
    ensures var r, m := Advanced(s, ids, d), MinPeriod(ids, s.store);
            && m > 0
            && r.now == s.now + d
            && |r.ticks| == |s.ticks| + (if ids == [] then 1 else CeilDiv(d, m))
            && forall i :: |s.ticks| <= i < |r.ticks| ==> s.now <= r.ticks[i] <= s.now + d
  {
    var m := MinPeriod(ids, s.store);
    MinPeriodPositive(ids, s.store);
    if ids != [] {
      TimeIsConserved(s, ids, m, d);
      InstantsShape(s.now, m, d);
    }
  }

  /** After an advance by any duration the override agrees with the counter if and only if the
      clock was moved at all (no timers, or a positive duration) or they agreed before; a
      preceding reset of the override is forgotten exactly then. */
  lemma OverrideAgreesIff(s: Sim, ids: seq<EntityId>, d: int)
    requires Known(ids, s.store)
    ensures var r := Advanced(s, ids, d);
            r.rosTime == r.now <==> ids == [] || d > 0 || s.rosTime == s.now
  {
    if ids != [] && d > 0 {
      MinPeriodPositive(ids, s.store);
      TimeIsConserved(s, ids, MinPeriod(ids, s.store), d);
    }
  }
}
