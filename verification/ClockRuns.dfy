/** Whole runs of one node's clock: timers are created and dropped on any node, the registry is
    reset, the override is set to arbitrary values, the clock is advanced in arbitrary portions.
    Every timer that the node still has and that was not born overdue was called exactly at the
    multiples of its period since its creation. */
module ClockRuns {
  import opened Timers
  import opened Registry
  import opened TestClock
  import opened ClockTheorems
  import History = RegistryHistory

  datatype PeriodResult = Period(ns: int) | NegativePeriod | PeriodTooLong | CastOverflowed

  /** safe_cast_to_period_in_ns for a duration of `count` ticks of `unit` nanoseconds each, with
      the wrap-around of the 64-bit cast written out. */
  function SafeCastToPeriod(count: int, unit: int): PeriodResult
    requires unit > 0
  {
    if count < 0 then NegativePeriod
    else if count * unit > INT64_MAX - unit then PeriodTooLong
    else
      var ns := WrapInt64(count * unit);
      if ns < 0 then CastOverflowed else Period(ns)
  }

  function WrapInt64(x: int): int {
    (x + 0x8000_0000_0000_0000) % 0x1_0000_0000_0000_0000 - 0x8000_0000_0000_0000
  }

  /** The cast never wraps: its overflow error is unreachable, and a period is returned exactly
      for the durations from zero up to one tick below the largest count of nanoseconds. */
  lemma SafeCastIsExact(count: int, unit: int)
    requires 0 < unit
    ensures SafeCastToPeriod(count, unit) != CastOverflowed
    ensures (exists ns :: SafeCastToPeriod(count, unit) == Period(ns)) <==> 0 <= count * unit <= INT64_MAX - unit
    ensures SafeCastToPeriod(count, unit).Period? ==> SafeCastToPeriod(count, unit).ns == count * unit
  {
    if count < 0 {
      assert count * unit < 0;
    } else {
      assert 0 <= count * unit;
      if count * unit <= INT64_MAX - unit {
        assert WrapInt64(count * unit) == count * unit;
        assert SafeCastToPeriod(count, unit) == Period(count * unit);
      }
    }
  }

  // ----- Whether the advance loop ends -----

  /** getTimersMinPeriod over raw periods, which need not be positive. */
  function RawMin(periods: seq<int>): int {
    if periods == [] then INT64_MAX else Min(RawMin(periods[..|periods| - 1]), periods[|periods| - 1])
  }

  ghost predicate Admitted(period: int) {
    exists count: int, unit: int :: unit > 0 && SafeCastToPeriod(count, unit) == Period(period)
  }

  /** The loop variable of the advance loop after at most n rounds with the time step m. */
  function Elapsed(n: nat, m: int, d: int): int {
    if n == 0 then 0
    else
      var before := Elapsed(n - 1, m, d);
      if before < d then before + Min(m, d - before) else before
  }

  lemma {:induction false} RawMinShape(periods: seq<int>)
    requires forall p :: p in periods ==> Admitted(p)
    ensures 0 <= RawMin(periods)
    ensures RawMin(periods) == 0 <==> 0 in periods
  {
    if periods != [] {
      var init, last := periods[..|periods| - 1], periods[|periods| - 1];
      assert periods == init + [last];
      RawMinShape(init);
      assert Admitted(last);
      var count: int, unit: int :| unit > 0 && SafeCastToPeriod(count, unit) == Period(last);
      SafeCastIsExact(count, unit);
    }
  }

  /** For timers as they can be created the loop reaches its target if and only if there is nothing
      to advance or no period is zero; a zero period is admitted in every unit. */
  lemma LoopEndsIff(periods: seq<int>, d: int)
    requires periods != [] && forall p :: p in periods ==> Admitted(p)
    ensures (exists n: nat :: Elapsed(n, RawMin(periods), d) >= d) <==> d <= 0 || 0 !in periods
  {
    var m := RawMin(periods);
    RawMinShape(periods);
    if d <= 0 {
      assert Elapsed(0, m, d) >= d;
    } else if m > 0 {
      ElapsedReaches(d, m, d);
    } else {
      forall n: nat
        ensures Elapsed(n, m, d) < d
      {
        ElapsedStuck(n, d);
      }
    }
  }

  lemma ZeroPeriodIsAdmitted(unit: int)
    requires 0 < unit <= INT64_MAX
    ensures SafeCastToPeriod(0, unit) == Period(0) && Admitted(0)
  {
    SafeCastIsExact(0, unit);
  }

  lemma {:induction false} ElapsedReaches(n: nat, m: int, d: int)
    requires m > 0 && d >= n
    ensures Elapsed(n, m, d) >= n
  {
    if n > 0 {
      ElapsedReaches(n - 1, m, d);
    }
  }

  lemma {:induction false} ElapsedStuck(n: nat, d: int)
    requires d > 0
    ensures Elapsed(n, 0, d) == 0
  {
    if n > 0 {
      ElapsedStuck(n - 1, d);
    }
  }

  lemma {:induction false} ElapsedShape(n: nat, m: int, d: int)
    requires m > 0 && d >= 0
    ensures Elapsed(n, m, d) == Min(n * m, d)
  {
    if n > 0 {
      ElapsedShape(n - 1, m, d);
      assert n * m == (n - 1) * m + m;
    }
  }

  function PeriodsOf(ids: seq<EntityId>, store: Store): seq<int>
    requires Known(ids, store)
  {
    seq(|ids|, i requires 0 <= i < |ids| => store[ids[i]].period)
  }

  lemma {:induction false} RawMinOfTimers(ids: seq<EntityId>, store: Store)
    requires Known(ids, store)
    ensures RawMin(PeriodsOf(ids, store)) == MinPeriod(ids, store)
  {
    if ids != [] {
      var init, ps := ids[..|ids| - 1], PeriodsOf(ids, store);
      RawMinOfTimers(init, store);
      assert ps[..|ps| - 1] == PeriodsOf(init, store);
    }
  }

  /** The loop variable is the one of the modelled advance: round by round the clock is set to its
      start plus that value, and the last round reaches the target. */
  lemma ElapsedIsTheLoop(s: Sim, ids: seq<EntityId>, d: int)
    requires Known(ids, s.store) && ids != [] && d >= 0
    ensures var m, first, all := RawMin(PeriodsOf(ids, s.store)), |s.ticks|, Advanced(s, ids, d).ticks;
            && first <= |all| && Elapsed(|all| - first, m, d) == d
            && forall j :: first <= j < |all| ==>
                 Elapsed(j - first, m, d) < d && all[j] == s.now + Elapsed(j - first + 1, m, d)
  {
    var m := MinPeriod(ids, s.store);
    RawMinOfTimers(ids, s.store);
    MinPeriodPositive(ids, s.store);
    TimeIsConserved(s, ids, m, d);
    InstantsAreElapsed(s.now, m, d);
  }

  lemma InstantsAreElapsed(now: int, m: int, d: int)
    requires m > 0 && d >= 0
    ensures var at := Instants(now, m, d);
            && Elapsed(|at|, m, d) == d
            && forall i :: 0 <= i < |at| ==> Elapsed(i, m, d) < d && at[i] == now + Elapsed(i + 1, m, d)
  {
    var at := Instants(now, m, d);
    InstantsShape(now, m, d);
    forall i | 0 <= i < |at|
      ensures Elapsed(i, m, d) < d && at[i] == now + Elapsed(i + 1, m, d)
    {
      ElapsedShape(i, m, d);
      ElapsedShape(i + 1, m, d);
      RoundsRemain(i, m, d);
    }
    ElapsedShape(|at|, m, d);
    if d > 0 {
      assert at[|at| - 1] == now + d;
    }
  }

  /** Before the last round the target is not reached. */
  lemma RoundsRemain(i: nat, m: int, d: int)
    requires m > 0 && d >= 0 && i < CeilDiv(d, m)
    ensures i * m < d
  {
    var q := CeilDiv(d, m);
    assert q * m <= d + m - 1;
    assert i <= q - 1;
    assert i * m <= (q - 1) * m == q * m - m;
  }

  // ----- Runs -----

  datatype Event =
    | Create(node: NodeId, id: EntityId, period: int)
    | Drop(id: EntityId)
    | ClearRegistry
    | ResetClock(tv: int)
    | Advance(d: int)

  /** `born` is the reading of the override when a timer was created, from which its first deadline
      is counted; `counter` the reading of the clock's own counter then; `owner` its node. */
  datatype World = World(sim: Sim, reg: History.State, born: map<EntityId, int>, counter: map<EntityId, int>,
                         owner: map<EntityId, NodeId>)

  const START := World(Sim(0, 0, [0], map[], []), History.EMPTY, map[], map[], map[])

  function Listed(w: World, node: NodeId): seq<EntityId> {
    History.FoundTimers(w.reg, node)
  }

  /** What can happen: identities are fresh, periods positive, durations not negative. */
  predicate Enabled(w: World, node: NodeId, ev: Event) {
    match ev
    case Create(_, id, period) => id !in w.sim.store && period > 0
    case Drop(id) => id in w.sim.store
    case Advance(d) => d >= 0 && Known(Listed(w, node), w.sim.store)
    case _ => true
  }

  function Next(w: World, node: NodeId, ev: Event): World
    requires Enabled(w, node, ev)
  {
    match ev
    case Create(n, id, period) =>
      w.(sim := w.sim.(store := w.sim.store[id := Timer(period, w.sim.rosTime + period)]),
         reg := History.Apply(w.reg, History.RegisterTimer(n, id)),
         born := w.born[id := w.sim.rosTime],
         counter := w.counter[id := w.sim.now],
         owner := w.owner[id := n])
    case Drop(id) => w.(reg := History.Apply(w.reg, History.Expire(id)))
    case ClearRegistry => w.(reg := History.Apply(w.reg, History.Clear))
    case ResetClock(tv) => w.(sim := w.sim.(rosTime := tv, ticks := w.sim.ticks + [tv]))
    case Advance(d) => w.(sim := Advanced(w.sim, Listed(w, node), d))
  }

  /** The world after a run; events that cannot happen are passed over. */
  function Run(evs: seq<Event>, node: NodeId): World {
    if evs == [] then START
    else
      var w, ev := Run(evs[..|evs| - 1], node), evs[|evs| - 1];
      if Enabled(w, node, ev) then Next(w, node, ev) else w
  }

  // ----- What every run keeps -----

  ghost predicate WellFormed(w: World, node: NodeId) {
    && w.sim.store.Keys == w.born.Keys == w.counter.Keys == w.owner.Keys
    && (forall n: NodeId, e :: e in TimersOf(w.reg.timers, n) ==> e in w.owner && w.owner[e] == n)
    && Distinct(TimersOf(w.reg.timers, node))
    && (forall i :: 0 <= i < |w.sim.trace| ==> w.sim.trace[i].timer in w.owner && w.owner[w.sim.trace[i].timer] == node)
  }

  predicate Created(w: World, id: EntityId) {
    id in w.sim.store && id in w.born && id in w.counter
  }

  /** The timer as it was created: first due one period after its birth. */
  function Fresh(w: World, id: EntityId): Timer
    requires Created(w, id)
  {
    w.sim.store[id].(next := w.born[id] + w.sim.store[id].period)
  }

  /** Exact from birth on, or born overdue for the counter. */
  ghost predicate Explained(w: World, id: EntityId) {
    && Created(w, id)
    && if NotOverdue(Fresh(w, id), w.counter[id]) then Ideal(w, id) else Late(w, id)
  }

  /** The timer's whole history is the ideal one. */
  ghost predicate Ideal(w: World, id: EntityId)
    requires Created(w, id)
  {
    var t := Fresh(w, id);
    && w.sim.store[id] == Served(t, w.sim.now)
    && NotOverdue(w.sim.store[id], w.sim.now)
    && DeadlinesOf(w.sim.trace, id) == Grid(t.next, t.period, w.sim.now)
  }

  /** The timer waits for the clock to move, or its first call served the deadline it was born with. */
  ghost predicate Late(w: World, id: EntityId)
    requires Created(w, id)
  {
    var t, calls := Fresh(w, id), DeadlinesOf(w.sim.trace, id);
    if w.sim.now == w.counter[id] then w.sim.store[id] == t && calls == []
    else w.counter[id] < w.sim.now && calls != [] && calls[0] == t.next
  }

  ghost predicate Inv(w: World, node: NodeId) {
    WellFormed(w, node) && forall id :: id in Listed(w, node) ==> Explained(w, id)
  }

  lemma {:induction false} AliveMembers(es: seq<EntityId>, dead: set<EntityId>)
    ensures forall e :: e in Alive(es, dead) <==> e in es && e !in dead
    ensures Distinct(es) ==> Distinct(Alive(es, dead))
  {
    if es != [] {
      var init, e := es[..|es| - 1], es[|es| - 1];
      assert es == init + [e];
      AliveMembers(init, dead);
      if Distinct(es) {
        assert e !in init;
        assert Distinct(init);
      }
    }
  }

  lemma {:induction false} NoFirings(trace: seq<Firing>, id: EntityId)
    requires forall i :: 0 <= i < |trace| ==> trace[i].timer != id
    ensures DeadlinesOf(trace, id) == []
  {
    if trace != [] {
      NoFirings(trace[..|trace| - 1], id);
    }
  }

  lemma ListedIsUsable(w: World, node: NodeId)
    requires WellFormed(w, node)
    ensures Known(Listed(w, node), w.sim.store) && Distinct(Listed(w, node))
    ensures forall e :: e in Listed(w, node) ==> w.owner[e] == node
  {
    AliveMembers(TimersOf(w.reg.timers, node), w.reg.dead);
    forall i | 0 <= i < |Listed(w, node)|
      ensures Listed(w, node)[i] in w.sim.store
    {
      assert Listed(w, node)[i] in TimersOf(w.reg.timers, node);
    }
  }

  // ----- An advance -----

  lemma AdvanceKeepsIdeal(w: World, ids: seq<EntityId>, d: int, id: EntityId)
    requires Known(ids, w.sim.store) && Distinct(ids) && id in ids && d >= 0
    requires Created(w, id) && Ideal(w, id)
    ensures Ideal(w.(sim := Advanced(w.sim, ids, d)), id)
    ensures Fresh(w.(sim := Advanced(w.sim, ids, d)), id) == Fresh(w, id)
  {
    AdvanceExact(w.sim, ids, d, id);
    GridSplit(Fresh(w, id), w.sim.now, w.sim.now + d);
  }

  lemma AdvanceKeepsLate(w: World, ids: seq<EntityId>, d: int, id: EntityId)
    requires Known(ids, w.sim.store) && Distinct(ids) && id in ids && d >= 0
    requires Created(w, id) && Late(w, id) && !NotOverdue(Fresh(w, id), w.counter[id])
    ensures Late(w.(sim := Advanced(w.sim, ids, d)), id)
    ensures Fresh(w.(sim := Advanced(w.sim, ids, d)), id) == Fresh(w, id)
  {
    var m := MinPeriod(ids, w.sim.store);
    MinPeriodPositive(ids, w.sim.store);
    AdvancedNow(w.sim, ids, d);
    StepsKeepPeriod(w.sim, ids, m, d, id);
    TraceGrows(w.sim, ids, m, d, id);
    if w.sim.now == w.counter[id] && d > 0 {
      OverdueFiresFirst(w.sim, ids, m, d, id);
    }
  }

  lemma AdvanceKeepsExplained(w: World, ids: seq<EntityId>, d: int, id: EntityId)
    requires Known(ids, w.sim.store) && Distinct(ids) && id in ids && d >= 0 && Explained(w, id)
    ensures Explained(w.(sim := Advanced(w.sim, ids, d)), id)
  {
    if NotOverdue(Fresh(w, id), w.counter[id]) {
      AdvanceKeepsIdeal(w, ids, d, id);
    } else {
      AdvanceKeepsLate(w, ids, d, id);
    }
  }

  lemma AdvanceKeepsWellFormed(w: World, node: NodeId, d: int)
    requires WellFormed(w, node) && d >= 0 && Known(Listed(w, node), w.sim.store)
    ensures WellFormed(w.(sim := Advanced(w.sim, Listed(w, node), d)), node)
  {
    ListedIsUsable(w, node);
    var fired := AdvanceFiresOnlyListed(w.sim, Listed(w, node), d);
  }

  lemma AdvanceKeepsInv(w: World, node: NodeId, d: int)
    requires Inv(w, node) && d >= 0 && Known(Listed(w, node), w.sim.store)
    ensures Inv(Next(w, node, Advance(d)), node)
  {
    AdvanceKeepsWellFormed(w, node, d);
    ListedIsUsable(w, node);
    forall id | id in Listed(w, node)
      ensures Explained(Next(w, node, Advance(d)), id)
    {
      AdvanceKeepsExplained(w, Listed(w, node), d, id);
    }
  }

  // ----- The other events -----

  lemma ListsAfterCreate(w: World, node: NodeId, n: NodeId, id: EntityId, period: int, n': NodeId)
    requires id !in w.sim.store && period > 0
    ensures var es := TimersOf(w.reg.timers, n');
            TimersOf(Next(w, node, Create(n, id, period)).reg.timers, n') == if n' == n then es + [id] else es
  {
  }

  lemma CreateKeepsOwners(w: World, node: NodeId, n: NodeId, id: EntityId, period: int, n': NodeId, e: EntityId)
    requires WellFormed(w, node) && id !in w.sim.store && period > 0
    requires e in TimersOf(Next(w, node, Create(n, id, period)).reg.timers, n')
    ensures var w' := Next(w, node, Create(n, id, period)); e in w'.owner && w'.owner[e] == n'
  {
    ListsAfterCreate(w, node, n, id, period, n');
    assert (e == id && n' == n) || e in TimersOf(w.reg.timers, n');
  }

  lemma CreateKeepsWellFormed(w: World, node: NodeId, n: NodeId, id: EntityId, period: int)
    requires WellFormed(w, node) && id !in w.sim.store && period > 0
    ensures WellFormed(Next(w, node, Create(n, id, period)), node)
  {
    var w' := Next(w, node, Create(n, id, period));
    forall n': NodeId, e | e in TimersOf(w'.reg.timers, n')
      ensures e in w'.owner && w'.owner[e] == n'
    {
      CreateKeepsOwners(w, node, n, id, period, n', e);
    }
    ListsAfterCreate(w, node, n, id, period, node);
    assert id !in TimersOf(w.reg.timers, node);
  }

  lemma ListedAfterCreate(w: World, node: NodeId, n: NodeId, id: EntityId, period: int)
    requires id !in w.sim.store && period > 0
    ensures var w' := Next(w, node, Create(n, id, period));
            Listed(w', node) == if n == node && id !in w.reg.dead then Listed(w, node) + [id] else Listed(w, node)
  {
    ListsAfterCreate(w, node, n, id, period, node);
    var es := TimersOf(w.reg.timers, node);
    assert (es + [id])[..|es|] == es;
  }

  /** A timer is born ideal, or late and waiting; the others do not notice. */
  lemma CreateKeepsExplained(w: World, node: NodeId, n: NodeId, id: EntityId, period: int, e: EntityId)
    requires WellFormed(w, node) && id !in w.sim.store && period > 0
    requires e == id || Explained(w, e)
    ensures Explained(Next(w, node, Create(n, id, period)), e)
  {
    if e == id {
      NoFirings(w.sim.trace, id);
    } else {
      assert Fresh(Next(w, node, Create(n, id, period)), e) == Fresh(w, e);
    }
  }

  lemma CreateKeepsInv(w: World, node: NodeId, n: NodeId, id: EntityId, period: int)
    requires Inv(w, node) && id !in w.sim.store && period > 0
    ensures Inv(Next(w, node, Create(n, id, period)), node)
  {
    var w' := Next(w, node, Create(n, id, period));
    CreateKeepsWellFormed(w, node, n, id, period);
    ListedAfterCreate(w, node, n, id, period);
    forall e | e in Listed(w', node)
      ensures Explained(w', e)
    {
      CreateKeepsExplained(w, node, n, id, period, e);
    }
  }

  /** Events that neither create timers nor move the counter. */
  lemma OthersKeepInv(w: World, node: NodeId, ev: Event)
    requires Inv(w, node) && Enabled(w, node, ev) && (ev.Drop? || ev.ClearRegistry? || ev.ResetClock?)
    ensures Inv(Next(w, node, ev), node)
  {
    var w' := Next(w, node, ev);
    AliveMembers(TimersOf(w.reg.timers, node), w.reg.dead);
    AliveMembers(TimersOf(w'.reg.timers, node), w'.reg.dead);
    forall e | e in Listed(w', node)
      ensures Explained(w', e)
    {
      assert e in Listed(w, node);
      assert Explained(w, e);
      assert Fresh(w', e) == Fresh(w, e);
    }
  }

  lemma {:induction false} RunKeepsInv(evs: seq<Event>, node: NodeId)
    ensures Inv(Run(evs, node), node)
  {
    if evs != [] {
      var w, ev := Run(evs[..|evs| - 1], node), evs[|evs| - 1];
      RunKeepsInv(evs[..|evs| - 1], node);
      if Enabled(w, node, ev) {
        match ev {
          case Create(n, id, period) => CreateKeepsInv(w, node, n, id, period);
          case Drop(_) => OthersKeepInv(w, node, ev);
          case ClearRegistry => OthersKeepInv(w, node, ev);
          case ResetClock(_) => OthersKeepInv(w, node, ev);
          case Advance(d) => AdvanceKeepsInv(w, node, d);
        }
      }
    }
  }

  // ----- The theorems -----

  /** The deadlines born + p, born + 2p, ... up to the clock. */
  ghost predicate CalledOnGrid(w: World, id: EntityId)
    requires Created(w, id)
  {
    var p, calls := w.sim.store[id].period, DeadlinesOf(w.sim.trace, id);
    && |calls| == (if w.born[id] + p > w.sim.now then 0 else (w.sim.now - w.born[id] - p) / p + 1)
    && forall k :: 0 <= k < |calls| ==> calls[k] == w.born[id] + p + k * p
  }

  lemma ExplainedCalls(w: World, id: EntityId)
    requires Explained(w, id) && NotOverdue(Fresh(w, id), w.counter[id])
    ensures CalledOnGrid(w, id)
  {
    var t := Fresh(w, id);
    GridShape(t.next, t.period, w.sim.now);
  }

  /** Over every run, whatever resets it contains, each timer the node still has was called exactly
      for the deadlines born + p, born + 2p, ... up to the clock, unless it was born overdue for the
      counter; timers of other nodes were never called. */
  lemma EveryRunIsIdeal(evs: seq<Event>, node: NodeId, id: EntityId)
    ensures var w := Run(evs, node);
            && (id in Listed(w, node) ==>
                  Created(w, id) && (w.born[id] + w.sim.store[id].period > w.counter[id] ==> CalledOnGrid(w, id)))
            && (id in w.owner && w.owner[id] != node ==> DeadlinesOf(w.sim.trace, id) == [])
  {
    RunKeepsInv(evs, node);
    var w := Run(evs, node);
    if id in Listed(w, node) {
      assert Explained(w, id);
      if NotOverdue(Fresh(w, id), w.counter[id]) {
        ExplainedCalls(w, id);
      }
    }
    if id in w.owner && w.owner[id] != node {
      NoFirings(w.sim.trace, id);
    }
  }

  lemma ExplainedIsExactIff(w: World, id: EntityId)
    requires Explained(w, id)
    ensures var t, calls := Fresh(w, id), DeadlinesOf(w.sim.trace, id);
            calls == GridWithin(t.next, t.period, w.counter[id], w.sim.now)
            <==> NotOverdue(t, w.counter[id]) || w.sim.now == w.counter[id]
  {
    var t, calls := Fresh(w, id), DeadlinesOf(w.sim.trace, id);
    if NotOverdue(t, w.counter[id]) {
      GridWithinAll(t.next, t.period, w.counter[id], w.sim.now);
    } else {
      var window := GridWithin(t.next, t.period, w.counter[id], w.sim.now);
      GridWithinWindow(t.next, t.period, w.counter[id], w.sim.now);
      if w.sim.now == w.counter[id] {
        EmptyWindow(t.next, t.period, w.sim.now);
      } else {
        assert t.next in calls && t.next !in window;
      }
    }
  }

  /** The exact condition: after every run a timer's calls are the points of its grid in the window
      from the counter at its birth to the counter now if and only if it was not born overdue for
      the counter, or the counter has not moved since. */
  lemma ExactSinceBirthIff(evs: seq<Event>, node: NodeId, id: EntityId)
    requires id in Listed(Run(evs, node), node)
    ensures var w := Run(evs, node);
            && Created(w, id)
            && var p := w.sim.store[id].period;
            DeadlinesOf(w.sim.trace, id) == GridWithin(w.born[id] + p, p, w.counter[id], w.sim.now)
            <==> w.born[id] + p > w.counter[id] || w.sim.now == w.counter[id]
  {
    RunKeepsInv(evs, node);
    ExplainedIsExactIff(Run(evs, node), id);
  }

  // ----- A timer born overdue -----

  lemma RunSnoc(evs: seq<Event>, node: NodeId, ev: Event)
    requires Enabled(Run(evs, node), node, ev)
    ensures Run(evs + [ev], node) == Next(Run(evs, node), node, ev)
  {
    assert (evs + [ev])[..|evs|] == evs;
  }

  lemma AdvancedAndReset(node: NodeId)
    ensures Run([Advance(100)] + [ResetClock(0)], node) == START.(sim := Sim(100, 0, [0, 100, 0], map[], []))
  {
    assert [] + [Advance(100)] == [Advance(100)];
    assert Listed(START, node) == [];
    assert Tick(START.sim, 100) == Sim(100, 100, [0, 100], map[], []);
    RunSnoc([], node, Advance(100));
    RunSnoc([Advance(100)], node, ResetClock(0));
  }

  lemma AliveOne(e: EntityId)
    ensures Alive([e], {}) == [e]
  {
    assert [e][..0] == [] && Alive([], {}) == [];
  }

  /** With the counter at 100 and the override set back to 0, a timer of period 10 is born due at 10. */
  lemma BornOverdue(node: NodeId)
    ensures var w := Run([Advance(100)] + [ResetClock(0)] + [Create(node, 1, 10)], node);
            && Listed(w, node) == [1] && w.born == map[1 := 0] && w.counter == map[1 := 100]
            && w.sim.now == 100 && w.sim.store == map[1 := Timer(10, 10)] && w.sim.trace == []
  {
    AdvancedAndReset(node);
    var w := Run([Advance(100)] + [ResetClock(0)], node);
    RunSnoc([Advance(100)] + [ResetClock(0)], node, Create(node, 1, 10));
    ListsAfterCreate(w, node, node, 1, 10, node);
    AliveOne(1);
  }

  /** The next advance by 10 calls it for the deadline 10, and not for 110, the grid point of the
      window. */
  lemma ResetMakesLate(node: NodeId)
    ensures var w := Run([Advance(100)] + [ResetClock(0)] + [Create(node, 1, 10)] + [Advance(10)], node);
            && Listed(w, node) == [1] && w.sim.now == 110
            && DeadlinesOf(w.sim.trace, 1) == [10]
            && 110 in GridWithin(10, 10, 100, 110)
  {
    var evs := [Advance(100)] + [ResetClock(0)] + [Create(node, 1, 10)];
    BornOverdue(node);
    RunSnoc(evs, node, Advance(10));
    var s := Run(evs, node).sim;
    MinPeriodOne(1, s.store);
    OneStep(s, [1], 10);
    StepPerTimer(s, [1], 10, 1);
    GridReaches(10, 10, 100, 110, 10);
  }

  lemma {:induction false} GridReaches(next: int, period: int, lo: int, hi: int, k: nat)
    requires period > 0 && lo < next + k * period <= hi
    ensures next + k * period in GridWithin(next, period, lo, hi)
    decreases k
  {
    if k > 0 {
      assert k * period == period + (k - 1) * period;
      assert (k - 1) * period >= 0;
      GridReaches(next + period, period, lo, hi, k - 1);
    }
  }
}
