/** The triggering test clock: simulated time moved in steps of the smallest timer period, with
    one firing pass over the node's timers after each step. */
module TestClock {
  import opened Timers
  import opened Registry

  const INT64_MAX := 0x7FFF_FFFF_FFFF_FFFF

  type Store = map<EntityId, Timer>

  /** One executed callback: which timer, its place in the list, the deadline it serves and the
      clock time at which it runs. */
  datatype Firing = Firing(timer: EntityId, rank: nat, deadline: int, at: int)

  /** `now` is the clock's own counter; `rosTime` the override that timers read, and `ticks`
      every value it has been given. */
  datatype Sim = Sim(now: int, rosTime: int, ticks: seq<int>, store: Store, trace: seq<Firing>)

  datatype Pass = Pass(store: Store, fired: seq<Firing>)

  ghost predicate Distinct(ids: seq<EntityId>) {
    forall i, j :: 0 <= i < j < |ids| ==> ids[i] != ids[j]
  }

  predicate Known(ids: seq<EntityId>, store: Store) {
    forall i :: 0 <= i < |ids| ==> ids[i] in store
  }

  function Min(a: int, b: int): int {
    if a < b then a else b
  }

  // ----- What the clock computes -----

  function MinPeriod(ids: seq<EntityId>, store: Store): int
    requires Known(ids, store)
  {
    if ids == [] then INT64_MAX
    else Min(MinPeriod(ids[..|ids| - 1], store), store[ids[|ids| - 1]].period)
  }

  /** fire_all_timer_callbacks over the first n timers of the list. */
  function FirePass(ids: seq<EntityId>, n: nat, now: int, store: Store): (p: Pass)
    requires n <= |ids| && Known(ids, store)
    ensures p.store.Keys == store.Keys
  {
    if n == 0 then Pass(store, [])
    else
      var before := FirePass(ids, n - 1, now, store);
      var id := ids[n - 1];
      var t := before.store[id];
      if IsReady(t, now) then
        Pass(before.store[id := Call(t, now)], before.fired + [Firing(id, n - 1, t.next, now)])
      else before
  }

  /** TestClock::advance. */
  function Tick(s: Sim, d: int): Sim {
    s.(now := s.now + d, rosTime := s.now + d, ticks := s.ticks + [s.now + d])
  }

  /** One round of the loop: move the clock, then fire. */
  function Step(s: Sim, ids: seq<EntityId>, step: int): (r: Sim)
    requires Known(ids, s.store)
    ensures r.store.Keys == s.store.Keys
  {
    var moved := Tick(s, step);
    var p := FirePass(ids, |ids|, moved.rosTime, moved.store);
    moved.(store := p.store, trace := moved.trace + p.fired)
  }

  function Steps(s: Sim, ids: seq<EntityId>, m: int, d: int): (r: Sim)
    requires Known(ids, s.store) && m > 0
    ensures r.store.Keys == s.store.Keys
    decreases d
  {
    if d <= 0 then s else Steps(Step(s, ids, Min(m, d)), ids, m, d - Min(m, d))
  }

  function Advanced(s: Sim, ids: seq<EntityId>, d: int): (r: Sim)
    requires Known(ids, s.store)
    ensures r.store.Keys == s.store.Keys
  {
    if ids == [] then Tick(s, d)
    else
      MinPeriodPositive(ids, s.store);
      Steps(s, ids, MinPeriod(ids, s.store), d)
  }

  lemma {:induction false} MinPeriodPositive(ids: seq<EntityId>, store: Store)
    requires Known(ids, store)
    ensures 0 < MinPeriod(ids, store) <= INT64_MAX
    ensures forall id :: id in ids ==> MinPeriod(ids, store) <= store[id].period
    ensures ids != [] && (forall id :: id in ids ==> store[id].period <= INT64_MAX)
            ==> exists id :: id in ids && MinPeriod(ids, store) == store[id].period
  {
    if ids != [] {
      var init, last := ids[..|ids| - 1], ids[|ids| - 1];
      assert ids == init + [last];
      MinPeriodPositive(init, store);
      if init == [] {
        assert MinPeriod(init, store) == INT64_MAX;
      }
    }
  }

  /** TestClock and TriggeringTestClock.  The registry says which timers the node has; the
      timers themselves live outside it. */
  class TriggeringTestClock {
    const registry: StaticMocksRegistry
    const node: NodeId
    var now: int
    var rosTime: int
    var ticks: seq<int>
    var store: Store
    var trace: seq<Firing>

    function Model(): Sim
      reads this
    {
      Sim(now, rosTime, ticks, store, trace)
    }

    constructor (registry: StaticMocksRegistry, node: NodeId, store: Store)
      ensures Model() == Sim(0, 0, [0], store, [])
      ensures this.registry == registry && this.node == node
    {
      this.registry, this.node, this.store := registry, node, store;
      now, rosTime, ticks, trace := 0, 0, [0], [];
    }

    method ResetClock(tv: int)
      modifies this`rosTime, this`ticks
      ensures rosTime == tv && ticks == old(ticks) + [tv]
    {
      rosTime, ticks := tv, ticks + [tv];
    }

    method AdvanceClock(d: int)
      modifies this`now, this`rosTime, this`ticks
      ensures Model() == Tick(old(Model()), d)
    {
      now := now + d;
      rosTime, ticks := now, ticks + [now];
    }

    method GetTimersMinPeriod(timers: seq<EntityId>) returns (m: int)
      requires Known(timers, store)
      ensures m == MinPeriod(timers, store)
    {
      m := INT64_MAX;
      for i := 0 to |timers|
        invariant Known(timers[..i], store) && m == MinPeriod(timers[..i], store)
      {
        assert timers[..i + 1][..i] == timers[..i];
        m := Min(m, store[timers[i]].period);
      }
      assert timers[..|timers|] == timers;
    }

    method FireAllTimerCallbacks(timers: seq<EntityId>)
      requires Known(timers, store)
      modifies this`store, this`trace
      ensures var p := FirePass(timers, |timers|, rosTime, old(store));
              store == p.store && trace == old(trace) + p.fired
    {
      for i := 0 to |timers|
        invariant Known(timers, store)
        invariant store == FirePass(timers, i, rosTime, old(store)).store
        invariant trace == old(trace) + FirePass(timers, i, rosTime, old(store)).fired
      {
        var t := store[timers[i]];
        if IsReady(t, rosTime) {
          store := store[timers[i] := Call(t, rosTime)];
          trace := trace + [Firing(timers[i], i, t.next, rosTime)];
        }
      }
    }

    /** The body of the loop: move the clock, then fire. */
    method Round(timers: seq<EntityId>, step: int)
      requires Known(timers, store)
      modifies this
      ensures Model() == Step(old(Model()), timers, step)
    {
      AdvanceClock(step);
      FireAllTimerCallbacks(timers);
    }

    /** The while loop of advance. */
    method AdvanceInSteps(timers: seq<EntityId>, timeStep: int, target: int)
      requires Known(timers, store) && timeStep > 0
      modifies this
      ensures Model() == Steps(old(Model()), timers, timeStep, target)
    {
      ghost var start := Model();
      var startPoint := 0;
      while startPoint < target
        invariant Known(timers, store)
        invariant Steps(Model(), timers, timeStep, target - startPoint) == Steps(start, timers, timeStep, target)
        decreases target - startPoint
      {
        var step := Min(timeStep, target - startPoint);
        startPoint := startPoint + step;
        Round(timers, step);
      }
    }

    method Advance(target: int, dead: set<EntityId>)
      requires Known(Alive(TimersOf(registry.timers, node), dead), store)
      modifies this
      ensures Model() == Advanced(old(Model()), Alive(TimersOf(registry.timers, node), dead), target)
    {
      var timers := registry.FindTimers(node, dead);
      if timers != [] {
        MinPeriodPositive(timers, store);
        var timeStep := GetTimersMinPeriod(timers);
        AdvanceInSteps(timers, timeStep, target);
      } else {
        AdvanceClock(target);
      }
    }
  }
}
