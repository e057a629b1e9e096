/** What the events of a run have to do with a node's timers: each has the period and the birth with
    which it was created, the list holds those created and neither dropped nor cleared since, and the
    counter is the sum of the advances. */
module ClockHistory {
  import opened Timers
  import opened Registry
  import opened TestClock
  import opened ClockTheorems
  import opened ClockRuns
  import opened Histories
  import History = RegistryHistory

  ghost predicate Happens(evs: seq<Event>, node: NodeId, i: int) {
    0 <= i < |evs| && Enabled(Run(evs[..i], node), node, evs[i])
  }

  lemma RunOneMore(evs: seq<Event>, node: NodeId, ev: Event)
    ensures Run(evs + [ev], node) ==
            if Enabled(Run(evs, node), node, ev) then Next(Run(evs, node), node, ev) else Run(evs, node)
  {
    assert (evs + [ev])[..|evs|] == evs;
  }

  // ----- The counter -----

  /** The sum of all advances of a run. */
  function Sum(evs: seq<Event>): int {
    if evs == [] then 0
    else Sum(evs[..|evs| - 1]) + (match evs[|evs| - 1] case Advance(d) => if d >= 0 then d else 0 case _ => 0)
  }

  /** The counter moves by the advances and by nothing else. */
  lemma {:induction false} CounterIsTheSum(evs: seq<Event>, node: NodeId)
    ensures Run(evs, node).sim.now == Sum(evs)
  {
    if evs != [] {
      var init, ev := evs[..|evs| - 1], evs[|evs| - 1];
      CounterIsTheSum(init, node);
      RunKeepsInv(init, node);
      ListedIsUsable(Run(init, node), node);
      if ev.Advance? && ev.d >= 0 {
        AdvancedNow(Run(init, node).sim, Listed(Run(init, node), node), ev.d);
      }
    }
  }

  // ----- Timers as they were created -----

  /** The timer has this owner, period and birth. */
  predicate IsTimer(w: World, id: EntityId, n: NodeId, period: int, born: int, counter: int) {
    && Created(w, id) && id in w.owner && w.owner[id] == n
    && w.sim.store[id].period == period && w.born[id] == born && w.counter[id] == counter
  }

  lemma PeriodsStay(w: World, node: NodeId, d: int, id: EntityId)
    requires Inv(w, node) && Enabled(w, node, Advance(d)) && id in w.sim.store
    ensures Next(w, node, Advance(d)).sim.store[id].period == w.sim.store[id].period
  {
    var ids := Listed(w, node);
    ListedIsUsable(w, node);
    if ids != [] {
      MinPeriodPositive(ids, w.sim.store);
      StepsKeepPeriod(w.sim, ids, MinPeriod(ids, w.sim.store), d, id);
    }
  }

  lemma TimerStep(w: World, node: NodeId, ev: Event, id: EntityId, n: NodeId, period: int, born: int, counter: int)
    requires Inv(w, node) && Enabled(w, node, ev)
    ensures IsTimer(Next(w, node, ev), id, n, period, born, counter) <==>
            (ev == Create(n, id, period) && w.sim.rosTime == born && w.sim.now == counter)
            || IsTimer(w, id, n, period, born, counter)
  {
    match ev {
      case Create(_, _, _) =>
      case Drop(_) =>
      case ClearRegistry =>
      case ResetClock(_) =>
      case Advance(d) =>
        if id in w.sim.store {
          PeriodsStay(w, node, d, id);
        }
    }
  }

  /** Over every run, a timer has the owner and the period with which it was created, and was born at
      the readings of override and counter at its creation. */
  lemma TimersAreCreated(evs: seq<Event>, node: NodeId, id: EntityId, n: NodeId, period: int, born: int, counter: int)
    ensures IsTimer(Run(evs, node), id, n, period, born, counter) <==>
            exists i :: Happens(evs, node, i) && evs[i] == Create(n, id, period)
                        && Run(evs[..i], node).sim.rosTime == born && Run(evs[..i], node).sim.now == counter
  {
    var holds := (before: seq<Event>) => IsTimer(Run(before, node), id, n, period, born, counter);
    var begins := (before: seq<Event>, ev: Event) =>
      Enabled(Run(before, node), node, ev) && ev == Create(n, id, period)
      && Run(before, node).sim.rosTime == born && Run(before, node).sim.now == counter;
    forall before, ev
      ensures holds(before + [ev]) <==> begins(before, ev) || holds(before)
    {
      RunOneMore(before, node, ev);
      RunKeepsInv(before, node);
      if Enabled(Run(before, node), node, ev) {
        TimerStep(Run(before, node), node, ev, id, n, period, born, counter);
      }
    }
    Ever(holds, begins, evs);
  }

  // ----- The list -----

  /** Only created timers are dropped. */
  ghost predicate DeadAreCreated(w: World) {
    w.reg.dead <= w.sim.store.Keys
  }

  lemma {:induction false} RunKeepsDead(evs: seq<Event>, node: NodeId)
    ensures DeadAreCreated(Run(evs, node))
  {
    if evs != [] {
      RunKeepsDead(evs[..|evs| - 1], node);
    }
  }

  lemma ListStep(w: World, node: NodeId, ev: Event)
    requires DeadAreCreated(w) && Enabled(w, node, ev)
    ensures Listed(Next(w, node, ev), node) ==
            match ev
            case Create(n, id, _) => if n == node then Listed(w, node) + [id] else Listed(w, node)
            case Drop(id) => Alive(Listed(w, node), {id})
            case ClearRegistry => []
            case _ => Listed(w, node)
  {
    match ev {
      case Create(n, id, period) => ListedAfterCreate(w, node, n, id, period);
      case Drop(id) => History.AliveTwice(TimersOf(w.reg.timers, node), w.reg.dead, id);
      case ClearRegistry =>
      case ResetClock(_) =>
      case Advance(_) =>
    }
  }

  predicate Creates(ev: Event, node: NodeId, id: EntityId) {
    ev.Create? && ev.node == node && ev.id == id
  }

  lemma MemberStep(w: World, node: NodeId, ev: Event, id: EntityId)
    requires DeadAreCreated(w) && Enabled(w, node, ev)
    ensures id in Listed(Next(w, node, ev), node) <==>
            Creates(ev, node, id) || (id in Listed(w, node) && ev != Drop(id) && ev != ClearRegistry)
  {
    ListStep(w, node, ev);
    if ev.Drop? {
      History.AliveWithoutOne(Listed(w, node), ev.id, id);
    }
  }

  ghost predicate ListedSince(evs: seq<Event>, node: NodeId, i: int, id: EntityId) {
    && Happens(evs, node, i) && Creates(evs[i], node, id)
    && forall j :: i < j < |evs| && Happens(evs, node, j) ==> evs[j] != Drop(id) && evs[j] != ClearRegistry
  }

  /** Over every run, the timers that an advance finds are those created on the node and neither
      dropped nor cleared from the registry since. */
  lemma ListedWereCreated(evs: seq<Event>, node: NodeId, id: EntityId)
    ensures id in Listed(Run(evs, node), node) <==> exists i :: ListedSince(evs, node, i, id)
  {
    var holds := (before: seq<Event>) => id in Listed(Run(before, node), node);
    var begins := (before: seq<Event>, ev: Event) => Enabled(Run(before, node), node, ev) && Creates(ev, node, id);
    var ends := (before: seq<Event>, ev: Event) =>
      Enabled(Run(before, node), node, ev) && (ev == Drop(id) || ev == ClearRegistry);
    forall before, ev
      ensures holds(before + [ev]) <==> begins(before, ev) || (holds(before) && !ends(before, ev))
    {
      RunOneMore(before, node, ev);
      RunKeepsDead(before, node);
      if Enabled(Run(before, node), node, ev) {
        MemberStep(Run(before, node), node, ev, id);
      }
    }
    Since(holds, begins, ends, evs);
    forall i
      ensures BeganAt(begins, ends, evs, i) <==> ListedSince(evs, node, i, id)
    {
    }
  }
}
