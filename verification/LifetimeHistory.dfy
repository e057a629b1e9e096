/** What the events of a run have to do with the world that it leaves: which objects live and are
    held, and which timers a node has, in which order. */
module LifetimeHistory {
  import opened Options
  import opened Registry
  import opened Lifetimes
  import opened LifetimeTheorems
  import opened MockTheorems
  import opened CrossNode
  import opened Histories
  import History = RegistryHistory

  ghost predicate Happens(evs: seq<Event>, i: int) {
    0 <= i < |evs| && Enabled(Run(evs[..i]), evs[i])
  }

  lemma RunOneMore(evs: seq<Event>, ev: Event)
    ensures Run(evs + [ev]) == if Enabled(Run(evs), ev) then Next(Run(evs), ev) else Run(evs)
  {
    assert (evs + [ev])[..|evs|] == evs;
  }

  // ----- Objects -----

  lemma LiveStep(w: World, ev: Event, e: EntityId)
    requires Enabled(w, ev)
    ensures e in Next(w, ev).live <==> (ev.Construct? && ev.e == e) || (e in w.live && ev != Destroy(e))
  {
    match ev {
      case Construct(_, _) =>
      case Adopt(_) =>
      case Destroy(_) =>
      case Lookup(_, _, _) =>
      case Find(_, _, _, _, _) =>
      case DropMock(_) =>
      case Publish(_, _) =>
      case Reset =>
    }
  }

  lemma HeldStep(w: World, ev: Event, e: EntityId)
    requires Enabled(w, ev)
    ensures e in Next(w, ev).owned <==> ev == Adopt(e) || (e in w.owned && ev != Destroy(e))
  {
    match ev {
      case Construct(_, _) =>
      case Adopt(_) =>
      case Destroy(_) =>
      case Lookup(_, _, _) =>
      case Find(_, _, _, _, _) =>
      case DropMock(_) =>
      case Publish(_, _) =>
      case Reset =>
    }
  }

  predicate IsObject(w: World, e: EntityId, o: Obj) {
    e in w.objs && w.objs[e] == o
  }

  lemma ObjectStep(w: World, ev: Event, e: EntityId, o: Obj)
    requires Enabled(w, ev)
    ensures IsObject(Next(w, ev), e, o) <==> ev == Construct(e, o) || IsObject(w, e, o)
  {
    match ev {
      case Construct(_, _) =>
      case Adopt(_) =>
      case Destroy(_) =>
      case Lookup(_, _, _) =>
      case Find(_, _, _, _, _) =>
      case DropMock(_) =>
      case Publish(_, _) =>
      case Reset =>
    }
  }

  /** Nothing of what happened since i is one of the two events. */
  ghost predicate Undisturbed(evs: seq<Event>, i: int, a: Event, b: Event) {
    forall j :: i < j < |evs| && Happens(evs, j) ==> evs[j] != a && evs[j] != b
  }

  /** Over every run: an object is what it was constructed as, it lives until its destruction, and it
      is held from its adoption until then. */
  lemma ObjectsAreConstructed(evs: seq<Event>, e: EntityId, o: Obj)
    ensures IsObject(Run(evs), e, o) <==> exists i :: Happens(evs, i) && evs[i] == Construct(e, o)
  {
    var holds := (before: seq<Event>) => IsObject(Run(before), e, o);
    var begins := (before: seq<Event>, ev: Event) => Enabled(Run(before), ev) && ev == Construct(e, o);
    forall before, ev
      ensures holds(before + [ev]) <==> begins(before, ev) || holds(before)
    {
      RunOneMore(before, ev);
      if Enabled(Run(before), ev) {
        ObjectStep(Run(before), ev, e, o);
      }
    }
    Ever(holds, begins, evs);
  }

  ghost predicate LivesSince(evs: seq<Event>, i: int, e: EntityId) {
    Happens(evs, i) && evs[i].Construct? && evs[i].e == e && Undisturbed(evs, i, Destroy(e), Destroy(e))
  }

  lemma LiveUntilDestroyed(evs: seq<Event>, e: EntityId)
    ensures e in Run(evs).live <==> exists i :: LivesSince(evs, i, e)
  {
    var holds := (before: seq<Event>) => e in Run(before).live;
    var begins := (before: seq<Event>, ev: Event) => Enabled(Run(before), ev) && ev.Construct? && ev.e == e;
    var ends := (before: seq<Event>, ev: Event) => Enabled(Run(before), ev) && ev == Destroy(e);
    forall before, ev
      ensures holds(before + [ev]) <==> begins(before, ev) || (holds(before) && !ends(before, ev))
    {
      RunOneMore(before, ev);
      if Enabled(Run(before), ev) {
        LiveStep(Run(before), ev, e);
      }
    }
    Since(holds, begins, ends, evs);
    forall i
      ensures BeganAt(begins, ends, evs, i) <==> LivesSince(evs, i, e)
    {
    }
  }

  ghost predicate HeldSince(evs: seq<Event>, i: int, e: EntityId) {
    Happens(evs, i) && evs[i] == Adopt(e) && Undisturbed(evs, i, Destroy(e), Destroy(e))
  }

  lemma HeldUntilDestroyed(evs: seq<Event>, e: EntityId)
    ensures e in Run(evs).owned <==> exists i :: HeldSince(evs, i, e)
  {
    var holds := (before: seq<Event>) => e in Run(before).owned;
    var begins := (before: seq<Event>, ev: Event) => Enabled(Run(before), ev) && ev == Adopt(e);
    var ends := (before: seq<Event>, ev: Event) => Enabled(Run(before), ev) && ev == Destroy(e);
    forall before, ev
      ensures holds(before + [ev]) <==> begins(before, ev) || (holds(before) && !ends(before, ev))
    {
      RunOneMore(before, ev);
      if Enabled(Run(before), ev) {
        HeldStep(Run(before), ev, e);
      }
    }
    Since(holds, begins, ends, evs);
    forall i
      ensures BeganAt(begins, ends, evs, i) <==> HeldSince(evs, i, e)
    {
    }
  }

  // ----- Timers -----

  /** The timers that an advance of the node's clock finds. */
  function NodeTimers(w: World, n: NodeId): seq<EntityId> {
    History.FoundTimers(History.Run(w.log), n)
  }

  predicate IsTimerOf(w: World, e: EntityId, n: NodeId) {
    e in w.objs && w.objs[e].kind.TimerEntity? && w.objs[e].node == n
  }

  lemma TimersAfterAdoption(w: World, e: EntityId, n: NodeId)
    requires ExpiredOk(w) && Enabled(w, Adopt(e))
    ensures NodeTimers(Next(w, Adopt(e)), n) == if IsTimerOf(w, e, n) then NodeTimers(w, n) + [e] else NodeTimers(w, n)
  {
    var o := w.objs[e];
    if o.kind.TimerEntity? {
      History.RunSnoc(w.log, History.RegisterTimer(o.node, e));
      History.DeadIsExpired(w.log, e);
      var es := TimersOf(History.Run(w.log).timers, n);
      assert (es + [e])[..|es|] == es;
    } else if !IsAction(o.kind) {
      History.RunSnoc(w.log, History.Register(o.kind, o.node, RegisteredName(o.kind, o.name), e));
    }
  }

  lemma TimersAfterDeath(w: World, e: EntityId, n: NodeId)
    requires Enabled(w, Destroy(e))
    ensures NodeTimers(Next(w, Destroy(e)), n) == Alive(NodeTimers(w, n), {e})
  {
    History.RunSnoc(w.log, History.Expire(e));
    History.AliveTwice(TimersOf(History.Run(w.log).timers, n), History.Run(w.log).dead, e);
  }

  lemma TimersAfterLookup(w: World, k: Kind, n': NodeId, name: string, n: NodeId)
    ensures NodeTimers(LookedUp(w, k, n', name), n) == NodeTimers(w, n)
  {
    StateAfterLookup(w, k, n', name);
  }

  lemma TimersAfterOthers(w: World, ev: Event, n: NodeId)
    requires Enabled(w, ev) && !ev.Adopt? && !ev.Destroy?
    ensures NodeTimers(Next(w, ev), n) == if ev.Reset? then [] else NodeTimers(w, n)
  {
    match ev {
      case Lookup(k, n', name) => TimersAfterLookup(w, k, n', name, n);
      case Find(k, n', name, _, _) =>
        if SoughtName(k, name).Some? {
          TimersAfterLookup(w, k, n', SoughtName(k, name).value, n);
        }
      case Reset => History.RunSnoc(w.log, History.Clear);
      case Construct(_, _) =>
      case DropMock(_) =>
      case Publish(_, _) =>
    }
  }

  lemma MemberStep(w: World, ev: Event, n: NodeId, x: EntityId)
    requires ExpiredOk(w) && Enabled(w, ev)
    ensures x in NodeTimers(Next(w, ev), n) <==>
            (ev == Adopt(x) && IsTimerOf(w, x, n)) || (x in NodeTimers(w, n) && ev != Destroy(x) && ev != Reset)
  {
    if ev.Adopt? {
      TimersAfterAdoption(w, ev.e, n);
    } else if ev.Destroy? {
      TimersAfterDeath(w, ev.e, n);
      History.AliveWithoutOne(NodeTimers(w, n), ev.e, x);
    } else {
      TimersAfterOthers(w, ev, n);
    }
  }

  ghost predicate TimerSince(evs: seq<Event>, i: int, e: EntityId, n: NodeId) {
    && Happens(evs, i) && evs[i] == Adopt(e) && IsTimerOf(Run(evs[..i]), e, n)
    && Undisturbed(evs, i, Destroy(e), Reset)
  }

  /** Over every run, the timers found for a node are exactly its timer objects that were adopted
      since the last reset and have not been destroyed. */
  lemma TimersInEveryRun(evs: seq<Event>, n: NodeId, e: EntityId)
    ensures e in NodeTimers(Run(evs), n) <==> exists i :: TimerSince(evs, i, e, n)
  {
    var holds := (before: seq<Event>) => e in NodeTimers(Run(before), n);
    var begins := (before: seq<Event>, ev: Event) =>
      Enabled(Run(before), ev) && ev == Adopt(e) && IsTimerOf(Run(before), e, n);
    var ends := (before: seq<Event>, ev: Event) => Enabled(Run(before), ev) && (ev == Destroy(e) || ev == Reset);
    forall before, ev
      ensures holds(before + [ev]) <==> begins(before, ev) || (holds(before) && !ends(before, ev))
    {
      RunOneMore(before, ev);
      RunKeepsExpired(before);
      if Enabled(Run(before), ev) {
        MemberStep(Run(before), ev, n, e);
      }
    }
    Since(holds, begins, ends, evs);
    forall i
      ensures BeganAt(begins, ends, evs, i) <==> TimerSince(evs, i, e, n)
    {
    }
  }

  // ----- The order of the timers -----

  lemma OrderStep(w: World, ev: Event, n: NodeId, a: EntityId, b: EntityId)
    requires ExpiredOk(w) && Enabled(w, ev)
    ensures History.Precedes(NodeTimers(Next(w, ev), n), a, b) <==>
            (ev == Adopt(b) && IsTimerOf(w, b, n) && a in NodeTimers(w, n))
            || (History.Precedes(NodeTimers(w, n), a, b) && ev != Destroy(a) && ev != Destroy(b) && ev != Reset)
  {
    if ev.Adopt? {
      TimersAfterAdoption(w, ev.e, n);
      History.PrecedesInLonger(NodeTimers(w, n), ev.e, a, b);
    } else if ev.Destroy? {
      TimersAfterDeath(w, ev.e, n);
      History.PrecedesWithoutOne(NodeTimers(w, n), ev.e, a, b);
    } else {
      TimersAfterOthers(w, ev, n);
    }
  }

  ghost predicate OrderSince(evs: seq<Event>, i: int, a: EntityId, b: EntityId, n: NodeId) {
    && Happens(evs, i) && evs[i] == Adopt(b) && IsTimerOf(Run(evs[..i]), b, n) && a in NodeTimers(Run(evs[..i]), n)
    && Undisturbed(evs, i, Destroy(a), Destroy(b)) && Undisturbed(evs, i, Reset, Reset)
  }

  /** Over every run, the timers found for a node stand in the order of their adoption: one stands
      before another exactly if it was in the list already when the other was adopted, and both
      have stayed since. */
  lemma TimerOrderInEveryRun(evs: seq<Event>, n: NodeId, a: EntityId, b: EntityId)
    ensures History.Precedes(NodeTimers(Run(evs), n), a, b) <==> exists i :: OrderSince(evs, i, a, b, n)
  {
    var holds := (before: seq<Event>) => History.Precedes(NodeTimers(Run(before), n), a, b);
    var begins := (before: seq<Event>, ev: Event) =>
      Enabled(Run(before), ev) && ev == Adopt(b) && IsTimerOf(Run(before), b, n) && a in NodeTimers(Run(before), n);
    var ends := (before: seq<Event>, ev: Event) =>
      Enabled(Run(before), ev) && (ev == Destroy(a) || ev == Destroy(b) || ev == Reset);
    forall before, ev
      ensures holds(before + [ev]) <==> begins(before, ev) || (holds(before) && !ends(before, ev))
    {
      RunOneMore(before, ev);
      RunKeepsExpired(before);
      if Enabled(Run(before), ev) {
        OrderStep(Run(before), ev, n, a, b);
      }
    }
    Since(holds, begins, ends, evs);
    forall i
      ensures BeganAt(begins, ends, evs, i) <==> OrderSince(evs, i, a, b, n)
    {
    }
  }

  /** No timer is found twice. */
  lemma TimersAreDistinct(evs: seq<Event>, n: NodeId, e: EntityId)
    ensures !History.Precedes(NodeTimers(Run(evs), n), e, e)
  {
    TimerOrderInEveryRun(evs, n, e, e);
    forall i | OrderSince(evs, i, e, e, n)
      ensures false
    {
      TimersInEveryRun(evs[..i], n, e);
      var j :| TimerSince(evs[..i], j, e, n);
      HeldUntilDestroyed(evs[..i], e);
      assert HeldSince(evs[..i], j, e);
    }
  }
}
