/** How far a lookup on one node reaches into others.  Direct registrations are isolated; deferred
    registrations of action servers and clients are run for everybody by anybody's lookup.  The
    theorem at the end says for every event that may follow such a lookup whether another node's
    own lookup after it can tell that the first one happened. */
module CrossNode {
  import opened Options
  import opened Registry
  import opened Lifetimes
  import opened LifetimeTheorems
  import opened MockTheorems
  import History = RegistryHistory

  // ----- Expired entities -----

  /** Only destroyed objects are on record as expired. */
  ghost predicate ExpiredOk(w: World) {
    forall i :: 0 <= i < |w.log| && w.log[i].Expire? ==> w.log[i].entity in w.objs && w.log[i].entity !in w.live
  }

  lemma LookupKeepsExpired(w: World, k: Kind, n: NodeId, name: string)
    requires ExpiredOk(w)
    ensures ExpiredOk(LookedUp(w, k, n, name))
  {
    var started := Started(Queue(w, k), w.owned);
    RegistrationsAt(k, started);
    var w' := LookedUp(w, k, n, name);
    forall i | |w.log| <= i < |w'.log|
      ensures !w'.log[i].Expire?
    {
      if i < |w.log| + |started| {
        assert w'.log[i] == Registrations(k, started)[i - |w.log|];
      }
    }
    assert w'.log[..|w.log|] == w.log;
  }

  lemma {:induction false} RunKeepsExpired(evs: seq<Event>)
    ensures ExpiredOk(Run(evs))
  {
    if evs != [] {
      RunKeepsExpired(evs[..|evs| - 1]);
      var w, ev := Run(evs[..|evs| - 1]), evs[|evs| - 1];
      if Enabled(w, ev) {
        StepKeepsExpired(w, ev);
      }
    }
  }

  lemma StepKeepsExpired(w: World, ev: Event)
    requires ExpiredOk(w) && Enabled(w, ev)
    ensures ExpiredOk(Next(w, ev))
  {
    match ev {
      case Lookup(k, n, name) => LookupKeepsExpired(w, k, n, name);
      case Find(k, n, name, typ, m) =>
        if SoughtName(k, name).Some? {
          LookupKeepsExpired(w, k, n, SoughtName(k, name).value);
        }
      case _ =>
    }
  }

  lemma OwnedIsNotDead(w: World, e: EntityId)
    requires HeapOk(w) && ExpiredOk(w) && e in w.owned
    ensures e !in History.Run(w.log).dead
  {
    History.DeadIsExpired(w.log, e);
  }

  // ----- What a lookup yields, in closed form -----

  /** The first held object that waits for a slot. */
  function FirstHeld(q: seq<LazyEntry>, owned: set<EntityId>, n: NodeId, name: string): Weak {
    if q == [] then None
    else
      var earlier, it := FirstHeld(q[..|q| - 1], owned, n, name), q[|q| - 1];
      if earlier.Some? then earlier
      else if it.entity in owned && it.node == n && it.name == name then Some(it.entity)
      else None
  }

  lemma {:induction false} RegisterAllYields(named: Named, dead: set<EntityId>, k: Kind, q: seq<LazyEntry>,
                                             owned: set<EntityId>, n: NodeId, name: string)
    requires forall e :: e in owned ==> e !in dead
    ensures var held := Lock(Slot(named, k, n, name), dead);
            Lock(Slot(RegisterAll(named, dead, k, Started(q, owned)), k, n, name), dead)
            == if held.Some? then held else FirstHeld(q, owned, n, name)
  {
    if q != [] {
      var init, it := q[..|q| - 1], q[|q| - 1];
      RegisterAllYields(named, dead, k, init, owned, n, name);
      assert q[..|init|] == init && q[..|init| + 1] == q;
      StartedStep(named, dead, k, q, |init|, owned);
      SlotAfterRegister(RegisterAll(named, dead, k, Started(init, owned)), dead, k, it.node, it.name, it.entity);
    }
  }

  /** A lookup yields the live holder, or else the first held object waiting for the slot. */
  lemma YieldIs(w: World, k: Kind, n: NodeId, name: string)
    requires HeapOk(w) && ExpiredOk(w)
    ensures var held := Holder(w, k, n, name);
            Yield(w, k, n, name) == if held.Some? then held else FirstHeld(Queue(w, k), w.owned, n, name)
  {
    var s := History.Run(w.log);
    forall e | e in w.owned
      ensures e !in s.dead
    {
      OwnedIsNotDead(w, e);
    }
    YieldFromMaps(w, k, n, name);
    RegisterAllYields(s.named, s.dead, k, Queue(w, k), w.owned, n, name);
  }

  // ----- A death -----

  lemma {:induction false} FirstHeldWithout(q: seq<LazyEntry>, owned: set<EntityId>, n: NodeId, name: string, e: EntityId)
    ensures FirstHeld(q, owned, n, name) != Some(e) ==>
              FirstHeld(q, owned - {e}, n, name) == FirstHeld(q, owned, n, name)
    ensures FirstHeld(q, owned - {e}, n, name).Some? <==>
              exists it :: it in q && it.entity in owned && it.entity != e && it.node == n && it.name == name
  {
    if q != [] {
      var init, last := q[..|q| - 1], q[|q| - 1];
      assert q == init + [last];
      FirstHeldWithout(init, owned, n, name, e);
      if FirstHeld(q, owned - {e}, n, name).Some? && FirstHeld(init, owned - {e}, n, name).None? {
        assert last in q;
      }
    }
  }

  lemma {:induction false} FirstHeldRemoved(q: seq<LazyEntry>, owned: set<EntityId>, n: NodeId, name: string, p: Addr)
    requires forall i :: 0 <= i < |q| && q[i].rawPtr == p ==> q[i].entity !in owned
    ensures FirstHeld(WithoutAddr(q, p), owned, n, name) == FirstHeld(q, owned, n, name)
  {
    if q != [] {
      var init := q[..|q| - 1];
      FirstHeldRemoved(init, owned, n, name, p);
      var rest := WithoutAddr(q, p);
      assert rest == WithoutAddr(init, p) || rest[..|rest| - 1] == WithoutAddr(init, p);
    }
  }

  /** After a death the slot's holder is the same unless it died. */
  lemma HolderAfterDeath(w: World, e: EntityId, k: Kind, n: NodeId, name: string)
    requires Enabled(w, Destroy(e))
    ensures Holder(Next(w, Destroy(e)), k, n, name) ==
            if Holder(w, k, n, name) == Some(e) then None else Holder(w, k, n, name)
  {
    History.RunSnoc(w.log, History.Expire(e));
  }

  lemma WaitingAfterDeath(w: World, e: EntityId, k: Kind, n: NodeId, name: string)
    requires DeferredOk(w) && Enabled(w, Destroy(e))
    ensures var u := Next(w, Destroy(e));
            FirstHeld(Queue(u, k), u.owned, n, name) == FirstHeld(Queue(w, k), w.owned - {e}, n, name)
  {
    var q, p := Queue(w, k), w.objs[e].addr;
    if w.objs[e].kind == k {
      assert QueueOk(w, k);
      forall i | 0 <= i < |q| && q[i].rawPtr == p
        ensures q[i].entity !in w.owned - {e}
      {
        assert EntryOk(w, k, q[i]);
      }
      FirstHeldRemoved(q, w.owned - {e}, n, name, p);
    }
  }

  /** What a node finds after a death. */
  lemma YieldAfterDeath(w: World, e: EntityId, k: Kind, n: NodeId, name: string)
    requires DeferredOk(w) && ExpiredOk(w) && Enabled(w, Destroy(e))
    ensures var held := Holder(w, k, n, name);
            Yield(Next(w, Destroy(e)), k, n, name) ==
            if held.Some? && held != Some(e) then held else FirstHeld(Queue(w, k), w.owned - {e}, n, name)
  {
    StepKeepsDeferred(w, Destroy(e));
    StepKeepsExpired(w, Destroy(e));
    YieldIs(Next(w, Destroy(e)), k, n, name);
    HolderAfterDeath(w, e, k, n, name);
    WaitingAfterDeath(w, e, k, n, name);
  }

  lemma {:induction false} NobodyWaits(q: seq<LazyEntry>, owned: set<EntityId>, n: NodeId, name: string)
    requires forall i :: 0 <= i < |q| ==> q[i].entity !in owned
    ensures FirstHeld(q, owned, n, name) == None
  {
    if q != [] {
      NobodyWaits(q[..|q| - 1], owned, n, name);
    }
  }

  /** What another node's lookup leaves behind for a slot: it is held by what a lookup would yield,
      and of its queue only those remain that nobody holds. */
  lemma QueueAfterLookup(w: World, k: Kind, k': Kind, n': NodeId, name': string)
    ensures var v := LookedUp(w, k', n', name');
            v.owned == w.owned && Queue(v, k) == if k' == k then Kept(Queue(w, k), w.owned) else Queue(w, k)
  {
    match k {
      case ActionServer =>
      case ActionClient =>
      case _ =>
    }
  }

  lemma HolderAfterLookup(w: World, k: Kind, n: NodeId, name: string, k': Kind, n': NodeId, name': string)
    ensures Holder(LookedUp(w, k', n', name'), k, n, name)
            == if k' == k then Yield(w, k, n, name) else Holder(w, k, n, name)
  {
    MapsAfterForeignLookup(w, k, k', n', name');
    YieldFromMaps(w, k, n, name);
  }

  lemma AfterLookup(w: World, k: Kind, n: NodeId, name: string, k': Kind, n': NodeId, name': string)
    requires DeferredOk(w) && ExpiredOk(w)
    ensures var v := LookedUp(w, k', n', name');
            && DeferredOk(v) && ExpiredOk(v) && v.owned == w.owned
            && Holder(v, k, n, name) == (if k' == k then Yield(w, k, n, name) else Holder(w, k, n, name))
            && Queue(v, k) == (if k' == k then Kept(Queue(w, k), w.owned) else Queue(w, k))
  {
    LookupKeeps(w, k', n', name');
    LookupKeepsExpired(w, k', n', name');
    QueueAfterLookup(w, k, k', n', name');
    HolderAfterLookup(w, k, n, name, k', n', name');
  }

  // ----- A death after the lookup -----

  /** What a node finds after the event differs from what it would have found without the lookup. */
  ghost predicate Noticed(w: World, ev: Event, k: Kind, n: NodeId, name: string, k': Kind, n': NodeId, name': string)
    requires Enabled(w, ev) && Enabled(LookedUp(w, k', n', name'), ev)
  {
    Yield(Next(LookedUp(w, k', n', name'), ev), k, n, name) != Yield(Next(w, ev), k, n, name)
  }

  /** Another held object waits for the slot. */
  ghost predicate AnotherWaits(w: World, e: EntityId, k: Kind, n: NodeId, name: string) {
    exists it :: it in Queue(w, k) && it.entity in w.owned && it.entity != e && it.node == n && it.name == name
  }

  lemma DeathNoticedIff(w: World, e: EntityId, k: Kind, n: NodeId, name: string, k': Kind, n': NodeId, name': string)
    requires DeferredOk(w) && ExpiredOk(w) && Enabled(w, Destroy(e)) && Enabled(LookedUp(w, k', n', name'), Destroy(e))
    ensures Noticed(w, Destroy(e), k, n, name, k', n', name')
            <==> k' == k && Yield(w, k, n, name) == Some(e) && AnotherWaits(w, e, k, n, name)
  {
    var v := LookedUp(w, k', n', name');
    AfterLookup(w, k, n, name, k', n', name');
    YieldAfterDeath(v, e, k, n, name);
    YieldAfterDeath(w, e, k, n, name);
    YieldIs(w, k, n, name);
    FirstHeldWithout(Queue(w, k), w.owned, n, name, e);
    if k' == k {
      KeptProperties(Queue(w, k), w.owned);
      NobodyWaits(Queue(v, k), w.owned - {e}, n, name);
    }
  }

  // ----- An adoption after the lookup -----

  /** One more held object: it becomes the first only by standing before the first. */
  lemma {:induction false} FirstHeldWith(q: seq<LazyEntry>, owned: set<EntityId>, n: NodeId, name: string, e: EntityId)
    requires e !in owned
    ensures FirstHeld(q, owned, n, name) != Some(e)
    ensures || FirstHeld(q, owned + {e}, n, name) == FirstHeld(q, owned, n, name)
            || FirstHeld(q, owned + {e}, n, name) == Some(e)
    ensures FirstHeld(q, owned, n, name) == None ==>
              FirstHeld(Kept(q, owned), owned + {e}, n, name) == FirstHeld(q, owned + {e}, n, name)
  {
    if q != [] {
      var init := q[..|q| - 1];
      FirstHeldWith(init, owned, n, name, e);
      var kept := Kept(q, owned);
      assert kept == Kept(init, owned) || kept[..|kept| - 1] == Kept(init, owned);
    }
  }

  /** The registry's maps after an adoption: only a directly registered kind changes them. */
  lemma MapsAfterAdoption(w: World, e: EntityId)
    requires Enabled(w, Adopt(e))
    ensures var s, s', o := History.Run(w.log), History.Run(Next(w, Adopt(e)).log), w.objs[e];
            && s'.dead == s.dead
            && s'.named == (if IsAction(o.kind) || o.kind.TimerEntity? then s.named
                            else RegisterSlot(s.named, s.dead, o.kind, o.node, RegisteredName(o.kind, o.name), e))
  {
    var o := w.objs[e];
    if o.kind.TimerEntity? {
      History.RunSnoc(w.log, History.RegisterTimer(o.node, e));
    } else if !IsAction(o.kind) {
      History.RunSnoc(w.log, History.Register(o.kind, o.node, RegisteredName(o.kind, o.name), e));
    }
  }

  lemma QueuesAfterAdoption(w: World, e: EntityId, k: Kind)
    requires Enabled(w, Adopt(e))
    ensures Queue(Next(w, Adopt(e)), k) == Queue(w, k) && Next(w, Adopt(e)).owned == w.owned + {e}
  {
  }

  /** What a node finds after an adoption, for the kinds that the adoption does not register. */
  lemma YieldAfterAdoption(w: World, e: EntityId, k: Kind, n: NodeId, name: string)
    requires DeferredOk(w) && ExpiredOk(w) && Enabled(w, Adopt(e))
    requires IsAction(w.objs[e].kind) || IsAction(k)
    ensures var held := Holder(w, k, n, name);
            Yield(Next(w, Adopt(e)), k, n, name) ==
            if held.Some? then held else FirstHeld(Queue(w, k), w.owned + {e}, n, name)
  {
    StepKeepsDeferred(w, Adopt(e));
    StepKeepsExpired(w, Adopt(e));
    YieldIs(Next(w, Adopt(e)), k, n, name);
    QueuesAfterAdoption(w, e, k);
    MapsAfterAdoption(w, e);
    var o, s := w.objs[e], History.Run(w.log);
    if !IsAction(o.kind) {
      SlotAfterRegister(s.named, s.dead, o.kind, o.node, RegisteredName(o.kind, o.name), e);
    }
  }

  /** Maps that answer alike answer alike after the same registration. */
  lemma RegistrationAnswersAlike(a: Named, b: Named, dead: set<EntityId>, k': Kind, n': NodeId, name': string, e: EntityId,
                                 k: Kind)
    requires AnswerAlike(a, b, k)
    ensures AnswerAlike(RegisterSlot(a, dead, k', n', name', e), RegisterSlot(b, dead, k', n', name', e), k)
  {
    SlotAfterRegister(a, dead, k', n', name', e);
    SlotAfterRegister(b, dead, k', n', name', e);
  }

  /** Worlds that answer alike for a directly registered kind yield alike after an adoption. */
  lemma AdoptionYieldsAlike(w: World, v: World, e: EntityId, k: Kind, n: NodeId, name: string)
    requires Enabled(w, Adopt(e)) && Enabled(v, Adopt(e)) && v.objs == w.objs && !IsAction(k)
    requires History.Run(v.log).dead == History.Run(w.log).dead
    requires AnswerAlike(History.Run(v.log).named, History.Run(w.log).named, k)
    ensures Yield(Next(v, Adopt(e)), k, n, name) == Yield(Next(w, Adopt(e)), k, n, name)
  {
    var o, s, t := w.objs[e], History.Run(w.log), History.Run(v.log);
    MapsAfterAdoption(w, e);
    MapsAfterAdoption(v, e);
    RegistrationAnswersAlike(t.named, s.named, s.dead, o.kind, o.node, RegisteredName(o.kind, o.name), e, k);
    DirectYield(Next(w, Adopt(e)), k, n, name);
    DirectYield(Next(v, Adopt(e)), k, n, name);
  }

  /** For a directly registered kind a lookup yields the live holder. */
  lemma DirectYield(w: World, k: Kind, n: NodeId, name: string)
    requires !IsAction(k)
    ensures Yield(w, k, n, name) == Holder(w, k, n, name)
  {
    YieldFromMaps(w, k, n, name);
    assert Queue(w, k) == [];
  }

  /** The slot is free, a held object waits for it, and e's own entry for it stands earlier. */
  predicate Overtakes(w: World, e: EntityId, k: Kind, n: NodeId, name: string) {
    && Holder(w, k, n, name).None?
    && FirstHeld(Queue(w, k), w.owned, n, name).Some?
    && FirstHeld(Queue(w, k), w.owned + {e}, n, name) == Some(e)
  }

  /** An adoption when either its kind or the kind looked up is deferred. */
  lemma AdoptionNoticedIff(w: World, e: EntityId, k: Kind, n: NodeId, name: string, k': Kind, n': NodeId, name': string)
    requires DeferredOk(w) && ExpiredOk(w) && Enabled(w, Adopt(e)) && (IsAction(w.objs[e].kind) || IsAction(k))
    requires Enabled(LookedUp(w, k', n', name'), Adopt(e))
    ensures Noticed(w, Adopt(e), k, n, name, k', n', name') <==> k' == k && Overtakes(w, e, k, n, name)
  {
    AfterLookup(w, k, n, name, k', n', name');
    YieldAfterAdoption(w, e, k, n, name);
    YieldAfterAdoption(LookedUp(w, k', n', name'), e, k, n, name);
    YieldIs(w, k, n, name);
    FirstHeldWith(Queue(w, k), w.owned, n, name, e);
  }

  /** An adoption when neither is deferred. */
  lemma DirectAdoptionIsUnnoticed(w: World, e: EntityId, k: Kind, n: NodeId, name: string,
                                  k': Kind, n': NodeId, name': string)
    requires Enabled(w, Adopt(e)) && !IsAction(k)
    requires Enabled(LookedUp(w, k', n', name'), Adopt(e))
    ensures !Noticed(w, Adopt(e), k, n, name, k', n', name')
    ensures !Overtakes(w, e, k, n, name)
  {
    MapsAfterForeignLookup(w, k, k', n', name');
    assert Queue(w, k) == [];
    AdoptionYieldsAlike(w, LookedUp(w, k', n', name'), e, k, n, name);
  }

  // ----- Every other event -----

  /** Events that leave what every lookup yields as it is. */
  predicate IsSilent(ev: Event) {
    ev.Construct? || ev.Lookup? || ev.Find? || ev.DropMock? || ev.Publish?
  }

  lemma {:induction false} FirstHeldOfLonger(q: seq<LazyEntry>, it: LazyEntry, owned: set<EntityId>, n: NodeId, name: string)
    requires it.entity !in owned
    ensures FirstHeld(q + [it], owned, n, name) == FirstHeld(q, owned, n, name)
  {
    assert (q + [it])[..|q|] == q;
  }

  lemma QueuesAfterConstruct(w: World, e: EntityId, o: Obj, k: Kind)
    requires Enabled(w, Construct(e, o))
    ensures var w' := Next(w, Construct(e, o));
            && w'.log == w.log && w'.owned == w.owned
            && (Queue(w', k) == Queue(w, k) || Queue(w', k) == Queue(w, k) + [EntryOf(e, o)])
  {
  }

  lemma ConstructIsSilent(w: World, e: EntityId, o: Obj, k: Kind, n: NodeId, name: string)
    requires DeferredOk(w) && ExpiredOk(w) && Enabled(w, Construct(e, o))
    ensures Yield(Next(w, Construct(e, o)), k, n, name) == Yield(w, k, n, name)
  {
    StepKeepsDeferred(w, Construct(e, o));
    StepKeepsExpired(w, Construct(e, o));
    YieldIs(w, k, n, name);
    YieldIs(Next(w, Construct(e, o)), k, n, name);
    QueuesAfterConstruct(w, e, o, k);
    FirstHeldOfLonger(Queue(w, k), EntryOf(e, o), w.owned, n, name);
  }

  /** A lookup yields the same in worlds with the same history, queues and held objects. */
  lemma SameYield(w: World, w': World, k: Kind, n: NodeId, name: string)
    requires w'.log == w.log && w'.servers == w.servers && w'.clients == w.clients && w'.owned == w.owned
    ensures Yield(w', k, n, name) == Yield(w, k, n, name)
  {
  }

  lemma FindIsSilent(w: World, k': Kind, n': NodeId, name': string, typ: nat, m: MockId, k: Kind, n: NodeId, name: string)
    ensures Yield(Found(w, k', n', name', typ, m), k, n, name) == Yield(w, k, n, name)
  {
    if SoughtName(k', name').Some? {
      ForeignLookupIsUnnoticed(w, k, n, name, k', n', SoughtName(k', name').value);
      SameYield(LookedUp(w, k', n', SoughtName(k', name').value), Found(w, k', n', name', typ, m), k, n, name);
    }
  }

  lemma SilentEvents(w: World, ev: Event, k: Kind, n: NodeId, name: string)
    requires DeferredOk(w) && ExpiredOk(w) && Enabled(w, ev) && IsSilent(ev)
    ensures Yield(Next(w, ev), k, n, name) == Yield(w, k, n, name)
  {
    match ev {
      case Construct(e, o) => ConstructIsSilent(w, e, o, k, n, name);
      case Lookup(k', n', name') => ForeignLookupIsUnnoticed(w, k, n, name, k', n', name');
      case Find(k', n', name', typ, m) => FindIsSilent(w, k', n', name', typ, m, k, n, name);
      case DropMock(_) => SameYield(w, Next(w, ev), k, n, name);
      case Publish(_, _) => SameYield(w, Next(w, ev), k, n, name);
    }
  }

  lemma SilentEventsAreUnnoticed(w: World, ev: Event, k: Kind, n: NodeId, name: string, k': Kind, n': NodeId, name': string)
    requires DeferredOk(w) && ExpiredOk(w) && IsSilent(ev)
    requires Enabled(w, ev) && Enabled(LookedUp(w, k', n', name'), ev)
    ensures !Noticed(w, ev, k, n, name, k', n', name')
  {
    LookupKeeps(w, k', n', name');
    LookupKeepsExpired(w, k', n', name');
    SilentEvents(w, ev, k, n, name);
    SilentEvents(LookedUp(w, k', n', name'), ev, k, n, name);
    ForeignLookupIsUnnoticed(w, k, n, name, k', n', name');
  }

  lemma NothingAfterReset(w: World, k: Kind, n: NodeId, name: string)
    requires DeferredOk(w) && ExpiredOk(w)
    ensures Yield(Next(w, Reset), k, n, name) == None
  {
    StepKeepsDeferred(w, Reset);
    StepKeepsExpired(w, Reset);
    YieldIs(Next(w, Reset), k, n, name);
    History.RunSnoc(w.log, History.Clear);
    assert Queue(Next(w, Reset), k) == [];
  }

  lemma ResetIsUnnoticed(w: World, k: Kind, n: NodeId, name: string, k': Kind, n': NodeId, name': string)
    requires DeferredOk(w) && ExpiredOk(w)
    ensures !Noticed(w, Reset, k, n, name, k', n', name')
  {
    LookupKeeps(w, k', n', name');
    LookupKeepsExpired(w, k', n', name');
    NothingAfterReset(w, k, n, name);
    NothingAfterReset(LookedUp(w, k', n', name'), k, n, name);
  }

  /** A lookup changes nothing of what can happen next. */
  lemma EnabledAfterLookup(w: World, ev: Event, k': Kind, n': NodeId, name': string)
    ensures Enabled(LookedUp(w, k', n', name'), ev) <==> Enabled(w, ev)
  {
  }

  // ----- The theorem -----

  /** The events that reveal an earlier lookup of the kind: the death of what the slot would have
      yielded while another held object waits for it, and the adoption of an object that stands in
      the queue before the one that the lookup has put into the slot. */
  ghost predicate Reveals(w: World, ev: Event, k: Kind, n: NodeId, name: string) {
    match ev
    case Destroy(e) => Yield(w, k, n, name) == Some(e) && AnotherWaits(w, e, k, n, name)
    case Adopt(e) => Overtakes(w, e, k, n, name)
    case _ => false
  }

  lemma DeathCase(w: World, e: EntityId, k: Kind, n: NodeId, name: string, k': Kind, n': NodeId, name': string)
    requires DeferredOk(w) && ExpiredOk(w) && Enabled(w, Destroy(e)) && Enabled(LookedUp(w, k', n', name'), Destroy(e))
    ensures Noticed(w, Destroy(e), k, n, name, k', n', name') <==> k' == k && Reveals(w, Destroy(e), k, n, name)
  {
    DeathNoticedIff(w, e, k, n, name, k', n', name');
  }

  lemma AdoptionCase(w: World, e: EntityId, k: Kind, n: NodeId, name: string, k': Kind, n': NodeId, name': string)
    requires DeferredOk(w) && ExpiredOk(w) && Enabled(w, Adopt(e)) && Enabled(LookedUp(w, k', n', name'), Adopt(e))
    ensures Noticed(w, Adopt(e), k, n, name, k', n', name') <==> k' == k && Reveals(w, Adopt(e), k, n, name)
  {
    if IsAction(w.objs[e].kind) || IsAction(k) {
      AdoptionNoticedIff(w, e, k, n, name, k', n', name');
    } else {
      DirectAdoptionIsUnnoticed(w, e, k, n, name, k', n', name');
    }
  }

  lemma OtherCase(w: World, ev: Event, k: Kind, n: NodeId, name: string, k': Kind, n': NodeId, name': string)
    requires DeferredOk(w) && ExpiredOk(w) && Enabled(w, ev) && Enabled(LookedUp(w, k', n', name'), ev)
    requires !ev.Destroy? && !ev.Adopt?
    ensures !Noticed(w, ev, k, n, name, k', n', name') && !Reveals(w, ev, k, n, name)
  {
    if ev.Reset? {
      ResetIsUnnoticed(w, k, n, name, k', n', name');
    } else {
      SilentEventsAreUnnoticed(w, ev, k, n, name, k', n', name');
    }
  }

  /** The exact reach of a foreign lookup: whatever the next event is, what a node then finds
      differs from what it would have found without the lookup if and only if the lookup was of the
      same kind and the event reveals it. */
  lemma ForeignLookupNoticedIff(w: World, ev: Event, k: Kind, n: NodeId, name: string, k': Kind, n': NodeId, name': string)
    requires DeferredOk(w) && ExpiredOk(w) && Enabled(w, ev)
    ensures Enabled(LookedUp(w, k', n', name'), ev)
    ensures Noticed(w, ev, k, n, name, k', n', name') <==> k' == k && Reveals(w, ev, k, n, name)
  {
    EnabledAfterLookup(w, ev, k', n', name');
    if ev.Destroy? {
      DeathCase(w, ev.e, k, n, name, k', n', name');
    } else if ev.Adopt? {
      AdoptionCase(w, ev.e, k, n, name, k', n', name');
    } else {
      OtherCase(w, ev, k, n, name, k', n', name');
    }
  }

  /** The same after every run. */
  lemma ForeignLookupInEveryRun(evs: seq<Event>, ev: Event, k: Kind, n: NodeId, name: string,
                                k': Kind, n': NodeId, name': string)
    requires Enabled(Run(evs), ev)
    ensures Enabled(LookedUp(Run(evs), k', n', name'), ev)
    ensures Noticed(Run(evs), ev, k, n, name, k', n', name') <==> k' == k && Reveals(Run(evs), ev, k, n, name)
  {
    RunKeepsDeferred(evs);
    RunKeepsExpired(evs);
    ForeignLookupNoticedIff(Run(evs), ev, k, n, name, k', n', name');
  }

  // ----- Both revealing events occur -----

  const FIRST := Obj(ActionServer, 0, "a", 0, 100)
  const SECOND := Obj(ActionServer, 0, "a", 0, 200)

  lemma RunSnoc(evs: seq<Event>, ev: Event)
    requires Enabled(Run(evs), ev)
    ensures Run(evs + [ev]) == Next(Run(evs), ev)
  {
    assert (evs + [ev])[..|evs|] == evs;
  }

  /** Two action servers of one node under one name, with the given ones held. */
  function TwoServers(owned: set<EntityId>): World {
    START.(objs := map[1 := FIRST, 2 := SECOND], live := {1, 2}, owned := owned,
           servers := [EntryOf(1, FIRST), EntryOf(2, SECOND)])
  }

  lemma TwoServersReached()
    ensures Run([Construct(1, FIRST)] + [Construct(2, SECOND)] + [Adopt(2)]) == TwoServers({2})
    ensures Run([Construct(1, FIRST)] + [Construct(2, SECOND)] + [Adopt(2)] + [Adopt(1)]) == TwoServers({1, 2})
  {
    var a := [Construct(1, FIRST)];
    var b := a + [Construct(2, SECOND)];
    assert [] + a == a;
    RunSnoc([], Construct(1, FIRST));
    RunSnoc(a, Construct(2, SECOND));
    assert {1} + {2} == {1, 2};
    RunSnoc(b, Adopt(2));
    assert {} + {2} == {2} && {2} + {1} == {1, 2};
    RunSnoc(b + [Adopt(2)], Adopt(1));
  }

  lemma TwoServersWait(owned: set<EntityId>)
    ensures var w := TwoServers(owned);
            && Holder(w, ActionServer, 0, "a") == None
            && FirstHeld(Queue(w, ActionServer), owned, 0, "a")
               == if 1 in owned then Some(1) else if 2 in owned then Some(2) else None
  {
    var first, second := EntryOf(1, FIRST), EntryOf(2, SECOND);
    assert [first, second][..1] == [first] && [first][..0] == [];
    assert FirstHeld([], owned, 0, "a") == None;
    assert FirstHeld([first], owned, 0, "a") == if 1 in owned then Some(1) else None;
  }

  /** With the second held and the first not, a lookup of any node puts the second into the slot; the
      first, adopted next, is then not found, although it would have been without the lookup. */
  lemma AdoptionReveals()
    ensures var w := Run([Construct(1, FIRST)] + [Construct(2, SECOND)] + [Adopt(2)]);
            Enabled(w, Adopt(1)) && Reveals(w, Adopt(1), ActionServer, 0, "a")
  {
    TwoServersReached();
    TwoServersWait({2});
    TwoServersWait({2} + {1});
  }

  /** With both held, a lookup of any node puts the first into the slot; after its death the node
      finds nothing, although it would have found the second without the lookup. */
  lemma DeathReveals()
    ensures var w := Run([Construct(1, FIRST)] + [Construct(2, SECOND)] + [Adopt(2)] + [Adopt(1)]);
            Enabled(w, Destroy(1)) && Reveals(w, Destroy(1), ActionServer, 0, "a")
  {
    var evs := [Construct(1, FIRST)] + [Construct(2, SECOND)] + [Adopt(2)] + [Adopt(1)];
    TwoServersReached();
    TwoServersWait({1, 2});
    RunKeepsDeferred(evs);
    RunKeepsExpired(evs);
    YieldIs(TwoServers({1, 2}), ActionServer, 0, "a");
    assert EntryOf(2, SECOND) == TwoServers({1, 2}).servers[1];
  }
}
