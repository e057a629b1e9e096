/** Mock attachment over whole runs. */
module MockTheorems {
  import opened Options
  import opened Registry
  import opened Lifetimes
  import opened LifetimeTheorems
  import History = RegistryHistory

  // ----- Registered entities -----

  /** A registration names the entity's own kind, node and name, and the entity is held by a
      shared_ptr until it is recorded as expired. */
  ghost predicate RegistrationOk(w: World, ev: History.Event) {
    ev.Register? ==>
      (&& ev.entity in w.objs
       && w.objs[ev.entity].kind == ev.kind && w.objs[ev.entity].node == ev.node
       && RegisteredName(ev.kind, w.objs[ev.entity].name) == ev.name
       && (ev.entity in w.owned || History.Expire(ev.entity) in w.log))
  }

  ghost predicate LogOk(w: World) {
    forall i :: 0 <= i < |w.log| ==> RegistrationOk(w, w.log[i])
  }

  lemma LookupKeepsLog(w: World, k: Kind, n: NodeId, name: string)
    requires DeferredOk(w) && LogOk(w)
    ensures LogOk(LookedUp(w, k, n, name))
  {
    var w', q := LookedUp(w, k, n, name), Queue(w, k);
    var started := Started(q, w.owned);
    StartedProperties(q, w.owned);
    RegistrationsAt(k, started);
    assert QueueOk(w, k);
    forall i | 0 <= i < |w'.log|
      ensures RegistrationOk(w', w'.log[i])
    {
      if i < |w.log| {
        assert w'.log[i] == w.log[i];
        assert RegistrationOk(w, w.log[i]);
      } else if i < |w.log| + |started| {
        var it := started[i - |w.log|];
        assert w'.log[i] == Registrations(k, started)[i - |w.log|];
        assert it in q;
        assert EntryOk(w, k, it);
        assert IsAction(k);
      }
    }
  }

  lemma {:induction false} RegistrationsAt(k: Kind, started: seq<LazyEntry>)
    ensures |Registrations(k, started)| == |started|
    ensures forall i :: 0 <= i < |started| ==>
              Registrations(k, started)[i] == History.Register(k, started[i].node, started[i].name, started[i].entity)
  {
    if started != [] {
      RegistrationsAt(k, started[..|started| - 1]);
    }
  }

  /** What keeps a registration justified: objects stay, and what is no longer held has expired. */
  lemma RegistrationStays(w: World, w': World, ev: History.Event)
    requires RegistrationOk(w, ev)
    requires forall e :: e in w.objs ==> e in w'.objs && w'.objs[e] == w.objs[e]
    requires forall e :: e in w.owned ==> e in w'.owned || History.Expire(e) in w'.log
    requires w.log <= w'.log
    ensures RegistrationOk(w', ev)
  {
    if ev.Register? && History.Expire(ev.entity) in w.log {
      var i :| 0 <= i < |w.log| && w.log[i] == History.Expire(ev.entity);
      assert w'.log[i] == w.log[i];
    }
  }

  lemma OneMoreKeepsLog(w: World, w': World)
    requires LogOk(w) && w.log <= w'.log && |w'.log| <= |w.log| + 1
    requires forall e :: e in w.objs ==> e in w'.objs && w'.objs[e] == w.objs[e]
    requires forall e :: e in w.owned ==> e in w'.owned || History.Expire(e) in w'.log
    requires |w'.log| > |w.log| ==> RegistrationOk(w', w'.log[|w.log|])
    ensures LogOk(w')
  {
    forall i | 0 <= i < |w'.log|
      ensures RegistrationOk(w', w'.log[i])
    {
      if i < |w.log| {
        assert w'.log[i] == w.log[i];
        RegistrationStays(w, w', w.log[i]);
      }
    }
  }

  lemma FindKeepsLog(w: World, k: Kind, n: NodeId, name: string, typ: nat, m: MockId)
    requires DeferredOk(w) && LogOk(w)
    ensures LogOk(Found(w, k, n, name, typ, m))
  {
    if SoughtName(k, name).Some? {
      LookupKeepsLog(w, k, n, SoughtName(k, name).value);
      OneMoreKeepsLog(LookedUp(w, k, n, SoughtName(k, name).value), Found(w, k, n, name, typ, m));
    }
  }

  lemma DestroyKeepsLog(w: World, e: EntityId)
    requires LogOk(w) && Enabled(w, Destroy(e))
    ensures LogOk(Next(w, Destroy(e)))
  {
    var w' := Next(w, Destroy(e));
    assert w'.log[|w.log|] == History.Expire(e);
    OneMoreKeepsLog(w, w');
  }

  lemma StepKeepsLog(w: World, ev: Event)
    requires DeferredOk(w) && LogOk(w) && Enabled(w, ev)
    ensures LogOk(Next(w, ev))
  {
    match ev {
      case Lookup(k, n, name) => LookupKeepsLog(w, k, n, name);
      case Find(k, n, name, typ, m) => FindKeepsLog(w, k, n, name, typ, m);
      case Destroy(e) => DestroyKeepsLog(w, e);
      case _ => OneMoreKeepsLog(w, Next(w, ev));
    }
  }

  /** The live holder of a slot is held by a shared_ptr and is of the slot's kind and node. */
  lemma HolderIsOwned(w: World, k: Kind, n: NodeId, name: string)
    requires HeapOk(w) && LogOk(w) && Holder(w, k, n, name).Some?
    ensures var e := Holder(w, k, n, name).value;
            && e in w.owned && e in w.live && e in w.objs
            && w.objs[e].kind == k && w.objs[e].node == n && RegisteredName(k, w.objs[e].name) == name
  {
    var e := Holder(w, k, n, name).value;
    History.MapsRefineHistory(w.log, k, n, name);
    History.DeadIsExpired(w.log, e);
    var i := History.HolderHasHeldSince(w.log, k, n, name);
    assert RegistrationOk(w, w.log[i]);
  }

  // ----- Attachment -----

  /** Live mocks and table entries correspond one to one, and every live mock's entity lives at
      the address the mock remembers. */
  ghost predicate MocksOk(w: World) {
    && (forall m :: m in w.liveMocks ==> MockOk(w, m))
    && (forall p :: p in w.table ==> w.table[p] in w.liveMocks && w.table[p] in w.mocks && w.mocks[w.table[p]].addr == p)
  }

  ghost predicate MockOk(w: World, m: MockId) {
    && m in w.mocks
    && w.mocks[m].entity in w.live && w.mocks[m].entity in w.objs
    && w.objs[w.mocks[m].entity].addr == w.mocks[m].addr
    && w.mocks[m].addr in w.table && w.table[w.mocks[m].addr] == m
  }

  /** The live mock of an entity, by identity. */
  ghost predicate IsMockOf(w: World, m: MockId, e: EntityId) {
    m in w.liveMocks && m in w.mocks && w.mocks[m].entity == e
  }

  /** No mock outlives its entity, and the registry is not reset under live mocks. */
  ghost predicate Disciplined(w: World, ev: Event) {
    match ev
    case Destroy(e) => forall m :: m in w.liveMocks ==> !IsMockOf(w, m, e)
    case Reset => w.liveMocks == {}
    case _ => true
  }

  lemma LookupKeepsMocks(w: World, k: Kind, n: NodeId, name: string)
    requires MocksOk(w)
    ensures MocksOk(LookedUp(w, k, n, name))
  {
    assert forall m :: MockOk(w, m) ==> MockOk(LookedUp(w, k, n, name), m);
  }

  lemma AttachKeepsMocks(w: World, e: EntityId, m: MockId)
    requires MocksOk(w) && e in w.live && e in w.objs && m !in w.mocks
    requires LiveMockAt(w, w.objs[e].addr).None?
    ensures MocksOk(AttachTo(w, e, m))
  {
    var w', p := AttachTo(w, e, m), w.objs[e].addr;
    forall x | x in w'.liveMocks
      ensures MockOk(w', x)
    {
      assert x != m ==> MockOk(w, x);
    }
  }

  lemma FindKeepsMocks(w: World, k: Kind, n: NodeId, name: string, typ: nat, m: MockId)
    requires DeferredOk(w) && LogOk(w) && MocksOk(w) && m !in w.mocks
    ensures MocksOk(Found(w, k, n, name, typ, m))
  {
    if SoughtName(k, name).Some? {
      var sought := SoughtName(k, name).value;
      var looked := LookedUp(w, k, n, sought);
      LookupKeeps(w, k, n, sought);
      LookupKeepsLog(w, k, n, sought);
      LookupKeepsMocks(w, k, n, sought);
      var out := OutcomeOf(looked, k, n, sought, typ);
      if out.Attached? {
        HolderIsOwned(looked, k, n, sought);
        AttachKeepsMocks(looked, out.e, m);
      }
    }
  }

  lemma DropKeepsMocks(w: World, m: MockId)
    requires MocksOk(w) && Enabled(w, DropMock(m))
    ensures MocksOk(Next(w, DropMock(m)))
  {
    var w' := Next(w, DropMock(m));
    forall x | x in w'.liveMocks
      ensures MockOk(w', x)
    {
      assert MockOk(w, x) && MockOk(w, m);
    }
  }

  lemma DestroyMocksIff(w: World, e: EntityId)
    requires MocksOk(w) && Enabled(w, Destroy(e))
    ensures MocksOk(Next(w, Destroy(e))) <==> Disciplined(w, Destroy(e))
  {
    var w' := Next(w, Destroy(e));
    forall m | m in w.liveMocks
      ensures MockOk(w', m) <==> !IsMockOf(w, m, e)
    {
      assert MockOk(w, m);
    }
  }

  lemma ResetMocksIff(w: World)
    ensures MocksOk(Next(w, Reset)) <==> w.liveMocks == {}
  {
    if w.liveMocks != {} {
      var m :| m in w.liveMocks;
      assert !MockOk(Next(w, Reset), m);
    }
  }

  lemma OthersKeepMocks(w: World, ev: Event)
    requires MocksOk(w) && Enabled(w, ev) && (ev.Construct? || ev.Adopt? || ev.Publish?)
    ensures MocksOk(Next(w, ev))
  {
    var w' := Next(w, ev);
    assert w'.table == w.table && w'.mocks == w.mocks && w'.liveMocks == w.liveMocks && w.live <= w'.live;
    forall m | m in w'.liveMocks
      ensures MockOk(w', m)
    {
      assert MockOk(w, m);
    }
  }

  /** The exact condition: from a state in which live mocks and attached entities correspond, a
      step leads to such a state if and only if it neither destroys an entity under its mock nor
      resets the registry under live mocks. */
  lemma CorrespondenceKeptIff(w: World, ev: Event)
    requires DeferredOk(w) && LogOk(w) && MocksOk(w) && Enabled(w, ev)
    ensures MocksOk(Next(w, ev)) <==> Disciplined(w, ev)
  {
    match ev {
      case Destroy(e) => DestroyMocksIff(w, e);
      case Lookup(k, n, name) => LookupKeepsMocks(w, k, n, name);
      case Find(k, n, name, typ, m) => FindKeepsMocks(w, k, n, name, typ, m);
      case DropMock(m) => DropKeepsMocks(w, m);
      case Reset => ResetMocksIff(w);
      case _ => OthersKeepMocks(w, ev);
    }
  }

  ghost predicate DisciplinedRun(evs: seq<Event>) {
    evs == [] ||
    (DisciplinedRun(evs[..|evs| - 1]) &&
     var w, ev := Run(evs[..|evs| - 1]), evs[|evs| - 1];
     Enabled(w, ev) ==> Disciplined(w, ev))
  }

  ghost predicate Inv(w: World) {
    DeferredOk(w) && LogOk(w) && MocksOk(w)
  }

  lemma {:induction false} RunKeepsInv(evs: seq<Event>)
    requires DisciplinedRun(evs)
    ensures Inv(Run(evs))
  {
    if evs != [] {
      RunKeepsInv(evs[..|evs| - 1]);
      var w, ev := Run(evs[..|evs| - 1]), evs[|evs| - 1];
      if Enabled(w, ev) {
        StepKeepsDeferred(w, ev);
        StepKeepsLog(w, ev);
        CorrespondenceKeptIff(w, ev);
      }
    }
  }

  /** After a disciplined run no two live mocks serve the same entity, and an address has a live
      mock exactly when the live object there has one. */
  lemma MocksAreOneToOne(evs: seq<Event>, m: MockId, m': MockId, e: EntityId)
    requires DisciplinedRun(evs)
    ensures var w := Run(evs);
            && (IsMockOf(w, m, e) && IsMockOf(w, m', e) ==> m == m')
            && (e in w.live && e in w.objs ==> (LiveMockAt(w, w.objs[e].addr) == Some(m) <==> IsMockOf(w, m, e)))
  {
    RunKeepsInv(evs);
    MockAtAddress(Run(evs), m, e);
    MockAtAddress(Run(evs), m', e);
  }

  lemma MockAtAddress(w: World, m: MockId, e: EntityId)
    requires HeapOk(w) && MocksOk(w)
    ensures e in w.live && e in w.objs ==> (LiveMockAt(w, w.objs[e].addr) == Some(m) <==> IsMockOf(w, m, e))
    ensures IsMockOf(w, m, e) ==> e in w.live && e in w.objs
  {
    if m in w.liveMocks {
      assert MockOk(w, m);
    }
  }

  /** The kinds whose find functions cast the entity that they found. */
  predicate ChecksType(k: Kind) {
    k.Publisher? || k.Service? || k.ActionServer?
  }

  /** The find's branches, in terms of the entity that the lookup yields and its mock. */
  lemma OutcomeAttachesIff(w: World, k: Kind, n: NodeId, name: string, typ: nat)
    requires Inv(w)
    ensures var h := Holder(w, k, n, name);
            OutcomeOf(w, k, n, name, typ).Attached? <==>
            (&& h.Some? && h.value in w.objs
             && (ChecksType(k) ==> w.objs[h.value].typ == typ)
             && forall m :: !IsMockOf(w, m, h.value))
  {
    var h := Holder(w, k, n, name);
    if h.Some? {
      HolderIsOwned(w, k, n, name);
      MockedIff(w, h.value);
    }
  }

  lemma MockedIff(w: World, e: EntityId)
    requires HeapOk(w) && MocksOk(w) && e in w.live && e in w.objs
    ensures LiveMockAt(w, w.objs[e].addr).None? <==> forall m :: !IsMockOf(w, m, e)
  {
    var at := LiveMockAt(w, w.objs[e].addr);
    if at.Some? {
      MockAtAddress(w, at.value, e);
    } else {
      forall m: MockId
        ensures !IsMockOf(w, m, e)
      {
        MockAtAddress(w, m, e);
      }
    }
  }

  /** After a disciplined run a find attaches a new mock if and only if its name is acceptable, the
      slot then has a live holder, the holder is of the requested type or the kind is one whose
      find does not check it, and the holder has no live mock. */
  lemma FindAttachesIff(evs: seq<Event>, k: Kind, n: NodeId, name: string, typ: nat)
    requires DisciplinedRun(evs) && IsMockable(k)
    ensures var w := Run(evs);
            FindOutcome(w, k, n, name, typ).Attached? <==>
            (&& SoughtName(k, name).Some?
             && var h := Yield(w, k, n, SoughtName(k, name).value);
             && h.Some? && h.value in w.objs
             && (ChecksType(k) ==> w.objs[h.value].typ == typ)
             && forall m :: !IsMockOf(w, m, h.value))
  {
    RunKeepsInv(evs);
    if SoughtName(k, name).Some? {
      LookupThenAttachesIff(Run(evs), k, n, SoughtName(k, name).value, typ);
    }
  }

  lemma LookupThenAttachesIff(w: World, k: Kind, n: NodeId, sought: string, typ: nat)
    requires Inv(w)
    ensures var h := Yield(w, k, n, sought);
            OutcomeOf(LookedUp(w, k, n, sought), k, n, sought, typ).Attached? <==>
            (&& h.Some? && h.value in w.objs
             && (ChecksType(k) ==> w.objs[h.value].typ == typ)
             && forall m :: !IsMockOf(w, m, h.value))
  {
    var looked := LookedUp(w, k, n, sought);
    LookupKeeps(w, k, n, sought);
    LookupKeepsLog(w, k, n, sought);
    LookupKeepsMocks(w, k, n, sought);
    OutcomeAttachesIff(looked, k, n, sought, typ);
    assert forall m, e :: IsMockOf(looked, m, e) <==> IsMockOf(w, m, e);
  }

  /** After a disciplined run a publication reaches exactly the live mock of its publisher, and
      nothing if there is none. */
  lemma PublishReachesItsMock(evs: seq<Event>, e: EntityId, msg: nat)
    requires DisciplinedRun(evs) && Enabled(Run(evs), Publish(e, msg))
    ensures var w, w' := Run(evs), Next(Run(evs), Publish(e, msg));
            && (forall m :: IsMockOf(w, m, e) ==> w' == w.(deliveries := w.deliveries + [Delivery(e, m, msg)]))
            && ((forall m :: !IsMockOf(w, m, e)) ==> w' == w)
  {
    var w := Run(evs);
    RunKeepsInv(evs);
    forall m: MockId
      ensures LiveMockAt(w, w.objs[e].addr) == Some(m) <==> IsMockOf(w, m, e)
    {
      MockAtAddress(w, m, e);
    }
  }

  /** Who lives at the address of a live mock is given no mock of its own. */
  lemma NoSecondMock(w: World, e: EntityId, k: Kind, n: NodeId, name: string, typ: nat)
    requires e in w.objs && LiveMockAt(w, w.objs[e].addr).Some? && Holder(w, k, n, name) == Some(e)
    ensures !OutcomeOf(w, k, n, name, typ).Attached?
  {
  }

  lemma AddressIsFree(w: World, e: EntityId, e': EntityId, o': Obj)
    requires HeapOk(w) && e in w.live && e in w.objs && e' !in w.objs && o'.addr == w.objs[e].addr
    ensures Enabled(Next(w, Destroy(e)), Construct(e', o'))
  {
    var u := Next(w, Destroy(e));
    forall x | x in u.live
      ensures x in u.objs && u.objs[x].addr != o'.addr
    {
      assert x in w.live && x != e;
    }
  }

  lemma MockAfterReuse(w: World, e: EntityId, m: MockId, e': EntityId, o': Obj)
    requires Inv(w) && e in w.live && e in w.objs && IsMockOf(w, m, e)
    requires e' !in w.objs && o'.addr == w.objs[e].addr && Enabled(Next(w, Destroy(e)), Construct(e', o'))
    ensures var v := Next(Next(w, Destroy(e)), Construct(e', o'));
            && e' in v.live && e' in v.objs && v.objs[e'] == o' && v.deliveries == w.deliveries
            && !IsMockOf(v, m, e') && LiveMockAt(v, o'.addr) == Some(m)
  {
    assert MockOk(w, m);
  }

  /** Without the discipline: a mock that outlives its entity captures any later object at the same
      address.  That object is never given a mock of its own, and what it publishes is delivered to
      the mock of the destroyed one. */
  lemma OutlivingMockCapturesSuccessor(w: World, e: EntityId, m: MockId, e': EntityId, o': Obj, msg: nat)
    requires Inv(w) && e in w.live && e in w.objs && IsMockOf(w, m, e)
    requires e' !in w.objs && o'.addr == w.objs[e].addr
    ensures Enabled(w, Destroy(e)) && Enabled(Next(w, Destroy(e)), Construct(e', o'))
    ensures var v := Next(Next(w, Destroy(e)), Construct(e', o'));
            && !IsMockOf(v, m, e') && LiveMockAt(v, o'.addr) == Some(m)
            && Enabled(v, Publish(e', msg))
            && Next(v, Publish(e', msg)).deliveries == w.deliveries + [Delivery(e', m, msg)]
            && forall k, n, name, typ :: Holder(v, k, n, name) == Some(e') ==> !OutcomeOf(v, k, n, name, typ).Attached?
  {
    AddressIsFree(w, e, e', o');
    MockAfterReuse(w, e, m, e', o');
    var v := Next(Next(w, Destroy(e)), Construct(e', o'));
    forall k, n, name, typ | Holder(v, k, n, name) == Some(e')
      ensures !OutcomeOf(v, k, n, name, typ).Attached?
    {
      NoSecondMock(v, e', k, n, name, typ);
    }
  }
}
