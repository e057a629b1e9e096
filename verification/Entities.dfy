/** The constructors, destructors, find functions and publishers of the mocked entities, as
    imperative clients of the registry object.  Each of them takes the registry through one step
    of the run model. */
module Entities {
  import opened Options
  import opened Registry
  import opened Lifetimes
  import opened LifetimeTheorems
  import History = RegistryHistory

  /** Maps, timer lists, mock table and queues are what the run model says. */
  ghost predicate Matches(named: Named, timers: TimerLists, table: map<Addr, MockId>,
                          servers: seq<LazyEntry>, clients: seq<LazyEntry>, w: World) {
    && named == History.Run(w.log).named
    && timers == History.Run(w.log).timers
    && table == w.table
    && servers == w.servers && clients == w.clients
  }

  /** The registry object holds what the run model says. */
  ghost predicate Represents(reg: StaticMocksRegistry, w: World)
    reads reg
  {
    Matches(reg.named, reg.timers, reg.mockTable, reg.lazyServers, reg.lazyClients, w)
  }

  /** weak_ptr::lock of a mock reference. */
  function LockMock(m: Option<MockId>, liveMocks: set<MockId>): Option<MockId> {
    if m.Some? && m.value in liveMocks then m else None
  }

  /** Construction: action servers and clients queue their deferred registration. */
  method ConstructEntity(reg: StaticMocksRegistry, e: EntityId, o: Obj, ghost w: World)
    requires Represents(reg, w) && Enabled(w, Construct(e, o))
    modifies reg
    ensures Represents(reg, Next(w, Construct(e, o)))
  {
    if IsAction(o.kind) {
      reg.RegisterLazyInit(o.kind, LazyEntry(o.addr, e, o.node, o.name));
    }
  }

  /** post_init_setup of the directly registered kinds, and the registration in create_timer. */
  method AdoptEntity(reg: StaticMocksRegistry, e: EntityId, o: Obj, dead: set<EntityId>, ghost w: World)
    requires Represents(reg, w) && Enabled(w, Adopt(e)) && o == w.objs[e] && dead == History.Run(w.log).dead
    modifies reg
    ensures Represents(reg, Next(w, Adopt(e)))
  {
    if o.kind.TimerEntity? {
      reg.RegisterTimer(o.node, e);
      History.RunSnoc(w.log, History.RegisterTimer(o.node, e));
    } else if !IsAction(o.kind) {
      var name := RegisteredName(o.kind, o.name);
      reg.Register(o.kind, o.node, name, e, dead);
      History.RunSnoc(w.log, History.Register(o.kind, o.node, name, e));
    }
  }

  /** What destruction changes in the registry: the queue of the object's kind, and nothing else. */
  lemma QueuesAfterDestroy(w: World, e: EntityId)
    requires Enabled(w, Destroy(e))
    ensures var w', o := Next(w, Destroy(e)), w.objs[e];
            && w'.log == w.log + [History.Expire(e)] && w'.table == w.table
            && w'.servers == (if o.kind.ActionServer? then WithoutAddr(w.servers, o.addr) else w.servers)
            && w'.clients == (if o.kind.ActionClient? then WithoutAddr(w.clients, o.addr) else w.clients)
  {
    match w.objs[e].kind {
      case ActionServer =>
      case ActionClient =>
      case _ =>
    }
  }

  lemma MapsAfterDeath(log: seq<History.Event>, e: EntityId)
    ensures var s, s' := History.Run(log), History.Run(log + [History.Expire(e)]);
            s'.named == s.named && s'.timers == s.timers
  {
    History.RunSnoc(log, History.Expire(e));
  }

  lemma MatchesAfterDestroy(named: Named, timers: TimerLists, table: map<Addr, MockId>,
                            servers: seq<LazyEntry>, clients: seq<LazyEntry>, w: World, e: EntityId)
    requires Enabled(w, Destroy(e)) && Matches(named, timers, table, servers, clients, w)
    ensures var o := w.objs[e];
            Matches(named, timers, table,
                    if o.kind.ActionServer? then WithoutAddr(servers, o.addr) else servers,
                    if o.kind.ActionClient? then WithoutAddr(clients, o.addr) else clients, Next(w, Destroy(e)))
  {
    QueuesAfterDestroy(w, e);
    MapsAfterDeath(w.log, e);
  }

  method DestroyEntity(reg: StaticMocksRegistry, e: EntityId, o: Obj, ghost w: World)
    requires Represents(reg, w) && Enabled(w, Destroy(e)) && o == w.objs[e]
    modifies reg
    ensures Represents(reg, Next(w, Destroy(e)))
  {
    MatchesAfterDestroy(reg.named, reg.timers, reg.mockTable, reg.lazyServers, reg.lazyClients, w, e);
    if IsAction(o.kind) {
      reg.RemoveLazyInit(o.kind, o.addr);
    }
  }

  lemma MatchesAfterLookup(named: Named, timers: TimerLists, table: map<Addr, MockId>,
                           servers: seq<LazyEntry>, clients: seq<LazyEntry>, w: World, k: Kind, n: NodeId, name: string)
    requires Matches(named, timers, table, servers, clients, w)
    ensures var ran := RegisterAll(named, History.Run(w.log).dead, k, Started(Queue(w, k), w.owned));
            && Matches(Touch(ran, k, n), timers, table,
                       if k.ActionServer? then Kept(servers, w.owned) else servers,
                       if k.ActionClient? then Kept(clients, w.owned) else clients, LookedUp(w, k, n, name))
            && Yield(w, k, n, name) == Lock(Slot(ran, k, n, name), History.Run(w.log).dead)
            && (!IsAction(k) ==> ran == named)
  {
    StateAfterLookup(w, k, n, name);
    YieldFromMaps(w, k, n, name);
    if !IsAction(k) {
      assert Queue(w, k) == [];
    }
  }

  /** get* of every kind. */
  method LookUp(reg: StaticMocksRegistry, k: Kind, n: NodeId, name: string,
                dead: set<EntityId>, owned: set<EntityId>, ghost w: World) returns (h: Weak)
    requires Represents(reg, w) && dead == History.Run(w.log).dead && owned == w.owned
    modifies reg
    ensures Represents(reg, LookedUp(w, k, n, name))
    ensures h == Yield(w, k, n, name)
    ensures reg.mockTable == old(reg.mockTable)
  {
    MatchesAfterLookup(reg.named, reg.timers, reg.mockTable, reg.lazyServers, reg.lazyClients, w, k, n, name);
    var found: Weak;
    if IsAction(k) {
      found := reg.GetAction(k, n, name, dead, owned);
    } else {
      found := reg.Get(k, n, name);
    }
    h := Lock(found, dead);
  }

  /** The checks of a find function on the entity that its lookup yielded, and the attachment. */
  method AttachIfFree(reg: StaticMocksRegistry, k: Kind, h: Weak, typ: nat, m: MockId,
                      objs: map<EntityId, Obj>, liveMocks: set<MockId>, ghost w: World, ghost n: NodeId, ghost name: string)
    returns (out: Outcome)
    requires Represents(reg, w) && h == Holder(w, k, n, name) && objs == w.objs && liveMocks == w.liveMocks
    modifies reg`mockTable
    ensures out == OutcomeOf(w, k, n, name, typ)
    ensures out.Attached? ==> out.e in w.objs
    ensures Represents(reg, if out.Attached? then AttachTo(w, out.e, m) else w)
  {
    if h.None? || h.value !in objs {
      return NotFound;
    }
    var o := objs[h.value];
    if k.Publisher? && o.typ != typ {
      return NotFound;
    }
    var attached := reg.GetMock(o.addr);
    if LockMock(attached, liveMocks).Some? {
      return AlreadyAttached;
    }
    if (k.Service? || k.ActionServer?) && o.typ != typ {
      return Throws;
    }
    reg.AttachMock(o.addr, m);
    out := Attached(h.value);
  }

  /** find* of the mockable kinds: look up, check, and attach the new mock m. */
  method FindMock(reg: StaticMocksRegistry, k: Kind, n: NodeId, name: string, typ: nat, m: MockId,
                  objs: map<EntityId, Obj>, dead: set<EntityId>, owned: set<EntityId>, liveMocks: set<MockId>,
                  ghost w: World) returns (out: Outcome)
    requires Represents(reg, w) && Enabled(w, Find(k, n, name, typ, m))
    requires objs == w.objs && dead == History.Run(w.log).dead && owned == w.owned && liveMocks == w.liveMocks
    modifies reg
    ensures Represents(reg, Next(w, Find(k, n, name, typ, m)))
    ensures out == FindOutcome(w, k, n, name, typ)
  {
    var sought := SoughtName(k, name);
    if sought.None? {
      return Throws;
    }
    var h := LookUp(reg, k, n, sought.value, dead, owned, w);
    out := AttachIfFree(reg, k, h, typ, m, objs, liveMocks, LookedUp(w, k, n, sought.value), n, sought.value);
  }

  /** The destructor of a mock. */
  method DestroyMock(reg: StaticMocksRegistry, m: MockId, target: Addr, ghost w: World)
    requires Represents(reg, w) && Enabled(w, DropMock(m)) && target == w.mocks[m].addr
    modifies reg
    ensures Represents(reg, Next(w, DropMock(m)))
  {
    reg.DetachMock(target);
  }

  /** publish_: the message goes to the live mock recorded at the publisher's own address. */
  method PublishMessage(reg: StaticMocksRegistry, e: EntityId, msg: nat, addr: Addr, liveMocks: set<MockId>, ghost w: World)
    returns (to: Option<MockId>)
    requires Represents(reg, w) && Enabled(w, Publish(e, msg)) && addr == w.objs[e].addr && liveMocks == w.liveMocks
    ensures Represents(reg, Next(w, Publish(e, msg)))
    ensures Next(w, Publish(e, msg)).deliveries == w.deliveries + if to.Some? then [Delivery(e, to.value, msg)] else []
  {
    var recorded := reg.GetMock(addr);
    to := LockMock(recorded, liveMocks);
  }

  /** The registry cleaner, at the end of a test suite. */
  method CleanRegistry(reg: StaticMocksRegistry, ghost w: World)
    requires Represents(reg, w)
    modifies reg
    ensures Represents(reg, Next(w, Reset))
  {
    reg.Reset();
    History.RunSnoc(w.log, History.Clear);
  }
}
