/** What every run of objects, mocks and registry keeps. */
module LifetimeTheorems {
  import opened Options
  import opened Registry
  import opened Lifetimes
  import History = RegistryHistory

  // ----- The heap, the queues and their journal -----

  ghost predicate HeapOk(w: World) {
    && w.owned <= w.live <= w.objs.Keys
    && forall e, e' :: e in w.live && e' in w.live && w.objs[e].addr == w.objs[e'].addr ==> e == e'
  }

  /** A queued entry belongs to a live object of that kind, carries its address, and its
      callback has not succeeded yet. */
  ghost predicate EntryOk(w: World, k: Kind, it: LazyEntry) {
    && it.entity in w.live && it.entity in w.objs
    && w.objs[it.entity].kind == k
    && it == EntryOf(it.entity, w.objs[it.entity])
    && Untried(w.journal, it.entity)
  }

  ghost predicate DistinctEntities(q: seq<LazyEntry>) {
    forall i, j :: 0 <= i < j < |q| ==> q[i].entity != q[j].entity
  }

  ghost predicate QueueOk(w: World, k: Kind) {
    && DistinctEntities(Queue(w, k))
    && forall i :: 0 <= i < |Queue(w, k)| ==> EntryOk(w, k, Queue(w, k)[i])
  }

  /** Before a callback of an object runs, nothing but failed runs of it is on record: it was not
      destroyed, and its callback had not succeeded. */
  ghost predicate Sound(journal: seq<Note>) {
    forall i, j :: 0 <= i < j < |journal| && journal[j].Ran? && journal[i].entity == journal[j].entity
      ==> journal[i] == Ran(journal[j].entity, false)
  }

  ghost predicate Untried(journal: seq<Note>, e: EntityId) {
    forall i :: 0 <= i < |journal| && journal[i].entity == e ==> journal[i] == Ran(e, false)
  }

  ghost predicate JournalOk(w: World) {
    && Sound(w.journal)
    && (forall i :: 0 <= i < |w.journal| ==> w.journal[i].entity in w.objs)
  }

  ghost predicate DeferredOk(w: World) {
    HeapOk(w) && (forall k :: QueueOk(w, k)) && JournalOk(w)
  }

  // ----- The queue operations -----

  lemma {:induction false} KeptMembers(q: seq<LazyEntry>, owned: set<EntityId>)
    ensures forall it :: it in Kept(q, owned) <==> it in q && it.entity !in owned
  {
    if q != [] {
      var init := q[..|q| - 1];
      assert q == init + [q[|q| - 1]];
      KeptMembers(init, owned);
    }
  }

  lemma {:induction false} KeptStaysDistinct(q: seq<LazyEntry>, owned: set<EntityId>)
    requires DistinctEntities(q)
    ensures DistinctEntities(Kept(q, owned))
  {
    if q != [] {
      var init, last := q[..|q| - 1], q[|q| - 1];
      KeptStaysDistinct(init, owned);
      KeptMembers(init, owned);
      assert forall it :: it in init ==> it.entity != last.entity;
      assert forall i :: 0 <= i < |Kept(init, owned)| ==> Kept(init, owned)[i] in init;
    }
  }

  lemma KeptProperties(q: seq<LazyEntry>, owned: set<EntityId>)
    ensures forall i :: 0 <= i < |Kept(q, owned)| ==> Kept(q, owned)[i] in q && Kept(q, owned)[i].entity !in owned
    ensures forall it :: it in q && it.entity !in owned ==> it in Kept(q, owned)
    ensures DistinctEntities(q) ==> DistinctEntities(Kept(q, owned))
  {
    KeptMembers(q, owned);
    if DistinctEntities(q) {
      KeptStaysDistinct(q, owned);
    }
  }

  lemma {:induction false} StartedProperties(q: seq<LazyEntry>, owned: set<EntityId>)
    ensures forall i :: 0 <= i < |Started(q, owned)| ==> Started(q, owned)[i] in q && Started(q, owned)[i].entity in owned
    ensures forall it :: it in q && it.entity in owned ==> it in Started(q, owned)
  {
    if q != [] {
      var init := q[..|q| - 1];
      assert q == init + [q[|q| - 1]];
      StartedProperties(init, owned);
    }
  }

  lemma {:induction false} WithoutAddrProperties(q: seq<LazyEntry>, p: Addr)
    ensures forall i :: 0 <= i < |WithoutAddr(q, p)| ==> WithoutAddr(q, p)[i] in q && WithoutAddr(q, p)[i].rawPtr != p
    ensures forall it :: it in q && it.rawPtr != p ==> it in WithoutAddr(q, p)
    ensures DistinctEntities(q) ==> DistinctEntities(WithoutAddr(q, p))
  {
    if q != [] {
      var init := q[..|q| - 1];
      assert q == init + [q[|q| - 1]];
      WithoutAddrProperties(init, p);
    }
  }

  // ----- Preservation, event by event -----

  lemma EntryAfterConstruct(w: World, e: EntityId, o: Obj, k: Kind, it: LazyEntry)
    requires Enabled(w, Construct(e, o)) && EntryOk(w, k, it)
    ensures EntryOk(Next(w, Construct(e, o)), k, it) && it.entity != e
  {
  }

  lemma NewEntryOk(w: World, e: EntityId, o: Obj)
    requires JournalOk(w) && Enabled(w, Construct(e, o))
    ensures EntryOk(Next(w, Construct(e, o)), o.kind, EntryOf(e, o))
  {
    assert Next(w, Construct(e, o)).journal == w.journal;
    assert Untried(w.journal, e);
  }

  lemma QueueAfterConstruct(w: World, e: EntityId, o: Obj, k: Kind)
    requires Enabled(w, Construct(e, o))
    ensures Queue(Next(w, Construct(e, o)), k) == Queue(w, k) + if k == o.kind && IsAction(k) then [EntryOf(e, o)] else []
  {
  }

  lemma ConstructKeepsQueue(w: World, e: EntityId, o: Obj, k: Kind)
    requires QueueOk(w, k) && JournalOk(w) && Enabled(w, Construct(e, o))
    ensures QueueOk(Next(w, Construct(e, o)), k)
  {
    var w', q := Next(w, Construct(e, o)), Queue(w, k);
    QueueAfterConstruct(w, e, o, k);
    forall i | 0 <= i < |q|
      ensures EntryOk(w', k, q[i]) && q[i].entity != e
    {
      EntryAfterConstruct(w, e, o, k, q[i]);
    }
    NewEntryOk(w, e, o);
  }

  lemma ConstructKeeps(w: World, e: EntityId, o: Obj)
    requires DeferredOk(w) && Enabled(w, Construct(e, o))
    ensures DeferredOk(Next(w, Construct(e, o)))
  {
    forall k
      ensures QueueOk(Next(w, Construct(e, o)), k)
    {
      ConstructKeepsQueue(w, e, o, k);
    }
  }

  lemma AdoptKeeps(w: World, e: EntityId)
    requires DeferredOk(w) && Enabled(w, Adopt(e))
    ensures DeferredOk(Next(w, Adopt(e)))
  {
    var w' := Next(w, Adopt(e));
    forall k
      ensures QueueOk(w', k)
    {
      assert QueueOk(w, k);
      assert forall it :: EntryOk(w, k, it) ==> EntryOk(w', k, it);
    }
  }

  /** Removal by address takes out exactly the destroyed object's entry. */
  lemma RemovalIsByIdentity(w: World, e: EntityId)
    requires HeapOk(w) && e in w.live && QueueOk(w, w.objs[e].kind)
    ensures var k := w.objs[e].kind;
            forall it :: it in WithoutAddr(Queue(w, k), w.objs[e].addr) <==> it in Queue(w, k) && it.entity != e
  {
    var k := w.objs[e].kind;
    var q := Queue(w, k);
    WithoutAddrProperties(q, w.objs[e].addr);
    forall it | it in q
      ensures it.rawPtr == w.objs[e].addr <==> it.entity == e
    {
      assert EntryOk(w, k, it);
    }
  }

  lemma QueueAfterDestroy(w: World, e: EntityId, k: Kind)
    requires Enabled(w, Destroy(e))
    ensures var q, o := Queue(w, k), w.objs[e];
            Queue(Next(w, Destroy(e)), k) == if k == o.kind then WithoutAddr(q, o.addr) else q
  {
  }

  lemma EntryAfterDestroy(w: World, e: EntityId, k: Kind, it: LazyEntry)
    requires Enabled(w, Destroy(e)) && EntryOk(w, k, it) && it.entity != e
    ensures EntryOk(Next(w, Destroy(e)), k, it)
  {
  }

  lemma DestroyKeepsQueue(w: World, e: EntityId, k: Kind)
    requires HeapOk(w) && QueueOk(w, k) && Enabled(w, Destroy(e))
    ensures QueueOk(Next(w, Destroy(e)), k)
  {
    var w', q := Next(w, Destroy(e)), Queue(w, k);
    QueueAfterDestroy(w, e, k);
    WithoutAddrProperties(q, w.objs[e].addr);
    if k == w.objs[e].kind {
      RemovalIsByIdentity(w, e);
    }
    forall i | 0 <= i < |Queue(w', k)|
      ensures EntryOk(w', k, Queue(w', k)[i])
    {
      var it := Queue(w', k)[i];
      assert it in q;
      EntryAfterDestroy(w, e, k, it);
    }
  }

  lemma DestroyKeeps(w: World, e: EntityId)
    requires DeferredOk(w) && Enabled(w, Destroy(e))
    ensures DeferredOk(Next(w, Destroy(e)))
  {
    forall k
      ensures QueueOk(Next(w, Destroy(e)), k)
    {
      DestroyKeepsQueue(w, e, k);
    }
  }

  /** The callbacks that one lookup runs extend a sound journal soundly. */
  lemma NotesKeepSound(journal: seq<Note>, q: seq<LazyEntry>, owned: set<EntityId>)
    requires Sound(journal) && DistinctEntities(q)
    requires forall i :: 0 <= i < |q| ==> Untried(journal, q[i].entity)
    ensures Sound(journal + Notes(q, owned))
  {
    var all := journal + Notes(q, owned);
    forall i, j | 0 <= i < j < |all| && all[j].Ran? && all[i].entity == all[j].entity
      ensures all[i] == Ran(all[j].entity, false)
    {
      if j >= |journal| {
        assert all[j].entity == q[j - |journal|].entity;
        if i < |journal| {
          assert Untried(journal, q[j - |journal|].entity);
        }
      }
    }
  }

  lemma NotesKeepUntried(journal: seq<Note>, q: seq<LazyEntry>, owned: set<EntityId>, e: EntityId)
    requires Untried(journal, e) && e !in owned
    ensures Untried(journal + Notes(q, owned), e)
  {
  }

  lemma NotesOfOthers(journal: seq<Note>, q: seq<LazyEntry>, owned: set<EntityId>, e: EntityId)
    requires Untried(journal, e) && forall i :: 0 <= i < |q| ==> q[i].entity != e
    ensures Untried(journal + Notes(q, owned), e)
  {
  }

  lemma LookupKeepsQueue(w: World, k: Kind, n: NodeId, name: string, k': Kind)
    requires QueueOk(w, k) && QueueOk(w, k')
    ensures QueueOk(LookedUp(w, k, n, name), k')
  {
    var w', q := LookedUp(w, k, n, name), Queue(w, k);
    KeptProperties(q, w.owned);
    forall i | 0 <= i < |Queue(w', k')|
      ensures EntryOk(w', k', Queue(w', k')[i])
    {
      var it := Queue(w', k')[i];
      if k' == k {
        assert it in q;
        assert EntryOk(w, k, it);
        NotesKeepUntried(w.journal, q, w.owned, it.entity);
      } else {
        assert EntryOk(w, k', it);
        assert forall j :: 0 <= j < |q| ==> EntryOk(w, k, q[j]);
        NotesOfOthers(w.journal, q, w.owned, it.entity);
      }
    }
  }

  lemma LookupKeeps(w: World, k: Kind, n: NodeId, name: string)
    requires DeferredOk(w)
    ensures DeferredOk(LookedUp(w, k, n, name))
  {
    var q := Queue(w, k);
    assert QueueOk(w, k) && forall i :: 0 <= i < |q| ==> EntryOk(w, k, q[i]);
    NotesKeepSound(w.journal, q, w.owned);
    forall k'
      ensures QueueOk(LookedUp(w, k, n, name), k')
    {
      LookupKeepsQueue(w, k, n, name, k');
    }
  }

  lemma FindKeeps(w: World, k: Kind, n: NodeId, name: string, typ: nat, m: MockId)
    requires DeferredOk(w)
    ensures DeferredOk(Found(w, k, n, name, typ, m))
  {
    if SoughtName(k, name).Some? {
      var looked := LookedUp(w, k, n, SoughtName(k, name).value);
      LookupKeeps(w, k, n, SoughtName(k, name).value);
      SameHeapKeeps(looked, Found(w, k, n, name, typ, m));
    }
  }

  /** Steps that touch neither objects nor queues nor the journal. */
  lemma SameHeapKeeps(w: World, w': World)
    requires DeferredOk(w)
    requires w'.objs == w.objs && w'.live == w.live && w'.owned == w.owned && w'.journal == w.journal
    requires (w'.servers == w.servers && w'.clients == w.clients) || (w'.servers == [] && w'.clients == [])
    ensures DeferredOk(w')
  {
    forall k
      ensures QueueOk(w', k)
    {
      assert QueueOk(w, k);
      assert Queue(w', k) == Queue(w, k) || Queue(w', k) == [];
      assert forall it :: EntryOk(w, k, it) ==> EntryOk(w', k, it);
    }
  }

  lemma StepKeepsDeferred(w: World, ev: Event)
    requires DeferredOk(w) && Enabled(w, ev)
    ensures DeferredOk(Next(w, ev))
  {
    match ev {
      case Construct(e, o) => ConstructKeeps(w, e, o);
      case Adopt(e) => AdoptKeeps(w, e);
      case Destroy(e) => DestroyKeeps(w, e);
      case Lookup(k, n, name) => LookupKeeps(w, k, n, name);
      case Find(k, n, name, typ, m) => FindKeeps(w, k, n, name, typ, m);
      case _ => SameHeapKeeps(w, Next(w, ev));
    }
  }

  lemma {:induction false} RunKeepsDeferred(evs: seq<Event>)
    ensures DeferredOk(Run(evs))
  {
    if evs != [] {
      RunKeepsDeferred(evs[..|evs| - 1]);
      var w, ev := Run(evs[..|evs| - 1]), evs[|evs| - 1];
      if Enabled(w, ev) {
        StepKeepsDeferred(w, ev);
      }
    }
  }

  /** Over every run: the queues hold distinct live objects, no callback runs after its object was
      destroyed, and none runs again once it has succeeded. */
  lemma DeferredExactlyOnce(evs: seq<Event>, k: Kind, i: nat, j: nat)
    ensures var w := Run(evs);
            && DistinctEntities(Queue(w, k))
            && (forall it :: it in Queue(w, k) ==> it.entity in w.live && Ran(it.entity, true) !in w.journal)
            && (i < j < |w.journal| && w.journal[j].Ran? ==>
                  w.journal[i] != Gone(w.journal[j].entity) && w.journal[i] != Ran(w.journal[j].entity, true))
  {
    RunKeepsDeferred(evs);
    var w := Run(evs);
    assert QueueOk(w, k);
    forall it | it in Queue(w, k)
      ensures it.entity in w.live && Ran(it.entity, true) !in w.journal
    {
      assert EntryOk(w, k, it);
    }
  }

  // ----- Nothing is lost -----

  /** A live action object either waits in its queue or was registered. */
  ghost predicate Accounted(w: World) {
    forall e :: e in w.live && e in w.objs && IsAction(w.objs[e].kind) ==> IsAccounted(w, e)
  }

  ghost predicate IsAccounted(w: World, e: EntityId)
    requires e in w.objs
  {
    EntryOf(e, w.objs[e]) in Queue(w, w.objs[e].kind) || Ran(e, true) in w.journal
  }

  /** The callback of a held object in the queue succeeds. */
  lemma HeldObjectRuns(w: World, k: Kind, n: NodeId, name: string, it: LazyEntry)
    requires it in Queue(w, k) && it.entity in w.owned
    ensures Ran(it.entity, true) in LookedUp(w, k, n, name).journal
  {
    var q := Queue(w, k);
    var i :| 0 <= i < |q| && q[i] == it;
    assert LookedUp(w, k, n, name).journal[|w.journal| + i] == Ran(it.entity, true);
  }

  lemma LookupAccounts(w: World, k: Kind, n: NodeId, name: string, e: EntityId)
    requires e in w.objs && IsAction(w.objs[e].kind) && IsAccounted(w, e)
    ensures IsAccounted(LookedUp(w, k, n, name), e)
    ensures w.objs[e].kind == k && e in w.owned ==> Ran(e, true) in LookedUp(w, k, n, name).journal
  {
    var it := EntryOf(e, w.objs[e]);
    if w.objs[e].kind == k && it in Queue(w, k) {
      if e in w.owned {
        HeldObjectRuns(w, k, n, name, it);
      } else {
        KeptMembers(Queue(w, k), w.owned);
      }
    }
  }

  lemma LookupKeepsAccounted(w: World, k: Kind, n: NodeId, name: string)
    requires Accounted(w)
    ensures Accounted(LookedUp(w, k, n, name))
  {
    var w' := LookedUp(w, k, n, name);
    forall e | e in w'.live && e in w'.objs && IsAction(w'.objs[e].kind)
      ensures IsAccounted(w', e)
    {
      LookupAccounts(w, k, n, name, e);
    }
  }

  lemma FindKeepsAccounted(w: World, k: Kind, n: NodeId, name: string, typ: nat, m: MockId)
    requires Accounted(w)
    ensures Accounted(Found(w, k, n, name, typ, m))
  {
    if SoughtName(k, name).Some? {
      LookupKeepsAccounted(w, k, n, SoughtName(k, name).value);
      SameQueuesKeepAccounted(LookedUp(w, k, n, SoughtName(k, name).value), Found(w, k, n, name, typ, m));
    }
  }

  lemma SameQueuesKeepAccounted(w: World, w': World)
    requires Accounted(w) && w'.objs == w.objs && w'.live == w.live && w'.journal == w.journal
    requires w'.servers == w.servers && w'.clients == w.clients
    ensures Accounted(w')
  {
    forall e | e in w'.live && e in w'.objs && IsAction(w'.objs[e].kind)
      ensures IsAccounted(w', e)
    {
      assert IsAccounted(w, e);
      assert Queue(w', w.objs[e].kind) == Queue(w, w.objs[e].kind);
    }
  }

  lemma ConstructKeepsAccounted(w: World, e: EntityId, o: Obj)
    requires Accounted(w) && Enabled(w, Construct(e, o))
    ensures Accounted(Next(w, Construct(e, o)))
  {
    var w' := Next(w, Construct(e, o));
    forall x | x in w'.live && x in w'.objs && IsAction(w'.objs[x].kind)
      ensures IsAccounted(w', x)
    {
      assert x != e ==> IsAccounted(w, x);
    }
  }

  lemma DestroyKeepsAccounted(w: World, e: EntityId)
    requires DeferredOk(w) && Accounted(w) && Enabled(w, Destroy(e))
    ensures Accounted(Next(w, Destroy(e)))
  {
    assert QueueOk(w, w.objs[e].kind);
    RemovalIsByIdentity(w, e);
    var w' := Next(w, Destroy(e));
    forall x | x in w'.live && x in w'.objs && IsAction(w'.objs[x].kind)
      ensures IsAccounted(w', x)
    {
      assert IsAccounted(w, x);
    }
  }

  lemma StepKeepsAccounted(w: World, ev: Event)
    requires DeferredOk(w) && Accounted(w) && Enabled(w, ev) && !ev.Reset?
    ensures Accounted(Next(w, ev))
  {
    match ev {
      case Construct(e, o) => ConstructKeepsAccounted(w, e, o);
      case Destroy(e) => DestroyKeepsAccounted(w, e);
      case Lookup(k, n, name) => LookupKeepsAccounted(w, k, n, name);
      case Find(k, n, name, typ, m) => FindKeepsAccounted(w, k, n, name, typ, m);
      case Adopt(_) => SameQueuesKeepAccounted(w, Next(w, ev));
      case DropMock(_) => SameQueuesKeepAccounted(w, Next(w, ev));
      case Publish(_, _) => SameQueuesKeepAccounted(w, Next(w, ev));
    }
  }

  /** Over every run without a reset, each live action object waits in its queue or was registered. */
  lemma {:induction false} NothingIsLost(evs: seq<Event>)
    requires Reset !in evs
    ensures Accounted(Run(evs))
  {
    if evs != [] {
      var w, ev := Run(evs[..|evs| - 1]), evs[|evs| - 1];
      NothingIsLost(evs[..|evs| - 1]);
      RunKeepsDeferred(evs[..|evs| - 1]);
      if Enabled(w, ev) {
        StepKeepsAccounted(w, ev);
      }
    }
  }

  /** Over every run without a reset, a lookup of a kind leaves every object of that kind that a
      shared_ptr holds registered: its callback has succeeded by then. */
  lemma LookupRegistersAllOwned(evs: seq<Event>, k: Kind, n: NodeId, name: string, e: EntityId)
    requires Reset !in evs && IsAction(k)
    requires e in Run(evs).owned && e in Run(evs).objs && Run(evs).objs[e].kind == k
    ensures Ran(e, true) in LookedUp(Run(evs), k, n, name).journal
  {
    NothingIsLost(evs);
    RunKeepsDeferred(evs);
    LookupAccounts(Run(evs), k, n, name, e);
  }

  // ----- The deferred registrations in the registry's history -----

  /** Appending the registrations of the started callbacks to the history has the effect that the
      registry's own loop has on its maps. */
  lemma {:induction false} RegistrationsRefine(log: seq<History.Event>, k: Kind, started: seq<LazyEntry>)
    ensures var s, s' := History.Run(log), History.Run(log + Registrations(k, started));
            && s'.named == RegisterAll(s.named, s.dead, k, started)
            && s'.dead == s.dead && s'.timers == s.timers
  {
    if started == [] {
      assert log + Registrations(k, started) == log;
    } else {
      var init, it := started[..|started| - 1], started[|started| - 1];
      var ev := History.Register(k, it.node, it.name, it.entity);
      RegistrationsRefine(log, k, init);
      assert log + Registrations(k, started) == (log + Registrations(k, init)) + [ev];
      History.RunSnoc(log + Registrations(k, init), ev);
    }
  }

  lemma {:induction false} NothingToStart(q: seq<LazyEntry>, owned: set<EntityId>)
    ensures Started(Kept(q, owned), owned) == []
  {
    if q != [] {
      var init := q[..|q| - 1];
      NothingToStart(init, owned);
      var kept := Kept(q, owned);
      assert kept == Kept(init, owned) || kept[..|kept| - 1] == Kept(init, owned);
    }
  }

  /** The entity that a node's lookup yields. */
  function Yield(w: World, k: Kind, n: NodeId, name: string): Weak {
    Holder(LookedUp(w, k, n, name), k, n, name)
  }

  /** Two sets of maps that answer alike for one kind. */
  ghost predicate AnswerAlike(a: Named, b: Named, k: Kind) {
    forall n: NodeId, name :: Slot(a, k, n, name) == Slot(b, k, n, name)
  }

  lemma RegisterAnswersAlike(a: Named, b: Named, dead: set<EntityId>, k: Kind, it: LazyEntry)
    requires AnswerAlike(a, b, k)
    ensures AnswerAlike(RegisterSlot(a, dead, k, it.node, it.name, it.entity),
                        RegisterSlot(b, dead, k, it.node, it.name, it.entity), k)
  {
    SlotAfterRegister(a, dead, k, it.node, it.name, it.entity);
    SlotAfterRegister(b, dead, k, it.node, it.name, it.entity);
  }

  lemma {:induction false} RegisterAllAnswersAlike(a: Named, b: Named, dead: set<EntityId>, k: Kind, started: seq<LazyEntry>)
    requires AnswerAlike(a, b, k)
    ensures AnswerAlike(RegisterAll(a, dead, k, started), RegisterAll(b, dead, k, started), k)
  {
    if started != [] {
      var init := started[..|started| - 1];
      RegisterAllAnswersAlike(a, b, dead, k, init);
      RegisterAnswersAlike(RegisterAll(a, dead, k, init), RegisterAll(b, dead, k, init), dead, k, started[|started| - 1]);
    }
  }

  lemma {:induction false} OtherKindsAnswerAlike(a: Named, dead: set<EntityId>, k: Kind, started: seq<LazyEntry>, k': Kind)
    requires k' != k
    ensures AnswerAlike(a, RegisterAll(a, dead, k, started), k')
  {
    if started != [] {
      var init, it := started[..|started| - 1], started[|started| - 1];
      OtherKindsAnswerAlike(a, dead, k, init, k');
      SlotAfterRegister(RegisterAll(a, dead, k, init), dead, k, it.node, it.name, it.entity);
    }
  }

  /** The registry's state after a lookup. */
  lemma StateAfterLookup(w: World, k: Kind, n: NodeId, name: string)
    ensures var s, s' := History.Run(w.log), History.Run(LookedUp(w, k, n, name).log);
            && s'.dead == s.dead && s'.timers == s.timers
            && s'.named == Touch(RegisterAll(s.named, s.dead, k, Started(Queue(w, k), w.owned)), k, n)
  {
    RegistrationsRefine(w.log, k, Started(Queue(w, k), w.owned));
    History.RunSnoc(w.log + Registrations(k, Started(Queue(w, k), w.owned)), History.Lookup(k, n, name));
  }

  /** What a lookup yields, from the maps before it. */
  lemma YieldFromMaps(w: World, k: Kind, n: NodeId, name: string)
    ensures var s := History.Run(w.log);
            Yield(w, k, n, name) ==
            Lock(Slot(RegisterAll(s.named, s.dead, k, Started(Queue(w, k), w.owned)), k, n, name), s.dead)
  {
    StateAfterLookup(w, k, n, name);
  }

  lemma TouchAnswersAlike(a: Named, k: Kind, n: NodeId, k': Kind)
    ensures AnswerAlike(Touch(a, k, n), a, k')
  {
  }

  lemma MapsAfterForeignLookup(w: World, k: Kind, k': Kind, n': NodeId, name': string)
    ensures var s, s' := History.Run(w.log), History.Run(LookedUp(w, k', n', name').log);
            && s'.dead == s.dead
            && AnswerAlike(s'.named,
                           if k' == k then RegisterAll(s.named, s.dead, k, Started(Queue(w, k), w.owned)) else s.named,
                           k)
  {
    StateAfterLookup(w, k', n', name');
    var s, started := History.Run(w.log), Started(Queue(w, k'), w.owned);
    TouchAnswersAlike(RegisterAll(s.named, s.dead, k', started), k', n', k);
    if k' != k {
      OtherKindsAnswerAlike(s.named, s.dead, k', started, k);
    }
  }

  lemma LookupOfSameKindIsUnnoticed(w: World, k: Kind, n: NodeId, name: string, n': NodeId, name': string)
    ensures Yield(LookedUp(w, k, n', name'), k, n, name) == Yield(w, k, n, name)
  {
    MapsAfterForeignLookup(w, k, k, n', name');
    YieldFromMaps(w, k, n, name);
    YieldFromMaps(LookedUp(w, k, n', name'), k, n, name);
    NothingToStart(Queue(w, k), w.owned);
  }

  lemma LookupOfOtherKindIsUnnoticed(w: World, k: Kind, n: NodeId, name: string, k': Kind, n': NodeId, name': string)
    requires k' != k
    ensures Yield(LookedUp(w, k', n', name'), k, n, name) == Yield(w, k, n, name)
  {
    MapsAfterForeignLookup(w, k, k', n', name');
    YieldFromMaps(w, k, n, name);
    YieldFromMaps(LookedUp(w, k', n', name'), k, n, name);
    RegisterAllAnswersAlike(History.Run(LookedUp(w, k', n', name').log).named, History.Run(w.log).named,
                            History.Run(w.log).dead, k, Started(Queue(w, k), w.owned));
  }

  /** A lookup by another node, although it runs everybody's deferred registrations, does not
      change what a node's own next lookup yields. */
  lemma ForeignLookupIsUnnoticed(w: World, k: Kind, n: NodeId, name: string, k': Kind, n': NodeId, name': string)
    ensures Yield(LookedUp(w, k', n', name'), k, n, name) == Yield(w, k, n, name)
  {
    if k' == k {
      LookupOfSameKindIsUnnoticed(w, k, n, name, n', name');
    } else {
      LookupOfOtherKindIsUnnoticed(w, k, n, name, k', n', name');
    }
  }
}
