/** What the events of a run have to do with the registry's slots: who holds them, who waits for
    them, and which deferred registrations ran. */
module SlotHistory {
  import opened Options
  import opened Registry
  import opened Lifetimes
  import opened LifetimeTheorems
  import opened CrossNode
  import opened LifetimeHistory
  import opened Histories
  import History = RegistryHistory

  // ----- Slots -----

  /** The object registers directly, under this name. */
  predicate Claims(w: World, e: EntityId, k: Kind, n: NodeId, name: string) {
    && e in w.objs && !IsAction(k) && !k.TimerEntity?
    && w.objs[e].kind == k && w.objs[e].node == n && RegisteredName(k, w.objs[e].name) == name
  }

  /** The lookup of the kind that the event runs, if any. */
  predicate LooksUp(ev: Event, k: Kind) {
    match ev
    case Lookup(k', _, _) => k' == k
    case Find(k', _, name, _, _) => k' == k && SoughtName(k, name).Some?
    case _ => false
  }

  /** The slot is free, and the event gives it to e: e's own adoption, or a lookup that runs the
      deferred registrations while e is the first held object waiting for the slot. */
  predicate Gives(w: World, ev: Event, k: Kind, n: NodeId, name: string, e: EntityId) {
    && Holder(w, k, n, name).None?
    && ((ev == Adopt(e) && Claims(w, e, k, n, name))
        || (LooksUp(ev, k) && FirstHeld(Queue(w, k), w.owned, n, name) == Some(e)))
  }

  lemma HolderAfterAdoption(w: World, x: EntityId, k: Kind, n: NodeId, name: string)
    requires ExpiredOk(w) && Enabled(w, Adopt(x))
    ensures var held := Holder(w, k, n, name);
            Holder(Next(w, Adopt(x)), k, n, name) == if held.None? && Claims(w, x, k, n, name) then Some(x) else held
  {
    var o, s := w.objs[x], History.Run(w.log);
    MapsAfterAdoption(w, x);
    History.DeadIsExpired(w.log, x);
    if !IsAction(o.kind) && !o.kind.TimerEntity? {
      SlotAfterRegister(s.named, s.dead, o.kind, o.node, RegisteredName(o.kind, o.name), x);
    }
  }

  /** A lookup of the kind gives the slot away if it is free; other lookups leave it. */
  lemma HolderAfterAnyLookup(w: World, k': Kind, n': NodeId, name': string, k: Kind, n: NodeId, name: string)
    requires HeapOk(w) && ExpiredOk(w)
    ensures var held := Holder(w, k, n, name);
            Holder(LookedUp(w, k', n', name'), k, n, name) ==
            if k' == k && held.None? then FirstHeld(Queue(w, k), w.owned, n, name) else held
  {
    HolderAfterLookup(w, k, n, name, k', n', name');
    YieldIs(w, k, n, name);
  }

  lemma HolderAfterFind(w: World, k': Kind, n': NodeId, name': string, typ: nat, m: MockId, k: Kind, n: NodeId, name: string)
    requires HeapOk(w) && ExpiredOk(w)
    ensures var held := Holder(w, k, n, name);
            Holder(Found(w, k', n', name', typ, m), k, n, name) ==
            if k' == k && SoughtName(k', name').Some? && held.None? then FirstHeld(Queue(w, k), w.owned, n, name) else held
  {
    if SoughtName(k', name').Some? {
      HolderAfterAnyLookup(w, k', n', SoughtName(k', name').value, k, n, name);
      SameLogSameHolder(LookedUp(w, k', n', SoughtName(k', name').value), Found(w, k', n', name', typ, m), k, n, name);
    }
  }

  lemma SameLogSameHolder(w: World, w': World, k: Kind, n: NodeId, name: string)
    requires w'.log == w.log
    ensures Holder(w', k, n, name) == Holder(w, k, n, name)
  {
  }

  lemma HolderAfterReset(w: World, k: Kind, n: NodeId, name: string)
    ensures Holder(Next(w, Reset), k, n, name) == None
  {
    History.RunSnoc(w.log, History.Clear);
  }

  lemma HolderAfterOthers(w: World, ev: Event, k: Kind, n: NodeId, name: string, e: EntityId)
    requires HeapOk(w) && ExpiredOk(w) && Enabled(w, ev) && !ev.Adopt? && !ev.Destroy?
    ensures Holder(Next(w, ev), k, n, name) == Some(e) <==>
            Gives(w, ev, k, n, name, e) || (Holder(w, k, n, name) == Some(e) && ev != Reset)
  {
    match ev {
      case Lookup(k', n', name') => HolderAfterAnyLookup(w, k', n', name', k, n, name);
      case Find(k', n', name', typ, m) => HolderAfterFind(w, k', n', name', typ, m, k, n, name);
      case Reset => HolderAfterReset(w, k, n, name);
      case Construct(_, _) => SameLogSameHolder(w, Next(w, ev), k, n, name);
      case DropMock(_) => SameLogSameHolder(w, Next(w, ev), k, n, name);
      case Publish(_, _) => SameLogSameHolder(w, Next(w, ev), k, n, name);
    }
  }

  lemma HolderStep(w: World, ev: Event, k: Kind, n: NodeId, name: string, e: EntityId)
    requires HeapOk(w) && ExpiredOk(w) && Enabled(w, ev)
    ensures Holder(Next(w, ev), k, n, name) == Some(e) <==>
            Gives(w, ev, k, n, name, e) || (Holder(w, k, n, name) == Some(e) && ev != Destroy(e) && ev != Reset)
  {
    if ev.Adopt? {
      HolderAfterAdoption(w, ev.e, k, n, name);
    } else if ev.Destroy? {
      HolderAfterDeath(w, ev.e, k, n, name);
    } else {
      HolderAfterOthers(w, ev, k, n, name, e);
    }
  }

  /** The event happens after these, and gives e the slot; or it can end e's holding. */
  ghost predicate GivesAfter(before: seq<Event>, ev: Event, k: Kind, n: NodeId, name: string, e: EntityId) {
    Enabled(Run(before), ev) && Gives(Run(before), ev, k, n, name, e)
  }

  ghost predicate EndsAfter(before: seq<Event>, ev: Event, e: EntityId) {
    Enabled(Run(before), ev) && (ev == Destroy(e) || ev == Reset)
  }

  lemma HolderAfterOneMore(before: seq<Event>, ev: Event, k: Kind, n: NodeId, name: string, e: EntityId)
    ensures Holder(Run(before + [ev]), k, n, name) == Some(e) <==>
            || GivesAfter(before, ev, k, n, name, e)
            || (Holder(Run(before), k, n, name) == Some(e) && !EndsAfter(before, ev, e))
  {
    RunOneMore(before, ev);
    RunKeepsDeferred(before);
    RunKeepsExpired(before);
    if Enabled(Run(before), ev) {
      HolderStep(Run(before), ev, k, n, name, e);
    }
  }

  ghost predicate GivenAt(evs: seq<Event>, i: int, k: Kind, n: NodeId, name: string, e: EntityId) {
    && 0 <= i < |evs| && GivesAfter(evs[..i], evs[i], k, n, name, e)
    && forall j :: i < j < |evs| ==> !EndsAfter(evs[..j], evs[j], e)
  }

  /** Over every run, an object holds a slot if and only if it was given the free slot, by its own
      adoption or as the first held object waiting at a lookup, and neither has it been destroyed
      nor the registry reset since. */
  lemma HolderInEveryRun(evs: seq<Event>, k: Kind, n: NodeId, name: string, e: EntityId)
    ensures Holder(Run(evs), k, n, name) == Some(e) <==> exists i :: GivenAt(evs, i, k, n, name, e)
  {
    var holds := (before: seq<Event>) => Holder(Run(before), k, n, name) == Some(e);
    var begins := (before: seq<Event>, ev: Event) => GivesAfter(before, ev, k, n, name, e);
    var ends := (before: seq<Event>, ev: Event) => EndsAfter(before, ev, e);
    HolderStartsEmpty(k, n, name);
    forall before, ev
      ensures holds(before + [ev]) <==> begins(before, ev) || (holds(before) && !ends(before, ev))
    {
      HolderAfterOneMore(before, ev, k, n, name, e);
    }
    Since(holds, begins, ends, evs);
    forall i
      ensures BeganAt(begins, ends, evs, i) <==> GivenAt(evs, i, k, n, name, e)
    {
    }
  }

  lemma HolderStartsEmpty(k: Kind, n: NodeId, name: string)
    ensures Holder(Run([]), k, n, name) == None
  {
  }

  // ----- Waiting for registration -----

  predicate Waits(w: World, k: Kind, e: EntityId) {
    e in w.objs && EntryOf(e, w.objs[e]) in Queue(w, k)
  }

  lemma WaitersLive(w: World, k: Kind)
    requires DeferredOk(w)
    ensures QueueOk(w, k)
    ensures forall it :: it in Queue(w, k) ==> it.entity in w.live && it.entity in w.objs && w.objs[it.entity].kind == k
  {
    assert QueueOk(w, k);
    forall it | it in Queue(w, k)
      ensures EntryOk(w, k, it)
    {
      var i :| 0 <= i < |Queue(w, k)| && Queue(w, k)[i] == it;
    }
  }

  lemma WaitingAfterConstruct(w: World, x: EntityId, o: Obj, k: Kind, e: EntityId)
    requires DeferredOk(w) && Enabled(w, Construct(x, o))
    ensures Waits(Next(w, Construct(x, o)), k, e) <==> (x == e && o.kind == k && IsAction(k)) || Waits(w, k, e)
  {
    QueueAfterConstruct(w, x, o, k);
    WaitersLive(w, k);
  }

  lemma WaitingAfterDestroy(w: World, x: EntityId, k: Kind, e: EntityId)
    requires DeferredOk(w) && Enabled(w, Destroy(x))
    ensures Waits(Next(w, Destroy(x)), k, e) <==> Waits(w, k, e) && e != x
  {
    QueueAfterDestroy(w, x, k);
    WaitersLive(w, k);
    if k == w.objs[x].kind {
      RemovalIsByIdentity(w, x);
    }
  }

  lemma WaitingAfterLookup(w: World, k': Kind, n: NodeId, name: string, k: Kind, e: EntityId)
    ensures Waits(LookedUp(w, k', n, name), k, e) <==> Waits(w, k, e) && !(k' == k && e in w.owned)
  {
    QueueAfterLookup(w, k, k', n, name);
    KeptMembers(Queue(w, k), w.owned);
  }

  lemma SameQueuesSameWaiting(w: World, w': World, k: Kind, e: EntityId)
    requires w'.objs == w.objs && w'.servers == w.servers && w'.clients == w.clients
    ensures Waits(w', k, e) <==> Waits(w, k, e)
  {
  }

  lemma WaitingAfterOthers(w: World, ev: Event, k: Kind, e: EntityId)
    requires Enabled(w, ev) && !ev.Construct? && !ev.Destroy?
    ensures Waits(Next(w, ev), k, e) <==> Waits(w, k, e) && ev != Reset && !(LooksUp(ev, k) && e in w.owned)
  {
    match ev {
      case Lookup(k', n, name) => WaitingAfterLookup(w, k', n, name, k, e);
      case Find(k', n, name, _, _) =>
        if SoughtName(k', name).Some? {
          WaitingAfterLookup(w, k', n, SoughtName(k', name).value, k, e);
          SameQueuesSameWaiting(LookedUp(w, k', n, SoughtName(k', name).value), Next(w, ev), k, e);
        }
      case Reset => assert Queue(Next(w, ev), k) == [];
      case Adopt(_) => SameQueuesSameWaiting(w, Next(w, ev), k, e);
      case DropMock(_) => SameQueuesSameWaiting(w, Next(w, ev), k, e);
      case Publish(_, _) => SameQueuesSameWaiting(w, Next(w, ev), k, e);
    }
  }

  /** The events that end an object's wait. */
  predicate EndsWait(w: World, ev: Event, k: Kind, e: EntityId) {
    ev == Destroy(e) || ev == Reset || (LooksUp(ev, k) && e in w.owned)
  }

  lemma WaitingStep(w: World, ev: Event, k: Kind, e: EntityId)
    requires DeferredOk(w) && Enabled(w, ev)
    ensures Waits(Next(w, ev), k, e) <==>
            (ev.Construct? && ev.e == e && ev.obj.kind == k && IsAction(k)) || (Waits(w, k, e) && !EndsWait(w, ev, k, e))
  {
    if ev.Construct? {
      WaitingAfterConstruct(w, ev.e, ev.obj, k, e);
    } else if ev.Destroy? {
      WaitingAfterDestroy(w, ev.e, k, e);
    } else {
      WaitingAfterOthers(w, ev, k, e);
    }
  }

  ghost predicate WaitsSince(evs: seq<Event>, i: int, k: Kind, e: EntityId) {
    && Happens(evs, i) && evs[i].Construct? && evs[i].e == e && evs[i].obj.kind == k && IsAction(k)
    && forall j :: i < j < |evs| && Happens(evs, j) ==> !EndsWait(Run(evs[..j]), evs[j], k, e)
  }

  /** Over every run, an object waits for its registration if and only if it was constructed as an
      action server or client and has since neither been destroyed, nor been held at a lookup of its
      kind, nor seen a reset. */
  lemma WaitingInEveryRun(evs: seq<Event>, k: Kind, e: EntityId)
    ensures Waits(Run(evs), k, e) <==> exists i :: WaitsSince(evs, i, k, e)
  {
    var holds := (before: seq<Event>) => Waits(Run(before), k, e);
    var begins := (before: seq<Event>, ev: Event) =>
      Enabled(Run(before), ev) && ev.Construct? && ev.e == e && ev.obj.kind == k && IsAction(k);
    var ends := (before: seq<Event>, ev: Event) => Enabled(Run(before), ev) && EndsWait(Run(before), ev, k, e);
    forall before, ev
      ensures holds(before + [ev]) <==> begins(before, ev) || (holds(before) && !ends(before, ev))
    {
      RunOneMore(before, ev);
      RunKeepsDeferred(before);
      if Enabled(Run(before), ev) {
        WaitingStep(Run(before), ev, k, e);
      }
    }
    Since(holds, begins, ends, evs);
    forall i
      ensures BeganAt(begins, ends, evs, i) <==> WaitsSince(evs, i, k, e)
    {
    }
  }

  // ----- The journal -----

  /** The event runs e's callback, with this success. */
  predicate RunsCallback(w: World, ev: Event, e: EntityId, ok: bool) {
    && (ev.Lookup? || ev.Find?) && LooksUp(ev, ev.k)
    && (exists it :: it in Queue(w, ev.k) && it.entity == e) && ok == (e in w.owned)
  }

  lemma NotesTellRuns(q: seq<LazyEntry>, owned: set<EntityId>, e: EntityId, ok: bool)
    ensures Ran(e, ok) in Notes(q, owned) <==> (exists it :: it in q && it.entity == e) && ok == (e in owned)
    ensures Gone(e) !in Notes(q, owned)
  {
    var notes := Notes(q, owned);
    if Ran(e, ok) in notes {
      var i :| 0 <= i < |notes| && notes[i] == Ran(e, ok);
      assert q[i] in q && q[i].entity == e;
    }
    if (exists it :: it in q && it.entity == e) && ok == (e in owned) {
      var it :| it in q && it.entity == e;
      var i :| 0 <= i < |q| && q[i] == it;
      assert notes[i] == Ran(e, ok);
    }
  }

  lemma JournalAfterLookup(w: World, k: Kind, n: NodeId, name: string, e: EntityId, ok: bool)
    ensures var v := LookedUp(w, k, n, name);
            && (Ran(e, ok) in v.journal <==>
                  Ran(e, ok) in w.journal || ((exists it :: it in Queue(w, k) && it.entity == e) && ok == (e in w.owned)))
            && (Gone(e) in v.journal <==> Gone(e) in w.journal)
  {
    NotesTellRuns(Queue(w, k), w.owned, e, ok);
  }

  lemma JournalAfterFind(w: World, k: Kind, n: NodeId, name: string, typ: nat, m: MockId, e: EntityId, ok: bool)
    requires Enabled(w, Find(k, n, name, typ, m))
    ensures var v := Found(w, k, n, name, typ, m);
            && (Ran(e, ok) in v.journal <==> Ran(e, ok) in w.journal || RunsCallback(w, Find(k, n, name, typ, m), e, ok))
            && (Gone(e) in v.journal <==> Gone(e) in w.journal)
  {
    if SoughtName(k, name).Some? {
      JournalAfterLookup(w, k, n, SoughtName(k, name).value, e, ok);
    }
  }

  lemma JournalStep(w: World, ev: Event, e: EntityId, ok: bool)
    requires Enabled(w, ev)
    ensures Ran(e, ok) in Next(w, ev).journal <==> RunsCallback(w, ev, e, ok) || Ran(e, ok) in w.journal
    ensures Gone(e) in Next(w, ev).journal <==> ev == Destroy(e) || Gone(e) in w.journal
  {
    match ev {
      case Lookup(k, n, name) => JournalAfterLookup(w, k, n, name, e, ok);
      case Find(k, n, name, typ, m) => JournalAfterFind(w, k, n, name, typ, m, e, ok);
      case Construct(_, _) =>
      case Adopt(_) =>
      case Destroy(_) =>
      case DropMock(_) =>
      case Publish(_, _) =>
      case Reset =>
    }
  }

  /** The journal is true: it has a callback's run if and only if a lookup of the kind met the object
      in its queue, with success exactly if the object was held. */
  lemma JournalIsTrue(evs: seq<Event>, e: EntityId, ok: bool)
    ensures Ran(e, ok) in Run(evs).journal <==>
            exists i :: Happens(evs, i) && RunsCallback(Run(evs[..i]), evs[i], e, ok)
  {
    var holds := (before: seq<Event>) => Ran(e, ok) in Run(before).journal;
    var begins := (before: seq<Event>, ev: Event) => Enabled(Run(before), ev) && RunsCallback(Run(before), ev, e, ok);
    forall before, ev
      ensures holds(before + [ev]) <==> begins(before, ev) || holds(before)
    {
      RunOneMore(before, ev);
      if Enabled(Run(before), ev) {
        JournalStep(Run(before), ev, e, ok);
      }
    }
    Ever(holds, begins, evs);
  }

  /** And it has an object's destruction if and only if that happened. */
  lemma DestructionIsNoted(evs: seq<Event>, e: EntityId)
    ensures Gone(e) in Run(evs).journal <==> exists i :: Happens(evs, i) && evs[i] == Destroy(e)
  {
    var holds := (before: seq<Event>) => Gone(e) in Run(before).journal;
    var begins := (before: seq<Event>, ev: Event) => Enabled(Run(before), ev) && ev == Destroy(e);
    forall before, ev
      ensures holds(before + [ev]) <==> begins(before, ev) || holds(before)
    {
      RunOneMore(before, ev);
      if Enabled(Run(before), ev) {
        JournalStep(Run(before), ev, e, true);
      }
    }
    Ever(holds, begins, evs);
  }
}
