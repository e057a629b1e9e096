/** What finds do, over whole runs: who is mocked by what, and which outcome a find has when it
    attaches nothing. */
module MockHistory {
  import opened Options
  import opened Registry
  import opened Lifetimes
  import opened LifetimeTheorems
  import opened MockTheorems
  import opened LifetimeHistory
  import opened Histories

  // ----- Who is mocked by what -----

  /** The event is a find that attaches the mock to e. */
  predicate Attaches(w: World, ev: Event, m: MockId, e: EntityId) {
    ev.Find? && ev.m == m && FindOutcome(w, ev.k, ev.n, ev.name, ev.typ) == Attached(e)
  }

  /** A lookup leaves mocks and their table alone. */
  lemma MocksAfterLookup(w: World, k: Kind, n: NodeId, name: string)
    ensures var v := LookedUp(w, k, n, name);
            v.mocks == w.mocks && v.liveMocks == w.liveMocks && v.table == w.table && v.objs == w.objs && v.live == w.live
  {
  }

  /** The state that a find leaves: with the mock attached, or with nothing changed but by its lookup. */
  lemma MocksAfterFind(w: World, k: Kind, n: NodeId, name: string, typ: nat, m: MockId)
    ensures var v, out := Found(w, k, n, name, typ, m), FindOutcome(w, k, n, name, typ);
            && v.objs == w.objs && v.live == w.live
            && (out.Attached? ==>
                  && out.e in w.objs
                  && v.mocks == w.mocks[m := Mock(out.e, w.objs[out.e].addr)] && v.liveMocks == w.liveMocks + {m}
                  && v.table == w.table[w.objs[out.e].addr := m])
            && (!out.Attached? ==> v.mocks == w.mocks && v.liveMocks == w.liveMocks && v.table == w.table)
  {
    if SoughtName(k, name).Some? {
      MocksAfterLookup(w, k, n, SoughtName(k, name).value);
    }
  }

  lemma MockStep(w: World, ev: Event, m: MockId, e: EntityId)
    requires Enabled(w, ev)
    ensures IsMockOf(Next(w, ev), m, e) <==> Attaches(w, ev, m, e) || (IsMockOf(w, m, e) && ev != DropMock(m))
  {
    match ev {
      case Lookup(k, n, name) => MocksAfterLookup(w, k, n, name);
      case Find(k, n, name, typ, m') => MocksAfterFind(w, k, n, name, typ, m');
      case Construct(_, _) =>
      case Adopt(_) =>
      case Destroy(_) =>
      case DropMock(_) =>
      case Publish(_, _) =>
      case Reset =>
    }
  }

  ghost predicate AttachedSince(evs: seq<Event>, i: int, m: MockId, e: EntityId) {
    Happens(evs, i) && Attaches(Run(evs[..i]), evs[i], m, e) && Undisturbed(evs, i, DropMock(m), DropMock(m))
  }

  /** Over every run, a live mock is the mock of an object if and only if a find attached it to that
      object and it has not been destroyed since. */
  lemma MocksInEveryRun(evs: seq<Event>, m: MockId, e: EntityId)
    ensures IsMockOf(Run(evs), m, e) <==> exists i :: AttachedSince(evs, i, m, e)
  {
    var holds := (before: seq<Event>) => IsMockOf(Run(before), m, e);
    var begins := (before: seq<Event>, ev: Event) => Enabled(Run(before), ev) && Attaches(Run(before), ev, m, e);
    var ends := (before: seq<Event>, ev: Event) => Enabled(Run(before), ev) && ev == DropMock(m);
    assert !IsMockOf(START, m, e);
    forall before, ev
      ensures holds(before + [ev]) <==> begins(before, ev) || (holds(before) && !ends(before, ev))
    {
      RunOneMore(before, ev);
      if Enabled(Run(before), ev) {
        MockStep(Run(before), ev, m, e);
      }
    }
    Since(holds, begins, ends, evs);
    forall i
      ensures BeganAt(begins, ends, evs, i) <==> AttachedSince(evs, i, m, e)
    {
    }
  }

  // ----- The effect of one find -----

  lemma FindIsDisciplined(evs: seq<Event>, k: Kind, n: NodeId, name: string, typ: nat, m: MockId)
    requires DisciplinedRun(evs) && Enabled(Run(evs), Find(k, n, name, typ, m))
    ensures DisciplinedRun(evs + [Find(k, n, name, typ, m)])
    ensures Run(evs + [Find(k, n, name, typ, m)]) == Found(Run(evs), k, n, name, typ, m)
  {
    var all := evs + [Find(k, n, name, typ, m)];
    assert all[..|all| - 1] == evs;
  }

  /** After every disciplined run, a find that reports an attachment attaches its mock to the object
      that the lookup yields, and a publication of that object right after it reaches that mock. */
  lemma FindAttachesTheMock(evs: seq<Event>, k: Kind, n: NodeId, name: string, typ: nat, m: MockId, e: EntityId, msg: nat)
    requires DisciplinedRun(evs) && Enabled(Run(evs), Find(k, n, name, typ, m))
    requires FindOutcome(Run(evs), k, n, name, typ) == Attached(e)
    ensures var w, w' := Run(evs), Next(Run(evs), Find(k, n, name, typ, m));
            && SoughtName(k, name).Some? && Yield(w, k, n, SoughtName(k, name).value) == Some(e)
            && IsMockOf(w', m, e)
            && Enabled(w', Publish(e, msg))
            && Next(w', Publish(e, msg)).deliveries == w.deliveries + [Delivery(e, m, msg)]
  {
    var w, w' := Run(evs), Found(Run(evs), k, n, name, typ, m);
    FindIsDisciplined(evs, k, n, name, typ, m);
    RunKeepsInv(evs + [Find(k, n, name, typ, m)]);
    MockStep(w, Find(k, n, name, typ, m), m, e);
    AttachedIsYielded(w, k, n, name, typ, e);
    PublishReaches(w', m, e, msg);
    DeliveriesAfterFind(w, k, n, name, typ, m);
  }

  lemma AttachedIsYielded(w: World, k: Kind, n: NodeId, name: string, typ: nat, e: EntityId)
    requires FindOutcome(w, k, n, name, typ) == Attached(e)
    ensures SoughtName(k, name).Some? && Yield(w, k, n, SoughtName(k, name).value) == Some(e)
  {
  }

  lemma PublishReaches(w: World, m: MockId, e: EntityId, msg: nat)
    requires Inv(w) && IsMockOf(w, m, e)
    ensures Enabled(w, Publish(e, msg))
    ensures Next(w, Publish(e, msg)).deliveries == w.deliveries + [Delivery(e, m, msg)]
  {
    MockAtAddress(w, m, e);
  }

  lemma DeliveriesAfterFind(w: World, k: Kind, n: NodeId, name: string, typ: nat, m: MockId)
    ensures Found(w, k, n, name, typ, m).deliveries == w.deliveries
  {
  }

  /** A find that reports no attachment adds no mock, and whatever it reports it changes nothing about
      the other mocks. */
  lemma FindSparesOthers(w: World, k: Kind, n: NodeId, name: string, typ: nat, m: MockId, m': MockId, x: EntityId)
    requires Enabled(w, Find(k, n, name, typ, m))
    ensures var w' := Next(w, Find(k, n, name, typ, m));
            && (m' != m || !FindOutcome(w, k, n, name, typ).Attached? ==> (IsMockOf(w', m', x) <==> IsMockOf(w, m', x)))
            && (!FindOutcome(w, k, n, name, typ).Attached? ==> w'.liveMocks == w.liveMocks && w'.table == w.table)
  {
    MockStep(w, Find(k, n, name, typ, m), m', x);
    MocksAfterFind(w, k, n, name, typ, m);
  }

  /** After every disciplined run, the destruction of its mock leaves an object without any, so that a
      find can attach a new one; all other mocks stay. */
  lemma DropFreesTheEntity(evs: seq<Event>, m: MockId, e: EntityId)
    requires DisciplinedRun(evs) && IsMockOf(Run(evs), m, e)
    ensures Enabled(Run(evs), DropMock(m))
    ensures var w, w' := Run(evs), Next(Run(evs), DropMock(m));
            && (forall x :: !IsMockOf(w', x, e)) && e in w.objs && LiveMockAt(w', w.objs[e].addr).None?
            && (forall x, a :: x != m ==> (IsMockOf(w', x, a) <==> IsMockOf(w, x, a)))
  {
    var w := Run(evs);
    RunKeepsInv(evs);
    MockAtAddress(w, m, e);
    forall x: MockId, a
      ensures IsMockOf(Next(w, DropMock(m)), x, a) <==> IsMockOf(w, x, a) && x != m
      ensures IsMockOf(w, x, e) ==> x == m
    {
      MockStep(w, DropMock(m), x, a);
      MockAtAddress(w, x, e);
    }
    DropKeepsMocks(w, m);
    StepKeepsDeferred(w, DropMock(m));
    MockedIff(Next(w, DropMock(m)), e);
  }

  // ----- The outcomes -----

  /** What a find has in hand after the lookup: the object of the slot, if it accepts the name. */
  function Sought(w: World, k: Kind, n: NodeId, name: string): Weak {
    match SoughtName(k, name)
    case None => None
    case Some(sought) => Yield(w, k, n, sought)
  }

  ghost predicate IsMocked(w: World, e: EntityId) {
    exists m :: IsMockOf(w, m, e)
  }

  /** The branches after the lookup, by what they mean. */
  lemma OutcomeAfterLookup(w: World, k: Kind, n: NodeId, name: string, typ: nat)
    requires Inv(w)
    ensures var h, out := Holder(w, k, n, name), OutcomeOf(w, k, n, name, typ);
            && (h.Some? ==> h.value in w.objs)
            && (out.NotFound? <==> h.None? || (k.Publisher? && w.objs[h.value].typ != typ))
            && (out.AlreadyAttached? <==>
                  h.Some? && (k.Publisher? ==> w.objs[h.value].typ == typ) && IsMocked(w, h.value))
            && (out.Throws? <==>
                  h.Some? && (k.Service? || k.ActionServer?) && w.objs[h.value].typ != typ && !IsMocked(w, h.value))
            && (out.Attached? ==> h == Some(out.e))
  {
    var h := Holder(w, k, n, name);
    if h.Some? {
      HolderIsOwned(w, k, n, name);
      MockedIff(w, h.value);
    }
  }

  lemma LookupKeepsInv(w: World, k: Kind, n: NodeId, name: string)
    requires Inv(w)
    ensures Inv(LookedUp(w, k, n, name))
    ensures forall e :: IsMocked(LookedUp(w, k, n, name), e) <==> IsMocked(w, e)
  {
    LookupKeeps(w, k, n, name);
    LookupKeepsLog(w, k, n, name);
    LookupKeepsMocks(w, k, n, name);
    assert forall m, e :: IsMockOf(LookedUp(w, k, n, name), m, e) <==> IsMockOf(w, m, e);
  }

  /** After every disciplined run, why a find attaches nothing: it throws for an empty topic name, or
      for an object of the wrong type if the kind is cast by its mock and the object has none; it
      finds nothing if the slot has no live holder, or a publisher of the wrong type; and it warns
      if the object has a mock already. */
  lemma FindOutcomes(evs: seq<Event>, k: Kind, n: NodeId, name: string, typ: nat)
    requires DisciplinedRun(evs)
    ensures var w, h, out := Run(evs), Sought(Run(evs), k, n, name), FindOutcome(Run(evs), k, n, name, typ);
            && (h.Some? ==> h.value in w.objs)
            && var rejected := k.Publisher? && name == "";
            && (out.NotFound? <==> !rejected && (h.None? || (k.Publisher? && w.objs[h.value].typ != typ)))
            && (out.AlreadyAttached? <==>
                  h.Some? && (k.Publisher? ==> w.objs[h.value].typ == typ) && IsMocked(w, h.value))
            && (out.Throws? <==>
                  || rejected
                  || (h.Some? && (k.Service? || k.ActionServer?) && w.objs[h.value].typ != typ && !IsMocked(w, h.value)))
  {
    RunKeepsInv(evs);
    if SoughtName(k, name).Some? {
      LookupKeepsInv(Run(evs), k, n, SoughtName(k, name).value);
      OutcomeAfterLookup(LookedUp(Run(evs), k, n, SoughtName(k, name).value), k, n, SoughtName(k, name).value, typ);
    }
  }
}
