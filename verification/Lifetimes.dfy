/** Objects, mocks and the registry over whole runs: construction, adoption by a shared_ptr,
    destruction, lookup, mock attachment and detachment, publishing and reset.  Object and mock
    identities are never reused; addresses are, as soon as their holder is destroyed. */
module Lifetimes {
  import opened Options
  import opened Registry
  import History = RegistryHistory

  datatype Obj = Obj(kind: Kind, node: NodeId, name: string, typ: nat, addr: Addr)

  /** A mock remembers the raw address of its entity; `entity` records whose address that was. */
  datatype Mock = Mock(entity: EntityId, addr: Addr)

  /** Journal of the deferred registrations: what was destroyed, and which callbacks ran. */
  datatype Note = Gone(entity: EntityId) | Ran(entity: EntityId, ok: bool)

  datatype Delivery = Delivery(from: EntityId, to: MockId, msg: nat)

  datatype World = World(
    objs: map<EntityId, Obj>,
    live: set<EntityId>,
    owned: set<EntityId>,
    log: seq<History.Event>,
    servers: seq<LazyEntry>,
    clients: seq<LazyEntry>,
    journal: seq<Note>,
    table: map<Addr, MockId>,
    mocks: map<MockId, Mock>,
    liveMocks: set<MockId>,
    deliveries: seq<Delivery>)

  const START := World(map[], {}, {}, [], [], [], [], map[], map[], {}, [])

  datatype Event =
    | Construct(e: EntityId, obj: Obj)
    | Adopt(e: EntityId)
    | Destroy(e: EntityId)
    | Lookup(k: Kind, n: NodeId, name: string)
    | Find(k: Kind, n: NodeId, name: string, typ: nat, m: MockId)
    | DropMock(m: MockId)
    | Publish(e: EntityId, msg: nat)
    | Reset

  predicate IsAction(k: Kind) {
    k.ActionServer? || k.ActionClient?
  }

  /** The kinds whose find functions attach a mock. */
  predicate IsMockable(k: Kind) {
    !k.Subscription? && !k.TimerEntity?
  }

  // ----- Names -----

  function StripSlash(name: string): string {
    if name != "" && name[0] == '/' then name[1..] else name
  }

  /** The name under which an entity is registered. */
  function RegisteredName(k: Kind, name: string): string {
    if k.Service? || k.ServiceClient? then StripSlash(name) else name
  }

  /** The name that a find function looks up; None where it rejects its argument. */
  function SoughtName(k: Kind, name: string): Option<string> {
    match k
    case Publisher => if name == "" then None else if name[0] == '/' then Some(name) else Some("/" + name)
    case _ => Some(RegisteredName(k, name))
  }

  /** A leading slash is optional on both sides: the name that is sought for a query is the name
      under which an entity of that name, with or without the slash, is registered. */
  lemma SlashIsOptional(k: Kind, name: string)
    requires name != "" && name[0] != '/'
    ensures SoughtName(k, name) == SoughtName(k, "/" + name) || IsAction(k) || !IsMockable(k)
    ensures k.Service? || k.ServiceClient? ==>
              SoughtName(k, name) == Some(RegisteredName(k, name)) == Some(RegisteredName(k, "/" + name))
    ensures k.Publisher? ==> SoughtName(k, name) == Some(RegisteredName(k, "/" + name))
  {
    assert ("/" + name)[1..] == name;
  }

  /** Only that slash is optional: other names stay apart, in registration and in search. */
  lemma NamesStayApart(k: Kind, a: string, b: string)
    ensures RegisteredName(k, a) == RegisteredName(k, b) <==>
            a == b || ((k.Service? || k.ServiceClient?) && (AddsSlash(a, b) || AddsSlash(b, a)))
    ensures SoughtName(k, a) == SoughtName(k, b) <==>
            || a == b
            || ((k.Service? || k.ServiceClient?) && (AddsSlash(a, b) || AddsSlash(b, a)))
            || (k.Publisher? && (AddsSlash(a, b) || AddsSlash(b, a)) && a != "" && b != "")
  {
    assert a != "" ==> a == [a[0]] + a[1..];
    assert b != "" ==> b == [b[0]] + b[1..];
    assert ("/" + a)[1..] == a && ("/" + b)[1..] == b;
  }

  /** One name is the other one, which has no leading slash, with one. */
  predicate AddsSlash(a: string, b: string) {
    a == "/" + b && (b == "" || b[0] != '/')
  }

  // ----- Steps -----

  function Queue(w: World, k: Kind): seq<LazyEntry> {
    match k
    case ActionServer => w.servers
    case ActionClient => w.clients
    case _ => []
  }

  function WithQueue(w: World, k: Kind, q: seq<LazyEntry>): World {
    match k
    case ActionServer => w.(servers := q)
    case ActionClient => w.(clients := q)
    case _ => w
  }

  function EntryOf(e: EntityId, o: Obj): LazyEntry {
    LazyEntry(o.addr, e, o.node, o.name)
  }

  /** The registrations of the started callbacks, as registry events. */
  function Registrations(k: Kind, started: seq<LazyEntry>): seq<History.Event> {
    if started == [] then []
    else
      var it := started[|started| - 1];
      Registrations(k, started[..|started| - 1]) + [History.Register(k, it.node, it.name, it.entity)]
  }

  function Notes(q: seq<LazyEntry>, owned: set<EntityId>): seq<Note> {
    seq(|q|, i requires 0 <= i < |q| => Ran(q[i].entity, q[i].entity in owned))
  }

  function LookedUp(w: World, k: Kind, n: NodeId, name: string): World {
    var q := Queue(w, k);
    WithQueue(w, k, Kept(q, w.owned))
      .(log := w.log + Registrations(k, Started(q, w.owned)) + [History.Lookup(k, n, name)],
        journal := w.journal + Notes(q, w.owned))
  }

  /** The live holder of a slot. */
  function Holder(w: World, k: Kind, n: NodeId, name: string): Weak {
    var s := History.Run(w.log);
    Lock(History.Answer(s, k, n, name), s.dead)
  }

  function LiveMockAt(w: World, p: Addr): Option<MockId> {
    if p in w.table && w.table[p] in w.liveMocks then Some(w.table[p]) else None
  }

  datatype Outcome = Attached(e: EntityId) | AlreadyAttached | NotFound | Throws

  /** The branches of the find functions, after the lookup.  Publishers are cast first; services
      and action servers are cast by the mock's constructor, which throws; the two client kinds
      are not cast at all. */
  function OutcomeOf(w: World, k: Kind, n: NodeId, name: string, typ: nat): Outcome {
    match Holder(w, k, n, name)
    case None => NotFound
    case Some(e) =>
      if e !in w.objs then NotFound
      else
        var o := w.objs[e];
        match k
        case Publisher =>
          if o.typ != typ then NotFound
          else if LiveMockAt(w, o.addr).Some? then AlreadyAttached
          else Attached(e)
        case _ =>
          if LiveMockAt(w, o.addr).Some? then AlreadyAttached
          else if (k.Service? || k.ActionServer?) && o.typ != typ then Throws
          else Attached(e)
  }

  function FindOutcome(w: World, k: Kind, n: NodeId, name: string, typ: nat): Outcome {
    match SoughtName(k, name)
    case None => Throws
    case Some(sought) => OutcomeOf(LookedUp(w, k, n, sought), k, n, sought, typ)
  }

  function AttachTo(w: World, e: EntityId, m: MockId): World
    requires e in w.objs
  {
    var p := w.objs[e].addr;
    w.(table := w.table[p := m], mocks := w.mocks[m := Mock(e, p)], liveMocks := w.liveMocks + {m})
  }

  function Found(w: World, k: Kind, n: NodeId, name: string, typ: nat, m: MockId): World {
    match SoughtName(k, name)
    case None => w
    case Some(sought) =>
      var looked := LookedUp(w, k, n, sought);
      match OutcomeOf(looked, k, n, sought, typ)
      case Attached(e) => if e in looked.objs then AttachTo(looked, e, m) else looked
      case _ => looked
  }

  /** What the runtime can produce: fresh identities, and an address held by no live object. */
  predicate Enabled(w: World, ev: Event) {
    match ev
    case Construct(e, obj) => e !in w.objs && forall x :: x in w.live ==> x in w.objs && w.objs[x].addr != obj.addr
    case Adopt(e) => e in w.live && e !in w.owned && e in w.objs
    case Destroy(e) => e in w.live && e in w.objs
    case Lookup(k, _, _) => !k.TimerEntity?
    case Find(k, _, _, _, m) => m !in w.mocks && IsMockable(k)
    case DropMock(m) => m in w.liveMocks && m in w.mocks
    case Publish(e, _) => e in w.live && e in w.objs
    case _ => true
  }

  function Next(w: World, ev: Event): World
    requires Enabled(w, ev)
  {
    match ev
    case Construct(e, o) =>
      var made := w.(objs := w.objs[e := o], live := w.live + {e});
      WithQueue(made, o.kind, Queue(w, o.kind) + [EntryOf(e, o)])
    case Adopt(e) =>
      var o := w.objs[e];
      var adopted := w.(owned := w.owned + {e});
      if IsAction(o.kind) then adopted
      else if o.kind.TimerEntity? then adopted.(log := w.log + [History.RegisterTimer(o.node, e)])
      else adopted.(log := w.log + [History.Register(o.kind, o.node, RegisteredName(o.kind, o.name), e)])
    case Destroy(e) =>
      var o := w.objs[e];
      WithQueue(w, o.kind, WithoutAddr(Queue(w, o.kind), o.addr))
        .(live := w.live - {e}, owned := w.owned - {e},
          log := w.log + [History.Expire(e)], journal := w.journal + [Gone(e)])
    case Lookup(k, n, name) => LookedUp(w, k, n, name)
    case Find(k, n, name, typ, m) => Found(w, k, n, name, typ, m)
    case DropMock(m) => w.(liveMocks := w.liveMocks - {m}, table := w.table - {w.mocks[m].addr})
    case Publish(e, msg) =>
      (match LiveMockAt(w, w.objs[e].addr)
       case Some(m) => w.(deliveries := w.deliveries + [Delivery(e, m, msg)])
       case None => w)
    case Reset => w.(log := w.log + [History.Clear], servers := [], clients := [], table := map[])
  }

  /** The world after a run; events that cannot happen are passed over. */
  function Run(evs: seq<Event>): World {
    if evs == [] then START
    else
      var w, ev := Run(evs[..|evs| - 1]), evs[|evs| - 1];
      if Enabled(w, ev) then Next(w, ev) else w
  }
}
