/** The static registry: nested maps of weak references keyed by node ownership identity and
    by name, per-node timer lists, a mock table keyed by raw address, and two queues of
    deferred action registrations. */
module Registry {
  import opened Options

  /** A node or an entity stands for its control block: identities are never reused, while an
      address (`Addr`) may be taken by a later object once its holder is destroyed. */
  type NodeId = nat
  type EntityId = nat
  type MockId = nat
  type Addr = nat

  type Weak = Option<EntityId>

  /** Timers are entities too, but are listed per node instead of being found by name. */
  datatype Kind = Publisher | Subscription | Service | ServiceClient | ActionServer | ActionClient | TimerEntity

  /** The six per-kind node maps, as one map from (kind, node) to the entries by name. */
  type Named = map<(Kind, NodeId), map<string, Weak>>
  type TimerLists = map<NodeId, seq<EntityId>>

  datatype LazyEntry = LazyEntry(rawPtr: Addr, entity: EntityId, node: NodeId, name: string)

  /** weak_ptr::lock: the reference yields its object until that object has expired. */
  function Lock(w: Weak, dead: set<EntityId>): Weak {
    if w.Some? && w.value !in dead then w else None
  }

  /** operator[] of the outer map: inserts an empty inner map for an unknown node. */
  function Touch(named: Named, k: Kind, n: NodeId): Named {
    if (k, n) in named then named else named[(k, n) := map[]]
  }

  function FindEntity(entries: map<string, Weak>, name: string): Weak {
    if name in entries then entries[name] else None
  }

  function RegisterEntity(entries: map<string, Weak>, dead: set<EntityId>, name: string, e: EntityId): map<string, Weak> {
    var touched := if name in entries then entries else entries[name := None];
    if Lock(touched[name], dead).None? then touched[name := Some(e)] else touched
  }

  /** What a lookup of (kind, node, name) answers. */
  function Slot(named: Named, k: Kind, n: NodeId, name: string): Weak {
    FindEntity(Touch(named, k, n)[(k, n)], name)
  }

  function RegisterSlot(named: Named, dead: set<EntityId>, k: Kind, n: NodeId, name: string, e: EntityId): Named {
    var touched := Touch(named, k, n);
    touched[(k, n) := RegisterEntity(touched[(k, n)], dead, name, e)]
  }

  function TimersOf(timers: TimerLists, n: NodeId): seq<EntityId> {
    if n in timers then timers[n] else []
  }

  /** The timers of a list that still lock, in list order. */
  function Alive(es: seq<EntityId>, dead: set<EntityId>): seq<EntityId> {
    if es == [] then []
    else Alive(es[..|es| - 1], dead) + (if es[|es| - 1] in dead then [] else [es[|es| - 1]])
  }

  /** The entries whose callback throws (their object is not held by a shared_ptr), in order. */
  function Kept(q: seq<LazyEntry>, owned: set<EntityId>): seq<LazyEntry> {
    if q == [] then []
    else Kept(q[..|q| - 1], owned) + (if q[|q| - 1].entity in owned then [] else [q[|q| - 1]])
  }

  /** The entries whose callback succeeds, in the order in which they are run. */
  function Started(q: seq<LazyEntry>, owned: set<EntityId>): seq<LazyEntry> {
    if q == [] then []
    else Started(q[..|q| - 1], owned) + (if q[|q| - 1].entity in owned then [q[|q| - 1]] else [])
  }

  /** The registrations those callbacks perform, one after the other. */
  function RegisterAll(named: Named, dead: set<EntityId>, k: Kind, started: seq<LazyEntry>): Named
  {
    if started == [] then named
    else
      var it := started[|started| - 1];
      RegisterSlot(RegisterAll(named, dead, k, started[..|started| - 1]), dead, k, it.node, it.name, it.entity)
  }

  /** The entries with an address other than the given one, in order. */
  function WithoutAddr(q: seq<LazyEntry>, p: Addr): seq<LazyEntry> {
    if q == [] then []
    else WithoutAddr(q[..|q| - 1], p) + (if q[|q| - 1].rawPtr == p then [] else [q[|q| - 1]])
  }

  class StaticMocksRegistry {
    var named: Named
    var timers: TimerLists
    var mockTable: map<Addr, MockId>
    var lazyServers: seq<LazyEntry>
    var lazyClients: seq<LazyEntry>

    constructor ()
      ensures named == map[] && timers == map[] && mockTable == map[] && lazyServers == [] && lazyClients == []
    {
      named, timers, mockTable, lazyServers, lazyClients := map[], map[], map[], [], [];
    }

    /** register* for every kind: the slot is taken only if it is empty or its holder expired. */
    method Register(k: Kind, n: NodeId, name: string, e: EntityId, dead: set<EntityId>)
      modifies this`named
      ensures named == RegisterSlot(old(named), dead, k, n, name, e)
    {
      if (k, n) !in named {
        named := named[(k, n) := map[]];
      }
      var entries := named[(k, n)];
      if name !in entries {
        entries := entries[name := None];
      }
      if Lock(entries[name], dead).None? {
        entries := entries[name := Some(e)];
      }
      named := named[(k, n) := entries];
    }

    /** get* for the directly registered kinds. */
    method Get(k: Kind, n: NodeId, name: string) returns (w: Weak)
      modifies this`named
      ensures named == Touch(old(named), k, n)
      ensures w == Slot(old(named), k, n, name)
    {
      if (k, n) !in named {
        named := named[(k, n) := map[]];
      }
      w := if name in named[(k, n)] then named[(k, n)][name] else None;
    }

    method RegisterTimer(n: NodeId, e: EntityId)
      modifies this`timers
      ensures timers == old(timers)[n := TimersOf(old(timers), n) + [e]]
    {
      if n !in timers {
        timers := timers[n := []];
      }
      timers := timers[n := timers[n] + [e]];
    }

    /** detail::findTimers: locks the node's timers one by one. */
    method FindTimers(n: NodeId, dead: set<EntityId>) returns (found: seq<EntityId>)
      ensures found == Alive(TimersOf(timers, n), dead)
    {
      var all := TimersOf(timers, n);
      found := [];
      for i := 0 to |all|
        invariant found == Alive(all[..i], dead)
      {
        assert all[..i + 1][..i] == all[..i];
        if all[i] !in dead {
          found := found + [all[i]];
        }
      }
      assert all[..|all|] == all;
    }

    /** The body of the loop of tryLazyInit: the i-th callback runs; its entry is erased, or stepped
        over if the callback throws. */
    method TryEntry(k: Kind, pending: seq<LazyEntry>, at: nat, dead: set<EntityId>, owned: set<EntityId>)
      returns (q: seq<LazyEntry>, i: nat)
      requires at < |pending|
      modifies this`named
      ensures var it := pending[at];
              if it.entity in owned
              then q == pending[..at] + pending[at + 1..] && i == at
                   && named == RegisterSlot(old(named), dead, k, it.node, it.name, it.entity)
              else q == pending && i == at + 1 && named == old(named)
    {
      q, i := pending, at;
      var it := q[i];
      if it.entity in owned {
        Register(k, it.node, it.name, it.entity, dead);
        q := q[..i] + q[i + 1..];
      } else {
        i := i + 1;
      }
    }

    /** tryLazyInit: runs every queued callback, erasing an entry as soon as its callback
        returns and stepping over it when it throws.  `owned` holds the objects for which
        shared_from_this() succeeds. */
    method TryLazyInit(k: Kind, pending: seq<LazyEntry>, dead: set<EntityId>, owned: set<EntityId>)
      returns (q: seq<LazyEntry>)
      modifies this`named
      ensures q == Kept(pending, owned)
      ensures named == RegisterAll(old(named), dead, k, Started(pending, owned))
    {
      q := pending;
      ghost var j: nat := 0;
      var i: nat := 0;
      while i < |q|
        invariant j <= |pending| && Erased(pending, j, owned, q, i)
        invariant named == RegisterAll(old(named), dead, k, Started(pending[..j], owned))
        decreases |q| - i
      {
        ErasedStep(pending, j, owned, q, i);
        StartedStep(old(named), dead, k, pending, j, owned);
        q, i := TryEntry(k, q, i, dead, owned);
        j := j + 1;
      }
      ErasedAll(pending, j, owned, q, i);
    }

    /** getActionServer, getActionClient: deferred registrations first, then the lookup. */
    method GetAction(k: Kind, n: NodeId, name: string, dead: set<EntityId>, owned: set<EntityId>) returns (w: Weak)
      requires k.ActionServer? || k.ActionClient?
      modifies this`named, this`lazyServers, this`lazyClients
      ensures lazyServers == if k.ActionServer? then Kept(old(lazyServers), owned) else old(lazyServers)
      ensures lazyClients == if k.ActionClient? then Kept(old(lazyClients), owned) else old(lazyClients)
      ensures var started := Started(if k.ActionServer? then old(lazyServers) else old(lazyClients), owned);
              var ran := RegisterAll(old(named), dead, k, started);
              named == Touch(ran, k, n) && w == Slot(ran, k, n, name)
    {
      if k.ActionServer? {
        lazyServers := TryLazyInit(k, lazyServers, dead, owned);
      } else {
        lazyClients := TryLazyInit(k, lazyClients, dead, owned);
      }
      w := Get(k, n, name);
    }

    method RegisterLazyInit(k: Kind, entry: LazyEntry)
      requires k.ActionServer? || k.ActionClient?
      modifies this`lazyServers, this`lazyClients
      ensures lazyServers == old(lazyServers) + (if k.ActionServer? then [entry] else [])
      ensures lazyClients == old(lazyClients) + (if k.ActionClient? then [entry] else [])
    {
      if k.ActionServer? {
        lazyServers := lazyServers + [entry];
      } else {
        lazyClients := lazyClients + [entry];
      }
    }

    /** remove_if over the queue of the kind. */
    method RemoveLazyInit(k: Kind, p: Addr)
      requires k.ActionServer? || k.ActionClient?
      modifies this`lazyServers, this`lazyClients
      ensures lazyServers == if k.ActionServer? then WithoutAddr(old(lazyServers), p) else old(lazyServers)
      ensures lazyClients == if k.ActionClient? then WithoutAddr(old(lazyClients), p) else old(lazyClients)
    {
      var q := if k.ActionServer? then lazyServers else lazyClients;
      var kept: seq<LazyEntry> := [];
      for i := 0 to |q|
        invariant kept == WithoutAddr(q[..i], p)
      {
        assert q[..i + 1][..i] == q[..i];
        if q[i].rawPtr != p {
          kept := kept + [q[i]];
        }
      }
      assert q[..|q|] == q;
      if k.ActionServer? {
        lazyServers := kept;
      } else {
        lazyClients := kept;
      }
    }

    method GetMock(p: Addr) returns (m: Option<MockId>)
      ensures m == if p in mockTable then Some(mockTable[p]) else None
    {
      m := if p in mockTable then Some(mockTable[p]) else None;
    }

    method AttachMock(p: Addr, m: MockId)
      modifies this`mockTable
      ensures mockTable == old(mockTable)[p := m]
    {
      mockTable := mockTable[p := m];
    }

    method DetachMock(p: Addr)
      modifies this`mockTable
      ensures mockTable == old(mockTable) - {p}
    {
      if p in mockTable {
        mockTable := mockTable - {p};
      }
    }

    method Reset()
      modifies this
      ensures named == map[] && timers == map[] && mockTable == map[] && lazyServers == [] && lazyClients == []
    {
      named, timers, mockTable, lazyServers, lazyClients := map[], map[], map[], [], [];
    }
  }

  /** The loop of tryLazyInit after j entries: those that threw are kept, and i points behind them. */
  ghost predicate Erased(pending: seq<LazyEntry>, j: nat, owned: set<EntityId>, q: seq<LazyEntry>, i: nat)
    requires j <= |pending|
  {
    i == |Kept(pending[..j], owned)| && q == Kept(pending[..j], owned) + pending[j..]
  }

  /** One more entry: it is erased, or stepped over if its callback throws. */
  lemma ErasedStep(pending: seq<LazyEntry>, j: nat, owned: set<EntityId>, q: seq<LazyEntry>, i: nat)
    requires j <= |pending| && Erased(pending, j, owned, q, i) && i < |q|
    ensures j < |pending| && q[i] == pending[j]
    ensures if q[i].entity in owned then Erased(pending, j + 1, owned, q[..i] + q[i + 1..], i)
            else Erased(pending, j + 1, owned, q, i + 1)
  {
    assert pending[..j + 1][..j] == pending[..j];
    assert pending[j..] == [pending[j]] + pending[j + 1..];
  }

  lemma ErasedAll(pending: seq<LazyEntry>, j: nat, owned: set<EntityId>, q: seq<LazyEntry>, i: nat)
    requires j <= |pending| && Erased(pending, j, owned, q, i) && i >= |q|
    ensures pending[..j] == pending && q == Kept(pending, owned)
  {
    assert pending[..j] == pending;
  }

  /** What the callback of the j-th pending entry adds to the slots. */
  lemma StartedStep(named: Named, dead: set<EntityId>, k: Kind, q: seq<LazyEntry>, j: nat, owned: set<EntityId>)
    requires j < |q|
    ensures RegisterAll(named, dead, k, Started(q[..j + 1], owned)) ==
            var before := RegisterAll(named, dead, k, Started(q[..j], owned));
            if q[j].entity in owned then RegisterSlot(before, dead, k, q[j].node, q[j].name, q[j].entity) else before
  {
    assert q[..j + 1][..j] == q[..j];
    var s := Started(q[..j + 1], owned);
    if q[j].entity in owned {
      assert s[..|s| - 1] == Started(q[..j], owned);
    } else {
      assert s == Started(q[..j], owned);
    }
  }

  /** A registration changes the answer of at most the one slot it names, and that slot only
      when it was empty or its holder had expired. */
  lemma SlotAfterRegister(named: Named, dead: set<EntityId>, k: Kind, n: NodeId, name: string, e: EntityId)
    ensures forall k', n': NodeId, name' :: Slot(RegisterSlot(named, dead, k, n, name, e), k', n', name') ==
              if (k', n', name') == (k, n, name) && Lock(Slot(named, k, n, name), dead).None?
              then Some(e) else Slot(named, k', n', name')
  {
    forall k', n': NodeId, name'
      ensures Slot(RegisterSlot(named, dead, k, n, name, e), k', n', name') ==
              if (k', n', name') == (k, n, name) && Lock(Slot(named, k, n, name), dead).None?
              then Some(e) else Slot(named, k', n', name')
    {
      var after := RegisterSlot(named, dead, k, n, name, e);
      if (k', n') != (k, n) {
        assert (k', n') in after <==> (k', n') in named;
      }
    }
  }
}
