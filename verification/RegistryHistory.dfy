/** The registry over whole runs.  A run is any sequence of registrations, expiries, lookups
    and resets; the answers of the nested maps are compared with a flat reading of that
    sequence which knows neither maps nor the entries that lookups insert. */
module RegistryHistory {
  import opened Options
  import opened Registry

  datatype Event =
    | Register(kind: Kind, node: NodeId, name: string, entity: EntityId)
    | RegisterTimer(node: NodeId, entity: EntityId)
    | Expire(entity: EntityId)
    | Lookup(kind: Kind, node: NodeId, name: string)
    | Clear

  datatype State = State(named: Named, timers: TimerLists, dead: set<EntityId>)

  const EMPTY := State(map[], map[], {})

  function Apply(s: State, ev: Event): State {
    match ev
    case Register(k, n, name, e) => s.(named := RegisterSlot(s.named, s.dead, k, n, name, e))
    case RegisterTimer(n, e) => s.(timers := s.timers[n := TimersOf(s.timers, n) + [e]])
    case Expire(e) => s.(dead := s.dead + {e})
    case Lookup(k, n, _) => s.(named := Touch(s.named, k, n))
    case Clear => s.(named := map[], timers := map[])
  }

  function Run(log: seq<Event>): State {
    if log == [] then EMPTY else Apply(Run(log[..|log| - 1]), log[|log| - 1])
  }

  lemma RunSnoc(log: seq<Event>, ev: Event)
    ensures Run(log + [ev]) == Apply(Run(log), ev)
  {
    assert (log + [ev])[..|log|] == log;
  }

  function Answer(s: State, k: Kind, n: NodeId, name: string): Weak {
    Slot(s.named, k, n, name)
  }

  function FoundTimers(s: State, n: NodeId): seq<EntityId> {
    Alive(TimersOf(s.timers, n), s.dead)
  }

  // ----- The flat history -----

  predicate Claims(ev: Event, k: Kind, n: NodeId, name: string) {
    ev.Register? && ev.kind == k && ev.node == n && ev.name == name
  }

  /** The holder of a slot: a claim takes it only if it is free or its holder has expired. */
  function Holder(log: seq<Event>, k: Kind, n: NodeId, name: string): Weak {
    if log == [] then None
    else
      var earlier := log[..|log| - 1];
      var held := Holder(earlier, k, n, name);
      var ev := log[|log| - 1];
      if ev.Clear? then None
      else if Claims(ev, k, n, name) && (held.None? || Expire(held.value) in earlier) then Some(ev.entity)
      else held
  }

  lemma {:induction false} DeadIsExpired(log: seq<Event>, e: EntityId)
    ensures e in Run(log).dead <==> Expire(e) in log
  {
    if log != [] {
      var earlier := log[..|log| - 1];
      DeadIsExpired(earlier, e);
      assert log == earlier + [log[|log| - 1]];
    }
  }

  /** What one event does to an answer of the nested maps. */
  lemma AnswerStep(s: State, ev: Event, k: Kind, n: NodeId, name: string)
    ensures var held := Answer(s, k, n, name);
            Answer(Apply(s, ev), k, n, name) ==
            if ev.Clear? then None
            else if Claims(ev, k, n, name) && (held.None? || held.value in s.dead) then Some(ev.entity)
            else held
  {
    if ev.Register? {
      SlotAfterRegister(s.named, s.dead, ev.kind, ev.node, ev.name, ev.entity);
    }
  }

  /** After every run the nested maps answer exactly what the flat history says. */
  lemma {:induction false} MapsRefineHistory(log: seq<Event>, k: Kind, n: NodeId, name: string)
    ensures Answer(Run(log), k, n, name) == Holder(log, k, n, name)
  {
    if log != [] {
      var earlier := log[..|log| - 1];
      MapsRefineHistory(earlier, k, n, name);
      AnswerStep(Run(earlier), log[|log| - 1], k, n, name);
      var held := Holder(earlier, k, n, name);
      if held.Some? {
        DeadIsExpired(earlier, held.value);
      }
    }
  }

  /** The slot can be taken: nobody holds it, or its holder has expired. */
  predicate Free(log: seq<Event>, k: Kind, n: NodeId, name: string) {
    var held := Holder(log, k, n, name);
    held.None? || Expire(held.value) in log
  }

  /** The claim at i took the slot, and nothing has taken it away since: there was no reset, and
      every later claim found the holder alive. */
  ghost predicate HeldSince(log: seq<Event>, i: nat, k: Kind, n: NodeId, name: string, e: EntityId)
    requires i < |log|
  {
    && log[i] == Register(k, n, name, e)
    && Free(log[..i], k, n, name)
    && Clear !in log[i..]
    && forall j :: i < j < |log| && Claims(log[j], k, n, name) ==> Expire(e) !in log[..j]
  }

  lemma {:induction false} HolderHasHeldSince(log: seq<Event>, k: Kind, n: NodeId, name: string) returns (i: nat)
    requires Holder(log, k, n, name).Some?
    ensures i < |log| && HeldSince(log, i, k, n, name, Holder(log, k, n, name).value)
  {
    var last := |log| - 1;
    var earlier, ev := log[..last], log[last];
    var e := Holder(log, k, n, name).value;
    if Claims(ev, k, n, name) && Free(earlier, k, n, name) {
      i := last;
      assert log[last..] == [ev];
    } else {
      i := HolderHasHeldSince(earlier, k, n, name);
      assert log[i..] == earlier[i..] + [ev] && log[..i] == earlier[..i];
      forall j | i < j < |log| && Claims(log[j], k, n, name)
        ensures Expire(e) !in log[..j]
      {
        assert j < last ==> log[..j] == earlier[..j];
      }
    }
  }

  lemma {:induction false} HeldSinceHolds(log: seq<Event>, i: nat, k: Kind, n: NodeId, name: string, e: EntityId)
    requires i < |log| && HeldSince(log, i, k, n, name, e)
    ensures Holder(log, k, n, name) == Some(e)
  {
    var last := |log| - 1;
    var earlier, ev := log[..last], log[last];
    assert ev in log[i..];
    if i < last {
      assert log[i..] == earlier[i..] + [ev] && earlier[..i] == log[..i];
      forall j | i < j < last && Claims(earlier[j], k, n, name)
        ensures Expire(e) !in earlier[..j]
      {
        assert earlier[..j] == log[..j];
      }
      HeldSinceHolds(earlier, i, k, n, name, e);
    }
  }

  /** Whatever claimed the slot has been reset away. */
  ghost predicate Unclaimed(log: seq<Event>, k: Kind, n: NodeId, name: string) {
    forall i :: 0 <= i < |log| && Claims(log[i], k, n, name) ==> Clear in log[i..]
  }

  lemma ClearInTail(log: seq<Event>, i: nat)
    requires i < |log|
    ensures var earlier, ev := log[..|log| - 1], log[|log| - 1];
            Clear in log[i..] <==> ev.Clear? || (i < |earlier| && Clear in earlier[i..])
  {
    assert log[i..] == log[..|log| - 1][i..] + [log[|log| - 1]];
  }

  lemma UnclaimedStep(log: seq<Event>, k: Kind, n: NodeId, name: string)
    requires log != []
    ensures var earlier, ev := log[..|log| - 1], log[|log| - 1];
            Unclaimed(log, k, n, name) <==> ev.Clear? || (Unclaimed(earlier, k, n, name) && !Claims(ev, k, n, name))
  {
    var last := |log| - 1;
    var earlier, ev := log[..last], log[last];
    ClearInTail(log, last);
    if ev.Clear? || (Unclaimed(earlier, k, n, name) && !Claims(ev, k, n, name)) {
      forall i | 0 <= i < |log| && Claims(log[i], k, n, name)
        ensures Clear in log[i..]
      {
        ClearInTail(log, i);
        assert i < last ==> earlier[i] == log[i];
      }
    } else if !Claims(ev, k, n, name) {
      var i :| 0 <= i < last && Claims(earlier[i], k, n, name) && Clear !in earlier[i..];
      ClearInTail(log, i);
      assert log[i] == earlier[i];
    }
  }

  lemma {:induction false} EmptyIff(log: seq<Event>, k: Kind, n: NodeId, name: string)
    ensures Holder(log, k, n, name).None? <==> Unclaimed(log, k, n, name)
  {
    if log != [] {
      EmptyIff(log[..|log| - 1], k, n, name);
      UnclaimedStep(log, k, n, name);
    }
  }

  /** Who holds a slot, in terms of the run's events: an entity holds it if and only if one of its
      claims found the slot free, no reset followed, and every later claim found it alive; a slot
      is empty if and only if nothing has claimed it since the last reset. */
  lemma HolderExplained(log: seq<Event>, k: Kind, n: NodeId, name: string, e: EntityId)
    ensures Holder(log, k, n, name) == Some(e) <==> exists i :: 0 <= i < |log| && HeldSince(log, i, k, n, name, e)
    ensures Holder(log, k, n, name).None? <==> Unclaimed(log, k, n, name)
  {
    EmptyIff(log, k, n, name);
    if Holder(log, k, n, name) == Some(e) {
      var i := HolderHasHeldSince(log, k, n, name);
    }
    if exists i :: 0 <= i < |log| && HeldSince(log, i, k, n, name, e) {
      var i :| 0 <= i < |log| && HeldSince(log, i, k, n, name, e);
      HeldSinceHolds(log, i, k, n, name, e);
    }
  }

  // ----- Timers -----

  /** The timers registered for a node since the last reset, in order of registration. */
  function Registered(log: seq<Event>, n: NodeId): seq<EntityId> {
    if log == [] then []
    else
      var earlier := Registered(log[..|log| - 1], n);
      match log[|log| - 1]
      case RegisterTimer(n', e) => if n' == n then earlier + [e] else earlier
      case Clear => []
      case _ => earlier
  }

  predicate IsSubsequence(xs: seq<EntityId>, ys: seq<EntityId>) {
    if xs == [] then true
    else if ys == [] then false
    else if xs[|xs| - 1] == ys[|ys| - 1] then IsSubsequence(xs[..|xs| - 1], ys[..|ys| - 1])
    else IsSubsequence(xs, ys[..|ys| - 1])
  }

  /** The timers found for a node are exactly those registered for it since the last reset and
      not expired, in order of registration. */
  lemma {:induction false} FoundTimersAreTheLiveOnes(log: seq<Event>, n: NodeId)
    ensures var found := FoundTimers(Run(log), n);
            && IsSubsequence(found, Registered(log, n))
            && forall e :: multiset(found)[e] == if Expire(e) in log then 0 else multiset(Registered(log, n))[e]
  {
    TimerListIsRegistered(log, n);
    var s := Run(log);
    AliveSubsequence(Registered(log, n), s.dead);
    forall e
      ensures multiset(Alive(Registered(log, n), s.dead))[e]
              == if Expire(e) in log then 0 else multiset(Registered(log, n))[e]
    {
      DeadIsExpired(log, e);
      AliveCounts(Registered(log, n), s.dead, e);
    }
  }

  lemma {:induction false} TimerListIsRegistered(log: seq<Event>, n: NodeId)
    ensures TimersOf(Run(log).timers, n) == Registered(log, n)
  {
    if log != [] {
      TimerListIsRegistered(log[..|log| - 1], n);
    }
  }

  lemma {:induction false} AliveSubsequence(es: seq<EntityId>, dead: set<EntityId>)
    ensures IsSubsequence(Alive(es, dead), es)
  {
    if es != [] {
      var init, e := es[..|es| - 1], es[|es| - 1];
      AliveSubsequence(init, dead);
      if e in dead {
        assert Alive(es, dead) == Alive(init, dead);
        SubsequenceOfLonger(Alive(init, dead), init, e);
      } else {
        assert Alive(es, dead)[..|Alive(es, dead)| - 1] == Alive(init, dead);
      }
    }
  }

  lemma {:induction false} SubsequenceOfLonger(xs: seq<EntityId>, ys: seq<EntityId>, e: EntityId)
    requires IsSubsequence(xs, ys)
    ensures IsSubsequence(xs, ys + [e])
    decreases |ys|, 1
  {
    assert (ys + [e])[..|ys|] == ys;
    if xs != [] && xs[|xs| - 1] == e {
      SubsequenceShorter(xs, ys);
    }
  }

  lemma {:induction false} SubsequenceShorter(xs: seq<EntityId>, ys: seq<EntityId>)
    requires IsSubsequence(xs, ys) && xs != []
    ensures IsSubsequence(xs[..|xs| - 1], ys)
    decreases |ys|, 0
  {
    var init := ys[..|ys| - 1];
    assert ys == init + [ys[|ys| - 1]];
    if xs[|xs| - 1] == ys[|ys| - 1] {
      SubsequenceOfLonger(xs[..|xs| - 1], init, ys[|ys| - 1]);
    } else {
      SubsequenceShorter(xs, init);
      SubsequenceOfLonger(xs[..|xs| - 1], init, ys[|ys| - 1]);
    }
  }

  lemma CountOfSnoc(xs: seq<EntityId>, x: EntityId, e: EntityId)
    ensures multiset(xs + [x])[e] == multiset(xs)[e] + if x == e then 1 else 0
  {
    assert multiset(xs + [x]) == multiset(xs) + multiset{x};
  }

  lemma {:induction false} AliveCounts(es: seq<EntityId>, dead: set<EntityId>, e: EntityId)
    ensures multiset(Alive(es, dead))[e] == if e in dead then 0 else multiset(es)[e]
  {
    if es != [] {
      var init, last := es[..|es| - 1], es[|es| - 1];
      AliveCounts(init, dead, e);
      CountOfSnoc(init, last, e);
      CountOfSnoc(Alive(init, dead), last, e);
      assert es == init + [last];
    }
  }

  lemma AliveSnoc(es: seq<EntityId>, x: EntityId, dead: set<EntityId>)
    ensures Alive(es + [x], dead) == Alive(es, dead) + if x in dead then [] else [x]
  {
    assert (es + [x])[..|es|] == es;
  }

  lemma {:induction false} AliveTwice(es: seq<EntityId>, dead: set<EntityId>, e: EntityId)
    ensures Alive(es, dead + {e}) == Alive(Alive(es, dead), {e})
  {
    if es != [] {
      var init, last := es[..|es| - 1], es[|es| - 1];
      AliveTwice(init, dead, e);
      assert es == init + [last];
      AliveSnoc(init, last, dead);
      AliveSnoc(init, last, dead + {e});
      AliveSnoc(Alive(init, dead), last, {e});
      assert last in dead ==> Alive(es, dead) == Alive(init, dead);
    }
  }

  lemma {:induction false} AliveWithoutOne(es: seq<EntityId>, e: EntityId, x: EntityId)
    ensures x in Alive(es, {e}) <==> x in es && x != e
  {
    if es != [] {
      AliveWithoutOne(es[..|es| - 1], e, x);
      assert es == es[..|es| - 1] + [es[|es| - 1]];
    }
  }

  // ----- Order -----

  ghost predicate Precedes(es: seq<EntityId>, a: EntityId, b: EntityId) {
    exists i, j :: 0 <= i < j < |es| && es[i] == a && es[j] == b
  }

  lemma PrecedesInLonger(es: seq<EntityId>, e: EntityId, a: EntityId, b: EntityId)
    ensures Precedes(es + [e], a, b) <==> Precedes(es, a, b) || (b == e && a in es)
  {
    var all := es + [e];
    if Precedes(all, a, b) {
      var i, j :| 0 <= i < j < |all| && all[i] == a && all[j] == b;
      assert es[i] == a && (j < |es| ==> es[j] == b);
    }
    if Precedes(es, a, b) {
      var i, j :| 0 <= i < j < |es| && es[i] == a && es[j] == b;
      assert all[i] == a && all[j] == b;
    }
    if b == e && a in es {
      var i :| 0 <= i < |es| && es[i] == a;
      assert all[i] == a && all[|es|] == b;
    }
  }

  lemma {:induction false} PrecedesWithoutOne(es: seq<EntityId>, e: EntityId, a: EntityId, b: EntityId)
    ensures Precedes(Alive(es, {e}), a, b) <==> Precedes(es, a, b) && a != e && b != e
  {
    if es != [] {
      var init, last := es[..|es| - 1], es[|es| - 1];
      assert es == init + [last];
      AliveSnoc(init, last, {e});
      assert last == e ==> Alive(es, {e}) == Alive(init, {e});
      PrecedesWithoutOne(init, e, a, b);
      PrecedesInLonger(init, last, a, b);
      PrecedesInLonger(Alive(init, {e}), last, a, b);
      AliveWithoutOne(init, e, a);
    }
  }

  // ----- Node isolation -----

  /** The entities a run ever registers for a node. */
  function EntitiesOf(log: seq<Event>, n: NodeId): set<EntityId> {
    set ev | ev in log && (ev.Register? || ev.RegisterTimer?) && ev.node == n :: ev.entity
  }

  predicate Concerns(ev: Event, n: NodeId, own: set<EntityId>) {
    match ev
    case Register(_, n', _, _) => n' == n
    case RegisterTimer(n', _) => n' == n
    case Expire(e) => e in own
    case Lookup(_, _, _) => false
    case Clear => true
  }

  /** The part of a run that concerns a node: its own registrations, the expiry of its own
      entities, and resets.  Lookups are dropped, its own included. */
  function Purge(log: seq<Event>, n: NodeId, own: set<EntityId>): seq<Event> {
    if log == [] then []
    else
      var ev := log[|log| - 1];
      Purge(log[..|log| - 1], n, own) + if Concerns(ev, n, own) then [ev] else []
  }

  lemma {:induction false} PurgeKeepsWhatConcerns(log: seq<Event>, n: NodeId, own: set<EntityId>)
    ensures forall ev :: ev in Purge(log, n, own) <==> ev in log && Concerns(ev, n, own)
  {
    if log != [] {
      PurgeKeepsWhatConcerns(log[..|log| - 1], n, own);
      assert log == log[..|log| - 1] + [log[|log| - 1]];
    }
  }

  /** Whatever happens on other nodes, and whatever is looked up anywhere, a node's answers are
      those of the run from which all of that has been removed. */
  lemma {:induction false} NodeIsolation(log: seq<Event>, n: NodeId)
    ensures var purged := Purge(log, n, EntitiesOf(log, n));
            && (forall k, name :: Answer(Run(log), k, n, name) == Answer(Run(purged), k, n, name))
            && (forall k, name :: Lock(Answer(Run(log), k, n, name), Run(log).dead)
                                  == Lock(Answer(Run(purged), k, n, name), Run(purged).dead))
            && FoundTimers(Run(log), n) == FoundTimers(Run(purged), n)
  {
    var own := EntitiesOf(log, n);
    PurgePreserves(log, n, own);
    var s, t := Run(log), Run(Purge(log, n, own));
    AliveAgrees(TimersOf(s.timers, n), s.dead, t.dead);
  }

  /** Two runs that agree on what concerns a node give that node the same answers. */
  lemma NodeCannotObserveOthers(log1: seq<Event>, log2: seq<Event>, n: NodeId, k: Kind, name: string)
    requires Purge(log1, n, EntitiesOf(log1, n)) == Purge(log2, n, EntitiesOf(log2, n))
    ensures Answer(Run(log1), k, n, name) == Answer(Run(log2), k, n, name)
    ensures FoundTimers(Run(log1), n) == FoundTimers(Run(log2), n)
  {
    NodeIsolation(log1, n);
    NodeIsolation(log2, n);
  }

  ghost predicate SameView(s: State, t: State, n: NodeId, own: set<EntityId>) {
    && (forall k, name :: Answer(s, k, n, name) == Answer(t, k, n, name))
    && (forall k, name :: Answer(s, k, n, name).Some? ==> Answer(s, k, n, name).value in own)
    && TimersOf(s.timers, n) == TimersOf(t.timers, n)
    && (forall e :: e in TimersOf(s.timers, n) ==> e in own)
    && (forall e :: e in own ==> (e in s.dead <==> e in t.dead))
  }

  lemma {:induction false} PurgePreserves(log: seq<Event>, n: NodeId, own: set<EntityId>)
    requires EntitiesOf(log, n) <= own
    ensures SameView(Run(log), Run(Purge(log, n, own)), n, own)
  {
    if log != [] {
      var earlier, ev := log[..|log| - 1], log[|log| - 1];
      assert log == earlier + [ev];
      assert EntitiesOf(earlier, n) <= EntitiesOf(log, n);
      PurgePreserves(earlier, n, own);
      var p, q := Purge(earlier, n, own), Purge(log, n, own);
      if q != p + [ev] {
        assert q == p;
        ForeignStep(Run(earlier), Run(p), n, own, ev);
      } else {
        assert q[..|q| - 1] == p;
        if ev.Register? || ev.RegisterTimer? {
          assert ev in log;
        }
        OwnStep(Run(earlier), Run(p), n, own, ev);
      }
    }
  }

  lemma ForeignStep(s: State, t: State, n: NodeId, own: set<EntityId>, ev: Event)
    requires SameView(s, t, n, own)
    requires (ev.Register? || ev.RegisterTimer?) ==> ev.node != n
    requires ev.Expire? ==> ev.entity !in own
    requires !ev.Clear?
    ensures SameView(Apply(s, ev), t, n, own)
  {
    if ev.Register? {
      SlotAfterRegister(s.named, s.dead, ev.kind, ev.node, ev.name, ev.entity);
    }
    assert forall k, name :: Answer(Apply(s, ev), k, n, name) == Answer(s, k, n, name);
  }

  lemma OwnStep(s: State, t: State, n: NodeId, own: set<EntityId>, ev: Event)
    requires SameView(s, t, n, own)
    requires (ev.Register? || ev.RegisterTimer?) ==> ev.node == n && ev.entity in own
    requires !ev.Lookup?
    ensures SameView(Apply(s, ev), Apply(t, ev), n, own)
  {
    if ev.Register? {
      SlotAfterRegister(s.named, s.dead, ev.kind, ev.node, ev.name, ev.entity);
      SlotAfterRegister(t.named, t.dead, ev.kind, ev.node, ev.name, ev.entity);
      var held := Answer(s, ev.kind, n, ev.name);
      var free := Lock(held, s.dead).None?;
      assert held == Answer(t, ev.kind, n, ev.name) && free == Lock(held, t.dead).None?;
      forall k, name
        ensures Answer(Apply(s, ev), k, n, name) == Answer(Apply(t, ev), k, n, name)
        ensures Answer(Apply(s, ev), k, n, name) ==
                if k == ev.kind && name == ev.name && free then Some(ev.entity) else Answer(s, k, n, name)
      {
        assert Answer(s, k, n, name) == Answer(t, k, n, name);
      }
    } else if !ev.Clear? {
      assert forall k, name :: Answer(Apply(s, ev), k, n, name) == Answer(s, k, n, name);
      assert forall k, name :: Answer(Apply(t, ev), k, n, name) == Answer(t, k, n, name);
    }
  }

  lemma {:induction false} AliveAgrees(es: seq<EntityId>, d1: set<EntityId>, d2: set<EntityId>)
    requires forall e :: e in es ==> (e in d1 <==> e in d2)
    ensures Alive(es, d1) == Alive(es, d2)
  {
    if es != [] {
      AliveAgrees(es[..|es| - 1], d1, d2);
    }
  }
}
