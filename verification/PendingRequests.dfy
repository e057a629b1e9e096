/** A service client's pending requests: age-based pruning, which erases from an unordered map
    while iterating over it, and the blocking service calls that run beside it. */
module PendingRequests {
  import opened Options

  /** The instant at which a request was sent and the value it asks to set; requests are kept by
      identifier. */
  datatype Request = Request(sentAt: int, data: bool)

  type Pending = map<int, Request>

  function Survivors(pending: Pending, cutoff: int): Pending {
    map id | id in pending && pending[id].sentAt >= cutoff :: pending[id]
  }

  /** The identifiers that a prune removes. */
  function Stale(pending: Pending, cutoff: int): set<int> {
    set id | id in pending && pending[id].sentAt < cutoff
  }

  /** `ids` lists each element of a set once, in some order. */
  ghost predicate Lists(ids: seq<int>, s: set<int>) {
    && (forall id :: id in ids <==> id in s)
    && (forall i, j :: 0 <= i < j < |ids| ==> ids[i] != ids[j])
  }

  lemma HasElement(s: set<int>)
    ensures s != {} ==> exists id :: id in s
  {
    assert (forall id :: id !in s) ==> s == {};
  }

  class PendingMap {
    var pending: Pending

    /** prune_requests_older_than_impl.  The map is visited in an arbitrary order; `report` is the
        caller's vector, if it passed one. */
    method Prune(cutoff: int, report: Option<seq<int>>) returns (count: nat, report': Option<seq<int>>)
      modifies this
      ensures pending == Survivors(old(pending), cutoff)
      ensures count == |Stale(old(pending), cutoff)|
      ensures report'.Some? <==> report.Some?
      ensures report.Some? ==> report.value <= report'.value
      ensures report.Some? ==> Lists(report'.value[|report.value|..], Stale(old(pending), cutoff))
      ensures forall id :: id in old(pending) && id !in pending <==> id in old(pending) && old(pending)[id].sentAt < cutoff
      ensures forall id :: id in pending ==> pending[id] == old(pending)[id]
    {
      var oldSize := |pending|;
      var todo := pending.Keys;
      var out: seq<int> := [];
      ghost var start := pending;
      while todo != {}
        invariant todo <= start.Keys
        invariant todo <= pending.Keys
        invariant pending == map id | id in start && (id in todo || start[id].sentAt >= cutoff) :: start[id]
        invariant Lists(out, Stale(start, cutoff) - todo)
        decreases todo
      {
        HasElement(todo);
        var id :| id in todo;
        todo := todo - {id};
        if pending[id].sentAt < cutoff {
          out := out + [id];
          pending := pending - {id};
        }
      }
      assert pending == Survivors(start, cutoff);
      assert Stale(start, cutoff) - todo == Stale(start, cutoff);
      PruneCount(start, cutoff);
      count := oldSize - |pending|;
      report' := if report.Some? then Some(report.value + out) else None;
    }
  }

  /** Pruning partitions the map: what stays and what is reported are disjoint, together
      everything, and the counts add up. */
  lemma PruneCount(pending: Pending, cutoff: int)
    ensures Survivors(pending, cutoff).Keys !! Stale(pending, cutoff)
    ensures Survivors(pending, cutoff).Keys + Stale(pending, cutoff) == pending.Keys
    ensures |Survivors(pending, cutoff)| + |Stale(pending, cutoff)| == |pending|
  {
    var s := Survivors(pending, cutoff).Keys;
    assert s + Stale(pending, cutoff) == pending.Keys;
    assert |s + Stale(pending, cutoff)| == |s| + |Stale(pending, cutoff)|;
  }

  /** A request sent at the cutoff itself stays: moving the cutoff by one instant drops exactly the
      requests sent at the old one. */
  lemma CutoffIsExclusive(pending: Pending, cutoff: int, id: int)
    ensures id in Stale(pending, cutoff + 1) - Stale(pending, cutoff) <==> id in pending && pending[id].sentAt == cutoff
    ensures id in pending && pending[id].sentAt == cutoff ==>
              id in Survivors(pending, cutoff) && Survivors(pending, cutoff)[id] == pending[id]
  {
  }

  /** Two prunes in a row, in either order of their cutoffs, are one prune at the later cutoff: the
      same survivors, the same identifiers reported in total and none of them twice. */
  lemma PrunesCompose(pending: Pending, a: int, b: int)
    ensures var later := if a < b then b else a;
            && Survivors(Survivors(pending, a), b) == Survivors(pending, later)
            && Stale(pending, a) !! Stale(Survivors(pending, a), b)
            && Stale(pending, a) + Stale(Survivors(pending, a), b) == Stale(pending, later)
            && |Stale(pending, a)| + |Stale(Survivors(pending, a), b)| == |Stale(pending, later)|
  {
    var later := if a < b then b else a;
    var x, y := Stale(pending, a), Stale(Survivors(pending, a), b);
    assert x + y == Stale(pending, later);
    assert |x + y| == |x| + |y|;
  }

  /** The concatenated reports of two prunes list what the one prune would report. */
  lemma ReportsCompose(pending: Pending, a: int, b: int, first: seq<int>, second: seq<int>)
    requires Lists(first, Stale(pending, a)) && Lists(second, Stale(Survivors(pending, a), b))
    ensures Lists(first + second, Stale(pending, if a < b then b else a))
  {
    PrunesCompose(pending, a, b);
    var all := first + second;
    forall i, j | 0 <= i < j < |all|
      ensures all[i] != all[j]
    {
      if i < |first| <= j {
        assert all[i] in first && all[j] in second;
      }
    }
  }
}
