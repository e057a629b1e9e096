/** The debounce node: a value may be set only when the debounce time has passed since it was last
    set (or since the node was created).  Accepting greedily is optimal: no other selection of the
    calls with the same spacing accepts more of them. */
module Debounce {

  /** One call of `set`: the clock reading and the value. */
  datatype SetCall = SetCall(at: int, value: int)

  class DebounceNode {
    const debounceTime: int
    var value: int
    var lastSetTime: int

    constructor (debounceTime: int, now: int)
      ensures this.debounceTime == debounceTime && value == 0 && lastSetTime == now
    {
      this.debounceTime, value, lastSetTime := debounceTime, 0, now;
    }

    method Set(now: int, newValue: int)
      modifies this
      ensures var calls := [SetCall(now, newValue)];
              && lastSetTime == LastTime(old(lastSetTime), debounceTime, calls)
              && value == LastValue(old(value), old(lastSetTime), debounceTime, calls)
    {
      if now - lastSetTime >= debounceTime {
        value := newValue;
        lastSetTime := now;
      }
    }

    function Get(): int
      reads this
    {
      value
    }
  }

  // ----- What a sequence of calls does -----

  /** The positions of the accepted calls, offset by `from`. */
  function Accepted(last: int, d: int, calls: seq<SetCall>, from: nat): seq<nat>
    decreases |calls|
  {
    if calls == [] then []
    else if calls[0].at - last >= d then [from] + Accepted(calls[0].at, d, calls[1..], from + 1)
    else Accepted(last, d, calls[1..], from + 1)
  }

  function LastTime(last: int, d: int, calls: seq<SetCall>): int
    decreases |calls|
  {
    if calls == [] then last
    else LastTime(if calls[0].at - last >= d then calls[0].at else last, d, calls[1..])
  }

  function LastValue(value: int, last: int, d: int, calls: seq<SetCall>): int
    decreases |calls|
  {
    if calls == [] then value
    else if calls[0].at - last >= d then LastValue(calls[0].value, calls[0].at, d, calls[1..])
    else LastValue(value, last, d, calls[1..])
  }

  /** Handling calls one after the other composes, so that `Set` determines every sequence. */
  lemma {:induction false} CallsCompose(value: int, last: int, d: int, a: seq<SetCall>, b: seq<SetCall>)
    ensures LastTime(last, d, a + b) == LastTime(LastTime(last, d, a), d, b)
    ensures LastValue(value, last, d, a + b) == LastValue(LastValue(value, last, d, a), LastTime(last, d, a), d, b)
    decreases |a|
  {
    if a == [] {
      assert a + b == b;
    } else {
      assert (a + b)[1..] == a[1..] + b;
      if a[0].at - last >= d {
        CallsCompose(a[0].value, a[0].at, d, a[1..], b);
      } else {
        CallsCompose(value, last, d, a[1..], b);
      }
    }
  }

  // ----- Selections -----

  /** A choice of calls in order, the first at least d after `last`, each next one at least d
      after the one before it. */
  ghost predicate Spaced(last: int, d: int, calls: seq<SetCall>, chosen: seq<nat>) {
    && (forall i :: 0 <= i < |chosen| ==> chosen[i] < |calls|)
    && (forall i :: 0 < i < |chosen| ==> chosen[i - 1] < chosen[i] && calls[chosen[i]].at - calls[chosen[i - 1]].at >= d)
    && (chosen != [] ==> calls[chosen[0]].at - last >= d)
  }

  predicate NonDecreasing(calls: seq<SetCall>) {
    forall i, j :: 0 <= i < j < |calls| ==> calls[i].at <= calls[j].at
  }

  /** A spaced choice within the suffix that starts at `from`. */
  ghost predicate SpacedFrom(last: int, d: int, calls: seq<SetCall>, from: nat, chosen: seq<nat>) {
    Spaced(last, d, calls, chosen) && (chosen != [] ==> from <= chosen[0])
  }

  lemma SpacedTail(last: int, d: int, calls: seq<SetCall>, chosen: seq<nat>)
    requires Spaced(last, d, calls, chosen) && chosen != []
    ensures Spaced(calls[chosen[0]].at, d, calls, chosen[1..])
    ensures |chosen| > 1 ==> chosen[0] < chosen[1]
  {
    var rest := chosen[1..];
    forall i | 0 < i < |rest|
      ensures rest[i - 1] < rest[i] && calls[rest[i]].at - calls[rest[i - 1]].at >= d
    {
      assert rest[i] == chosen[i + 1] && rest[i - 1] == chosen[i];
    }
  }

  /** The accepted calls are themselves such a choice. */
  lemma {:induction false} AcceptedIsSpaced(last: int, d: int, calls: seq<SetCall>, from: nat)
    requires from <= |calls|
    ensures SpacedFrom(last, d, calls, from, Accepted(last, d, calls[from..], from))
    decreases |calls| - from
  {
    if from < |calls| {
      var c := calls[from];
      assert calls[from..][1..] == calls[from + 1..];
      if c.at - last >= d {
        AcceptedIsSpaced(c.at, d, calls, from + 1);
        var rest := Accepted(c.at, d, calls[from + 1..], from + 1);
        var all := [from] + rest;
        forall i | 0 < i < |all|
          ensures all[i - 1] < all[i] && calls[all[i]].at - calls[all[i - 1]].at >= d
        {
          if i > 1 {
            assert all[i] == rest[i - 1] && all[i - 1] == rest[i - 2];
          }
        }
      } else {
        AcceptedIsSpaced(last, d, calls, from + 1);
      }
    }
  }

  /** Greedy stays ahead: a choice that starts from an instant not before greedy's own is no
      longer than what greedy still accepts. */
  lemma {:induction false} GreedyStaysAhead(last: int, last': int, d: int, calls: seq<SetCall>, from: nat, chosen: seq<nat>)
    requires from <= |calls| && NonDecreasing(calls) && last <= last'
    requires SpacedFrom(last', d, calls, from, chosen)
    ensures |chosen| <= |Accepted(last, d, calls[from..], from)|
    decreases |calls| - from
  {
    if chosen != [] {
      var c := calls[from];
      assert calls[from..][1..] == calls[from + 1..];
      if c.at - last >= d {
        SpacedTail(last', d, calls, chosen);
        GreedyStaysAhead(c.at, calls[chosen[0]].at, d, calls, from + 1, chosen[1..]);
      } else {
        assert chosen[0] != from;
        GreedyStaysAhead(last, last', d, calls, from + 1, chosen);
      }
    }
  }

  /** For every sequence of calls at non-decreasing times, the accepted ones are spaced by the
      debounce time from the start on, and no spaced choice of calls is longer. */
  lemma GreedyIsOptimal(start: int, d: int, calls: seq<SetCall>, chosen: seq<nat>)
    requires NonDecreasing(calls)
    ensures Spaced(start, d, calls, Accepted(start, d, calls, 0))
    ensures Spaced(start, d, calls, chosen) ==> |chosen| <= |Accepted(start, d, calls, 0)|
  {
    assert calls[0..] == calls;
    AcceptedIsSpaced(start, d, calls, 0);
    if Spaced(start, d, calls, chosen) {
      GreedyStaysAhead(start, start, d, calls, 0, chosen);
    }
  }

  /** After any calls the node holds the value and the time of the last accepted one. */
  lemma {:induction false} ValueIsLastAccepted(value: int, last: int, d: int, calls: seq<SetCall>, from: nat)
    requires from <= |calls|
    ensures var acc := Accepted(last, d, calls[from..], from);
            && (forall i :: 0 <= i < |acc| ==> from <= acc[i] < |calls|)
            && LastValue(value, last, d, calls[from..]) == (if acc == [] then value else calls[acc[|acc| - 1]].value)
            && LastTime(last, d, calls[from..]) == (if acc == [] then last else calls[acc[|acc| - 1]].at)
    decreases |calls| - from
  {
    if from < |calls| {
      var c := calls[from];
      assert calls[from..][1..] == calls[from + 1..];
      if c.at - last >= d {
        ValueIsLastAccepted(c.value, c.at, d, calls, from + 1);
      } else {
        ValueIsLastAccepted(value, last, d, calls, from + 1);
      }
    }
  }
}
