/** From single steps to whole runs: a property of event sequences that some events bring about and
    some end holds after a run exactly if it was brought about and has not ended since. */
module Histories {

  /** Brought about by the i-th event, and not ended by a later one. */
  ghost predicate BeganAt<E>(begins: (seq<E>, E) -> bool, ends: (seq<E>, E) -> bool, evs: seq<E>, i: int) {
    0 <= i < |evs| && begins(evs[..i], evs[i]) && forall j :: i < j < |evs| ==> !ends(evs[..j], evs[j])
  }

  lemma {:induction false} Since<E(!new)>(holds: seq<E> -> bool, begins: (seq<E>, E) -> bool, ends: (seq<E>, E) -> bool,
                                          evs: seq<E>)
    requires !holds([])
    requires forall before, ev :: holds(before + [ev]) <==> begins(before, ev) || (holds(before) && !ends(before, ev))
    ensures holds(evs) <==> exists i :: BeganAt(begins, ends, evs, i)
  {
    if evs != [] {
      var init, last := evs[..|evs| - 1], |evs| - 1;
      Since(holds, begins, ends, init);
      assert evs == init + [evs[last]];
      if begins(init, evs[last]) {
        assert BeganAt(begins, ends, evs, last);
      } else if holds(evs) {
        var i :| BeganAt(begins, ends, init, i);
        OneMore(begins, ends, evs, i);
      } else {
        forall i | BeganAt(begins, ends, evs, i)
          ensures false
        {
          OneMore(begins, ends, evs, i);
        }
      }
    }
  }

  lemma OneMore<E>(begins: (seq<E>, E) -> bool, ends: (seq<E>, E) -> bool, evs: seq<E>, i: int)
    requires evs != [] && i != |evs| - 1
    ensures var init, last := evs[..|evs| - 1], |evs| - 1;
            BeganAt(begins, ends, evs, i) <==> BeganAt(begins, ends, init, i) && !ends(init, evs[last])
  {
    var init, last := evs[..|evs| - 1], |evs| - 1;
    forall j | 0 <= j < last
      ensures evs[..j] == init[..j] && evs[j] == init[j]
    {
    }
  }

  /** The same for what never ends. */
  lemma Ever<E(!new)>(holds: seq<E> -> bool, begins: (seq<E>, E) -> bool, evs: seq<E>)
    requires !holds([])
    requires forall before, ev :: holds(before + [ev]) <==> begins(before, ev) || holds(before)
    ensures holds(evs) <==> exists i :: 0 <= i < |evs| && begins(evs[..i], evs[i])
  {
    var never := (before: seq<E>, ev: E) => false;
    Since(holds, begins, never, evs);
    if exists i :: 0 <= i < |evs| && begins(evs[..i], evs[i]) {
      var i :| 0 <= i < |evs| && begins(evs[..i], evs[i]);
      assert BeganAt(begins, never, evs, i);
    }
  }

  /** What only some events can bring about was brought about by one of them. */
  lemma {:induction false} OnlyBy<E(!new)>(holds: seq<E> -> bool, begins: (seq<E>, E) -> bool, evs: seq<E>)
    requires !holds([])
    requires forall before, ev :: holds(before + [ev]) ==> begins(before, ev) || holds(before)
    ensures holds(evs) ==> exists i :: 0 <= i < |evs| && begins(evs[..i], evs[i])
  {
    if holds(evs) {
      var init, last := evs[..|evs| - 1], |evs| - 1;
      assert evs == init + [evs[last]];
      if !begins(init, evs[last]) {
        OnlyBy(holds, begins, init);
        var i :| 0 <= i < |init| && begins(init[..i], init[i]);
        assert evs[..i] == init[..i] && evs[i] == init[i];
      }
    }
  }
}
