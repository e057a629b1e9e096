/** The move-robot action server: the threaded loop, the single-step interface, and their
    agreement.  A goal's cancel schedule is a function from the number of the check to the answer
    of is_canceling. */
module ActionServer {
  import opened Motion
  import opened Options

  const LIMIT := 10.0

  datatype Outcome = Succeeded(at: Point) | Canceled(at: Point)

  /** The positions visited (the start first), the feedback published, and the terminal result. */
  datatype Trace = Trace(positions: seq<Point>, feedback: seq<Feedback>, outcome: Outcome)

  // ----- What the two interfaces do -----

  /** check_and_complete_goal: cancellation is looked at first. */
  function Check(p: Point, d: real, canceling: bool): Option<Outcome> {
    if canceling then Some(Canceled(p))
    else if Reached(d) then Some(Succeeded(p))
    else None
  }

  /** execute_move from check i on: publishes the position before each move. */
  function Threaded(p: Point, t: Point, d: real, cancel: nat -> bool, i: nat): (r: Trace)
    requires IsDistance(d, p, t)
    ensures |r.positions| > 0
    decreases Moves(d)
  {
    if cancel(i) then Trace([p], [], Canceled(p))
    else if Reached(d) then Trace([p], [], Succeeded(p))
    else
      MoveShortens(p, t, d);
      MovesStep(d);
      var rest := Threaded(NextPosition(p, t, d, STEP), t, d - STEP, cancel, i + 1);
      Trace([p] + rest.positions, [Feedback(p, d)] + rest.feedback, rest.outcome)
  }

  /** check_and_complete_goal and execute_single_step in turn: publishes the position after each move. */
  function Stepwise(p: Point, t: Point, d: real, cancel: nat -> bool, i: nat): (r: Trace)
    requires IsDistance(d, p, t)
    ensures |r.positions| > 0
    decreases Moves(d)
  {
    match Check(p, d, cancel(i))
    case Some(outcome) => Trace([p], [], outcome)
    case None =>
      MoveShortens(p, t, d);
      MovesStep(d);
      var q := NextPosition(p, t, d, STEP);
      var rest := Stepwise(q, t, NextDistance(d), cancel, i + 1);
      Trace([p] + rest.positions, [Feedback(q, NextDistance(d))] + rest.feedback, rest.outcome)
  }

  // ----- Convergence -----

  /** The distance after k moves: d - 0.01 * k. */
  function After(d: real, k: nat): real
    decreases k
  {
    if k == 0 then d else After(d - STEP, k - 1)
  }

  lemma {:induction false} AfterFormula(d: real, k: nat)
    ensures After(d, k) == d - k as real * STEP
    decreases k
  {
    if k > 0 {
      AfterFormula(d - STEP, k - 1);
      assert k as real == (k - 1) as real + 1.0;
    }
  }

  /** Every run takes at most Moves(d) moves.  It ends canceled at the first canceling check, and
      otherwise succeeds after exactly Moves(d) moves. */
  lemma {:induction false} ThreadedEnds(p: Point, t: Point, d: real, cancel: nat -> bool, i: nat)
    requires IsDistance(d, p, t)
    ensures var r := Threaded(p, t, d, cancel, i);
            var n := |r.positions| - 1;
            && n <= Moves(d)
            && (forall j :: i <= j < i + n ==> !cancel(j))
            && r.outcome == (if cancel(i + n) then Canceled(r.positions[n]) else Succeeded(r.positions[n]))
            && (r.outcome.Succeeded? ==> n == Moves(d))
    decreases Moves(d)
  {
    if !cancel(i) && !Reached(d) {
      MoveShortens(p, t, d);
      MovesStep(d);
      ThreadedEnds(NextPosition(p, t, d, STEP), t, d - STEP, cancel, i + 1);
    }
  }

  /** The k-th position is at distance d - 0.01 * k; moves start only outside the tolerance, so the
      run never comes nearer than 0.09 unless it started there, and a success is within 0.1. */
  lemma {:induction false} ThreadedDistances(p: Point, t: Point, d: real, cancel: nat -> bool, i: nat)
    requires IsDistance(d, p, t)
    ensures var r := Threaded(p, t, d, cancel, i);
            var n := |r.positions| - 1;
            && (forall k :: 0 <= k <= n ==> IsDistance(After(d, k), r.positions[k], t))
            && (forall k: nat :: k < n ==> After(d, k) >= TOLERANCE)
            && (n > 0 ==> After(d, n) >= TOLERANCE - STEP)
            && (r.outcome.Succeeded? ==> Reached(After(d, n)))
    decreases Moves(d)
  {
    if !cancel(i) && !Reached(d) {
      MoveShortens(p, t, d);
      MovesStep(d);
      var q := NextPosition(p, t, d, STEP);
      ThreadedDistances(q, t, d - STEP, cancel, i + 1);
      var r, rest := Threaded(p, t, d, cancel, i), Threaded(q, t, d - STEP, cancel, i + 1);
      forall k | 0 <= k < |r.positions|
        ensures IsDistance(After(d, k), r.positions[k], t)
        ensures k < |r.positions| - 1 ==> After(d, k) >= TOLERANCE
      {
        if k > 0 {
          assert r.positions[k] == rest.positions[k - 1];
        }
      }
    }
  }

  /** The positions visited are those of the straight path from the start to the target, one step
      apart. */
  lemma {:induction false} ThreadedPath(p: Point, t: Point, d: real, cancel: nat -> bool, i: nat, k: nat)
    requires IsDistance(d, p, t) && k < |Threaded(p, t, d, cancel, i).positions|
    ensures k <= Moves(d) && Threaded(p, t, d, cancel, i).positions[k] == PathAt(p, t, d, k)
    ensures k > 0 ==> IsDistance(STEP, Threaded(p, t, d, cancel, i).positions[k - 1],
                                 Threaded(p, t, d, cancel, i).positions[k])
    decreases Moves(d)
  {
    if k > 0 {
      MoveShortens(p, t, d);
      MovesStep(d);
      MoveLength(p, t, d);
      var q := NextPosition(p, t, d, STEP);
      assert Threaded(p, t, d, cancel, i).positions[1..] == Threaded(q, t, d - STEP, cancel, i + 1).positions;
      assert Threaded(q, t, d - STEP, cancel, i + 1).positions[0] == q;
      ThreadedPath(q, t, d - STEP, cancel, i + 1, k - 1);
    }
  }

  /** A goal ends canceled if and only if one of its first Moves(d) + 1 checks says so, even where
      the target is reached as well; otherwise it succeeds. */
  lemma CanceledIff(p: Point, t: Point, d: real, cancel: nat -> bool)
    requires IsDistance(d, p, t)
    ensures Threaded(p, t, d, cancel, 0).outcome.Canceled? <==> exists j: nat :: j <= Moves(d) && cancel(j)
  {
    ThreadedEnds(p, t, d, cancel, 0);
    var n := |Threaded(p, t, d, cancel, 0).positions| - 1;
    assert cancel(n) || n == Moves(d);
  }

  /** The two interfaces visit the same positions and end with the same result; the feedback of the
      single-step interface is that of the thread shifted by one. */
  lemma {:induction false} InterfacesAgree(p: Point, t: Point, d: real, cancel: nat -> bool, i: nat)
    requires IsDistance(d, p, t)
    ensures var a, b := Threaded(p, t, d, cancel, i), Stepwise(p, t, d, cancel, i);
            && a.positions == b.positions && a.outcome == b.outcome
            && |a.feedback| == |b.feedback| == |a.positions| - 1
            && (forall k :: 0 <= k < |a.feedback| ==> a.feedback[k].at == a.positions[k])
            && (forall k :: 0 <= k < |b.feedback| ==> b.feedback[k].at == a.positions[k + 1])
            && (forall k :: 0 < k < |a.feedback| ==> b.feedback[k - 1] == a.feedback[k])
            && (a.feedback != [] ==> a.feedback[0] == Feedback(p, d) && b.feedback[0] == Feedback(a.positions[1], d - STEP))
    decreases Moves(d)
  {
    if Check(p, d, cancel(i)).None? {
      MoveShortens(p, t, d);
      MovesStep(d);
      InterfacesAgree(NextPosition(p, t, d, STEP), t, d - STEP, cancel, i + 1);
    }
  }

  // ----- The box -----

  predicate InBox(p: Point) {
    -LIMIT <= p.x <= LIMIT && -LIMIT <= p.y <= LIMIT
  }

  lemma MoveStaysInBox(p: Point, t: Point, d: real)
    requires IsDistance(d, p, t) && d >= TOLERANCE && InBox(p) && InBox(t)
    ensures InBox(NextPosition(p, t, d, STEP))
  {
    MoveIsBetween(p.x, t.x, d, -LIMIT, LIMIT);
    MoveIsBetween(p.y, t.y, d, -LIMIT, LIMIT);
  }

  lemma SquareInRange(c: real, r: real)
    requires -r <= c <= r
    ensures c * c <= r * r
  {
    assert (r - c) * (r + c) >= 0.0;
  }

  /** Inside the box no goal needs more than 2819 moves. */
  lemma BoxBoundsMoves(p: Point, t: Point, d: real)
    requires IsDistance(d, p, t) && InBox(p) && InBox(t)
    ensures Moves(d) <= 2819
  {
    SquareInRange(t.x - p.x, 20.0);
    SquareInRange(t.y - p.y, 20.0);
    assert d * d <= 800.0;
    assert d < 28.285 by {
      if d >= 28.285 {
        if d > 28.285 { SquareGrows(28.285, d); }
      }
    }
    assert (d - TOLERANCE) / STEP < 2818.5;
  }

  // ----- The server object -----

  /** With what was sent so far, the rest of a run completes the whole of it. */
  ghost predicate Completes(rest: Trace, sent: seq<Feedback>, whole: Trace)
    requires |rest.positions| > 0 && |whole.positions| > 0
  {
    && rest.positions[|rest.positions| - 1] == whole.positions[|whole.positions| - 1]
    && sent + rest.feedback == whole.feedback
    && rest.outcome == whole.outcome
  }

  lemma CompletesAfterMove(r: Trace, p: Point, f: Feedback, rest: Trace, sent: seq<Feedback>, whole: Trace)
    requires |rest.positions| > 0 && |whole.positions| > 0
    requires r == Trace([p] + rest.positions, [f] + rest.feedback, rest.outcome) && Completes(r, sent, whole)
    ensures Completes(rest, sent + [f], whole)
  {
    assert sent + ([f] + rest.feedback) == (sent + [f]) + rest.feedback;
  }

  lemma ThreadedAfterMove(p: Point, t: Point, d: real, cancel: nat -> bool, i: nat, sent: seq<Feedback>, whole: Trace)
    requires IsDistance(d, p, t) && |whole.positions| > 0 && !cancel(i) && !Reached(d)
    requires Completes(Threaded(p, t, d, cancel, i), sent, whole)
    ensures IsDistance(d - STEP, NextPosition(p, t, d, STEP), t) && Moves(d - STEP) < Moves(d)
    ensures Completes(Threaded(NextPosition(p, t, d, STEP), t, d - STEP, cancel, i + 1), sent + [Feedback(p, d)], whole)
  {
    MoveShortens(p, t, d);
    MovesStep(d);
    CompletesAfterMove(Threaded(p, t, d, cancel, i), p, Feedback(p, d),
                       Threaded(NextPosition(p, t, d, STEP), t, d - STEP, cancel, i + 1), sent, whole);
  }

  lemma StepwiseAfterMove(p: Point, t: Point, d: real, cancel: nat -> bool, i: nat, sent: seq<Feedback>, whole: Trace)
    requires IsDistance(d, p, t) && |whole.positions| > 0 && Check(p, d, cancel(i)).None?
    requires Completes(Stepwise(p, t, d, cancel, i), sent, whole)
    ensures var q, e := NextPosition(p, t, d, STEP), NextDistance(d);
            && IsDistance(e, q, t) && Moves(e) < Moves(d)
            && Completes(Stepwise(q, t, e, cancel, i + 1), sent + [Feedback(q, e)], whole)
  {
    MoveShortens(p, t, d);
    MovesStep(d);
    var q, e := NextPosition(p, t, d, STEP), NextDistance(d);
    CompletesAfterMove(Stepwise(p, t, d, cancel, i), p, Feedback(q, e), Stepwise(q, t, e, cancel, i + 1), sent, whole);
  }

  class GoalHandle {
    var feedback: seq<Feedback>
    var result: Option<Outcome>

    constructor ()
      ensures feedback == [] && result == None
    {
      feedback, result := [], None;
    }
  }

  class Server {
    var isMoving: bool
    var position: Point
    var currentGoalHandle: GoalHandle?
    /** The goals for which a detached thread was started; each runs ExecuteMove. */
    var threads: seq<GoalHandle>

    constructor ()
      ensures !isMoving && position == Point(0.0, 0.0) && currentGoalHandle == null && threads == []
    {
      isMoving, position, currentGoalHandle, threads := false, Point(0.0, 0.0), null, [];
    }

    /** handle_goal: true stands for ACCEPT_AND_EXECUTE. */
    method HandleGoal(target: Point) returns (accept: bool)
      ensures accept <==> InBox(target) && !isMoving
    {
      var farX := target.x > LIMIT || -target.x > LIMIT;
      var farY := target.y > LIMIT || -target.y > LIMIT;
      if farX || farY {
        return false;
      }
      if isMoving {
        return false;
      }
      return true;
    }

    method CheckAndCompleteGoal(handle: GoalHandle, canceling: bool, distance: real) returns (done: bool)
      modifies this`isMoving, handle`result
      ensures var verdict := Check(position, distance, canceling);
              && done == verdict.Some?
              && handle.result == (if done then verdict else old(handle.result))
              && isMoving == (if done then false else old(isMoving))
    {
      if canceling {
        handle.result := Some(Canceled(position));
        isMoving := false;
        return true;
      }
      if Reached(distance) {
        handle.result := Some(Succeeded(position));
        isMoving := false;
        return true;
      }
      return false;
    }

    method ExecuteSingleStep(handle: GoalHandle, target: Point, distance: real)
      requires IsDistance(distance, position, target)
      modifies this`position, handle`feedback
      ensures position == NextPosition(old(position), target, distance, STEP)
      ensures IsDistance(NextDistance(distance), position, target)
      ensures handle.feedback == old(handle.feedback) + [Feedback(position, NextDistance(distance))]
    {
      MoveDistance(position, target, distance);
      position := NextPosition(position, target, distance, STEP);
      handle.feedback := handle.feedback + [Feedback(position, NextDistance(distance))];
    }

    method HandleAccepted(handle: GoalHandle)
      modifies this`isMoving, this`currentGoalHandle, this`threads
      ensures isMoving && currentGoalHandle == handle && threads == old(threads) + [handle]
    {
      currentGoalHandle := handle;
      isMoving := true;
      threads := threads + [handle];
    }

    /** The single-step interface driven to the end: check, then step, until the check completes. */
    method StepThrough(handle: GoalHandle, target: Point, initial: real, cancel: nat -> bool)
      requires IsDistance(initial, position, target)
      modifies this`isMoving, this`position, handle
      ensures var r := Stepwise(old(position), target, initial, cancel, 0);
              && position == r.positions[|r.positions| - 1]
              && handle.feedback == old(handle.feedback) + r.feedback
              && handle.result == Some(r.outcome)
              && !isMoving
    {
      ghost var whole := Stepwise(position, target, initial, cancel, 0);
      ghost var sent: seq<Feedback> := [];
      var distance, i := initial, 0;
      var done := CheckAndCompleteGoal(handle, cancel(0), distance);
      while !done
        invariant IsDistance(distance, position, target)
        invariant handle.feedback == old(handle.feedback) + sent
        invariant Completes(Stepwise(position, target, distance, cancel, i), sent, whole)
        invariant done == Check(position, distance, cancel(i)).Some?
        invariant done ==> handle.result == Check(position, distance, cancel(i)) && !isMoving
        decreases Moves(distance), !done
      {
        StepwiseAfterMove(position, target, distance, cancel, i, sent, whole);
        ExecuteSingleStep(handle, target, distance);
        distance, i := NextDistance(distance), i + 1;
        sent := sent + [Feedback(position, distance)];
        done := CheckAndCompleteGoal(handle, cancel(i), distance);
      }
    }

    /** execute_move, with `distance` standing for the square root that each round recomputes. */
    method ExecuteMove(handle: GoalHandle, target: Point, initial: real, cancel: nat -> bool)
      requires IsDistance(initial, position, target)
      modifies this`isMoving, this`position, handle
      ensures !isMoving
      ensures old(isMoving) ==>
                (var r := Threaded(old(position), target, initial, cancel, 0);
                 && position == r.positions[|r.positions| - 1]
                 && handle.feedback == old(handle.feedback) + r.feedback
                 && handle.result == Some(r.outcome))
      ensures !old(isMoving) ==>
                position == old(position) && handle.feedback == old(handle.feedback) && handle.result == old(handle.result)
    {
      if isMoving {
        RunLoop(handle, target, initial, cancel);
      }
    }

    /** The loop of execute_move once it is entered. */
    method RunLoop(handle: GoalHandle, target: Point, initial: real, cancel: nat -> bool)
      requires isMoving && IsDistance(initial, position, target)
      modifies this`isMoving, this`position, handle
      ensures var r := Threaded(old(position), target, initial, cancel, 0);
              && position == r.positions[|r.positions| - 1]
              && handle.feedback == old(handle.feedback) + r.feedback
              && handle.result == Some(r.outcome)
              && !isMoving
    {
      ghost var whole := Threaded(position, target, initial, cancel, 0);
      ghost var sent: seq<Feedback> := [];
      var distance, i := initial, 0;
      while isMoving
        invariant IsDistance(distance, position, target)
        invariant handle.feedback == old(handle.feedback) + sent
        invariant isMoving ==> Completes(Threaded(position, target, distance, cancel, i), sent, whole)
        invariant !isMoving ==>
                    && position == whole.positions[|whole.positions| - 1]
                    && sent == whole.feedback
                    && handle.result == Some(whole.outcome)
        decreases isMoving, Moves(distance)
      {
        if cancel(i) {
          handle.result := Some(Canceled(position));
          isMoving := false;
        } else {
          var feedback := Feedback(position, distance);
          if Reached(distance) {
            handle.result := Some(Succeeded(position));
            isMoving := false;
          } else {
            ThreadedAfterMove(position, target, distance, cancel, i, sent, whole);
            position := NextPosition(position, target, distance, STEP);
            handle.feedback := handle.feedback + [feedback];
            sent := sent + [feedback];
            distance, i := distance - STEP, i + 1;
          }
        }
      }
    }
  }
}
