/** What the events of a run have to do with the goals and results it leaves: targets are the
    requested ones, cancellations were asked for, results say where the robot stood; and a thread
    that is left alone does what the loop of execute_move does. */
module GoalHistory {
  import opened Motion
  import opened ActionServer
  import opened GoalMachine
  import opened Histories

  /** The i-th event of the run could happen, and did. */
  ghost predicate Happens(evs: seq<Event>, i: int) {
    0 <= i < |evs| && Enabled(Run(evs[..i]), evs[i])
  }

  lemma RunSnoc(evs: seq<Event>, ev: Event)
    ensures Run(evs + [ev]) == if Enabled(Run(evs), ev) then Next(Run(evs), ev) else Run(evs)
  {
    assert (evs + [ev])[..|evs|] == evs;
  }

  // ----- Where goals come from -----

  /** The goal is approved or executes, and this is its target. */
  predicate HasTarget(s: State, id: GoalId, target: Point) {
    (id in s.approved && s.approved[id] == target) || (id in s.execs && s.execs[id].target == target)
  }

  /** The request is in the box and meets a server at rest. */
  predicate Approves(s: State, ev: Event, id: GoalId, target: Point) {
    ev == HandleGoal(id, target) && InBox(target) && !s.moving
  }

  lemma ApprovalStep(s: State, ev: Event, id: GoalId, target: Point)
    requires Enabled(s, ev)
    ensures HasTarget(Next(s, ev), id, target) <==> HasTarget(s, id, target) || Approves(s, ev, id, target)
  {
    match ev {
      case HandleGoal(_, _) =>
      case HandleAccepted(_, _) =>
      case RequestCancel(_) =>
      case ThreadStep(_, _) =>
    }
  }

  /** Goals are the requested ones, over every run: a goal is approved or executes with a target if and
      only if exactly that target was requested for it, in the box and at rest. */
  lemma GoalsAreRequested(evs: seq<Event>, id: GoalId, target: Point)
    ensures HasTarget(Run(evs), id, target) <==>
            exists i :: Happens(evs, i) && Approves(Run(evs[..i]), evs[i], id, target)
  {
    var holds := (before: seq<Event>) => HasTarget(Run(before), id, target);
    var begins := (before: seq<Event>, ev: Event) => Enabled(Run(before), ev) && Approves(Run(before), ev, id, target);
    forall before, ev
      ensures holds(before + [ev]) <==> begins(before, ev) || holds(before)
    {
      RunSnoc(before, ev);
      if Enabled(Run(before), ev) {
        ApprovalStep(Run(before), ev, id, target);
      }
    }
    Ever(holds, begins, evs);
  }

  predicate Began(s: State, id: GoalId, start: Point, d: real) {
    id in s.execs && s.execs[id].start == start && s.execs[id].initial == d
  }

  lemma AcceptanceStep(s: State, ev: Event, id: GoalId, start: Point, d: real)
    requires Enabled(s, ev)
    ensures Began(Next(s, ev), id, start, d) <==>
            Began(s, id, start, d) || (ev == HandleAccepted(id, d) && s.position == start)
  {
    match ev {
      case HandleGoal(_, _) =>
      case HandleAccepted(_, _) =>
      case RequestCancel(_) =>
      case ThreadStep(_, _) =>
    }
  }

  /** A goal's path begins where the robot stood when it was accepted. */
  lemma PathsBeginAtAcceptance(evs: seq<Event>, id: GoalId, start: Point, d: real)
    ensures Began(Run(evs), id, start, d) <==>
            exists i :: Happens(evs, i) && evs[i] == HandleAccepted(id, d) && Run(evs[..i]).position == start
  {
    var holds := (before: seq<Event>) => Began(Run(before), id, start, d);
    var begins := (before: seq<Event>, ev: Event) =>
      Enabled(Run(before), ev) && ev == HandleAccepted(id, d) && Run(before).position == start;
    forall before, ev
      ensures holds(before + [ev]) <==> begins(before, ev) || holds(before)
    {
      RunSnoc(before, ev);
      if Enabled(Run(before), ev) {
        AcceptanceStep(Run(before), ev, id, start, d);
      }
    }
    Ever(holds, begins, evs);
  }

  predicate Canceling(s: State, id: GoalId) {
    id in s.execs && s.execs[id].canceling
  }

  lemma CancelStep(s: State, ev: Event, id: GoalId)
    requires Enabled(s, ev)
    ensures Canceling(Next(s, ev), id) <==> Canceling(s, id) || ev == RequestCancel(id)
  {
    match ev {
      case HandleGoal(_, _) =>
      case HandleAccepted(_, _) =>
      case RequestCancel(_) =>
      case ThreadStep(_, _) =>
    }
  }

  /** A goal is canceling if and only if a cancel request for it arrived after its acceptance. */
  lemma CancelsAreRequested(evs: seq<Event>, id: GoalId)
    ensures Canceling(Run(evs), id) <==> exists i :: Happens(evs, i) && evs[i] == RequestCancel(id)
  {
    var holds := (before: seq<Event>) => Canceling(Run(before), id);
    var begins := (before: seq<Event>, ev: Event) => Enabled(Run(before), ev) && ev == RequestCancel(id);
    forall before, ev
      ensures holds(before + [ev]) <==> begins(before, ev) || holds(before)
    {
      RunSnoc(before, ev);
      if Enabled(Run(before), ev) {
        CancelStep(Run(before), ev, id);
      }
    }
    Ever(holds, begins, evs);
  }

  // ----- Where results come from -----

  /** The thread's cancel check finds the request, or its arrival check finds the target reached. */
  predicate Posts(s: State, ev: Event, r: Result) {
    && ev.ThreadStep? && ev.id == r.id && r.id in s.execs && r.at == s.position
    && var x := s.execs[r.id];
    if r.canceled then x.pc.AtCancel? && x.canceling else x.pc.AtArrival? && Reached(ev.d)
  }

  lemma PostStep(s: State, ev: Event, r: Result)
    requires Enabled(s, ev)
    ensures r in Next(s, ev).results <==> r in s.results || Posts(s, ev, r)
  {
    match ev {
      case HandleGoal(_, _) =>
      case HandleAccepted(_, _) =>
      case RequestCancel(_) =>
      case ThreadStep(_, _) =>
    }
  }

  /** Every result was posted by a check of its own goal's thread, at the position where the robot
      then stood; and every such check posts one. */
  lemma ResultsArePosted(evs: seq<Event>, r: Result)
    ensures r in Run(evs).results <==> exists i :: Happens(evs, i) && Posts(Run(evs[..i]), evs[i], r)
  {
    var holds := (before: seq<Event>) => r in Run(before).results;
    var begins := (before: seq<Event>, ev: Event) => Enabled(Run(before), ev) && Posts(Run(before), ev, r);
    forall before, ev
      ensures holds(before + [ev]) <==> begins(before, ev) || holds(before)
    {
      RunSnoc(before, ev);
      if Enabled(Run(before), ev) {
        PostStep(Run(before), ev, r);
      }
    }
    Ever(holds, begins, evs);
  }

  /** Success, over every interleaving: the goal was requested with some target in the box and
      accepted at some position; the robot stands at the end of the straight path between the two,
      within the tolerance of the requested target.  A canceled goal was asked to cancel. */
  lemma ResultsAnswerRequests(evs: seq<Event>, r: Result)
    requires SerialRun(evs) && r in Run(evs).results
    ensures r.id in Run(evs).execs
    ensures var x := Run(evs).execs[r.id];
            && (exists i :: Happens(evs, i) && Approves(Run(evs[..i]), evs[i], r.id, x.target))
            && (exists i :: Happens(evs, i) && evs[i] == HandleAccepted(r.id, x.initial)
                            && Run(evs[..i]).position == x.start)
            && OnPath(x, r.at)
            && (if r.canceled then exists i :: Happens(evs, i) && evs[i] == RequestCancel(r.id)
                else x.moves == Moves(x.initial) && exists d :: IsDistance(d, r.at, x.target) && Reached(d))
  {
    RunIsGood(evs);
    var s := Run(evs);
    var i :| 0 <= i < |s.results| && s.results[i] == r;
    assert ResultOk(s, s.results[i]);
    var x := s.execs[r.id];
    GoalsAreRequested(evs, r.id, x.target);
    PathsBeginAtAcceptance(evs, r.id, x.start, x.initial);
    CancelsAreRequested(evs, r.id);
  }

  // ----- Moves and cancellation -----

  /** Only a thread about to move moves the robot, by exactly one step. */
  lemma OnlyMovesMove(s: State, ev: Event)
    requires Inv(s) && Enabled(s, ev)
    ensures if ev.ThreadStep? && s.execs[ev.id].pc.AtMove? then IsDistance(STEP, s.position, Next(s, ev).position)
            else Next(s, ev).position == s.position
  {
    if ev.ThreadStep? && s.execs[ev.id].pc.AtMove? {
      var x := s.execs[ev.id];
      assert Active(s, ev.id);
      DistanceIsUnique(ev.d, After(x.initial, x.moves), s.position, x.target);
      MoveLength(s.position, x.target, ev.d);
    }
  }

  /** A cancel request decides a goal's result if and only if it comes before the verdict and not
      between the cancel check and the arrival check; then no continuation can make the goal succeed. */
  lemma CancelCondemnsIff(s: State, id: GoalId)
    requires Inv(s) && id in s.execs && !HasResult(s.execs[id])
    ensures Condemned(Next(s, RequestCancel(id)), id) <==> !s.execs[id].pc.AtArrival?
  {
    assert !Posted(s, id);
  }

  // ----- A cleared flag -----

  lemma {:induction false} NoResultAfterReturn(s: State, evs: seq<Event>, id: GoalId)
    requires id in s.execs && s.execs[id].pc.Left? && !Posted(s, id)
    ensures var f := RunFrom(s, evs); id in f.execs && f.execs[id].pc.Left? && !Posted(f, id)
  {
    if evs != [] {
      var init, ev := evs[..|evs| - 1], evs[|evs| - 1];
      NoResultAfterReturn(s, init, id);
      if Enabled(RunFrom(s, init), ev) {
        LeftStaysLeft(RunFrom(s, init), ev, id);
      }
    }
  }

  lemma LeftStaysLeft(s: State, ev: Event, id: GoalId)
    requires Enabled(s, ev) && id in s.execs && s.execs[id].pc.Left? && !Posted(s, id)
    ensures id in Next(s, ev).execs && Next(s, ev).execs[id].pc.Left? && !Posted(Next(s, ev), id)
  {
    match ev {
      case HandleGoal(_, _) =>
      case HandleAccepted(_, _) =>
      case RequestCancel(_) =>
      case ThreadStep(_, _) =>
    }
  }

  /** A goal that meets its loop condition with is_moving_ cleared, as it can after a race for the
      flag, is dropped: its thread returns, and in no continuation does it get a result. */
  lemma ClearedFlagLosesTheGoal(s: State, id: GoalId, d: real, evs: seq<Event>)
    requires Enabled(s, ThreadStep(id, d)) && s.execs[id].pc.AtLoop? && !s.moving && !Posted(s, id)
    ensures !Posted(RunFrom(s, [ThreadStep(id, d)] + evs), id)
  {
    RunFromConcat(s, [ThreadStep(id, d)], evs);
    OneStepOfThread(s, id, d);
    NoResultAfterReturn(Stepped(s, id, d), evs, id);
  }

  // ----- An undisturbed thread -----

  lemma {:induction false} RunFromConcat(s: State, a: seq<Event>, b: seq<Event>)
    ensures RunFrom(s, a + b) == RunFrom(RunFrom(s, a), b)
  {
    if b == [] {
      assert a + b == a;
    } else {
      var init := b[..|b| - 1];
      assert (a + b)[..|a + b| - 1] == a + init;
      RunFromConcat(s, a, init);
    }
  }

  predicate OnlySteps(evs: seq<Event>, id: GoalId) {
    forall i :: 0 <= i < |evs| ==> evs[i].ThreadStep? && evs[i].id == id
  }

  /** The thread is at its loop condition, allowed to run, at distance d from its target. */
  predicate AtTop(s: State, id: GoalId, d: real) {
    s.moving && id in s.execs && s.execs[id].pc.AtLoop? && IsDistance(d, s.position, s.execs[id].target)
  }

  lemma OneStepOfThread(s: State, id: GoalId, d: real)
    requires Enabled(s, ThreadStep(id, d))
    ensures RunFrom(s, [ThreadStep(id, d)]) == Stepped(s, id, d)
  {
    assert [ThreadStep(id, d)][..0] == [];
    assert RunFrom(s, []) == s;
  }

  function Repeated(id: GoalId, d: real, n: nat): seq<Event> {
    seq(n, _ => ThreadStep(id, d))
  }

  lemma StepsOfThread(s: State, id: GoalId, d: real, n: nat)
    requires Enabled(RunFrom(s, Repeated(id, d, n)), ThreadStep(id, d))
    ensures RunFrom(s, Repeated(id, d, n + 1)) == Stepped(RunFrom(s, Repeated(id, d, n)), id, d)
  {
    assert Repeated(id, d, n + 1) == Repeated(id, d, n) + [ThreadStep(id, d)];
    RunFromConcat(s, Repeated(id, d, n), [ThreadStep(id, d)]);
    OneStepOfThread(RunFrom(s, Repeated(id, d, n)), id, d);
  }

  /** Past the cancel check: the thread has looked, and now stands at the arrival check. */
  lemma ThreadLooks(s: State, id: GoalId, d: real)
    requires AtTop(s, id, d)
    ensures RunFrom(s, Repeated(id, d, 2)) ==
            if s.execs[id].canceling then WithVerdict(s, id, true) else WithPc(s, id, AtArrival)
  {
    assert Repeated(id, d, 0) == [] && RunFrom(s, []) == s;
    StepsOfThread(s, id, d, 0);
    assert Stepped(s, id, d) == WithPc(s, id, AtCancel);
    StepsOfThread(s, id, d, 1);
  }

  /** The end of a thread that has given its verdict. */
  lemma ThreadLeaves(s: State, id: GoalId, d: real, n: nat)
    requires var u := RunFrom(s, Repeated(id, d, n));
             id in u.execs && u.execs[id].pc.AtClear? && IsDistance(d, u.position, u.execs[id].target)
    ensures RunFrom(s, Repeated(id, d, n + 1)) == WithPc(RunFrom(s, Repeated(id, d, n)), id, Left).(moving := false)
  {
    StepsOfThread(s, id, d, n);
  }

  /** What a thread that runs alone leaves behind. */
  ghost predicate Finishes(s: State, f: State, id: GoalId, canceled: bool, at: Point)
    requires id in s.execs
  {
    && f.results == s.results + [Result(id, canceled, at)]
    && f.position == at && !f.moving
    && id in f.execs && f.execs[id].pc.Left?
  }

  lemma LastRound(s: State, id: GoalId, d: real) returns (n: nat)
    requires AtTop(s, id, d) && (s.execs[id].canceling || Reached(d))
    ensures Finishes(s, RunFrom(s, Repeated(id, d, n)), id, s.execs[id].canceling, s.position)
  {
    ThreadLooks(s, id, d);
    if s.execs[id].canceling {
      ThreadLeaves(s, id, d, 2);
      n := 3;
    } else {
      StepsOfThread(s, id, d, 2);
      ThreadLeaves(s, id, d, 3);
      n := 4;
    }
  }

  lemma MovingRound(s: State, id: GoalId, d: real)
    requires AtTop(s, id, d) && !s.execs[id].canceling && d >= TOLERANCE
    ensures var f, x := RunFrom(s, Repeated(id, d, 4)), s.execs[id];
            && f.position == NextPosition(s.position, x.target, d, STEP) && f.results == s.results
            && AtTop(f, id, d - STEP) && !f.execs[id].canceling && f.execs[id].target == x.target
  {
    ThreadLooks(s, id, d);
    StepsOfThread(s, id, d, 2);
    StepsOfThread(s, id, d, 3);
    MoveShortens(s.position, s.execs[id].target, d);
  }

  /** The state machine's thread refines the loop: left alone from the loop condition, a thread comes
      to its end, with the very outcome that `Threaded` computes. */
  lemma {:induction false} ThreadRunsTheLoop(s: State, id: GoalId, d: real) returns (evs: seq<Event>)
    requires AtTop(s, id, d)
    ensures OnlySteps(evs, id)
    ensures var outcome := Threaded(s.position, s.execs[id].target, d, _ => s.execs[id].canceling, 0).outcome;
            Finishes(s, RunFrom(s, evs), id, outcome.Canceled?, outcome.at)
    decreases Moves(d)
  {
    var x := s.execs[id];
    if x.canceling || Reached(d) {
      var n := LastRound(s, id, d);
      evs := Repeated(id, d, n);
    } else {
      var round := Repeated(id, d, 4);
      var mid := RunFrom(s, round);
      MovingRound(s, id, d);
      MovesStep(d);
      var rest := ThreadRunsTheLoop(mid, id, d - STEP);
      evs := round + rest;
      RunFromConcat(s, round, rest);
      UndisturbedLoop(s.position, x.target, d);
    }
  }

  /** Without a cancel request the number of the check does not matter. */
  lemma UndisturbedLoop(p: Point, t: Point, d: real)
    requires IsDistance(d, p, t) && d >= TOLERANCE
    ensures IsDistance(d - STEP, NextPosition(p, t, d, STEP), t)
    ensures Threaded(p, t, d, _ => false, 0).outcome
            == Threaded(NextPosition(p, t, d, STEP), t, d - STEP, _ => false, 0).outcome
  {
    MoveShortens(p, t, d);
    MovesStep(d);
    var q := NextPosition(p, t, d, STEP);
    SameOutcomeFrom(q, t, d - STEP, 0, 1);
  }

  lemma {:induction false} SameOutcomeFrom(p: Point, t: Point, d: real, i: nat, j: nat)
    requires IsDistance(d, p, t)
    ensures Threaded(p, t, d, _ => false, i).outcome == Threaded(p, t, d, _ => false, j).outcome
    decreases Moves(d)
  {
    if d >= TOLERANCE {
      MoveShortens(p, t, d);
      MovesStep(d);
      SameOutcomeFrom(NextPosition(p, t, d, STEP), t, d - STEP, i + 1, j + 1);
    }
  }
}
