/** The action server's goals under interleaving: goal requests, acceptances and cancel requests on
    one side, the steps of the detached threads on the other. */
module GoalMachine {
  import opened Motion
  import opened ActionServer

  type GoalId = nat

  /** Where a thread stands in execute_move: at the loop condition, the cancel check, the arrival
      check, the move, the clearing of is_moving_ after a result, or returned. */
  datatype Pc = AtLoop | AtCancel | AtArrival | AtMove | AtClear | Left

  /** `start` and `initial` are the position and the distance at acceptance, `moves` the number of
      moves made since. */
  datatype Exec = Exec(target: Point, start: Point, initial: real, moves: nat, canceling: bool, pc: Pc)

  datatype Result = Result(id: GoalId, canceled: bool, at: Point)

  datatype State = State(
    moving: bool,
    position: Point,
    approved: map<GoalId, Point>,
    execs: map<GoalId, Exec>,
    results: seq<Result>)

  const START := State(false, Point(0.0, 0.0), map[], map[], [])

  /** `d` is the square root that the arrival check and the move compute at that moment. */
  datatype Event =
    | HandleGoal(id: GoalId, target: Point)
    | HandleAccepted(id: GoalId, d: real)
    | RequestCancel(id: GoalId)
    | ThreadStep(id: GoalId, d: real)

  predicate Enabled(s: State, ev: Event) {
    match ev
    case HandleGoal(id, _) => id !in s.approved && id !in s.execs
    case HandleAccepted(id, d) => id in s.approved && id !in s.execs && IsDistance(d, s.position, s.approved[id])
    case RequestCancel(id) => id in s.execs
    case ThreadStep(id, d) => id in s.execs && !s.execs[id].pc.Left? && IsDistance(d, s.position, s.execs[id].target)
  }

  function WithPc(s: State, id: GoalId, pc: Pc): State
    requires id in s.execs
  {
    s.(execs := s.execs[id := s.execs[id].(pc := pc)])
  }

  /** The thread posts its result; the clearing of is_moving_ is a step of its own. */
  function WithVerdict(s: State, id: GoalId, canceled: bool): State
    requires id in s.execs
  {
    WithPc(s, id, AtClear).(results := s.results + [Result(id, canceled, s.position)])
  }

  function Stepped(s: State, id: GoalId, d: real): State
    requires Enabled(s, ThreadStep(id, d))
  {
    var x := s.execs[id];
    match x.pc
    case AtLoop => WithPc(s, id, if s.moving then AtCancel else Left)
    case AtCancel =>
      if x.canceling then WithVerdict(s, id, true)
      else WithPc(s, id, AtArrival)
    case AtArrival =>
      if Reached(d) then WithVerdict(s, id, false)
      else WithPc(s, id, AtMove)
    case AtMove =>
      s.(position := NextPosition(s.position, x.target, d, STEP),
         execs := s.execs[id := x.(moves := x.moves + 1, pc := AtLoop)])
    case AtClear => WithPc(s, id, Left).(moving := false)
    case Left => s
  }

  function Next(s: State, ev: Event): State
    requires Enabled(s, ev)
  {
    match ev
    case HandleGoal(id, target) =>
      if InBox(target) && !s.moving then s.(approved := s.approved[id := target]) else s
    case HandleAccepted(id, d) =>
      s.(moving := true, approved := s.approved - {id},
         execs := s.execs[id := Exec(s.approved[id], s.position, d, 0, false, AtLoop)])
    case RequestCancel(id) => s.(execs := s.execs[id := s.execs[id].(canceling := true)])
    case ThreadStep(id, d) => Stepped(s, id, d)
  }

  /** The state after a run; events that cannot happen are passed over. */
  function RunFrom(from: State, evs: seq<Event>): State {
    if evs == [] then from
    else
      var s, ev := RunFrom(from, evs[..|evs| - 1]), evs[|evs| - 1];
      if Enabled(s, ev) then Next(s, ev) else s
  }

  function Run(evs: seq<Event>): State {
    RunFrom(START, evs)
  }

  // ----- What every interleaving keeps -----

  predicate Active(s: State, id: GoalId) {
    id in s.execs && !s.execs[id].pc.Left?
  }

  /** is_moving_ is true exactly while a goal executes, and one goal executes at a time. */
  ghost predicate OneAtATime(s: State) {
    && (forall id :: Active(s, id) ==> s.moving)
    && (s.moving ==> exists id :: Active(s, id))
    && (forall a, b :: Active(s, a) && Active(s, b) ==> a == b)
    && (s.moving ==> s.approved == map[])
    && (forall id :: id in s.approved ==> id !in s.execs)
  }

  ghost predicate OneApproved(s: State) {
    forall a, b :: a in s.approved && b in s.approved ==> a == b
  }

  /** A goal stands on its straight path from the start to the target, after as many moves as it
      has made. */
  ghost predicate OnPath(x: Exec, at: Point) {
    && IsDistance(x.initial, x.start, x.target)
    && x.moves <= Moves(x.initial)
    && at == PathAt(x.start, x.target, x.initial, x.moves)
  }

  /** The executing goal: in the box, on its path at distance initial - 0.01 * moves, and never
      moving once it is within the tolerance. */
  ghost predicate ExecOk(s: State, x: Exec) {
    && InBox(x.target)
    && OnPath(x, s.position)
    && IsDistance(After(x.initial, x.moves), s.position, x.target)
    && (x.pc.AtMove? ==> After(x.initial, x.moves) >= TOLERANCE)
    && x.moves + Moves(After(x.initial, x.moves)) == Moves(x.initial) <= 2819
  }

  ghost predicate PlaceOk(s: State) {
    && InBox(s.position)
    && (forall id :: id in s.approved ==> InBox(s.approved[id]))
    && (forall id :: Active(s, id) ==> ExecOk(s, s.execs[id]))
    && (forall id :: id in s.execs ==> s.execs[id].moves <= 2819)
  }

  predicate HasResult(x: Exec) {
    x.pc.AtClear? || x.pc.Left?
  }

  ghost predicate Posted(s: State, id: GoalId) {
    exists i :: 0 <= i < |s.results| && s.results[i].id == id
  }

  /** A result gives the position where the goal ended; `canceled` was asked for, and success came
      within the tolerance after exactly the number of moves that the initial distance needs. */
  ghost predicate ResultOk(s: State, r: Result) {
    && r.id in s.execs
    && var x := s.execs[r.id];
    && OnPath(x, r.at)
    && IsDistance(After(x.initial, x.moves), r.at, x.target)
    && (if r.canceled then x.canceling else Reached(After(x.initial, x.moves)) && x.moves == Moves(x.initial))
  }

  /** Exactly the goals whose thread is past its verdict have a result, and each has one. */
  ghost predicate ResultsOk(s: State) {
    && (forall i, j :: 0 <= i < j < |s.results| ==> s.results[i].id != s.results[j].id)
    && (forall i :: 0 <= i < |s.results| ==> ResultOk(s, s.results[i]))
    && (forall id :: Posted(s, id) <==> id in s.execs && HasResult(s.execs[id]))
  }

  /** Nothing has gone wrong so far. */
  ghost predicate Sound(s: State) {
    OneAtATime(s) && PlaceOk(s) && ResultsOk(s)
  }

  /** And nothing will, unless another goal is approved too early. */
  ghost predicate Inv(s: State) {
    Sound(s) && OneApproved(s)
  }

  /** No goal is approved while another approved one still waits for its handle_accepted; an
      acceptance that directly follows its approval ensures that. */
  predicate Serial(s: State, ev: Event) {
    ev.HandleGoal? && InBox(ev.target) && !s.moving ==> s.approved == map[]
  }

  lemma HandleGoalKeepsIff(s: State, id: GoalId, target: Point)
    requires Inv(s) && Enabled(s, HandleGoal(id, target))
    ensures Sound(Next(s, HandleGoal(id, target)))
    ensures OneApproved(Next(s, HandleGoal(id, target))) <==> Serial(s, HandleGoal(id, target))
  {
    var s' := Next(s, HandleGoal(id, target));
    assert forall x :: Active(s, x) <==> Active(s', x);
    assert forall x :: Posted(s, x) <==> Posted(s', x);
    ResultsStay(s, s');
    if InBox(target) && !s.moving && s.approved != map[] {
      SomeKey(s.approved);
      var other :| other in s.approved;
      assert other in s'.approved && id in s'.approved && other != id;
    }
  }

  lemma SomeKey(m: map<GoalId, Point>)
    ensures m != map[] ==> exists id :: id in m
  {
    assert (forall id :: id !in m) ==> m == map[];
  }

  /** A step that leaves the goals with a result as they are, except for a late cancel request. */
  lemma ResultsStay(s: State, s': State)
    requires ResultsOk(s) && s.results <= s'.results
    requires forall id :: id in s.execs && HasResult(s.execs[id]) ==>
               id in s'.execs && s'.execs[id].(pc := s.execs[id].pc, canceling := s.execs[id].canceling) == s.execs[id]
               && (s.execs[id].canceling ==> s'.execs[id].canceling)
    ensures forall i :: 0 <= i < |s.results| ==> ResultOk(s', s'.results[i])
  {
    forall i | 0 <= i < |s.results|
      ensures ResultOk(s', s'.results[i])
    {
      assert ResultOk(s, s.results[i]) && Posted(s, s.results[i].id);
    }
  }

  lemma HandleAcceptedKeeps(s: State, id: GoalId, d: real)
    requires Inv(s) && Enabled(s, HandleAccepted(id, d))
    ensures Inv(Next(s, HandleAccepted(id, d)))
  {
    var s' := Next(s, HandleAccepted(id, d));
    assert !s.moving;
    forall x
      ensures Active(s', x) <==> x == id
      ensures Posted(s', x) <==> Posted(s, x)
    {
      assert x != id ==> (Active(s', x) <==> Active(s, x));
    }
    assert s'.approved == map[];
    ResultsStay(s, s');
    BoxBoundsMoves(s.position, s.approved[id], d);
  }

  /** Who executes and who has a result, if only fields of one goal other than its place changed. */
  lemma SamePlaces(s: State, s': State, id: GoalId)
    requires id in s.execs && id in s'.execs && s'.execs == s.execs[id := s'.execs[id]] && s'.results == s.results
    requires s'.execs[id].pc.Left? == s.execs[id].pc.Left?
    ensures forall x :: Active(s', x) <==> Active(s, x)
    ensures forall x :: Posted(s', x) <==> Posted(s, x)
  {
  }

  lemma RequestCancelKeepsPlace(s: State, id: GoalId)
    requires PlaceOk(s) && Enabled(s, RequestCancel(id))
    ensures PlaceOk(Next(s, RequestCancel(id)))
  {
    var s' := Next(s, RequestCancel(id));
    forall x | Active(s', x)
      ensures ExecOk(s', s'.execs[x])
    {
      assert Active(s, x) && ExecOk(s, s.execs[x]);
    }
  }

  lemma RequestCancelKeeps(s: State, id: GoalId)
    requires Inv(s) && Enabled(s, RequestCancel(id))
    ensures Inv(Next(s, RequestCancel(id)))
  {
    var s' := Next(s, RequestCancel(id));
    ResultsStay(s, s');
    SamePlaces(s, s', id);
    RequestCancelKeepsPlace(s, id);
  }

  // ----- The steps of a thread -----

  lemma AfterNext(d: real, k: nat)
    ensures After(d, k + 1) == After(d, k) - STEP
  {
    AfterFormula(d, k);
    AfterFormula(d, k + 1);
    assert (k + 1) as real == k as real + 1.0;
  }

  /** A step that only advances the thread, without a result. */
  lemma AdvanceKeeps(s: State, id: GoalId, pc: Pc)
    requires Inv(s) && Active(s, id) && !HasResult(s.execs[id])
    requires pc.AtCancel? || pc.AtArrival? || (pc.AtMove? && After(s.execs[id].initial, s.execs[id].moves) >= TOLERANCE)
    ensures Inv(WithPc(s, id, pc))
  {
    var s' := WithPc(s, id, pc);
    ResultsStay(s, s');
    SamePlaces(s, s', id);
  }

  lemma PostedAfterVerdict(s: State, id: GoalId, canceled: bool, x: GoalId)
    requires id in s.execs
    ensures Posted(WithVerdict(s, id, canceled), x) <==> Posted(s, x) || x == id
  {
    var s' := WithVerdict(s, id, canceled);
    assert s'.results[|s.results|].id == id;
    if Posted(s, x) {
      var i :| 0 <= i < |s.results| && s.results[i].id == x;
      assert s'.results[i].id == x;
    }
  }

  lemma VerdictKeepsPlaces(s: State, id: GoalId, canceled: bool)
    requires Inv(s) && Active(s, id)
    ensures var s' := WithVerdict(s, id, canceled); OneAtATime(s') && PlaceOk(s') && OneApproved(s')
  {
    var s' := WithVerdict(s, id, canceled);
    assert forall x :: Active(s', x) <==> Active(s, x);
  }

  lemma VerdictKeepsResults(s: State, id: GoalId, canceled: bool)
    requires Inv(s) && Active(s, id) && !HasResult(s.execs[id])
    requires if canceled then s.execs[id].canceling else Reached(After(s.execs[id].initial, s.execs[id].moves))
    ensures ResultsOk(WithVerdict(s, id, canceled))
  {
    var s' := WithVerdict(s, id, canceled);
    assert !Posted(s, id);
    ResultsStay(s, s');
    assert ResultOk(s', Result(id, canceled, s.position));
    forall x
      ensures Posted(s', x) <==> x in s'.execs && HasResult(s'.execs[x])
    {
      PostedAfterVerdict(s, id, canceled, x);
    }
  }

  /** A step that posts the result. */
  lemma VerdictKeeps(s: State, id: GoalId, canceled: bool)
    requires Inv(s) && Active(s, id) && !HasResult(s.execs[id])
    requires if canceled then s.execs[id].canceling else Reached(After(s.execs[id].initial, s.execs[id].moves))
    ensures Inv(WithVerdict(s, id, canceled))
  {
    VerdictKeepsPlaces(s, id, canceled);
    VerdictKeepsResults(s, id, canceled);
  }

  /** A move keeps the goal on its way. */
  lemma MoveKeepsExec(s: State, x: Exec, d: real)
    requires ExecOk(s, x) && x.pc.AtMove? && InBox(s.position) && IsDistance(d, s.position, x.target)
    ensures var q := NextPosition(s.position, x.target, d, STEP);
            InBox(q) && ExecOk(s.(position := q), x.(moves := x.moves + 1, pc := AtLoop)) && x.moves < 2819
  {
    DistanceIsUnique(d, After(x.initial, x.moves), s.position, x.target);
    MoveShortens(s.position, x.target, d);
    MoveStaysInBox(s.position, x.target, d);
    MovesStep(d);
    AfterNext(x.initial, x.moves);
    PathExtends(x.start, x.target, x.initial, x.moves, d);
  }

  lemma MoveKeeps(s: State, id: GoalId, d: real)
    requires Inv(s) && Enabled(s, ThreadStep(id, d)) && s.execs[id].pc.AtMove?
    ensures Inv(Stepped(s, id, d))
  {
    var s' := Stepped(s, id, d);
    ResultsStay(s, s');
    assert Active(s, id);
    MoveKeepsExec(s, s.execs[id], d);
    SamePlaces(s, s', id);
  }

  lemma ClearKeeps(s: State, id: GoalId)
    requires Inv(s) && Active(s, id) && s.execs[id].pc.AtClear?
    ensures Inv(WithPc(s, id, Left).(moving := false))
  {
    var s' := WithPc(s, id, Left).(moving := false);
    ResultsStay(s, s');
    forall x
      ensures !Active(s', x)
      ensures Posted(s', x) <==> Posted(s, x)
    {
      assert x != id ==> (Active(s', x) <==> Active(s, x));
    }
  }

  lemma ThreadStepKeeps(s: State, id: GoalId, d: real)
    requires Inv(s) && Enabled(s, ThreadStep(id, d))
    ensures Inv(Stepped(s, id, d))
  {
    var x := s.execs[id];
    assert Active(s, id);
    match x.pc {
      case AtLoop => AdvanceKeeps(s, id, AtCancel);
      case AtCancel =>
        if x.canceling {
          VerdictKeeps(s, id, true);
        } else {
          AdvanceKeeps(s, id, AtArrival);
        }
      case AtArrival =>
        DistanceIsUnique(d, After(x.initial, x.moves), s.position, x.target);
        if Reached(d) {
          VerdictKeeps(s, id, false);
        } else {
          AdvanceKeeps(s, id, AtMove);
        }
      case AtMove => MoveKeeps(s, id, d);
      case AtClear => ClearKeeps(s, id);
    }
  }

  lemma StepKeepsIff(s: State, ev: Event)
    requires Inv(s) && Enabled(s, ev)
    ensures Sound(Next(s, ev))
    ensures OneApproved(Next(s, ev)) <==> Serial(s, ev)
  {
    match ev {
      case HandleGoal(id, target) => HandleGoalKeepsIff(s, id, target);
      case HandleAccepted(id, d) => HandleAcceptedKeeps(s, id, d);
      case RequestCancel(id) => RequestCancelKeeps(s, id);
      case ThreadStep(id, d) => ThreadStepKeeps(s, id, d);
    }
  }

  // ----- The race for is_moving_ -----

  ghost predicate TwoExecute(s: State) {
    exists a, b :: a != b && Active(s, a) && Active(s, b)
  }

  predicate ApprovesNothing(evs: seq<Event>) {
    forall i :: 0 <= i < |evs| ==> !evs[i].HandleGoal?
  }

  /** Two goals can come to execute at once without any further approval. */
  ghost predicate RaceReachable(s: State) {
    exists evs :: ApprovesNothing(evs) && TwoExecute(RunFrom(s, evs))
  }

  /** The square roots that handle_accepted's goals begin with exist. */
  ghost predicate Measurable(s: State) {
    forall id :: id in s.approved ==> exists d :: IsDistance(d, s.position, s.approved[id])
  }

  lemma {:induction false} StaysGood(s: State, evs: seq<Event>)
    requires Inv(s) && ApprovesNothing(evs)
    ensures Inv(RunFrom(s, evs))
  {
    if evs != [] {
      var init, ev := evs[..|evs| - 1], evs[|evs| - 1];
      StaysGood(s, init);
      if Enabled(RunFrom(s, init), ev) {
        StepKeepsIff(RunFrom(s, init), ev);
      }
    }
  }

  lemma RunTwo(s: State, a: Event, b: Event)
    requires Enabled(s, a) && Enabled(Next(s, a), b)
    ensures RunFrom(s, [a, b]) == Next(Next(s, a), b)
  {
    assert [a, b][..1] == [a] && [a][..0] == [];
    assert RunFrom(s, []) == s;
    assert RunFrom(s, [a]) == Next(s, a);
  }

  /** Two goals approved side by side both start, and both threads execute. */
  lemma RaceStartsTwo(s: State, a: GoalId, b: GoalId, d: real, e: real)
    requires a != b && a in s.approved && b in s.approved && a !in s.execs && b !in s.execs
    requires IsDistance(d, s.position, s.approved[a]) && IsDistance(e, s.position, s.approved[b])
    ensures RaceReachable(s)
  {
    var first, second := HandleAccepted(a, d), HandleAccepted(b, e);
    RunTwo(s, first, second);
    assert Active(RunFrom(s, [first, second]), a) && Active(RunFrom(s, [first, second]), b);
  }

  /** Two goals can come to execute at once if and only if two are approved and not yet accepted. */
  lemma RaceReachableIff(s: State)
    requires Sound(s) && Measurable(s)
    ensures RaceReachable(s) <==> !OneApproved(s)
  {
    if OneApproved(s) {
      forall evs | ApprovesNothing(evs)
        ensures !TwoExecute(RunFrom(s, evs))
      {
        StaysGood(s, evs);
      }
    } else {
      var a, b :| a in s.approved && b in s.approved && a != b;
      var d :| IsDistance(d, s.position, s.approved[a]);
      var e :| IsDistance(e, s.position, s.approved[b]);
      RaceStartsTwo(s, a, b, d, e);
    }
  }

  /** The exact condition: a step from a good state leads to a good state if and only if it does not
      approve a second goal beside one that is approved but not yet accepted; and if it does, two
      goals can come to execute at once without any further approval. */
  lemma GoodStepIff(s: State, ev: Event)
    requires Inv(s) && Enabled(s, ev)
    ensures Inv(Next(s, ev)) <==> Serial(s, ev)
    ensures Measurable(Next(s, ev)) ==> (RaceReachable(Next(s, ev)) <==> !Serial(s, ev))
  {
    StepKeepsIff(s, ev);
    if Measurable(Next(s, ev)) {
      RaceReachableIff(Next(s, ev));
    }
  }

  predicate SerialRun(evs: seq<Event>) {
    evs == [] ||
    (SerialRun(evs[..|evs| - 1]) &&
     var s, ev := Run(evs[..|evs| - 1]), evs[|evs| - 1];
     Enabled(s, ev) ==> Serial(s, ev))
  }

  lemma {:induction false} RunIsGood(evs: seq<Event>)
    requires SerialRun(evs)
    ensures Inv(Run(evs))
  {
    if evs != [] {
      RunIsGood(evs[..|evs| - 1]);
      var s, ev := Run(evs[..|evs| - 1]), evs[|evs| - 1];
      if Enabled(s, ev) {
        StepKeepsIff(s, ev);
      }
    }
  }

  /** Goal state machine, in every interleaving: at most one goal executes, is_moving_ says exactly
      whether one does, a goal whose thread has returned got exactly one result, and every result
      is the right one. */
  lemma GoalsInEveryRun(evs: seq<Event>, a: GoalId, b: GoalId)
    requires SerialRun(evs)
    ensures var s := Run(evs);
            && (Active(s, a) && Active(s, b) ==> a == b)
            && (s.moving <==> exists id :: Active(s, id))
            && (a in s.execs && s.execs[a].pc.Left? ==> Posted(s, a))
            && (forall i :: 0 <= i < |s.results| ==> ResultOk(s, s.results[i]))
            && (forall i, j :: 0 <= i < j < |s.results| ==> !(s.results[i].id == a && s.results[j].id == a))
  {
    RunIsGood(evs);
  }

  /** The box, in every interleaving: the robot never leaves it, and no goal makes more than 2819 moves. */
  lemma BoxInEveryRun(evs: seq<Event>)
    requires SerialRun(evs)
    ensures var s := Run(evs);
            InBox(s.position) && forall id :: id in s.execs ==> s.execs[id].moves <= 2819
  {
    RunIsGood(evs);
  }

  // ----- Cancellation -----

  /** A cancel request is on record and the thread is not between its cancel check and its arrival
      check; or the goal has been canceled. */
  ghost predicate Condemned(s: State, id: GoalId) {
    && id in s.execs && s.execs[id].canceling
    && (HasResult(s.execs[id]) || !s.execs[id].pc.AtArrival?)
    && forall i :: 0 <= i < |s.results| && s.results[i].id == id ==> s.results[i].canceled
  }

  lemma CondemnedGoalSteps(s: State, id: GoalId, d: real)
    requires Inv(s) && Enabled(s, ThreadStep(id, d)) && Condemned(s, id)
    ensures Condemned(Stepped(s, id, d), id)
  {
    assert Active(s, id);
  }

  lemma CondemnedWhileOthersStep(s: State, other: GoalId, d: real, id: GoalId)
    requires Enabled(s, ThreadStep(other, d)) && Condemned(s, id) && other != id
    ensures Condemned(Stepped(s, other, d), id)
  {
  }

  lemma CondemnedStays(s: State, ev: Event, id: GoalId)
    requires Inv(s) && Enabled(s, ev) && Condemned(s, id)
    ensures Condemned(Next(s, ev), id)
  {
    if ev.ThreadStep? {
      if ev.id == id {
        CondemnedGoalSteps(s, id, ev.d);
      } else {
        CondemnedWhileOthersStep(s, ev.id, ev.d, id);
      }
    }
  }

  /** Cancellation wins over arrival: once a goal is condemned, whatever happens next in any
      interleaving, the only result it can get is `canceled`. */
  lemma {:induction false} CancellationWins(before: seq<Event>, after: seq<Event>, id: GoalId)
    requires SerialRun(before + after) && Condemned(Run(before), id)
    ensures Condemned(Run(before + after), id)
    decreases |after|
  {
    if after == [] {
      assert before + after == before;
    } else {
      var all, rest := before + after, after[..|after| - 1];
      assert all[..|all| - 1] == before + rest;
      CancellationWins(before, rest, id);
      RunIsGood(before + rest);
      if Enabled(Run(before + rest), all[|all| - 1]) {
        CondemnedStays(Run(before + rest), all[|all| - 1], id);
      }
    }
  }
}
