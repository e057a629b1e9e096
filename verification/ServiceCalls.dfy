/** Blocking service calls of the example client, interleaved with responses, timeouts and
    pruning on other threads. */
module ServiceCalls {
  import opened Options
  import opened PendingRequests

  /** What a call's future holds: nothing yet, a response, or a broken promise. */
  datatype Future = Waiting | Answered(success: bool, message: string) | Broken

  /** Where the calling thread stands: blocked in wait_for, past a timeout but still holding its
      request, or returned with a result. */
  datatype Phase = Blocked | GaveUp | Returned(result: bool)

  const TIMED_OUT := "Service call timed out"
  const BROKEN_PROMISE := "std::future_error: Broken promise"

  datatype Finished = Finished(id: int, result: bool, message: string)

  /** `expired` has the calls whose wait ended without a ready future. */
  datatype State = State(
    pending: Pending,
    futures: map<int, Future>,
    phases: map<int, Phase>,
    expired: set<int>,
    lastSuccess: bool,
    lastMessage: string,
    finished: seq<Finished>)

  const START := State(map[], map[], map[], {}, false, "", [])

  datatype Event =
    | Send(id: int, now: int, data: bool)
    | Respond(id: int, success: bool, message: string)
    | Prune(cutoff: int)
    | PruneAll
    | WaitExpires(id: int)
    | RemoveAndReturn(id: int)
    | Collect(id: int)

  /** Request identifiers are fresh; wait_for expires only on a future that is not ready, and
      returns ready only on one that is. */
  predicate Enabled(s: State, ev: Event) {
    match ev
    case Send(id, _, _) => id !in s.futures && id !in s.phases && id !in s.pending
    case WaitExpires(id) => id in s.futures && id in s.phases && s.phases[id].Blocked? && s.futures[id].Waiting?
    case RemoveAndReturn(id) => id in s.phases && s.phases[id].GaveUp?
    case Collect(id) => id in s.futures && id in s.phases && s.phases[id].Blocked? && !s.futures[id].Waiting?
    case _ => true
  }

  /** Erasing a request destroys its promise. */
  function Break(futures: map<int, Future>, gone: set<int>): map<int, Future> {
    map id | id in futures :: if id in gone then Broken else futures[id]
  }

  function Finish(s: State, id: int, result: bool, message: string): State {
    s.(phases := s.phases[id := Returned(result)], lastSuccess := result, lastMessage := message,
       finished := s.finished + [Finished(id, result, message)])
  }

  function Next(s: State, ev: Event): State
    requires Enabled(s, ev)
  {
    match ev
    case Send(id, now, data) =>
      s.(pending := s.pending[id := Request(now, data)], futures := s.futures[id := Waiting],
         phases := s.phases[id := Blocked])
    case Respond(id, success, message) =>
      if id in s.pending then s.(pending := s.pending - {id}, futures := s.futures[id := Answered(success, message)]) else s
    case Prune(cutoff) =>
      s.(pending := Survivors(s.pending, cutoff), futures := Break(s.futures, Stale(s.pending, cutoff)))
    case PruneAll =>
      s.(pending := map[], futures := Break(s.futures, s.pending.Keys))
    case WaitExpires(id) => s.(phases := s.phases[id := GaveUp], expired := s.expired + {id})
    case RemoveAndReturn(id) =>
      Finish(s.(pending := s.pending - {id}, futures := Break(s.futures, s.pending.Keys * {id})), id, false, TIMED_OUT)
    case Collect(id) =>
      match s.futures[id]
      case Answered(success, message) => Finish(s, id, success, message)
      case _ => Finish(s, id, false, BROKEN_PROMISE)
  }

  function Run(evs: seq<Event>): State {
    if evs == [] then START
    else
      var s, ev := Run(evs[..|evs| - 1]), evs[|evs| - 1];
      if Enabled(s, ev) then Next(s, ev) else s
  }

  // ----- What every interleaving keeps -----

  /** A request is pending exactly as long as its future waits, and a call that has returned has
      no pending request. */
  ghost predicate Inv(s: State) {
    && s.phases.Keys == s.futures.Keys
    && (forall id :: id in s.pending <==> id in s.futures && s.futures[id].Waiting?)
    && (forall id :: id in s.phases && s.phases[id].Returned? ==> id !in s.pending)
    && ExpiredOk(s)
    && FinishedOk(s)
  }

  /** No blocked call has expired, and no call has given up that has not. */
  ghost predicate ExpiredOk(s: State) {
    && s.expired <= s.phases.Keys
    && (forall id :: id in s.phases && s.phases[id].Blocked? ==> id !in s.expired)
    && (forall id :: id in s.phases && s.phases[id].GaveUp? ==> id in s.expired)
  }

  /** Each returned call is on record once, with what it returned; the last one is what the client
      remembers. */
  ghost predicate FinishedOk(s: State) {
    && (forall i, j :: 0 <= i < j < |s.finished| ==> s.finished[i].id != s.finished[j].id)
    && (forall i :: 0 <= i < |s.finished| ==> RecordOk(s, s.finished[i]))
    && (s.finished != [] ==> var f := s.finished[|s.finished| - 1]; s.lastSuccess == f.result && s.lastMessage == f.message)
  }

  /** A call whose wait expired returned false with the timeout message, also if a response came
      before it removed its request; any other returned its own response, or false with the error of
      the broken promise if its request had been dropped. */
  ghost predicate RecordOk(s: State, f: Finished) {
    && f.id in s.phases && f.id in s.futures
    && s.phases[f.id] == Returned(f.result)
    && !s.futures[f.id].Waiting?
    && if f.id in s.expired then !f.result && f.message == TIMED_OUT
       else
         || s.futures[f.id] == Answered(f.result, f.message)
         || (s.futures[f.id].Broken? && !f.result && f.message == BROKEN_PROMISE)
  }

  lemma StepKeepsPending(s: State, ev: Event)
    requires Inv(s) && Enabled(s, ev)
    ensures var s' := Next(s, ev);
            && s'.phases.Keys == s'.futures.Keys
            && (forall id :: id in s'.pending <==> id in s'.futures && s'.futures[id].Waiting?)
            && (forall id :: id in s'.phases && s'.phases[id].Returned? ==> id !in s'.pending)
  {
  }

  lemma StepKeepsExpired(s: State, ev: Event)
    requires Inv(s) && Enabled(s, ev)
    ensures ExpiredOk(Next(s, ev))
  {
  }

  lemma RecordStays(s: State, ev: Event, f: Finished)
    requires Inv(s) && Enabled(s, ev) && RecordOk(s, f)
    ensures RecordOk(Next(s, ev), f) && s.phases[f.id].Returned?
  {
    FuturesSettle(s, ev);
  }

  lemma NewRecord(s: State, ev: Event)
    requires Inv(s) && Enabled(s, ev) && Next(s, ev).finished != s.finished
    ensures ev.RemoveAndReturn? || ev.Collect?
    ensures exists f :: Next(s, ev).finished == s.finished + [f] && RecordOk(Next(s, ev), f) && !s.phases[f.id].Returned?
  {
    var s' := Next(s, ev);
    var f := s'.finished[|s.finished|];
    assert s'.finished == s.finished + [f];
  }

  lemma StepKeepsFinished(s: State, ev: Event)
    requires Inv(s) && Enabled(s, ev)
    ensures FinishedOk(Next(s, ev))
  {
    var s' := Next(s, ev);
    forall i | 0 <= i < |s.finished|
      ensures RecordOk(s', s.finished[i]) && s.phases[s.finished[i].id].Returned?
    {
      RecordStays(s, ev, s.finished[i]);
    }
    if s'.finished != s.finished {
      NewRecord(s, ev);
    }
  }

  lemma StepKeepsInv(s: State, ev: Event)
    requires Inv(s) && Enabled(s, ev)
    ensures Inv(Next(s, ev))
  {
    StepKeepsPending(s, ev);
    StepKeepsExpired(s, ev);
    StepKeepsFinished(s, ev);
  }

  /** A future that is ready keeps what it holds, and a call that has returned keeps its result. */
  lemma FuturesSettle(s: State, ev: Event)
    requires Inv(s) && Enabled(s, ev)
    ensures var s' := Next(s, ev);
            && (forall id :: id in s.futures && !s.futures[id].Waiting? ==>
                  id in s'.futures && s'.futures[id] == s.futures[id])
            && (forall id :: id in s.phases && s.phases[id].Returned? ==>
                  id in s'.phases && s'.phases[id] == s.phases[id] && (id in s'.expired <==> id in s.expired))
  {
  }

  lemma {:induction false} RunKeepsInv(evs: seq<Event>)
    ensures Inv(Run(evs))
  {
    if evs != [] {
      RunKeepsInv(evs[..|evs| - 1]);
      var s, ev := Run(evs[..|evs| - 1]), evs[|evs| - 1];
      if Enabled(s, ev) {
        StepKeepsInv(s, ev);
      }
    }
  }

  /** No leaked calls: in every interleaving, a call that has returned is not pending, it returned
      once, and its result and message are the timeout's if its wait expired, and otherwise those of
      its own response or of its dropped request. */
  lemma NoLeakedCalls(evs: seq<Event>, id: int)
    ensures var s := Run(evs);
            && (id in s.phases && s.phases[id].Returned? ==> id !in s.pending)
            && (forall i, j :: 0 <= i < j < |s.finished| ==> !(s.finished[i].id == id && s.finished[j].id == id))
            && (forall i :: 0 <= i < |s.finished| ==> RecordOk(s, s.finished[i]))
  {
    RunKeepsInv(evs);
    var s := Run(evs);
    assert forall i :: 0 <= i < |s.finished| ==> RecordOk(s, s.finished[i]);
  }

  function AnsweredIds(s: State): set<int> {
    set id | id in s.futures && s.futures[id].Answered?
  }

  function BrokenIds(s: State): set<int> {
    set id | id in s.futures && s.futures[id].Broken?
  }

  lemma ThreeParts(a: set<int>, b: set<int>, c: set<int>)
    requires a !! b && (a + b) !! c
    ensures |a + b + c| == |a| + |b| + |c|
  {
    assert |a + b| == |a| + |b|;
    assert |(a + b) + c| == |a + b| + |c|;
  }

  lemma PartsOf(s: State)
    requires Inv(s)
    ensures s.futures.Keys == s.pending.Keys + AnsweredIds(s) + BrokenIds(s)
    ensures s.pending.Keys !! AnsweredIds(s) && (s.pending.Keys + AnsweredIds(s)) !! BrokenIds(s)
  {
    forall id
      ensures id in s.futures.Keys <==> id in s.pending.Keys + AnsweredIds(s) + BrokenIds(s)
    {
      assert id in s.pending <==> id in s.futures && s.futures[id].Waiting?;
    }
    forall id | id in s.pending.Keys
      ensures id !in AnsweredIds(s) && id !in BrokenIds(s)
    {
      assert id in s.pending;
    }
  }

  /** Conservation: every request ever sent is pending, answered or dropped, and only one of them. */
  lemma RequestsAreConserved(evs: seq<Event>)
    ensures var s := Run(evs);
            && s.futures.Keys == s.pending.Keys + AnsweredIds(s) + BrokenIds(s)
            && |s.futures.Keys| == |s.pending.Keys| + |AnsweredIds(s)| + |BrokenIds(s)|
  {
    RunKeepsInv(evs);
    PartsOf(Run(evs));
    ThreeParts(Run(evs).pending.Keys, AnsweredIds(Run(evs)), BrokenIds(Run(evs)));
  }

  // ----- The client object -----

  /** How the wait of a blocking call ended. */
  datatype Wait = TimedOut | GotResponse(success: bool, message: string) | GotError(what: string)

  class ServiceClient {
    const requests: PendingMap
    var lastCallSuccess: bool
    var lastResponseMessage: string

    constructor (requests: PendingMap)
      ensures this.requests == requests && !lastCallSuccess && lastResponseMessage == ""
    {
      this.requests, lastCallSuccess, lastResponseMessage := requests, false, "";
    }

    /** The part of setStateWithTimeout after the wait. */
    method Conclude(id: int, wait: Wait) returns (result: bool)
      modifies this, requests
      ensures requests.pending == old(requests.pending) - (if wait.TimedOut? then {id} else {})
      ensures result == lastCallSuccess == (wait.GotResponse? && wait.success)
      ensures lastResponseMessage ==
              match wait { case TimedOut => TIMED_OUT case GotResponse(_, m) => m case GotError(e) => e }
    {
      match wait {
        case TimedOut =>
          requests.pending := requests.pending - {id};
          lastCallSuccess, lastResponseMessage := false, TIMED_OUT;
          return false;
        case GotResponse(success, message) =>
          lastCallSuccess, lastResponseMessage := success, message;
          return success;
        case GotError(what) =>
          lastCallSuccess, lastResponseMessage := false, what;
          return false;
      }
    }

    method CancelPendingRequests() returns (pruned: nat)
      modifies requests
      ensures requests.pending == map[] && pruned == |old(requests.pending)|
    {
      pruned := |requests.pending|;
      requests.pending := map[];
    }

    method DropRequestsOlderThan(now: int, maxAge: int) returns (pruned: seq<int>)
      modifies requests
      ensures requests.pending == Survivors(old(requests.pending), now - maxAge)
      ensures Lists(pruned, Stale(old(requests.pending), now - maxAge))
      ensures forall id :: id in pruned <==>
                id in old(requests.pending) && now - old(requests.pending)[id].sentAt > maxAge
    {
      var count, report := requests.Prune(now - maxAge, Some([]));
      pruned := report.value;
      assert pruned[0..] == pruned;
    }
  }
}
