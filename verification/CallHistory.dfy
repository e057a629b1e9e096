/** What the events of a run have to do with the results of its service calls: a call returns the
    response that arrived for it, or the error of the prune that dropped it, or its timeout. */
module CallHistory {
  import opened PendingRequests
  import opened ServiceCalls
  import opened Histories

  ghost predicate Happens(evs: seq<Event>, i: int) {
    0 <= i < |evs| && Enabled(Run(evs[..i]), evs[i])
  }

  lemma RunSnoc(evs: seq<Event>, ev: Event)
    ensures Run(evs + [ev]) == if Enabled(Run(evs), ev) then Next(Run(evs), ev) else Run(evs)
  {
    assert (evs + [ev])[..|evs|] == evs;
  }

  // ----- Responses -----

  predicate HasResponse(s: State, id: int, success: bool, message: string) {
    id in s.futures && s.futures[id] == Answered(success, message)
  }

  /** The response arrives while the request is pending. */
  predicate Arrives(s: State, ev: Event, id: int, success: bool, message: string) {
    ev == Respond(id, success, message) && id in s.pending
  }

  lemma ResponseStep(s: State, ev: Event, id: int, success: bool, message: string)
    requires Inv(s) && Enabled(s, ev)
    ensures HasResponse(Next(s, ev), id, success, message) <==>
            Arrives(s, ev, id, success, message) || HasResponse(s, id, success, message)
  {
    match ev {
      case Send(_, _, _) =>
      case Respond(_, _, _) =>
      case Prune(_) =>
      case PruneAll =>
      case WaitExpires(_) =>
      case RemoveAndReturn(_) =>
      case Collect(_) =>
    }
  }

  /** Over every run, a future holds a response if and only if exactly that response arrived for its
      request while the request was pending. */
  lemma ResponsesArrived(evs: seq<Event>, id: int, success: bool, message: string)
    ensures HasResponse(Run(evs), id, success, message) <==>
            exists i :: Happens(evs, i) && Arrives(Run(evs[..i]), evs[i], id, success, message)
  {
    var holds := (before: seq<Event>) => HasResponse(Run(before), id, success, message);
    var begins := (before: seq<Event>, ev: Event) =>
      Enabled(Run(before), ev) && Arrives(Run(before), ev, id, success, message);
    forall before, ev
      ensures holds(before + [ev]) <==> begins(before, ev) || holds(before)
    {
      RunSnoc(before, ev);
      RunKeepsInv(before);
      if Enabled(Run(before), ev) {
        ResponseStep(Run(before), ev, id, success, message);
      }
    }
    Ever(holds, begins, evs);
  }

  // ----- Dropped requests -----

  /** The request is dropped by a prune while it is pending, and stale for it. */
  predicate Drops(s: State, ev: Event, id: int) {
    id in s.pending && (ev.PruneAll? || (ev.Prune? && s.pending[id].sentAt < ev.cutoff))
  }

  predicate IsBroken(s: State, id: int) {
    id in s.futures && s.futures[id].Broken?
  }

  lemma BreakStep(s: State, ev: Event, id: int)
    requires Inv(s) && Enabled(s, ev)
    ensures IsBroken(Next(s, ev), id) <==>
            Drops(s, ev, id) || (ev == RemoveAndReturn(id) && id in s.pending) || IsBroken(s, id)
  {
    match ev {
      case Send(_, _, _) =>
      case Respond(_, _, _) =>
      case Prune(_) =>
      case PruneAll =>
      case WaitExpires(_) =>
      case RemoveAndReturn(_) =>
      case Collect(_) =>
    }
  }

  /** Over every run, a promise is broken if and only if a prune dropped its request while it was
      pending and stale, or its own call gave up and removed it. */
  lemma BrokenWereDropped(evs: seq<Event>, id: int)
    ensures IsBroken(Run(evs), id) <==>
            exists i :: Happens(evs, i)
                        && (Drops(Run(evs[..i]), evs[i], id)
                            || (evs[i] == RemoveAndReturn(id) && id in Run(evs[..i]).pending))
  {
    var holds := (before: seq<Event>) => IsBroken(Run(before), id);
    var begins := (before: seq<Event>, ev: Event) =>
      Enabled(Run(before), ev) && (Drops(Run(before), ev, id) || (ev == RemoveAndReturn(id) && id in Run(before).pending));
    forall before, ev
      ensures holds(before + [ev]) <==> begins(before, ev) || holds(before)
    {
      RunSnoc(before, ev);
      RunKeepsInv(before);
      if Enabled(Run(before), ev) {
        BreakStep(Run(before), ev, id);
      }
    }
    Ever(holds, begins, evs);
  }

  lemma ExpiryStep(s: State, ev: Event, id: int)
    requires Enabled(s, ev)
    ensures id in Next(s, ev).expired <==> ev == WaitExpires(id) || id in s.expired
  {
  }

  lemma ExpiredWaited(evs: seq<Event>, id: int)
    ensures id in Run(evs).expired <==> exists i :: Happens(evs, i) && evs[i] == WaitExpires(id)
  {
    var holds := (before: seq<Event>) => id in Run(before).expired;
    var begins := (before: seq<Event>, ev: Event) => Enabled(Run(before), ev) && ev == WaitExpires(id);
    forall before, ev
      ensures holds(before + [ev]) <==> begins(before, ev) || holds(before)
    {
      RunSnoc(before, ev);
      if Enabled(Run(before), ev) {
        ExpiryStep(Run(before), ev, id);
      }
    }
    Ever(holds, begins, evs);
  }

  /** A call that gives up has expired before. */
  lemma GivingUpIsLate(evs: seq<Event>, i: int, id: int)
    requires Happens(evs, i) && evs[i] == RemoveAndReturn(id)
    ensures id in Run(evs).expired
  {
    RunKeepsInv(evs[..i]);
    ExpiredWaited(evs[..i], id);
    var j :| Happens(evs[..i], j) && evs[..i][j] == WaitExpires(id);
    assert evs[..i][..j] == evs[..j];
    assert Happens(evs, j) && evs[j] == WaitExpires(id);
    ExpiredWaited(evs, id);
  }

  // ----- What calls return -----

  /** What a call returned, in terms of what happened to it before. */
  ghost predicate Deserved(evs: seq<Event>, f: Finished) {
    || (&& !f.result && f.message == TIMED_OUT
        && exists i :: Happens(evs, i) && evs[i] == WaitExpires(f.id))
    || (exists i :: Happens(evs, i) && Arrives(Run(evs[..i]), evs[i], f.id, f.result, f.message))
    || (&& !f.result && f.message == BROKEN_PROMISE
        && exists i :: Happens(evs, i) && Drops(Run(evs[..i]), evs[i], f.id))
  }

  /** Over every run: a returned call whose wait expired returned the timeout; any other returned the
      response that arrived for it while it was pending, or the error of the prune that dropped it. */
  lemma CallsReturnWhatHappened(evs: seq<Event>, f: Finished)
    requires f in Run(evs).finished
    ensures Deserved(evs, f)
    ensures f.id in Run(evs).expired ==> !f.result && f.message == TIMED_OUT
    ensures f.id !in Run(evs).expired && !(!f.result && f.message == BROKEN_PROMISE && IsBroken(Run(evs), f.id)) ==>
              exists i :: Happens(evs, i) && Arrives(Run(evs[..i]), evs[i], f.id, f.result, f.message)
  {
    RunKeepsInv(evs);
    var s := Run(evs);
    var i :| 0 <= i < |s.finished| && s.finished[i] == f;
    assert RecordOk(s, s.finished[i]);
    ExpiredWaited(evs, f.id);
    ResponsesArrived(evs, f.id, f.result, f.message);
    if f.id !in s.expired && s.futures[f.id].Broken? {
      DroppedByPrune(evs, f.id);
    }
  }

  lemma DroppedByPrune(evs: seq<Event>, id: int)
    requires IsBroken(Run(evs), id) && id !in Run(evs).expired
    ensures exists i :: Happens(evs, i) && Drops(Run(evs[..i]), evs[i], id)
  {
    BrokenWereDropped(evs, id);
    var i :| Happens(evs, i)
             && (Drops(Run(evs[..i]), evs[i], id) || (evs[i] == RemoveAndReturn(id) && id in Run(evs[..i]).pending));
    if evs[i] == RemoveAndReturn(id) {
      GivingUpIsLate(evs, i, id);
    }
  }

  /** And the other way round: once a response has arrived for a pending request, collecting it
      returns exactly that response, and the client remembers it; after a prune that dropped the
      request, it returns the broken promise. */
  lemma CollectReturnsTheResponse(evs: seq<Event>, id: int, i: int)
    requires Enabled(Run(evs), Collect(id)) && Happens(evs, i)
    ensures var s, s' := Run(evs), Next(Run(evs), Collect(id));
            && (evs[i].Respond? && Arrives(Run(evs[..i]), evs[i], id, evs[i].success, evs[i].message) ==>
                  && s'.finished == s.finished + [Finished(id, evs[i].success, evs[i].message)]
                  && s'.lastSuccess == evs[i].success && s'.lastMessage == evs[i].message)
            && (Drops(Run(evs[..i]), evs[i], id) ==>
                  && s'.finished == s.finished + [Finished(id, false, BROKEN_PROMISE)]
                  && !s'.lastSuccess && s'.lastMessage == BROKEN_PROMISE)
  {
    if evs[i].Respond? && evs[i].id == id {
      ResponsesArrived(evs, id, evs[i].success, evs[i].message);
    }
    BrokenWereDropped(evs, id);
  }

  /** A call that gives up returns the timeout, even if a response came in the meantime. */
  lemma GivingUpReturnsTimeout(evs: seq<Event>, id: int)
    requires Enabled(Run(evs), RemoveAndReturn(id))
    ensures var s, s' := Run(evs), Next(Run(evs), RemoveAndReturn(id));
            && s'.finished == s.finished + [Finished(id, false, TIMED_OUT)]
            && !s'.lastSuccess && s'.lastMessage == TIMED_OUT && id !in s'.pending
            && exists i :: Happens(evs, i) && evs[i] == WaitExpires(id)
  {
    RunKeepsInv(evs);
    ExpiredWaited(evs, id);
  }

  // ----- What is pending -----

  predicate IsPending(s: State, id: int, q: Request) {
    id in s.pending && s.pending[id] == q
  }

  /** The events that take a request out of the pending ones. */
  predicate Settles(s: State, ev: Event, id: int) {
    ev == RemoveAndReturn(id) || (ev.Respond? && ev.id == id) || Drops(s, ev, id)
  }

  lemma PendingStep(s: State, ev: Event, id: int, q: Request)
    requires Inv(s) && Enabled(s, ev)
    ensures IsPending(Next(s, ev), id, q) <==>
            ev == Send(id, q.sentAt, q.data) || (IsPending(s, id, q) && !Settles(s, ev, id))
  {
    match ev {
      case Send(_, _, _) =>
      case Respond(_, _, _) =>
      case Prune(_) =>
      case PruneAll =>
      case WaitExpires(_) =>
      case RemoveAndReturn(_) =>
      case Collect(_) =>
    }
  }

  /** The request was sent by the i-th event, and nothing has settled it since. */
  ghost predicate StillOut(evs: seq<Event>, i: int, id: int, q: Request) {
    && Happens(evs, i) && evs[i] == Send(id, q.sentAt, q.data)
    && forall j :: i < j < |evs| && Happens(evs, j) ==> !Settles(Run(evs[..j]), evs[j], id)
  }

  /** Over every run, the pending requests are those that were sent, with the time and the value with
      which they were sent, and that no response, prune or removal has settled since. */
  lemma PendingWereSent(evs: seq<Event>, id: int, q: Request)
    ensures IsPending(Run(evs), id, q) <==> exists i :: StillOut(evs, i, id, q)
  {
    var holds := (before: seq<Event>) => IsPending(Run(before), id, q);
    var begins := (before: seq<Event>, ev: Event) => Enabled(Run(before), ev) && ev == Send(id, q.sentAt, q.data);
    var ends := (before: seq<Event>, ev: Event) => Enabled(Run(before), ev) && Settles(Run(before), ev, id);
    forall before, ev
      ensures holds(before + [ev]) <==> begins(before, ev) || (holds(before) && !ends(before, ev))
    {
      RunSnoc(before, ev);
      RunKeepsInv(before);
      if Enabled(Run(before), ev) {
        PendingStep(Run(before), ev, id, q);
      }
    }
    Since(holds, begins, ends, evs);
    forall i
      ensures BeganAt(begins, ends, evs, i) <==> StillOut(evs, i, id, q)
    {
    }
  }
}
