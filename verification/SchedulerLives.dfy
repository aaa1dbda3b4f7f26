/** The life of one request, told by the calls made and the answers they gave alone. */
module SchedulerLives {
  import opened Common
  import opened SchedulerModel
  import opened SchedulerLedger
  import opened SchedulerOrder
  import opened SchedulerInvariant
  import opened SchedulerSteps
  import opened SchedulerDispatch
  import opened SchedulerRuns

  /** `tries` counts the retries that were granted since the request was admitted. */
  datatype Life = Absent | Present(request: Request, onWire: bool, tries: nat, group: Option<nat>)

  /** What one call and its answer make of a life. */
  ghost function Tell(s: State, op: Op, id: Uint64, life: Life): Life
    requires Inv(s)
  {
    if !Callable(s, op) then life
    else match op
      case DoEnqueue(r) => if r.id == id && Enqueue(s, r).1 == None then Present(r, false, 0, None) else life
      case DoSchedule(r, g, n) => if r.id == id && ScheduleCoalesced(s, r, g, n).1 == None then Present(r, false, 0, Some(g)) else life
      case DoRelease(_, _) => life
      case DoCancel(i) => if i == id && CancelQueued(s, i).1 then Absent else life
      case DoComplete(i) => if i == id && Complete(s, i).1 == None then Absent else life
      case DoRetry(i) =>
        if i != id || Retry(s, i).1 == Some(RequestState) then life
        else if Retry(s, i).1 == None && life.Present? then life.(onWire := false, tries := life.tries + 1)
        else Absent
      case DoFinish(g) => if life.Present? && life.group == Some(g) then Absent else life
      case DoDispatch(now) =>
        if life.Present? && !life.onWire && life.request.deadline <= now then Absent
        else if life.Present? && Dispatch(s, now).1.Some? && Dispatch(s, now).1.value.id == id then life.(onWire := true)
        else life
  }

  ghost function LifeIn(s: State, ops: seq<Op>, id: Uint64, life: Life): Life
    requires Inv(s)
    decreases |ops|
  {
    if ops == [] then life
    else
      StepKeeps(s, ops[0]);
      LifeIn(Step(s, ops[0]), ops[1..], id, Tell(s, ops[0], id, life))
  }

  ghost predicate Fits(s: State, id: Uint64, life: Life) {
    && (life.Present? <==> id in s.entries)
    && (life.Present? ==>
          && s.entries[id].request == life.request && s.entries[id].group == life.group && s.entries[id].retries == life.tries
          && s.entries[id].phase == (if life.onWire then InFlight else Queued) && life.tries <= s.limits.maxRetries
          && s.entries[id].weight == if life.group.Some? then 0 else 1)
  }

  lemma {:induction false} EnqueueFits(s: State, r: Request, id: Uint64, life: Life)
    requires Inv(s) && Fits(s, id, life)
    ensures Fits(Step(s, DoEnqueue(r)), id, Tell(s, DoEnqueue(r), id, life))
  {
    hide CheckAdmission, Remember, Queues, Groups, OrderOk, Lists, Ledger;
  }

  lemma {:induction false} ScheduleFits(s: State, r: Request, g: nat, n: int, id: Uint64, life: Life)
    requires Inv(s) && Fits(s, id, life)
    ensures Fits(Step(s, DoSchedule(r, g, n)), id, Tell(s, DoSchedule(r, g, n), id, life))
  {
    hide CheckAdmission, Remember, Queues, Groups, OrderOk, Lists, Ledger, Forget;
  }

  lemma {:induction false} RetryFits(s: State, i: Uint64, id: Uint64, life: Life)
    requires Inv(s) && Fits(s, id, life)
    ensures Fits(Step(s, DoRetry(i)), id, Tell(s, DoRetry(i), id, life))
  {
    hide Inv, RetryRefusal, Land;
    StepLimits(s, DoRetry(i));
    if i in s.entries && s.entries[i].phase == InFlight {
      JustRequest(s, i);
      KeyOfEntry(s, i);
      LandKeeps(s, i);
      NeverOutOfTries(s, i);
    }
  }

  lemma {:induction false} NeverOutOfTries(s: State, i: Uint64)
    requires i in s.entries
    ensures RetryRefusal(s, s.entries[i]) == Some(RetryAttempts) <==> s.entries[i].retries >= s.limits.maxRetries
    ensures RetryRefusal(s, s.entries[i]) != Some(RequestState)
  {
    hide Total, ScopeTotal, Deficits;
  }

  lemma {:induction false} FinishFits(s: State, g: nat, id: Uint64, life: Life)
    requires Inv(s) && Fits(s, id, life)
    ensures Fits(Step(s, DoFinish(g)), id, Tell(s, DoFinish(g), id, life))
  {
    hide Queues, OrderOk, Lists, Ledger, Land, DropQueued;
    StepLimits(s, DoFinish(g));
    if g in s.coalesced {
      var i := s.coalesced[g];
      KeyOfEntry(s, i);
      LandLoses(s, i);
      DropLoses(s, s.entries[i].request.key, {i});
    }
  }

  lemma {:induction false} DispatchFits(s: State, now: GoInt, id: Uint64, life: Life)
    requires Inv(s) && Fits(s, id, life)
    ensures Fits(Step(s, DoDispatch(now)), id, Tell(s, DoDispatch(now), id, life))
  {
    hide Inv, Expire, Turn, Pass;
    StepLimits(s, DoDispatch(now));
    ExpireIsExact(s, now);
    var t := Expire(s, now);
    TurnIsReady(t);
    if Turn(t).Some? {
      JustRequest(t, t.keys[Turn(t).value].queue[0]);
    }
  }

  lemma {:induction false} StepFits(s: State, op: Op, id: Uint64, life: Life)
    requires Inv(s) && Fits(s, id, life)
    ensures Fits(Step(s, op), id, Tell(s, op, id, life))
  {
    hide Inv, Tell, Enqueue, ScheduleCoalesced, Retry, Dispatch, FinishCoalesced;
    match op
    case DoEnqueue(r) => EnqueueFits(s, r, id, life);
    case DoSchedule(r, g, n) => ScheduleFits(s, r, g, n, id, life);
    case DoRetry(i) => RetryFits(s, i, id, life);
    case DoFinish(g) => FinishFits(s, g, id, life);
    case DoDispatch(now) => DispatchFits(s, now, id, life);
    case DoRelease(k, n) => PlainFits(s, op, id, life);
    case DoCancel(i) => PlainFits(s, op, id, life);
    case DoComplete(i) => PlainFits(s, op, id, life);
  }

  lemma {:induction false} PlainFits(s: State, op: Op, id: Uint64, life: Life)
    requires Inv(s) && Fits(s, id, life) && (op.DoRelease? || op.DoCancel? || op.DoComplete?)
    ensures Fits(Step(s, op), id, Tell(s, op, id, life))
  {
    hide Inv, Land, DropQueued, Forget;
    StepLimits(s, op);
    if op.DoCancel? {
      CancelKeeps(s, op.id);
    } else if op.DoComplete? && op.id in s.entries && s.entries[op.id].phase == InFlight {
      LandKeeps(s, op.id);
    }
  }

  lemma {:induction false} RunFits(s: State, ops: seq<Op>, id: Uint64, life: Life)
    requires Inv(s) && Fits(s, id, life)
    ensures Fits(Run(s, ops), id, LifeIn(s, ops, id, life))
    decreases |ops|
  {
    hide Inv, Step, Tell, Fits;
    if ops != [] {
      StepKeeps(s, ops[0]);
      StepFits(s, ops[0], id, life);
      RunFits(Step(s, ops[0]), ops[1..], id, Tell(s, ops[0], id, life));
    }
  }

  /** The life of a request in a run from the start. */
  ghost function LifeOf(l: Limits, ops: seq<Op>, id: Uint64): Life
    requires ValidLimits(l)
  {
    EmptyInv(l);
    LifeIn(Empty(l), ops, id, Absent)
  }

  lemma {:induction false} LifeFits(l: Limits, ops: seq<Op>, id: Uint64)
    requires ValidLimits(l)
    ensures Inv(Empty(l)) && Inv(Run(Empty(l), ops)) && Run(Empty(l), ops).limits == l && Fits(Run(Empty(l), ops), id, LifeOf(l, ops, id))
  {
    hide Inv, Run, LifeIn;
    EmptyInv(l);
    RunKeeps(Empty(l), ops);
    RunLimits(Empty(l), ops);
    RunFits(Empty(l), ops, id, Absent);
  }

  /**
   A request is retried at most as often as the limit says, and is given up for that reason exactly when it is used up. Before
   that a coalesced read always goes back to its queue, and a plain request exactly when it could be admitted anew.
   */
  lemma {:induction false} RetriesAreBounded(l: Limits, ops: seq<Op>, id: Uint64)
    requires ValidLimits(l)
    ensures Inv(Empty(l))
    ensures var s, life := Run(Empty(l), ops), LifeOf(l, ops, id);
            && (life.Present? ==> life.tries <= l.maxRetries)
            && (life.Present? && life.onWire ==>
                  && Retry(s, id).1 == (if life.tries == l.maxRetries then Some(RetryAttempts)
                                        else if life.group.Some? then None
                                        else CheckAdmission(l, s.keys, life.request.key, 1))
                  && (Retry(s, id).1.Some? ==> Retry(s, id).0.entries == s.entries - {id})
                  && (Retry(s, id).1.None? ==> Retry(s, id).0.entries.Keys == s.entries.Keys && Waits(Retry(s, id).0, id)))
  {
    hide Inv, Run, LifeIn, Land, CheckAdmission;
    LifeFits(l, ops, id);
    var s, life := Run(Empty(l), ops), LifeOf(l, ops, id);
    if life.Present? && life.onWire {
      JustRequest(s, id);
      KeyOfEntry(s, id);
      LandKeeps(s, id);
    }
  }

  /** What was answered before decides what is answered next: cancelling, completing, retrying and admitting an identity. */
  lemma {:induction false} LifeDecides(l: Limits, ops: seq<Op>, id: Uint64, r: Request, group: nat, count: int)
    requires ValidLimits(l)
    ensures Inv(Empty(l))
    ensures var s, life := Run(Empty(l), ops), LifeOf(l, ops, id);
            && (CancelQueued(s, id).1 <==> life.Present? && !life.onWire)
            && (Complete(s, id).1 == None <==> life.Present? && life.onWire)
            && (Retry(s, id).1 == Some(RequestState) <==> !(life.Present? && life.onWire))
            && (Enqueue(s, r).1 == Some(BadRequest) <==> !ValidRequest(r))
            && (ScheduleCoalesced(s, r, group, count).1 == Some(BadRequest) <==> !ValidRequest(r) || count <= 0)
            && (r.id == id && ValidRequest(r) ==> (Enqueue(s, r).1 == Some(DuplicateRequest) <==> life.Present?))
            && (r.id == id && ValidRequest(r) && count > 0 ==> (ScheduleCoalesced(s, r, group, count).1 == Some(DuplicateRequest) <==> life.Present?))
  {
    hide Inv, Run, LifeIn, Land, DropQueued, RetryRefusal, CheckAdmission;
    LifeFits(l, ops, id);
    var s := Run(Empty(l), ops);
    if id in s.entries {
      NeverOutOfTries(s, id);
    }
    PlainReasons(s, r.key, 1);
    PlainReasons(s, r.key, count);
  }

  /** Admission never refuses for the reasons that are tested elsewhere. */
  lemma {:induction false} PlainReasons(s: State, key: AdmissionKey, count: int)
    ensures CheckAdmission(s.limits, s.keys, key, count) !in {Some(DuplicateRequest), Some(BadRequest)}
  {
    hide Total, ScopeTotal, Deficits;
  }

  // ---------- Dispatch ----------

  ghost predicate Launchable(e: Entry, now: GoInt) {
    e.phase == Queued && now < e.request.deadline
  }

  /**
   Dispatch never idles and never hurries: a request goes out exactly when the wire has room and some queued request is
   still in time, and the one that goes out is such a request.
   */
  lemma {:induction false} DispatchesIff(l: Limits, ops: seq<Op>, now: GoInt)
    requires ValidLimits(l)
    ensures Inv(Empty(l)) && Inv(Run(Empty(l), ops))
    ensures var s := Run(Empty(l), ops);
            var sent := Dispatch(s, now).1;
            && (sent.Some? <==> |AllFlying(s.entries)| < l.maxInFlight && exists id :: id in s.entries && Launchable(s.entries[id], now))
            && (sent.Some? ==>
                  && LifeOf(l, ops, sent.value.id).Present? && LifeOf(l, ops, sent.value.id).request == sent.value
                  && !LifeOf(l, ops, sent.value.id).onWire && now < sent.value.deadline)
  {
    LifeFits(l, ops, 0);
    var s := Run(Empty(l), ops);
    hide Run, LifeOf;
    DispatchIs(s, now);
    if Dispatch(s, now).1.Some? {
      LifeFits(l, ops, Dispatch(s, now).1.value.id);
    }
  }

  lemma {:induction false} DispatchIs(s: State, now: GoInt)
    requires Inv(s)
    ensures var sent := Dispatch(s, now).1;
            && (sent.Some? <==> |AllFlying(s.entries)| < s.limits.maxInFlight && exists id :: id in s.entries && Launchable(s.entries[id], now))
            && (sent.Some? ==> sent.value.id in s.entries && s.entries[sent.value.id].request == sent.value && Launchable(s.entries[sent.value.id], now))
  {
    hide Expire, Turn, Pass, Ledger, ValidLimits, Groups, OrderOk, Lists;
    ExpireIsExact(s, now);
    var t := Expire(s, now);
    TurnIsReady(t);
    if Turn(t).Some? {
      var k := Turn(t).value;
      assert KeyOk(t.entries, k, t.keys[k]);
      assert QueuedAt(t.entries, t.keys[k].queue[0], k);
      JustRequest(t, t.keys[k].queue[0]);
    } else {
      forall id | id in s.entries
        ensures !Launchable(s.entries[id], now)
      {
        assert id in t.entries ==> EntryOk(t.keys, id, t.entries[id]);
      }
    }
  }
}
