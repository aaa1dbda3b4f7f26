/** With a clock that does not run backwards: the delays a request has waited for fit into its time, in every run. */
module RetryTime {
  import opened Common
  import opened Backoff
  import opened RetryModel
  import opened RetrySafety

  predicate TimeOk(h: Handle, now: Span) {
    h.born <= now && h.born + h.charged <= now + h.debt && h.born + h.charged < h.deadline
  }

  ghost predicate Timed(e: Endpoint, now: Span) {
    && (forall id :: id in e.book.handles ==> TimeOk(e.book.handles[id], now))
    && (e.pending.Some? ==> e.pending.value.before <= now && OnTime(e.book.handles, e.pending.value))
  }

  /** When the wait began, a request accepted by then had paid for its earlier ones; one accepted since owes nothing yet. */
  predicate Ready(h: Handle, w: Wait) {
    if h.born <= w.before then h.born + h.charged <= w.before + h.debt else h.debt == 0 && h.charged == 0
  }

  ghost predicate OnTime(handles: map<nat, Handle>, w: Wait) {
    forall id :: id in handles ==> Ready(handles[id], w)
  }

  lemma {:induction false} TimedQuiet(e: Endpoint, f: Endpoint, last: Span, now: Span)
    requires Timed(e, last) && last <= now && Quiet(e.book, f.book) && (f.pending == e.pending || f.pending.None?)
    ensures Timed(f, now)
  {
  }

  lemma {:induction false} AcceptTimed(e: Endpoint, id: nat, last: Span, now: Span, deadline: GoInt)
    requires Inv(e) && Timed(e, last) && last <= now
    ensures Timed(Accept(e, id, now, deadline), now)
  {
    hide BookOk, Within;
  }

  lemma {:induction false} UnwaitTimed(e: Endpoint, last: Span, now: Span)
    requires Timed(e, last) && last <= now
    ensures Timed(Unwait(e), now)
  {
  }

  lemma {:induction false} GiveUpTimed(e: Endpoint, id: nat, last: Span, now: Span, at: GoInt)
    requires Inv(e) && Timed(e, last) && last <= now && id in e.book.handles
    ensures Timed(GiveUp(e, id, at), now)
  {
    hide Inv, Timed, Quiet, Older, Track;
    GiveUpKeeps(e, id, at);
    TimedQuiet(e, GiveUp(e, id, at), last, now);
  }

  lemma {:induction false} StartTimed(e: Endpoint, id: nat, last: Span, before: Span, delay: Span, s: State)
    requires Timed(e, last) && last <= before && id in e.book.handles
    ensures var h := e.book.handles[id];
            Timed(e.(backoff := s, book := Put(e.book, id, h.(waiting := true)),
                     pending := Some(Wait(id, before, delay, h.lifecycle == Terminal))), before)
  {
  }

  lemma {:induction false} TakeDelayTimed(e: Endpoint, id: nat, last: Span, before: Span, s: State, next: Next)
    requires Inv(e) && Timed(e, last) && last <= before && id in e.book.handles && (next.Delay? ==> next.delay >= 0) && Within(e.limits.backoff, s)
    ensures Timed(TakeDelay(e, id, before, s, next).0, before)
  {
    if next == AttemptsSpent {
      hide Inv, Timed, Quiet, Older, Close;
      CloseKeeps(e);
      ClosePending(e);
      TimedQuiet(e, Close(e), last, before);
    } else if !next.Delay? {
      assert Inv(e.(backoff := s)) by {
        hide BookOk, WaitOk, Within, RetryModel.ValidLimits;
      }
      assert Timed(e.(backoff := s), last);
      hide Inv, Timed, GiveUp;
      GiveUpTimed(e.(backoff := s), id, last, before, before);
    } else {
      hide Inv, Timed;
      StartTimed(e, id, last, before, next.delay, s);
    }
  }

  lemma {:induction false} ClosePending(e: Endpoint)
    ensures Close(e).pending == e.pending
  {
  }

  lemma {:induction false} BeginWaitTimed(e: Endpoint, id: nat, last: Span, before: Span, jitter: GoInt, reset: bool)
    requires Inv(e) && Timed(e, last) && last <= before
    ensures Timed(BeginWait(e, id, before, jitter, reset).0, before)
  {
    QuietSelf(e.book);
    TimedQuiet(e, e, last, before);
    if id in e.book.handles && MayWait(e.book.handles[id]) && e.required && (e.pending.None? || e.closed) {
      hide BookOk, WaitOk, Within, Timed, GiveUp, TakeDelay, Quiet;
      var h := e.book.handles[id];
      if h.debt > MAX_INT - before || (h.lifecycle == Retryable && h.deadline <= before + h.debt) {
        GiveUpTimed(e, id, last, before, before);
      } else {
        var remaining := Remaining(h, e.limits.window, before);
        DelayFits(e.limits.backoff, e.backoff, remaining, jitter, reset);
        var (s, next) := NextBefore(e.limits.backoff, e.backoff, remaining, jitter, reset);
        hide NextBefore, Doubled;
        TakeDelayTimed(e, id, last, before, s, next);
      }
    }
  }

  lemma {:induction false} SettledTimed(h: Handle, w: Wait, last: Span, after: Span)
    requires TimeOk(h, last) && last <= after && w.before <= after && Ready(h, w)
    ensures TimeOk(Settled(h, after, Shortfall(w.before, after, w.delay), Cost(w, h)), after)
  {
  }

  lemma {:induction false} CompleteTimed(u: Endpoint, w: Wait, last: Span, after: Span)
    requires Timed(u, last) && u.pending.None? && last <= after && w.before <= after && OnTime(u.book.handles, w)
    ensures Timed(Complete(u, after, Shortfall(w.before, after, w.delay), w), after)
  {
    var extra := Shortfall(w.before, after, w.delay);
    var c := Complete(u, after, extra, w);
    hide Settled;
    forall id | id in c.book.handles
      ensures TimeOk(c.book.handles[id], after)
    {
      SettledTimed(u.book.handles[id], w, last, after);
    }
  }

  lemma {:induction false} DeadTimed(u: Endpoint, w: Wait, last: Span)
    requires Timed(u, last) && OnTime(u.book.handles, w) && w.id in u.book.handles
    ensures var v := u.(book := Put(u.book, w.id, Dead(u.book.handles[w.id]))); Timed(v, last) && OnTime(v.book.handles, w)
  {
  }

  lemma {:induction false} FinishWaitTimed(e: Endpoint, last: Span, after: Span)
    requires Inv(e) && Timed(e, last) && last <= after
    ensures Timed(FinishWait(e, after), after)
  {
    QuietSelf(e.book);
    TimedQuiet(e, e, last, after);
    if e.pending.Some? {
      var w, u := e.pending.value, Unwait(e);
      UnwaitTimed(e, last, last);
      UnwaitKeeps(e);
      assert OnTime(u.book.handles, w);
      var extra, h := Shortfall(w.before, after, w.delay), u.book.handles[w.id];
      hide Inv, Unwait, Older, OnTime, Timed, Complete, Track, Quiet;
      if (h.lifecycle == Retryable || h.lifecycle == Terminal) && h.required && extra > MAX_INT - h.debt {
        OverflowTimed(u, w, last, after);
      } else {
        CompleteTimed(u, w, last, after);
      }
    }
  }

  lemma {:induction false} OverflowTimed(u: Endpoint, w: Wait, last: Span, after: Span)
    requires Timed(u, last) && u.pending.None? && last <= after && w.before <= after && OnTime(u.book.handles, w) && w.id in u.book.handles
    ensures var c := Complete(u.(book := Put(u.book, w.id, Dead(u.book.handles[w.id]))), after, Shortfall(w.before, after, w.delay), w);
            w.id in c.book.handles && Timed(Tracked(c, w.id, after), after)
  {
    var g, extra := u.book.handles[w.id], Shortfall(w.before, after, w.delay);
    var v := u.(book := Put(u.book, w.id, Dead(g)));
    DeadTimed(u, w, last);
    CompleteTimed(v, w, last, after);
    var c := Complete(v, after, extra, w);
    SettledDead(g, after, extra, Cost(w, Dead(g)));
    hide Settled, Track;
    TrackDead(c.book, w.id, after, u.limits.retained, u.closed);
  }

  // ---------- Runs ----------

  lemma {:induction false} StepTimed(e: Endpoint, op: Op, last: Span)
    requires Inv(e) && Timed(e, last) && last <= op.now
    ensures Timed(Step(e, op), op.now)
  {
    var now: Span := op.now;
    hide BookOk, WaitOk, Within, Timed, Quiet, Older, Accept, Finish, Fail, Cancel, BeginRetry, EndRetry, BeginWait, Unwait, FinishWait, Close;
    match op.act
    case DoAccept(id, deadline) => AcceptTimed(e, id, last, now, deadline);
    case DoBeginWait(id, jitter, reset) => BeginWaitTimed(e, id, last, now, jitter, reset);
    case DoAbortWait => UnwaitTimed(e, last, now);
    case DoFinishWait => FinishWaitTimed(e, last, now);
    case DoFinish(id) => FinishKeeps(e, id); SamePending(e, op); TimedQuiet(e, Step(e, op), last, now);
    case DoFail(id, retryable, required) => FailKeeps(e, id, now, retryable, required); SamePending(e, op); TimedQuiet(e, Step(e, op), last, now);
    case DoCancel(id, whole) => CancelKeeps(e, id, whole); SamePending(e, op); TimedQuiet(e, Step(e, op), last, now);
    case DoBeginRetry(id) => BeginRetryKeeps(e, id, now); SamePending(e, op); TimedQuiet(e, Step(e, op), last, now);
    case DoEndRetry(id, scheduled, later) => EndRetryKeeps(e, id, now, scheduled, later); SamePending(e, op); TimedQuiet(e, Step(e, op), last, now);
    case DoMarkRequired => FlagsKeep(e, MarkRequired(e)); TimedQuiet(e, Step(e, op), last, now);
    case DoOpen => FlagsKeep(e, Open(e).0); TimedQuiet(e, Step(e, op), last, now);
    case DoRespond => FlagsKeep(e, Respond(e)); TimedQuiet(e, Step(e, op), last, now);
    case DoClose => CloseKeeps(e); SamePending(e, op); TimedQuiet(e, Step(e, op), last, now);
  }

  lemma {:induction false} SamePending(e: Endpoint, op: Op)
    requires Inv(e) && (op.act.DoFinish? || op.act.DoFail? || op.act.DoCancel? || op.act.DoBeginRetry? || op.act.DoEndRetry? || op.act.DoClose?)
    ensures Step(e, op).pending == e.pending
  {
    hide BookOk, WaitOk, Within, Track;
  }

  predicate Forwards(ops: seq<Op>, from: int) {
    forall i :: 0 <= i < |ops| ==> from <= ops[i].now && (i + 1 < |ops| ==> ops[i].now <= ops[i + 1].now)
  }

  function Last(ops: seq<Op>, from: Span): (t: GoInt) {
    if ops == [] then from else ops[|ops| - 1].now
  }

  lemma {:induction false} RunTimed(e: Endpoint, ops: seq<Op>, from: Span)
    requires Inv(e) && Timed(e, from) && Forwards(ops, from)
    ensures Last(ops, from) >= 0 && Timed(Run(e, ops), Last(ops, from))
    decreases |ops|
  {
    hide Inv, Timed, Step;
    if ops != [] {
      Limited(e);
      StepKeeps(e, ops[0]);
      StepTimed(e, ops[0], from);
      ForwardsTail(ops, from);
      RunTimed(Step(e, ops[0]), ops[1..], ops[0].now);
    }
  }

  lemma {:induction false} Limited(e: Endpoint)
    requires Inv(e)
    ensures RetryModel.ValidLimits(e.limits)
  {
  }

  lemma {:induction false} ForwardsTail(ops: seq<Op>, from: int)
    requires Forwards(ops, from) && ops != []
    ensures Forwards(ops[1..], ops[0].now) && from <= ops[0].now
    decreases |ops|
  {
    var rest := ops[1..];
    if rest != [] {
      ForwardsFrom(ops, from, 0);
    }
    forall i | 0 <= i < |rest|
      ensures ops[0].now <= rest[i].now && (i + 1 < |rest| ==> rest[i].now <= rest[i + 1].now)
    {
      Climbing(ops, from, i + 1);
      assert rest[i] == ops[i + 1];
    }
  }

  lemma {:induction false} ForwardsFrom(ops: seq<Op>, from: int, i: nat)
    requires Forwards(ops, from) && i < |ops|
    ensures from <= ops[i].now
  {
  }

  lemma {:induction false} Climbing(ops: seq<Op>, from: int, i: nat)
    requires Forwards(ops, from) && i < |ops|
    ensures ops[0].now <= ops[i].now
    decreases i
  {
    if i > 0 {
      Climbing(ops, from, i - 1);
      assert ops[i - 1].now <= ops[i].now;
    }
  }

  /** The delays any request has waited for since it was accepted sum up to less than the time it was given. */
  lemma {:induction false} ChargesFitWindow(l: Limits, ops: seq<Op>, id: nat)
    requires RetryModel.ValidLimits(l) && Forwards(ops, 0)
    ensures Inv(Fresh(l))
    ensures var e := Run(Fresh(l), ops);
            id in e.book.handles ==> var h := e.book.handles[id]; h.charged < h.deadline - h.born
  {
    FreshInv(l);
    hide Inv, Run;
    RunTimed(Fresh(l), ops, 0);
  }

  // ---------- The reconnect gate ----------

  /** A wait has really ended: one was under way, and its timer returned on a clock that had not run backwards. */
  predicate EndsWait(e: Endpoint, op: Op) {
    op.act.DoFinishWait? && e.pending.Some? && e.pending.value.before <= op.now
  }

  ghost predicate SomeWaitEnds(e: Endpoint, ops: seq<Op>)
    requires Inv(e)
    decreases |ops|
  {
    if ops == [] then false
    else
      StepKeeps(e, ops[0]);
      EndsWait(e, ops[0]) || SomeWaitEnds(Step(e, ops[0]), ops[1..])
  }

  /** A gate that is shut opens in one step exactly when a wait really ends on an endpoint that is not closed. */
  lemma {:induction false} GateOpensIff(e: Endpoint, op: Op)
    requires Inv(e) && e.required && !e.ready
    ensures var f := Step(e, op);
            && (Open(f).1 <==> EndsWait(e, op) && !e.closed)
            && ((f.required && !f.ready) || f.closed || EndsWait(e, op))
  {
    WaiterKnown(e);
    hide BookOk, WaitOk, Within, Track, NextBefore;
  }

  /** After a lost connection a new one can be opened only if some wait has really ended since. */
  lemma {:induction false} GateStaysShut(e: Endpoint, ops: seq<Op>)
    requires Inv(e) && e.required && !e.ready
    ensures Open(Run(e, ops)).1 ==> SomeWaitEnds(e, ops)
    decreases |ops|
  {
    hide Inv, Step, EndsWait;
    if ops != [] {
      Limited(e);
      StepKeeps(e, ops[0]);
      GateOpensIff(e, ops[0]);
      var f := Step(e, ops[0]);
      if f.closed {
        ClosedForGood(f, ops[1..]);
      } else if !EndsWait(e, ops[0]) {
        GateStaysShut(f, ops[1..]);
      }
    }
  }

  lemma {:induction false} ClosedStep(e: Endpoint, op: Op)
    requires Inv(e) && e.closed
    ensures Step(e, op).closed
  {
    hide BookOk, WaitOk, Within, Track, NextBefore;
  }

  lemma {:induction false} ClosedForGood(e: Endpoint, ops: seq<Op>)
    requires Inv(e) && e.closed
    ensures Run(e, ops).closed
    decreases |ops|
  {
    hide Inv, Step;
    if ops != [] {
      Limited(e);
      StepKeeps(e, ops[0]);
      ClosedStep(e, ops[0]);
      ClosedForGood(Step(e, ops[0]), ops[1..]);
    }
  }
}
