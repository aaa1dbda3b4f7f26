/** What is told of one request by calls and answers, and what that decides about trying again and about waiting. */
module RetryStories {
  import opened Common
  import opened Backoff
  import opened RetryModel
  import opened RetrySafety
  import opened RetryTime

  /** The deadline a request was accepted with, how often it was tried again since, and what waits fell short of their delays. */
  datatype Story = Unknown | Told(deadline: GoInt, tries: nat, short: nat)

  /** A wait ended while the request was owing it, and left it to be tried again. */
  ghost predicate Charges(e: Endpoint, op: Op, id: nat)
    requires RetryModel.ValidLimits(e.limits)
  {
    && EndsWait(e, op) && id in e.book.handles && e.book.handles[id].lifecycle == Retryable && e.book.handles[id].required
    && id in Step(e, op).book.handles && Step(e, op).book.handles[id].lifecycle == Retryable
  }

  ghost function Tell(e: Endpoint, op: Op, id: nat, t: Story): Story
    requires RetryModel.ValidLimits(e.limits)
  {
    if t.Unknown? then
      if op.act.DoAccept? && op.act.id == id && id in Step(e, op).book.handles then Told(op.act.deadline, 0, 0) else t
    else if op.act.DoEndRetry? && op.act.id == id && EndRetry(e, id, op.now, op.act.scheduled, op.act.later).1 then t.(tries := t.tries + 1)
    else if Charges(e, op, id) then t.(short := t.short + Shortfall(e.pending.value.before, op.now, e.pending.value.delay))
    else t
  }

  ghost function StoryIn(e: Endpoint, ops: seq<Op>, id: nat, t: Story): Story
    requires Inv(e)
    decreases |ops|
  {
    if ops == [] then t
    else
      StepKeeps(e, ops[0]);
      StoryIn(Step(e, ops[0]), ops[1..], id, Tell(e, ops[0], id, t))
  }

  ghost predicate Fits(e: Endpoint, id: nat, t: Story) {
    && (t.Told? <==> id in e.book.handles)
    && (t.Told? ==> e.book.handles[id].deadline == t.deadline && e.book.handles[id].retries == t.tries && e.book.handles[id].debt == t.short)
  }

  ghost predicate SameDebt(b: Book, c: Book, id: nat) {
    && (id in c.handles <==> id in b.handles)
    && (id in b.handles ==>
          c.handles[id].deadline == b.handles[id].deadline && c.handles[id].retries == b.handles[id].retries && c.handles[id].debt == b.handles[id].debt)
  }

  /** Debts and counts are those of before. */
  ghost predicate Level(e: Endpoint, f: Endpoint, id: nat) {
    SameDebt(e.book, f.book, id)
  }

  lemma {:induction false} LevelTwice(e: Endpoint, f: Endpoint, g: Endpoint, id: nat)
    requires Level(e, f, id) && Level(f, g, id)
    ensures Level(e, g, id)
  {
  }

  lemma {:induction false} TrackedLevel(e: Endpoint, x: nat, now: GoInt, id: nat)
    requires x in e.book.handles
    ensures Level(e, Tracked(e, x, now), id)
  {
    hide Prune, Retain;
    var b := e.book;
    PruneDebt(b, now, id);
    PruneDebt(b, now, x);
    var p := if b.handles[x].lifecycle == Retryable then Prune(b, now) else b;
    RetainDebt(p, x, e.limits.retained, id);
  }

  lemma {:induction false} PruneDebt(b: Book, now: GoInt, id: nat)
    ensures SameDebt(b, Prune(b, now), id)
  {
    hide Overdue;
  }

  lemma {:induction false} RetainDebt(b: Book, x: nat, limit: nat, id: nat)
    requires x in b.handles
    ensures SameDebt(b, Retain(b, x, limit), id)
  {
  }

  lemma {:induction false} SetLevel(e: Endpoint, f: Endpoint, x: nat, h: Handle, now: GoInt, id: nat)
    requires x in e.book.handles && f.book == Put(e.book, x, h)
    requires h.deadline == e.book.handles[x].deadline && h.retries == e.book.handles[x].retries && h.debt == e.book.handles[x].debt
    ensures Level(e, Tracked(f, x, now), id)
  {
    hide Tracked;
    TrackedLevel(f, x, now, id);
  }

  lemma {:induction false} RetryLevel(e: Endpoint, op: Op, id: nat)
    requires RetryModel.ValidLimits(e.limits) && (op.act.DoFail? || op.act.DoBeginRetry? || op.act.DoCancel? || op.act.DoFinish?)
    ensures Level(e, Step(e, op), id)
  {
    hide Tracked, Overdue;
    if op.act.id in e.book.handles {
      var x, h := op.act.id, e.book.handles[op.act.id];
      if op.act.DoFail? {
        var g := h.(lifecycle := if op.act.retryable then Retryable else Terminal, required := op.act.required, satisfied := false);
        var f := e.(book := Put(e.book, x, g));
        SetLevel(e, if op.act.retryable && op.act.required then f.(required := true, ready := false) else f, x, g, op.now, id);
      } else if op.act.DoBeginRetry? {
        SetLevel(e, e.(book := Put(e.book, x, Dead(h))), x, Dead(h), op.now, id);
        SetLevel(e, e.(book := Put(e.book, x, h.(lifecycle := Terminal))), x, h.(lifecycle := Terminal), op.now, id);
        SetLevel(e, e.(book := Put(e.book, x, h.(lifecycle := Retrying))), x, h.(lifecycle := Retrying), op.now, id);
      }
    }
  }

  lemma {:induction false} EndRetryFits(e: Endpoint, op: Op, id: nat, t: Story)
    requires RetryModel.ValidLimits(e.limits) && op.act.DoEndRetry? && Fits(e, id, t)
    ensures Fits(Step(e, op), id, Tell(e, op, id, t))
  {
    hide Tracked, Overdue;
    var x := op.act.id;
    if x in e.book.handles && !EndRetry(e, x, op.now, op.act.scheduled, op.act.later).1 {
      var h := e.book.handles[x];
      TrackedLevel(e, x, op.act.later, id);
      var g := h.(lifecycle := if Overdue(h, op.now) then Terminal else Retryable);
      SetLevel(e, e.(book := Put(e.book, x, g)), x, g, op.act.later, id);
    }
  }

  lemma {:induction false} GiveUpLevel(e: Endpoint, x: nat, now: GoInt, id: nat)
    requires x in e.book.handles
    ensures Level(e, GiveUp(e, x, now), id)
  {
    hide Tracked;
    var g := e.book.handles[x].(lifecycle := Terminal, satisfied := false);
    SetLevel(e, e.(book := Put(e.book, x, g)), x, g, now, id);
  }

  lemma {:induction false} BeginWaitLevel(e: Endpoint, x: nat, before: GoInt, jitter: GoInt, reset: bool, id: nat)
    requires RetryModel.ValidLimits(e.limits)
    ensures Level(e, BeginWait(e, x, before, jitter, reset).0, id)
  {
    hide NextBefore, GiveUp;
    if x in e.book.handles {
      GiveUpLevel(e, x, before, id);
      var h := e.book.handles[x];
      if MayWait(h) && before >= 0 && h.debt <= MAX_INT - before && (h.lifecycle == Retryable ==> before + h.debt < h.deadline) {
        var s := NextBefore(e.limits.backoff, e.backoff, Remaining(h, e.limits.window, before), jitter, reset).0;
        GiveUpLevel(e.(backoff := s), x, before, id);
      }
    }
  }

  lemma {:induction false} UnwaitLevel(e: Endpoint, id: nat)
    ensures Level(e, Unwait(e), id)
  {
  }

  /** The end of a wait charges exactly the requests that owe one and may go on. */
  lemma {:induction false} FinishWaitFits(e: Endpoint, op: Op, id: nat, t: Story)
    requires Inv(e) && op.act.DoFinishWait? && Fits(e, id, t)
    ensures Fits(Step(e, op), id, Tell(e, op, id, t))
  {
    StepKeeps(e, op);
    WaiterKnown(e);
    UnwaitLevel(e, id);
    hide Inv, FinishWait;
    if EndsWait(e, op) {
      if id in e.book.handles {
        FinishOne(e, op.now, id);
      } else {
        FinishNone(e, op.now, id);
      }
    } else {
      EarlyFinish(e, op.now, id);
    }
  }

  lemma {:induction false} EarlyFinish(e: Endpoint, now: GoInt, id: nat)
    requires Inv(e) && !(e.pending.Some? && e.pending.value.before <= now)
    ensures Level(e, FinishWait(e, now), id)
  {
    WaiterKnown(e);
    hide Inv, GiveUp, Unwait;
    if e.pending.Some? {
      UnwaitLevel(e, id);
      UnwaitLevel(e, e.pending.value.id);
      GiveUpLevel(Unwait(e), e.pending.value.id, now, id);
      LevelTwice(e, Unwait(e), FinishWait(e, now), id);
    }
  }

  lemma {:induction false} FinishNone(e: Endpoint, after: Span, id: nat)
    requires Inv(e) && e.pending.Some? && e.pending.value.before <= after && id !in e.book.handles
    ensures id !in FinishWait(e, after).book.handles
  {
    WaiterKnown(e);
    hide Inv, Settled;
  }

  lemma {:induction false} FinishOne(e: Endpoint, after: Span, id: nat)
    requires Inv(e) && e.pending.Some? && e.pending.value.before <= after && id in e.book.handles
    ensures id in FinishWait(e, after).book.handles
    ensures var w, h, g := e.pending.value, e.book.handles[id], FinishWait(e, after).book.handles[id];
            && g.deadline == h.deadline && g.retries == h.retries
            && g.debt == if h.lifecycle == Retryable && h.required && g.lifecycle == Retryable then h.debt + Shortfall(w.before, after, w.delay) else h.debt
  {
    if id in e.book.retained {
      FinishHandle(e, after, id);
      SettledIs(e.book.handles[id].(waiting := false), after, Shortfall(e.pending.value.before, after, e.pending.value.delay),
                Cost(e.pending.value, e.book.handles[id].(waiting := false)));
    } else {
      FinishStranger(e, after, id);
      if e.book.handles[id].lifecycle == Retryable {
        KeptIfRetryable(e, id);
      }
    }
  }

  lemma {:induction false} SettledIs(h: Handle, after: Span, extra: Span, delay: nat)
    ensures var g := Settled(h, after, extra, delay);
            && g.deadline == h.deadline && g.retries == h.retries
            && g.debt == if h.lifecycle == Retryable && h.required && g.lifecycle == Retryable then h.debt + extra else h.debt
  {
  }

  lemma {:induction false} FinishStranger(e: Endpoint, after: Span, id: nat)
    requires Inv(e) && e.pending.Some? && e.pending.value.before <= after && id in e.book.handles && id !in e.book.retained
    ensures id in FinishWait(e, after).book.handles
    ensures var h, g := e.book.handles[id], FinishWait(e, after).book.handles[id];
            g.deadline == h.deadline && g.retries == h.retries && g.debt == h.debt
  {
    WaiterKnown(e);
    hide Inv, Settled;
  }

  lemma {:induction false} StepFits(e: Endpoint, op: Op, id: nat, t: Story)
    requires Inv(e) && Fits(e, id, t)
    ensures Fits(Step(e, op), id, Tell(e, op, id, t))
  {
    if op.act.DoFinishWait? {
      FinishWaitFits(e, op, id, t);
    } else if op.act.DoEndRetry? {
      EndRetryFits(e, op, id, t);
    } else if op.act.DoAccept? {
      AcceptFits(e, op, id, t);
    } else {
      OtherLevel(e, op, id);
      hide Inv, Step;
    }
  }

  lemma {:induction false} AcceptFits(e: Endpoint, op: Op, id: nat, t: Story)
    requires RetryModel.ValidLimits(e.limits) && op.act.DoAccept? && Fits(e, id, t)
    ensures Fits(Step(e, op), id, Tell(e, op, id, t))
  {
  }

  lemma {:induction false} OtherLevel(e: Endpoint, op: Op, id: nat)
    requires Inv(e) && !op.act.DoFinishWait? && !op.act.DoEndRetry? && !op.act.DoAccept?
    ensures Level(e, Step(e, op), id)
  {
    hide BookOk, WaitOk, Within, GiveUp, Tracked, BeginWait, Unwait, Fail, BeginRetry, Cancel, Finish;
    match op.act
    case DoBeginWait(x, jitter, reset) => BeginWaitLevel(e, x, op.now, jitter, reset, id);
    case DoAbortWait => UnwaitLevel(e, id);
    case DoFail(_, _, _) => RetryLevel(e, op, id);
    case DoBeginRetry(_) => RetryLevel(e, op, id);
    case DoCancel(_, _) => RetryLevel(e, op, id);
    case DoFinish(_) => RetryLevel(e, op, id);
    case _ =>
  }

  lemma {:induction false} RunFits(e: Endpoint, ops: seq<Op>, id: nat, t: Story)
    requires Inv(e) && Fits(e, id, t)
    ensures Fits(Run(e, ops), id, StoryIn(e, ops, id, t))
    decreases |ops|
  {
    hide Inv, Fits, Step, Tell;
    if ops != [] {
      Limited(e);
      StepKeeps(e, ops[0]);
      StepFits(e, ops[0], id, t);
      RunFits(Step(e, ops[0]), ops[1..], id, Tell(e, ops[0], id, t));
    }
  }

  // ---------- The story decides ----------

  ghost function StoryOf(l: Limits, ops: seq<Op>, id: nat): Story
    requires RetryModel.ValidLimits(l)
  {
    FreshInv(l);
    StoryIn(Fresh(l), ops, id, Unknown)
  }

  lemma {:induction false} StoryFits(l: Limits, ops: seq<Op>, id: nat)
    requires RetryModel.ValidLimits(l)
    ensures Inv(Fresh(l)) && Inv(Run(Fresh(l), ops)) && Run(Fresh(l), ops).limits == l && Fits(Run(Fresh(l), ops), id, StoryOf(l, ops, id))
  {
    hide Inv, Run, StoryIn;
    FreshInv(l);
    RunKeeps(Fresh(l), ops);
    RunLimits(Fresh(l), ops);
    RunFits(Fresh(l), ops, id, Unknown);
  }

  /**
   When a request is tried again: it failed, does not wait, has tries left, has paid the wait it owes, and the clock together
   with all that its waits fell short of lies before the deadline it was accepted with.
   */
  lemma {:induction false} RetryIsExact(l: Limits, ops: seq<Op>, id: nat, now: GoInt)
    requires RetryModel.ValidLimits(l)
    ensures Inv(Fresh(l))
    ensures var e, t := Run(Fresh(l), ops), StoryOf(l, ops, id);
            && (t.Told? <==> id in e.book.handles)
            && (t.Told? ==> t.tries <= l.retries)
            && BeginRetry(e, id, now).1 ==
                 if t.Unknown? || e.book.handles[id].lifecycle != Retryable then WrongState
                 else if e.book.handles[id].waiting then OwesWait
                 else if t.tries == l.retries then RetriesSpent
                 else if e.book.handles[id].required && !e.book.handles[id].satisfied then OwesWait
                 else if now + t.short >= t.deadline then TooLate
                 else Proceed
  {
    hide Inv, Run, StoryOf, Tracked;
    StoryFits(l, ops, id);
    var e := Run(Fresh(l), ops);
    if id in e.book.handles {
      HandleIs(e, id);
    }
  }

  /** When a wait begins: the request owes it, no other runs, and there is time; a wait for recovery alone has a whole window. */
  lemma {:induction false} WaitIsExact(l: Limits, ops: seq<Op>, id: nat, now: GoInt, jitter: GoInt, reset: bool)
    requires RetryModel.ValidLimits(l)
    ensures Inv(Fresh(l)) && RetryModel.ValidLimits(Run(Fresh(l), ops).limits)
    ensures StoryOf(l, ops, id).Told? <==> id in Run(Fresh(l), ops).book.handles
    ensures var e, t := Run(Fresh(l), ops), StoryOf(l, ops, id);
            BeginWait(e, id, now, jitter, reset).1.Waiting? <==>
              && t.Told? && (e.book.handles[id].lifecycle == Retryable || e.book.handles[id].lifecycle == Terminal)
              && e.book.handles[id].required && !e.book.handles[id].satisfied && !e.book.handles[id].waiting
              && e.required && (e.pending.None? || e.closed) && now >= 0 && now + t.short <= MAX_INT
              && (e.book.handles[id].lifecycle == Retryable ==> now + t.short < t.deadline)
              && var time := if e.book.handles[id].lifecycle == Retryable then t.deadline - (now + t.short) else l.window;
                 NextBefore(l.backoff, e.backoff, time, jitter, reset).1.Delay?
  {
    hide Inv, Run, StoryOf, GiveUp, NextBefore, Within;
    StoryFits(l, ops, id);
    Limited(Run(Fresh(l), ops));
  }

  /** A failure shuts the reconnect gate exactly when the request may be tried again and has to wait first. */
  lemma {:induction false} FailShutsIff(e: Endpoint, id: nat, now: GoInt, retryable: bool, required: bool)
    requires id in e.book.handles
    ensures var f := Fail(e, id, now, retryable, required);
            if retryable && required then f.required && !f.ready else f.required == e.required && f.ready == e.ready
  {
  }

  // ---------- What is remembered ----------

  /** The clock and what the request owes in debt have reached its deadline. */
  predicate Late(h: Handle, now: GoInt) {
    now + h.debt >= h.deadline
  }

  /**
   What tracking a failed request does to every other: those that may still be tried again end exactly when their time is
   over; one that owes no wait gives way when there is no room for one that does; nothing else changes.
   */
  lemma {:induction false} TrackIsExact(b: Book, l: Limits, closed: bool, id: nat, now: GoInt, x: nat)
    requires BookOk(b, l, closed, {id}) && id in b.handles && x in b.handles && x != id
    ensures x in Track(b, id, now, l.retained, closed).handles
    ensures var c := Track(b, id, now, l.retained, closed);
            var h := b.handles[x];
            var due := b.handles[id].lifecycle == Retryable && now >= 0 && x in b.retained && h.lifecycle == Retryable && Late(h, now);
            && (due ==> c.handles[x].lifecycle == Terminal)
            && (!due ==> c.handles[x] == h || (c.handles[x] == Dead(h) && !closed && !h.required && b.handles[id].required && x in b.retained && x !in c.retained))
  {
    assert HandleOk(l, b.handles[x]);
    hide Handles;
    var p := if b.handles[id].lifecycle == Retryable then Prune(b, now) else b;
    PruneIs(b, l, now, x);
    PruneIs(b, l, now, id);
    hide Prune, Overdue;
  }

  lemma {:induction false} PruneIs(b: Book, l: Limits, now: GoInt, x: nat)
    requires x in b.handles
    requires HandleOk(l, b.handles[x])
    ensures x in Prune(b, now).handles
    ensures var h, g := b.handles[x], Prune(b, now).handles[x];
            && g.required == h.required
            && g == if now >= 0 && x in b.retained && h.lifecycle == Retryable && Late(h, now) then h.(lifecycle := Terminal, satisfied := false) else h
    ensures x in Prune(b, now).retained ==> x in b.retained
  {
  }
}
