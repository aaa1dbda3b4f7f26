/** What calls and answers tell of the reconnect gate and of the requests under way, and what that decides. */
module RetryGates {
  import opened Common
  import opened Backoff
  import opened RetryModel
  import opened RetrySafety
  import opened RetryTime

  /** Whether the endpoint was closed, a connection was lost, a wait was served since; of one request whether it is known and under way. */
  datatype Course = Course(closed: bool, lost: bool, served: bool, known: bool, active: bool)

  const START := Course(false, false, false, false, false)

  /** What one call and its answer make of the course; a wait that finds the attempts spent closes the endpoint, and a clock that ran backwards ends the request that waited. */
  ghost function Tell(e: Endpoint, op: Op, id: nat, c: Course): Course
    requires RetryModel.ValidLimits(e.limits)
  {
    var mine := match op.act
      case DoAccept(x, _) => x == id
      case DoFinish(x) => x == id
      case DoFail(x, _, _) => x == id
      case DoEndRetry(x, _, _) => x == id
      case _ => false;
    match op.act
    case DoAccept(_, deadline) => if mine && !c.known && !c.closed && 0 <= op.now < deadline then c.(known := true, active := true) else c
    case DoFinish(_) => if mine then c.(active := false) else c
    case DoFail(x, retryable, required) =>
      var d := if mine then c.(active := false) else c;
      if x in e.book.handles && retryable && required then d.(lost := true, served := false) else d
    case DoEndRetry(x, scheduled, later) => if mine && EndRetry(e, x, op.now, scheduled, later).1 then c.(active := true) else c
    case DoBeginWait(x, jitter, reset) =>
      if BeginWait(e, x, op.now, jitter, reset).1 == Disabled then c.(closed := true, lost := false, served := false, active := false) else c
    case DoFinishWait =>
      if EndsWait(e, op) then c.(served := c.served || c.lost)
      else if e.pending.Some? && e.pending.value.id == id then c.(active := false)
      else c
    case DoMarkRequired => if c.closed then c else c.(lost := true, served := false)
    case DoOpen => if c.closed || (c.lost && !c.served) then c else c.(lost := false, served := false)
    case DoClose => if c.closed then c else c.(closed := true, lost := false, served := false, active := false)
    case _ => c
  }

  ghost predicate Active(b: Book, id: nat) {
    id in b.handles && b.handles[id].lifecycle == Lifecycle.Active
  }

  ghost predicate Follows(e: Endpoint, id: nat, c: Course) {
    && e.closed == c.closed && e.required == c.lost && e.ready == c.served
    && (id in e.book.handles <==> c.known) && (Active(e.book, id) <==> c.active) && (c.closed ==> !c.active)
  }

  /** The gate is as it was, and so is whether the request is known and under way. */
  ghost predicate Same(e: Endpoint, f: Endpoint, id: nat) {
    && f.closed == e.closed && f.required == e.required && f.ready == e.ready
    && (id in f.book.handles <==> id in e.book.handles) && (Active(f.book, id) <==> Active(e.book, id))
  }

  // ---------- Remembering does not touch what is under way ----------

  lemma {:induction false} PruneActive(b: Book, now: GoInt, x: nat)
    ensures x in Prune(b, now).handles <==> x in b.handles
    ensures Active(Prune(b, now), x) <==> Active(b, x)
  {
  }

  lemma {:induction false} RetainActive(b: Book, l: Limits, id: nat, x: nat)
    requires BookOk(b, l, false, {id}) && id in b.handles && b.handles[id].lifecycle != Lifecycle.Active
    ensures x in Retain(b, id, l.retained).handles <==> x in b.handles
    ensures Active(Retain(b, id, l.retained), x) <==> Active(b, x)
  {
    hide Handles;
  }

  lemma {:induction false} TrackActive(b: Book, l: Limits, closed: bool, id: nat, now: GoInt, x: nat)
    requires BookOk(b, l, closed, {id}) && id in b.handles
    ensures x in Track(b, id, now, l.retained, closed).handles <==> x in b.handles
    ensures Active(Track(b, id, now, l.retained, closed), x) <==> Active(b, x)
  {
    PruneActive(b, now, x);
    PruneActive(b, now, id);
    PruneKeeps(b, l, closed, id, now);
    hide Prune, Retain, BookOk;
    var p := if b.handles[id].lifecycle == Retryable then Prune(b, now) else b;
    if p.handles[id].lifecycle != Lifecycle.Active && !closed {
      RetainActive(p, l, id, x);
    }
  }

  /** A handle that is not under way afterwards, tracked: nothing changes for the others. */
  lemma {:induction false} SetSame(e: Endpoint, id: nat, h: Handle, now: GoInt, f: Endpoint, x: nat)
    requires Inv(e) && id in e.book.handles && HandleOk(e.limits, h) && SameTimes(e.book.handles[id], h) && h.lifecycle != Lifecycle.Active
    requires f == e.(book := Put(e.book, id, h), required := f.required, ready := f.ready, backoff := f.backoff)
    ensures var g := Tracked(f, id, now);
            && g.closed == e.closed && g.required == f.required && g.ready == f.ready
            && (x in g.book.handles <==> x in e.book.handles) && (Active(g.book, x) <==> x != id && Active(e.book, x))
  {
    PutKeeps(e.book, e.limits, e.closed, id, h);
    hide BookOk, WaitOk, Within, HandleOk, SameTimes, Track;
    TrackActive(f.book, e.limits, e.closed, id, now, x);
  }

  lemma {:induction false} GiveUpSame(e: Endpoint, id: nat, now: GoInt, s: State, x: nat)
    requires Inv(e) && id in e.book.handles && e.book.handles[id].lifecycle != Lifecycle.Active
    ensures Same(e, GiveUp(e.(backoff := s), id, now), x)
  {
    HandleIs(e, id);
    hide Inv, Tracked;
    var h := e.book.handles[id].(lifecycle := Terminal, satisfied := false);
    SetSame(e, id, h, now, e.(backoff := s, book := Put(e.book, id, h)), x);
  }

  lemma {:induction false} LeftSame(e: Endpoint, id: nat, now: GoInt, x: nat)
    requires Inv(e) && id in e.book.handles
    ensures var g := GiveUp(e, id, now);
            && g.closed == e.closed && g.required == e.required && g.ready == e.ready
            && (x in g.book.handles <==> x in e.book.handles) && (Active(g.book, x) <==> x != id && Active(e.book, x))
  {
    HandleIs(e, id);
    hide Inv, Tracked;
    var h := e.book.handles[id].(lifecycle := Terminal, satisfied := false);
    SetSame(e, id, h, now, e.(book := Put(e.book, id, h)), x);
  }

  // ---------- Every step ----------

  lemma {:induction false} FailFollows(e: Endpoint, op: Op, id: nat, c: Course)
    requires Inv(e) && op.act.DoFail? && Follows(e, id, c)
    ensures Follows(Step(e, op), id, Tell(e, op, id, c))
  {
    var x := op.act.id;
    if x in e.book.handles {
      HandleIs(e, x);
      hide Inv, Tracked;
      var h := e.book.handles[x].(lifecycle := if op.act.retryable then Retryable else Terminal, required := op.act.required, satisfied := false);
      var t := e.(book := Put(e.book, x, h));
      SetSame(e, x, h, op.now, if op.act.retryable && op.act.required then t.(required := true, ready := false) else t, id);
    }
  }

  lemma {:induction false} BeginRetrySame(e: Endpoint, x: nat, now: GoInt, id: nat)
    requires Inv(e)
    ensures Same(e, BeginRetry(e, x, now).0, id)
  {
    if x in e.book.handles && e.book.handles[x].lifecycle == Retryable {
      HandleIs(e, x);
      hide Inv, Tracked, Overdue;
      var h := e.book.handles[x];
      SetSame(e, x, Dead(h), now, e.(book := Put(e.book, x, Dead(h))), id);
      SetSame(e, x, h.(lifecycle := Terminal), now, e.(book := Put(e.book, x, h.(lifecycle := Terminal))), id);
      if h.retries < e.limits.retries {
        SetSame(e, x, h.(lifecycle := Retrying), now, e.(book := Put(e.book, x, h.(lifecycle := Retrying))), id);
      }
    }
  }

  lemma {:induction false} RestoreSame(e: Endpoint, x: nat, now: GoInt, later: GoInt, id: nat)
    requires Inv(e) && x in e.book.handles
    ensures Same(e, Restore(e, x, now, later), id)
  {
    HandleIs(e, x);
    var h := e.book.handles[x];
    if h.lifecycle == Retrying {
      hide Inv, Tracked, Overdue;
      var g := h.(lifecycle := if Overdue(h, now) then Terminal else Retryable);
      SetSame(e, x, g, later, e.(book := Put(e.book, x, g)), id);
    } else {
      AsIs(e, x, later, id);
    }
  }

  lemma {:induction false} AsIs(e: Endpoint, x: nat, now: GoInt, id: nat)
    requires Inv(e) && x in e.book.handles
    ensures Same(e, Tracked(e, x, now), id)
  {
    hide WaitOk, Within, Handles, Track;
    assert BookOk(e.book, e.limits, e.closed, {x});
    TrackActive(e.book, e.limits, e.closed, x, now, id);
  }

  lemma {:induction false} EndRetryFollows(e: Endpoint, op: Op, id: nat, c: Course)
    requires Inv(e) && op.act.DoEndRetry? && Follows(e, id, c)
    ensures Follows(Step(e, op), id, Tell(e, op, id, c))
  {
    if op.act.id in e.book.handles {
      RestoreSame(e, op.act.id, op.now, op.act.later, id);
      hide Inv, Restore;
    }
  }

  lemma {:induction false} CloseFollows(e: Endpoint, id: nat, c: Course)
    requires Inv(e) && Follows(e, id, c)
    ensures Follows(Close(e), id, if c.closed then c else c.(closed := true, lost := false, served := false, active := false))
  {
    hide BookOk, WaitOk, Within;
  }

  lemma {:induction false} BeginWaitFollows(e: Endpoint, op: Op, id: nat, c: Course)
    requires Inv(e) && op.act.DoBeginWait? && Follows(e, id, c)
    ensures Follows(Step(e, op), id, Tell(e, op, id, c))
  {
    var x := op.act.id;
    if x in e.book.handles && MayWait(e.book.handles[x]) && e.required && (e.pending.None? || e.closed) {
      WaiterIsKept(e, x);
      CloseFollows(e, id, c);
      hide Inv, GiveUp, NextBefore, Close;
      var h := e.book.handles[x];
      GiveUpSame(e, x, op.now, e.backoff, id);
      if op.now >= 0 && h.debt <= MAX_INT - op.now && (h.lifecycle == Retryable ==> op.now + h.debt < h.deadline) {
        Limited(e);
        var s := NextBefore(e.limits.backoff, e.backoff, Remaining(h, e.limits.window, op.now), op.act.jitter, op.act.reset).0;
        GiveUpSame(e, x, op.now, s, id);
      }
    }
  }

  lemma {:induction false} UnwaitSame(e: Endpoint, id: nat)
    ensures Same(e, Unwait(e), id)
  {
  }

  /** The end of a wait opens the gate for a lost connection and leaves alone what is under way. */
  lemma {:induction false} ConcludeSame(u: Endpoint, w: Wait, after: Span, id: nat)
    requires Inv(u) && u.pending.None? && w.id in u.book.handles && w.before <= after
    ensures var f := Conclude(u, w, after);
            && f.closed == u.closed && f.required == u.required && f.ready == (u.ready || u.required)
            && (id in f.book.handles <==> id in u.book.handles) && (Active(f.book, id) <==> Active(u.book, id))
  {
    var extra, h := Shortfall(w.before, after, w.delay), u.book.handles[w.id];
    SettledSame(u.book, after, extra, w, id);
    if (h.lifecycle == Retryable || h.lifecycle == Terminal) && h.required && extra > MAX_INT - h.debt {
      var b := Put(u.book, w.id, Dead(h));
      SettledSame(b, after, extra, w, id);
      SettledSame(b, after, extra, w, w.id);
      DeadBook(u, w, after, extra);
      hide Inv, SettledBook, Track, BookOk;
      TrackActive(SettledBook(b, after, extra, w), u.limits, u.closed, w.id, after, id);
    }
  }

  lemma {:induction false} DeadBook(u: Endpoint, w: Wait, after: Span, extra: Span)
    requires Inv(u) && w.id in u.book.handles && u.book.handles[w.id].lifecycle != Lifecycle.Active
    ensures BookOk(SettledBook(Put(u.book, w.id, Dead(u.book.handles[w.id])), after, extra, w), u.limits, u.closed, {w.id})
  {
    var h := u.book.handles[w.id];
    HandleIs(u, w.id);
    hide Within, WaitOk, Older, Quiet, SettledBook, SameTimes, HandleOk;
    ReplaceStep(u, w.id, Dead(h), u.book.retained);
    SettleKeeps(Put(u.book, w.id, Dead(h)), u.limits, u.closed, after, extra, w);
  }

  lemma {:induction false} SettledSame(b: Book, after: Span, extra: Span, w: Wait, id: nat)
    ensures var c := SettledBook(b, after, extra, w);
            (id in c.handles <==> id in b.handles) && (Active(c, id) <==> Active(b, id))
  {
  }

  lemma {:induction false} FinishWaitSame(e: Endpoint, after: GoInt, id: nat)
    requires Inv(e) && e.pending.Some?
    ensures var f, ends := FinishWait(e, after), e.pending.value.before <= after;
            && f.closed == e.closed && f.required == e.required && f.ready == (e.ready || (ends && e.required))
            && (id in f.book.handles <==> id in e.book.handles) && (Active(f.book, id) <==> (ends || id != e.pending.value.id) && Active(e.book, id))
  {
    hide Inv, Unwait, GiveUp, Conclude, Active;
    WaiterKnown(e);
    UnwaitKeeps(e);
    UnwaitSame(e, id);
    if e.pending.value.before <= after {
      ConcludeSame(Unwait(e), e.pending.value, after, id);
    } else {
      LeftSame(Unwait(e), e.pending.value.id, after, id);
    }
  }

  lemma {:induction false} FinishWaitFollows(e: Endpoint, op: Op, id: nat, c: Course)
    requires Inv(e) && op.act.DoFinishWait? && Follows(e, id, c)
    ensures Follows(Step(e, op), id, Tell(e, op, id, c))
  {
    Limited(e);
    hide Inv, FinishWait, Active, RetryModel.ValidLimits;
    if e.pending.Some? {
      FinishWaitSame(e, op.now, id);
    } else {
      NoWait(e, op.now);
    }
  }

  lemma {:induction false} NoWait(e: Endpoint, after: GoInt)
    requires e.pending.None?
    ensures FinishWait(e, after) == e
  {
  }

  lemma {:induction false} StepFollows(e: Endpoint, op: Op, id: nat, c: Course)
    requires Inv(e) && Follows(e, id, c)
    ensures Follows(Step(e, op), id, Tell(e, op, id, c))
  {
    match op.act
    case DoFail(_, _, _) => FailFollows(e, op, id, c);
    case DoBeginRetry(x) =>
      BeginRetrySame(e, x, op.now, id);
      hide Inv, BeginRetry;
    case DoEndRetry(_, _, _) => EndRetryFollows(e, op, id, c);
    case DoBeginWait(_, _, _) => BeginWaitFollows(e, op, id, c);
    case DoFinishWait => FinishWaitFollows(e, op, id, c);
    case DoClose =>
      CloseFollows(e, id, c);
      hide Inv, Close;
    case _ => hide Inv;
  }

  ghost function CourseIn(e: Endpoint, ops: seq<Op>, id: nat, c: Course): Course
    requires Inv(e)
    decreases |ops|
  {
    if ops == [] then c
    else
      StepKeeps(e, ops[0]);
      CourseIn(Step(e, ops[0]), ops[1..], id, Tell(e, ops[0], id, c))
  }

  lemma {:induction false} RunFollows(e: Endpoint, ops: seq<Op>, id: nat, c: Course)
    requires Inv(e) && Follows(e, id, c)
    ensures Follows(Run(e, ops), id, CourseIn(e, ops, id, c))
    decreases |ops|
  {
    hide Inv, Follows, Step, Tell;
    if ops != [] {
      Limited(e);
      StepKeeps(e, ops[0]);
      StepFollows(e, ops[0], id, c);
      RunFollows(Step(e, ops[0]), ops[1..], id, Tell(e, ops[0], id, c));
    }
  }

  // ---------- The course decides ----------

  ghost function CourseOf(l: Limits, ops: seq<Op>, id: nat): Course
    requires RetryModel.ValidLimits(l)
  {
    FreshInv(l);
    CourseIn(Fresh(l), ops, id, START)
  }

  lemma {:induction false} CourseFits(l: Limits, ops: seq<Op>, id: nat)
    requires RetryModel.ValidLimits(l)
    ensures Inv(Fresh(l)) && Inv(Run(Fresh(l), ops)) && Run(Fresh(l), ops).limits == l && Follows(Run(Fresh(l), ops), id, CourseOf(l, ops, id))
  {
    hide Inv, Run, CourseIn;
    FreshInv(l);
    RunKeeps(Fresh(l), ops);
    RunLimits(Fresh(l), ops);
    RunFollows(Fresh(l), ops, id, START);
  }

  /**
   By the calls and answers so far alone: when a connection may be opened, when a request is accepted, which request is under
   way and can finish, and that a closed endpoint has none under way.
   */
  lemma {:induction false} CourseDecides(l: Limits, ops: seq<Op>, id: nat, now: Span, deadline: GoInt)
    requires RetryModel.ValidLimits(l)
    ensures Inv(Fresh(l))
    ensures var e, c := Run(Fresh(l), ops), CourseOf(l, ops, id);
            && (Open(e).1 <==> !c.closed && (c.lost ==> c.served))
            && (Active(e.book, id) <==> c.active)
            && (!c.known && id in Accept(e, id, now, deadline).book.handles <==> !c.known && !c.closed && now < deadline)
            && (if c.active then Finish(e, id).book.handles == e.book.handles[id := e.book.handles[id].(lifecycle := Terminal)] else Finish(e, id) == e)
            && (c.closed ==> !c.active)
  {
    hide Inv, Run, CourseOf;
    CourseFits(l, ops, id);
  }

  // ---------- Dropping and restoring a request ----------

  /** Dropping a request works exactly while it may be tried again: all of it ends, or it only waits to be tried again. */
  lemma {:induction false} CancelIs(e: Endpoint, id: nat, whole: bool)
    requires Inv(e) && id in e.book.handles
    ensures var h, f := e.book.handles[id], Cancel(e, id, whole);
            && f.book.handles ==
                 (if h.lifecycle != Retryable && h.lifecycle != Retrying then e.book.handles
                  else if whole then e.book.handles[id := h.(lifecycle := Terminal, satisfied := false)]
                  else e.book.handles[id := h.(lifecycle := Retryable)])
            && f.book.retained ==
                 (if whole && (h.lifecycle == Retryable || h.lifecycle == Retrying) && !h.required then e.book.retained - {id} else e.book.retained)
  {
  }

  lemma {:induction false} TrackOne(b: Book, l: Limits, id: nat, now: GoInt)
    requires BookOk(b, l, false, {id}) && id in b.retained && HandleOk(l, b.handles[id])
    requires b.handles[id].lifecycle == Retryable || b.handles[id].lifecycle == Terminal
    ensures id in Track(b, id, now, l.retained, false).handles
    ensures var h, g := b.handles[id], Track(b, id, now, l.retained, false).handles[id];
            && g.lifecycle != Lifecycle.Active
            && (g.lifecycle == Retryable <==> h.lifecycle == Retryable && (now >= 0 ==> now + h.debt < h.deadline))
  {
    hide Handles;
    PruneOne(b, id, now);
    hide Prune;
  }

  lemma {:induction false} PruneOne(b: Book, id: nat, now: GoInt)
    requires id in b.retained && id in b.handles
    ensures var p := Prune(b, now);
            && id in p.handles && p.handles[id] == (if now < 0 then b.handles[id] else Pruned(b.handles[id], now))
            && (p.handles[id].lifecycle == Retryable ==> id in p.retained)
  {
  }

  /**
   A retry succeeds exactly when it was scheduled on an open endpoint while the request was being retried; otherwise the
   request may be tried again exactly when its time is over neither at the first nor at the second look at the clock.
   */
  lemma {:induction false} EndRetryIs(e: Endpoint, id: nat, now: GoInt, scheduled: bool, later: GoInt)
    requires Inv(e) && id in e.book.handles && e.book.handles[id].lifecycle == Retrying
    ensures id in EndRetry(e, id, now, scheduled, later).0.book.handles
    ensures var h, (f, done) := e.book.handles[id], EndRetry(e, id, now, scheduled, later);
            && (done <==> scheduled) && (done <==> f.book.handles[id].lifecycle == Lifecycle.Active)
            && (done ==> f.book.handles[id].retries == h.retries + 1 && !f.book.handles[id].required && id !in f.book.retained)
            && (!done ==>
                  (f.book.handles[id].lifecycle == Retryable <==> now + h.debt < h.deadline && (later >= 0 ==> later + h.debt < h.deadline)))
  {
    HandleIs(e, id);
    var h := e.book.handles[id];
    assert id in e.book.retained && !e.closed by { hide WaitOk, Within, Handles; }
    if !scheduled {
      var g := h.(lifecycle := if Overdue(h, now) then Terminal else Retryable);
      PutKeeps(e.book, e.limits, e.closed, id, g);
      hide Inv, BookOk, Track;
      TrackOne(Put(e.book, id, g), e.limits, id, later);
    } else {
      hide Inv, Restore;
    }
  }
}
