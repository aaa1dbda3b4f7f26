/** The retry side of the endpoint as the source runs it. A wait is two calls: its start and its end. */
module RetryEndpoints {
  import opened Common
  import opened Backoff
  import opened ReconnectBackoffs
  import opened RetryModel
  import opened RetrySafety

  class TCPEndpoint {
    const limits: Limits
    const backoff: ReconnectBackoff
    var handles: map<nat, Handle>
    var retained: set<nat>
    var required: bool
    var ready: bool
    var waiting: bool
    var closed: bool
    var pending: Option<Wait>

    ghost function Books(): Book
      reads this
    {
      Book(handles, retained)
    }

    ghost function View(): Endpoint
      reads this, backoff
    {
      Endpoint(limits, Books(), required, ready, closed, pending, backoff.View())
    }

    ghost predicate Valid()
      reads this, backoff
    {
      Inv(View()) && backoff.Valid() && backoff.config == limits.backoff && (waiting <==> pending.Some? && !closed)
    }

    constructor (l: Limits)
      requires RetryModel.ValidLimits(l)
      ensures Valid() && fresh(backoff) && View() == Fresh(l)
    {
      limits := l;
      backoff := new ReconnectBackoff(l.backoff);
      handles, retained, required, ready, waiting, closed, pending := map[], {}, false, false, false, false, None;
      new;
      FreshInv(l);
    }

    // ---------- Remembering ----------

    /** One retained handle after the other, in any order. */
    method PruneRetryable(now: GoInt)
      requires retained <= handles.Keys
      modifies this`handles, this`retained
      ensures Books() == Prune(old(Books()), now)
    {
      if now < 0 {
        return;
      }
      var left := retained;
      while left != {}
        invariant left <= retained <= handles.Keys == old(handles.Keys)
        invariant handles == map id | id in old(handles) :: if id in old(retained) && id !in left then Pruned(old(handles)[id], now) else old(handles)[id]
        invariant retained == set id | id in old(retained) && id in old(handles)
                                       && (id in left || !(Pruned(old(handles)[id], now).lifecycle == Terminal && !Pruned(old(handles)[id], now).required))
        decreases |left|
      {
        var id :| id in left;
        left := left - {id};
        var h := handles[id];
        if h.lifecycle == Retryable && Overdue(h, now) {
          h := h.(lifecycle := Terminal, satisfied := false);
          handles := handles[id := h];
        }
        if h.lifecycle == Terminal && !h.required {
          retained := retained - {id};
        }
      }
    }

    /** One walk over the retained handles, in any order, for the oldest that owes no wait. */
    method OldestEvictable() returns (victim: Option<nat>)
      requires retained <= handles.Keys
      ensures victim.None? <==> Evictable(Books()) == {}
      ensures victim.Some? ==> Evictable(Books()) != {} && victim.value == Least(Evictable(Books()))
    {
      victim := None;
      var left := retained;
      while left != {}
        invariant left <= retained
        invariant victim.Some? ==> victim.value in Evictable(Books())
        invariant forall id :: id in Evictable(Books()) && id !in left ==> victim.Some? && victim.value <= id
        decreases |left|
      {
        var id :| id in left;
        left := left - {id};
        if !handles[id].required && (victim.None? || id < victim.value) {
          victim := Some(id);
        }
      }
    }

    method Retain(id: nat)
      requires id in handles && retained <= handles.Keys
      modifies this`handles, this`retained
      ensures Books() == RetryModel.Retain(old(Books()), id, limits.retained) && id in handles
    {
      hide Least, Evictable;
      if id in retained || |retained| < limits.retained {
        retained := retained + {id};
        return;
      }
      if handles[id].required {
        var victim := OldestEvictable();
        if victim.Some? {
          EvictableRetained(Books(), victim.value);
          handles, retained := handles[victim.value := Dead(handles[victim.value])], retained - {victim.value} + {id};
          return;
        }
      }
      handles := handles[id := Dead(handles[id])];
    }

    method TrackRetryableState(id: nat, now: GoInt)
      requires id in handles && retained <= handles.Keys
      modifies this`handles, this`retained
      ensures Books() == Track(old(Books()), id, now, limits.retained, closed) && id in handles
    {
      hide RetryModel.Retain;
      var lifecycle := handles[id].lifecycle;
      if lifecycle == Retryable {
        PruneRetryable(now);
      }
      if lifecycle == Retryable || Keeps(handles[id]) {
        if closed {
          handles, retained := handles[id := Dead(handles[id])], retained - {id};
        } else {
          Retain(id);
        }
      } else {
        retained := retained - {id};
      }
    }

    method SetAndTrack(id: nat, h: Handle, now: GoInt)
      requires id in handles && retained <= handles.Keys
      modifies this`handles, this`retained
      ensures Books() == Track(Put(old(Books()), id, h), id, now, limits.retained, closed) && id in handles
    {
      hide Track;
      handles := handles[id := h];
      TrackRetryableState(id, now);
    }

    lemma {:induction false} Knows()
      requires Valid()
      ensures retained <= handles.Keys && RetryModel.ValidLimits(limits)
    {
      hide Within, WaitOk, Handles;
    }

    // ---------- Requests ----------

    method Accept(id: nat, now: Span, deadline: GoInt)
      requires Valid()
      modifies this`handles
      ensures Valid() && View() == RetryModel.Accept(old(View()), id, now, deadline)
    {
      AcceptKeeps(View(), id, now, deadline);
      hide Inv, Older;
      if id !in handles && !closed && deadline > now {
        handles := handles[id := Handle(deadline, Active, false, false, false, 0, 0, now, 0)];
      }
    }

    method SetRequestRetryState(id: nat, now: GoInt, retryable: bool, requiresBackoff: bool)
      requires Valid() && id in handles
      modifies this
      ensures Valid() && View() == Fail(old(View()), id, now, retryable, requiresBackoff)
    {
      FailKeeps(View(), id, now, retryable, requiresBackoff);
      Knows();
      hide Inv, Older, Quiet, Track, Fail;
      SetState(id, now, retryable, requiresBackoff);
    }

    method SetState(id: nat, now: GoInt, retryable: bool, requiresBackoff: bool)
      requires id in handles && retained <= handles.Keys
      modifies this`handles, this`retained, this`required, this`ready
      ensures View() == Fail(old(View()), id, now, retryable, requiresBackoff)
    {
      hide Track;
      var h := handles[id].(lifecycle := if retryable then Retryable else Terminal, required := requiresBackoff, satisfied := false);
      if retryable && requiresBackoff {
        required, ready := true, false;
      }
      SetAndTrack(id, h, now);
    }

    method TerminalizeRetryable(id: nat, now: GoInt)
      requires Valid() && id in handles
      modifies this
      ensures Valid() && View() == GiveUp(old(View()), id, now)
    {
      GiveUpKeeps(View(), id, now);
      Knows();
      hide Inv, Older, Quiet, Track;
      SetAndTrack(id, handles[id].(lifecycle := Terminal, satisfied := false), now);
    }

    method CancelRetained(id: nat, whole: bool)
      requires Valid()
      modifies this`handles, this`retained
      ensures Valid() && View() == Cancel(old(View()), id, whole)
    {
      CancelKeeps(View(), id, whole);
      hide Inv, Older, Quiet;
      if id !in handles || id !in retained || (handles[id].lifecycle != Retryable && handles[id].lifecycle != Retrying) {
        return;
      }
      var h := handles[id];
      if !whole {
        handles := handles[id := h.(lifecycle := Retryable)];
        return;
      }
      handles := handles[id := h.(lifecycle := Terminal, satisfied := false)];
      if !h.required {
        retained := retained - {id};
      }
    }

    // ---------- Trying again ----------

    method BeginRetry(id: nat, now: GoInt) returns (verdict: Verdict)
      requires Valid()
      modifies this
      ensures Valid() && (View(), verdict) == RetryModel.BeginRetry(old(View()), id, now)
    {
      BeginRetryKeeps(View(), id, now);
      Knows();
      hide Inv, Older, Quiet, Track;
      if id !in handles || handles[id].lifecycle != Retryable {
        return WrongState;
      }
      var h := handles[id];
      if h.waiting {
        return OwesWait;
      }
      if h.retries >= limits.retries {
        SetAndTrack(id, Dead(h), now);
        return RetriesSpent;
      }
      if h.required && !h.satisfied {
        return OwesWait;
      }
      if Overdue(h, now) {
        SetAndTrack(id, h.(lifecycle := Terminal), now);
        return TooLate;
      }
      SetAndTrack(id, h.(lifecycle := Retrying), now);
      return Proceed;
    }

    method EndRetry(id: nat, now: GoInt, scheduled: bool, later: GoInt) returns (admitted: bool)
      requires Valid()
      modifies this
      ensures Valid() && (View(), admitted) == RetryModel.EndRetry(old(View()), id, now, scheduled, later)
    {
      hide Inv, Older, Quiet, Restore;
      if id !in handles {
        return false;
      }
      if scheduled && !closed && id in retained && handles[id].lifecycle == Retrying {
        EndRetryKeeps(View(), id, now, scheduled, later);
        Readmit(id);
        return true;
      }
      RestoreRetryLifecycle(id, now, later);
      return false;
    }

    method Readmit(id: nat)
      requires id in handles
      modifies this`handles, this`retained
      ensures var h := old(handles)[id];
              View() == old(View()).(book := Book(old(handles)[id := h.(lifecycle := Active, retries := h.retries + 1, required := false, satisfied := false)],
                                                  old(retained) - {id}))
    {
      var h := handles[id];
      handles := handles[id := h.(lifecycle := Active, retries := h.retries + 1, required := false, satisfied := false)];
      retained := retained - {id};
    }

    method RestoreRetryLifecycle(id: nat, now: GoInt, later: GoInt)
      requires Valid() && id in handles
      modifies this
      ensures Valid() && View() == Restore(old(View()), id, now, later)
    {
      RestoreKeeps(View(), id, now, later);
      Knows();
      hide Inv, Older, Quiet, Track;
      var h := handles[id];
      if h.lifecycle == Retrying {
        SetAndTrack(id, h.(lifecycle := if Overdue(h, now) then Terminal else Retryable), later);
      } else {
        TrackRetryableState(id, later);
      }
    }

    // ---------- Waiting ----------

    /** Up to the moment the timer starts. */
    method BeginWait(id: nat, before: GoInt, jitter: GoInt, reset: bool) returns (waited: Waited)
      requires Valid()
      modifies this, backoff
      ensures Valid() && RetryModel.ValidLimits(limits)
      ensures (View(), waited) == RetryModel.BeginWait(old(View()), id, before, jitter, reset)
    {
      BeginWaitKeeps(View(), id, before, jitter, reset);
      Knows();
      hide Inv, Older, Quiet, GiveUp, RetryModel.Close;
      if id !in handles || !MayWait(handles[id]) || !required || waiting {
        return NotNow;
      }
      var h := handles[id];
      if before < 0 || h.debt > MAX_INT - before || (h.lifecycle == Retryable && h.deadline <= before + h.debt) {
        TerminalizeRetryable(id, before);
        return Ended;
      }
      waited := DrawDelay(id, before, jitter, reset);
    }

    method DrawDelay(id: nat, before: Span, jitter: GoInt, reset: bool) returns (waited: Waited)
      requires Valid() && id in handles && MayWait(handles[id]) && pending.None?
      requires handles[id].debt <= MAX_INT - before && (handles[id].lifecycle == Retryable ==> before + handles[id].debt < handles[id].deadline)
      modifies this, backoff
      ensures RetryModel.ValidLimits(limits) && backoff.Valid() && (waiting <==> pending.Some? && !closed)
      ensures var (s, next) := NextBefore(limits.backoff, old(backoff.View()), Remaining(old(handles[id]), limits.window, before), jitter, reset);
              (View(), waited) == TakeDelay(old(View()), id, before, s, next)
    {
      Knows();
      WaiterIsKept(View(), id);
      var remaining := Remaining(handles[id], limits.window, before);
      DelayFits(limits.backoff, backoff.View(), remaining, jitter, reset);
      hide Within, NextBefore, BookOk, WaitOk, Track, RetryModel.Close, Doubled;
      var next := backoff.NextDelayBefore(remaining, jitter, reset);
      match next {
        case AttemptsSpent =>
          SpentKeeps(limits.backoff, old(backoff.View()), remaining, jitter, reset);
          Close();
          return Disabled;
        case Delay(delay) =>
          handles := handles[id := handles[id].(waiting := true)];
          pending := Some(Wait(id, before, delay, handles[id].lifecycle == Terminal));
          waiting := true;
          return Waiting(delay);
        case _ =>
          TerminalizeRetryable(id, before);
          return Ended;
      }
    }

    method ClearWaiting()
      requires Valid()
      modifies this
      ensures Valid() && View() == Unwait(old(View()))
    {
      UnwaitKeeps(View());
      WaiterKnown(View());
      hide Inv, Older;
      if pending.Some? {
        var id := pending.value.id;
        handles, pending, waiting := handles[id := handles[id].(waiting := false)], None, false;
      }
    }

    /** From the moment the timer returned. */
    method EndWait(after: GoInt)
      requires Valid() && pending.Some?
      modifies this
      ensures Valid() && View() == FinishWait(old(View()), after)
    {
      FinishWaitKeeps(View(), after);
      WaiterKnown(View());
      UnwaitKeeps(View());
      hide Inv, Older, GiveUp, RetryModel.Conclude;
      var w := pending.value;
      ClearWaiting();
      Knows();
      if after < w.before {
        TerminalizeRetryable(w.id, after);
      } else {
        Conclude(w, after);
      }
    }

    method Conclude(w: Wait, after: Span)
      requires w.id in handles && retained <= handles.Keys && w.before <= after
      modifies this`handles, this`retained, this`ready, this`waiting
      ensures View() == RetryModel.Conclude(old(View()), w, after) && !waiting
    {
      hide SettledBook, Track;
      var elapsed := after - w.before;
      var extra: Span := 0;
      if elapsed < w.delay {
        extra := w.delay - elapsed;
      }
      var h := handles[w.id];
      if (h.lifecycle == Retryable || h.lifecycle == Terminal) && h.required && extra > MAX_INT - h.debt {
        EndOverflowed(after, extra, w);
      } else {
        CompleteReconnectBackoff(after, extra, w);
      }
    }

    method EndOverflowed(after: Span, extra: Span, w: Wait)
      requires w.id in handles && retained <= handles.Keys
      modifies this`handles, this`retained, this`ready, this`waiting
      ensures var c := Complete(old(View()).(book := Put(old(Books()), w.id, Dead(old(handles[w.id])))), after, extra, w);
              w.id in c.book.handles && View() == Tracked(c, w.id, after) && !waiting
    {
      hide SettledBook, Track;
      handles := handles[w.id := Dead(handles[w.id])];
      CompleteReconnectBackoff(after, extra, w);
      TrackRetryableState(w.id, after);
    }

    /** One retained handle after the other, in any order; `w` is only needed for the history. */
    method CompleteReconnectBackoff(after: Span, extra: Span, w: Wait)
      requires retained <= handles.Keys
      modifies this`handles, this`retained, this`ready, this`waiting
      ensures Books() == SettledBook(old(Books()), after, extra, w) && retained <= handles.Keys == old(handles.Keys)
      ensures ready == (old(ready) || required) && !waiting
    {
      ghost var b, c := Books(), SettledBook(Books(), after, extra, w);
      SettledRest(b, after, extra, w);
      hide Settled, SettledBook;
      var left := retained;
      while left != {}
        invariant left <= retained && handles.Keys == b.handles.Keys && ready == old(ready)
        invariant forall id :: id in b.retained && id !in left ==> handles[id] == c.handles[id]
        invariant forall id :: id in b.handles && (id in left || id !in b.retained) ==> handles[id] == b.handles[id]
        invariant forall id :: id in retained <==> id in b.retained && (id in left || id in c.retained)
        decreases |left|
      {
        var id :| id in left;
        left := left - {id};
        SettledAt(b, after, extra, w, id);
        var h := SettleHandle(handles[id], after, extra, Cost(w, handles[id]));
        if handles[id].required && h.lifecycle == Terminal {
          retained := retained - {id};
        }
        handles := handles[id := h];
      }
      assert handles == c.handles && retained == c.retained;
      if required {
        ready := true;
      }
      waiting := false;
    }

    static method SettleHandle(h: Handle, after: Span, extra: Span, delay: nat) returns (g: Handle)
      ensures g == Settled(h, after, extra, delay)
    {
      if !h.required {
        return h;
      }
      if h.lifecycle == Terminal {
        return h.(required := false, satisfied := false);
      }
      if h.lifecycle != Retryable {
        return h;
      }
      var terminal := extra > MAX_INT - h.debt;
      var debt := h.debt;
      if !terminal {
        debt := debt + extra;
        terminal := debt > MAX_INT - after || after + debt >= h.deadline;
      }
      if terminal {
        return Dead(h);
      }
      return h.(debt := debt, satisfied := true, charged := h.charged + delay);
    }

    // ---------- Connections ----------

    method OpenConnection() returns (ok: bool)
      requires Valid()
      modifies this`required, this`ready
      ensures Valid() && (View(), ok) == Open(old(View()))
    {
      FlagsKeep(View(), Open(View()).0);
      hide Inv, Older, Quiet;
      if closed || (required && !ready) {
        return false;
      }
      required, ready := false, false;
      return true;
    }

    method Close()
      requires Valid()
      modifies this
      ensures Valid() && View() == RetryModel.Close(old(View())) && pending == old(pending)
    {
      CloseKeeps(View());
      hide Inv, Older, Quiet, AllEnded;
      if closed {
        return;
      }
      closed, required, ready, waiting := true, false, false, false;
      EndAll();
    }

    method EndAll()
      modifies this`handles, this`retained
      ensures retained == {}
      ensures handles == AllEnded(old(Books()))
    {
      var left := handles.Keys;
      while left != {}
        invariant left <= handles.Keys == old(handles.Keys) && retained == old(retained)
        invariant forall id :: id in left ==> handles[id] == old(handles)[id]
        invariant forall id :: id in old(handles) && id !in left ==>
                    handles[id] == AllEnded(old(Books()))[id]
        decreases |left|
      {
        var id :| id in left;
        left := left - {id};
        if id in retained {
          handles := handles[id := Dead(handles[id])];
        } else if handles[id].lifecycle == Active {
          handles := handles[id := handles[id].(lifecycle := Terminal)];
        }
      }
      retained := {};
    }
  }

  lemma {:induction false} EvictableRetained(b: Book, id: nat)
    requires Evictable(b) != {} && id == Least(Evictable(b))
    ensures id in b.retained && id in b.handles
  {
  }

  lemma {:induction false} SettledAt(b: Book, after: Span, extra: Span, w: Wait, id: nat)
    requires id in b.retained && id in b.handles
    ensures var c, h := SettledBook(b, after, extra, w), Settled(b.handles[id], after, extra, Cost(w, b.handles[id]));
            && c.handles.Keys == b.handles.Keys && c.handles[id] == h && (id in c.retained <==> !(b.handles[id].required && h.lifecycle == Terminal))
  {
    SettledAny(b.handles[id], after, extra, Cost(w, b.handles[id]), 0);
  }

  lemma {:induction false} SettledRest(b: Book, after: Span, extra: Span, w: Wait)
    ensures var c := SettledBook(b, after, extra, w);
            && c.handles.Keys == b.handles.Keys && c.retained <= b.retained
            && forall id :: id in b.handles && id !in b.retained ==> c.handles[id] == b.handles[id]
  {
  }

  lemma {:induction false} SpentKeeps(c: Config, s: State, remaining: GoInt, jitter: GoInt, reset: bool)
    requires ValidConfig(c)
    ensures NextBefore(c, s, remaining, jitter, reset).1 == AttemptsSpent ==> NextBefore(c, s, remaining, jitter, reset).0 == s
  {
  }
}
