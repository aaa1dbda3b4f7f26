/** Retries over every run: bounded memory, deadlines that only come closer, and waits that are really paid for. */
module RetrySafety {
  import opened Common
  import opened Backoff
  import opened RetryModel

  // ---------- Invariant ----------

  predicate HandleOk(l: Limits, h: Handle) {
    && h.debt < h.deadline && h.retries <= l.retries
    && (h.satisfied ==> h.required) && (h.lifecycle == Active ==> !h.required) && (h.lifecycle == Retrying ==> h.retries < l.retries)
  }

  ghost predicate Handles(l: Limits, handles: map<nat, Handle>) {
    forall id :: id in handles ==> HandleOk(l, handles[id])
  }

  /** Exactly the handles with something left to do have to be remembered; `except` is being worked on. */
  ghost predicate Remembered(b: Book, closed: bool, except: set<nat>) {
    && b.retained <= b.handles.Keys
    && (forall id :: id in b.handles && id !in except && Keeps(b.handles[id]) ==> id in b.retained)
    && (forall id :: id in b.retained && id !in except ==> b.handles[id].lifecycle != Active && !closed)
  }

  ghost predicate BookOk(b: Book, l: Limits, closed: bool, except: set<nat>) {
    Handles(l, b.handles) && Remembered(b, closed, except) && |b.retained| <= l.retained
  }

  /** Nothing that time or waits depend on has changed. */
  predicate SameTimes(h: Handle, g: Handle) {
    g.deadline == h.deadline && g.debt == h.debt && g.born == h.born && g.charged == h.charged && g.waiting == h.waiting && h.retries <= g.retries
  }

  ghost predicate Quiet(b: Book, c: Book) {
    c.handles.Keys == b.handles.Keys && forall id :: id in b.handles ==> SameTimes(b.handles[id], c.handles[id])
  }

  lemma {:induction false} QuietTwice(a: Book, b: Book, c: Book)
    requires Quiet(a, b) && Quiet(b, c)
    ensures Quiet(a, c)
  {
  }

  // ---------- Remembering ----------

  lemma {:induction false} PruneKeeps(b: Book, l: Limits, closed: bool, id: nat, now: GoInt)
    requires BookOk(b, l, closed, {id})
    ensures BookOk(Prune(b, now), l, closed, {id}) && Quiet(b, Prune(b, now))
    ensures id in b.handles && b.handles[id].lifecycle != Active ==> Prune(b, now).handles[id].lifecycle != Active
  {
    var p := Prune(b, now);
    Fewer(b.retained, p.retained);
    forall x | x in p.handles
      ensures HandleOk(l, p.handles[x]) && SameTimes(b.handles[x], p.handles[x])
    {
      assert HandleOk(l, b.handles[x]);
    }
  }

  lemma {:induction false} Fewer(more: set<nat>, less: set<nat>)
    requires less <= more
    ensures |less| <= |more|
  {
    assert less + (more - less) == more && less * (more - less) == {};
  }

  lemma {:induction false} AddKept(b: Book, l: Limits, id: nat)
    requires BookOk(b, l, false, {id}) && id in b.handles && b.handles[id].lifecycle != Active && (id in b.retained || |b.retained| < l.retained)
    ensures BookOk(b.(retained := b.retained + {id}), l, false, {})
  {
    assert id in b.retained ==> b.retained + {id} == b.retained;
    hide HandleOk;
  }

  lemma {:induction false} Evict(b: Book, l: Limits, id: nat, victim: nat)
    requires BookOk(b, l, false, {id}) && id in b.handles && b.handles[id].lifecycle != Active && id !in b.retained && victim in b.retained
    ensures var c := Book(b.handles[victim := Dead(b.handles[victim])], b.retained - {victim} + {id}); BookOk(c, l, false, {}) && Quiet(b, c)
  {
    assert HandleOk(l, b.handles[victim]);
    assert |b.retained - {victim} + {id}| == |b.retained|;
  }

  lemma {:induction false} Overflows(b: Book, l: Limits, id: nat)
    requires BookOk(b, l, false, {id}) && id in b.handles && id !in b.retained
    ensures BookOk(Put(b, id, Dead(b.handles[id])), l, false, {}) && Quiet(b, Put(b, id, Dead(b.handles[id])))
  {
    assert HandleOk(l, b.handles[id]);
  }

  lemma {:induction false} RetainKeeps(b: Book, l: Limits, id: nat)
    requires BookOk(b, l, false, {id}) && id in b.handles && b.handles[id].lifecycle != Active && l.retained > 0
    ensures BookOk(Retain(b, id, l.retained), l, false, {}) && Quiet(b, Retain(b, id, l.retained))
  {
    hide BookOk;
    if id in b.retained || |b.retained| < l.retained {
      AddKept(b, l, id);
    } else if b.handles[id].required && Evictable(b) != {} {
      Evict(b, l, id, Least(Evictable(b)));
    } else {
      Overflows(b, l, id);
    }
  }

  lemma {:induction false} TrackKeeps(b: Book, l: Limits, closed: bool, id: nat, now: GoInt)
    requires BookOk(b, l, closed, {id}) && id in b.handles && b.handles[id].lifecycle != Active && l.retained > 0
    ensures BookOk(Track(b, id, now, l.retained, closed), l, closed, {}) && Quiet(b, Track(b, id, now, l.retained, closed))
  {
    hide Prune, Retain, Quiet, SameTimes, HandleOk;
    var p := if b.handles[id].lifecycle == Retryable then Prune(b, now) else b;
    QuietSelf(b);
    PruneKeeps(b, l, closed, id, now);
    if b.handles[id].lifecycle == Retryable || Keeps(p.handles[id]) {
      if closed {
        ForgetDead(p, l, id);
        QuietTwice(b, p, Book(p.handles[id := Dead(p.handles[id])], p.retained - {id}));
      } else {
        RetainKeeps(p, l, id);
        QuietTwice(b, p, Retain(p, id, l.retained));
      }
    } else {
      Forget(p, l, closed, id);
      QuietTwice(b, p, p.(retained := p.retained - {id}));
    }
  }

  lemma {:induction false} PruneKeepsOwing(b: Book, now: GoInt, x: nat)
    requires x in b.retained && x in b.handles && b.handles[x].required
    ensures x in Prune(b, now).retained && x in Prune(b, now).handles && Prune(b, now).handles[x].required
  {
  }

  /** Making room never costs a request that still owes a wait its place: of those that do not, the oldest goes. */
  lemma {:induction false} OwingIsNeverEvicted(b: Book, l: Limits, id: nat, now: GoInt, x: nat)
    requires BookOk(b, l, false, {id}) && id in b.handles && l.retained > 0
    requires x in b.retained && x != id && b.handles[x].required
    ensures var c := Track(b, id, now, l.retained, false);
            x in c.retained && x in c.handles && c.handles[x].required
  {
    PruneKeepsOwing(b, now, x);
    PruneKeeps(b, l, false, id, now);
    hide Prune, Least;
    var p := if b.handles[id].lifecycle == Retryable then Prune(b, now) else b;
    if Evictable(p) != {} {
      assert Least(Evictable(p)) != x;
    }
  }

  lemma {:induction false} QuietSelf(b: Book)
    ensures Quiet(b, b)
  {
  }

  lemma {:induction false} ForgetDead(b: Book, l: Limits, id: nat)
    requires BookOk(b, l, true, {id}) && id in b.handles
    ensures var c := Book(b.handles[id := Dead(b.handles[id])], b.retained - {id}); BookOk(c, l, true, {}) && Quiet(b, c)
  {
    assert HandleOk(l, b.handles[id]);
    Fewer(b.retained, b.retained - {id});
  }

  lemma {:induction false} Forget(b: Book, l: Limits, closed: bool, id: nat)
    requires BookOk(b, l, closed, {id}) && id in b.handles && !Keeps(b.handles[id])
    ensures var c := b.(retained := b.retained - {id}); BookOk(c, l, closed, {}) && Quiet(b, c)
  {
    Fewer(b.retained, b.retained - {id});
  }

  /** Setting one handle up for tracking. */
  lemma {:induction false} PutKeeps(b: Book, l: Limits, closed: bool, id: nat, h: Handle)
    requires BookOk(b, l, closed, {}) && id in b.handles && HandleOk(l, h) && SameTimes(b.handles[id], h)
    ensures BookOk(Put(b, id, h), l, closed, {id}) && Quiet(b, Put(b, id, h))
  {
  }

  lemma {:induction false} SetAndTrack(b: Book, l: Limits, closed: bool, id: nat, h: Handle, now: GoInt)
    requires BookOk(b, l, closed, {}) && id in b.handles && HandleOk(l, h) && SameTimes(b.handles[id], h) && h.lifecycle != Active && l.retained > 0
    ensures var c := Track(Put(b, id, h), id, now, l.retained, closed); BookOk(c, l, closed, {}) && Quiet(b, c)
  {
    hide BookOk, Quiet, Track, HandleOk, SameTimes;
    PutKeeps(b, l, closed, id, h);
    TrackKeeps(Put(b, id, h), l, closed, id, now);
    QuietTwice(b, Put(b, id, h), Track(Put(b, id, h), id, now, l.retained, closed));
  }

  lemma {:induction false} ReplaceKeeps(b: Book, l: Limits, closed: bool, id: nat, h: Handle, retained: set<nat>)
    requires BookOk(b, l, closed, {}) && id in b.handles && HandleOk(l, h)
    requires (retained == b.retained && (id in retained || !Keeps(h)) && h.lifecycle != Active) || (retained == b.retained - {id} && !Keeps(h))
    ensures BookOk(Book(b.handles[id := h], retained), l, closed, {})
  {
    Fewer(b.retained, retained);
  }

  // ---------- The endpoint ----------

  /** The wait under way belongs to the one waiting handle, and fits before its deadline unless it only recovers. */
  ghost predicate WaitOk(l: Limits, handles: map<nat, Handle>, pending: Option<Wait>) {
    && (forall id :: id in handles ==> (handles[id].waiting <==> pending.Some? && pending.value.id == id))
    && (pending.Some? ==>
          var w := pending.value;
          && w.id in handles && l.backoff.floor <= w.delay <= l.backoff.ceiling
          && (!w.recovery ==> w.before + handles[w.id].debt + w.delay < handles[w.id].deadline))
  }

  ghost predicate Inv(e: Endpoint) {
    && RetryModel.ValidLimits(e.limits) && BookOk(e.book, e.limits, e.closed, {}) && WaitOk(e.limits, e.book.handles, e.pending)
    && Within(e.limits.backoff, e.backoff)
  }

  /** What a step may do to the handles: deadlines and births stay, debt and charges only grow. */
  ghost predicate Older(b: Book, c: Book) {
    forall id :: id in b.handles ==>
      id in c.handles && c.handles[id].deadline == b.handles[id].deadline && c.handles[id].born == b.handles[id].born
      && b.handles[id].debt <= c.handles[id].debt && b.handles[id].charged <= c.handles[id].charged && b.handles[id].retries <= c.handles[id].retries
  }

  lemma {:induction false} OlderTwice(a: Book, b: Book, c: Book)
    requires Older(a, b) && Older(b, c)
    ensures Older(a, c)
  {
  }

  lemma {:induction false} QuietWait(l: Limits, b: Book, c: Book, pending: Option<Wait>)
    requires Quiet(b, c) && WaitOk(l, b.handles, pending)
    ensures WaitOk(l, c.handles, pending) && Older(b, c)
  {
  }

  /** A step that only tracks keeps the invariant. */
  lemma {:induction false} QuietStep(e: Endpoint, f: Endpoint)
    requires Inv(e) && Quiet(e.book, f.book) && BookOk(f.book, e.limits, f.closed, {}) && f.limits == e.limits && f.pending == e.pending
    requires Within(e.limits.backoff, f.backoff)
    ensures Inv(f) && Older(e.book, f.book)
  {
    hide BookOk, Within, RetryModel.ValidLimits, Quiet, WaitOk, Older;
    QuietWait(e.limits, e.book, f.book, e.pending);
  }

  lemma {:induction false} HandleIs(e: Endpoint, id: nat)
    requires Inv(e) && id in e.book.handles
    ensures HandleOk(e.limits, e.book.handles[id]) && e.limits.retained > 0 && BookOk(e.book, e.limits, e.closed, {})
  {
  }

  lemma {:induction false} AcceptKeeps(e: Endpoint, id: nat, now: Span, deadline: GoInt)
    requires Inv(e)
    ensures Inv(Accept(e, id, now, deadline)) && Older(e.book, Accept(e, id, now, deadline).book)
  {
    hide Within;
  }

  /** Replacing one handle without touching its times. */
  lemma {:induction false} ReplaceStep(e: Endpoint, id: nat, h: Handle, retained: set<nat>)
    requires Inv(e) && id in e.book.handles && HandleOk(e.limits, h) && SameTimes(e.book.handles[id], h)
    requires (retained == e.book.retained && (id in retained || !Keeps(h)) && h.lifecycle != Active) || (retained == e.book.retained - {id} && !Keeps(h))
    ensures var f := e.(book := Book(e.book.handles[id := h], retained)); Inv(f) && Older(e.book, f.book) && Quiet(e.book, f.book)
  {
    hide BookOk, Within, HandleOk, WaitOk, Older, RetryModel.ValidLimits, Keeps;
    ReplaceKeeps(e.book, e.limits, e.closed, id, h, retained);
    var f := e.(book := Book(e.book.handles[id := h], retained));
    assert Quiet(e.book, f.book);
    QuietStep(e, f);
  }

  lemma {:induction false} FinishKeeps(e: Endpoint, id: nat)
    requires Inv(e)
    ensures Inv(Finish(e, id)) && Older(e.book, Finish(e, id).book) && Quiet(e.book, Finish(e, id).book)
  {
    QuietSelf(e.book);
    if id in e.book.handles && e.book.handles[id].lifecycle == Active {
      HandleIs(e, id);
      hide BookOk, Quiet, WaitOk, Within, Older, RetryModel.ValidLimits;
      ReplaceStep(e, id, e.book.handles[id].(lifecycle := Terminal), e.book.retained);
    }
  }

  lemma {:induction false} TrackedKeeps(e: Endpoint, id: nat, h: Handle, now: GoInt, f: Endpoint)
    requires Inv(e) && id in e.book.handles && HandleOk(e.limits, h) && SameTimes(e.book.handles[id], h) && h.lifecycle != Active
    requires f == e.(book := Put(e.book, id, h), required := f.required, ready := f.ready, backoff := f.backoff) && Within(e.limits.backoff, f.backoff)
    ensures Inv(Tracked(f, id, now)) && Older(e.book, Tracked(f, id, now).book) && Quiet(e.book, Tracked(f, id, now).book)
  {
    HandleIs(e, id);
    hide BookOk, Within, Quiet, Track, HandleOk, SameTimes, WaitOk, Older, RetryModel.ValidLimits;
    SetAndTrack(e.book, e.limits, e.closed, id, h, now);
    QuietStep(e, Tracked(f, id, now));
  }

  lemma {:induction false} FailKeeps(e: Endpoint, id: nat, now: GoInt, retryable: bool, required: bool)
    requires Inv(e)
    ensures var f := Fail(e, id, now, retryable, required); Inv(f) && Older(e.book, f.book) && Quiet(e.book, f.book)
  {
    QuietSelf(e.book);
    if id in e.book.handles {
      HandleIs(e, id);
      var h := e.book.handles[id].(lifecycle := if retryable then Retryable else Terminal, required := required, satisfied := false);
      var t := e.(book := Put(e.book, id, h));
      hide BookOk, Within, Quiet, Track, WaitOk, Older, RetryModel.ValidLimits;
      TrackedKeeps(e, id, h, now, if retryable && required then t.(required := true, ready := false) else t);
    }
  }

  lemma {:induction false} GiveUpKeeps(e: Endpoint, id: nat, now: GoInt)
    requires Inv(e) && id in e.book.handles
    ensures var f := GiveUp(e, id, now); Inv(f) && Older(e.book, f.book) && Quiet(e.book, f.book)
  {
    HandleIs(e, id);
    hide BookOk, Quiet, Track, WaitOk, Older, RetryModel.ValidLimits;
    var h := e.book.handles[id].(lifecycle := Terminal, satisfied := false);
    TrackedKeeps(e, id, h, now, e.(book := Put(e.book, id, h)));
  }

  lemma {:induction false} CancelKeeps(e: Endpoint, id: nat, whole: bool)
    requires Inv(e)
    ensures var f := Cancel(e, id, whole); Inv(f) && Older(e.book, f.book) && Quiet(e.book, f.book)
  {
    QuietSelf(e.book);
    if id in e.book.handles && id in e.book.retained {
      HandleIs(e, id);
      hide BookOk, Quiet, WaitOk, Within, Older, RetryModel.ValidLimits;
      var h := e.book.handles[id];
      if h.lifecycle == Retryable || h.lifecycle == Retrying {
        if !whole {
          ReplaceStep(e, id, h.(lifecycle := Retryable), e.book.retained);
        } else {
          ReplaceStep(e, id, h.(lifecycle := Terminal, satisfied := false), if h.required then e.book.retained else e.book.retained - {id});
        }
      }
    }
  }

  // ---------- Trying again ----------

  lemma {:induction false} BeginRetryKeeps(e: Endpoint, id: nat, now: GoInt)
    requires Inv(e)
    ensures var f := BeginRetry(e, id, now).0; Inv(f) && Older(e.book, f.book) && Quiet(e.book, f.book)
  {
    QuietSelf(e.book);
    OlderSelf(e.book);
    if id in e.book.handles && e.book.handles[id].lifecycle == Retryable {
      HandleIs(e, id);
      hide BookOk, Quiet, Track, WaitOk, Older, Within, RetryModel.ValidLimits;
      var h := e.book.handles[id];
      if h.waiting {
      } else if h.retries >= e.limits.retries {
        TrackedKeeps(e, id, Dead(h), now, e.(book := Put(e.book, id, Dead(h))));
      } else if h.required && !h.satisfied {
      } else if Overdue(h, now) {
        TrackedKeeps(e, id, h.(lifecycle := Terminal), now, e.(book := Put(e.book, id, h.(lifecycle := Terminal))));
      } else {
        TrackedKeeps(e, id, h.(lifecycle := Retrying), now, e.(book := Put(e.book, id, h.(lifecycle := Retrying))));
      }
    }
  }

  lemma {:induction false} TrackAsIs(b: Book, l: Limits, closed: bool, id: nat, now: GoInt)
    requires BookOk(b, l, closed, {}) && id in b.handles && l.retained > 0
    ensures var c := Track(b, id, now, l.retained, closed); BookOk(c, l, closed, {}) && Quiet(b, c)
  {
    if b.handles[id].lifecycle == Active {
      assert id !in b.retained;
      assert b.retained - {id} == b.retained;
    } else {
      assert Remembered(b, closed, {id});
      hide Remembered, Handles, Track, Quiet;
      TrackKeeps(b, l, closed, id, now);
    }
  }

  lemma {:induction false} RestoreKeeps(e: Endpoint, id: nat, now: GoInt, later: GoInt)
    requires Inv(e) && id in e.book.handles
    ensures var f := Restore(e, id, now, later); Inv(f) && Older(e.book, f.book) && Quiet(e.book, f.book)
  {
    HandleIs(e, id);
    hide BookOk, Quiet, Track, WaitOk, Older, Within, RetryModel.ValidLimits;
    var h := e.book.handles[id];
    if h.lifecycle != Retrying {
      TrackAsIs(e.book, e.limits, e.closed, id, later);
      QuietStep(e, Tracked(e, id, later));
    } else {
      var g := h.(lifecycle := if Overdue(h, now) then Terminal else Retryable);
      TrackedKeeps(e, id, g, later, e.(book := Put(e.book, id, g)));
    }
  }

  lemma {:induction false} Readmit(e: Endpoint, id: nat)
    requires Inv(e) && id in e.book.handles && e.book.handles[id].lifecycle == Retrying
    ensures var h := e.book.handles[id];
            var f := e.(book := Book(e.book.handles[id := h.(lifecycle := Active, retries := h.retries + 1, required := false, satisfied := false)],
                                     e.book.retained - {id}));
            Inv(f) && Older(e.book, f.book) && Quiet(e.book, f.book)
  {
    HandleIs(e, id);
    var h := e.book.handles[id].(lifecycle := Active, retries := e.book.handles[id].retries + 1, required := false, satisfied := false);
    ReplaceKeeps(e.book, e.limits, e.closed, id, h, e.book.retained - {id});
    hide BookOk, Within, RetryModel.ValidLimits;
  }

  lemma {:induction false} OlderSelf(b: Book)
    ensures Older(b, b)
  {
  }

  lemma {:induction false} EndRetryKeeps(e: Endpoint, id: nat, now: GoInt, scheduled: bool, later: GoInt)
    requires Inv(e)
    ensures var f := EndRetry(e, id, now, scheduled, later).0; Inv(f) && Older(e.book, f.book) && Quiet(e.book, f.book)
  {
    hide Inv, Older, Restore, Quiet;
    OlderSelf(e.book);
    QuietSelf(e.book);
    if id in e.book.handles {
      if scheduled && !e.closed && id in e.book.retained && e.book.handles[id].lifecycle == Retrying {
        Readmit(e, id);
      } else {
        RestoreKeeps(e, id, now, later);
      }
    }
  }

  // ---------- Waiting ----------

  lemma {:induction false} StartWait(e: Endpoint, id: nat, before: Span, delay: Span, s: State)
    requires Inv(e) && id in e.book.handles && e.pending.None? && Within(e.limits.backoff, s)
    requires e.limits.backoff.floor <= delay <= e.limits.backoff.ceiling
    requires e.book.handles[id].lifecycle != Active && (id in e.book.retained || !Keeps(e.book.handles[id]))
    requires e.book.handles[id].lifecycle != Terminal ==> before + e.book.handles[id].debt + delay < e.book.handles[id].deadline
    ensures var h := e.book.handles[id];
            var f := e.(backoff := s, book := Put(e.book, id, h.(waiting := true)),
                        pending := Some(Wait(id, before, delay, h.lifecycle == Terminal)));
            Inv(f) && Older(e.book, f.book)
  {
    HandleIs(e, id);
    var h := e.book.handles[id].(waiting := true);
    ReplaceKeeps(e.book, e.limits, e.closed, id, h, e.book.retained);
    hide BookOk, Within, RetryModel.ValidLimits, HandleOk;
  }

  /** A request that may wait is one the endpoint remembers, and it remembers none once closed. */
  lemma {:induction false} WaiterIsKept(e: Endpoint, id: nat)
    requires Inv(e) && id in e.book.handles && MayWait(e.book.handles[id])
    ensures id in e.book.retained && !e.closed && Keeps(e.book.handles[id])
  {
    hide Within, WaitOk, HandleOk;
  }

  lemma {:induction false} CloseKeeps(e: Endpoint)
    requires Inv(e)
    ensures Inv(Close(e)) && Older(e.book, Close(e).book) && Quiet(e.book, Close(e).book)
  {
    QuietSelf(e.book);
    OlderSelf(e.book);
    if !e.closed {
      CloseBook(e);
      hide BookOk, Within, WaitOk, Older, RetryModel.ValidLimits, Quiet, HandleOk;
      QuietStep(e, Close(e));
    }
  }

  lemma {:induction false} CloseBook(e: Endpoint)
    requires Inv(e) && !e.closed
    ensures BookOk(Close(e).book, e.limits, true, {}) && Quiet(e.book, Close(e).book)
  {
    hide Within, WaitOk;
    var c := Close(e).book;
    forall id | id in c.handles
      ensures HandleOk(e.limits, c.handles[id]) && SameTimes(e.book.handles[id], c.handles[id]) && !Keeps(c.handles[id])
    {
      assert HandleOk(e.limits, e.book.handles[id]);
    }
  }

  lemma {:induction false} TakeDelayKeeps(e: Endpoint, id: nat, before: Span, s: State, next: Next)
    requires Inv(e) && id in e.book.handles && MayWait(e.book.handles[id]) && Within(e.limits.backoff, s) && e.pending.None?
    requires next.Delay? ==> e.limits.backoff.floor <= next.delay <= e.limits.backoff.ceiling
    requires next.Delay? && e.book.handles[id].lifecycle == Retryable ==> before + e.book.handles[id].debt + next.delay < e.book.handles[id].deadline
    requires next.Delay? ==> next.delay >= 0
    ensures var f := TakeDelay(e, id, before, s, next).0; Inv(f) && Older(e.book, f.book)
  {
    WaiterIsKept(e, id);
    hide Inv, Older, Within, Quiet, Close, GiveUp;
    if next == AttemptsSpent {
      CloseKeeps(e);
    } else if !next.Delay? {
      GiveUpWith(e, id, before, s);
    } else {
      StartWait(e, id, before, next.delay, s);
    }
  }

  lemma {:induction false} BeginWaitKeeps(e: Endpoint, id: nat, before: GoInt, jitter: GoInt, reset: bool)
    requires Inv(e)
    ensures var f := BeginWait(e, id, before, jitter, reset).0; Inv(f) && Older(e.book, f.book)
  {
    OlderSelf(e.book);
    if id in e.book.handles && MayWait(e.book.handles[id]) && e.required && (e.pending.None? || e.closed) {
      WaiterIsKept(e, id);
      hide BookOk, WaitOk, Older, Within, Quiet, GiveUp, TakeDelay;
      var h := e.book.handles[id];
      if before < 0 || h.debt > MAX_INT - before || (h.lifecycle == Retryable && h.deadline <= before + h.debt) {
        GiveUpKeeps(e, id, before);
      } else {
        var remaining := Remaining(h, e.limits.window, before);
        DelayFits(e.limits.backoff, e.backoff, remaining, jitter, reset);
        var (s, next) := NextBefore(e.limits.backoff, e.backoff, remaining, jitter, reset);
        hide NextBefore, Doubled;
        TakeDelayKeeps(e, id, before, s, next);
      }
    }
  }

  lemma {:induction false} GiveUpWith(e: Endpoint, id: nat, now: GoInt, s: State)
    requires Inv(e) && id in e.book.handles && Within(e.limits.backoff, s)
    ensures var f := GiveUp(e.(backoff := s), id, now); Inv(f) && Older(e.book, f.book)
  {
    hide BookOk, WaitOk, Older, Within, Quiet, GiveUp, RetryModel.ValidLimits;
    GiveUpKeeps(e.(backoff := s), id, now);
  }

  lemma {:induction false} UnwaitKeeps(e: Endpoint)
    requires Inv(e)
    ensures Inv(Unwait(e)) && Older(e.book, Unwait(e).book) && Unwait(e).pending.None?
    ensures Unwait(e).book.retained == e.book.retained && Unwait(e).book.handles.Keys == e.book.handles.Keys
  {
    OlderSelf(e.book);
    if e.pending.Some? {
      hide BookOk, Within, RetryModel.ValidLimits, HandleOk;
      var id := e.pending.value.id;
      UnwaitBook(e.book, e.limits, e.closed, id, e.book.handles[id].(waiting := false));
    }
  }

  lemma {:induction false} UnwaitBook(b: Book, l: Limits, closed: bool, id: nat, h: Handle)
    requires BookOk(b, l, closed, {}) && id in b.handles && h == b.handles[id].(waiting := h.waiting)
    ensures BookOk(Put(b, id, h), l, closed, {})
  {
    assert HandleOk(l, b.handles[id]);
  }

  lemma {:induction false} SettledOk(l: Limits, h: Handle, after: Span, extra: Span, delay: nat)
    requires HandleOk(l, h)
    ensures var g := Settled(h, after, extra, delay);
            && HandleOk(l, g) && g.deadline == h.deadline && g.born == h.born && g.waiting == h.waiting && g.retries == h.retries
            && h.debt <= g.debt && h.charged <= g.charged && (g.lifecycle == Active <==> h.lifecycle == Active)
            && (Keeps(g) ==> Keeps(h) && !(h.required && g.lifecycle == Terminal))
  {
  }

  lemma {:induction false} SettledAny(h: Handle, after: Span, extra: Span, m: nat, n: nat)
    ensures Settled(h, after, extra, m).lifecycle == Settled(h, after, extra, n).lifecycle
  {
  }

  lemma {:induction false} SettleKeeps(b: Book, l: Limits, closed: bool, after: Span, extra: Span, w: Wait)
    requires BookOk(b, l, closed, {})
    ensures BookOk(SettledBook(b, after, extra, w), l, closed, {}) && Older(b, SettledBook(b, after, extra, w))
    ensures WaitOk(l, b.handles, None) ==> WaitOk(l, SettledBook(b, after, extra, w).handles, None)
  {
    var c := SettledBook(b, after, extra, w);
    hide Settled, HandleOk;
    Fewer(b.retained, c.retained);
    forall id | id in b.handles
      ensures HandleOk(l, c.handles[id]) && c.handles[id].waiting == b.handles[id].waiting
      ensures c.handles[id].deadline == b.handles[id].deadline && c.handles[id].born == b.handles[id].born
      ensures b.handles[id].debt <= c.handles[id].debt && b.handles[id].charged <= c.handles[id].charged && b.handles[id].retries <= c.handles[id].retries
      ensures Keeps(c.handles[id]) ==> id in c.retained
      ensures id in c.retained ==> c.handles[id].lifecycle != Active
    {
      assert HandleOk(l, b.handles[id]);
      var delay := Cost(w, b.handles[id]);
      SettledOk(l, b.handles[id], after, extra, delay);
      SettledAny(b.handles[id], after, extra, delay, 0);
    }
  }

  lemma {:induction false} CompleteKeeps(e: Endpoint, after: Span, extra: Span, w: Wait)
    requires Inv(e) && e.pending.None?
    ensures Inv(Complete(e, after, extra, w)) && Older(e.book, Complete(e, after, extra, w).book)
  {
    hide BookOk, Within, WaitOk, Older, SettledBook;
    SettleKeeps(e.book, e.limits, e.closed, after, extra, w);
  }

  lemma {:induction false} FinishWaitKeeps(e: Endpoint, after: GoInt)
    requires Inv(e)
    ensures Inv(FinishWait(e, after)) && Older(e.book, FinishWait(e, after).book)
  {
    OlderSelf(e.book);
    if e.pending.Some? {
      var w, u := e.pending.value, Unwait(e);
      UnwaitKeeps(e);
      hide BookOk, Within, WaitOk, Older, Unwait, Quiet, Complete, GiveUp;
      if after < w.before {
        GiveUpKeeps(u, w.id, after);
        OlderTwice(e.book, u.book, GiveUp(u, w.id, after).book);
      } else {
        var extra, h := Shortfall(w.before, after, w.delay), u.book.handles[w.id];
        if (h.lifecycle == Retryable || h.lifecycle == Terminal) && h.required && extra > MAX_INT - h.debt {
          OverflowKeeps(u, w, after, extra);
          OlderTwice(e.book, u.book, FinishWait(e, after).book);
        } else {
          CompleteKeeps(u, after, extra, w);
          OlderTwice(e.book, u.book, Complete(u, after, extra, w).book);
        }
      }
    }
  }

  lemma {:induction false} OverflowKeeps(u: Endpoint, w: Wait, after: Span, extra: Span)
    requires Inv(u) && u.pending.None? && w.id in u.book.handles
    ensures var c := Complete(u.(book := Put(u.book, w.id, Dead(u.book.handles[w.id]))), after, extra, w);
            w.id in c.book.handles && Inv(Tracked(c, w.id, after)) && Older(u.book, Tracked(c, w.id, after).book)
  {
    var h := Dead(u.book.handles[w.id]);
    var v := u.(book := Put(u.book, w.id, h));
    HandleIs(u, w.id);
    hide BookOk, Within, WaitOk, Older, Quiet, SettledBook, RetryModel.ValidLimits, Track;
    ReplaceStep(u, w.id, h, u.book.retained);
    CompleteKeeps(v, after, extra, w);
    var c := Complete(v, after, extra, w);
    OlderTwice(u.book, v.book, c.book);
    StillKnown(v.book, c.book, w.id);
    HandleIs(c, w.id);
    TrackAsIs(c.book, c.limits, c.closed, w.id, after);
    QuietStep(c, Tracked(c, w.id, after));
    OlderTwice(u.book, c.book, Tracked(c, w.id, after).book);
  }

  lemma {:induction false} StillKnown(b: Book, c: Book, id: nat)
    requires Older(b, c) && id in b.handles
    ensures id in c.handles
  {
  }

  // ---------- What a wait costs ----------

  /** What the end of a wait does to each retained request. */
  lemma {:induction false} FinishHandle(e: Endpoint, after: Span, id: nat)
    requires Inv(e) && e.pending.Some? && e.pending.value.before <= after && id in e.book.retained
    ensures var w := e.pending.value;
            var h := e.book.handles[id].(waiting := false);
            var extra := Shortfall(w.before, after, w.delay);
            && id in FinishWait(e, after).book.handles
            && FinishWait(e, after).book.handles[id] in {Dead(h), Settled(h, after, extra, Cost(w, h))}
            && (id != w.id || extra <= MAX_INT - h.debt ==>
                  FinishWait(e, after).book.handles[id] == Settled(h, after, extra, Cost(w, h)))
  {
    var w, u := e.pending.value, Unwait(e);
    Unwaited(e, id);
    UnwaitKeeps(e);
    hide BookOk, Within, WaitOk, Older, Unwait, Settled;
    var extra, g := Shortfall(w.before, after, w.delay), u.book.handles[w.id];
    if (g.lifecycle == Retryable || g.lifecycle == Terminal) && g.required && extra > MAX_INT - g.debt {
      var b := Put(u.book, w.id, Dead(g));
      var c := SettledBook(b, after, extra, w);
      assert c.handles[w.id] == Dead(g) by {
        SettledDead(g, after, extra, w.delay);
        SettledDead(g, after, extra, 0);
      }
      TrackDead(c, w.id, after, e.limits.retained, e.closed);
    }
  }

  lemma {:induction false} Unwaited(e: Endpoint, id: nat)
    requires Inv(e) && e.pending.Some? && id in e.book.retained
    ensures id in e.book.handles && id in Unwait(e).book.handles && Unwait(e).book.handles[id] == e.book.handles[id].(waiting := false)
    ensures e.pending.value.id in e.book.handles && Unwait(e).book.handles[e.pending.value.id] == e.book.handles[e.pending.value.id].(waiting := false)
    ensures Unwait(e).closed == e.closed && Unwait(e).limits == e.limits
  {
    hide Within;
  }

  lemma {:induction false} SettledDead(h: Handle, after: Span, extra: Span, delay: nat)
    ensures Settled(Dead(h), after, extra, delay) == Dead(h)
  {
  }

  lemma {:induction false} TrackDead(b: Book, id: nat, now: GoInt, limit: nat, closed: bool)
    requires id in b.handles && b.handles[id].lifecycle == Terminal && !b.handles[id].required
    ensures Track(b, id, now, limit, closed) == b.(retained := b.retained - {id})
  {
  }

  lemma {:induction false} KeptIfRetryable(e: Endpoint, id: nat)
    requires Inv(e) && id in e.book.handles && e.book.handles[id].lifecycle == Retryable
    ensures id in e.book.retained
  {
  }

  /**
   A request whose wait is satisfied has paid for it: the time it sees has moved on to the end of the delay, however
   early the waiter returned, and it still lies before the deadline.
   */
  lemma {:induction false} WaitIsPaid(e: Endpoint, after: Span, id: nat)
    requires Inv(e) && e.pending.Some? && e.pending.value.before <= after && id in e.book.handles
    requires e.book.handles[id].lifecycle == Retryable && e.book.handles[id].required
    requires id in FinishWait(e, after).book.handles && FinishWait(e, after).book.handles[id].lifecycle == Retryable
    ensures var w, h, g := e.pending.value, e.book.handles[id], FinishWait(e, after).book.handles[id];
            && g.satisfied && g.deadline == h.deadline && after + g.debt < g.deadline
            && after + g.debt == h.debt + (if after < w.before + w.delay then w.before + w.delay else after)
  {
    KeptIfRetryable(e, id);
    hide Inv, FinishWait;
    FinishHandle(e, after, id);
  }

  /** The waiting request is served exactly when its deadline had not passed on return: the delay always fitted. */
  lemma {:induction false} WaitServesIff(e: Endpoint, after: Span)
    requires Inv(e) && e.pending.Some? && e.pending.value.before <= after && !e.pending.value.recovery
    requires var h := e.book.handles[e.pending.value.id]; h.lifecycle == Retryable && h.required
    ensures var id := e.pending.value.id;
            var h := e.book.handles[id];
            && id in FinishWait(e, after).book.handles
            && (FinishWait(e, after).book.handles[id].lifecycle == Retryable <==> after + h.debt < h.deadline)
  {
    var w := e.pending.value;
    KeptIfRetryable(e, w.id);
    assert w.before + e.book.handles[w.id].debt + w.delay < e.book.handles[w.id].deadline;
    hide Inv, FinishWait;
    FinishHandle(e, after, w.id);
  }

  // ---------- Connections ----------

  lemma {:induction false} FlagsKeep(e: Endpoint, f: Endpoint)
    requires Inv(e) && f == e.(required := f.required, ready := f.ready, backoff := f.backoff) && f.backoff in {e.backoff, e.backoff.(attempt := 0)}
    ensures Inv(f) && Older(e.book, f.book) && Quiet(e.book, f.book)
  {
    OlderSelf(e.book);
    QuietSelf(e.book);
    hide BookOk, WaitOk, Older, Quiet;
  }

  // ---------- Runs ----------

  datatype Act =
    | DoAccept(id: nat, deadline: GoInt)
    | DoFinish(id: nat)
    | DoFail(id: nat, retryable: bool, required: bool)
    | DoCancel(id: nat, whole: bool)
    | DoBeginRetry(id: nat)
    | DoEndRetry(id: nat, scheduled: bool, later: GoInt)
    | DoBeginWait(id: nat, jitter: GoInt, reset: bool)
    | DoAbortWait
    | DoFinishWait
    | DoMarkRequired
    | DoOpen
    | DoRespond
    | DoClose

  /** One step and what the clock shows as it is taken. */
  datatype Op = Op(now: GoInt, act: Act)

  ghost function Step(e: Endpoint, op: Op): Endpoint
    requires RetryModel.ValidLimits(e.limits)
  {
    match op.act
    case DoAccept(id, deadline) => if op.now < 0 then e else Accept(e, id, op.now, deadline)
    case DoFinish(id) => Finish(e, id)
    case DoFail(id, retryable, required) => Fail(e, id, op.now, retryable, required)
    case DoCancel(id, whole) => Cancel(e, id, whole)
    case DoBeginRetry(id) => BeginRetry(e, id, op.now).0
    case DoEndRetry(id, scheduled, later) => EndRetry(e, id, op.now, scheduled, later).0
    case DoBeginWait(id, jitter, reset) => BeginWait(e, id, op.now, jitter, reset).0
    case DoAbortWait => Unwait(e)
    case DoFinishWait => FinishWait(e, op.now)
    case DoMarkRequired => MarkRequired(e)
    case DoOpen => Open(e).0
    case DoRespond => Respond(e)
    case DoClose => Close(e)
  }

  lemma {:induction false} StepKeeps(e: Endpoint, op: Op)
    requires Inv(e)
    ensures Inv(Step(e, op)) && Older(e.book, Step(e, op).book)
  {
    hide BookOk, Within, WaitOk, Older, Quiet, Accept, Finish, Fail, Cancel, BeginRetry, EndRetry, BeginWait, Unwait, FinishWait, Close;
    OlderSelf(e.book);
    match op.act
    case DoAccept(id, deadline) => if op.now >= 0 { AcceptKeeps(e, id, op.now, deadline); }
    case DoFinish(id) => FinishKeeps(e, id);
    case DoFail(id, retryable, required) => FailKeeps(e, id, op.now, retryable, required);
    case DoCancel(id, whole) => CancelKeeps(e, id, whole);
    case DoBeginRetry(id) => BeginRetryKeeps(e, id, op.now);
    case DoEndRetry(id, scheduled, later) => EndRetryKeeps(e, id, op.now, scheduled, later);
    case DoBeginWait(id, jitter, reset) => BeginWaitKeeps(e, id, op.now, jitter, reset);
    case DoAbortWait => UnwaitKeeps(e);
    case DoFinishWait => FinishWaitKeeps(e, op.now);
    case DoMarkRequired => FlagsKeep(e, MarkRequired(e));
    case DoOpen => FlagsKeep(e, Open(e).0);
    case DoRespond => FlagsKeep(e, Respond(e));
    case DoClose => CloseKeeps(e);
  }

  ghost function Run(e: Endpoint, ops: seq<Op>): Endpoint
    requires Inv(e)
    decreases |ops|
  {
    if ops == [] then e
    else
      StepKeeps(e, ops[0]);
      Run(Step(e, ops[0]), ops[1..])
  }

  function Fresh(l: Limits): Endpoint {
    Endpoint(l, Book(map[], {}), false, false, false, None, State(0, []))
  }

  lemma {:induction false} FreshInv(l: Limits)
    requires RetryModel.ValidLimits(l)
    ensures Inv(Fresh(l))
  {
  }

  lemma {:induction false} RunKeeps(e: Endpoint, ops: seq<Op>)
    requires Inv(e)
    ensures Inv(Run(e, ops)) && Older(e.book, Run(e, ops).book)
    decreases |ops|
  {
    hide BookOk, Within, WaitOk, Older, Step;
    OlderSelf(e.book);
    if ops != [] {
      StepKeeps(e, ops[0]);
      RunKeeps(Step(e, ops[0]), ops[1..]);
      OlderTwice(e.book, Step(e, ops[0]).book, Run(e, ops).book);
    }
  }

  /** Whatever happens, the endpoint remembers no more requests than may be in flight, every one that may still be tried again among them; retries are bounded, and at most one request waits. */
  lemma {:induction false} MemoryIsBounded(l: Limits, ops: seq<Op>)
    requires RetryModel.ValidLimits(l)
    ensures Inv(Fresh(l))
    ensures var e := Run(Fresh(l), ops);
            && |e.book.retained| <= l.retained
            && (forall id :: id in e.book.handles && (e.book.handles[id].lifecycle == Retryable || e.book.handles[id].lifecycle == Retrying) ==> id in e.book.retained)
            && (forall id :: id in e.book.handles ==> e.book.handles[id].retries <= l.retries)
            && (forall i, j :: i in e.book.handles && j in e.book.handles && e.book.handles[i].waiting && e.book.handles[j].waiting ==> i == j)
  {
    FreshInv(l);
    RunKeeps(Fresh(l), ops);
    RunLimits(Fresh(l), ops);
    hide Run, Within;
  }

  lemma {:induction false} StepLimits(e: Endpoint, op: Op)
    requires RetryModel.ValidLimits(e.limits)
    ensures Step(e, op).limits == e.limits
  {
    hide Track, NextBefore, SettledBook, Put, AllEnded, RetryModel.ValidLimits, ValidConfig, BeginWait, FinishWait;
    match op.act
    case DoBeginWait(id, jitter, reset) => BeginWaitLimits(e, id, op.now, jitter, reset);
    case DoFinishWait => FinishWaitLimits(e, op.now);
    case _ =>
  }

  lemma {:induction false} BeginWaitLimits(e: Endpoint, id: nat, before: GoInt, jitter: GoInt, reset: bool)
    requires RetryModel.ValidLimits(e.limits)
    ensures BeginWait(e, id, before, jitter, reset).0.limits == e.limits
  {
    hide Track, NextBefore, Put, AllEnded;
  }

  lemma {:induction false} FinishWaitLimits(e: Endpoint, after: GoInt)
    ensures FinishWait(e, after).limits == e.limits
  {
    hide Track, SettledBook, Put;
  }

  lemma {:induction false} WaiterKnown(e: Endpoint)
    requires Inv(e)
    ensures e.pending.Some? ==> e.pending.value.id in e.book.handles
  {
  }

  lemma {:induction false} RunLimits(e: Endpoint, ops: seq<Op>)
    requires Inv(e)
    ensures Run(e, ops).limits == e.limits
    decreases |ops|
  {
    hide Within, BookOk, WaitOk;
    if ops != [] {
      StepKeeps(e, ops[0]);
      StepLimits(e, ops[0]);
      hide Step;
      RunLimits(Step(e, ops[0]), ops[1..]);
    }
  }

  /** The deadline a request really has never moves back, from any state on and through any run. */
  lemma {:induction false} DeadlineNeverGrows(e: Endpoint, ops: seq<Op>, id: nat)
    requires Inv(e) && id in e.book.handles
    ensures id in Run(e, ops).book.handles && EffectiveDeadline(e.book.handles[id]).Some? && EffectiveDeadline(Run(e, ops).book.handles[id]).Some?
    ensures EffectiveDeadline(Run(e, ops).book.handles[id]).value <= EffectiveDeadline(e.book.handles[id]).value
  {
    hide Run, Within, WaitOk;
    RunKeeps(e, ops);
    HandleIs(e, id);
    HandleIs(Run(e, ops), id);
  }
}
