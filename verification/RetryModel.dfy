/** Requests that may be tried again: one absolute deadline each, brought forward by clock debt. */
module RetryModel {
  import opened Common
  import opened Backoff

  /** A duration that is not negative, as clock debts, delays and valid clock readings are. */
  type Span = x: int | 0 <= x <= MAX_INT

  datatype Lifecycle = Active | Retryable | Retrying | Terminal

  /** The last two fields are history: when the request was accepted, and the delays it has waited for since. */
  datatype Handle = Handle(
    deadline: GoInt, lifecycle: Lifecycle, required: bool, satisfied: bool, waiting: bool, debt: Span, retries: nat, born: Span, charged: nat)

  datatype Wait = Wait(id: nat, before: Span, delay: Span, recovery: bool)

  /** What a wait makes a request wait for, written into its history: the delay, or what was left of it on acceptance. */
  function Cost(w: Wait, h: Handle): nat {
    if h.born <= w.before then w.delay else if h.born <= w.before + w.delay then w.before + w.delay - h.born else 0
  }

  datatype Limits = Limits(retained: nat, retries: nat, window: GoInt, backoff: Config)

  predicate ValidLimits(l: Limits) {
    l.retained > 0 && l.window > 0 && ValidConfig(l.backoff)
  }

  datatype Book = Book(handles: map<nat, Handle>, retained: set<nat>)

  datatype Endpoint = Endpoint(limits: Limits, book: Book, required: bool, ready: bool, closed: bool, pending: Option<Wait>, backoff: State)

  // ---------- One handle ----------

  function EffectiveDeadline(h: Handle): Option<GoInt> {
    if h.deadline <= 0 || h.debt >= h.deadline then None else Some(h.deadline - h.debt)
  }

  predicate Overdue(h: Handle, now: GoInt) {
    var deadline := EffectiveDeadline(h);
    deadline.None? || now >= deadline.value
  }

  function Dead(h: Handle): Handle {
    h.(lifecycle := Terminal, required := false, satisfied := false)
  }

  /** Which handles the endpoint has to remember. */
  predicate Keeps(h: Handle) {
    h.lifecycle == Retryable || h.lifecycle == Retrying || (h.lifecycle == Terminal && h.required)
  }

  function Pruned(h: Handle, now: GoInt): Handle {
    if h.lifecycle == Retryable && Overdue(h, now) then h.(lifecycle := Terminal, satisfied := false) else h
  }

  /** What the end of a wait does to a retained handle; `delay` is only written into the history. */
  function Settled(h: Handle, after: Span, extra: Span, delay: nat): Handle {
    if !h.required then h
    else if h.lifecycle == Terminal then h.(required := false, satisfied := false)
    else if h.lifecycle != Retryable then h
    else if extra > MAX_INT - h.debt then Dead(h)
    else if h.debt + extra > MAX_INT - after || after + (h.debt + extra) >= h.deadline then Dead(h)
    else h.(debt := h.debt + extra, satisfied := true, charged := h.charged + delay)
  }

  // ---------- The retained handles ----------

  function Put(b: Book, id: nat, h: Handle): Book {
    b.(handles := b.handles[id := h])
  }

  /** Overdue handles end; of the retained ones only those with something left to do stay. */
  function Prune(b: Book, now: GoInt): Book {
    if now < 0 then b
    else
      Book(map id | id in b.handles :: if id in b.retained then Pruned(b.handles[id], now) else b.handles[id],
           set id | id in b.retained && id in b.handles
                    && !(Pruned(b.handles[id], now).lifecycle == Terminal && !Pruned(b.handles[id], now).required))
  }

  function Evictable(b: Book): set<nat> {
    set id | id in b.retained && id in b.handles && !b.handles[id].required
  }

  ghost function Least(ids: set<nat>): (id: nat)
    requires ids != {}
    ensures id in ids && forall other :: other in ids ==> id <= other
    decreases |ids|
  {
    var id :| id in ids;
    if ids == {id} then id
    else
      var other := Least(ids - {id});
      assert forall x :: x in ids && x != id ==> x in ids - {id};
      if id < other then id else other
  }

  /** Makes room by giving up the oldest handle that owes no wait; a handle that cannot be kept ends. */
  ghost function Retain(b: Book, id: nat, limit: nat): Book
    requires id in b.handles
  {
    if id in b.retained || |b.retained| < limit then b.(retained := b.retained + {id})
    else if b.handles[id].required && Evictable(b) != {} then
      var victim := Least(Evictable(b));
      Book(b.handles[victim := Dead(b.handles[victim])], b.retained - {victim} + {id})
    else Put(b, id, Dead(b.handles[id]))
  }

  ghost function Track(b: Book, id: nat, now: GoInt, limit: nat, closed: bool): Book
    requires id in b.handles
  {
    var p := if b.handles[id].lifecycle == Retryable then Prune(b, now) else b;
    var h := p.handles[id];
    if b.handles[id].lifecycle == Retryable || Keeps(h) then
      if closed then p.(handles := p.handles[id := Dead(h)], retained := p.retained - {id}) else Retain(p, id, limit)
    else p.(retained := p.retained - {id})
  }

  // ---------- Requests ----------

  /** A new request, accepted at `now` with a deadline still ahead. */
  function Accept(e: Endpoint, id: nat, now: Span, deadline: GoInt): Endpoint {
    if id in e.book.handles || e.closed || deadline <= now then e
    else e.(book := Put(e.book, id, Handle(deadline, Active, false, false, false, 0, 0, now, 0)))
  }

  function Finish(e: Endpoint, id: nat): Endpoint {
    if id !in e.book.handles || e.book.handles[id].lifecycle != Active then e
    else e.(book := Put(e.book, id, e.book.handles[id].(lifecycle := Terminal)))
  }

  ghost function Tracked(e: Endpoint, id: nat, now: GoInt): Endpoint
    requires id in e.book.handles
  {
    e.(book := Track(e.book, id, now, e.limits.retained, e.closed))
  }

  /** A request lost its connection or its write. */
  ghost function Fail(e: Endpoint, id: nat, now: GoInt, retryable: bool, required: bool): Endpoint {
    if id !in e.book.handles then e
    else
      var h := e.book.handles[id].(lifecycle := if retryable then Retryable else Terminal, required := required, satisfied := false);
      var t := e.(book := Put(e.book, id, h));
      Tracked(if retryable && required then t.(required := true, ready := false) else t, id, now)
  }

  ghost function GiveUp(e: Endpoint, id: nat, now: GoInt): Endpoint
    requires id in e.book.handles
  {
    Tracked(e.(book := Put(e.book, id, e.book.handles[id].(lifecycle := Terminal, satisfied := false))), id, now)
  }

  /** The caller drops the request, or one of several reads of it. */
  function Cancel(e: Endpoint, id: nat, whole: bool): Endpoint {
    if id !in e.book.handles || id !in e.book.retained then e
    else
      var h := e.book.handles[id];
      if h.lifecycle != Retryable && h.lifecycle != Retrying then e
      else if !whole then e.(book := Put(e.book, id, h.(lifecycle := Retryable)))
      else e.(book := Book(e.book.handles[id := h.(lifecycle := Terminal, satisfied := false)], if h.required then e.book.retained else e.book.retained - {id}))
  }

  // ---------- Trying again ----------

  datatype Verdict = Proceed | WrongState | OwesWait | RetriesSpent | TooLate

  ghost function BeginRetry(e: Endpoint, id: nat, now: GoInt): (Endpoint, Verdict) {
    if id !in e.book.handles || e.book.handles[id].lifecycle != Retryable then (e, WrongState)
    else
      var h := e.book.handles[id];
      if h.waiting then (e, OwesWait)
      else if h.retries >= e.limits.retries then (Tracked(e.(book := Put(e.book, id, Dead(h))), id, now), RetriesSpent)
      else if h.required && !h.satisfied then (e, OwesWait)
      else if Overdue(h, now) then (Tracked(e.(book := Put(e.book, id, h.(lifecycle := Terminal))), id, now), TooLate)
      else (Tracked(e.(book := Put(e.book, id, h.(lifecycle := Retrying))), id, now), Proceed)
  }

  /** `scheduled` says that the connection is current and the scheduler took the request. */
  ghost function EndRetry(e: Endpoint, id: nat, now: GoInt, scheduled: bool, later: GoInt): (Endpoint, bool) {
    if id !in e.book.handles then (e, false)
    else
      var h := e.book.handles[id];
      if scheduled && !e.closed && id in e.book.retained && h.lifecycle == Retrying then
        (e.(book := Book(e.book.handles[id := h.(lifecycle := Active, retries := h.retries + 1, required := false, satisfied := false)],
                         e.book.retained - {id})), true)
      else (Restore(e, id, now, later), false)
  }

  /** The clock is read for the deadline, and again, at `later`, when the retained handles are pruned. */
  ghost function Restore(e: Endpoint, id: nat, now: GoInt, later: GoInt): Endpoint
    requires id in e.book.handles
  {
    var h := e.book.handles[id];
    if h.lifecycle != Retrying then Tracked(e, id, later)
    else Tracked(e.(book := Put(e.book, id, h.(lifecycle := if Overdue(h, now) then Terminal else Retryable))), id, later)
  }

  // ---------- Waiting ----------

  predicate MayWait(h: Handle) {
    (h.lifecycle == Retryable || h.lifecycle == Terminal) && h.required && !h.satisfied && !h.waiting
  }

  datatype Waited = Waiting(delay: Span) | NotNow | Ended | Disabled

  ghost function BeginWait(e: Endpoint, id: nat, before: GoInt, jitter: GoInt, reset: bool): (Endpoint, Waited)
    requires ValidLimits(e.limits)
  {
    if id !in e.book.handles || !MayWait(e.book.handles[id]) then (e, NotNow)
    else if !e.required || (e.pending.Some? && !e.closed) then (e, NotNow)
    else
      var h := e.book.handles[id];
      if before < 0 || h.debt > MAX_INT - before then (GiveUp(e, id, before), Ended)
      else if h.lifecycle == Retryable && h.deadline <= before + h.debt then (GiveUp(e, id, before), Ended)
      else
        var (s, next) := NextBefore(e.limits.backoff, e.backoff, Remaining(h, e.limits.window, before), jitter, reset);
        TakeDelay(e, id, before, s, next)
  }

  /** The time a wait may take: up to the deadline, or a whole window when the request has ended and only recovery is left. */
  function Remaining(h: Handle, window: GoInt, before: Span): GoInt
    requires h.debt <= MAX_INT - before && (h.lifecycle == Retryable ==> before + h.debt < h.deadline)
  {
    if h.lifecycle == Retryable then h.deadline - (before + h.debt) else window
  }

  ghost function TakeDelay(e: Endpoint, id: nat, before: Span, s: State, next: Next): (Endpoint, Waited)
    requires id in e.book.handles && (next.Delay? ==> next.delay >= 0)
  {
    var h := e.book.handles[id];
    if next == AttemptsSpent then (Close(e), Disabled)
    else if !next.Delay? then (GiveUp(e.(backoff := s), id, before), Ended)
    else (e.(backoff := s, book := Put(e.book, id, h.(waiting := true)),
             pending := Some(Wait(id, before, next.delay, h.lifecycle == Terminal))), Waiting(next.delay))
  }

  function Unwait(e: Endpoint): Endpoint {
    if e.pending.None? || e.pending.value.id !in e.book.handles then e
    else e.(pending := None, book := Put(e.book, e.pending.value.id, e.book.handles[e.pending.value.id].(waiting := false)))
  }

  function SettledBook(b: Book, after: Span, extra: Span, w: Wait): Book {
    Book(map id | id in b.handles ::
           if id in b.retained then Settled(b.handles[id], after, extra, Cost(w, b.handles[id])) else b.handles[id],
         set id | id in b.retained && id in b.handles && !(b.handles[id].required && Settled(b.handles[id], after, extra, 0).lifecycle == Terminal))
  }

  /** Every retained request that owes a wait is charged what the wait fell short of its delay. */
  function Complete(e: Endpoint, after: Span, extra: Span, w: Wait): Endpoint {
    e.(book := SettledBook(e.book, after, extra, w), ready := e.ready || e.required)
  }

  function Shortfall(before: Span, after: Span, delay: Span): Span
    requires before <= after
  {
    if after - before < delay then delay - (after - before) else 0
  }

  ghost function FinishWait(e: Endpoint, after: GoInt): Endpoint {
    if e.pending.None? || e.pending.value.id !in e.book.handles then e
    else if after < e.pending.value.before then GiveUp(Unwait(e), e.pending.value.id, after)
    else Conclude(Unwait(e), e.pending.value, after)
  }

  /** A request that ended or moved on while its wait ran is not charged itself. */
  ghost function Conclude(u: Endpoint, w: Wait, after: Span): Endpoint
    requires w.id in u.book.handles && w.before <= after
  {
    var extra, h := Shortfall(w.before, after, w.delay), u.book.handles[w.id];
    if (h.lifecycle == Retryable || h.lifecycle == Terminal) && h.required && extra > MAX_INT - h.debt
    then Tracked(Complete(u.(book := Put(u.book, w.id, Dead(h))), after, extra, w), w.id, after)
    else Complete(u, after, extra, w)
  }

  // ---------- Connections ----------

  function MarkRequired(e: Endpoint): Endpoint {
    if e.closed then e else e.(required := true, ready := false)
  }

  function Open(e: Endpoint): (Endpoint, bool) {
    if e.closed || (e.required && !e.ready) then (e, false) else (e.(required := false, ready := false), true)
  }

  function Respond(e: Endpoint): Endpoint {
    e.(backoff := e.backoff.(attempt := 0))
  }

  /** At the end of an endpoint all its requests have ended. */
  function AllEnded(b: Book): map<nat, Handle> {
    map id | id in b.handles ::
      if id in b.retained then Dead(b.handles[id])
      else if b.handles[id].lifecycle == Active then b.handles[id].(lifecycle := Terminal)
      else b.handles[id]
  }

  function Close(e: Endpoint): Endpoint {
    if e.closed then e else e.(closed := true, required := false, ready := false, book := Book(AllEnded(e.book), {}))
  }
}
