/** The transaction owner of one TCP connection as a value. */
module OwnerModel {
  import opened Common
  import opened Pdu

  const IDS := 0x1_0000

  datatype Limits = Limits(maxInFlight: int, maxTombstones: int)

  predicate ValidLimits(l: Limits) {
    0 < l.maxInFlight <= IDS && 0 < l.maxTombstones <= IDS
  }

  datatype Kind = ReadRegisters(read: ReadRequest) | DeviceId

  datatype Phase = Reserved | WriteInvoked | Waiting

  datatype Owned = Owned(
    tx: Uint16, phys: Uint64, generation: Uint64, unit: Byte, kind: Kind, phase: Phase, deadline: GoInt)

  /** The handle a caller holds; `mine` says whether this very owner issued it. */
  datatype Reservation = Reservation(mine: bool, tx: Uint16, phys: Uint64, generation: Uint64, deadline: GoInt)

  datatype Owner = Owner(
    limits: Limits, generation: Uint64, closed: bool, retired: bool, bound: bool, pooled: bool,
    nextTx: Uint16, nextPhys: Uint64, nextWire: Uint64, nextDiag: Uint64,
    inFlight: map<Uint16, Owned>, tombstones: map<Uint16, Owned>, closing: Option<Owned>,
    early: map<Uint64, Uint16>, pending: seq<Reservation>)

  function New(l: Limits, generation: Uint64, pooled: bool): Owner {
    Owner(l, generation, false, false, false, pooled, 0, 1, 1, 1, map[], map[], None, map[], [])
  }

  function Successor(x: Uint64): Uint64 {
    if x == MAX_UINT64 then 0 else x + 1
  }

  function Handle(r: Owned): Reservation {
    Reservation(true, r.tx, r.phys, r.generation, r.deadline)
  }

  /** The requests, live and buried, are the same in both. */
  predicate SameBook(o: Owner, p: Owner) {
    && p.limits == o.limits && p.inFlight == o.inFlight && p.tombstones == o.tombstones && p.closing == o.closing
    && p.early == o.early && p.nextPhys == o.nextPhys
  }

  // ---------- Identifiers ----------

  function Candidate(next: Uint16, k: nat): Uint16 {
    (next + k) % IDS
  }

  predicate Taken(o: Owner, id: Uint16) {
    id in o.inFlight || id in o.tombstones
  }

  /** How many candidates, from the `k`-th on, the allocator passes before a free one. */
  function Probe(o: Owner, k: nat): (n: nat)
    requires k <= IDS
    ensures k <= n <= IDS
    ensures forall i :: k <= i < n ==> Taken(o, Candidate(o.nextTx, i))
    ensures n < IDS ==> !Taken(o, Candidate(o.nextTx, n))
    decreases IDS - k
  {
    if k == IDS || !Taken(o, Candidate(o.nextTx, k)) then k else Probe(o, k + 1)
  }

  function Rewind(o: Owner, id: Uint16): (p: Owner)
    ensures SameBook(o, p) && p.closed == o.closed
  {
    if (o.nextTx - 1) % IDS == id then o.(nextTx := id) else o
  }

  datatype Refusal = ConnectionClosed | BadUnit | InFlightFull | NoIdentifier | NoPhysicalId | BadRequest

  datatype Issue = Issued(handle: Reservation) | NotIssued(why: Refusal)

  function Reserve(o: Owner, unit: Byte, kind: Kind, deadline: GoInt): (r: (Owner, Issue))
    ensures r.1.NotIssued? ==> SameBook(o, r.0) && (o.closed ==> r.0.closed)
  {
    if kind.ReadRegisters? && !ValidRead(kind.read) then (o, NotIssued(BadRequest))
    else if o.closed || o.retired then (o, NotIssued(ConnectionClosed))
    else if unit > 247 then (o, NotIssued(BadUnit))
    else if |o.inFlight| + |o.early| >= o.limits.maxInFlight then (o, NotIssued(InFlightFull))
    else
      var k := Probe(o, 0);
      if k == IDS then (o.(closed := true), NotIssued(NoIdentifier))
      else
        var id := Candidate(o.nextTx, k);
        var p := o.(nextTx := Candidate(id, 1));
        if o.nextPhys == 0 then (p.(closed := true), NotIssued(NoPhysicalId))
        else
          var r := Owned(id, o.nextPhys, o.generation, unit, kind, Reserved, deadline);
          (p.(nextPhys := Successor(o.nextPhys), inFlight := o.inFlight[id := r]), Issued(Handle(r)))
  }

  /** The request a handle names, if it is in the given phase. */
  function RequestFor(o: Owner, h: Reservation, phase: Phase): Option<Owned> {
    if !h.mine || h.generation != o.generation then None
    else if h.tx !in o.inFlight || o.inFlight[h.tx].phys != h.phys || o.inFlight[h.tx].phase != phase then None
    else Some(o.inFlight[h.tx])
  }

  function CancelBeforeWrite(o: Owner, h: Reservation): (Owner, bool) {
    if RequestFor(o, h, Reserved).None? then (o, false)
    else (Rewind(o.(inFlight := o.inFlight - {h.tx}), h.tx), true)
  }

  function ReplaceRead(o: Owner, h: Reservation, read: ReadRequest): (Owner, bool) {
    var r := RequestFor(o, h, Reserved);
    if !ValidRead(read) || r.None? then (o, false)
    else if !r.value.kind.ReadRegisters? || r.value.kind.read.function_ != read.function_ then (o, false)
    else (o.(inFlight := o.inFlight[h.tx := r.value.(kind := ReadRegisters(read))]), true)
  }

  function MarkWriteInvoked(o: Owner, h: Reservation): (Owner, bool) {
    var r := RequestFor(o, h, Reserved);
    if r.None? then (o, false)
    else (o.(inFlight := o.inFlight[h.tx := r.value.(phase := WriteInvoked)]), true)
  }

  // ---------- Failing ----------

  /** The in-flight request with the smallest physical identity. */
  ghost function Oldest(m: map<Uint16, Owned>): (id: Uint16)
    requires m != map[]
    ensures id in m && forall i :: i in m ==> m[id].phys <= m[i].phys
    decreases |m|
  {
    var k :| k in m;
    if m - {k} == map[] then
      assert forall i :: i in m && i != k ==> i in m - {k};
      k
    else
      var rest := Oldest(m - {k});
      assert forall i :: i in m && i != k ==> i in m - {k};
      if m[k].phys <= m[rest].phys then k else rest
  }

  /** The handles of all these requests, oldest first. */
  ghost function Failures(m: map<Uint16, Owned>): seq<Reservation>
    decreases |m|
  {
    if m == map[] then []
    else
      var id := Oldest(m);
      [Handle(m[id])] + Failures(m - {id})
  }

  function Bury(o: Owner, r: Owned): (p: Owner)
    ensures p.early == o.early
  {
    if |o.tombstones| < o.limits.maxTombstones then o.(tombstones := o.tombstones[r.tx := r])
    else o.(closing := Some(r))
  }

  /** An uncertain write ends the socket: the request is buried and its siblings fail. */
  ghost function Spoil(o: Owner, r: Owned): (Owner, Outcome) {
    (Bury(o, r).(inFlight := map[], closed := true), Outcome(true, true, Failures(o.inFlight - {r.tx})))
  }

  function AwaitResponse(o: Owner, r: Owned, deadline: GoInt): Owner {
    o.(inFlight := o.inFlight[r.tx := r.(deadline := if deadline > 0 then deadline else r.deadline, phase := Waiting)])
  }

  datatype Result = ProvableZero | Partial | Indeterminate | CancellationRace | Ambiguous | Complete

  datatype Outcome = Outcome(accepted: bool, close: bool, failed: seq<Reservation>)

  ghost function RecordTransmit(o: Owner, h: Reservation, result: Result, deadline: GoInt): (Owner, Outcome) {
    if h.phys in o.early then
      if !h.mine || h.generation != o.generation || h.tx != o.early[h.phys] || result != Complete
      then (o.(closed := true), Outcome(false, true, []))
      else (o.(early := o.early - {h.phys}), Outcome(true, false, []))
    else
      var r := RequestFor(o, h, WriteInvoked);
      if r.None? then (o, Outcome(false, false, []))
      else match result
        case ProvableZero => (Rewind(o.(inFlight := o.inFlight - {h.tx}), h.tx), Outcome(true, false, []))
        case Complete => (AwaitResponse(o, r.value, deadline), Outcome(true, false, []))
        case _ => Spoil(o, r.value)
  }

  /** Gives up waiting for one response. `pending` collects failures that the call itself does not report. */
  ghost function AbandonAfterWrite(o: Owner, h: Reservation): (Owner, Outcome) {
    var waiting, invoked := RequestFor(o, h, Waiting), RequestFor(o, h, WriteInvoked);
    if waiting.Some? then
      if |o.tombstones| >= o.limits.maxTombstones then
        (o.(closing := waiting, pending := o.pending + Failures(o.inFlight - {h.tx}), inFlight := map[], closed := true),
         Outcome(false, true, []))
      else (Bury(o, waiting.value).(inFlight := o.inFlight - {h.tx}), Outcome(true, false, []))
    else if invoked.None? then (o, Outcome(false, false, []))
    else Spoil(o, invoked.value)
  }

  // ---------- Deadlines ----------

  predicate Due(r: Owned, now: GoInt) {
    r.phase == Waiting && 0 < r.deadline <= now
  }

  predicate Sooner(a: Owned, b: Owned) {
    a.deadline < b.deadline || (a.deadline == b.deadline && a.phys <= b.phys)
  }

  function DueIn(o: Owner, now: GoInt): map<Uint16, Owned> {
    map id | id in o.inFlight && Due(o.inFlight[id], now) :: o.inFlight[id]
  }

  /** The request whose deadline passed first. */
  ghost function First(m: map<Uint16, Owned>): (id: Uint16)
    requires m != map[]
    ensures id in m && forall i :: i in m ==> Sooner(m[id], m[i])
    decreases |m|
  {
    var k :| k in m;
    if m - {k} == map[] then
      assert forall i :: i in m && i != k ==> i in m - {k};
      k
    else
      var rest := First(m - {k});
      assert forall i :: i in m && i != k ==> i in m - {k};
      if Sooner(m[k], m[rest]) then k else rest
  }

  /** Buries the due requests in order, until none is left or a tombstone no longer fits. */
  ghost function Abandon(o: Owner, due: map<Uint16, Owned>): (Owner, seq<Reservation>, Outcome)
    decreases |due|
  {
    if due == map[] then (o, [], Outcome(true, false, []))
    else
      var id := First(due);
      if |o.tombstones| >= o.limits.maxTombstones then
        var failed := Failures(o.inFlight - {id});
        (o.(closing := Some(due[id]), inFlight := map[], pending := o.pending + failed, closed := true),
         [Handle(due[id])], Outcome(false, true, failed))
      else
        var (p, expired, outcome) := Abandon(Bury(o, due[id]).(inFlight := o.inFlight - {id}), due - {id});
        (p, [Handle(due[id])] + expired, outcome)
  }

  ghost function AbandonExpired(o: Owner, now: GoInt): (Owner, seq<Reservation>, Outcome) {
    if now < 0 then (o, [], Outcome(false, false, [])) else Abandon(o, DueIn(o, now))
  }

  // ---------- Responses ----------

  /** A received frame; `verdict` is what decoding its body says where the request is a device identification. */
  datatype Frame = Frame(tx: Uint16, unit: Byte, pdu: seq<Byte>, verdict: Verdict)

  datatype Verdict = Good | ExceptionReply | Bad

  predicate Matches(r: Owned, f: Frame) {
    var function_ := if r.kind.ReadRegisters? then r.kind.read.function_ else 0x2b;
    f.unit == r.unit && f.pdu != [] && (f.pdu[0] == function_ || f.pdu[0] == function_ + 0x80)
  }

  function Judge(r: Owned, f: Frame): Verdict {
    match r.kind
    case DeviceId => f.verdict
    case ReadRegisters(read) =>
      if !ValidRead(read) then Bad
      else match DecodeReply(read, f.pdu)
        case Data(_) => Good
        case Exception(_) => ExceptionReply
        case Malformed => Bad
  }

  datatype Response =
    | Answer(deliverable: bool, late: bool, phys: Uint64, wire: Uint64, verdict: Verdict)
    | Diagnostic(id: Uint64)
    | Exhausted

  function Diagnose(o: Owner): (r: (Owner, Response))
    ensures SameBook(o, r.0) && r.0.nextTx == o.nextTx && (o.closed ==> r.0.closed) && !r.1.Answer?
  {
    if o.nextDiag == 0 then (o.(closed := true), Exhausted)
    else (o.(nextDiag := Successor(o.nextDiag)), Diagnostic(o.nextDiag))
  }

  function Tombstone(o: Owner, id: Uint16): Option<Owned> {
    if id in o.tombstones then Some(o.tombstones[id])
    else if o.closing.Some? && o.closing.value.tx == id then o.closing
    else None
  }

  function CorrelateActive(o: Owner, r: Owned, f: Frame): (Owner, Response) {
    var v := Judge(r, f);
    var early := if r.phase == WriteInvoked then o.early[r.phys := r.tx] else o.early;
    (o.(inFlight := o.inFlight - {r.tx}, nextWire := Successor(o.nextWire), early := early),
     Answer(v == Good, false, r.phys, o.nextWire, v))
  }

  function CorrelateLate(o: Owner, f: Frame): (r: (Owner, Response))
    ensures SameBook(o, r.0) && r.0.nextTx == o.nextTx && (o.closed ==> r.0.closed) && (r.1.Answer? ==> !r.1.deliverable && r.1.late)
  {
    var t := Tombstone(o, f.tx);
    if t.None? || !Matches(t.value, f) then Diagnose(o)
    else (o.(nextWire := Successor(o.nextWire)), Answer(false, true, t.value.phys, o.nextWire, Judge(t.value, f)))
  }

  function Correlate(o: Owner, generation: Uint64, f: Frame): (Owner, Response) {
    if generation != o.generation then Diagnose(o)
    else if o.nextWire == 0 then Diagnose(o.(closed := true))
    else if f.tx !in o.inFlight || o.closed then CorrelateLate(o, f)
    else if o.inFlight[f.tx].phase == Reserved || !Matches(o.inFlight[f.tx], f) then Diagnose(o)
    else CorrelateActive(o, o.inFlight[f.tx], f)
  }

  // ---------- Sockets ----------

  function Bind(o: Owner): (Owner, bool) {
    if o.closed || o.retired || o.bound then (o, false) else (o.(bound := true), true)
  }

  function Swept(o: Owner): Owner {
    o.(inFlight := map[], tombstones := map[], closing := None, early := map[], closed := true, bound := false)
  }

  ghost function LoseTransport(o: Owner): (Owner, Outcome) {
    if !o.bound then (o, Outcome(false, false, []))
    else (Swept(o).(retired := o.retired || o.pooled), Outcome(true, true, Failures(o.inFlight)))
  }

  ghost function Close(o: Owner): Owner {
    Swept(o).(pending := o.pending + Failures(o.inFlight))
  }

  ghost function Retire(o: Owner): Owner {
    Swept(o).(pending := o.pending + Failures(o.inFlight), retired := true, pooled := false)
  }

  /** `next` is what the generation allocator hands out. */
  function Reconnect(o: Owner, next: Uint64): Owner {
    if !o.closed || o.retired || o.bound || next == 0 then o
    else o.(generation := next, closed := false, nextTx := 0, inFlight := map[], tombstones := map[], closing := None, early := map[])
  }

  function Drain(o: Owner): (Owner, seq<Reservation>) {
    (o.(pending := []), o.pending)
  }
}
