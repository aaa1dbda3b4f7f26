/** How far the identifier allocator has walked, and where each request was issued. */
module OwnerWalk {
  import opened Common
  import opened Pdu
  import opened OwnerModel
  import opened OwnerSafety

  /** `at` is the walk's position when a request was issued; `sent` are the requests that were fully transmitted. */
  datatype History = History(walk: nat, at: map<Uint64, nat>, sent: set<Uint64>)

  const Start := History(0, map[], {})

  ghost predicate Placed(h: History, id: Uint16, phys: Uint64) {
    phys in h.at && h.at[phys] % IDS == id && h.at[phys] < h.walk
  }

  /** A sent request that had this identifier was issued before the present holder, or is the present holder. */
  ghost predicate Later(h: History, id: Uint16, phys: Uint64)
    requires phys in h.at
  {
    forall p :: p in h.sent && p in h.at && h.at[p] % IDS == id ==> p == phys || h.at[p] < h.at[phys]
  }

  ghost predicate Traced(o: Owner, h: History) {
    && h.walk % IDS == o.nextTx
    && (forall p :: p in h.sent ==> p in h.at && h.at[p] < h.walk)
    && (forall id :: id in o.inFlight ==>
          && Placed(h, id, o.inFlight[id].phys) && Later(h, id, o.inFlight[id].phys)
          && (o.inFlight[id].phys in h.sent ==> o.inFlight[id].phase == Waiting))
    && (forall p :: p in h.at ==> p < Bound(o))
  }

  predicate Rewinds(o: Owner, id: Uint16) {
    (o.nextTx - 1) % IDS == id
  }

  /** The history's share of each step. */
  ghost function Note(o: Owner, h: History, op: Op): History {
    match op
    case DoReserve(unit, kind, deadline) =>
      var (p, issue) := Reserve(o, unit, kind, deadline);
      if issue.Issued? then
        h.(walk := h.walk + Probe(o, 0) + 1, at := h.at[issue.handle.phys := h.walk + Probe(o, 0)])
      else if issue.why == NoIdentifier then h.(walk := h.walk + IDS)
      else if issue.why == NoPhysicalId then h.(walk := h.walk + Probe(o, 0) + 1)
      else h
    case DoCancel(handle) =>
      if CancelBeforeWrite(o, handle).1 && Rewinds(o, handle.tx) && h.walk > 0 then h.(walk := h.walk - 1) else h
    case DoTransmit(handle, result, _) =>
      if handle.phys in o.early || RequestFor(o, handle, WriteInvoked).None? then h
      else if result == ProvableZero then (if Rewinds(o, handle.tx) && h.walk > 0 then h.(walk := h.walk - 1) else h)
      else if result == Complete then h.(sent := h.sent + {handle.phys})
      else h
    case DoCorrelate(generation, f) =>
      if Correlate(o, generation, f).1.Answer? && !Correlate(o, generation, f).1.late
      then h.(sent := h.sent + {Correlate(o, generation, f).1.phys})
      else h
    case DoReconnect(next) => if Reconnect(o, next) == o then h else Start
    case _ => h
  }

  // ---------- Arithmetic ----------

  lemma {:induction false} CandidateIs(next: Uint16, walk: nat, k: nat)
    requires walk % IDS == next
    ensures (walk + k) % IDS == Candidate(next, k)
  {
    assert walk == IDS * (walk / IDS) + next;
    ModShift(next + k, walk / IDS);
  }

  lemma {:induction false} ModShift(a: int, q: int)
    ensures (a + IDS * q) % IDS == a % IDS
  {
  }

  lemma {:induction false} StepBack(walk: nat, next: Uint16)
    requires walk % IDS == next && walk > 0
    ensures (walk - 1) % IDS == (next - 1) % IDS
  {
    assert walk == IDS * (walk / IDS) + next;
    ModShift(next - 1, walk / IDS);
  }

  /** Two positions with the same identifier are a whole number of rounds apart. */
  lemma {:induction false} WholeRounds(a: nat, b: nat)
    requires a < b && a % IDS == b % IDS
    ensures b >= a + IDS
  {
  }

  // ---------- Keeping the trace ----------

  lemma {:induction false} LeaveTraced(o: Owner, p: Owner, h: History)
    requires Traced(o, h) && p.nextTx == o.nextTx && Bound(p) == Bound(o)
    requires forall id :: id in p.inFlight ==> id in o.inFlight && p.inFlight[id] == o.inFlight[id]
    ensures Traced(p, h)
  {
  }

  /** Only the phase, the deadline or the body of one request changes. */
  lemma {:induction false} ChangeTraced(o: Owner, h: History, id: Uint16, r: Owned)
    requires Traced(o, h) && id in o.inFlight && r.phys == o.inFlight[id].phys
    requires r.phys in h.sent ==> r.phase == Waiting
    ensures Traced(o.(inFlight := o.inFlight[id := r]), h)
  {
  }

  lemma {:induction false} SendTraced(o: Owner, h: History, id: Uint16, phys: Uint64)
    requires Inv(o) && Traced(o, h) && id in o.inFlight && phys == o.inFlight[id].phys && o.inFlight[id].phase == Waiting
    ensures Traced(o, h.(sent := h.sent + {phys}))
  {
    var k := h.(sent := h.sent + {phys});
    assert Placed(h, id, phys);
    forall j | j in o.inFlight
      ensures Placed(k, j, o.inFlight[j].phys) && Later(k, j, o.inFlight[j].phys)
      ensures o.inFlight[j].phys in k.sent ==> o.inFlight[j].phase == Waiting
    {
      assert Placed(h, j, o.inFlight[j].phys) && Later(h, j, o.inFlight[j].phys);
      assert o.inFlight[j].phys == phys ==> j == id;
    }
  }

  /** A response that overtakes its write proves that the request was sent; it has left the flight by then. */
  lemma {:induction false} AnswerTraced(o: Owner, p: Owner, h: History, id: Uint16)
    requires Inv(o) && Traced(o, h) && id in o.inFlight && p.inFlight == o.inFlight - {id} && p.nextTx == o.nextTx && Bound(p) == Bound(o)
    ensures Traced(p, h.(sent := h.sent + {o.inFlight[id].phys}))
  {
    var phys := o.inFlight[id].phys;
    var k := h.(sent := h.sent + {phys});
    assert Placed(h, id, phys);
    forall j | j in p.inFlight
      ensures Placed(k, j, p.inFlight[j].phys) && Later(k, j, p.inFlight[j].phys)
      ensures p.inFlight[j].phys in k.sent ==> p.inFlight[j].phase == Waiting
    {
      assert Placed(h, j, o.inFlight[j].phys) && Later(h, j, o.inFlight[j].phys);
      assert j != id && o.inFlight[j].phys != phys;
    }
  }

  lemma {:induction false} BackTraced(o: Owner, p: Owner, h: History, id: Uint16)
    requires Inv(o) && Traced(o, h) && id in o.inFlight && o.inFlight[id].phase != Waiting && h.walk > 0
    requires (h.walk - 1) % IDS == id
    requires p.inFlight == o.inFlight - {id} && p.nextTx == id && Bound(p) == Bound(o)
    ensures Traced(p, h.(walk := h.walk - 1))
  {
    hide Inv;
    var k := h.(walk := h.walk - 1);
    forall x | x in k.sent
      ensures x in k.at && k.at[x] < k.walk
    {
      SentIsOlder(o, h, id, x);
    }
    forall j | j in p.inFlight
      ensures Placed(k, j, p.inFlight[j].phys) && Later(k, j, p.inFlight[j].phys)
    {
      assert Placed(h, j, o.inFlight[j].phys) && Later(h, j, o.inFlight[j].phys);
      assert h.at[o.inFlight[j].phys] % IDS == j;
    }
  }

  /** Taking back the identifier that was last handed out never reaches one whose request was sent. */
  lemma {:induction false} RewindTraced(o: Owner, h: History, id: Uint16)
    requires Inv(o) && Traced(o, h) && id in o.inFlight && o.inFlight[id].phase != Waiting
    ensures h.walk > 0
    ensures var p := Rewind(o.(inFlight := o.inFlight - {id}), id);
            Traced(p, if Rewinds(o, id) then h.(walk := h.walk - 1) else h)
  {
    hide Inv, Later;
    assert Placed(h, id, o.inFlight[id].phys);
    var p := Rewind(o.(inFlight := o.inFlight - {id}), id);
    RewindNext(o, id);
    hide Traced;
    if Rewinds(o, id) {
      StepBack(h.walk, o.nextTx);
      BackTraced(o, p, h, id);
    } else {
      LeaveTraced(o, p, h);
    }
  }

  lemma {:induction false} RewindNext(o: Owner, id: Uint16)
    ensures var p := Rewind(o.(inFlight := o.inFlight - {id}), id);
            && p.nextTx == (if Rewinds(o, id) then id else o.nextTx)
            && p.nextPhys == o.nextPhys && p.inFlight == o.inFlight - {id}
  {
  }

  lemma {:induction false} SentIsOlder(o: Owner, h: History, id: Uint16, x: Uint64)
    requires Traced(o, h) && id in o.inFlight && o.inFlight[id].phase != Waiting && x in h.sent && h.walk > 0
    requires (h.walk - 1) % IDS == id
    ensures x in h.at && h.at[x] < h.walk - 1
  {
    assert Placed(h, id, o.inFlight[id].phys) && Later(h, id, o.inFlight[id].phys);
  }

  lemma {:induction false} IssueTraced(o: Owner, p: Owner, h: History, r: Owned, k: nat)
    requires Inv(o) && Traced(o, h) && k < IDS && r.tx == Candidate(o.nextTx, k) && r.tx !in o.inFlight
    requires r.phase == Reserved && r.phys == Bound(o) && Bound(p) == Bound(o) + 1
    requires p.inFlight == o.inFlight[r.tx := r] && p.nextTx == Candidate(r.tx, 1)
    ensures Traced(p, h.(walk := h.walk + k + 1, at := h.at[r.phys := h.walk + k]))
  {
    hide Inv, Candidate;
    var g := h.(walk := h.walk + k + 1, at := h.at[r.phys := h.walk + k]);
    CandidateIs(o.nextTx, h.walk, k);
    CandidateIs(r.tx, h.walk + k, 1);
    forall j | j in p.inFlight
      ensures Placed(g, j, p.inFlight[j].phys) && Later(g, j, p.inFlight[j].phys)
      ensures p.inFlight[j].phys in g.sent ==> p.inFlight[j].phase == Waiting
    {
      if j != r.tx {
        assert Placed(h, j, o.inFlight[j].phys) && Later(h, j, o.inFlight[j].phys);
        InFlightIssued(o, j);
      }
    }
  }

  lemma {:induction false} WalkTraced(o: Owner, p: Owner, h: History, k: nat)
    requires Traced(o, h) && p.inFlight == o.inFlight && p.nextTx == Candidate(o.nextTx, k) && Bound(p) == Bound(o)
    ensures Traced(p, h.(walk := h.walk + k))
  {
    CandidateIs(o.nextTx, h.walk, k);
    var g := h.(walk := h.walk + k);
    forall j | j in p.inFlight
      ensures Placed(g, j, p.inFlight[j].phys) && Later(g, j, p.inFlight[j].phys)
    {
      assert Placed(h, j, o.inFlight[j].phys) && Later(h, j, o.inFlight[j].phys);
    }
  }

  lemma {:induction false} ReserveTraced(o: Owner, h: History, unit: Byte, kind: Kind, deadline: GoInt)
    requires Inv(o) && Traced(o, h)
    ensures Traced(Reserve(o, unit, kind, deadline).0, Note(o, h, DoReserve(unit, kind, deadline)))
  {
    hide Inv, Traced, Probe, Candidate, SameBook;
    var (p, issue) := Reserve(o, unit, kind, deadline);
    var k := Probe(o, 0);
    if issue.Issued? {
      IssueTraced(o, p, h, p.inFlight[issue.handle.tx], k);
    } else if issue.why == NoIdentifier {
      FullRound(o.nextTx);
      WalkTraced(o, p, h, IDS);
    } else if issue.why == NoPhysicalId {
      TwoSteps(o.nextTx, k);
      WalkTraced(o, p, h, k + 1);
    } else {
      LeaveTraced(o, p, h);
    }
  }

  lemma {:induction false} FullRound(next: Uint16)
    ensures Candidate(next, IDS) == next
  {
  }

  lemma {:induction false} TwoSteps(next: Uint16, k: nat)
    ensures Candidate(Candidate(next, k), 1) == Candidate(next, k + 1)
  {
  }

  lemma {:induction false} AbandonLeaves(o: Owner, due: Requests)
    ensures Abandon(o, due).0.nextTx == o.nextTx && Bound(Abandon(o, due).0) == Bound(o)
    ensures forall id :: id in Abandon(o, due).0.inFlight ==> id in o.inFlight && Abandon(o, due).0.inFlight[id] == o.inFlight[id]
    decreases |due|
  {
    hide Failures;
    if due != map[] && |o.tombstones| < o.limits.maxTombstones {
      AbandonLeaves(Bury(o, due[First(due)]).(inFlight := o.inFlight - {First(due)}), due - {First(due)});
    }
  }

  lemma {:induction false} AwaitTraced(o: Owner, h: History, id: Uint16, until: GoInt)
    requires Inv(o) && Traced(o, h) && id in o.inFlight
    ensures Traced(AwaitResponse(o, o.inFlight[id], until), h.(sent := h.sent + {o.inFlight[id].phys}))
  {
    hide Inv, Traced;
    InFlightTx(o, id);
    var r := o.inFlight[id].(deadline := if until > 0 then until else o.inFlight[id].deadline, phase := Waiting);
    var p := o.(inFlight := o.inFlight[id := r]);
    UpdateKeeps(o, id, r);
    ChangeTraced(o, h, id, r);
    SendTraced(p, h, id, r.phys);
  }

  lemma {:induction false} SpoilTraced(o: Owner, h: History, id: Uint16)
    requires Traced(o, h) && id in o.inFlight
    ensures Traced(Spoil(o, o.inFlight[id]).0, h)
  {
    hide Traced, Failures;
    LeaveTraced(o, Spoil(o, o.inFlight[id]).0, h);
  }

  lemma {:induction false} TransmitTraced(o: Owner, h: History, handle: Reservation, result: Result, until: GoInt)
    requires Inv(o) && Traced(o, h)
    ensures Traced(RecordTransmit(o, handle, result, until).0, Note(o, h, DoTransmit(handle, result, until)))
  {
    hide Inv, Traced, Spoil, AwaitResponse, Rewind, Rewinds;
    if handle.phys in o.early || RequestFor(o, handle, WriteInvoked).None? {
      LeaveTraced(o, RecordTransmit(o, handle, result, until).0, h);
    } else {
      RewindTraced(o, h, handle.tx);
      AwaitTraced(o, h, handle.tx, until);
      SpoilTraced(o, h, handle.tx);
    }
  }

  lemma {:induction false} CorrelateTraced(o: Owner, h: History, generation: Uint64, f: Frame)
    requires Inv(o) && Traced(o, h)
    ensures Traced(Correlate(o, generation, f).0, Note(o, h, DoCorrelate(generation, f)))
  {
    hide Inv, Traced, Judge, Matches, SameBook;
    var (p, answer) := Correlate(o, generation, f);
    if answer.Answer? && !answer.late {
      InFlightTx(o, f.tx);
      AnswerTraced(o, p, h, f.tx);
    } else {
      assert p.inFlight == o.inFlight && p.nextTx == o.nextTx && Bound(p) == Bound(o) by {
        CorrelateElse(o, generation, f);
      }
      LeaveTraced(o, p, h);
    }
  }

  lemma {:induction false} CorrelateElse(o: Owner, generation: Uint64, f: Frame)
    requires !(Correlate(o, generation, f).1.Answer? && !Correlate(o, generation, f).1.late)
    ensures var p := Correlate(o, generation, f).0; p.inFlight == o.inFlight && p.nextTx == o.nextTx && Bound(p) == Bound(o)
  {
    hide Judge, Matches, Successor, Diagnose, CorrelateLate;
  }

  /** Every step keeps the trace. */
  lemma {:induction false} StepTraced(o: Owner, h: History, op: Op)
    requires Inv(o) && Traced(o, h)
    ensures Traced(Step(o, op), Note(o, h, op))
  {
    hide Inv, Traced, RecordTransmit, Correlate, Reserve, Rewind, Failures, Abandon;
    match op
    case DoReserve(unit, kind, deadline) => ReserveTraced(o, h, unit, kind, deadline);
    case DoCancel(handle) =>
      if RequestFor(o, handle, Reserved).Some? {
        RewindTraced(o, h, handle.tx);
      }
    case DoReplace(handle, read) => InPlaceTraced(o, h, handle, read);
    case DoWrite(handle) => InPlaceTraced(o, h, handle, ReadRequest(0, HoldingRegisters, 0, 0));
    case DoTransmit(handle, result, until) => TransmitTraced(o, h, handle, result, until);
    case DoExpire(now) => ExpireTraced(o, h, now);
    case DoAbandon(handle) => AbandonTraced(o, h, handle);
    case DoCorrelate(generation, f) => CorrelateTraced(o, h, generation, f);
    case DoBind => LeaveTraced(o, Bind(o).0, h);
    case DoLose => LeaveTraced(o, LoseTransport(o).0, h);
    case DoClose => LeaveTraced(o, Close(o), h);
    case DoRetire => LeaveTraced(o, Retire(o), h);
    case DoReconnect(next) => ReconnectTraced(o, h, next);
    case DoDrain => LeaveTraced(o, Drain(o).0, h);
  }

  lemma {:induction false} ReconnectTraced(o: Owner, h: History, next: Uint64)
    requires Traced(o, h)
    ensures Traced(Reconnect(o, next), if Reconnect(o, next) == o then h else Start)
  {
  }

  lemma {:induction false} ExpireTraced(o: Owner, h: History, now: GoInt)
    requires Traced(o, h)
    ensures Traced(AbandonExpired(o, now).0, h)
  {
    hide Traced, Abandon;
    AbandonLeaves(o, DueIn(o, now));
    LeaveTraced(o, AbandonExpired(o, now).0, h);
  }

  lemma {:induction false} AbandonTraced(o: Owner, h: History, handle: Reservation)
    requires Traced(o, h)
    ensures Traced(AbandonAfterWrite(o, handle).0, h)
  {
    hide Traced, Failures, Bury;
    if handle.tx in o.inFlight {
      BuryFrame(o, o.inFlight[handle.tx]);
    }
    LeaveTraced(o, AbandonAfterWrite(o, handle).0, h);
  }

  lemma {:induction false} BuryFrame(o: Owner, r: Owned)
    ensures Bury(o, r).nextTx == o.nextTx && Bound(Bury(o, r)) == Bound(o) && Bury(o, r).inFlight == o.inFlight
  {
  }

  lemma {:induction false} InPlaceTraced(o: Owner, h: History, handle: Reservation, read: ReadRequest)
    requires Traced(o, h)
    ensures Traced(ReplaceRead(o, handle, read).0, h) && Traced(MarkWriteInvoked(o, handle).0, h)
  {
    if RequestFor(o, handle, Reserved).Some? {
      var r := o.inFlight[handle.tx];
      ChangeTraced(o, h, handle.tx, r.(phase := WriteInvoked));
      ChangeTraced(o, h, handle.tx, r.(kind := ReadRegisters(read)));
    }
  }

  // ---------- Runs ----------

  ghost function Trace(o: Owner, h: History, ops: seq<Op>): History
    decreases |ops|
  {
    if ops == [] then h else Trace(Step(o, ops[0]), Note(o, h, ops[0]), ops[1..])
  }

  lemma {:induction false} RunTraced(o: Owner, h: History, ops: seq<Op>)
    requires Inv(o) && Traced(o, h)
    ensures Inv(Run(o, ops)) && Traced(Run(o, ops), Trace(o, h, ops))
    decreases |ops|
  {
    hide Inv, Traced, Step, Note;
    if ops != [] {
      StepKeeps(o, ops[0]);
      StepTraced(o, h, ops[0]);
      RunTraced(Step(o, ops[0]), Note(o, h, ops[0]), ops[1..]);
    }
  }

  lemma {:induction false} IssuedAt(o: Owner, unit: Byte, kind: Kind, deadline: GoInt)
    requires Reserve(o, unit, kind, deadline).1.Issued?
    ensures Reserve(o, unit, kind, deadline).1.handle.tx == Candidate(o.nextTx, Probe(o, 0))
  {
    hide Probe, Candidate, SameBook;
  }

  lemma {:induction false} ReuseTraced(o: Owner, h: History, tx: Uint16, k: nat, phys: Uint64)
    requires Traced(o, h) && phys in h.sent && tx == Candidate(o.nextTx, k)
    ensures phys in h.at && (h.at[phys] % IDS == tx ==> h.walk + k >= h.at[phys] + IDS)
  {
    hide Candidate;
    if h.at[phys] % IDS == tx {
      CandidateIs(o.nextTx, h.walk, k);
      WholeRounds(h.at[phys], h.walk + k);
    }
  }

  /**
   After any run from a new owner, whatever was cancelled or rewound: if an identifier is issued that a fully
   transmitted request of this generation had, the allocator has since walked through all 65536 of them.
   */
  lemma {:induction false} ReuseNeedsFullRound(
    l: Limits, generation: Uint64, pooled: bool, ops: seq<Op>, unit: Byte, kind: Kind, deadline: GoInt, phys: Uint64)
    requires ValidLimits(l)
    ensures var o, h := Run(New(l, generation, pooled), ops), Trace(New(l, generation, pooled), Start, ops);
            var issue := Reserve(o, unit, kind, deadline).1;
            issue.Issued? && phys in h.sent ==>
              && phys in h.at
              && (h.at[phys] % IDS == issue.handle.tx ==> h.walk + Probe(o, 0) >= h.at[phys] + IDS)
  {
    NewInv(l, generation, pooled);
    StartTraced(l, generation, pooled);
    hide Probe, Candidate, Traced, Inv, Reserve, Run, Trace, New;
    RunTraced(New(l, generation, pooled), Start, ops);
    var o, h := Run(New(l, generation, pooled), ops), Trace(New(l, generation, pooled), Start, ops);
    var issue := Reserve(o, unit, kind, deadline).1;
    if issue.Issued? && phys in h.sent {
      IssuedAt(o, unit, kind, deadline);
      ReuseTraced(o, h, issue.handle.tx, Probe(o, 0), phys);
    }
  }

  lemma {:induction false} StartTraced(l: Limits, generation: Uint64, pooled: bool)
    ensures Traced(New(l, generation, pooled), Start)
  {
  }

  /** The walk is the real counter: it tells where the next candidate stands. */
  lemma {:induction false} WalkIsCounter(l: Limits, generation: Uint64, pooled: bool, ops: seq<Op>)
    requires ValidLimits(l)
    ensures Run(New(l, generation, pooled), ops).nextTx == Trace(New(l, generation, pooled), Start, ops).walk % IDS
  {
    NewInv(l, generation, pooled);
    RunTraced(New(l, generation, pooled), Start, ops);
  }

  // ---------- Exhaustion ----------

  lemma {:induction false} CandidatesCoverAll(next: Uint16, id: Uint16) returns (k: nat)
    ensures k < IDS && Candidate(next, k) == id
  {
    k := if id >= next then id - next else id + IDS - next;
  }

  /** Allocation fails exactly when every identifier is in flight or tombstoned. */
  lemma {:induction false} AllocationFailsIff(o: Owner)
    ensures Probe(o, 0) == IDS <==> forall id: Uint16 :: Taken(o, id)
  {
    if Probe(o, 0) == IDS {
      forall id: Uint16
        ensures Taken(o, id)
      {
        var k := CandidatesCoverAll(o.nextTx, id);
        assert Taken(o, Candidate(o.nextTx, k));
      }
    }
  }

  /** The owner then closes, and the counter is back where it stood. */
  lemma {:induction false} ReserveExhausts(o: Owner, unit: Byte, kind: Kind, deadline: GoInt)
    requires ValidKind(kind) && unit <= 247 && !o.closed && !o.retired && |o.inFlight| + |o.early| < o.limits.maxInFlight
    ensures Reserve(o, unit, kind, deadline).1 == NotIssued(NoIdentifier) <==> forall id: Uint16 :: Taken(o, id)
    ensures Reserve(o, unit, kind, deadline).1 == NotIssued(NoIdentifier) ==>
              Reserve(o, unit, kind, deadline).0.closed && Reserve(o, unit, kind, deadline).0.nextTx == o.nextTx
  {
    hide Probe;
    AllocationFailsIff(o);
  }

  // ---------- Deadlines ----------

  /** The due requests in the order in which their deadlines passed. */
  ghost function Overdue(due: Requests): seq<Reservation>
    decreases |due|
  {
    if due == map[] then []
    else [Handle(due[First(due)])] + Overdue(due - {First(due)})
  }

  lemma {:induction false} OverdueLength(due: Requests)
    ensures |Overdue(due)| == |due|
    decreases |due|
  {
    if due != map[] {
      assert (due - {First(due)}).Keys == due.Keys - {First(due)};
      OverdueLength(due - {First(due)});
    }
  }

  ghost predicate Fits(o: Owner, due: Requests) {
    |o.tombstones| + |due| <= o.limits.maxTombstones
  }

  ghost predicate Expirable(o: Owner, due: Requests) {
    && |o.tombstones| <= o.limits.maxTombstones && due.Keys !! o.tombstones.Keys
    && forall id :: id in due ==> due[id].tx == id
  }

  lemma {:induction false} ExpireOne(o: Owner, due: Requests)
    requires Expirable(o, due) && due != map[] && |o.tombstones| < o.limits.maxTombstones
    ensures var id := First(due);
            var p := Bury(o, due[id]).(inFlight := o.inFlight - {id});
            && Expirable(p, due - {id}) && |p.tombstones| == |o.tombstones| + 1 && |due - {id}| == |due| - 1
            && p.limits == o.limits && p.inFlight == o.inFlight - {id} && p.tombstones == o.tombstones[id := due[id]]
  {
    var id := First(due);
    assert (due - {id}).Keys == due.Keys - {id};
    assert o.tombstones[id := due[id]].Keys == o.tombstones.Keys + {id};
  }

  lemma {:induction false} AbandonStep(o: Owner, due: Requests)
    requires due != map[] && |o.tombstones| < o.limits.maxTombstones
    ensures var id := First(due);
            var rest := Abandon(Bury(o, due[id]).(inFlight := o.inFlight - {id}), due - {id});
            Abandon(o, due) == (rest.0, [Handle(due[id])] + rest.1, rest.2)
  {
    hide Failures, Bury;
  }

  lemma {:induction false} FitsOneLess(o: Owner, p: Owner, due: Requests, rest: Requests)
    requires |p.tombstones| == |o.tombstones| + 1 && |rest| == |due| - 1 && p.limits == o.limits
    ensures Fits(p, rest) <==> Fits(o, due)
  {
  }

  lemma {:induction false} MergeOne(inFlight: Requests, tombstones: Requests, due: Requests, id: Uint16)
    requires id in due
    ensures inFlight - {id} - (due - {id}).Keys == inFlight - due.Keys
    ensures tombstones[id := due[id]] + (due - {id}) == tombstones + due
  {
    assert (due - {id}).Keys == due.Keys - {id};
  }

  /** When the due requests fit, each is buried and none else leaves the wire. */
  lemma {:induction false} ExpiryFits(o: Owner, due: Requests)
    requires Expirable(o, due) && Fits(o, due)
    ensures Abandon(o, due).2 == Outcome(true, false, []) && Abandon(o, due).1 == Overdue(due)
    ensures Abandon(o, due).0.inFlight == o.inFlight - due.Keys
    ensures Abandon(o, due).0.tombstones == o.tombstones + due
    decreases |due|
  {
    if due == map[] {
      assert o.inFlight - due.Keys == o.inFlight && o.tombstones + due == o.tombstones;
    } else {
      var id := First(due);
      ExpireOne(o, due);
      AbandonStep(o, due);
      hide Abandon, Bury, Expirable;
      var p := Bury(o, due[id]).(inFlight := o.inFlight - {id});
      FitsOneLess(o, p, due, due - {id});
      ExpiryFits(p, due - {id});
      MergeOne(o.inFlight, o.tombstones, due, id);
    }
  }

  /**
   When they do not, as many as fit and one more are taken in order and the connection is given up; what was
   still in flight is reported as failed.
   */
  lemma {:induction false} ExpiryOverflows(o: Owner, due: Requests)
    requires Expirable(o, due) && !Fits(o, due)
    ensures |Overdue(due)| == |due|
    ensures Abandon(o, due).1 == Overdue(due)[..o.limits.maxTombstones - |o.tombstones| + 1]
    ensures Abandon(o, due).2.close && Abandon(o, due).0.closed && Abandon(o, due).0.inFlight == map[]
    decreases |due|
  {
    OverdueLength(due);
    LessThanFull(o, due);
    var id := First(due);
    assert Overdue(due) == [Handle(due[id])] + Overdue(due - {id});
    hide Abandon, Bury, Expirable, Overdue;
    if |o.tombstones| < o.limits.maxTombstones {
      ExpireOne(o, due);
      AbandonStep(o, due);
      var p := Bury(o, due[id]).(inFlight := o.inFlight - {id});
      ExpiryOverflows(p, due - {id});
      TakeOneMore(Handle(due[id]), Overdue(due - {id}), o.limits.maxTombstones - |o.tombstones|);
    } else {
      AbandonFull(o, due);
    }
  }

  lemma {:induction false} TakeOneMore(h: Reservation, hs: seq<Reservation>, n: nat)
    requires n <= |hs|
    ensures ([h] + hs)[..n + 1] == [h] + hs[..n]
  {
  }

  lemma {:induction false} LessThanFull(o: Owner, due: Requests)
    requires Expirable(o, due)
    ensures |o.tombstones| <= o.limits.maxTombstones
  {
  }

  lemma {:induction false} AbandonFull(o: Owner, due: Requests)
    requires due != map[] && |o.tombstones| >= o.limits.maxTombstones
    ensures Abandon(o, due).1 == [Handle(due[First(due)])]
    ensures Abandon(o, due).2.close && Abandon(o, due).0.closed && Abandon(o, due).0.inFlight == map[]
  {
    hide Failures, Bury;
  }
}
