/** The transaction owner as the source runs it: maps and counters updated in place. */
module ConnectionOwners {
  import opened Common
  import opened Pdu
  import opened OwnerModel
  import opened OwnerSafety

  ghost predicate OnePhysEach(m: Requests) {
    forall i, j :: i in m && j in m && m[i].phys == m[j].phys ==> i == j
  }

  /** The request with the smallest physical identity. */
  method FindOldest(m: Requests) returns (oldest: Uint16)
    requires m != map[] && OnePhysEach(m)
    ensures oldest == Oldest(m)
  {
    oldest :| oldest in m;
    var todo := m.Keys - {oldest};
    while todo != {}
      invariant todo <= m.Keys && oldest in m
      invariant forall i :: i in m && i !in todo ==> m[oldest].phys <= m[i].phys
      decreases |todo|
    {
      var id :| id in todo;
      if m[id].phys < m[oldest].phys {
        oldest := id;
      }
      todo := todo - {id};
    }
    assert m[oldest].phys == m[Oldest(m)].phys;
  }

  /** The request whose deadline passed first; of two with the same deadline, the older one. */
  method FindFirst(m: Requests) returns (first: Uint16)
    requires m != map[] && OnePhysEach(m)
    ensures first == First(m)
  {
    first :| first in m;
    var todo := m.Keys - {first};
    while todo != {}
      invariant todo <= m.Keys && first in m
      invariant forall i :: i in m && i !in todo ==> Sooner(m[first], m[i])
      decreases |todo|
    {
      var id :| id in todo;
      if !Sooner(m[first], m[id]) {
        first := id;
      }
      todo := todo - {id};
    }
    assert m[first].phys == m[First(m)].phys;
  }

  /** The handles of all these requests, oldest first. */
  method SortedHandles(m: Requests) returns (failed: seq<Reservation>)
    requires OnePhysEach(m)
    ensures failed == Failures(m)
  {
    failed := [];
    var rest := m;
    while rest != map[]
      invariant OnePhysEach(rest) && failed + Failures(rest) == Failures(m)
      decreases |rest|
    {
      var id := FindOldest(rest);
      failed := failed + [Handle(rest[id])];
      rest := rest - {id};
    }
  }

  class TCPConnectionOwner {
    const limits: Limits
    var generation: Uint64
    var closed: bool
    var retired: bool
    var bound: bool
    var pooled: bool
    var nextTx: Uint16
    var nextPhys: Uint64
    var nextWire: Uint64
    var nextDiag: Uint64
    var inFlight: Requests
    var tombstones: Requests
    var closing: Option<Owned>
    var early: map<Uint64, Uint16>
    var pending: seq<Reservation>

    ghost function View(): Owner
      reads this
    {
      Owner(limits, generation, closed, retired, bound, pooled, nextTx, nextPhys, nextWire, nextDiag,
            inFlight, tombstones, closing, early, pending)
    }

    ghost predicate Valid()
      reads this
    {
      Inv(View())
    }

    constructor (l: Limits, first: Uint64, inPool: bool)
      requires ValidLimits(l)
      ensures Valid() && View() == New(l, first, inPool)
    {
      limits, generation := l, first;
      closed, retired, bound, pooled := false, false, false, inPool;
      nextTx, nextPhys, nextWire, nextDiag := 0, 1, 1, 1;
      inFlight, tombstones, closing, early, pending := map[], map[], None, map[], [];
      new;
      NewInv(l, first, inPool);
    }

    // ---------- Identifiers ----------

    method AllocateTransactionID() returns (id: Uint16, ok: bool)
      modifies `nextTx
      ensures ok == (Probe(old(View()), 0) < IDS)
      ensures ok ==> id == Candidate(old(nextTx), Probe(old(View()), 0)) && nextTx == Candidate(id, 1)
      ensures !ok ==> nextTx == old(nextTx)
    {
      hide Probe;
      ghost var o := View();
      var attempts := 0;
      while attempts < IDS
        invariant attempts <= IDS && nextTx == Candidate(o.nextTx, attempts)
        invariant Probe(o, 0) == Probe(o, attempts)
      {
        ProbeStep(o, attempts);
        var candidate := nextTx;
        nextTx := (nextTx + 1) % IDS;
        if candidate !in inFlight && candidate !in tombstones {
          return candidate, true;
        }
        NextCandidate(o.nextTx, attempts);
        attempts := attempts + 1;
      }
      return 0, false;
    }

    method Reserve(unit: Byte, kind: Kind, deadline: GoInt) returns (issue: Issue)
      requires Valid()
      modifies this
      ensures Valid() && (View(), issue) == OwnerModel.Reserve(old(View()), unit, kind, deadline)
    {
      hide Inv, Probe, Candidate, SameBook;
      ReserveKeeps(View(), unit, kind, deadline);
      if kind.ReadRegisters? && !ValidRead(kind.read) {
        return NotIssued(BadRequest);
      }
      if closed || retired {
        return NotIssued(ConnectionClosed);
      }
      if unit > 247 {
        return NotIssued(BadUnit);
      }
      if |inFlight| + |early| >= limits.maxInFlight {
        return NotIssued(InFlightFull);
      }
      var id, ok := AllocateTransactionID();
      if !ok {
        closed := true;
        return NotIssued(NoIdentifier);
      }
      if nextPhys == 0 {
        closed := true;
        return NotIssued(NoPhysicalId);
      }
      var r := Owned(id, nextPhys, generation, unit, kind, Reserved, deadline);
      nextPhys := Successor(nextPhys);
      inFlight := inFlight[id := r];
      return Issued(Handle(r));
    }

    method RewindAllocator(id: Uint16)
      modifies `nextTx
      ensures View() == Rewind(old(View()), id)
    {
      if (nextTx - 1) % IDS == id {
        nextTx := id;
      }
    }

    // ---------- Writing ----------

    /** Whether the handle names a request of this owner that is in the given phase. */
    predicate Names(h: Reservation, phase: Phase)
      reads this
      ensures Names(h, phase) == RequestFor(View(), h, phase).Some?
    {
      && h.mine && h.generation == generation
      && h.tx in inFlight && inFlight[h.tx].phys == h.phys && inFlight[h.tx].phase == phase
    }

    method CancelBeforeWrite(h: Reservation) returns (ok: bool)
      requires Valid()
      modifies this
      ensures Valid() && (View(), ok) == OwnerModel.CancelBeforeWrite(old(View()), h)
    {
      hide Inv, Rewind;
      if !Names(h, Reserved) {
        return false;
      }
      WithdrawKeeps(View(), h.tx);
      inFlight := inFlight - {h.tx};
      RewindAllocator(h.tx);
      return true;
    }

    method ReplaceReservedRead(h: Reservation, read: ReadRequest) returns (ok: bool)
      requires Valid()
      modifies this
      ensures Valid() && (View(), ok) == ReplaceRead(old(View()), h, read)
    {
      hide Inv;
      if !ValidRead(read) || !Names(h, Reserved) {
        return false;
      }
      var r := inFlight[h.tx];
      if !r.kind.ReadRegisters? || r.kind.read.function_ != read.function_ {
        return false;
      }
      InFlightTx(View(), h.tx);
      UpdateKeeps(View(), h.tx, r.(kind := ReadRegisters(read)));
      inFlight := inFlight[h.tx := r.(kind := ReadRegisters(read))];
      return true;
    }

    method MarkWriteInvoked(h: Reservation) returns (ok: bool)
      requires Valid()
      modifies this
      ensures Valid() && (View(), ok) == OwnerModel.MarkWriteInvoked(old(View()), h)
    {
      hide Inv;
      if !Names(h, Reserved) {
        return false;
      }
      InFlightTx(View(), h.tx);
      UpdateKeeps(View(), h.tx, inFlight[h.tx].(phase := WriteInvoked));
      inFlight := inFlight[h.tx := inFlight[h.tx].(phase := WriteInvoked)];
      return true;
    }

    // ---------- Failing ----------

    method AddTombstone(r: Owned)
      modifies `tombstones, `closing
      ensures View() == Bury(old(View()), r)
    {
      if |tombstones| < limits.maxTombstones {
        tombstones := tombstones[r.tx := r];
      } else {
        closing := Some(r);
      }
    }

    /** Reports every request in flight except one, oldest first, and takes all of them off the wire. */
    method FailAllExcept(id: Uint16) returns (failed: seq<Reservation>)
      requires OnePhysEach(inFlight)
      modifies `inFlight
      ensures inFlight == map[] && failed == Failures(old(inFlight) - {id})
    {
      failed := SortedHandles(inFlight - {id});
      inFlight := map[];
    }

    method SpoilSocket(r: Owned) returns (outcome: Outcome)
      requires Valid() && r.tx in inFlight && inFlight[r.tx] == r
      modifies this
      ensures Valid() && (View(), outcome) == Spoil(old(View()), r)
    {
      hide Inv, Bury;
      SpoilKeeps(View(), r.tx);
      OnePhys(View());
      AddTombstone(r);
      var failed := FailAllExcept(r.tx);
      closed := true;
      return Outcome(true, true, failed);
    }

    /** The response came before the result of its own write: only a complete write fits it. */
    method RecordOvertaken(h: Reservation, result: Result) returns (outcome: Outcome)
      requires h.phys in early
      modifies this
      ensures var o := old(View());
              if !h.mine || h.generation != o.generation || h.tx != o.early[h.phys] || result != Complete
              then View() == o.(closed := true) && outcome == Outcome(false, true, [])
              else View() == o.(early := o.early - {h.phys}) && outcome == Outcome(true, false, [])
    {
      if !h.mine || h.generation != generation || h.tx != early[h.phys] || result != Complete {
        closed := true;
        return Outcome(false, true, []);
      }
      early := early - {h.phys};
      return Outcome(true, false, []);
    }

    method RecordInvoked(r: Owned, result: Result, until: GoInt) returns (outcome: Outcome)
      requires Valid() && r.tx in inFlight && inFlight[r.tx] == r
      modifies this
      ensures var o := old(View());
              match result
              case ProvableZero => View() == Rewind(o.(inFlight := o.inFlight - {r.tx}), r.tx) && outcome == Outcome(true, false, [])
              case Complete => View() == AwaitResponse(o, r, until) && outcome == Outcome(true, false, [])
              case _ => (View(), outcome) == Spoil(o, r)
    {
      hide Inv, Spoil, Rewind;
      match result
      case ProvableZero =>
        inFlight := inFlight - {r.tx};
        RewindAllocator(r.tx);
        return Outcome(true, false, []);
      case Complete =>
        inFlight := inFlight[r.tx := r.(deadline := if until > 0 then until else r.deadline, phase := Waiting)];
        return Outcome(true, false, []);
      case _ =>
        outcome := SpoilSocket(r);
    }

    method RecordTransmit(h: Reservation, result: Result, until: GoInt) returns (outcome: Outcome)
      requires Valid()
      modifies this
      ensures Valid() && (View(), outcome) == OwnerModel.RecordTransmit(old(View()), h, result, until)
    {
      hide Inv, Spoil, Rewind, AwaitResponse;
      TransmitKeeps(View(), h, result, until);
      if h.phys in early {
        outcome := RecordOvertaken(h, result);
        return;
      }
      if !Names(h, WriteInvoked) {
        return Outcome(false, false, []);
      }
      InFlightTx(View(), h.tx);
      outcome := RecordInvoked(inFlight[h.tx], result, until);
    }

    /** Buries a request that waited long enough, or gives the connection up when no tombstone is left. */
    method GiveUp(r: Owned) returns (outcome: Outcome)
      requires OnePhysEach(inFlight)
      modifies this
      ensures var o := old(View());
              if |o.tombstones| >= o.limits.maxTombstones then
                && View() == o.(closing := Some(r), pending := o.pending + Failures(o.inFlight - {r.tx}), inFlight := map[], closed := true)
                && outcome == Outcome(false, true, [])
              else View() == Bury(o, r).(inFlight := o.inFlight - {r.tx}) && outcome == Outcome(true, false, [])
    {
      if |tombstones| >= limits.maxTombstones {
        closing := Some(r);
        var failed := FailAllExcept(r.tx);
        pending := pending + failed;
        closed := true;
        return Outcome(false, true, []);
      }
      AddTombstone(r);
      inFlight := inFlight - {r.tx};
      return Outcome(true, false, []);
    }

    method AbandonAfterWrite(h: Reservation) returns (outcome: Outcome)
      requires Valid()
      modifies this
      ensures Valid() && (View(), outcome) == OwnerModel.AbandonAfterWrite(old(View()), h)
    {
      hide Inv, Spoil, Bury, Failures;
      AbandonKeeps(View(), h);
      OnePhys(View());
      if Names(h, Waiting) {
        InFlightTx(View(), h.tx);
        outcome := GiveUp(inFlight[h.tx]);
        return;
      }
      if !Names(h, WriteInvoked) {
        return Outcome(false, false, []);
      }
      InFlightTx(View(), h.tx);
      outcome := SpoilSocket(inFlight[h.tx]);
    }

    // ---------- Deadlines ----------

    /** Buries one overdue request; when no tombstone is left, everything else fails with it. */
    method BuryOverdue(r: Owned) returns (full: bool, failed: seq<Reservation>)
      requires OnePhysEach(inFlight)
      modifies this
      ensures full == (|old(tombstones)| >= limits.maxTombstones)
      ensures full ==>
                && failed == Failures(old(inFlight) - {r.tx})
                && View() == old(View()).(closing := Some(r), inFlight := map[], pending := old(pending) + failed, closed := true)
      ensures !full ==> View() == Bury(old(View()), r).(inFlight := old(inFlight) - {r.tx})
    {
      if |tombstones| >= limits.maxTombstones {
        closing := Some(r);
        inFlight := inFlight - {r.tx};
        NoneExcept(inFlight, r.tx);
        failed := FailAllExcept(r.tx);
        pending := pending + failed;
        closed := true;
        return true, failed;
      }
      AddTombstone(r);
      inFlight := inFlight - {r.tx};
      return false, [];
    }

    method AbandonExpired(now: GoInt) returns (expired: seq<Reservation>, outcome: Outcome)
      requires Valid()
      modifies this
      ensures Valid() && (View(), expired, outcome) == OwnerModel.AbandonExpired(old(View()), now)
    {
      hide Inv, Bury, Abandon, Failures, DueIn, Due, Remains;
      expired := [];
      if now < 0 {
        return expired, Outcome(false, false, []);
      }
      ghost var o, all := View(), DueIn(View(), now);
      var due := map id | id in inFlight && Due(inFlight[id], now) :: inFlight[id];
      DueAre(o, now);
      assert due == all;
      DueAreInFlight(o, now);
      ExpireKeeps(o, due);
      while due != map[]
        invariant Valid() && OnePhysEach(due)
        invariant forall id :: id in due ==> id in inFlight && inFlight[id] == due[id]
        invariant Remains(o, all, View(), due, expired)
        decreases |due|
      {
        var id := FindFirst(due);
        InFlightTx(View(), id);
        RemainsStep(o, all, View(), due, expired);
        OnePhys(View());
        BuryKeeps(View(), id);
        BuryStays(View(), due[id]);
        expired := expired + [Handle(due[id])];
        var full, failed := BuryOverdue(due[id]);
        if full {
          return expired, Outcome(false, true, failed);
        }
        due := due - {id};
      }
      RemainsNone(o, all, View(), expired);
      return expired, Outcome(true, false, []);
    }

    // ---------- Responses ----------

    method NewDiagnosticFrame() returns (response: Response)
      modifies `closed, `nextDiag
      ensures (View(), response) == Diagnose(old(View()))
    {
      if nextDiag == 0 {
        closed := true;
        return Exhausted;
      }
      response := Diagnostic(nextDiag);
      nextDiag := Successor(nextDiag);
    }

    method AnswerActive(r: Owned, f: Frame) returns (response: Response)
      modifies this
      ensures (View(), response) == CorrelateActive(old(View()), r, f)
    {
      hide Judge, Successor;
      var v := Judge(r, f);
      inFlight := inFlight - {r.tx};
      response := Answer(v == Good, false, r.phys, nextWire, v);
      nextWire := Successor(nextWire);
      if r.phase == WriteInvoked {
        early := early[r.phys := r.tx];
      }
    }

    method AnswerLate(f: Frame) returns (response: Response)
      modifies this
      ensures (View(), response) == CorrelateLate(old(View()), f)
    {
      hide Judge, Matches, Diagnose, Successor, SameBook;
      var t := if f.tx in tombstones then Some(tombstones[f.tx])
               else if closing.Some? && closing.value.tx == f.tx then closing
               else None;
      if t.None? || !Matches(t.value, f) {
        response := NewDiagnosticFrame();
        return;
      }
      response := Answer(false, true, t.value.phys, nextWire, Judge(t.value, f));
      nextWire := Successor(nextWire);
    }

    method Correlate(received: Uint64, f: Frame) returns (response: Response)
      requires Valid()
      modifies this
      ensures Valid() && (View(), response) == OwnerModel.Correlate(old(View()), received, f)
    {
      hide Inv, Matches, Diagnose, CorrelateActive, CorrelateLate, SameBook;
      CorrelateKeeps(View(), received, f);
      if received != generation {
        response := NewDiagnosticFrame();
      } else if nextWire == 0 {
        closed := true;
        response := NewDiagnosticFrame();
      } else if f.tx !in inFlight || closed {
        response := AnswerLate(f);
      } else if inFlight[f.tx].phase == Reserved || !Matches(inFlight[f.tx], f) {
        response := NewDiagnosticFrame();
      } else {
        response := AnswerActive(inFlight[f.tx], f);
      }
    }

    // ---------- Sockets ----------

    method BindTransport() returns (ok: bool)
      requires Valid()
      modifies this
      ensures Valid() && (View(), ok) == Bind(old(View()))
    {
      hide Inv;
      FlagsKeep(View(), Bind(View()).0);
      if closed || retired || bound {
        return false;
      }
      bound := true;
      return true;
    }

    /** Fails what is in flight and forgets the socket's requests, live and buried. */
    method Sweep() returns (failed: seq<Reservation>)
      requires OnePhysEach(inFlight)
      modifies `inFlight, `tombstones, `closing, `early, `closed, `bound
      ensures View() == Swept(old(View())) && failed == Failures(old(inFlight))
    {
      failed := SortedHandles(inFlight);
      inFlight, tombstones, closing, early := map[], map[], None, map[];
      closed, bound := true, false;
    }

    method LoseTransport() returns (outcome: Outcome)
      requires Valid()
      modifies this
      ensures Valid() && (View(), outcome) == OwnerModel.LoseTransport(old(View()))
    {
      hide Inv;
      OnePhys(View());
      if !bound {
        return Outcome(false, false, []);
      }
      SweepKeeps(View(), OwnerModel.LoseTransport(View()).0);
      var failed := Sweep();
      if pooled {
        retired := true;
      }
      return Outcome(true, true, failed);
    }

    method Close()
      requires Valid()
      modifies this
      ensures Valid() && View() == OwnerModel.Close(old(View()))
    {
      hide Inv;
      OnePhys(View());
      SweepKeeps(View(), OwnerModel.Close(View()));
      var failed := Sweep();
      pending := pending + failed;
    }

    method Retire()
      requires Valid()
      modifies this
      ensures Valid() && View() == OwnerModel.Retire(old(View()))
    {
      hide Inv;
      OnePhys(View());
      SweepKeeps(View(), OwnerModel.Retire(View()));
      var failed := Sweep();
      pending := pending + failed;
      retired, pooled := true, false;
    }

    method Reconnect(next: Uint64)
      requires Valid()
      modifies this
      ensures Valid() && View() == OwnerModel.Reconnect(old(View()), next)
    {
      hide Inv;
      if !closed || retired || bound || next == 0 {
        return;
      }
      SweepKeeps(View(), OwnerModel.Reconnect(View(), next));
      generation, closed, nextTx := next, false, 0;
      inFlight, tombstones, closing, early := map[], map[], None, map[];
    }

    method DrainFailedReservations() returns (failed: seq<Reservation>)
      requires Valid()
      modifies this
      ensures Valid() && (View(), failed) == Drain(old(View()))
    {
      hide Inv;
      FlagsKeep(View(), Drain(View()).0);
      failed := pending;
      pending := [];
    }
  }

  lemma {:induction false} ProbeStep(o: Owner, k: nat)
    requires k < IDS
    ensures Probe(o, k) == if Taken(o, Candidate(o.nextTx, k)) then Probe(o, k + 1) else k
  {
  }

  lemma {:induction false} NextCandidate(next: Uint16, k: nat)
    ensures (Candidate(next, k) + 1) % IDS == Candidate(next, k + 1)
  {
  }

  lemma {:induction false} OnePhys(o: Owner)
    requires Inv(o)
    ensures OnePhysEach(o.inFlight)
  {
  }

  lemma {:induction false} DueAre(o: Owner, now: GoInt)
    ensures DueIn(o, now) == map id | id in o.inFlight && Due(o.inFlight[id], now) :: o.inFlight[id]
  {
  }

  lemma {:induction false} DueAreInFlight(o: Owner, now: GoInt)
    requires Inv(o)
    ensures OnePhysEach(DueIn(o, now))
    ensures forall id :: id in DueIn(o, now) ==> id in o.inFlight && o.inFlight[id] == DueIn(o, now)[id]
    ensures Remains(o, DueIn(o, now), o, DueIn(o, now), [])
  {
    hide Abandon;
    assert [] + Abandon(o, DueIn(o, now)).1 == Abandon(o, DueIn(o, now)).1;
  }

  /** From `p`, with `due` left and `expired` already reported, the loop ends as it would have from the start. */
  ghost predicate Remains(o: Owner, all: Requests, p: Owner, due: Requests, expired: seq<Reservation>) {
    var rest := Abandon(p, due);
    Abandon(o, all) == (rest.0, expired + rest.1, rest.2)
  }

  lemma {:induction false} RemainsStep(o: Owner, all: Requests, p: Owner, due: Requests, expired: seq<Reservation>)
    requires due != map[] && Remains(o, all, p, due, expired)
    ensures var id := First(due);
            if |p.tombstones| >= p.limits.maxTombstones then
              var failed := Failures(p.inFlight - {id});
              Abandon(o, all) ==
                (p.(closing := Some(due[id]), inFlight := map[], pending := p.pending + failed, closed := true),
                 expired + [Handle(due[id])], Outcome(false, true, failed))
            else
              Remains(o, all, Bury(p, due[id]).(inFlight := p.inFlight - {id}), due - {id}, expired + [Handle(due[id])])
  {
    hide Failures, Bury;
    var id := First(due);
    var q := Bury(p, due[id]).(inFlight := p.inFlight - {id});
    assert expired + ([Handle(due[id])] + Abandon(q, due - {id}).1) == expired + [Handle(due[id])] + Abandon(q, due - {id}).1;
  }

  lemma {:induction false} RemainsNone(o: Owner, all: Requests, p: Owner, expired: seq<Reservation>)
    requires Remains(o, all, p, map[], expired)
    ensures Abandon(o, all) == (p, expired, Outcome(true, false, []))
  {
    assert expired + [] == expired;
  }

  lemma {:induction false} BuryStays(o: Owner, r: Owned)
    ensures Bury(o, r).inFlight == o.inFlight && Bury(o, r).limits == o.limits
  {
  }

  lemma {:induction false} NoneExcept(m: Requests, id: Uint16)
    requires id !in m
    ensures m - {id} == m
  {
  }
}
