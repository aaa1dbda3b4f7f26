/** What becomes of a request that was given up after its write, and when requests are issued, expire and are answered late. */
module OwnerGraves {
  import opened Common
  import opened Pdu
  import opened OwnerModel
  import opened OwnerSafety
  import opened OwnerStories
  import OwnerWalk

  // ---------- Tombstones hold exactly what was given up ----------

  ghost predicate Lies(r: Owned, s: Story)
    requires s.Told?
  {
    r.tx == s.handle.tx && r.phys == s.handle.phys && r.unit == s.unit && r.kind == s.kind
  }

  predicate GivenUp(s: Story) {
    s.Told? && s.stage == Abandoned
  }

  /** It has a grave, and no other bears its physical identity. */
  ghost predicate Interred(o: Owner, s: Story)
    requires s.Told?
  {
    && ((s.handle.tx in o.tombstones && Lies(o.tombstones[s.handle.tx], s)) || (o.closing.Some? && Lies(o.closing.value, s)))
    && (forall id :: id in o.tombstones && o.tombstones[id].phys == s.handle.phys ==> Lies(o.tombstones[id], s))
    && (o.closing.Some? && o.closing.value.phys == s.handle.phys ==> Lies(o.closing.value, s))
  }

  ghost predicate Nowhere(o: Owner, phys: Uint64) {
    Gone(o.tombstones, phys) && (o.closing.Some? ==> o.closing.value.phys != phys)
  }

  ghost predicate Graves(o: Owner, phys: Uint64, s: Story) {
    && (o.closing.Some? ==> o.closed && o.inFlight == map[] && o.closing.value.tx !in o.tombstones)
    && (GivenUp(s) ==> s.handle.generation == o.generation && Interred(o, s))
    && (!GivenUp(s) ==> Nowhere(o, phys))
  }

  /** Nothing was buried or dug up, and what is in flight on a socket that was given up is nothing still. */
  lemma {:induction false} SameGraves(o: Owner, p: Owner, phys: Uint64, s: Story, t: Story)
    requires Graves(o, phys, s) && p.tombstones == o.tombstones && p.closing == o.closing && p.generation == o.generation
    requires o.closing.Some? ==> p.closed && p.inFlight == map[]
    requires t == s || (!GivenUp(s) && !GivenUp(t))
    ensures Graves(p, phys, t)
  {
  }

  /** `q` has one grave more than `o`: under the identifier of the request, or, when there is no room, as the last one of the socket. */
  ghost predicate OneMore(o: Owner, q: Owner, r: Owned) {
    && q.generation == o.generation && o.closing == None && r.tx !in o.tombstones
    && if q.closing.None? then q.tombstones == o.tombstones[r.tx := r]
       else q.tombstones == o.tombstones && q.closing == Some(r) && q.closed && q.inFlight == map[]
  }

  lemma {:induction false} OtherGrave(o: Owner, q: Owner, r: Owned, phys: Uint64, s: Story, t: Story)
    requires Graves(o, phys, s) && OneMore(o, q, r) && r.phys != phys && (s.Told? ==> s.handle.phys == phys) && (t == s || (!GivenUp(s) && !GivenUp(t)))
    ensures Graves(q, phys, t)
  {
  }

  lemma {:induction false} OwnGrave(o: Owner, q: Owner, r: Owned, phys: Uint64, s: Story)
    requires Graves(o, phys, s) && OneMore(o, q, r) && Live(s) && Lies(r, s) && s.handle.generation == o.generation && s.handle.phys == phys
    ensures Graves(q, phys, Lay(s))
  {
  }

  lemma {:induction false} BuryGraves(o: Owner, q: Owner, id: Uint16, phys: Uint64, s: Story, t: Story)
    requires Inv(o) && Fits(o, phys, s) && Graves(o, phys, s) && id in o.inFlight
    requires q.tombstones == Bury(o, o.inFlight[id]).tombstones && q.closing == Bury(o, o.inFlight[id]).closing && q.generation == o.generation
    requires q.closing.Some? ==> q.closed && q.inFlight == map[]
    requires if o.inFlight[id].phys == phys then t == Lay(s) else t == s || t == Fail(s)
    ensures Graves(q, phys, t)
  {
    hide Inv, Graves;
    OneOnly(o, id, phys, s);
    GraveFree(o, id);
    StillOpen(o, phys, s);
    if o.inFlight[id].phys == phys {
      hide Bound;
      OwnGrave(o, q, o.inFlight[id], phys, s);
    } else {
      assert s.Told? ==> s.handle.phys == phys;
      hide Fits;
      OtherGrave(o, q, o.inFlight[id], phys, s, t);
    }
  }

  lemma {:induction false} GraveFree(o: Owner, id: Uint16)
    requires Inv(o) && id in o.inFlight
    ensures id !in o.tombstones && o.inFlight[id].tx == id
  {
    hide Buried, Flight;
    InFlightTx(o, id);
  }

  lemma {:induction false} SpoilGraves(o: Owner, id: Uint16, phys: Uint64, s: Story)
    requires Inv(o) && Fits(o, phys, s) && Graves(o, phys, s) && id in o.inFlight
    ensures Graves(Spoil(o, o.inFlight[id]).0, phys, if o.inFlight[id].phys == phys then Lay(s) else Fail(s))
  {
    hide Inv, Fits, Graves, Failures, Lay, Fail;
    BuryGraves(o, Spoil(o, o.inFlight[id]).0, id, phys, s, if o.inFlight[id].phys == phys then Lay(s) else Fail(s));
  }

  /** Neither buried nor dug up, and nothing is sent on a socket that has nothing in flight. */
  ghost predicate Undisturbed(o: Owner, p: Owner) {
    && p.tombstones == o.tombstones && p.closing == o.closing && p.generation == o.generation && (o.closed ==> p.closed)
    && (o.inFlight == map[] ==> p.inFlight == map[])
  }

  lemma {:induction false} CallUndisturbed(o: Owner, op: Op)
    requires op.DoCancel? || op.DoReplace? || op.DoWrite?
    ensures Undisturbed(o, Step(o, op))
  {
    hide ValidRead;
  }

  lemma {:induction false} CallTells(o: Owner, op: Op, phys: Uint64, s: Story)
    requires Inv(o) && Fits(o, phys, s) && (op.DoCancel? || op.DoReplace? || op.DoWrite?)
    ensures Tell(o, op, phys, s) == s || (!GivenUp(s) && !GivenUp(Tell(o, op, phys, s)))
  {
    hide Inv, Fits, ValidRead, Rewind;
    if op.handle.phys == phys {
      HandleIs(o, op.handle, Reserved, phys, s);
    }
  }

  lemma {:induction false} CallGraves(o: Owner, op: Op, phys: Uint64, s: Story)
    requires Inv(o) && Fits(o, phys, s) && Graves(o, phys, s) && (op.DoCancel? || op.DoReplace? || op.DoWrite?)
    ensures Graves(Step(o, op), phys, Tell(o, op, phys, s))
  {
    hide Inv, Fits, Interred, Nowhere, Step, Tell;
    CallTells(o, op, phys, s);
    CallUndisturbed(o, op);
    SameGraves(o, Step(o, op), phys, s, Tell(o, op, phys, s));
  }

  lemma {:induction false} ReserveGraves(o: Owner, unit: Byte, kind: Kind, deadline: GoInt, phys: Uint64, s: Story)
    requires Inv(o) && Fits(o, phys, s) && Graves(o, phys, s)
    ensures Graves(Step(o, DoReserve(unit, kind, deadline)), phys, Tell(o, DoReserve(unit, kind, deadline), phys, s))
  {
    hide Inv, Reserve, Interred, Nowhere;
    ReserveIs(o, unit, kind, deadline);
    SameGraves(o, Step(o, DoReserve(unit, kind, deadline)), phys, s, Tell(o, DoReserve(unit, kind, deadline), phys, s));
  }

  lemma {:induction false} ReportUndisturbed(o: Owner, h: Reservation, result: Result, until: GoInt)
    requires h.phys in o.early || RequestFor(o, h, WriteInvoked).None? || result == ProvableZero || result == Complete
    ensures Undisturbed(o, RecordTransmit(o, h, result, until).0)
    ensures h.phys !in o.early && RequestFor(o, h, WriteInvoked).None? ==> !RecordTransmit(o, h, result, until).1.accepted
    ensures !(RecordTransmit(o, h, result, until).1.accepted && RecordTransmit(o, h, result, until).1.close)
  {
  }

  lemma {:induction false} TransmitGraves(o: Owner, h: Reservation, result: Result, until: GoInt, phys: Uint64, s: Story)
    requires Inv(o) && Fits(o, phys, s) && Graves(o, phys, s)
    ensures Graves(Step(o, DoTransmit(h, result, until)), phys, Tell(o, DoTransmit(h, result, until), phys, s))
  {
    hide Inv, Fits, Interred, Nowhere;
    if h.phys == phys {
      HandleIs(o, h, WriteInvoked, phys, s);
      EarlyIsTold(o, phys, s);
    }
    var op := DoTransmit(h, result, until);
    if h.phys !in o.early && RequestFor(o, h, WriteInvoked).Some? && result != ProvableZero && result != Complete {
      hide Failures, Spoil, Graves;
      SpoilGraves(o, h.tx, phys, s);
      SpoilCloses(o, o.inFlight[h.tx]);
    } else {
      hide RecordTransmit;
      ReportUndisturbed(o, h, result, until);
      SameGraves(o, Step(o, op), phys, s, Tell(o, op, phys, s));
    }
  }

  lemma {:induction false} SpoilCloses(o: Owner, r: Owned)
    ensures Spoil(o, r).1.accepted && Spoil(o, r).1.close
  {
  }

  lemma {:induction false} AbandonGraves(o: Owner, h: Reservation, phys: Uint64, s: Story)
    requires Inv(o) && Fits(o, phys, s) && Graves(o, phys, s)
    ensures Graves(Step(o, DoAbandon(h)), phys, Tell(o, DoAbandon(h), phys, s))
  {
    hide Inv, Fits, Graves, Failures, Spoil, Lay, Fail;
    var p := AbandonAfterWrite(o, h).0;
    if RequestFor(o, h, Waiting).Some? {
      StillOpen(o, phys, s);
      BuryGraves(o, p, h.tx, phys, s, Tell(o, DoAbandon(h), phys, s));
    } else if RequestFor(o, h, WriteInvoked).Some? {
      SpoilGraves(o, h.tx, phys, s);
      SpoilCloses(o, o.inFlight[h.tx]);
    }
  }

  lemma {:induction false} DueGraves(o: Owner, due: Requests, phys: Uint64, s: Story)
    requires Inv(o) && Fits(o, phys, s) && Graves(o, phys, s)
    requires forall id :: id in due ==> id in o.inFlight && o.inFlight[id] == due[id]
    ensures var (p, expired, outcome) := Abandon(o, due);
            Graves(p, phys, if Named(expired, phys) then Lay(s) else if outcome.close then Fail(s) else s)
    decreases |due|
  {
    if due == map[] {
      assert !Named([], phys);
    } else {
      var id := First(due);
      hide Inv, Fits, Graves, Failures, Abandon, Fail, Lay;
      if |o.tombstones| >= o.limits.maxTombstones {
        LastGrave(o, due, phys, s);
      } else {
        OwnerWalk.AbandonStep(o, due);
        var p := Bury(o, due[id]).(inFlight := o.inFlight - {id});
        var t := if due[id].phys == phys then Lay(s) else s;
        BuryFits(o, id, phys, s);
        BuryKeeps(o, id);
        StillOpen(o, phys, s);
        BuryGraves(o, p, id, phys, s, t);
        DueGraves(p, due - {id}, phys, t);
        NamedCons(Handle(due[id]), Abandon(p, due - {id}).1, phys);
        LaidOnce(s);
      }
    }
  }

  lemma {:induction false} StillOpen(o: Owner, phys: Uint64, s: Story)
    requires Graves(o, phys, s) && o.inFlight != map[]
    ensures o.closing == None
  {
  }

  lemma {:induction false} LastGrave(o: Owner, due: Requests, phys: Uint64, s: Story)
    requires Inv(o) && Fits(o, phys, s) && Graves(o, phys, s) && due != map[] && |o.tombstones| >= o.limits.maxTombstones
    requires forall id :: id in due ==> id in o.inFlight && o.inFlight[id] == due[id]
    ensures Abandon(o, due).2.close && Graves(Abandon(o, due).0, phys, if Named(Abandon(o, due).1, phys) then Lay(s) else Fail(s))
  {
    var id := First(due);
    OwnerWalk.AbandonFull(o, due);
    NamedCons(Handle(due[id]), [], phys);
    assert [Handle(due[id])] + [] == [Handle(due[id])];
    hide Inv, Fits, Graves, Failures, Lay, Fail;
    BuryGraves(o, Abandon(o, due).0, id, phys, s, if due[id].phys == phys then Lay(s) else Fail(s));
  }

  lemma {:induction false} FrameUndisturbed(o: Owner, generation: Uint64, f: Frame)
    ensures Undisturbed(o, Correlate(o, generation, f).0)
  {
    hide Judge, Matches, CorrelateLate, Diagnose, CorrelateActive;
    NoteUndisturbed(o, f);
    NoteUndisturbed(o.(closed := true), f);
    if f.tx in o.inFlight {
      ActiveUndisturbed(o, o.inFlight[f.tx], f);
    }
  }

  lemma {:induction false} ActiveUndisturbed(o: Owner, r: Owned, f: Frame)
    ensures Undisturbed(o, CorrelateActive(o, r, f).0)
  {
    hide Judge;
  }

  lemma {:induction false} NoteUndisturbed(o: Owner, f: Frame)
    ensures Undisturbed(o, Diagnose(o).0) && Undisturbed(o, CorrelateLate(o, f).0)
  {
    hide Judge, Matches;
  }

  lemma {:induction false} CorrelateGraves(o: Owner, generation: Uint64, f: Frame, phys: Uint64, s: Story)
    requires Inv(o) && Fits(o, phys, s) && Graves(o, phys, s)
    ensures Graves(Step(o, DoCorrelate(generation, f)), phys, Tell(o, DoCorrelate(generation, f), phys, s))
  {
    hide Inv, Fits, Interred, Nowhere, Correlate;
    CorrelateIs(o, generation, f, phys, s);
    FrameUndisturbed(o, generation, f);
    var op := DoCorrelate(generation, f);
    SameGraves(o, Step(o, op), phys, s, Tell(o, op, phys, s));
  }

  lemma {:induction false} SocketGraves(o: Owner, op: Op, phys: Uint64, s: Story)
    requires Inv(o) && Graves(o, phys, s) && (op.DoBind? || op.DoLose? || op.DoClose? || op.DoRetire? || op.DoReconnect? || op.DoDrain?)
    ensures Graves(Step(o, op), phys, Tell(o, op, phys, s))
  {
    hide Inv, Failures;
  }

  lemma {:induction false} StepGraves(o: Owner, op: Op, phys: Uint64, s: Story)
    requires Inv(o) && Fits(o, phys, s) && Graves(o, phys, s)
    ensures Graves(Step(o, op), phys, Tell(o, op, phys, s))
  {
    hide Inv, Fits, Graves, Step, Tell, Abandon;
    match op
    case DoReserve(unit, kind, deadline) => ReserveGraves(o, unit, kind, deadline, phys, s);
    case DoCancel(h) => CallGraves(o, op, phys, s);
    case DoReplace(h, read) => CallGraves(o, op, phys, s);
    case DoWrite(h) => CallGraves(o, op, phys, s);
    case DoTransmit(h, result, until) => TransmitGraves(o, h, result, until, phys, s);
    case DoExpire(now) => ExpireGraves(o, now, phys, s);
    case DoAbandon(h) => AbandonGraves(o, h, phys, s);
    case DoCorrelate(generation, f) => CorrelateGraves(o, generation, f, phys, s);
    case _ => SocketGraves(o, op, phys, s);
  }

  lemma {:induction false} ExpireGraves(o: Owner, now: GoInt, phys: Uint64, s: Story)
    requires Inv(o) && Fits(o, phys, s) && Graves(o, phys, s)
    ensures Graves(Step(o, DoExpire(now)), phys, Tell(o, DoExpire(now), phys, s))
  {
    hide Inv, Fits, Graves, Abandon;
    if now >= 0 {
      DueGraves(o, DueIn(o, now), phys, s);
    }
  }

  lemma {:induction false} RunGraves(o: Owner, ops: seq<Op>, phys: Uint64, s: Story)
    requires Inv(o) && Fits(o, phys, s) && Graves(o, phys, s)
    ensures Graves(Run(o, ops), phys, StoryIn(o, ops, phys, s))
    decreases |ops|
  {
    hide Inv, Fits, Graves, Step, Tell;
    if ops != [] {
      StepKeeps(o, ops[0]);
      StepFits(o, ops[0], phys, s);
      StepGraves(o, ops[0], phys, s);
      RunGraves(Step(o, ops[0]), ops[1..], phys, Tell(o, ops[0], phys, s));
    }
  }

  lemma {:induction false} StoryGraves(l: Limits, generation: Uint64, pooled: bool, ops: seq<Op>, phys: Uint64)
    requires ValidLimits(l)
    ensures Inv(Run(New(l, generation, pooled), ops)) && Run(New(l, generation, pooled), ops).limits == l
    ensures Fits(Run(New(l, generation, pooled), ops), phys, StoryOf(l, generation, pooled, ops, phys))
    ensures Graves(Run(New(l, generation, pooled), ops), phys, StoryOf(l, generation, pooled, ops, phys))
  {
    hide Run, StoryIn, Inv;
    StoryFits(l, generation, pooled, ops, phys);
    NewInv(l, generation, pooled);
    RunLimits(New(l, generation, pooled), ops);
    RunGraves(New(l, generation, pooled), ops, phys, Untold);
  }

  // ---------- Late answers ----------

  /** The function of a request, or the same with its high bit set. */
  predicate Speaks(kind: Kind, f: Frame) {
    var function_ := match kind { case ReadRegisters(read) => read.function_ case DeviceId => 0x2b };
    f.pdu != [] && (f.pdu[0] == function_ || f.pdu[0] == function_ + 0x80)
  }

  /** An answer is reported late exactly for a request given up on this socket, by its transaction, unit and function. */
  lemma {:induction false} LateIff(l: Limits, generation: Uint64, pooled: bool, ops: seq<Op>, g: Uint64, f: Frame, phys: Uint64)
    requires ValidLimits(l)
    ensures var o, s := Run(New(l, generation, pooled), ops), StoryOf(l, generation, pooled, ops, phys);
            var r := Correlate(o, g, f).1;
            r.Answer? && r.late && r.phys == phys <==>
              GivenUp(s) && g == s.handle.generation && o.nextWire != 0 && f.tx == s.handle.tx && f.unit == s.unit && Speaks(s.kind, f)
  {
    hide Run, StoryOf;
    StoryGraves(l, generation, pooled, ops, phys);
    var o, s := Run(New(l, generation, pooled), ops), StoryOf(l, generation, pooled, ops, phys);
    StonesApart(o, f.tx);
    LateIs(o, g, f, phys, s);
  }

  lemma {:induction false} StonesApart(o: Owner, id: Uint16)
    requires Inv(o)
    ensures !(id in o.inFlight && id in o.tombstones) && (id in o.tombstones ==> o.tombstones[id].tx == id)
  {
    hide Flight, Last;
  }

  lemma {:induction false} LateIs(o: Owner, g: Uint64, f: Frame, phys: Uint64, s: Story)
    requires Graves(o, phys, s) && (s.Told? ==> s.handle.phys == phys)
    requires !(f.tx in o.inFlight && f.tx in o.tombstones) && (f.tx in o.tombstones ==> o.tombstones[f.tx].tx == f.tx)
    ensures var r := Correlate(o, g, f).1;
            r.Answer? && r.late && r.phys == phys <==>
              GivenUp(s) && g == s.handle.generation && o.nextWire != 0 && f.tx == s.handle.tx && f.unit == s.unit && Speaks(s.kind, f)
  {
    hide Judge;
  }

  // ---------- Expiry ----------

  lemma {:induction false} OverdueNames(due: Requests, phys: Uint64)
    ensures Named(OwnerWalk.Overdue(due), phys) <==> exists id :: id in due && due[id].phys == phys
    decreases |due|
  {
    if due != map[] {
      var id := First(due);
      var rest := due - {id};
      OverdueNames(rest, phys);
      NamedCons(Handle(due[id]), OwnerWalk.Overdue(rest), phys);
      assert forall x :: x in due && x != id ==> x in rest && rest[x] == due[x];
    }
  }

  lemma {:induction false} ExpirableDue(o: Owner, now: GoInt)
    requires Inv(o)
    ensures OwnerWalk.Expirable(o, DueIn(o, now))
  {
    hide Buried, Flight;
    forall id | id in DueIn(o, now)
      ensures DueIn(o, now)[id].tx == id
    {
      InFlightTx(o, id);
    }
  }

  predicate Expired(s: Story, now: GoInt) {
    s.Told? && s.stage == Awaiting && 0 < s.due <= now
  }

  /** Only requests that wait past their deadline expire, and all of them do unless there is no room to bury them. */
  lemma {:induction false} ExpiresIff(l: Limits, generation: Uint64, pooled: bool, ops: seq<Op>, now: GoInt, phys: Uint64)
    requires ValidLimits(l)
    ensures var o, s := Run(New(l, generation, pooled), ops), StoryOf(l, generation, pooled, ops, phys);
            var (_, expired, outcome) := AbandonExpired(o, now);
            && (Named(expired, phys) ==> now >= 0 && Expired(s, now))
            && (now >= 0 && Expired(s, now) && !outcome.close ==> Named(expired, phys))
  {
    hide Run, StoryOf, Abandon, Named, Inv;
    StoryFits(l, generation, pooled, ops, phys);
    var o, s := Run(New(l, generation, pooled), ops), StoryOf(l, generation, pooled, ops, phys);
    if now >= 0 {
      DueIs(o, now, phys, s);
      ExpirableDue(o, now);
      OverdueNames(DueIn(o, now), phys);
      TakenAreDue(o, DueIn(o, now), phys);
    } else {
      NobodyNamed(phys);
    }
  }

  lemma {:induction false} NobodyNamed(phys: Uint64)
    ensures !Named([], phys)
  {
  }

  lemma {:induction false} TakenAreDue(o: Owner, due: Requests, phys: Uint64)
    requires OwnerWalk.Expirable(o, due)
    ensures Named(Abandon(o, due).1, phys) ==> Named(OwnerWalk.Overdue(due), phys)
    ensures !Abandon(o, due).2.close ==> Abandon(o, due).1 == OwnerWalk.Overdue(due)
  {
    hide Abandon, OwnerWalk.Overdue;
    if OwnerWalk.Fits(o, due) {
      OwnerWalk.ExpiryFits(o, due);
    } else {
      OwnerWalk.ExpiryOverflows(o, due);
      var all, n := OwnerWalk.Overdue(due), |Abandon(o, due).1|;
      assert Abandon(o, due).1 == all[..n];
    }
  }

  lemma {:induction false} DueIs(o: Owner, now: GoInt, phys: Uint64, s: Story)
    requires Inv(o) && Fits(o, phys, s)
    ensures (exists id :: id in DueIn(o, now) && DueIn(o, now)[id].phys == phys) <==> Expired(s, now)
  {
    hide Inv, Bound;
    if id :| id in DueIn(o, now) && DueIn(o, now)[id].phys == phys {
      OneOnly(o, id, phys, s);
    }
    if Expired(s, now) {
      assert s.handle.tx in DueIn(o, now) && DueIn(o, now)[s.handle.tx].phys == phys;
    }
  }

  // ---------- Issuing ----------

  /** A request is issued exactly on an open connection, for a legal unit and read, with room in flight and an identifier to give. */
  lemma {:induction false} ReservesIff(l: Limits, generation: Uint64, pooled: bool, ops: seq<Op>, unit: Byte, kind: Kind, deadline: GoInt)
    requires ValidLimits(l)
    ensures var o := Run(New(l, generation, pooled), ops);
            Reserve(o, unit, kind, deadline).1.Issued? <==>
              && (kind.ReadRegisters? ==> ValidRead(kind.read)) && unit <= 247 && !o.closed && !o.retired
              && |o.inFlight| + |o.early| < l.maxInFlight && (exists id: Uint16 :: id !in o.inFlight && id !in o.tombstones)
              && o.nextPhys != 0
  {
    hide Run;
    RunLimits(New(l, generation, pooled), ops);
    var o := Run(New(l, generation, pooled), ops);
    OwnerWalk.AllocationFailsIff(o);
    hide ValidRead, Probe, SameBook;
    if id: Uint16 :| id !in o.inFlight && id !in o.tombstones {
      assert !Taken(o, id);
    }
    if !(forall id: Uint16 :: Taken(o, id)) {
      var id: Uint16 :| !Taken(o, id);
      assert id !in o.inFlight && id !in o.tombstones;
    }
  }
}
