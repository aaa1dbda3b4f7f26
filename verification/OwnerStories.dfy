/** The story of one physical request, told by the calls made to the owner and the answers they gave alone. */
module OwnerStories {
  import opened Common
  import opened Pdu
  import opened OwnerModel
  import opened OwnerSafety
  import OwnerWalk

  /** `Overtaken` was answered before its write was reported complete; `Abandoned` was given up after its write had begun. */
  datatype Stage = Held | Writing | Awaiting | Overtaken | Abandoned | Over

  datatype Story = Untold | Told(handle: Reservation, unit: Byte, kind: Kind, stage: Stage, due: GoInt)

  predicate Live(s: Story) {
    s.Told? && (s.stage == Held || s.stage == Writing || s.stage == Awaiting)
  }

  function PhaseOf(stage: Stage): Phase {
    match stage
    case Writing => WriteInvoked
    case Awaiting => Waiting
    case _ => Reserved
  }

  /** Everything in flight fails, or the whole socket with its books is gone. */
  function Fail(s: Story): Story {
    if Live(s) then s.(stage := Over) else s
  }

  /** It is given up itself, and an answer to it may still come. */
  function Lay(s: Story): Story {
    if Live(s) then s.(stage := Abandoned) else s
  }

  function Sweep(s: Story): Story {
    if s.Told? then s.(stage := Over) else s
  }

  ghost predicate Named(hs: seq<Reservation>, phys: Uint64) {
    exists i :: 0 <= i < |hs| && hs[i].phys == phys
  }

  /** What one call and its answer make of a story. */
  ghost function Tell(o: Owner, op: Op, phys: Uint64, s: Story): Story {
    match op
    case DoReserve(unit, kind, deadline) =>
      var issue := Reserve(o, unit, kind, deadline).1;
      if issue.Issued? && issue.handle.phys == phys then Told(issue.handle, unit, kind, Held, deadline) else s
    case DoTransmit(h, result, until) => TellTransmit(s, RecordTransmit(o, h, result, until).1, h.phys == phys, result, until)
    case DoExpire(now) =>
      var (_, expired, outcome) := AbandonExpired(o, now);
      if Named(expired, phys) then Lay(s) else if outcome.close then Fail(s) else s
    case DoAbandon(h) =>
      var outcome := AbandonAfterWrite(o, h).1;
      if h.phys == phys && (outcome.accepted || outcome.close) then Lay(s) else if outcome.close then Fail(s) else s
    case DoCorrelate(generation, f) =>
      var r := Correlate(o, generation, f).1;
      if r.Answer? && !r.late && r.phys == phys then TellAnswer(s) else s
    case DoLose => if LoseTransport(o).1.accepted then Sweep(s) else s
    case DoClose => Sweep(s)
    case DoRetire => Sweep(s)
    case DoReconnect(next) => if o.closed && !Reconnect(o, next).closed then Sweep(s) else s
    case DoBind => s
    case DoDrain => s
    case _ => if op.handle.phys == phys && s.Told? then TellCall(o, op, s) else s
  }

  ghost function TellCall(o: Owner, op: Op, s: Story): Story
    requires s.Told?
  {
    match op
    case DoCancel(h) => if CancelBeforeWrite(o, h).1 then s.(stage := Over) else s
    case DoReplace(h, read) => if ReplaceRead(o, h, read).1 then s.(kind := ReadRegisters(read)) else s
    case DoWrite(h) => if MarkWriteInvoked(o, h).1 then s.(stage := Writing) else s
    case _ => s
  }

  function TellTransmit(s: Story, outcome: Outcome, mine: bool, result: Result, until: GoInt): Story {
    if !outcome.accepted then s
    else if outcome.close then (if mine then Lay(s) else Fail(s))
    else if !mine || s.Untold? then s
    else if result == Complete && s.stage == Writing then s.(stage := Awaiting, due := if until > 0 then until else s.due)
    else s.(stage := Over)
  }

  function TellAnswer(s: Story): Story {
    if s.Untold? then s else s.(stage := if s.stage == Writing then Overtaken else Over)
  }

  ghost function StoryIn(o: Owner, ops: seq<Op>, phys: Uint64, s: Story): Story
    decreases |ops|
  {
    if ops == [] then s else StoryIn(Step(o, ops[0]), ops[1..], phys, Tell(o, ops[0], phys, s))
  }

  // ---------- The books hold exactly the story ----------

  ghost predicate Gone(m: Requests, phys: Uint64) {
    forall id :: id in m ==> m[id].phys != phys
  }

  ghost predicate Here(m: Requests, s: Story)
    requires s.Told?
  {
    && s.handle.tx in m
    && m[s.handle.tx] == Owned(s.handle.tx, s.handle.phys, s.handle.generation, s.unit, s.kind, PhaseOf(s.stage), s.due)
  }

  ghost predicate Fits(o: Owner, phys: Uint64, s: Story) {
    match s
    case Untold => phys == 0 || phys >= Bound(o)
    case Told(h, _, _, stage, _) =>
      && 0 < phys < Bound(o) && h.mine && h.phys == phys
      && (Live(s) ==> h.generation == o.generation && Here(o.inFlight, s))
      && (!Live(s) ==> Gone(o.inFlight, phys))
      && (stage == Overtaken <==> phys in o.early)
      && (stage == Overtaken ==> o.early[phys] == h.tx && h.generation == o.generation)
  }

  /** A reservation adds one request under a free identifier, or changes nothing but the allocator. */
  lemma {:induction false} ReserveIs(o: Owner, unit: Byte, kind: Kind, deadline: GoInt)
    ensures var (p, issue) := Reserve(o, unit, kind, deadline);
            if issue.Issued? then
              var r := Owned(issue.handle.tx, o.nextPhys, o.generation, unit, kind, Reserved, deadline);
              && !o.closed && o.nextPhys != 0 && issue.handle == Handle(r) && r.tx !in o.inFlight
              && p == o.(nextTx := p.nextTx, nextPhys := Successor(o.nextPhys), inFlight := o.inFlight[r.tx := r])
            else p == o.(closed := p.closed, nextTx := p.nextTx) && (o.closed ==> p.closed)
  {
    hide Probe, ValidRead, SameBook;
  }

  lemma {:induction false} ReserveFits(o: Owner, unit: Byte, kind: Kind, deadline: GoInt, phys: Uint64, s: Story)
    requires Inv(o) && Fits(o, phys, s)
    ensures Fits(Step(o, DoReserve(unit, kind, deadline)), phys, Tell(o, DoReserve(unit, kind, deadline), phys, s))
  {
    hide Reserve, Flight, Stones, Last, ValidLimits;
    ReserveIs(o, unit, kind, deadline);
  }

  /** The same but for what is in flight; `phys` was overtaken in both or in neither. */
  ghost predicate Alike(o: Owner, p: Owner, phys: Uint64) {
    && p.generation == o.generation && Bound(p) == Bound(o)
    && (phys in p.early <==> phys in o.early) && (phys in p.early ==> p.early[phys] == o.early[phys])
  }

  lemma {:induction false} OneOnly(o: Owner, id: Uint16, phys: Uint64, s: Story)
    requires Inv(o) && Fits(o, phys, s) && id in o.inFlight
    ensures o.inFlight[id].tx == id
    ensures o.inFlight[id].phys == phys <==> Live(s) && id == s.handle.tx
  {
    hide Buried;
    InFlightIssued(o, id);
  }

  lemma {:induction false} OtherFits(o: Owner, p: Owner, id: Uint16, phys: Uint64, s: Story)
    requires Inv(o) && Fits(o, phys, s) && Alike(o, p, phys) && id in o.inFlight && o.inFlight[id].phys != phys
    requires p.inFlight == o.inFlight - {id} || (id in p.inFlight && p.inFlight[id].phys != phys && p.inFlight == o.inFlight[id := p.inFlight[id]])
    ensures Fits(p, phys, s)
  {
    hide Inv, Bound;
    OneOnly(o, id, phys, s);
  }

  lemma {:induction false} LeavesFits(o: Owner, p: Owner, phys: Uint64, s: Story)
    requires Inv(o) && Fits(o, phys, s) && Alike(o, p, phys) && Live(s) && p.inFlight == o.inFlight - {s.handle.tx}
    ensures Fits(p, phys, s.(stage := Over))
  {
    hide Bound;
    forall id | id in p.inFlight
      ensures p.inFlight[id].phys != phys
    {
      OneOnly(o, id, phys, s);
    }
  }

  lemma {:induction false} LaidFits(o: Owner, phys: Uint64, s: Story)
    requires Fits(o, phys, Fail(s))
    ensures Fits(o, phys, Lay(s))
  {
  }

  lemma {:induction false} FailsFit(o: Owner, p: Owner, phys: Uint64, s: Story)
    requires Fits(o, phys, s) && Alike(o, p, phys) && p.inFlight == map[]
    ensures Fits(p, phys, Fail(s))
  {
    hide Bound;
  }

  /** A handle that names a live request names it by the story's own identifiers. */
  lemma {:induction false} HandleIs(o: Owner, h: Reservation, phase: Phase, phys: Uint64, s: Story)
    requires Inv(o) && Fits(o, phys, s) && h.phys == phys
    ensures RequestFor(o, h, phase).Some? <==>
              Live(s) && PhaseOf(s.stage) == phase && h.mine && h.tx == s.handle.tx && h.generation == s.handle.generation
    ensures RequestFor(o, h, phase).Some? ==> Here(o.inFlight, s) && RequestFor(o, h, phase).value == o.inFlight[h.tx]
  {
    hide Inv, Bound;
    if h.tx in o.inFlight {
      OneOnly(o, h.tx, phys, s);
    }
  }

  lemma {:induction false} CancelFits(o: Owner, h: Reservation, phys: Uint64, s: Story)
    requires Inv(o) && Fits(o, phys, s)
    ensures Fits(Step(o, DoCancel(h)), phys, Tell(o, DoCancel(h), phys, s))
  {
    WithdrawFits(o, h, Reserved, phys, s);
    hide Inv, Fits, Rewind, SameBook;
  }

  /** A request that leaves before anything was written, with its identifier rewound. */
  lemma {:induction false} WithdrawFits(o: Owner, h: Reservation, phase: Phase, phys: Uint64, s: Story)
    requires Inv(o) && Fits(o, phys, s)
    ensures RequestFor(o, h, phase).Some? ==>
              var p := Rewind(o.(inFlight := o.inFlight - {h.tx}), h.tx);
              Fits(p, phys, if h.phys == phys && s.Told? then s.(stage := Over) else s)
  {
    if RequestFor(o, h, phase).Some? {
      var p := Rewind(o.(inFlight := o.inFlight - {h.tx}), h.tx);
      hide Inv, Fits, Rewind;
      if h.phys == phys {
        HandleIs(o, h, phase, phys, s);
        LeavesFits(o, p, phys, s);
      } else {
        OtherFits(o, p, h.tx, phys, s);
      }
    }
  }

  /** The request of the story changes in place. */
  lemma {:induction false} ChangeFits(o: Owner, h: Reservation, phase: Phase, kind: Kind, stage: Stage, due: GoInt, s: Story)
    requires Inv(o) && Fits(o, h.phys, s) && RequestFor(o, h, phase).Some? && (stage == Held || stage == Writing || stage == Awaiting)
    ensures s.Told? && o.inFlight[h.tx].kind == s.kind && o.inFlight[h.tx].deadline == s.due && PhaseOf(s.stage) == phase && Live(s)
    ensures Fits(o.(inFlight := o.inFlight[h.tx := o.inFlight[h.tx].(kind := kind, phase := PhaseOf(stage), deadline := due)]), h.phys,
                 s.(kind := kind, stage := stage, due := due))
  {
    hide Inv;
    HandleIs(o, h, phase, h.phys, s);
  }

  lemma {:induction false} ReplaceFits(o: Owner, h: Reservation, read: ReadRequest, phys: Uint64, s: Story)
    requires Inv(o) && Fits(o, phys, s)
    ensures Fits(Step(o, DoReplace(h, read)), phys, Tell(o, DoReplace(h, read), phys, s))
  {
    hide Inv, Fits, ValidRead;
    if ReplaceRead(o, h, read).1 {
      if h.phys == phys {
        HandleIs(o, h, Reserved, phys, s);
        ChangeFits(o, h, Reserved, ReadRegisters(read), Held, s.due, s);
      } else {
        OtherFits(o, ReplaceRead(o, h, read).0, h.tx, phys, s);
      }
    }
  }

  lemma {:induction false} WriteFits(o: Owner, h: Reservation, phys: Uint64, s: Story)
    requires Inv(o) && Fits(o, phys, s)
    ensures Fits(Step(o, DoWrite(h)), phys, Tell(o, DoWrite(h), phys, s))
  {
    hide Inv, Fits;
    if MarkWriteInvoked(o, h).1 {
      if h.phys == phys {
        HandleIs(o, h, Reserved, phys, s);
        ChangeFits(o, h, Reserved, s.kind, Writing, s.due, s);
      } else {
        OtherFits(o, MarkWriteInvoked(o, h).0, h.tx, phys, s);
      }
    }
  }

  lemma {:induction false} AwaitFits(o: Owner, h: Reservation, until: GoInt, phys: Uint64, s: Story)
    requires Inv(o) && Fits(o, phys, s) && RequestFor(o, h, WriteInvoked).Some?
    ensures Fits(AwaitResponse(o, o.inFlight[h.tx], until), phys, TellTransmit(s, Outcome(true, false, []), h.phys == phys, Complete, until))
  {
    hide Inv, Fits;
    if h.phys == phys {
      HandleIs(o, h, WriteInvoked, phys, s);
      OneOnly(o, h.tx, phys, s);
      ChangeFits(o, h, WriteInvoked, s.kind, Awaiting, if until > 0 then until else s.due, s);
    } else {
      OneOnly(o, h.tx, phys, s);
      OtherFits(o, AwaitResponse(o, o.inFlight[h.tx], until), h.tx, phys, s);
    }
  }

  /** The report on a write whose answer was there already. */
  lemma {:induction false} LateReportFits(o: Owner, h: Reservation, result: Result, until: GoInt, phys: Uint64, s: Story)
    requires Inv(o) && Fits(o, phys, s) && h.phys in o.early
    ensures Fits(Step(o, DoTransmit(h, result, until)), phys, Tell(o, DoTransmit(h, result, until), phys, s))
  {
    hide Inv, Here, Failures;
  }

  lemma {:induction false} TransmitFits(o: Owner, h: Reservation, result: Result, until: GoInt, phys: Uint64, s: Story)
    requires Inv(o) && Fits(o, phys, s)
    ensures Fits(Step(o, DoTransmit(h, result, until)), phys, Tell(o, DoTransmit(h, result, until), phys, s))
  {
    hide Inv, Fits, Failures, AwaitResponse, Rewind, SameBook, Spoil, Fail, Lay;
    if h.phys in o.early {
      LateReportFits(o, h, result, until, phys, s);
    } else if RequestFor(o, h, WriteInvoked).Some? {
      match result
      case ProvableZero =>
        WithdrawFits(o, h, WriteInvoked, phys, s);
        if h.phys == phys {
          HandleIs(o, h, WriteInvoked, phys, s);
        }
      case Complete => AwaitFits(o, h, until, phys, s);
      case _ =>
        SpoilFits(o, o.inFlight[h.tx], phys, s);
        LaidFits(Spoil(o, o.inFlight[h.tx]).0, phys, s);
    }
  }

  lemma {:induction false} SpoilFits(o: Owner, r: Owned, phys: Uint64, s: Story)
    requires Fits(o, phys, s)
    ensures Fits(Spoil(o, r).0, phys, Fail(s))
    ensures Spoil(o, r).1.accepted && Spoil(o, r).1.close
  {
    hide Fits, Failures;
    FailsFit(o, Spoil(o, r).0, phys, s);
  }

  lemma {:induction false} AbandonFits(o: Owner, h: Reservation, phys: Uint64, s: Story)
    requires Inv(o) && Fits(o, phys, s)
    ensures Fits(Step(o, DoAbandon(h)), phys, Tell(o, DoAbandon(h), phys, s))
  {
    hide Inv, Fits, Failures, Bury, Fail, Lay;
    var p := AbandonAfterWrite(o, h).0;
    if RequestFor(o, h, Waiting).Some? {
      if |o.tombstones| >= o.limits.maxTombstones {
        FailsFit(o, p, phys, s);
        LaidFits(p, phys, s);
      } else {
        BuryFits(o, h.tx, phys, s);
      }
    } else if RequestFor(o, h, WriteInvoked).Some? {
      SpoilFits(o, o.inFlight[h.tx], phys, s);
      LaidFits(p, phys, s);
    }
  }

  lemma {:induction false} DueFits(o: Owner, due: Requests, phys: Uint64, s: Story)
    requires Inv(o) && Fits(o, phys, s) && forall id :: id in due ==> id in o.inFlight && o.inFlight[id] == due[id]
    ensures var (p, expired, outcome) := Abandon(o, due);
            Fits(p, phys, if Named(expired, phys) then Lay(s) else if outcome.close then Fail(s) else s)
    decreases |due|
  {
    if due == map[] {
      assert !Named([], phys);
    } else {
      var id := First(due);
      hide Inv, Fits, Failures, Bury, Abandon, Fail, Lay;
      if |o.tombstones| >= o.limits.maxTombstones {
        FullFits(o, due, phys, s);
      } else {
        OwnerWalk.AbandonStep(o, due);
        BuryFits(o, id, phys, s);
        BuryKeeps(o, id);
        var p := Bury(o, due[id]).(inFlight := o.inFlight - {id});
        var t := if due[id].phys == phys then Lay(s) else s;
        DueFits(p, due - {id}, phys, t);
        NamedCons(Handle(due[id]), Abandon(p, due - {id}).1, phys);
        LaidOnce(s);
      }
    }
  }

  lemma {:induction false} LaidOnce(s: Story)
    ensures Lay(Lay(s)) == Lay(s) && Fail(Lay(s)) == Lay(s)
  {
  }

  lemma {:induction false} FullFits(o: Owner, due: Requests, phys: Uint64, s: Story)
    requires Fits(o, phys, s) && due != map[] && |o.tombstones| >= o.limits.maxTombstones
    ensures Abandon(o, due).2.close && Fits(Abandon(o, due).0, phys, if Named(Abandon(o, due).1, phys) then Lay(s) else Fail(s))
  {
    hide Fits, Failures, Fail, Lay;
    FailsFit(o, Abandon(o, due).0, phys, s);
    LaidFits(Abandon(o, due).0, phys, s);
  }

  lemma {:induction false} BuryFits(o: Owner, id: Uint16, phys: Uint64, s: Story)
    requires Inv(o) && Fits(o, phys, s) && id in o.inFlight
    ensures Fits(Bury(o, o.inFlight[id]).(inFlight := o.inFlight - {id}), phys, if o.inFlight[id].phys == phys then Lay(s) else s)
  {
    hide Inv, Fits;
    var p := Bury(o, o.inFlight[id]).(inFlight := o.inFlight - {id});
    OneOnly(o, id, phys, s);
    if o.inFlight[id].phys == phys {
      LeavesFits(o, p, phys, s);
      LaidFits(p, phys, s);
    } else {
      OtherFits(o, p, id, phys, s);
    }
  }

  lemma {:induction false} NamedCons(h: Reservation, hs: seq<Reservation>, phys: Uint64)
    ensures Named([h] + hs, phys) <==> h.phys == phys || Named(hs, phys)
  {
    if Named(hs, phys) {
      var i :| 0 <= i < |hs| && hs[i].phys == phys;
      assert ([h] + hs)[i + 1].phys == phys;
    }
    assert ([h] + hs)[0] == h;
  }

  lemma {:induction false} CorrelateFits(o: Owner, generation: Uint64, f: Frame, phys: Uint64, s: Story)
    requires Inv(o) && Fits(o, phys, s)
    ensures Fits(Step(o, DoCorrelate(generation, f)), phys, Tell(o, DoCorrelate(generation, f), phys, s))
  {
    hide Inv, Judge, Matches, Fits, CorrelateActive, CorrelateLate, Diagnose, TellAnswer;
    if f.tx in o.inFlight && o.inFlight[f.tx].phase != Reserved {
      ActiveFits(o, f.tx, f, phys, s);
    }
    DiagnoseFits(o, o, f, phys, s);
    DiagnoseFits(o, o.(closed := true), f, phys, s);
  }

  lemma {:induction false} DiagnoseFits(o: Owner, q: Owner, f: Frame, phys: Uint64, s: Story)
    requires Fits(o, phys, s) && (q == o || q == o.(closed := true))
    ensures Fits(Diagnose(q).0, phys, s) && Fits(CorrelateLate(q, f).0, phys, s)
  {
    hide Fits, Judge, Matches;
    SameFits(o, Diagnose(q).0, phys, s);
    SameFits(o, CorrelateLate(q, f).0, phys, s);
  }

  lemma {:induction false} SameFits(o: Owner, p: Owner, phys: Uint64, s: Story)
    requires Fits(o, phys, s) && Alike(o, p, phys) && p.inFlight == o.inFlight
    ensures Fits(p, phys, s)
  {
  }

  lemma {:induction false} ActiveFits(o: Owner, id: Uint16, f: Frame, phys: Uint64, s: Story)
    requires Inv(o) && Fits(o, phys, s) && id in o.inFlight && o.inFlight[id].phase != Reserved
    ensures var (p, r) := CorrelateActive(o, o.inFlight[id], f);
            r.Answer? && !r.late && Fits(p, phys, if r.phys == phys then TellAnswer(s) else s)
  {
    var r := o.inFlight[id];
    var p := CorrelateActive(o, r, f).0;
    OneOnly(o, id, phys, s);
    hide Inv, Judge, Here, Bound;
    if r.phys == phys {
      var q := p.(early := o.early);
      LeavesFits(o, q, phys, s);
    } else {
      OtherFits(o, p, id, phys, s);
    }
  }

  lemma {:induction false} SocketFits(o: Owner, op: Op, phys: Uint64, s: Story)
    requires Inv(o) && Fits(o, phys, s) && (op.DoBind? || op.DoLose? || op.DoClose? || op.DoRetire? || op.DoReconnect? || op.DoDrain?)
    ensures Fits(Step(o, op), phys, Tell(o, op, phys, s))
  {
    hide Inv, Failures;
  }

  lemma {:induction false} StepFits(o: Owner, op: Op, phys: Uint64, s: Story)
    requires Inv(o) && Fits(o, phys, s)
    ensures Fits(Step(o, op), phys, Tell(o, op, phys, s))
  {
    hide Inv, Fits, Step, Tell, Abandon;
    match op
    case DoReserve(unit, kind, deadline) => ReserveFits(o, unit, kind, deadline, phys, s);
    case DoCancel(h) => CancelFits(o, h, phys, s);
    case DoReplace(h, read) => ReplaceFits(o, h, read, phys, s);
    case DoWrite(h) => WriteFits(o, h, phys, s);
    case DoTransmit(h, result, until) => TransmitFits(o, h, result, until, phys, s);
    case DoExpire(now) => ExpireFits(o, now, phys, s);
    case DoAbandon(h) => AbandonFits(o, h, phys, s);
    case DoCorrelate(generation, f) => CorrelateFits(o, generation, f, phys, s);
    case _ => SocketFits(o, op, phys, s);
  }

  lemma {:induction false} ExpireFits(o: Owner, now: GoInt, phys: Uint64, s: Story)
    requires Inv(o) && Fits(o, phys, s)
    ensures Fits(Step(o, DoExpire(now)), phys, Tell(o, DoExpire(now), phys, s))
  {
    hide Inv, Fits, Abandon;
    if now >= 0 {
      DueFits(o, DueIn(o, now), phys, s);
    }
  }

  lemma {:induction false} RunFits(o: Owner, ops: seq<Op>, phys: Uint64, s: Story)
    requires Inv(o) && Fits(o, phys, s)
    ensures Fits(Run(o, ops), phys, StoryIn(o, ops, phys, s))
    decreases |ops|
  {
    hide Inv, Fits, Step, Tell;
    if ops != [] {
      StepKeeps(o, ops[0]);
      StepFits(o, ops[0], phys, s);
      RunFits(Step(o, ops[0]), ops[1..], phys, Tell(o, ops[0], phys, s));
    }
  }

  // ---------- The story decides ----------

  /** The story of a physical request in a run of a new owner. */
  ghost function StoryOf(l: Limits, generation: Uint64, pooled: bool, ops: seq<Op>, phys: Uint64): Story {
    StoryIn(New(l, generation, pooled), ops, phys, Untold)
  }

  lemma {:induction false} StoryFits(l: Limits, generation: Uint64, pooled: bool, ops: seq<Op>, phys: Uint64)
    requires ValidLimits(l)
    ensures Inv(Run(New(l, generation, pooled), ops)) && Fits(Run(New(l, generation, pooled), ops), phys, StoryOf(l, generation, pooled, ops, phys))
  {
    hide Inv, Run, StoryIn;
    NewInv(l, generation, pooled);
    RunKeeps(New(l, generation, pooled), ops);
    RunFits(New(l, generation, pooled), ops, phys, Untold);
  }

  predicate Holds(s: Story, h: Reservation) {
    s.Told? && h.mine && h.tx == s.handle.tx && h.generation == s.handle.generation
  }

  /** Which calls a handle is good for follows from how far its request has come. */
  lemma {:induction false} StoryDecides(l: Limits, generation: Uint64, pooled: bool, ops: seq<Op>, h: Reservation, read: ReadRequest)
    requires ValidLimits(l)
    ensures var o, s := Run(New(l, generation, pooled), ops), StoryOf(l, generation, pooled, ops, h.phys);
            && (CancelBeforeWrite(o, h).1 <==> Holds(s, h) && s.stage == Held)
            && (MarkWriteInvoked(o, h).1 <==> Holds(s, h) && s.stage == Held)
            && (ReplaceRead(o, h, read).1 <==>
                  Holds(s, h) && s.stage == Held && ValidRead(read) && s.kind.ReadRegisters? && s.kind.read.function_ == read.function_)
            && (AbandonAfterWrite(o, h).1 == Outcome(false, false, []) <==> !(Holds(s, h) && (s.stage == Writing || s.stage == Awaiting)))
  {
    hide Inv, Run, StoryOf, Failures, Rewind, Bury, ValidRead;
    StoryFits(l, generation, pooled, ops, h.phys);
    var o, s := Run(New(l, generation, pooled), ops), StoryOf(l, generation, pooled, ops, h.phys);
    HandleIs(o, h, Reserved, h.phys, s);
    HandleIs(o, h, WriteInvoked, h.phys, s);
    HandleIs(o, h, Waiting, h.phys, s);
  }

  /** The report of a write is taken exactly once it was begun, also when its answer came first. */
  lemma {:induction false} ReportDecides(l: Limits, generation: Uint64, pooled: bool, ops: seq<Op>, h: Reservation, result: Result, until: GoInt)
    requires ValidLimits(l)
    ensures var o, s := Run(New(l, generation, pooled), ops), StoryOf(l, generation, pooled, ops, h.phys);
            var outcome := RecordTransmit(o, h, result, until).1;
            && (outcome.accepted <==> Holds(s, h) && (s.stage == Writing || (s.stage == Overtaken && result == Complete)))
            && (outcome.close <==>
                  || (Holds(s, h) && s.stage == Writing && result != Complete && result != ProvableZero)
                  || (s.Told? && s.stage == Overtaken && !(Holds(s, h) && result == Complete)))
  {
    hide Inv, Run, StoryOf, Failures, Rewind, Bury;
    StoryFits(l, generation, pooled, ops, h.phys);
    var o, s := Run(New(l, generation, pooled), ops), StoryOf(l, generation, pooled, ops, h.phys);
    HandleIs(o, h, WriteInvoked, h.phys, s);
    EarlyIsTold(o, h.phys, s);
  }

  lemma {:induction false} EarlyIsTold(o: Owner, phys: Uint64, s: Story)
    requires Inv(o) && Fits(o, phys, s)
    ensures phys in o.early ==> s.Told? && s.stage == Overtaken
  {
    hide Flight, Stones, Last;
  }

  /** The data reply to a read, byte for byte; a device identification is judged by its own decoder. */
  predicate Answers(kind: Kind, f: Frame) {
    match kind
    case ReadRegisters(read) =>
      |f.pdu| == 2 + 2 * read.quantity && f.pdu[0] == read.function_ && f.pdu[1] == 2 * read.quantity
    case DeviceId => f.pdu != [] && (f.pdu[0] == 0x2b || f.pdu[0] == 0xab) && f.verdict == Good
  }

  /**
   Data is delivered for a request exactly when the frame came over its own live socket after its write was begun, carries
   its transaction and its unit, and is the reply to what was asked for.
   */
  lemma {:induction false} DeliversIff(l: Limits, generation: Uint64, pooled: bool, ops: seq<Op>, g: Uint64, f: Frame, phys: Uint64)
    requires ValidLimits(l)
    ensures var o, s := Run(New(l, generation, pooled), ops), StoryOf(l, generation, pooled, ops, phys);
            Delivers(o, DoCorrelate(g, f)) == Some(phys) <==>
              && s.Told? && (s.stage == Writing || s.stage == Awaiting)
              && g == s.handle.generation && !o.closed && o.nextWire != 0
              && f.tx == s.handle.tx && f.unit == s.unit && Answers(s.kind, f)
  {
    hide Inv, Run, StoryOf;
    StoryFits(l, generation, pooled, ops, phys);
    var o, s := Run(New(l, generation, pooled), ops), StoryOf(l, generation, pooled, ops, phys);
    CorrelateIs(o, g, f, phys, s);
    if Live(s) {
      InFlightTx(o, s.handle.tx);
      JudgeIs(o.inFlight[s.handle.tx], f);
    }
  }

  /** A frame touches a request only by its transaction, its unit and its function; any other leaves it waiting. */
  lemma {:induction false} CorrelateIs(o: Owner, g: Uint64, f: Frame, phys: Uint64, s: Story)
    requires Inv(o) && Fits(o, phys, s)
    ensures var r := Correlate(o, g, f).1;
            && (r.Answer? && !r.late && r.phys == phys <==>
                  && Live(s) && s.stage != Held && g == o.generation && !o.closed && o.nextWire != 0
                  && f.tx == s.handle.tx && Matches(o.inFlight[f.tx], f))
            && (r.Answer? && !r.late && r.phys == phys ==> r.deliverable == (Judge(o.inFlight[f.tx], f) == Good))
            && (r.Answer? && r.deliverable ==> !r.late)
  {
    hide Inv, Judge, Matches, Bound, Diagnose, CorrelateLate, SameBook;
    if f.tx in o.inFlight {
      OneOnly(o, f.tx, phys, s);
    }
  }

  lemma {:induction false} JudgeIs(r: Owned, f: Frame)
    requires ValidKind(r.kind)
    ensures Matches(r, f) && Judge(r, f) == Good <==> f.unit == r.unit && Answers(r.kind, f)
  {
  }
}
