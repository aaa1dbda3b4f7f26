/** The story of the request on the RTU line, told by the calls made and the answers they gave, and what it decides. */
module RtuStories {
  import opened Common
  import opened Pdu
  import RtuAdu
  import RtuDecoder
  import Crc
  import opened RtuEndpointModel
  import opened RtuEndpointSafety

  /** When a request was begun and under which plan, when its transmission was complete, when the line was last heard after its answer. */
  datatype Story = Unbegun | Begun(id: Uint64, plan: Plan, begun: GoInt, sent: Option<GoInt>, heard: GoInt)

  /** What one call and its answer make of the story. */
  ghost function Tell(c: Config, e: Endpoint, op: Op, s: Story): Story {
    match op
    case DoBegin(plan, now) =>
      var r := Begin(e, plan, now).1;
      if r.Some? then Begun(r.value.id, plan, now, None, 0) else s
    case DoTransmit(_, _, now, _) =>
      if s.Begun? && e.phase == Writing && Step(c, e, op).phase == ResponseWait then s.(sent := Some(now)) else s
    case DoFeed(now, _) =>
      if s.Begun? && e.phase == InterFrameGuard && Step(c, e, op).phase == InterFrameGuard then s.(heard := now) else s
    case DoEnd(deviceId, now, cancelled, segment) =>
      if s.Begun? && EndFrame(c, e, deviceId, now, cancelled, segment).1.Response? then s.(heard := now) else s
    case _ => s
  }

  ghost function StoryIn(c: Config, e: Endpoint, ops: seq<Op>, s: Story): Story
    decreases |ops|
  {
    if ops == [] then s else StoryIn(c, Step(c, e, ops[0]), ops[1..], Tell(c, e, ops[0], s))
  }

  /** The request on the line is the one the story tells of, and so is the guard after its answer. */
  ghost predicate Fits(c: Config, e: Endpoint, s: Story) {
    && (Busy(e.phase) ==>
          && s.Begun? && ValidPlan(s.plan) && e.current.Some?
          && e.current.value.id == s.id && e.current.value.generation == e.generation
          && e.current.value.unit == s.plan.unit && e.current.value.kind == s.plan.kind
          && e.current.value.written == s.begun && e.current.value.deadline == s.begun + s.plan.timeout
          && (e.phase == ResponseWait ==> s.sent == Some(e.current.value.completed)))
    && (e.phase == InterFrameGuard ==> s.Begun? && e.guard.deadline == s.heard + c.timing.t35)
  }

  /** A step that leaves request and guard as they are, or that leaves them behind. */
  ghost predicate Passes(e: Endpoint, f: Endpoint) {
    || (f.phase == e.phase && f.current == e.current && f.generation == e.generation && f.guard == e.guard)
    || (!Busy(f.phase) && f.phase != InterFrameGuard)
  }

  lemma {:induction false} PassFits(c: Config, e: Endpoint, f: Endpoint, s: Story)
    requires Fits(c, e, s) && Passes(e, f)
    ensures Fits(c, f, s)
  {
  }

  lemma {:induction false} TimePasses(e: Endpoint, now: GoInt)
    ensures Passes(e, AtTime(e, now))
    ensures !Regresses(e, now) ==> AtTime(e, now) == e.(clock := Some(now))
  {
  }

  lemma {:induction false} BeginFits(c: Config, e: Endpoint, p: Plan, now: GoInt, s: Story)
    requires Fits(c, e, s)
    ensures Fits(c, Begin(e, p, now).0, Tell(c, e, DoBegin(p, now), s))
  {
    hide ValidPlan, Emit, Regresses;
    TimePasses(e, now);
    var (f, r) := Begin(e, p, now);
    if r.Some? {
      EmitIs(AtTime(e, now).(phase := Writing, ids := e.ids.(request := e.ids.request + 1), observed := None, current := r), 1);
    } else {
      PassFits(c, e, f, s);
    }
  }

  lemma {:induction false} TransmitFits(c: Config, e: Endpoint, h: Handle, result: Result, now: GoInt, cancelled: bool, s: Story)
    requires Fits(c, e, s)
    ensures Fits(c, CompleteTransmit(c, e, h, result, now, cancelled), Tell(c, e, DoTransmit(h, result, now, cancelled), s))
  {
    hide Regresses, Fits, Transmitted, ValidPlan;
    TimePasses(e, now);
    var f := CompleteTransmit(c, e, h, result, now, cancelled);
    if Matches(e, h) && e.phase == Writing && !Regresses(e, now) {
      TransmittedFits(c, e, AtTime(e, now), result, now, cancelled || now >= e.current.value.deadline, s);
    } else {
      PassFits(c, e, f, s);
    }
  }

  lemma {:induction false} TransmittedFits(c: Config, e: Endpoint, f: Endpoint, result: Result, now: GoInt, late: bool, s: Story)
    requires Fits(c, e, s) && e.phase == Writing && f == e.(clock := Some(now)) && e.current.Some?
    ensures var g := Transmitted(c, f, e.current.value, result, now, late);
            Fits(c, g, if s.Begun? && g.phase == ResponseWait then s.(sent := Some(now)) else s)
  {
    hide Emit, Enter, Interrupt, ValidPlan;
    var r := e.current.value;
    if result == Uncertain && CanEmit(f, 3) {
      InterruptPhase(c, f, r, now);
    } else if result == ProvableZero && CanEmit(f, 2) {
      EmitIs(f.(phase := Idle, current := None, observed := None), 2);
    } else if result == Complete && late && CanEmit(f, 3) {
      EnterPhase(c, f, r.(completed := now), now, 3);
    } else if result == Complete && !late && CanEmit(f, 1) {
      EmitIs(f.(phase := ResponseWait, current := Some(r.(completed := now))), 1);
    }
  }

  lemma {:induction false} TickPasses(c: Config, e: Endpoint, now: GoInt, cancelled: bool)
    ensures Passes(e, Tick(c, e, now, cancelled))
  {
    hide Regresses, Interrupt, Enter, Emit;
    TimePasses(e, now);
    if !Regresses(e, now) {
      var f := AtTime(e, now);
      if f.phase == Quarantine && CanEmit(f, 1) {
        EmitIs(f.(phase := RecoveryRequired, quarantined := None, decoder := RtuDecoder.Fresh), 1);
      } else if f.current.Some? && f.phase == Writing && CanEmit(f, 3) {
        InterruptPhase(c, f, f.current.value, now);
      } else if f.current.Some? && f.phase == ResponseWait && CanEmit(f, 2) {
        EnterPhase(c, f, f.current.value, f.current.value.completed, 2);
      }
    }
  }

  lemma {:induction false} AbandonPasses(c: Config, e: Endpoint, h: Handle, now: GoInt)
    ensures Passes(e, Abandon(c, e, h, now))
  {
    hide Regresses, Enter;
    TimePasses(e, now);
    if Matches(e, h) && e.phase == ResponseWait && CanEmit(e, 2) && !Regresses(e, now) {
      EnterPhase(c, AtTime(e, now), e.current.value, e.current.value.completed, 2);
    }
  }

  lemma {:induction false} FeedFits(c: Config, e: Endpoint, now: GoInt, value: bv8, s: Story)
    requires Fits(c, e, s)
    ensures Fits(c, FeedByte(c, e, now, value), Tell(c, e, DoFeed(now, value), s))
  {
    hide Regresses, Emit, RtuDecoder.Feed, ValidPlan;
    TimePasses(e, now);
    if !Regresses(e, now) {
      var f := AtTime(e, now);
      if CanEmit(f, 1) {
        EmitIs(f.(hold := f.hold.(sawBytes := false)).(phase := RecoveryRequired, quarantined := None, decoder := RtuDecoder.Fresh), 1);
        var deadline := Later(now, c.timing.t35);
        if f.phase == InterFrameGuard && deadline.Some? && f.discarded < MAX_UINT64 {
          EmitIs(f.(guard := f.guard.(deadline := deadline.value), discarded := f.discarded + 1), 1);
        }
      }
    }
  }

  lemma {:induction false} LatePasses(c: Config, e: Endpoint, r: Request)
    requires e.phase == ResponseWait
    ensures !DiscardLate(c, e, r).1.Response? && Passes(e, DiscardLate(c, e, r).0)
    ensures DiscardLate(c, e, r).0.phase == Quarantine || DiscardLate(c, e, r).0.phase == RecoveryRequired
  {
    hide Emit, Prepare;
    var hold := Prepare(c, e.observed, r.completed);
    if e.discarded < MAX_UINT64 && CanEmit(e, 3) && hold.Some? {
      EmitIs(e.(phase := Quarantine, hold := hold.value.(discarded := 1, sawBytes := false), quarantined := Some(r), current := None,
                decoder := RtuDecoder.Fresh, observed := None, discarded := e.discarded + 1), 3);
    }
  }

  lemma {:induction false} ReceiveFits(c: Config, e: Endpoint, r: Request, frame: Crc.Octets, now: GoInt, segment: Verdict, s: Story)
    requires Fits(c, e, s) && e.phase == ResponseWait
    ensures var (f, receipt) := Receive(c, e, r, frame, now, segment);
            Fits(c, f, if receipt.Response? then s.(heard := now) else s)
  {
    hide Emit, Judge, Candidate, ValidPlan;
    if CanEmit(e, 1) {
      if !Spent(e.ids.diagnostic) {
        EmitIs(e.(ids := e.ids.(diagnostic := e.ids.diagnostic + 1)), 1);
      }
      var deadline := Later(now, c.timing.t35);
      if deadline.Some? && !Spent(e.ids.wire) {
        EmitIs(e.(phase := InterFrameGuard, ids := e.ids.(wire := e.ids.wire + 1), guard := Guard(deadline.value, r.id, r.unit), current := None), 1);
      }
    }
  }

  lemma {:induction false} EndWaitingFits(c: Config, e: Endpoint, deviceId: bool, now: GoInt, cancelled: bool, segment: Verdict, s: Story)
    requires Fits(c, e, s) && e.phase == ResponseWait
    ensures var (f, receipt) := EndWaiting(c, e, deviceId, now, cancelled, segment);
            Fits(c, f, if receipt.Response? then s.(heard := now) else s)
  {
    hide Receive, DiscardLate, Fits;
    var (d, frame) := RtuDecoder.End(c.timing, e.decoder, now);
    if e.current.Some? && frame.Some? {
      var f := e.(decoder := d);
      PassFits(c, e, f, s);
      LatePasses(c, f, e.current.value);
      PassFits(c, f, DiscardLate(c, f, e.current.value).0, s);
      ReceiveFits(c, f, e.current.value, frame.value, now, segment, s);
    }
  }

  lemma {:induction false} DiscardPasses(c: Config, e: Endpoint)
    requires e.phase == Quarantine
    ensures !DiscardQuarantined(c, e).1.Response? && Passes(e, DiscardQuarantined(c, e).0)
  {
    hide Emit;
    var recovery := e.hold.discarded >= c.maxDiscarded;
    if e.discarded < MAX_UINT64 && e.hold.discarded < MAX_UINT64 && CanEmit(e, if recovery then 2 else 1) {
      var f := e.(discarded := e.discarded + 1, hold := e.hold.(discarded := e.hold.discarded + 1));
      EmitIs(f, 1);
      if recovery {
        EmitIs(Emit(f, 1).(phase := RecoveryRequired, quarantined := None), 1);
      }
    }
  }

  lemma {:induction false} ExpirePasses(e: Endpoint)
    ensures ExpireOnTraffic(e).phase == RecoveryRequired
  {
    hide Emit;
    if CanEmit(e, 1) {
      EmitIs(e.(hold := e.hold.(sawBytes := false)).(phase := RecoveryRequired, quarantined := None, decoder := RtuDecoder.Fresh), 1);
    }
  }

  lemma {:induction false} EndFits(c: Config, e: Endpoint, deviceId: bool, now: GoInt, cancelled: bool, segment: Verdict, s: Story)
    requires Fits(c, e, s)
    ensures Fits(c, EndFrame(c, e, deviceId, now, cancelled, segment).0, Tell(c, e, DoEnd(deviceId, now, cancelled, segment), s))
  {
    hide EndWaiting, DiscardQuarantined, ExpireOnTraffic, Regresses, ValidPlan;
    TimePasses(e, now);
    var f := AtTime(e, now);
    PassFits(c, e, f, s);
    if !Regresses(e, now) {
      ExpirePasses(f);
      if f.phase == Quarantine {
        DiscardPasses(c, f.(decoder := RtuDecoder.Fresh, hold := f.hold.(sawBytes := false), observed := None));
      } else if f.phase == ResponseWait {
        EndWaitingFits(c, f, deviceId, now, cancelled, segment, s);
      }
    }
  }

  lemma {:induction false} ResyncPasses(c: Config, e: Endpoint, now: GoInt)
    ensures Passes(e, Resynchronize(c, e, now))
  {
    hide Emit, Regresses;
    TimePasses(e, now);
    if !Regresses(e, now) {
      var f := AtTime(e, now);
      if CanEmit(f, 1) {
        EmitIs(f.(phase := RecoveryRequired), 1);
        ReleasePasses(f);
      }
      if CanEmit(f, 2) {
        ReleaseBufferedPasses(c, f);
      }
    }
  }

  lemma {:induction false} ReleasePasses(e: Endpoint)
    requires CanEmit(e, 1)
    ensures Release(e).phase == Idle
  {
    hide Emit;
    EmitIs(e.(phase := Idle, quarantined := None, hold := e.hold.(sawBytes := false, discarded := 0), observed := None,
              decoder := RtuDecoder.Fresh), 1);
  }

  lemma {:induction false} ReleaseBufferedPasses(c: Config, e: Endpoint)
    requires CanEmit(e, 2)
    ensures ReleaseBuffered(c, e).phase == Idle || ReleaseBuffered(c, e).phase == RecoveryRequired
  {
    hide Emit, Release;
    if e.discarded == MAX_UINT64 || e.hold.discarded == MAX_UINT64 {
      EmitIs(e.(phase := RecoveryRequired, quarantined := None, decoder := RtuDecoder.Fresh), 1);
    } else {
      EmitIs(e.(discarded := e.discarded + 1, hold := e.hold.(discarded := e.hold.discarded + 1)), 1);
      var f := Emit(e.(discarded := e.discarded + 1, hold := e.hold.(discarded := e.hold.discarded + 1)), 1);
      ReleasePasses(f);
      EmitIs(f.(phase := RecoveryRequired, quarantined := None, hold := f.hold.(sawBytes := false), decoder := RtuDecoder.Fresh), 1);
    }
  }

  lemma {:induction false} StopPasses(e: Endpoint, now: GoInt)
    ensures Passes(e, FailQuiescence(e, now)) && Passes(e, Close(e, now)) && Passes(e, Recover(e, now))
  {
    hide Emit, Regresses;
    TimePasses(e, now);
    if !Regresses(e, now) {
      var f := AtTime(e, now);
      if CanEmit(f, 1) {
        EmitIs(f.(phase := RecoveryRequired), 1);
        EmitIs(f.(phase := Closed, current := None, quarantined := None, guard := f.guard.(id := 0, unit := 0), observed := None,
                  decoder := RtuDecoder.Fresh), 1);
        if f.generation < MAX_UINT64 {
          EmitIs(NewGeneration(f), 1);
        }
      }
      if CanEmit(f, 2) && f.generation < MAX_UINT64 {
        EmitIs(NewGeneration(f), 2);
      }
    }
  }

  lemma {:induction false} StepFits(c: Config, e: Endpoint, op: Op, s: Story)
    requires Fits(c, e, s)
    ensures Fits(c, Step(c, e, op), Tell(c, e, op, s))
  {
    hide Fits, Passes, Begin, CompleteTransmit, Tick, Abandon, FeedByte, EndFrame, Resynchronize, FailQuiescence, Recover, Close;
    match op
    case DoBegin(plan, now) => BeginFits(c, e, plan, now, s);
    case DoTransmit(handle, result, now, cancelled) => TransmitFits(c, e, handle, result, now, cancelled, s);
    case DoTick(now, cancelled) =>
      TickPasses(c, e, now, cancelled);
      PassFits(c, e, Step(c, e, op), s);
    case DoAbandon(handle, now) =>
      AbandonPasses(c, e, handle, now);
      PassFits(c, e, Step(c, e, op), s);
    case DoFeed(now, value) => FeedFits(c, e, now, value, s);
    case DoEnd(deviceId, now, cancelled, segment) => EndFits(c, e, deviceId, now, cancelled, segment, s);
    case DoResync(now) =>
      ResyncPasses(c, e, now);
      PassFits(c, e, Step(c, e, op), s);
    case _ =>
      StopPasses(e, op.now);
      PassFits(c, e, Step(c, e, op), s);
  }

  lemma {:induction false} RunFits(c: Config, e: Endpoint, ops: seq<Op>, s: Story)
    requires Fits(c, e, s)
    ensures Fits(c, Run(c, e, ops), StoryIn(c, e, ops, s))
    decreases |ops|
  {
    hide Fits, Step, Tell;
    if ops != [] {
      StepFits(c, e, ops[0], s);
      RunFits(c, Step(c, e, ops[0]), ops[1..], Tell(c, e, ops[0], s));
    }
  }

  // ---------- The story decides ----------

  /** The story of the line in a run from the start. */
  ghost function StoryOf(c: Config, ops: seq<Op>): Story {
    StoryIn(c, New, ops, Unbegun)
  }

  lemma {:induction false} StoryFits(c: Config, ops: seq<Op>)
    ensures Fits(c, Run(c, New, ops), StoryOf(c, ops))
  {
    hide Run, StoryIn;
    RunFits(c, New, ops, Unbegun);
  }

  /** The frame names the unit and the function of the plan, or the function with its high bit set. */
  predicate Addressed(p: Plan, frame: Crc.Octets) {
    && |frame| > 1 && frame[0] == p.unit
    && (frame[1] as int == FunctionOf(p.kind) || frame[1] as int == FunctionOf(p.kind) + 0x80)
  }

  /** A frame can be ended in this state: something waits for it, the line was silent, and the call is of the right kind. */
  ghost predicate Ends(c: Config, e: Endpoint, s: Story, deviceId: bool, now: GoInt) {
    && e.phase == ResponseWait && !Regresses(e, now) && RtuDecoder.CanEnd(c.timing, e.decoder, now)
    && s.Begun? && s.plan.kind.DeviceId? == deviceId
  }

  ghost predicate InTime(s: Story, now: GoInt, cancelled: bool)
    requires s.Begun?
  {
    !cancelled && now < s.begun + s.plan.timeout
  }

  /**
   A response is handed out exactly when a frame ends in time after the request was sent, and answers the unit and the
   function of its plan; the last conditions say that no counter is used up.
   */
  lemma {:induction false} RespondsIff(c: Config, ops: seq<Op>, deviceId: bool, now: GoInt, cancelled: bool, segment: Verdict)
    requires ValidConfig(c)
    ensures var e, s := Run(c, New, ops), StoryOf(c, ops);
            var receipt := EndFrame(c, e, deviceId, now, cancelled, segment).1;
            && (receipt.Response? <==>
                  && Ends(c, e, s, deviceId, now) && InTime(s, now, cancelled) && Addressed(s.plan, e.decoder.buffer)
                  && e.sequence < MAX_UINT64 && 0 < e.ids.wire < MAX_UINT64 && now + c.timing.t35 <= MAX_INT)
            && (receipt.Response? ==>
                  && s.sent.Some? && receipt.request.id == s.id && receipt.frame == e.decoder.buffer
                  && (s.plan.kind.Read? ==> receipt.verdict == ReadVerdict(s.plan.unit, s.plan.kind.read, receipt.frame)))
  {
    hide Run, StoryOf;
    StoryFits(c, ops);
    var e, s := Run(c, New, ops), StoryOf(c, ops);
    EndIs(c, e, s, deviceId, now, cancelled, segment);
    if Ends(c, e, s, deviceId, now) && s.plan.kind.Read? {
      VerdictIs(e.current.value, e.decoder.buffer, segment);
    }
  }

  /** A frame that ends too late, or after its caller gave up, is never a response: the line goes into quarantine or needs recovery. */
  lemma {:induction false} LateIsDiscarded(c: Config, ops: seq<Op>, deviceId: bool, now: GoInt, cancelled: bool, segment: Verdict)
    requires ValidConfig(c)
    ensures var e, s := Run(c, New, ops), StoryOf(c, ops);
            var (f, receipt) := EndFrame(c, e, deviceId, now, cancelled, segment);
            Ends(c, e, s, deviceId, now) && !InTime(s, now, cancelled) ==>
              && (receipt == Discarded || receipt == Nothing) && (receipt == Discarded ==> f.phase == Quarantine)
              && (f.phase == Quarantine || f.phase == RecoveryRequired)
  {
    hide Run, StoryOf;
    StoryFits(c, ops);
    var e, s := Run(c, New, ops), StoryOf(c, ops);
    if Ends(c, e, s, deviceId, now) && !InTime(s, now, cancelled) {
      LateIs(c, e, s, deviceId, now, cancelled, segment);
    }
  }

  lemma {:induction false} LateIs(c: Config, e: Endpoint, s: Story, deviceId: bool, now: GoInt, cancelled: bool, segment: Verdict)
    requires Fits(c, e, s) && Ends(c, e, s, deviceId, now) && !InTime(s, now, cancelled)
    ensures var (f, receipt) := EndFrame(c, e, deviceId, now, cancelled, segment);
            && (receipt == Discarded || receipt == Nothing) && (receipt == Discarded ==> f.phase == Quarantine)
            && (f.phase == Quarantine || f.phase == RecoveryRequired)
  {
    hide Regresses, Receive, Prepare, ValidPlan, Emit;
    TimePasses(e, now);
    var f := AtTime(e, now).(decoder := RtuDecoder.Fresh);
    LatePasses(c, f, e.current.value);
    LateReceipt(c, f, e.current.value);
  }

  lemma {:induction false} LateReceipt(c: Config, e: Endpoint, r: Request)
    requires e.phase == ResponseWait
    ensures DiscardLate(c, e, r).1 == Discarded || DiscardLate(c, e, r).1 == Nothing
    ensures DiscardLate(c, e, r).1 == Discarded ==> DiscardLate(c, e, r).0.phase == Quarantine
  {
    hide Emit, Prepare;
    var hold := Prepare(c, e.observed, r.completed);
    if e.discarded < MAX_UINT64 && CanEmit(e, 3) && hold.Some? {
      EmitIs(e.(phase := Quarantine, hold := hold.value.(discarded := 1, sawBytes := false), quarantined := Some(r), current := None,
                decoder := RtuDecoder.Fresh, observed := None, discarded := e.discarded + 1), 3);
    }
  }

  lemma {:induction false} EndIs(c: Config, e: Endpoint, s: Story, deviceId: bool, now: GoInt, cancelled: bool, segment: Verdict)
    requires ValidConfig(c) && Fits(c, e, s)
    ensures var receipt := EndFrame(c, e, deviceId, now, cancelled, segment).1;
            && (receipt.Response? <==>
                  && Ends(c, e, s, deviceId, now) && InTime(s, now, cancelled) && Addressed(s.plan, e.decoder.buffer)
                  && e.sequence < MAX_UINT64 && 0 < e.ids.wire < MAX_UINT64 && now + c.timing.t35 <= MAX_INT)
            && (receipt.Response? ==>
                  receipt.request == e.current.value && receipt.frame == e.decoder.buffer && receipt.verdict == Judge(e.current.value, e.decoder.buffer, segment))
  {
    hide DiscardQuarantined, ExpireOnTraffic, DiscardLate, Judge, ValidPlan, Emit;
    var f := AtTime(e, now);
    NoResponse(c, f.(decoder := RtuDecoder.Fresh, hold := f.hold.(sawBytes := false), observed := None));
    if e.phase == ResponseWait && e.current.Some? && !Regresses(e, now) {
      LatePasses(c, f.(decoder := RtuDecoder.Fresh), e.current.value);
    }
  }

  /** How a frame answers a read: with a good checksum and exactly the registers asked for, with an exception, or badly. */
  function ReadVerdict(unit: bv8, read: ReadRequest, frame: Crc.Octets): Verdict {
    if !RtuAdu.Decode(frame).Valid? || frame == [] || frame[0] != unit then Bad
    else if |frame| == 5 + 2 * read.quantity && frame[1] as int == read.function_ && frame[2] as int == 2 * read.quantity then Good
    else if |frame| == 5 && frame[1] as int == read.function_ + 0x80 then ExceptionReply
    else Bad
  }

  lemma {:induction false} VerdictIs(r: Request, frame: Crc.Octets, segment: Verdict)
    requires r.kind.Read? && ValidRead(r.kind.read)
    ensures Judge(r, frame, segment) == ReadVerdict(r.unit, r.kind.read, frame)
  {
  }

  // ---------- The other calls ----------

  ghost predicate Holds(e: Endpoint, s: Story, h: Handle) {
    s.Begun? && h.mine && h.id == s.id && h.id != 0 && h.generation == e.generation
  }

  /** Waiting begins exactly with a complete write reported in time by the holder of the request; a stranger changes nothing. */
  lemma {:induction false} WaitsIff(c: Config, ops: seq<Op>, h: Handle, result: Result, now: GoInt, cancelled: bool)
    requires ValidConfig(c)
    ensures var e, s := Run(c, New, ops), StoryOf(c, ops);
            var f := CompleteTransmit(c, e, h, result, now, cancelled);
            && (e.phase == Writing ==>
                  (f.phase == ResponseWait <==>
                     && Holds(e, s, h) && !Regresses(e, now) && result == Complete && InTime(s, now, cancelled) && e.sequence < MAX_UINT64))
            && (e.phase != Writing || !Holds(e, s, h) ==> f == e)
  {
    hide Run, StoryOf;
    StoryFits(c, ops);
    var e, s := Run(c, New, ops), StoryOf(c, ops);
    TransmitIs(c, e, s, h, result, now, cancelled);
  }

  lemma {:induction false} TransmitIs(c: Config, e: Endpoint, s: Story, h: Handle, result: Result, now: GoInt, cancelled: bool)
    requires Fits(c, e, s)
    ensures var f := CompleteTransmit(c, e, h, result, now, cancelled);
            && (e.phase == Writing ==>
                  (f.phase == ResponseWait <==>
                     && Holds(e, s, h) && !Regresses(e, now) && result == Complete && InTime(s, now, cancelled) && e.sequence < MAX_UINT64))
            && (e.phase != Writing || !Holds(e, s, h) ==> f == e)
  {
    hide Emit, Enter, Interrupt, ValidPlan, Regresses;
    TimePasses(e, now);
    if e.phase == Writing && Holds(e, s, h) && !Regresses(e, now) {
      var f, r := AtTime(e, now), e.current.value;
      if CanEmit(f, 3) {
        InterruptPhase(c, f, r, now);
        EnterPhase(c, f, r.(completed := now), now, 3);
      }
      if CanEmit(f, 2) {
        EmitIs(f.(phase := Idle, current := None, observed := None), 2);
      }
      if CanEmit(f, 1) {
        EmitIs(f.(phase := ResponseWait, current := Some(r.(completed := now))), 1);
      }
    }
  }

  /** A tick ends the request on the line exactly when its time is over, its caller gave up, or the clock ran backwards. */
  lemma {:induction false} TicksOutIff(c: Config, ops: seq<Op>, now: GoInt, cancelled: bool)
    ensures var e, s := Run(c, New, ops), StoryOf(c, ops);
            Busy(e.phase) ==>
              s.Begun? && (!Busy(Tick(c, e, now, cancelled).phase) <==> Regresses(e, now) || !InTime(s, now, cancelled))
  {
    hide Run, StoryOf;
    StoryFits(c, ops);
    var e, s := Run(c, New, ops), StoryOf(c, ops);
    if Busy(e.phase) {
      TickIs(c, e, s, now, cancelled);
    }
  }

  lemma {:induction false} TickIs(c: Config, e: Endpoint, s: Story, now: GoInt, cancelled: bool)
    requires Fits(c, e, s) && Busy(e.phase)
    ensures !Busy(Tick(c, e, now, cancelled).phase) <==> Regresses(e, now) || !InTime(s, now, cancelled)
  {
    hide Emit, Enter, Interrupt, ValidPlan, Regresses;
    TimePasses(e, now);
    var f := AtTime(e, now);
    if !Regresses(e, now) && CanEmit(f, 2) {
      EnterPhase(c, f, e.current.value, e.current.value.completed, 2);
      if CanEmit(f, 3) {
        InterruptPhase(c, f, e.current.value, now);
      }
    }
  }

  /** Giving up works exactly for the holder of a request that waits. */
  lemma {:induction false} AbandonsIff(c: Config, ops: seq<Op>, h: Handle, now: GoInt)
    ensures var e, s := Run(c, New, ops), StoryOf(c, ops);
            && (e.phase == ResponseWait && Holds(e, s, h) ==> !Busy(Abandon(c, e, h, now).phase))
            && (e.phase != ResponseWait || !Holds(e, s, h) ==> Abandon(c, e, h, now) == e)
  {
    hide Run, StoryOf;
    StoryFits(c, ops);
    var e, s := Run(c, New, ops), StoryOf(c, ops);
    hide Enter, Regresses, ValidPlan;
    if e.phase == ResponseWait && CanEmit(e, 2) {
      EnterPhase(c, e.(clock := Some(now)), e.current.value, e.current.value.completed, 2);
    }
  }

  /** After an answer the line is free again exactly when it was silent for t3.5 since the answer or any later byte. */
  lemma {:induction false} GuardEndsIff(c: Config, ops: seq<Op>, now: GoInt)
    requires ValidConfig(c)
    ensures var e, s := Run(c, New, ops), StoryOf(c, ops);
            e.phase == InterFrameGuard ==>
              && s.Begun?
              && (Resynchronize(c, e, now).phase == Idle <==> !Regresses(e, now) && now >= s.heard + c.timing.t35 && e.sequence < MAX_UINT64)
  {
    hide Run, StoryOf;
    StoryFits(c, ops);
    var e := Run(c, New, ops);
    hide Release, ReleaseBuffered, Regresses, Emit;
    TimePasses(e, now);
    if CanEmit(e, 1) {
      ReleasePasses(AtTime(e, now));
    }
  }
}
