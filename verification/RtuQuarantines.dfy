/** The story of a quarantine, told by calls and answers: from when to when the line is given a rest, and how it ends. */
module RtuQuarantines {
  import opened Common
  import opened Pdu
  import RtuAdu
  import RtuDecoder
  import Crc
  import opened RtuEndpointModel
  import opened RtuEndpointSafety
  import opened RtuStories

  /**
   When the last byte came in while the request waited; and of a quarantine its anchor, from when on the line counts as quiet,
   whether bytes came in that belong to no discarded frame yet, and how many frames were discarded.
   */
  datatype Watch = Watch(heard: Option<GoInt>, anchor: int, quiet: int, dirty: bool, thrown: nat)

  function Latest(a: int, b: int): int {
    if a > b then a else b
  }

  /** When an interrupted write can have left the line at the latest: eight characters for a read, seven for an identification. */
  function Cleared(c: Config, s: Story, now: int): int
    requires s.Begun?
  {
    Latest(now, s.begun + (if s.plan.kind.Read? then 8 else 7) * c.character)
  }

  /** What the quarantine of a request is counted from. */
  function AnchorOf(c: Config, e: Endpoint, op: Op, s: Story): int
    requires s.Begun?
  {
    match op
    case DoTransmit(_, result, now, _) => if result == Complete then now else Cleared(c, s, now)
    case DoTick(now, _) => if e.phase == Writing then Cleared(c, s, now) else if s.sent.Some? then s.sent.value else 0
    case _ => if s.sent.Some? then s.sent.value else 0
  }

  function Quiet(c: Config, anchor: int, heard: Option<GoInt>): int {
    var silent := anchor + c.latency + c.timing.t35;
    if heard.Some? then Latest(silent, heard.value + c.timing.t35) else silent
  }

  /** What one call and its answer make of the watch, given the story so far. */
  ghost function TellWatch(c: Config, e: Endpoint, op: Op, s: Story, w: Watch): Watch {
    var f := Step(c, e, op);
    if e.phase != Quarantine && f.phase == Quarantine && s.Begun? then
      var anchor := AnchorOf(c, e, op, s);
      if op.DoEnd? then w.(anchor := anchor, quiet := Quiet(c, anchor, w.heard), dirty := false, thrown := 1)
      else w.(anchor := anchor, quiet := Quiet(c, anchor, w.heard), dirty := w.heard.Some?, thrown := 0)
    else match op
      case DoBegin(plan, now) => if Begin(e, plan, now).1.Some? then w.(heard := None) else w
      case DoFeed(now, _) =>
        if e.phase == ResponseWait && f.phase == ResponseWait then w.(heard := Some(now))
        else if e.phase == Quarantine && f.phase == Quarantine then
          w.(quiet := Latest(now + c.timing.t35, w.anchor + c.latency), dirty := true)
        else w
      case DoEnd(_, _, _, _) =>
        if e.phase == Quarantine && f.phase == Quarantine && w.dirty then w.(dirty := false, thrown := w.thrown + 1) else w
      case _ => w
  }

  ghost predicate Watched(c: Config, e: Endpoint, w: Watch) {
    && (e.phase == Writing ==> e.observed == None && w.heard == None)
    && (e.phase == ResponseWait ==> e.observed == w.heard)
    && (e.phase == Quarantine ==>
          && e.hold.anchor == w.anchor && e.hold.latency == w.anchor + c.latency && e.hold.quiescence == w.anchor + c.quiescence
          && e.hold.idle == w.quiet && e.hold.sawBytes == w.dirty && e.hold.discarded == w.thrown)
  }

  /** A step that touches neither the watch of a request that waits nor that of a quarantine. */
  ghost predicate Unseen(e: Endpoint, f: Endpoint) {
    || (f.phase == e.phase && f.observed == e.observed && f.hold == e.hold)
    || (f.phase != Writing && f.phase != ResponseWait && f.phase != Quarantine)
  }

  lemma {:induction false} UnseenWatched(c: Config, e: Endpoint, f: Endpoint, w: Watch)
    requires Watched(c, e, w) && Unseen(e, f)
    ensures Watched(c, f, w)
  {
  }

  lemma {:induction false} TimeUnseen(e: Endpoint, now: GoInt)
    ensures Unseen(e, AtTime(e, now)) && AtTime(e, now).phase in {e.phase, RecoveryRequired}
    ensures !Regresses(e, now) ==> AtTime(e, now) == e.(clock := Some(now))
  {
  }

  /** Entering quarantine: the deadlines are counted from the anchor and from the last byte heard. */
  lemma {:induction false} EnterWatched(c: Config, e: Endpoint, r: Request, anchor: GoInt, events: nat)
    requires CanEmit(e, events)
    ensures var f := Enter(c, e, r, anchor, events);
            && f.phase in {Quarantine, RecoveryRequired}
            && (f.phase == Quarantine ==>
                  Watched(c, f, Watch(e.observed, anchor, Quiet(c, anchor, e.observed), e.observed.Some?, 0)))
  {
    hide Emit;
    var hold := Prepare(c, e.observed, anchor);
    if hold.Some? {
      EmitIs(e.(phase := Quarantine, hold := hold.value, quarantined := Some(r), current := None, decoder := RtuDecoder.Fresh), events);
    }
  }

  lemma {:induction false} AnchorIs(c: Config, r: Request, now: GoInt)
    requires Anchor(c, r, now).Some?
    ensures Anchor(c, r, now).value == Latest(now, r.written + (if r.kind.Read? then 8 else 7) * c.character)
  {
  }

  lemma {:induction false} InterruptWatched(c: Config, e: Endpoint, r: Request, now: GoInt)
    requires CanEmit(e, 3)
    ensures var f := Interrupt(c, e, r, now);
            var anchor := Latest(now, r.written + (if r.kind.Read? then 8 else 7) * c.character);
            && f.phase in {Quarantine, RecoveryRequired}
            && (f.phase == Quarantine ==> Watched(c, f, Watch(e.observed, anchor, Quiet(c, anchor, e.observed), e.observed.Some?, 0)))
  {
    hide Enter, Anchor;
    if Anchor(c, r, now).Some? {
      AnchorIs(c, r, now);
      EnterWatched(c, e, r, Anchor(c, r, now).value, 3);
    }
  }

  lemma {:induction false} BeginWatched(c: Config, e: Endpoint, p: Plan, now: GoInt, s: Story, w: Watch)
    requires Watched(c, e, w)
    ensures Watched(c, Begin(e, p, now).0, TellWatch(c, e, DoBegin(p, now), s, w))
  {
    hide ValidPlan, Emit, Regresses;
    TimeUnseen(e, now);
    var (f, r) := Begin(e, p, now);
    if r.Some? {
      EmitIs(AtTime(e, now).(phase := Writing, ids := e.ids.(request := e.ids.request + 1), observed := None, current := r), 1);
    }
  }

  lemma {:induction false} TransmittedWatched(c: Config, e: Endpoint, r: Request, result: Result, now: GoInt, late: bool, w: Watch)
    requires Watched(c, e, w) && e.phase == Writing
    ensures var f := Transmitted(c, e, r, result, now, late);
            var anchor := if result == Complete then now else Latest(now, r.written + (if r.kind.Read? then 8 else 7) * c.character);
            if f.phase == Quarantine then Watched(c, f, w.(anchor := anchor, quiet := Quiet(c, anchor, w.heard), dirty := w.heard.Some?, thrown := 0))
            else Watched(c, f, w)
  {
    hide Emit, Enter, Interrupt, Quiet;
    if result == Uncertain && CanEmit(e, 3) {
      InterruptWatched(c, e, r, now);
    } else if result == ProvableZero && CanEmit(e, 2) {
      EmitIs(e.(phase := Idle, current := None, observed := None), 2);
    } else if result == Complete && late && CanEmit(e, 3) {
      EnterWatched(c, e, r.(completed := now), now, 3);
    } else if result == Complete && !late && CanEmit(e, 1) {
      EmitIs(e.(phase := ResponseWait, current := Some(r.(completed := now))), 1);
    }
  }

  lemma {:induction false} TransmitWatched(c: Config, e: Endpoint, h: Handle, result: Result, now: GoInt, cancelled: bool, s: Story, w: Watch)
    requires Fits(c, e, s) && Watched(c, e, w)
    ensures Watched(c, CompleteTransmit(c, e, h, result, now, cancelled), TellWatch(c, e, DoTransmit(h, result, now, cancelled), s, w))
  {
    hide Regresses, Transmitted, ValidPlan, Quiet;
    TimeUnseen(e, now);
    if Matches(e, h) && e.phase == Writing && !Regresses(e, now) {
      UnseenWatched(c, e, AtTime(e, now), w);
      TransmittedWatched(c, AtTime(e, now), e.current.value, result, now, cancelled || now >= e.current.value.deadline, w);
    } else {
      UnseenWatched(c, e, CompleteTransmit(c, e, h, result, now, cancelled), w);
    }
  }

  lemma {:induction false} ExpireUnseen(e: Endpoint)
    ensures Expire(e).phase == RecoveryRequired && ExpireOnTraffic(e).phase == RecoveryRequired
  {
    hide Emit;
    ExpirePasses(e);
    if CanEmit(e, 1) {
      EmitIs(e.(phase := RecoveryRequired, quarantined := None, decoder := RtuDecoder.Fresh), 1);
    }
  }

  lemma {:induction false} TickWatched(c: Config, e: Endpoint, now: GoInt, cancelled: bool, s: Story, w: Watch)
    requires Fits(c, e, s) && Watched(c, e, w)
    ensures Watched(c, Tick(c, e, now, cancelled), TellWatch(c, e, DoTick(now, cancelled), s, w))
  {
    hide Regresses, Interrupt, Enter, Expire, ValidPlan, Quiet;
    TimeUnseen(e, now);
    var f := AtTime(e, now);
    ExpireUnseen(f);
    UnseenWatched(c, e, f, w);
    if !Regresses(e, now) && f.current.Some? {
      if f.phase == Writing && CanEmit(f, 3) {
        InterruptWatched(c, f, f.current.value, now);
      } else if f.phase == ResponseWait && CanEmit(f, 2) {
        EnterWatched(c, f, f.current.value, f.current.value.completed, 2);
      }
    }
  }

  lemma {:induction false} AbandonWatched(c: Config, e: Endpoint, h: Handle, now: GoInt, s: Story, w: Watch)
    requires Fits(c, e, s) && Watched(c, e, w)
    ensures Watched(c, Abandon(c, e, h, now), TellWatch(c, e, DoAbandon(h, now), s, w))
  {
    hide Regresses, Enter, ValidPlan, Quiet;
    TimeUnseen(e, now);
    UnseenWatched(c, e, AtTime(e, now), w);
    if Matches(e, h) && e.phase == ResponseWait && CanEmit(e, 2) && !Regresses(e, now) {
      EnterWatched(c, AtTime(e, now), e.current.value, e.current.value.completed, 2);
    }
  }

  lemma {:induction false} FeedWatched(c: Config, e: Endpoint, now: GoInt, value: bv8, s: Story, w: Watch)
    requires Watched(c, e, w) && ValidConfig(c)
    ensures Watched(c, FeedByte(c, e, now, value), TellWatch(c, e, DoFeed(now, value), s, w))
  {
    hide Regresses, Emit, RtuDecoder.Feed, ExpireOnTraffic, Quiet;
    TimeUnseen(e, now);
    var f := AtTime(e, now);
    ExpireUnseen(f);
    if f.phase == InterFrameGuard && CanEmit(f, 1) {
      var deadline := Later(now, c.timing.t35);
      if deadline.Some? && f.discarded < MAX_UINT64 {
        EmitIs(f.(guard := f.guard.(deadline := deadline.value), discarded := f.discarded + 1), 1);
      }
    }
  }

  lemma {:induction false} LateWatched(c: Config, e: Endpoint, r: Request, w: Watch)
    requires e.phase == ResponseWait && e.observed == w.heard
    ensures var f := DiscardLate(c, e, r).0;
            f.phase == Quarantine ==>
              Watched(c, f, w.(anchor := r.completed, quiet := Quiet(c, r.completed, w.heard), dirty := false, thrown := 1))
  {
    hide Emit;
    var hold := Prepare(c, e.observed, r.completed);
    if e.discarded < MAX_UINT64 && CanEmit(e, 3) && hold.Some? {
      EmitIs(e.(phase := Quarantine, hold := hold.value.(discarded := 1, sawBytes := false), quarantined := Some(r), current := None,
                decoder := RtuDecoder.Fresh, observed := None, discarded := e.discarded + 1), 3);
    }
  }

  lemma {:induction false} ReceiveUnseen(c: Config, e: Endpoint, r: Request, frame: Crc.Octets, now: GoInt, segment: Verdict)
    requires e.phase == ResponseWait
    ensures Unseen(e, Receive(c, e, r, frame, now, segment).0) && Receive(c, e, r, frame, now, segment).0.phase != Quarantine
  {
    hide Emit, Judge, Candidate;
    if CanEmit(e, 1) {
      if !Spent(e.ids.diagnostic) {
        EmitIs(e.(ids := e.ids.(diagnostic := e.ids.diagnostic + 1)), 1);
      }
      var deadline := Later(now, c.timing.t35);
      if deadline.Some? && !Spent(e.ids.wire) {
        EmitIs(e.(phase := InterFrameGuard, ids := e.ids.(wire := e.ids.wire + 1), guard := Guard(deadline.value, r.id, r.unit), current := None), 1);
      }
    }
  }

  lemma {:induction false} EndWaitingWatched(c: Config, e: Endpoint, deviceId: bool, now: GoInt, cancelled: bool, segment: Verdict, s: Story, w: Watch)
    requires Fits(c, e, s) && Watched(c, e, w) && e.phase == ResponseWait
    ensures var f := EndWaiting(c, e, deviceId, now, cancelled, segment).0;
            var anchor := if s.Begun? && s.sent.Some? then s.sent.value else 0;
            if f.phase == Quarantine then Watched(c, f, w.(anchor := anchor, quiet := Quiet(c, anchor, w.heard), dirty := false, thrown := 1))
            else Watched(c, f, w)
  {
    hide Receive, DiscardLate, ValidPlan, Quiet;
    var (d, frame) := RtuDecoder.End(c.timing, e.decoder, now);
    if e.current.Some? && frame.Some? {
      var f := e.(decoder := d);
      LateWatched(c, f, e.current.value, w);
      LatePasses(c, f, e.current.value);
      ReceiveUnseen(c, f, e.current.value, frame.value, now, segment);
      UnseenWatched(c, f, Receive(c, f, e.current.value, frame.value, now, segment).0, w);
    }
  }

  lemma {:induction false} DiscardWatched(c: Config, e: Endpoint, w: Watch)
    requires e.phase == Quarantine && Watched(c, e, w)
    ensures Watched(c, DiscardQuarantined(c, e).0, w.(thrown := w.thrown + 1))
    ensures DiscardQuarantined(c, e).0.phase == Quarantine <==>
              e.discarded < MAX_UINT64 && e.hold.discarded < MAX_UINT64 && e.hold.discarded < c.maxDiscarded && CanEmit(e, 1)
    ensures DiscardQuarantined(c, e).0.phase == Quarantine || DiscardQuarantined(c, e).0.phase == RecoveryRequired
  {
    hide Emit;
    var recovery := e.hold.discarded >= c.maxDiscarded;
    if e.discarded < MAX_UINT64 && e.hold.discarded < MAX_UINT64 && CanEmit(e, if recovery then 2 else 1) {
      var f := e.(discarded := e.discarded + 1, hold := e.hold.(discarded := e.hold.discarded + 1));
      EmitIs(f, 1);
      if recovery {
        EmitIs(Emit(f, 1).(phase := RecoveryRequired, quarantined := None), 1);
      }
    }
  }

  lemma {:induction false} EndWatched(c: Config, e: Endpoint, deviceId: bool, now: GoInt, cancelled: bool, segment: Verdict, s: Story, w: Watch)
    requires Fits(c, e, s) && Watched(c, e, w)
    ensures Watched(c, EndFrame(c, e, deviceId, now, cancelled, segment).0, TellWatch(c, e, DoEnd(deviceId, now, cancelled, segment), s, w))
  {
    hide EndWaiting, DiscardQuarantined, ExpireOnTraffic, Regresses, ValidPlan, Quiet;
    TimeUnseen(e, now);
    var f := AtTime(e, now);
    UnseenWatched(c, e, f, w);
    ExpireUnseen(f);
    if !Regresses(e, now) {
      if f.phase == Quarantine && f.hold.sawBytes {
        DiscardWatched(c, f.(decoder := RtuDecoder.Fresh, hold := f.hold.(sawBytes := false), observed := None), w.(dirty := false));
      } else if f.phase == ResponseWait {
        EndWaitingWatched(c, f, deviceId, now, cancelled, segment, s, w);
      }
    }
  }

  lemma {:induction false} ResyncUnseen(c: Config, e: Endpoint, now: GoInt)
    ensures Unseen(e, Resynchronize(c, e, now))
  {
    hide Emit, Regresses, Release, ReleaseBuffered;
    TimeUnseen(e, now);
    if !Regresses(e, now) {
      var f := AtTime(e, now);
      if CanEmit(f, 1) {
        EmitIs(f.(phase := RecoveryRequired), 1);
        ReleasePasses(f);
      }
      if CanEmit(f, 2) {
        ReleaseBufferedPasses(c, f);
      }
    }
  }

  lemma {:induction false} StopUnseen(e: Endpoint, now: GoInt)
    ensures Unseen(e, FailQuiescence(e, now)) && Unseen(e, Close(e, now)) && Unseen(e, Recover(e, now))
  {
    hide Emit, Regresses;
    TimeUnseen(e, now);
    if !Regresses(e, now) {
      var f := AtTime(e, now);
      if CanEmit(f, 1) {
        EmitIs(f.(phase := RecoveryRequired), 1);
        EmitIs(f.(phase := Closed, current := None, quarantined := None, guard := f.guard.(id := 0, unit := 0), observed := None,
                  decoder := RtuDecoder.Fresh), 1);
        if f.generation < MAX_UINT64 {
          EmitIs(NewGeneration(f), 1);
        }
      }
      if CanEmit(f, 2) && f.generation < MAX_UINT64 {
        EmitIs(NewGeneration(f), 2);
      }
    }
  }

  lemma {:induction false} UnseenTold(c: Config, e: Endpoint, op: Op, s: Story, w: Watch)
    requires Watched(c, e, w) && Unseen(e, Step(c, e, op))
    requires op.DoResync? || op.DoFail? || op.DoRecover? || op.DoClose?
    ensures Watched(c, Step(c, e, op), TellWatch(c, e, op, s, w))
  {
    hide Step;
  }

  lemma {:induction false} StepWatched(c: Config, e: Endpoint, op: Op, s: Story, w: Watch)
    requires ValidConfig(c) && Fits(c, e, s) && Watched(c, e, w)
    ensures Watched(c, Step(c, e, op), TellWatch(c, e, op, s, w))
  {
    hide Fits, Watched, Unseen, TellWatch, Begin, CompleteTransmit, Tick, Abandon, FeedByte, EndFrame, Resynchronize, FailQuiescence, Recover, Close;
    match op
    case DoBegin(plan, now) => BeginWatched(c, e, plan, now, s, w);
    case DoTransmit(handle, result, now, cancelled) => TransmitWatched(c, e, handle, result, now, cancelled, s, w);
    case DoTick(now, cancelled) => TickWatched(c, e, now, cancelled, s, w);
    case DoAbandon(handle, now) => AbandonWatched(c, e, handle, now, s, w);
    case DoFeed(now, value) => FeedWatched(c, e, now, value, s, w);
    case DoEnd(deviceId, now, cancelled, segment) => EndWatched(c, e, deviceId, now, cancelled, segment, s, w);
    case DoResync(now) =>
      ResyncUnseen(c, e, now);
      UnseenTold(c, e, op, s, w);
    case _ =>
      StopUnseen(e, op.now);
      UnseenTold(c, e, op, s, w);
  }

  ghost function WatchIn(c: Config, e: Endpoint, ops: seq<Op>, s: Story, w: Watch): Watch
    decreases |ops|
  {
    if ops == [] then w else WatchIn(c, Step(c, e, ops[0]), ops[1..], Tell(c, e, ops[0], s), TellWatch(c, e, ops[0], s, w))
  }

  lemma {:induction false} RunWatched(c: Config, e: Endpoint, ops: seq<Op>, s: Story, w: Watch)
    requires ValidConfig(c) && Fits(c, e, s) && Watched(c, e, w)
    ensures Watched(c, Run(c, e, ops), WatchIn(c, e, ops, s, w))
    decreases |ops|
  {
    hide Fits, Watched, Step, Tell, TellWatch;
    if ops != [] {
      StepFits(c, e, ops[0], s);
      StepWatched(c, e, ops[0], s, w);
      RunWatched(c, Step(c, e, ops[0]), ops[1..], Tell(c, e, ops[0], s), TellWatch(c, e, ops[0], s, w));
    }
  }

  // ---------- The watch decides ----------

  /** What was watched of the line in a run from the start. */
  ghost function WatchOf(c: Config, ops: seq<Op>): Watch {
    WatchIn(c, New, ops, Unbegun, Watch(None, 0, 0, false, 0))
  }

  lemma {:induction false} WatchFits(c: Config, ops: seq<Op>)
    requires ValidConfig(c)
    ensures Watched(c, Run(c, New, ops), WatchOf(c, ops)) && Fits(c, Run(c, New, ops), StoryOf(c, ops))
  {
    hide Run, WatchIn, StoryOf;
    StoryFits(c, ops);
    RunWatched(c, New, ops, Unbegun, Watch(None, 0, 0, false, 0));
  }

  /**
   A quarantine ends well exactly when the line is quiet and the time is not over; bytes no frame was made of count as one
   frame more, and no more than the configured number may be thrown away. The last conditions say that no counter is used up.
   */
  lemma {:induction false} ReleasesIff(c: Config, ops: seq<Op>, now: GoInt)
    requires ValidConfig(c)
    ensures var e, w := Run(c, New, ops), WatchOf(c, ops);
            e.phase == Quarantine ==>
              (Resynchronize(c, e, now).phase == Idle <==>
                 && !Regresses(e, now) && w.anchor + c.latency <= now && w.quiet <= now <= w.anchor + c.quiescence
                 && (w.dirty ==> w.thrown < c.maxDiscarded && w.thrown < MAX_UINT64 && e.discarded < MAX_UINT64)
                 && e.sequence + (if w.dirty then 2 else 1) <= MAX_UINT64)
  {
    hide Run, WatchOf, StoryOf;
    WatchFits(c, ops);
    var e := Run(c, New, ops);
    hide Regresses, Release, Emit;
    TimeUnseen(e, now);
    var f := AtTime(e, now);
    if CanEmit(f, 1) {
      EmitIs(f.(phase := RecoveryRequired), 1);
      ReleasePasses(f);
    }
    if CanEmit(f, 2) {
      BufferedIs(c, f);
    }
  }

  lemma {:induction false} BufferedIs(c: Config, e: Endpoint)
    requires CanEmit(e, 2)
    ensures ReleaseBuffered(c, e).phase == Idle <==>
              e.discarded < MAX_UINT64 && e.hold.discarded < MAX_UINT64 && e.hold.discarded < c.maxDiscarded
  {
    hide Emit, Release;
    if e.discarded == MAX_UINT64 || e.hold.discarded == MAX_UINT64 {
      EmitIs(e.(phase := RecoveryRequired, quarantined := None, decoder := RtuDecoder.Fresh), 1);
    } else {
      EmitIs(e.(discarded := e.discarded + 1, hold := e.hold.(discarded := e.hold.discarded + 1)), 1);
      var f := Emit(e.(discarded := e.discarded + 1, hold := e.hold.(discarded := e.hold.discarded + 1)), 1);
      ReleasePasses(f);
      EmitIs(f.(phase := RecoveryRequired, quarantined := None, hold := f.hold.(sawBytes := false), decoder := RtuDecoder.Fresh), 1);
    }
  }

  /** Time ends a quarantine exactly after the quiescence bound, counted from its anchor: a tick, a byte and a frame all see it. */
  lemma {:induction false} ExpiresIff(c: Config, ops: seq<Op>, now: GoInt, cancelled: bool, value: bv8)
    requires ValidConfig(c)
    ensures var e, w := Run(c, New, ops), WatchOf(c, ops);
            e.phase == Quarantine ==>
              && (Tick(c, e, now, cancelled).phase != Quarantine <==> Regresses(e, now) || now > w.anchor + c.quiescence)
              && (FeedByte(c, e, now, value).phase != Quarantine <==>
                    Regresses(e, now) || now > w.anchor + c.quiescence || now < 0 || now + c.timing.t35 > MAX_INT)
  {
    hide Run, WatchOf, StoryOf;
    WatchFits(c, ops);
    var e := Run(c, New, ops);
    hide Regresses, Expire, ExpireOnTraffic, RtuDecoder.Feed, Interrupt, Enter;
    TimeUnseen(e, now);
    ExpireUnseen(AtTime(e, now));
  }

  /** What comes in during a quarantine is thrown away, and one frame more than the configured number ends it. */
  lemma {:induction false} ThrowsIff(c: Config, ops: seq<Op>, deviceId: bool, now: GoInt, cancelled: bool, segment: Verdict)
    requires ValidConfig(c)
    ensures var e, w := Run(c, New, ops), WatchOf(c, ops);
            var (f, receipt) := EndFrame(c, e, deviceId, now, cancelled, segment);
            e.phase == Quarantine ==>
              && !receipt.Response?
              && (f.phase == Quarantine <==>
                    && !Regresses(e, now) && now <= w.anchor + c.quiescence
                    && (w.dirty ==> w.thrown < c.maxDiscarded && w.thrown < MAX_UINT64 && e.discarded < MAX_UINT64 && e.sequence < MAX_UINT64))
  {
    hide Run, WatchOf, StoryOf;
    WatchFits(c, ops);
    var e, w := Run(c, New, ops), WatchOf(c, ops);
    hide Regresses, DiscardQuarantined, ExpireOnTraffic, EndWaiting;
    TimeUnseen(e, now);
    var f := AtTime(e, now);
    ExpireUnseen(f);
    if e.phase == Quarantine && !Regresses(e, now) {
      var g := f.(decoder := RtuDecoder.Fresh, hold := f.hold.(sawBytes := false), observed := None);
      DiscardWatched(c, g, w.(dirty := false));
      DiscardPasses(c, g);
    }
  }

  /** There is time for a quarantine with this anchor: the quiescence bound can be told, and the last byte leaves room for silence. */
  predicate Room(c: Config, anchor: int, heard: Option<GoInt>) {
    && anchor >= 0 && anchor + c.quiescence <= MAX_INT
    && (heard.Some? ==> heard.value >= 0 && heard.value + c.timing.t35 <= anchor + c.quiescence)
  }

  /** A request whose time is over while it waits puts the line into quarantine, counted from the end of its own transmission. */
  lemma {:induction false} QuarantinesIff(c: Config, ops: seq<Op>, now: GoInt, cancelled: bool)
    requires ValidConfig(c)
    ensures var e, s, w := Run(c, New, ops), StoryOf(c, ops), WatchOf(c, ops);
            e.phase == ResponseWait ==>
              && s.Begun? && s.sent.Some?
              && (Tick(c, e, now, cancelled).phase == Quarantine <==>
                    !Regresses(e, now) && !InTime(s, now, cancelled) && Room(c, s.sent.value, w.heard) && e.sequence + 2 <= MAX_UINT64)
  {
    hide Run, WatchOf, StoryOf;
    WatchFits(c, ops);
    var e := Run(c, New, ops);
    if e.phase == ResponseWait {
      hide Regresses, Interrupt, Enter, ValidPlan;
      TimeUnseen(e, now);
      var f := AtTime(e, now);
      if CanEmit(f, 2) {
        EnterIff(c, f, e.current.value, e.current.value.completed, 2);
      }
    }
  }

  lemma {:induction false} EnterIff(c: Config, e: Endpoint, r: Request, anchor: GoInt, events: nat)
    requires ValidConfig(c) && CanEmit(e, events)
    ensures Enter(c, e, r, anchor, events).phase == Quarantine <==> Room(c, anchor, e.observed)
  {
    hide Emit;
    var hold := Prepare(c, e.observed, anchor);
    if hold.Some? {
      EmitIs(e.(phase := Quarantine, hold := hold.value, quarantined := Some(r), current := None, decoder := RtuDecoder.Fresh), events);
    }
  }

  /** A write that may have reached the line puts it into quarantine, counted from when the whole request can have left it. */
  lemma {:induction false} InterruptsIff(c: Config, ops: seq<Op>, h: Handle, now: GoInt, cancelled: bool)
    requires ValidConfig(c)
    ensures var e, s := Run(c, New, ops), StoryOf(c, ops);
            e.phase == Writing ==>
              && s.Begun?
              && (CompleteTransmit(c, e, h, Uncertain, now, cancelled).phase == Quarantine <==>
                    && Holds(e, s, h) && !Regresses(e, now) && s.begun >= 0
                    && Room(c, Cleared(c, s, now), None) && e.sequence + 3 <= MAX_UINT64)
  {
    hide Run, WatchOf, StoryOf;
    WatchFits(c, ops);
    var e, s := Run(c, New, ops), StoryOf(c, ops);
    if e.phase == Writing {
      hide Regresses, Interrupt, Enter, ValidPlan, Room;
      TimeUnseen(e, now);
      var f := AtTime(e, now);
      if CanEmit(f, 3) {
        InterruptIff(c, f, e.current.value, now);
      }
    }
  }

  lemma {:induction false} InterruptIff(c: Config, e: Endpoint, r: Request, now: GoInt)
    requires ValidConfig(c) && CanEmit(e, 3)
    ensures Interrupt(c, e, r, now).phase == Quarantine <==>
              r.written >= 0 && Room(c, Latest(now, r.written + (if r.kind.Read? then 8 else 7) * c.character), e.observed)
  {
    hide Enter, Anchor;
    AnchorIff(c, r, now);
    if Anchor(c, r, now).Some? {
      AnchorIs(c, r, now);
      EnterIff(c, e, r, Anchor(c, r, now).value, 3);
    }
  }

  lemma {:induction false} AnchorIff(c: Config, r: Request, now: GoInt)
    requires ValidConfig(c)
    ensures Anchor(c, r, now).Some? <==> r.written >= 0 && r.written + (if r.kind.Read? then 8 else 7) * c.character <= MAX_INT
  {
    var n := if r.kind.Read? then 8 else 7;
    assert n > MAX_INT / c.character <==> n * c.character > MAX_INT by { DivIff(n, c.character); }
  }

  lemma {:induction false} DivIff(n: nat, d: int)
    requires d > 0
    ensures n > MAX_INT / d <==> n * d > MAX_INT
  {
    var q := MAX_INT / d;
    assert MAX_INT == q * d + MAX_INT % d;
    if n > q {
      assert n * d >= (q + 1) * d;
    } else {
      assert n * d <= q * d;
    }
  }

  /** Holding registers are read with function 3 and input registers with function 4, at most 125 of the 65536 at once. */
  predicate ReadAllowed(r: ReadRequest) {
    && ((r.function_ == 3 && r.table == HoldingRegisters) || (r.function_ == 4 && r.table == InputRegisters))
    && 1 <= r.quantity <= 125 && r.offset + r.quantity <= 0x10000
  }

  /** A request is begun exactly when the line is free, the plan names a unit, a read the protocol allows and a time that fits. */
  lemma {:induction false} BeginsIff(c: Config, ops: seq<Op>, p: Plan, now: GoInt)
    requires ValidConfig(c)
    ensures var e := Run(c, New, ops);
            var (f, r) := Begin(e, p, now);
            && (r.Some? <==>
                  && e.phase == Idle && !Regresses(e, now) && 1 <= p.unit <= 247 && p.identified
                  && (p.kind.Read? ==> ReadAllowed(p.kind.read))
                  && p.timeout > 0 && 0 <= now <= MAX_INT - p.timeout && 0 < e.ids.request < MAX_UINT64 && e.sequence < MAX_UINT64)
            && (r.Some? <==> f.phase == Writing && e.phase != Writing)
  {
    hide Run;
    var e := Run(c, New, ops);
    hide Emit, Regresses;
    TimeUnseen(e, now);
    var (f, r) := Begin(e, p, now);
    if r.Some? {
      EmitIs(AtTime(e, now).(phase := Writing, ids := e.ids.(request := e.ids.request + 1), observed := None, current := r), 1);
    }
  }
}
