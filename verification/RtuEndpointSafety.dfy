/** What every run of the RTU line owner keeps: who may use the line, when, and what is delivered. */
module RtuEndpointSafety {
  import opened Common
  import RtuDecoder
  import Crc
  import opened RtuEndpointModel

  // ---------- Events ----------

  /** Under the guard that precedes it, emitting never exhausts the counter: it numbers events and does nothing else. */
  lemma {:induction false} EmitIs(e: Endpoint, n: nat)
    requires CanEmit(e, n)
    ensures Emit(e, n) == e.(sequence := e.sequence + n, log := Emit(e, n).log)
    decreases n
  {
    if n > 0 {
      EmitIs(Event(e), n - 1);
    }
  }

  // ---------- History ----------

  /**
   What the endpoint itself forgets: when it last accepted a byte since the present request was sent, and the
   bytes it was fed since that request's transmission completed.
   */
  datatype History = History(accepted: Option<GoInt>, fed: seq<RtuDecoder.Timed>, decoder: RtuDecoder.History)

  const Start := History(None, [], RtuDecoder.Nothing)

  datatype Op =
    | DoBegin(plan: Plan, now: GoInt)
    | DoTransmit(handle: Handle, result: Result, now: GoInt, cancelled: bool)
    | DoTick(now: GoInt, cancelled: bool)
    | DoAbandon(handle: Handle, now: GoInt)
    | DoFeed(now: GoInt, value: bv8)
    | DoEnd(deviceId: bool, now: GoInt, cancelled: bool, segment: Verdict)
    | DoResync(now: GoInt)
    | DoFail(now: GoInt)
    | DoRecover(now: GoInt)
    | DoClose(now: GoInt)

  function Step(c: Config, e: Endpoint, op: Op): Endpoint {
    match op
    case DoBegin(plan, now) => Begin(e, plan, now).0
    case DoTransmit(h, result, now, cancelled) => CompleteTransmit(c, e, h, result, now, cancelled)
    case DoTick(now, cancelled) => Tick(c, e, now, cancelled)
    case DoAbandon(h, now) => Abandon(c, e, h, now)
    case DoFeed(now, value) => FeedByte(c, e, now, value)
    case DoEnd(deviceId, now, cancelled, segment) => EndFrame(c, e, deviceId, now, cancelled, segment).0
    case DoResync(now) => Resynchronize(c, e, now)
    case DoFail(now) => FailQuiescence(e, now)
    case DoRecover(now) => Recover(e, now)
    case DoClose(now) => Close(e, now)
  }

  /** The history's share of each step. */
  ghost function Note(c: Config, e: Endpoint, h: History, op: Op): History {
    var f := Step(c, e, op);
    match op
    case DoBegin(_, _) => if e.phase == Idle && f.phase == Writing then Start else h
    case DoTransmit(_, _, _, _) => if e.phase == Writing && f.phase == ResponseWait then Start else h
    case DoFeed(now, value) =>
      if f.phase == ResponseWait && e.phase == ResponseWait then
        History(Some(now), h.fed + [RtuDecoder.Timed(now, value)], RtuDecoder.Note(c.timing, e.decoder, h.decoder, RtuDecoder.DoFeed(now, value)))
      else if f.phase == Quarantine && e.phase == Quarantine then h.(accepted := Some(now))
      else h
    case DoEnd(_, now, _, _) =>
      if f.phase == ResponseWait && e.phase == ResponseWait && f.decoder != e.decoder then h.(decoder := RtuDecoder.Nothing) else h
    case _ => h
  }

  // ---------- Invariant ----------

  ghost predicate Busy(p: Phase) {
    p == Writing || p == ResponseWait
  }

  ghost predicate RequestOk(e: Endpoint) {
    && (e.current.Some? <==> Busy(e.phase))
    && (e.current.Some? ==> e.current.value.generation == e.generation && 0 < e.current.value.id < e.ids.request)
    && e.ids.request > 0
  }

  ghost predicate LineOk(e: Endpoint) {
    && (e.phase == Idle || e.phase == Writing ==> e.decoder == RtuDecoder.Fresh && e.observed == None)
    && (e.phase == InterFrameGuard ==> e.decoder == RtuDecoder.Fresh)
  }

  ghost predicate HoldOk(c: Config, e: Endpoint, h: History) {
    e.phase == Quarantine ==>
      && e.hold.latency == e.hold.anchor + c.latency && e.hold.quiescence == e.hold.anchor + c.quiescence
      && e.hold.idle >= e.hold.latency && e.hold.discarded <= c.maxDiscarded
      && (h.accepted.Some? ==> e.hold.idle >= h.accepted.value + c.timing.t35)
  }

  ghost predicate Suffix<T>(s: seq<T>, of: seq<T>) {
    |s| <= |of| && s == of[|of| - |s|..]
  }

  ghost predicate WaitOk(c: Config, e: Endpoint, h: History) {
    && (e.phase == Writing ==> h.accepted == None)
    && (e.phase == ResponseWait ==>
          && h.accepted == e.observed
          && RtuDecoder.Inv(c.timing, e.decoder, h.decoder) && Suffix(h.decoder.seen, h.fed))
  }

  ghost predicate Inv(c: Config, e: Endpoint, h: History) {
    && ValidConfig(c) && RequestOk(e) && LineOk(e) && HoldOk(c, e, h) && WaitOk(c, e, h)
  }

  lemma {:induction false} NewInv(c: Config)
    requires ValidConfig(c)
    ensures Inv(c, New, Start)
  {
  }

  lemma {:induction false} PrepareIs(c: Config, observed: Option<GoInt>, anchor: GoInt)
    requires ValidConfig(c) && Prepare(c, observed, anchor).Some?
    ensures var k := Prepare(c, observed, anchor).value;
            && k.latency == anchor + c.latency && k.quiescence == anchor + c.quiescence && k.idle >= k.latency && k.discarded == 0
            && k.anchor == anchor && (observed.Some? ==> k.idle >= observed.value + c.timing.t35)
  {
  }

  lemma {:induction false} EnterKeeps(c: Config, e: Endpoint, h: History, r: Request, anchor: GoInt, events: nat)
    requires ValidConfig(c) && e.ids.request > 0 && h.accepted == e.observed && CanEmit(e, events)
    ensures Inv(c, Enter(c, e, r, anchor, events), h)
  {
    hide Emit, Prepare;
    var hold := Prepare(c, e.observed, anchor);
    if hold.Some? {
      PrepareIs(c, e.observed, anchor);
      EmitIs(e.(phase := Quarantine, hold := hold.value, quarantined := Some(r), current := None, decoder := RtuDecoder.Fresh), events);
    }
  }

  lemma {:induction false} InterruptKeeps(c: Config, e: Endpoint, h: History, r: Request, now: GoInt)
    requires ValidConfig(c) && e.ids.request > 0 && h.accepted == e.observed && CanEmit(e, 3)
    ensures Inv(c, Interrupt(c, e, r, now), h)
  {
    hide Enter, Anchor;
    if Anchor(c, r, now).Some? {
      EnterKeeps(c, e, h, r, Anchor(c, r, now).value, 3);
    }
  }

  lemma {:induction false} TimeKeeps(c: Config, e: Endpoint, h: History, now: GoInt)
    requires Inv(c, e, h)
    ensures Inv(c, AtTime(e, now), h)
    ensures !Regresses(e, now) ==> AtTime(e, now) == e.(clock := Some(now))
  {
    hide Regresses;
  }

  lemma {:induction false} BeginKeeps(c: Config, e: Endpoint, h: History, p: Plan, now: GoInt)
    requires Inv(c, e, h)
    ensures Inv(c, Begin(e, p, now).0, Note(c, e, h, DoBegin(p, now)))
  {
    hide Regresses, ValidPlan, Emit;
    TimeKeeps(c, e, h, now);
    var (f, r) := Begin(e, p, now);
    if r.Some? {
      var g := AtTime(e, now).(phase := Writing, ids := e.ids.(request := e.ids.request + 1), observed := None, current := r);
      EmitIs(g, 1);
    }
  }

  lemma {:induction false} TransmittedKeeps(c: Config, e: Endpoint, h: History, r: Request, result: Result, now: GoInt, late: bool)
    requires Inv(c, e, h) && e.phase == Writing && e.current == Some(r)
    ensures var f := Transmitted(c, e, r, result, now, late); Inv(c, f, if f.phase == ResponseWait then Start else h)
  {
    hide Emit, Enter, Interrupt, RtuDecoder.Inv, Suffix, Numbered;
    if result == Uncertain && CanEmit(e, 3) {
      InterruptKeeps(c, e, h, r, now);
      InterruptPhase(c, e, r, now);
    } else if result == ProvableZero && CanEmit(e, 2) {
      EmitIs(e.(phase := Idle, current := None, observed := None), 2);
    } else if result == Complete && late && CanEmit(e, 3) {
      EnterKeeps(c, e, h, r.(completed := now), now, 3);
      EnterPhase(c, e, r.(completed := now), now, 3);
    } else if result == Complete && !late && CanEmit(e, 1) {
      EmitIs(e.(phase := ResponseWait, current := Some(r.(completed := now))), 1);
      RtuDecoder.FreshInv(c.timing);
      NothingSeen();
    }
  }

  lemma {:induction false} NothingSeen()
    ensures Suffix(Start.decoder.seen, Start.fed)
  {
  }

  lemma {:induction false} TransmitKeeps(c: Config, e: Endpoint, h: History, handle: Handle, result: Result, now: GoInt, cancelled: bool)
    requires Inv(c, e, h)
    ensures Inv(c, CompleteTransmit(c, e, handle, result, now, cancelled), Note(c, e, h, DoTransmit(handle, result, now, cancelled)))
  {
    hide Regresses, Transmitted, RtuDecoder.Inv, Suffix;
    TimeKeeps(c, e, h, now);
    if Matches(e, handle) && e.phase == Writing && !Regresses(e, now) {
      TransmittedKeeps(c, AtTime(e, now), h, e.current.value, result, now, cancelled || now >= e.current.value.deadline);
    }
  }

  lemma {:induction false} EnterPhase(c: Config, e: Endpoint, r: Request, anchor: GoInt, events: nat)
    requires CanEmit(e, events)
    ensures Enter(c, e, r, anchor, events).phase == Quarantine || Enter(c, e, r, anchor, events).phase == RecoveryRequired
    ensures Enter(c, e, r, anchor, events).generation == e.generation && Enter(c, e, r, anchor, events).ids == e.ids
  {
    hide Prepare, Emit;
    var hold := Prepare(c, e.observed, anchor);
    if hold.Some? {
      EmitIs(e.(phase := Quarantine, hold := hold.value, quarantined := Some(r), current := None, decoder := RtuDecoder.Fresh), events);
    }
  }

  lemma {:induction false} InterruptPhase(c: Config, e: Endpoint, r: Request, now: GoInt)
    requires CanEmit(e, 3)
    ensures Interrupt(c, e, r, now).phase == Quarantine || Interrupt(c, e, r, now).phase == RecoveryRequired
    ensures Interrupt(c, e, r, now).generation == e.generation && Interrupt(c, e, r, now).ids == e.ids
  {
    hide Anchor, Enter;
    if Anchor(c, r, now).Some? {
      EnterPhase(c, e, r, Anchor(c, r, now).value, 3);
    }
  }

  lemma {:induction false} ExpireKeeps(c: Config, e: Endpoint, h: History)
    requires Inv(c, e, h) && e.phase == Quarantine
    ensures Inv(c, Expire(e), h) && Inv(c, ExpireOnTraffic(e), h)
    ensures Expire(e).phase == RecoveryRequired && ExpireOnTraffic(e).phase == RecoveryRequired
  {
    hide Emit;
    if CanEmit(e, 1) {
      EmitIs(e.(phase := RecoveryRequired, quarantined := None, decoder := RtuDecoder.Fresh), 1);
      EmitIs(e.(hold := e.hold.(sawBytes := false)).(phase := RecoveryRequired, quarantined := None, decoder := RtuDecoder.Fresh), 1);
    }
  }

  lemma {:induction false} WaitingKeeps(c: Config, e: Endpoint, h: History, r: Request)
    requires Inv(c, e, h) && e.phase == ResponseWait
    ensures Inv(c, GiveUpWaiting(c, e, r), h)
  {
    hide Enter, RtuDecoder.Inv, Suffix;
    if CanEmit(e, 2) {
      EnterKeeps(c, e, h, r, r.completed, 2);
    }
  }

  lemma {:induction false} TickKeeps(c: Config, e: Endpoint, h: History, now: GoInt, cancelled: bool)
    requires Inv(c, e, h)
    ensures Inv(c, Tick(c, e, now, cancelled), h)
  {
    hide Regresses, Interrupt, GiveUpWaiting, Expire;
    TimeKeeps(c, e, h, now);
    if !Regresses(e, now) {
      var f := AtTime(e, now);
      if f.phase == Quarantine {
        ExpireKeeps(c, f, h);
      } else if f.phase == Writing && CanEmit(f, 3) {
        InterruptKeeps(c, f, h, f.current.value, now);
      } else if f.phase == ResponseWait {
        WaitingKeeps(c, f, h, f.current.value);
      }
    }
  }

  lemma {:induction false} AbandonKeeps(c: Config, e: Endpoint, h: History, handle: Handle, now: GoInt)
    requires Inv(c, e, h)
    ensures Inv(c, Abandon(c, e, handle, now), h)
  {
    hide Regresses, Enter, RtuDecoder.Inv, Suffix;
    if Matches(e, handle) && e.phase == ResponseWait && CanEmit(e, 2) {
      TimeKeeps(c, e, h, now);
      if !Regresses(e, now) {
        EnterKeeps(c, AtTime(e, now), h, e.current.value, e.current.value.completed, 2);
      }
    }
  }

  lemma {:induction false} FeedWaitingKeeps(c: Config, e: Endpoint, h: History, now: GoInt, value: bv8)
    requires Inv(c, e, h) && e.phase == ResponseWait && now >= 0
    ensures var f := e.(observed := Some(now), decoder := RtuDecoder.Feed(c.timing, e.decoder, now, value).0);
            Inv(c, f, History(Some(now), h.fed + [RtuDecoder.Timed(now, value)],
                              RtuDecoder.Note(c.timing, e.decoder, h.decoder, RtuDecoder.DoFeed(now, value))))
  {
    hide RtuDecoder.Inv;
    RtuDecoder.FeedKeeps(c.timing, e.decoder, h.decoder, now, value);
    var x := RtuDecoder.Timed(now, value);
    SuffixGrows(h.decoder.seen, h.fed, x);
    NoteSeen(c.timing, e.decoder, h.decoder, now, value);
  }

  lemma {:induction false} NoteSeen(t: RtuDecoder.Timing, s: RtuDecoder.State, h: RtuDecoder.History, now: GoInt, value: bv8)
    requires now >= 0
    ensures RtuDecoder.Note(t, s, h, RtuDecoder.DoFeed(now, value)).seen == h.seen + [RtuDecoder.Timed(now, value)]
  {
  }

  lemma {:induction false} SuffixGrows<T>(s: seq<T>, of: seq<T>, x: T)
    requires Suffix(s, of)
    ensures Suffix(s + [x], of + [x])
  {
    assert (of + [x])[|of| - |s|..] == of[|of| - |s|..] + [x];
  }

  lemma {:induction false} FeedQuarantineKeeps(c: Config, e: Endpoint, h: History, now: GoInt, value: bv8)
    requires Inv(c, e, h) && e.phase == Quarantine
    ensures var f := FeedQuarantine(c, e, now, value); Inv(c, f, if f.phase == Quarantine then h.(accepted := Some(now)) else h)
    ensures FeedQuarantine(c, e, now, value).phase == Quarantine || FeedQuarantine(c, e, now, value).phase == RecoveryRequired
  {
    hide RtuDecoder.Feed;
  }

  lemma {:induction false} FeedGuardKeeps(c: Config, e: Endpoint, h: History, now: GoInt)
    requires Inv(c, e, h) && e.phase == InterFrameGuard
    ensures Inv(c, FeedGuard(c, e, now), h)
    ensures FeedGuard(c, e, now).phase == InterFrameGuard || FeedGuard(c, e, now).phase == RecoveryRequired
  {
    hide Emit;
    var deadline := Later(now, c.timing.t35);
    if deadline.Some? && e.discarded < MAX_UINT64 && CanEmit(e, 1) {
      EmitIs(e.(guard := e.guard.(deadline := deadline.value), discarded := e.discarded + 1), 1);
    }
  }

  lemma {:induction false} FeedKeeps(c: Config, e: Endpoint, h: History, now: GoInt, value: bv8)
    requires Inv(c, e, h)
    ensures Inv(c, FeedByte(c, e, now, value), Note(c, e, h, DoFeed(now, value)))
  {
    hide RtuDecoder.Feed, RtuDecoder.Note, FeedQuarantine, FeedGuard, ExpireOnTraffic, RtuDecoder.Inv;
    TimeKeeps(c, e, h, now);
    if !Regresses(e, now) {
      var f := AtTime(e, now);
      if f.phase == Quarantine {
        ExpireKeeps(c, f, h);
        FeedQuarantineKeeps(c, f, h, now, value);
      } else if f.phase == ResponseWait {
        FeedWaitingKeeps(c, f, h, now, value);
      } else if f.phase == InterFrameGuard {
        FeedGuardKeeps(c, f, h, now);
      }
    }
  }

  lemma {:induction false} ReceiveKeeps(c: Config, e: Endpoint, h: History, r: Request, frame: Crc.Octets, now: GoInt, segment: Verdict)
    requires Inv(c, e, h) && e.phase == ResponseWait && e.decoder == RtuDecoder.Fresh
    ensures Inv(c, Receive(c, e, r, frame, now, segment).0, h)
    ensures Receive(c, e, r, frame, now, segment).0.phase == ResponseWait ==> Receive(c, e, r, frame, now, segment).0.decoder == e.decoder
    ensures Receive(c, e, r, frame, now, segment).0.phase in {ResponseWait, InterFrameGuard, RecoveryRequired}
  {
    hide Emit, Judge, Candidate, RtuDecoder.Inv, Suffix;
    if CanEmit(e, 1) {
      if !Spent(e.ids.diagnostic) {
        EmitIs(e.(ids := e.ids.(diagnostic := e.ids.diagnostic + 1)), 1);
      }
      var deadline := Later(now, c.timing.t35);
      if deadline.Some? && !Spent(e.ids.wire) {
        EmitIs(e.(phase := InterFrameGuard, ids := e.ids.(wire := e.ids.wire + 1), guard := Guard(deadline.value, r.id, r.unit), current := None), 1);
      }
    }
  }

  lemma {:induction false} LateKeeps(c: Config, e: Endpoint, h: History, r: Request)
    requires Inv(c, e, h) && e.phase == ResponseWait
    ensures Inv(c, DiscardLate(c, e, r).0, h)
    ensures DiscardLate(c, e, r).0.phase in {Quarantine, RecoveryRequired}
  {
    hide Emit, Prepare, RtuDecoder.Inv, Suffix;
    var hold := Prepare(c, e.observed, r.completed);
    if e.discarded < MAX_UINT64 && CanEmit(e, 3) && hold.Some? {
      PrepareIs(c, e.observed, r.completed);
      EmitIs(e.(phase := Quarantine, hold := hold.value.(discarded := 1, sawBytes := false), quarantined := Some(r), current := None,
                decoder := RtuDecoder.Fresh, observed := None, discarded := e.discarded + 1), 3);
    }
  }

  lemma {:induction false} FreshWaiting(c: Config, e: Endpoint, h: History)
    requires Inv(c, e, h) && e.phase == ResponseWait
    ensures Inv(c, e.(decoder := RtuDecoder.Fresh), h.(decoder := RtuDecoder.Nothing))
  {
    RtuDecoder.FreshInv(c.timing);
  }

  lemma {:induction false} EndWaitingKeeps(c: Config, e: Endpoint, h: History, deviceId: bool, now: GoInt, cancelled: bool, segment: Verdict)
    requires Inv(c, e, h) && e.phase == ResponseWait
    ensures var f := EndWaiting(c, e, deviceId, now, cancelled, segment).0;
            && Inv(c, f, if f.phase == ResponseWait && f.decoder != e.decoder then h.(decoder := RtuDecoder.Nothing) else h)
            && f.phase in {ResponseWait, Quarantine, InterFrameGuard, RecoveryRequired}
  {
    hide Receive, DiscardLate, RtuDecoder.Inv, Suffix;
    var (d, frame) := RtuDecoder.End(c.timing, e.decoder, now);
    if frame.Some? {
      var f, r := e.(decoder := d), e.current.value;
      FreshWaiting(c, e, h);
      LateKeeps(c, f, h.(decoder := RtuDecoder.Nothing), r);
      ReceiveKeeps(c, f, h.(decoder := RtuDecoder.Nothing), r, frame.value, now, segment);
    }
  }

  lemma {:induction false} DiscardKeeps(c: Config, e: Endpoint, h: History)
    requires Inv(c, e, h) && e.phase == Quarantine
    ensures Inv(c, DiscardQuarantined(c, e).0, h)
    ensures DiscardQuarantined(c, e).0.phase in {Quarantine, RecoveryRequired}
  {
    hide Emit;
    var recovery := e.hold.discarded >= c.maxDiscarded;
    if e.discarded < MAX_UINT64 && e.hold.discarded < MAX_UINT64 && CanEmit(e, if recovery then 2 else 1) {
      var f := e.(discarded := e.discarded + 1, hold := e.hold.(discarded := e.hold.discarded + 1));
      EmitIs(f, 1);
      if recovery {
        EmitIs(Emit(f, 1).(phase := RecoveryRequired, quarantined := None), 1);
      }
    }
  }

  lemma {:induction false} EndKeeps(c: Config, e: Endpoint, h: History, deviceId: bool, now: GoInt, cancelled: bool, segment: Verdict)
    requires Inv(c, e, h)
    ensures Inv(c, EndFrame(c, e, deviceId, now, cancelled, segment).0, Note(c, e, h, DoEnd(deviceId, now, cancelled, segment)))
  {
    hide EndWaiting, DiscardQuarantined, ExpireOnTraffic, RtuDecoder.Inv, Suffix;
    TimeKeeps(c, e, h, now);
    if !Regresses(e, now) {
      var f := AtTime(e, now);
      if f.phase == Quarantine {
        ExpireKeeps(c, f, h);
        DiscardKeeps(c, f.(decoder := RtuDecoder.Fresh, hold := f.hold.(sawBytes := false), observed := None), h);
      } else if f.phase == ResponseWait {
        EndWaitingKeeps(c, f, h, deviceId, now, cancelled, segment);
      }
    }
  }

  lemma {:induction false} ReleaseKeeps(c: Config, e: Endpoint, h: History)
    requires Inv(c, e, h) && (e.phase == Quarantine || e.phase == InterFrameGuard) && CanEmit(e, 1)
    ensures Inv(c, Release(e), h) && Release(e).phase == Idle
  {
    hide Emit;
    EmitIs(e.(phase := Idle, quarantined := None, hold := e.hold.(sawBytes := false, discarded := 0), observed := None, decoder := RtuDecoder.Fresh), 1);
  }

  lemma {:induction false} ReleaseBufferedKeeps(c: Config, e: Endpoint, h: History)
    requires Inv(c, e, h) && e.phase == Quarantine && CanEmit(e, 2)
    ensures Inv(c, ReleaseBuffered(c, e), h)
    ensures ReleaseBuffered(c, e).phase == Idle || ReleaseBuffered(c, e).phase == RecoveryRequired
    ensures ReleaseBuffered(c, e).phase == Idle ==> e.hold.discarded + 1 <= c.maxDiscarded
  {
    hide Emit, Release;
    EmitIs(e.(phase := RecoveryRequired, quarantined := None, decoder := RtuDecoder.Fresh), 1);
    if e.discarded < MAX_UINT64 && e.hold.discarded < MAX_UINT64 {
      var g := e.(discarded := e.discarded + 1, hold := e.hold.(discarded := e.hold.discarded + 1));
      EmitIs(g, 1);
      var f := Emit(g, 1);
      if f.hold.discarded > c.maxDiscarded {
        EmitIs(f.(phase := RecoveryRequired, quarantined := None, hold := f.hold.(sawBytes := false), decoder := RtuDecoder.Fresh), 1);
      } else {
        ReleaseKeeps(c, f, h);
      }
    }
  }

  lemma {:induction false} ResyncKeeps(c: Config, e: Endpoint, h: History, now: GoInt)
    requires Inv(c, e, h)
    ensures Inv(c, Resynchronize(c, e, now), h)
  {
    hide Emit, Release, ReleaseBuffered, Regresses;
    TimeKeeps(c, e, h, now);
    if !Regresses(e, now) {
      var f := AtTime(e, now);
      if CanEmit(f, 1) {
        EmitIs(f.(phase := RecoveryRequired), 1);
        if f.phase == Quarantine || f.phase == InterFrameGuard {
          ReleaseKeeps(c, f, h);
        }
      }
      if CanEmit(f, 2) && f.phase == Quarantine {
        ReleaseBufferedKeeps(c, f, h);
      }
    }
  }

  lemma {:induction false} StepKeeps(c: Config, e: Endpoint, h: History, op: Op)
    requires Inv(c, e, h)
    ensures Inv(c, Step(c, e, op), Note(c, e, h, op))
  {
    hide Inv, Begin, CompleteTransmit, Tick, Abandon, FeedByte, EndFrame, Resynchronize, FailQuiescence, Recover, Close;
    match op
    case DoBegin(plan, now) => BeginKeeps(c, e, h, plan, now);
    case DoTransmit(handle, result, now, cancelled) => TransmitKeeps(c, e, h, handle, result, now, cancelled);
    case DoTick(now, cancelled) => TickKeeps(c, e, h, now, cancelled);
    case DoAbandon(handle, now) => AbandonKeeps(c, e, h, handle, now);
    case DoFeed(now, value) => FeedKeeps(c, e, h, now, value);
    case DoEnd(deviceId, now, cancelled, segment) => EndKeeps(c, e, h, deviceId, now, cancelled, segment);
    case DoResync(now) => ResyncKeeps(c, e, h, now);
    case DoFail(now) => FailKeeps(c, e, h, now);
    case DoRecover(now) => RecoverKeeps(c, e, h, now);
    case DoClose(now) => CloseKeeps(c, e, h, now);
  }

  lemma {:induction false} FailKeeps(c: Config, e: Endpoint, h: History, now: GoInt)
    requires Inv(c, e, h)
    ensures Inv(c, FailQuiescence(e, now), h)
  {
    hide Emit, Regresses;
    TimeKeeps(c, e, h, now);
    var f := AtTime(e, now);
    if e.phase == Quarantine && !Regresses(e, now) && CanEmit(f, 1) {
      EmitIs(f.(phase := RecoveryRequired), 1);
    }
  }

  lemma {:induction false} RecoverKeeps(c: Config, e: Endpoint, h: History, now: GoInt)
    requires Inv(c, e, h)
    ensures Inv(c, Recover(e, now), h)
  {
    hide Emit, Regresses;
    TimeKeeps(c, e, h, now);
    if e.phase == RecoveryRequired && e.generation < MAX_UINT64 && !Regresses(e, now) {
      var f := AtTime(e, now);
      var n := if f.pending then 2 else 1;
      if CanEmit(f, n) {
        EmitIs(NewGeneration(f), n);
      }
    }
  }

  lemma {:induction false} CloseKeeps(c: Config, e: Endpoint, h: History, now: GoInt)
    requires Inv(c, e, h)
    ensures Inv(c, Close(e, now), h)
  {
    hide Emit, Regresses;
    TimeKeeps(c, e, h, now);
    var f := AtTime(e, now);
    if e.phase != Closed && !Regresses(e, now) && CanEmit(f, 1) {
      EmitIs(f.(phase := Closed, current := None, quarantined := None, guard := f.guard.(id := 0, unit := 0), observed := None,
                decoder := RtuDecoder.Fresh), 1);
    }
  }

  // ---------- Runs ----------

  function Run(c: Config, e: Endpoint, ops: seq<Op>): Endpoint
    decreases |ops|
  {
    if ops == [] then e else Run(c, Step(c, e, ops[0]), ops[1..])
  }

  ghost function Trace(c: Config, e: Endpoint, h: History, ops: seq<Op>): History
    decreases |ops|
  {
    if ops == [] then h else Trace(c, Step(c, e, ops[0]), Note(c, e, h, ops[0]), ops[1..])
  }

  lemma {:induction false} RunKeeps(c: Config, e: Endpoint, h: History, ops: seq<Op>)
    requires Inv(c, e, h)
    ensures Inv(c, Run(c, e, ops), Trace(c, e, h, ops))
    decreases |ops|
  {
    hide Inv, Step, Note;
    if ops != [] {
      StepKeeps(c, e, h, ops[0]);
      RunKeeps(c, Step(c, e, ops[0]), Note(c, e, h, ops[0]), ops[1..]);
    }
  }

  /** A request exists exactly while one is being written or awaited, and an idle line has an empty decoder. */
  lemma {:induction false} LineIsClean(c: Config, ops: seq<Op>)
    requires ValidConfig(c)
    ensures var e := Run(c, New, ops);
            && (e.current.Some? <==> e.phase == Writing || e.phase == ResponseWait)
            && (e.phase == Idle || e.phase == Writing ==> e.decoder == RtuDecoder.Fresh)
  {
    NewInv(c);
    RunKeeps(c, New, Start, ops);
  }

  // ---------- Leaving quarantine ----------

  /** Only a resynchronization leads from quarantine to idle within a generation. */
  lemma {:induction false} OnlyResync(c: Config, e: Endpoint, h: History, op: Op)
    requires Inv(c, e, h) && e.phase == Quarantine && Step(c, e, op).phase == Idle && Step(c, e, op).generation == e.generation
    ensures op.DoResync?
  {
    hide Emit, Release, ReleaseBuffered, RtuDecoder.Inv, Suffix, RtuDecoder.Feed, DiscardQuarantined, FeedQuarantine, Expire, ExpireOnTraffic;
    TimeKeeps(c, e, h, e.hold.anchor);
    match op
    case DoFeed(now, value) =>
      TimeKeeps(c, e, h, now);
      ExpireKeeps(c, AtTime(e, now), h);
      FeedQuarantineKeeps(c, AtTime(e, now), h, now, value);
    case DoEnd(deviceId, now, cancelled, segment) =>
      TimeKeeps(c, e, h, now);
      var f := AtTime(e, now);
      ExpireKeeps(c, AtTime(e, now), h);
      DiscardKeeps(c, f.(decoder := RtuDecoder.Fresh, hold := f.hold.(sawBytes := false), observed := None), h);
    case DoTick(now, cancelled) =>
      TimeKeeps(c, e, h, now);
      ExpireKeeps(c, AtTime(e, now), h);
    case DoFail(now) => FailNotIdle(e, now);
    case DoClose(now) => CloseNotIdle(e, now);
    case _ =>
  }

  lemma {:induction false} FailNotIdle(e: Endpoint, now: GoInt)
    requires e.phase == Quarantine
    ensures FailQuiescence(e, now).phase == RecoveryRequired
  {
    hide Emit;
    if !Regresses(e, now) && CanEmit(AtTime(e, now), 1) {
      EmitIs(AtTime(e, now).(phase := RecoveryRequired), 1);
    }
  }

  lemma {:induction false} CloseNotIdle(e: Endpoint, now: GoInt)
    ensures Close(e, now).phase == Closed
  {
    hide Emit;
    var f := AtTime(e, now);
    if !Regresses(e, now) && CanEmit(f, 1) {
      EmitIs(f.(phase := Closed, current := None, quarantined := None, guard := f.guard.(id := 0, unit := 0), observed := None,
                decoder := RtuDecoder.Fresh), 1);
    }
  }

  lemma {:induction false} ResyncInTime(c: Config, e: Endpoint, h: History, now: GoInt)
    requires Inv(c, e, h) && e.phase == Quarantine && Resynchronize(c, e, now).phase == Idle
    ensures e.hold.anchor + c.latency <= now <= e.hold.anchor + c.quiescence
    ensures h.accepted.Some? ==> now >= h.accepted.value + c.timing.t35
    ensures e.hold.discarded + (if e.hold.sawBytes then 1 else 0) <= c.maxDiscarded
  {
    hide Emit, Release, ReleaseBuffered, Regresses, RtuDecoder.Inv, Suffix;
    TimeKeeps(c, e, h, now);
    var f := AtTime(e, now);
    if !Regresses(e, now) {
      if CanEmit(f, 1) {
        EmitIs(f.(phase := RecoveryRequired), 1);
      }
      if CanEmit(f, 2) {
        ReleaseBufferedKeeps(c, f, h);
      }
    }
  }

  /**
   After any run and for any clock: a quarantined endpoint becomes idle in the same generation only by a
   resynchronization at a time between the latency and the quiescence bound after its anchor, at least three and
   a half characters after the last byte it accepted since the request was sent, and with no more frames
   discarded than allowed.
   */
  lemma {:induction false} QuarantineEndsInTime(c: Config, ops: seq<Op>, op: Op)
    requires ValidConfig(c)
    ensures var e, h := Run(c, New, ops), Trace(c, New, Start, ops);
            var f := Step(c, e, op);
            e.phase == Quarantine && f.phase == Idle && f.generation == e.generation ==>
              && op.DoResync?
              && e.hold.anchor + c.latency <= op.now <= e.hold.anchor + c.quiescence
              && (h.accepted.Some? ==> op.now >= h.accepted.value + c.timing.t35)
              && e.hold.discarded + (if e.hold.sawBytes then 1 else 0) <= c.maxDiscarded
  {
    NewInv(c);
    hide Inv, Run, Trace, Begin, CompleteTransmit, Tick, Abandon, FeedByte, EndFrame, Resynchronize, FailQuiescence, Recover, Close;
    RunKeeps(c, New, Start, ops);
    var e, h := Run(c, New, ops), Trace(c, New, Start, ops);
    if e.phase == Quarantine && Step(c, e, op).phase == Idle && Step(c, e, op).generation == e.generation {
      OnlyResync(c, e, h, op);
      ResyncInTime(c, e, h, op.now);
    }
  }

  // ---------- Which bytes may answer ----------

  lemma {:induction false} EnterNeverWaits(c: Config, e: Endpoint, r: Request, anchor: GoInt)
    requires CanEmit(e, 3)
    ensures Enter(c, e, r, anchor, 3).phase != ResponseWait
  {
    hide Emit, Prepare;
    var hold := Prepare(c, e.observed, anchor);
    if hold.Some? {
      EmitIs(e.(phase := Quarantine, hold := hold.value, quarantined := Some(r), current := None, decoder := RtuDecoder.Fresh), 3);
    }
  }

  /** Waiting begins with an empty history, at the time the transmission completed. */
  lemma {:induction false} WaitingStartsFresh(c: Config, e: Endpoint, h: History, handle: Handle, result: Result, now: GoInt, cancelled: bool)
    requires e.phase == Writing && CompleteTransmit(c, e, handle, result, now, cancelled).phase == ResponseWait
    ensures Note(c, e, h, DoTransmit(handle, result, now, cancelled)) == Start
    ensures var current := CompleteTransmit(c, e, handle, result, now, cancelled).current; current.Some? && current.value.completed == now
  {
    hide Emit, Enter, Anchor, Regresses;
    var f, r := AtTime(e, now), e.current.value;
    if CanEmit(f, 3) {
      EnterNeverWaits(c, f, r.(completed := now), now);
      if Anchor(c, r, now).Some? {
        EnterNeverWaits(c, f, r, Anchor(c, r, now).value);
      }
    }
    if CanEmit(f, 2) {
      EmitIs(f.(phase := Idle, current := None, observed := None), 2);
    }
    if CanEmit(f, 1) {
      EmitIs(f.(phase := ResponseWait, current := Some(r.(completed := now))), 1);
    }
  }

  lemma {:induction false} ReceiptIs(c: Config, e: Endpoint, deviceId: bool, now: GoInt, cancelled: bool, segment: Verdict)
    requires EndWaiting(c, e, deviceId, now, cancelled, segment).1.Response?
    ensures var receipt := EndWaiting(c, e, deviceId, now, cancelled, segment).1;
            && e.current == Some(receipt.request) && receipt.frame == e.decoder.buffer && e.decoder.have
  {
    hide Emit, Judge, Candidate, Prepare;
  }

  lemma {:induction false} ReceiptFrom(c: Config, e: Endpoint, deviceId: bool, now: GoInt, cancelled: bool, segment: Verdict)
    requires EndFrame(c, e, deviceId, now, cancelled, segment).1.Response?
    ensures e.phase == ResponseWait && !Regresses(e, now)
    ensures EndFrame(c, e, deviceId, now, cancelled, segment) == EndWaiting(c, AtTime(e, now), deviceId, now, cancelled, segment)
    ensures AtTime(e, now).decoder == e.decoder && AtTime(e, now).current == e.current
  {
    hide EndWaiting, ExpireOnTraffic, DiscardQuarantined, Regresses;
    NoResponse(c, AtTime(e, now).(decoder := RtuDecoder.Fresh, hold := AtTime(e, now).hold.(sawBytes := false), observed := None));
  }

  lemma {:induction false} NoResponse(c: Config, e: Endpoint)
    ensures !DiscardQuarantined(c, e).1.Response?
  {
    hide Emit;
  }

  lemma {:induction false} ResponseIsTail(c: Config, e: Endpoint, h: History, deviceId: bool, now: GoInt, cancelled: bool, segment: Verdict)
    requires Inv(c, e, h) && EndFrame(c, e, deviceId, now, cancelled, segment).1.Response?
    ensures e.phase == ResponseWait && e.current == Some(EndFrame(c, e, deviceId, now, cancelled, segment).1.request)
    ensures var frame := EndFrame(c, e, deviceId, now, cancelled, segment).1.frame;
            && 0 < |frame| <= |h.fed| && frame == RtuDecoder.Values(h.fed[|h.fed| - |frame|..])
  {
    hide EndFrame, EndWaiting, Regresses, AtTime;
    ReceiptFrom(c, e, deviceId, now, cancelled, segment);
    ReceiptIs(c, AtTime(e, now), deviceId, now, cancelled, segment);
    TailOfTail(h.fed, h.decoder.seen, h.decoder.run);
  }

  lemma {:induction false} TailOfTail<T>(fed: seq<T>, seen: seq<T>, n: nat)
    requires Suffix(seen, fed) && n <= |seen|
    ensures n <= |fed| && seen[|seen| - n..] == fed[|fed| - n..]
  {
  }

  /** Every byte of a response was fed after the transmission of its own request completed. */
  lemma {:induction false} ResponsesAreFresh(c: Config, ops: seq<Op>, deviceId: bool, now: GoInt, cancelled: bool, segment: Verdict)
    requires ValidConfig(c)
    ensures var e, h := Run(c, New, ops), Trace(c, New, Start, ops);
            var receipt := EndFrame(c, e, deviceId, now, cancelled, segment).1;
            receipt.Response? ==>
              && e.phase == ResponseWait && e.current == Some(receipt.request)
              && 0 < |receipt.frame| <= |h.fed| && receipt.frame == RtuDecoder.Values(h.fed[|h.fed| - |receipt.frame|..])
  {
    NewInv(c);
    hide Inv, Run, Trace, EndFrame, RtuDecoder.Values;
    RunKeeps(c, New, Start, ops);
    var e, h := Run(c, New, ops), Trace(c, New, Start, ops);
    if EndFrame(c, e, deviceId, now, cancelled, segment).1.Response? {
      ResponseIsTail(c, e, h, deviceId, now, cancelled, segment);
    }
  }

  // ---------- Identities and event numbers ----------

  /** Which request a step issues. */
  function Issues(e: Endpoint, op: Op): Option<Request> {
    if op.DoBegin? then Begin(e, op.plan, op.now).1 else None
  }

  ghost predicate Onward(e: Endpoint, f: Endpoint) {
    && (Numbered(e.sequence, e.log) ==> Numbered(f.sequence, f.log))
    && (f.generation > e.generation || (f.generation == e.generation && f.ids.request >= e.ids.request))
  }

  ghost predicate Level(e: Endpoint, f: Endpoint) {
    (Numbered(e.sequence, e.log) ==> Numbered(f.sequence, f.log)) && f.generation == e.generation && f.ids.request == e.ids.request
  }

  lemma {:induction false} TimeLevel(e: Endpoint, now: GoInt)
    ensures Level(e, AtTime(e, now))
  {
    hide Numbered;
  }

  lemma {:induction false} BeginOnward(e: Endpoint, p: Plan, now: GoInt)
    ensures Onward(e, Begin(e, p, now).0)
    ensures var r := Begin(e, p, now).1;
            r.Some? ==>
              && r.value.generation == e.generation && r.value.id == e.ids.request
              && Begin(e, p, now).0.generation == e.generation && Begin(e, p, now).0.ids.request == e.ids.request + 1
  {
    hide Numbered, Emit, ValidPlan, Regresses;
  }

  lemma {:induction false} EnterLevel(c: Config, e: Endpoint, r: Request, anchor: GoInt, events: nat)
    ensures Level(e, Enter(c, e, r, anchor, events))
  {
    hide Numbered, Emit, Prepare;
  }

  lemma {:induction false} InterruptLevel(c: Config, e: Endpoint, r: Request, now: GoInt)
    ensures Level(e, Interrupt(c, e, r, now))
  {
    hide Numbered, Enter, Anchor;
    if Anchor(c, r, now).Some? {
      EnterLevel(c, e, r, Anchor(c, r, now).value, 3);
    }
  }

  lemma {:induction false} TransmitLevel(c: Config, e: Endpoint, h: Handle, result: Result, now: GoInt, cancelled: bool)
    ensures Level(e, CompleteTransmit(c, e, h, result, now, cancelled))
  {
    hide Numbered, Emit, Enter, Interrupt, Regresses;
    if Matches(e, h) {
      var f, r := AtTime(e, now), e.current.value;
      TimeLevel(e, now);
      InterruptLevel(c, f, r, now);
      EnterLevel(c, f, r.(completed := now), now, 3);
    }
  }

  lemma {:induction false} ExpireLevel(e: Endpoint)
    ensures Level(e, Expire(e)) && Level(e, ExpireOnTraffic(e))
  {
    hide Numbered, Emit;
  }

  lemma {:induction false} TickLevel(c: Config, e: Endpoint, now: GoInt, cancelled: bool)
    ensures Level(e, Tick(c, e, now, cancelled))
  {
    hide Numbered, Enter, Interrupt, Regresses, Expire;
    var f := AtTime(e, now);
    TimeLevel(e, now);
    ExpireLevel(f);
    if f.current.Some? {
      InterruptLevel(c, f, f.current.value, now);
      EnterLevel(c, f, f.current.value, f.current.value.completed, 2);
    }
  }

  lemma {:induction false} AbandonLevel(c: Config, e: Endpoint, h: Handle, now: GoInt)
    ensures Level(e, Abandon(c, e, h, now))
  {
    hide Numbered, Enter, Regresses;
    TimeLevel(e, now);
    if e.current.Some? {
      EnterLevel(c, AtTime(e, now), e.current.value, e.current.value.completed, 2);
    }
  }

  lemma {:induction false} FeedLevel(c: Config, e: Endpoint, now: GoInt, value: bv8)
    ensures Level(e, FeedByte(c, e, now, value))
  {
    hide Numbered, Emit, Regresses, ExpireOnTraffic, RtuDecoder.Feed;
    TimeLevel(e, now);
    ExpireLevel(AtTime(e, now));
  }

  lemma {:induction false} ReceiveLevel(c: Config, e: Endpoint, r: Request, frame: Crc.Octets, now: GoInt, segment: Verdict)
    ensures Level(e, Receive(c, e, r, frame, now, segment).0)
  {
    hide Numbered, Emit, Judge, Candidate;
  }

  lemma {:induction false} DiscardLevel(c: Config, e: Endpoint, r: Request)
    ensures Level(e, DiscardLate(c, e, r).0) && Level(e, DiscardQuarantined(c, e).0)
  {
    hide Numbered, Emit, Prepare;
  }

  lemma {:induction false} EndLevel(c: Config, e: Endpoint, deviceId: bool, now: GoInt, cancelled: bool, segment: Verdict)
    ensures Level(e, EndFrame(c, e, deviceId, now, cancelled, segment).0)
  {
    hide Numbered, Regresses, ExpireOnTraffic, DiscardQuarantined, DiscardLate, Receive;
    var f := AtTime(e, now);
    TimeLevel(e, now);
    ExpireLevel(f);
    if f.phase == Quarantine {
      DiscardQuarantinedLevel(c, f);
    }
    var (d, frame) := RtuDecoder.End(c.timing, f.decoder, now);
    if f.current.Some? && frame.Some? {
      DiscardLevel(c, f.(decoder := d), f.current.value);
      ReceiveLevel(c, f.(decoder := d), f.current.value, frame.value, now, segment);
    }
  }

  lemma {:induction false} DiscardQuarantinedLevel(c: Config, f: Endpoint)
    ensures Level(f, DiscardQuarantined(c, f.(decoder := RtuDecoder.Fresh, hold := f.hold.(sawBytes := false), observed := None)).0)
  {
    hide Numbered, Emit;
  }

  lemma {:induction false} ResyncLevel(c: Config, e: Endpoint, now: GoInt)
    ensures Level(e, Resynchronize(c, e, now))
  {
    hide Numbered, Emit, Regresses;
    TimeLevel(e, now);
  }

  lemma {:induction false} StopLevel(e: Endpoint, now: GoInt)
    ensures Level(e, FailQuiescence(e, now)) && Level(e, Close(e, now))
  {
    hide Numbered, Emit, Regresses;
    TimeLevel(e, now);
  }

  lemma {:induction false} RecoverOnward(e: Endpoint, now: GoInt)
    ensures Onward(e, Recover(e, now))
  {
    hide Numbered, Emit, Regresses;
    TimeLevel(e, now);
  }

  lemma {:induction false} StepOnward(c: Config, e: Endpoint, op: Op)
    ensures Onward(e, Step(c, e, op))
  {
    hide Numbered, Begin, CompleteTransmit, Tick, Abandon, FeedByte, EndFrame, Resynchronize, FailQuiescence, Recover, Close;
    match op
    case DoBegin(plan, now) => BeginOnward(e, plan, now);
    case DoTransmit(handle, result, now, cancelled) => TransmitLevel(c, e, handle, result, now, cancelled);
    case DoTick(now, cancelled) => TickLevel(c, e, now, cancelled);
    case DoAbandon(handle, now) => AbandonLevel(c, e, handle, now);
    case DoFeed(now, value) => FeedLevel(c, e, now, value);
    case DoEnd(deviceId, now, cancelled, segment) => EndLevel(c, e, deviceId, now, cancelled, segment);
    case DoResync(now) => ResyncLevel(c, e, now);
    case DoFail(now) => StopLevel(e, now);
    case DoRecover(now) => RecoverOnward(e, now);
    case DoClose(now) => StopLevel(e, now);
  }

  /** The events of any run are numbered 1, 2, 3 and so on, whatever recovers or closes in between. */
  lemma {:induction false} EventsAreContiguous(c: Config, e: Endpoint, ops: seq<Op>)
    requires Numbered(e.sequence, e.log)
    ensures Numbered(Run(c, e, ops).sequence, Run(c, e, ops).log)
    decreases |ops|
  {
    hide Numbered, Step;
    if ops != [] {
      StepOnward(c, e, ops[0]);
      EventsAreContiguous(c, Step(c, e, ops[0]), ops[1..]);
    }
  }

  /** The requests a run issues, in order. */
  function Issued(c: Config, e: Endpoint, ops: seq<Op>): seq<Request>
    decreases |ops|
  {
    if ops == [] then []
    else
      var r := Issues(e, ops[0]);
      (if r.Some? then [r.value] else []) + Issued(c, Step(c, e, ops[0]), ops[1..])
  }

  ghost predicate Beyond(r: Request, generation: Uint64, id: Uint64) {
    r.generation > generation || (r.generation == generation && r.id >= id)
  }

  lemma {:induction false} IssuedBeyond(c: Config, e: Endpoint, ops: seq<Op>)
    ensures forall r :: r in Issued(c, e, ops) ==> Beyond(r, e.generation, e.ids.request)
    decreases |ops|
  {
    hide Step, Begin, Numbered;
    if ops != [] {
      StepOnward(c, e, ops[0]);
      IssuedBeyond(c, Step(c, e, ops[0]), ops[1..]);
      if ops[0].DoBegin? {
        BeginOnward(e, ops[0].plan, ops[0].now);
      }
    }
  }

  /** No pair of generation and request identity is ever issued twice. */
  lemma {:induction false} IdentitiesNeverRepeat(c: Config, e: Endpoint, ops: seq<Op>)
    ensures forall i, j :: 0 <= i < j < |Issued(c, e, ops)| ==>
              Issued(c, e, ops)[i].generation != Issued(c, e, ops)[j].generation || Issued(c, e, ops)[i].id != Issued(c, e, ops)[j].id
    decreases |ops|
  {
    hide Begin, Numbered, CompleteTransmit, Tick, Abandon, FeedByte, EndFrame, Resynchronize, FailQuiescence, Recover, Close;
    if ops != [] {
      var f := Step(c, e, ops[0]);
      var rest := Issued(c, f, ops[1..]);
      IdentitiesNeverRepeat(c, f, ops[1..]);
      IssuedBeyond(c, f, ops[1..]);
      if Issues(e, ops[0]).Some? {
        BeginOnward(e, ops[0].plan, ops[0].now);
        var r := Issues(e, ops[0]).value;
        forall j | 0 <= j < |rest|
          ensures r.generation != rest[j].generation || r.id != rest[j].id
        {
          assert Beyond(rest[j], f.generation, f.ids.request);
        }
      }
    }
  }

  // ---------- Closing ----------

  /** The steps that read the clock before they look at the phase. */
  predicate LooksAtClockFirst(op: Op) {
    op.DoTick? || op.DoFeed? || op.DoEnd? || op.DoResync?
  }

  lemma {:induction false} ClosedStep(c: Config, e: Endpoint, h: History, op: Op)
    requires Inv(c, e, h) && e.phase == Closed
    ensures Step(c, e, op).phase == Closed <==> !(LooksAtClockFirst(op) && Regresses(e, op.now))
    ensures Step(c, e, op).phase == Closed ==> Step(c, e, op).clock == if LooksAtClockFirst(op) then Some(op.now) else e.clock
  {
    hide Emit, Prepare, RtuDecoder.Inv, Suffix, RtuDecoder.Feed, RtuDecoder.End;
  }

  /** The readings of those steps, from the last one remembered on, never run backwards. */
  predicate Steady(clock: Option<GoInt>, ops: seq<Op>)
    decreases |ops|
  {
    if ops == [] then true
    else if !LooksAtClockFirst(ops[0]) then Steady(clock, ops[1..])
    else 0 <= ops[0].now && (clock.Some? ==> clock.value <= ops[0].now) && Steady(Some(ops[0].now), ops[1..])
  }

  predicate StaysClosed(c: Config, e: Endpoint, ops: seq<Op>)
    decreases |ops|
  {
    e.phase == Closed && (ops == [] || StaysClosed(c, Step(c, e, ops[0]), ops[1..]))
  }

  /** A closed endpoint stays closed throughout a run exactly when the readings of those steps never run backwards. */
  lemma {:induction false} ClosedStaysIff(c: Config, e: Endpoint, h: History, ops: seq<Op>)
    requires Inv(c, e, h) && e.phase == Closed
    ensures StaysClosed(c, e, ops) <==> Steady(e.clock, ops)
    decreases |ops|
  {
    hide Inv, Step, Note;
    if ops != [] {
      ClosedStep(c, e, h, ops[0]);
      StepKeeps(c, e, h, ops[0]);
      if Step(c, e, ops[0]).phase == Closed {
        ClosedStaysIff(c, Step(c, e, ops[0]), Note(c, e, h, ops[0]), ops[1..]);
      }
    }
  }

  /** So closing is not final: this run closes the line, lets the clock run back, and has the line idle again. */
  lemma {:induction false} ClosedCanReopen(c: Config)
    requires ValidConfig(c)
    ensures Run(c, New, [DoClose(5)]).phase == Closed
    ensures Run(c, New, [DoClose(5), DoTick(4, false), DoRecover(5)]).phase == Idle
  {
    CloseFirst(c);
    var e := Step(c, New, DoClose(5));
    TickBack(c, e);
    var f := Step(c, e, DoTick(4, false));
    RecoverIdle(c, f);
    hide Step;
    assert [DoClose(5)][1..] == [];
    var ops := [DoClose(5), DoTick(4, false), DoRecover(5)];
    assert ops[1..] == [DoTick(4, false), DoRecover(5)] && ops[1..][1..] == [DoRecover(5)] && ops[1..][1..][1..] == [];
    assert Run(c, f, [DoRecover(5)]) == Step(c, f, DoRecover(5));
  }

  lemma {:induction false} CloseFirst(c: Config)
    ensures var e := Step(c, New, DoClose(5)); e.phase == Closed && e.clock == Some(5) && e.sequence == 1 && e.generation == New.generation
  {
    EmitIs(New.(clock := Some(5), phase := Closed), 1);
  }

  lemma {:induction false} TickBack(c: Config, e: Endpoint)
    requires e.clock == Some(5)
    ensures Step(c, e, DoTick(4, false)) == Recovering(e).(current := None, quarantined := None)
  {
    hide Emit;
  }

  lemma {:induction false} RecoverIdle(c: Config, f: Endpoint)
    requires f.phase == RecoveryRequired && f.pending && f.clock == Some(5) && f.sequence == 1 && f.generation < MAX_UINT64
    ensures Step(c, f, DoRecover(5)).phase == Idle
  {
    EmitIs(NewGeneration(f.(clock := Some(5))), 2);
    hide Emit, Numbered;
  }
}
