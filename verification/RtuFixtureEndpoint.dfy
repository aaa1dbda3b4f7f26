/** The RTU line owner as the source runs it: phase, deadlines, counters and decoder updated step by step. */
module RtuFixtureEndpoints {
  import opened Common
  import RtuDecoder
  import Crc
  import opened RtuEndpointModel
  import opened RtuEndpointSafety

  class RTUFixtureEndpoint {
    const config: Config
    const decoder: RtuDecoder.RTUFrameDecoder
    var phase: Phase
    var generation: Uint64
    var nextRequestID: Uint64
    var nextWireResponseID: Uint64
    var nextDiagnosticID: Uint64
    var nextSequence: Uint64
    var current: Option<Request>
    var quarantined: Option<Request>
    var lastClock: GoInt
    var haveClock: bool
    var hold: Hold
    var guard: Guard
    var discardedFrames: Uint64
    var pendingRecovery: bool
    var lastObservedByte: GoInt
    var haveObservedByte: bool
    var log: seq<nat>
    ghost var history: History

    ghost function View(): Endpoint
      reads this, decoder
    {
      Endpoint(phase, generation, Ids(nextRequestID, nextWireResponseID, nextDiagnosticID), nextSequence, current, quarantined,
               if haveClock then Some(lastClock) else None, hold, guard, discardedFrames, pendingRecovery,
               if haveObservedByte then Some(lastObservedByte) else None, decoder.View(), log)
    }

    /** What the handlers need of the decoder while a step is under way. */
    ghost predicate Wired()
      reads this, decoder
    {
      decoder.timing == config.timing && (decoder.poisoned ==> decoder.buffer == [] && !decoder.haveByte)
    }

    /** Between two calls the endpoint is in a state that some run of the line reaches with this history. */
    ghost predicate Valid()
      reads this, decoder
    {
      Wired() && Inv(config, View(), history)
    }

    constructor (c: Config)
      requires ValidConfig(c)
      ensures Valid() && config == c && View() == New && history == Start && fresh(decoder)
    {
      config := c;
      decoder := new RtuDecoder.RTUFrameDecoder(c.timing);
      phase, generation := Idle, 1;
      nextRequestID, nextWireResponseID, nextDiagnosticID, nextSequence := 1, 1, 1, 0;
      current, quarantined := None, None;
      lastClock, haveClock := 0, false;
      hold, guard := Hold(0, 0, 0, 0, 0, false), Guard(0, 0, 0);
      discardedFrames, pendingRecovery := 0, false;
      lastObservedByte, haveObservedByte, log := 0, false, [];
      history := Start;
      new;
      NewInv(c);
    }

    /** The history's share of the step that is about to be taken. */
    ghost method Remember(op: Op)
      requires Valid()
      modifies `history
      ensures history == Note(config, View(), old(history), op) && Inv(config, Step(config, View(), op), history)
    {
      hide Inv, Note, Step;
      StepKeeps(config, View(), history, op);
      history := Note(config, View(), history, op);
    }

    // ---------- Clock, events, recovery ----------

    method RequireRecovery()
      modifies `phase, `pendingRecovery
      ensures View() == Recovering(old(View()))
    {
      phase := RecoveryRequired;
      pendingRecovery := true;
    }

    method ReadClock(now: GoInt) returns (ok: bool)
      modifies `phase, `pendingRecovery, `current, `quarantined, `lastClock, `haveClock
      ensures View() == AtTime(old(View()), now) && ok == !Regresses(old(View()), now)
    {
      if now < 0 || (haveClock && now < lastClock) {
        RequireRecovery();
        current, quarantined := None, None;
        return false;
      }
      lastClock, haveClock := now, true;
      return true;
    }

    method EmitEvents(n: nat)
      modifies `phase, `nextSequence, `log
      ensures View() == Emit(old(View()), n)
    {
      hide Numbered;
      var left: nat := n;
      while left > 0
        invariant left <= n && Emit(View(), left) == Emit(old(View()), n)
      {
        if nextSequence == MAX_UINT64 {
          phase := RecoveryRequired;
        } else {
          nextSequence := nextSequence + 1;
          log := log + [nextSequence];
        }
        left := left - 1;
      }
    }

    method GiveUpRequest()
      modifies `phase, `pendingRecovery, `current
      ensures View() == GiveUp(old(View()))
    {
      RequireRecovery();
      current := None;
    }

    predicate Capacity(n: nat)
      reads this
      ensures Capacity(n) == CanEmit(View(), n)
    {
      nextSequence <= MAX_UINT64 - n
    }

    // ---------- Quarantine ----------

    /** The deadlines of a quarantine, each sum checked; when they do not fit one another the request is given up. */
    method PrepareQuarantine(anchor: GoInt) returns (prepared: Option<Hold>)
      modifies `phase, `pendingRecovery, `current
      ensures prepared == Prepare(config, old(View()).observed, anchor)
      ensures View() == if prepared.None? then GiveUp(old(View())) else old(View())
    {
      var latency := Later(anchor, config.latency);
      if latency.None? {
        GiveUpRequest();
        return None;
      }
      var quiescence := Later(anchor, config.quiescence);
      if quiescence.None? {
        GiveUpRequest();
        return None;
      }
      var idle := Later(latency.value, config.timing.t35);
      if idle.None? || idle.value > quiescence.value {
        GiveUpRequest();
        return None;
      }
      var until := idle.value;
      if haveObservedByte {
        var quiet := Later(lastObservedByte, config.timing.t35);
        if quiet.None? || quiet.value > quiescence.value {
          GiveUpRequest();
          return None;
        }
        if quiet.value > until {
          until := quiet.value;
        }
      }
      return Some(Hold(anchor, latency.value, quiescence.value, until, 0, haveObservedByte));
    }

    method SetQuarantine(r: Request, prepared: Hold)
      requires Wired()
      modifies `phase, `hold, `quarantined, `current, decoder
      ensures Wired()
      ensures View() == old(View()).(phase := Quarantine, hold := prepared, quarantined := Some(r), current := None, decoder := RtuDecoder.Fresh)
    {
      phase, hold, quarantined, current := Quarantine, prepared, Some(r), None;
      decoder.Reset();
    }

    method EnterQuarantine(r: Request, anchor: GoInt, events: nat)
      requires Wired()
      modifies this, decoder
      ensures Wired() && history == old(history) && View() == Enter(config, old(View()), r, anchor, events)
    {
      hide Emit, Prepare, Numbered;
      var prepared := PrepareQuarantine(anchor);
      if prepared.Some? {
        SetQuarantine(r, prepared.value);
        EmitEvents(events);
      }
    }

    method InterruptWrite(r: Request, now: GoInt)
      requires Wired()
      modifies this, decoder
      ensures Wired() && history == old(history) && View() == Interrupt(config, old(View()), r, now)
    {
      hide Enter, Numbered;
      var horizon := Horizon(config, FrameBytes(r.kind));
      var end := if horizon.None? then None else Later(r.written, horizon.value);
      if end.None? {
        GiveUpRequest();
        return;
      }
      EnterQuarantine(r, if end.value < now then now else end.value, 3);
    }

    method ExpireQuarantine()
      requires Wired()
      modifies this, decoder
      ensures Wired() && history == old(history) && View() == Expire(old(View()))
    {
      hide Emit, Numbered;
      if !Capacity(1) {
        RequireRecovery();
        quarantined := None;
        decoder.Reset();
        return;
      }
      phase, quarantined := RecoveryRequired, None;
      decoder.Reset();
      EmitEvents(1);
    }

    /** Ends a quarantine that outlasted its bound when a byte or the end of a frame shows it. */
    method ExpireOnInput()
      requires Wired()
      modifies this, decoder
      ensures Wired() && history == old(history) && View() == ExpireOnTraffic(old(View()))
    {
      hide Expire, Numbered;
      if Capacity(1) {
        hold := hold.(sawBytes := false);
      }
      ExpireQuarantine();
    }

    // ---------- Requests ----------

    method BeginRequest(p: Plan, now: GoInt) returns (r: Option<Request>)
      requires Valid()
      modifies this
      ensures Valid() && history == Note(config, old(View()), old(history), DoBegin(p, now))
      ensures (View(), r) == Begin(old(View()), p, now)
      ensures r.Some? ==> old(phase) == Idle && decoder.View() == RtuDecoder.Fresh && r.value.id == old(nextRequestID) < nextRequestID
    {
      Remember(DoBegin(p, now));
      hide Inv, Note, Emit, Numbered, ValidPlan;
      if !ValidPlan(p) || phase != Idle {
        return None;
      }
      if Spent(nextRequestID) || !Capacity(1) {
        RequireRecovery();
        return None;
      }
      var ok := ReadClock(now);
      if !ok {
        return None;
      }
      var deadline := Later(now, p.timeout);
      if deadline.None? {
        return None;
      }
      r := Some(Request(nextRequestID, generation, p.unit, p.kind, now, deadline.value, 0));
      StartWriting(r.value);
    }

    method StartWriting(r: Request)
      requires nextRequestID < MAX_UINT64
      modifies `nextRequestID, `phase, `haveObservedByte, `current, `nextSequence, `log
      ensures var e := old(View());
              View() == Emit(e.(phase := Writing, ids := e.ids.(request := e.ids.request + 1), observed := None, current := Some(r)), 1)
    {
      hide Emit, Numbered;
      nextRequestID := nextRequestID + 1;
      phase := Writing;
      haveObservedByte := false;
      current := Some(r);
      EmitEvents(1);
    }

    predicate Names(h: Handle)
      reads this, decoder
      ensures Names(h) == Matches(View(), h)
    {
      current.Some? && h.mine && h.id != 0 && h.id == current.value.id && h.generation == generation
    }

    method ApplyResult(r: Request, result: Result, now: GoInt, late: bool)
      requires Wired()
      modifies this, decoder
      ensures Wired() && history == old(history) && View() == Transmitted(config, old(View()), r, result, now, late)
    {
      hide Emit, Numbered, Enter, Interrupt;
      if !Capacity(if result == ProvableZero then 2 else if result == Uncertain || late then 3 else 1) {
        GiveUpRequest();
        return;
      }
      match result
      case ProvableZero =>
        phase, current, haveObservedByte := Idle, None, false;
        EmitEvents(2);
      case Complete =>
        var s := r.(completed := now);
        if late {
          EnterQuarantine(s, now, 3);
        } else {
          phase, current := ResponseWait, Some(s);
          EmitEvents(1);
        }
      case Uncertain =>
        InterruptWrite(r, now);
    }

    method TransmitLocked(h: Handle, result: Result, now: GoInt, cancelled: bool)
      requires Wired()
      modifies this, decoder
      ensures Wired() && history == old(history)
      ensures View() == RtuEndpointModel.CompleteTransmit(config, old(View()), h, result, now, cancelled)
    {
      hide Transmitted, Regresses;
      if !Names(h) || phase != Writing {
        return;
      }
      var r := current.value;
      var ok := ReadClock(now);
      if ok {
        ApplyResult(r, result, now, cancelled || now >= r.deadline);
      }
    }

    method CompleteTransmit(h: Handle, result: Result, now: GoInt, cancelled: bool)
      requires Valid()
      modifies this, decoder
      ensures Valid() && history == Note(config, old(View()), old(history), DoTransmit(h, result, now, cancelled))
      ensures View() == RtuEndpointModel.CompleteTransmit(config, old(View()), h, result, now, cancelled)
      ensures old(phase) == Writing && phase == ResponseWait ==> history == Start && current.Some? && current.value.completed == now
    {
      hide Inv, Note, RtuEndpointModel.CompleteTransmit, Numbered;
      if phase == Writing && RtuEndpointModel.CompleteTransmit(config, View(), h, result, now, cancelled).phase == ResponseWait {
        WaitingStartsFresh(config, View(), history, h, result, now, cancelled);
      }
      Remember(DoTransmit(h, result, now, cancelled));
      TransmitLocked(h, result, now, cancelled);
    }

    method TickLocked(now: GoInt, cancelled: bool)
      requires Wired()
      modifies this, decoder
      ensures Wired() && history == old(history)
      ensures View() == RtuEndpointModel.Tick(config, old(View()), now, cancelled)
    {
      hide Regresses, Expire, Enter, Interrupt, Numbered;
      var ok := ReadClock(now);
      if !ok {
        return;
      }
      if phase == Quarantine {
        if now > hold.quiescence {
          ExpireQuarantine();
        }
        return;
      }
      if current.None? || !(cancelled || now >= current.value.deadline) {
        return;
      }
      if phase == Writing {
        if !Capacity(3) {
          GiveUpRequest();
          return;
        }
        InterruptWrite(current.value, now);
      } else if phase == ResponseWait {
        if !Capacity(2) {
          GiveUpRequest();
          return;
        }
        EnterQuarantine(current.value, current.value.completed, 2);
      }
    }

    method Tick(now: GoInt, cancelled: bool)
      requires Valid()
      modifies this, decoder
      ensures Valid() && history == Note(config, old(View()), old(history), DoTick(now, cancelled))
      ensures View() == RtuEndpointModel.Tick(config, old(View()), now, cancelled)
    {
      hide Inv, Note, RtuEndpointModel.Tick, Numbered;
      Remember(DoTick(now, cancelled));
      TickLocked(now, cancelled);
    }

    method Abandon(h: Handle, now: GoInt)
      requires Valid()
      modifies this, decoder
      ensures Valid() && history == Note(config, old(View()), old(history), DoAbandon(h, now))
      ensures View() == RtuEndpointModel.Abandon(config, old(View()), h, now)
    {
      Remember(DoAbandon(h, now));
      hide Inv, Note, Regresses, Enter;
      if !Names(h) || phase != ResponseWait {
        return;
      }
      if !Capacity(2) {
        GiveUpRequest();
        return;
      }
      var r := current.value;
      var ok := ReadClock(now);
      if ok {
        EnterQuarantine(r, r.completed, 2);
      }
    }

    // ---------- Bytes ----------

    method FeedQuarantined(now: GoInt, value: bv8)
      requires Wired() && phase == Quarantine
      modifies this, decoder
      ensures Wired() && history == old(history) && View() == FeedQuarantine(config, old(View()), now, value)
    {
      hide RtuDecoder.Feed;
      lastObservedByte, haveObservedByte := now, true;
      var quiet := Later(now, config.timing.t35);
      if quiet.None? {
        RequireRecovery();
        quarantined := None;
        return;
      }
      hold := hold.(idle := if quiet.value < hold.latency then hold.latency else quiet.value, sawBytes := true);
      var fed := decoder.FeedByte(now, value);
      if fed != RtuDecoder.Accepted {
        decoder.Reset();
      }
    }

    method FeedGuarded(now: GoInt)
      requires Wired()
      modifies this
      ensures Wired() && history == old(history) && View() == FeedGuard(config, old(View()), now)
    {
      hide Emit, Numbered;
      var deadline := Later(now, config.timing.t35);
      if deadline.None? || discardedFrames == MAX_UINT64 || !Capacity(1) {
        RequireRecovery();
        return;
      }
      guard := guard.(deadline := deadline.value);
      discardedFrames := discardedFrames + 1;
      EmitEvents(1);
    }

    method FeedLocked(now: GoInt, value: bv8)
      requires Wired()
      modifies this, decoder
      ensures Wired() && history == old(history)
      ensures View() == RtuEndpointModel.FeedByte(config, old(View()), now, value)
    {
      hide Regresses, FeedQuarantine, FeedGuard, ExpireOnTraffic, RtuDecoder.Feed;
      var ok := ReadClock(now);
      if !ok {
        return;
      }
      if phase == Quarantine && now > hold.quiescence {
        ExpireOnInput();
        return;
      }
      match phase
      case Quarantine =>
        FeedQuarantined(now, value);
      case ResponseWait =>
        lastObservedByte, haveObservedByte := now, true;
        var fed := decoder.FeedByte(now, value);
      case InterFrameGuard =>
        FeedGuarded(now);
      case _ =>
    }

    method FeedByte(now: GoInt, value: bv8)
      requires Valid()
      modifies this, decoder
      ensures Valid() && history == Note(config, old(View()), old(history), DoFeed(now, value))
      ensures View() == RtuEndpointModel.FeedByte(config, old(View()), now, value)
    {
      hide Inv, Note, RtuEndpointModel.FeedByte, Numbered;
      Remember(DoFeed(now, value));
      FeedLocked(now, value);
    }

    // ---------- Frames ----------

    method NoteUncorrelated(frame: Crc.Octets) returns (receipt: Receipt)
      requires Wired()
      modifies this
      ensures Wired() && history == old(history)
      ensures (View(), receipt) == if Spent(old(nextDiagnosticID)) || !CanEmit(old(View()), 1) then (GiveUp(old(View())), Nothing)
                                   else (Emit(old(View()).(ids := old(View()).ids.(diagnostic := old(nextDiagnosticID) + 1)), 1), Diagnostic(frame))
    {
      hide Emit, Numbered;
      if Spent(nextDiagnosticID) || !Capacity(1) {
        GiveUpRequest();
        return Nothing;
      }
      nextDiagnosticID := nextDiagnosticID + 1;
      EmitEvents(1);
      return Diagnostic(frame);
    }

    method GuardAfter(r: Request, deadline: GoInt)
      requires Wired() && nextWireResponseID < MAX_UINT64
      modifies this
      ensures Wired() && history == old(history)
      ensures View() == Emit(old(View()).(phase := InterFrameGuard, ids := old(View()).ids.(wire := old(nextWireResponseID) + 1),
                                          guard := Guard(deadline, r.id, r.unit), current := None), 1)
    {
      hide Emit, Numbered;
      nextWireResponseID := nextWireResponseID + 1;
      phase, guard, current := InterFrameGuard, Guard(deadline, r.id, r.unit), None;
      EmitEvents(1);
    }

    method ReceiveFrame(r: Request, frame: Crc.Octets, now: GoInt, segment: Verdict) returns (receipt: Receipt)
      requires Wired()
      modifies this
      ensures Wired() && history == old(history) && (View(), receipt) == Receive(config, old(View()), r, frame, now, segment)
    {
      hide Emit, Numbered, Judge, Candidate;
      if !Candidate(r, frame) {
        receipt := NoteUncorrelated(frame);
        return;
      }
      var deadline := Later(now, config.timing.t35);
      if deadline.None? || !Capacity(1) || Spent(nextWireResponseID) {
        GiveUpRequest();
        return Nothing;
      }
      GuardAfter(r, deadline.value);
      return Response(r, frame, Judge(r, frame, segment));
    }

    method DiscardLateFrame(r: Request) returns (receipt: Receipt)
      requires Wired()
      modifies this, decoder
      ensures Wired() && history == old(history) && (View(), receipt) == DiscardLate(config, old(View()), r)
    {
      hide Emit, Numbered, Prepare;
      if discardedFrames == MAX_UINT64 || !Capacity(3) {
        GiveUpRequest();
        decoder.Reset();
        return Nothing;
      }
      var prepared := PrepareQuarantine(r.completed);
      if prepared.None? {
        return Nothing;
      }
      SetQuarantine(r, prepared.value.(discarded := 1, sawBytes := false));
      haveObservedByte := false;
      discardedFrames := discardedFrames + 1;
      EmitEvents(3);
      return Discarded;
    }

    method CountDiscarded()
      requires Wired() && discardedFrames < MAX_UINT64 && hold.discarded < MAX_UINT64
      modifies this
      ensures Wired() && history == old(history)
      ensures View() == Emit(old(View()).(discarded := old(discardedFrames) + 1, hold := old(hold).(discarded := old(hold).discarded + 1)), 1)
    {
      hide Emit, Numbered;
      discardedFrames := discardedFrames + 1;
      hold := hold.(discarded := hold.discarded + 1);
      EmitEvents(1);
    }

    method NeedRecovery()
      requires Wired()
      modifies this
      ensures Wired() && history == old(history) && View() == Emit(old(View()).(phase := RecoveryRequired, quarantined := None), 1)
    {
      hide Emit, Numbered;
      phase, quarantined := RecoveryRequired, None;
      EmitEvents(1);
    }

    method DiscardQuarantineFrame() returns (receipt: Receipt)
      requires Wired()
      modifies this
      ensures Wired() && history == old(history) && (View(), receipt) == DiscardQuarantined(config, old(View()))
    {
      hide Emit, Numbered;
      if discardedFrames == MAX_UINT64 || hold.discarded == MAX_UINT64 {
        RequireRecovery();
        quarantined := None;
        return Nothing;
      }
      var recovery := hold.discarded >= config.maxDiscarded;
      if !Capacity(if recovery then 2 else 1) {
        RequireRecovery();
        quarantined := None;
        return Nothing;
      }
      CountDiscarded();
      if recovery {
        NeedRecovery();
      }
      return Discarded;
    }

    method EndAwaited(deviceId: bool, now: GoInt, cancelled: bool, segment: Verdict) returns (receipt: Receipt)
      requires Wired()
      modifies this, decoder
      ensures Wired() && history == old(history) && (View(), receipt) == EndWaiting(config, old(View()), deviceId, now, cancelled, segment)
    {
      hide Receive, DiscardLate;
      if current.None? || current.value.kind.DeviceId? != deviceId {
        return Nothing;
      }
      var frame := decoder.buffer;
      var ended := decoder.EndFrame(now);
      if ended.None? {
        return Nothing;
      }
      var r := current.value;
      if cancelled || now >= r.deadline {
        receipt := DiscardLateFrame(r);
      } else {
        receipt := ReceiveFrame(r, frame, now, segment);
      }
    }

    method EndLocked(deviceId: bool, now: GoInt, cancelled: bool, segment: Verdict) returns (receipt: Receipt)
      requires Wired()
      modifies this, decoder
      ensures Wired() && history == old(history)
      ensures (View(), receipt) == RtuEndpointModel.EndFrame(config, old(View()), deviceId, now, cancelled, segment)
    {
      hide Regresses, ExpireOnTraffic, DiscardQuarantined, EndWaiting;
      var ok := ReadClock(now);
      if !ok {
        return Nothing;
      }
      if phase == Quarantine && now > hold.quiescence {
        ExpireOnInput();
        return Nothing;
      }
      if phase == Quarantine {
        if !hold.sawBytes {
          return Nothing;
        }
        decoder.Reset();
        hold := hold.(sawBytes := false);
        haveObservedByte := false;
        receipt := DiscardQuarantineFrame();
      } else if phase == ResponseWait {
        receipt := EndAwaited(deviceId, now, cancelled, segment);
      } else {
        return Nothing;
      }
    }

    method EndFrame(deviceId: bool, now: GoInt, cancelled: bool, segment: Verdict) returns (receipt: Receipt)
      requires Valid()
      modifies this, decoder
      ensures Valid() && history == Note(config, old(View()), old(history), DoEnd(deviceId, now, cancelled, segment))
      ensures (View(), receipt) == RtuEndpointModel.EndFrame(config, old(View()), deviceId, now, cancelled, segment)
      ensures receipt.Response? ==>
                && old(phase) == ResponseWait && old(current) == Some(receipt.request)
                && 0 < |receipt.frame| <= |old(history).fed|
                && receipt.frame == RtuDecoder.Values(old(history).fed[|old(history).fed| - |receipt.frame|..])
    {
      hide Inv, Note, RtuEndpointModel.EndFrame, Numbered;
      if RtuEndpointModel.EndFrame(config, View(), deviceId, now, cancelled, segment).1.Response? {
        ResponseIsTail(config, View(), history, deviceId, now, cancelled, segment);
      }
      Remember(DoEnd(deviceId, now, cancelled, segment));
      receipt := EndLocked(deviceId, now, cancelled, segment);
    }

    // ---------- Leaving guard and quarantine ----------

    method BackToIdle()
      requires Wired()
      modifies this, decoder
      ensures Wired() && history == old(history) && guard == old(guard)
      ensures View() == Emit(old(View()).(phase := Idle, quarantined := None, hold := old(hold).(sawBytes := false, discarded := 0),
                                          observed := None, decoder := RtuDecoder.Fresh), 1)
    {
      hide Emit, Numbered;
      phase, quarantined, haveObservedByte := Idle, None, false;
      hold := hold.(sawBytes := false, discarded := 0);
      decoder.Reset();
      EmitEvents(1);
    }

    method ReleaseLine()
      requires Wired()
      modifies this, decoder
      ensures Wired() && history == old(history) && View() == Release(old(View()))
    {
      hide Emit, Numbered;
      BackToIdle();
      guard := guard.(id := 0, unit := 0);
    }

    method ReleaseAndDiscard()
      requires Wired()
      modifies this, decoder
      ensures Wired() && history == old(history) && View() == ReleaseBuffered(config, old(View()))
    {
      hide Emit, Numbered, Release;
      if discardedFrames == MAX_UINT64 || hold.discarded == MAX_UINT64 {
        decoder.Reset();
        NeedRecovery();
        return;
      }
      CountDiscarded();
      if hold.discarded > config.maxDiscarded {
        hold := hold.(sawBytes := false);
        decoder.Reset();
        NeedRecovery();
        return;
      }
      ReleaseLine();
    }

    method ResyncLocked(now: GoInt)
      requires Wired()
      modifies this, decoder
      ensures Wired() && history == old(history)
      ensures View() == Resynchronize(config, old(View()), now)
    {
      hide Regresses, Emit, Numbered, Release, ReleaseBuffered;
      var ok := ReadClock(now);
      if !ok {
        return;
      }
      if phase == Quarantine {
        if now > hold.quiescence {
          if !Capacity(1) {
            RequireRecovery();
          } else {
            phase := RecoveryRequired;
            EmitEvents(1);
          }
          return;
        }
        if now < hold.latency || now < hold.idle {
          return;
        }
      } else if phase == InterFrameGuard {
        if now < guard.deadline {
          return;
        }
      } else {
        return;
      }
      var buffered := phase == Quarantine && hold.sawBytes;
      if !Capacity(if buffered then 2 else 1) {
        RequireRecovery();
        quarantined := None;
        decoder.Reset();
        return;
      }
      if buffered {
        ReleaseAndDiscard();
      } else {
        ReleaseLine();
      }
    }

    method TryResynchronize(now: GoInt)
      requires Valid()
      modifies this, decoder
      ensures Valid() && history == Note(config, old(View()), old(history), DoResync(now))
      ensures View() == Resynchronize(config, old(View()), now)
      ensures old(phase) == Quarantine && phase == Idle ==>
                && old(hold).anchor + config.latency <= now <= old(hold).anchor + config.quiescence
                && (old(history).accepted.Some? ==> now >= old(history).accepted.value + config.timing.t35)
                && old(hold).discarded + (if old(hold).sawBytes then 1 else 0) <= config.maxDiscarded
    {
      hide Inv, Note, Resynchronize, Numbered;
      if phase == Quarantine && Resynchronize(config, View(), now).phase == Idle {
        ResyncInTime(config, View(), history, now);
      }
      Remember(DoResync(now));
      ResyncLocked(now);
    }

    method QuiescenceFails(now: GoInt)
      modifies this
      ensures history == old(history) && View() == RtuEndpointModel.FailQuiescence(old(View()), now)
    {
      hide Regresses, Emit, Numbered;
      if phase != Quarantine {
        return;
      }
      var ok := ReadClock(now);
      if !ok {
        return;
      }
      if !Capacity(1) {
        RequireRecovery();
        return;
      }
      phase := RecoveryRequired;
      EmitEvents(1);
    }

    method FailQuiescence(now: GoInt)
      requires Valid()
      modifies this
      ensures Valid() && history == Note(config, old(View()), old(history), DoFail(now))
      ensures View() == RtuEndpointModel.FailQuiescence(old(View()), now)
    {
      hide Inv, Note, RtuEndpointModel.FailQuiescence, Numbered;
      Remember(DoFail(now));
      QuiescenceFails(now);
    }

    method RecoverLocked(now: GoInt)
      requires Wired()
      modifies this, decoder
      ensures Wired() && history == old(history)
      ensures View() == RtuEndpointModel.Recover(old(View()), now)
    {
      hide Regresses, Emit, Numbered;
      if phase != RecoveryRequired || generation == MAX_UINT64 {
        return;
      }
      var ok := ReadClock(now);
      if !ok {
        return;
      }
      var n := if pendingRecovery then 2 else 1;
      if !Capacity(n) {
        return;
      }
      StartGeneration();
      EmitEvents(n);
    }

    method Recover(now: GoInt)
      requires Valid()
      modifies this, decoder
      ensures Valid() && history == Note(config, old(View()), old(history), DoRecover(now))
      ensures View() == RtuEndpointModel.Recover(old(View()), now)
    {
      hide Inv, Note, RtuEndpointModel.Recover, Numbered;
      Remember(DoRecover(now));
      RecoverLocked(now);
    }

    method ClearLine()
      requires Wired()
      modifies `hold, `guard, `haveObservedByte, decoder
      ensures Wired() && history == old(history)
      ensures View() == old(View()).(hold := Hold(0, 0, 0, 0, 0, false), guard := Guard(0, 0, 0), observed := None, decoder := RtuDecoder.Fresh)
    {
      hold, guard := Hold(0, 0, 0, 0, 0, false), Guard(0, 0, 0);
      haveObservedByte := false;
      decoder.Reset();
    }

    method StartGeneration()
      requires Wired() && generation < MAX_UINT64
      modifies this, decoder
      ensures Wired() && history == old(history)
      ensures View() == NewGeneration(old(View()))
    {
      ClearLine();
      pendingRecovery := false;
      generation := generation + 1;
      nextRequestID, nextWireResponseID, nextDiagnosticID := 1, 1, 1;
      phase, current, quarantined := Idle, None, None;
    }

    method ShutLine()
      requires Wired()
      modifies this, decoder
      ensures Wired() && history == old(history)
      ensures View() == Emit(old(View()).(phase := Closed, current := None, quarantined := None, guard := old(guard).(id := 0, unit := 0),
                                          observed := None, decoder := RtuDecoder.Fresh), 1)
    {
      hide Emit, Numbered;
      phase, current, quarantined, haveObservedByte := Closed, None, None, false;
      guard := guard.(id := 0, unit := 0);
      decoder.Reset();
      EmitEvents(1);
    }

    method CloseLocked(now: GoInt)
      requires Wired()
      modifies this, decoder
      ensures Wired() && history == old(history)
      ensures View() == RtuEndpointModel.Close(old(View()), now)
    {
      hide Regresses, Emit, Numbered;
      if phase == Closed {
        return;
      }
      var ok := ReadClock(now);
      if !ok {
        phase := Closed;
        return;
      }
      if !Capacity(1) {
        phase, current := Closed, None;
        return;
      }
      ShutLine();
    }

    method Close(now: GoInt)
      requires Valid()
      modifies this, decoder
      ensures Valid() && history == Note(config, old(View()), old(history), DoClose(now))
      ensures View() == RtuEndpointModel.Close(old(View()), now)
    {
      hide Inv, Note, RtuEndpointModel.Close, Numbered;
      Remember(DoClose(now));
      CloseLocked(now);
    }
  }
}
