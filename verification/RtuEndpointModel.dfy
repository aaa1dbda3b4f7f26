/** The owner of one RTU line as a value: seven phases, one request at a time, and a quarantine. */
module RtuEndpointModel {
  import opened Common
  import opened Pdu
  import RtuAdu
  import RtuDecoder
  import Crc

  datatype Config = Config(timing: RtuDecoder.Timing, character: GoInt, latency: GoInt, quiescence: GoInt, maxDiscarded: Uint64)

  /** A sum of offsets, if it is one. */
  function Later(offset: GoInt, delay: GoInt): Option<GoInt> {
    if offset < 0 || delay < 0 || offset > MAX_INT - delay then None else Some(offset + delay)
  }

  predicate ValidConfig(c: Config) {
    && RtuDecoder.ValidTiming(c.timing) && c.character > 0 && c.maxDiscarded > 0
    && Later(c.latency, c.timing.t35).Some? && Later(c.latency, c.timing.t35).value <= c.quiescence
  }

  datatype Phase = Idle | Writing | ResponseWait | InterFrameGuard | Quarantine | RecoveryRequired | Closed

  datatype Kind = Read(read: ReadRequest) | DeviceId

  function FunctionOf(k: Kind): Byte {
    if k.Read? then k.read.function_ else 0x2b
  }

  /** The length of the request frame: unit, request, checksum. */
  function FrameBytes(k: Kind): nat {
    if k.Read? then 8 else 7
  }

  datatype Request = Request(id: Uint64, generation: Uint64, unit: bv8, kind: Kind, written: GoInt, deadline: GoInt, completed: GoInt)

  datatype Handle = Handle(mine: bool, id: Uint64, generation: Uint64)

  /** What a quarantine waits for. `discarded` counts the frames thrown away in it. */
  datatype Hold = Hold(anchor: GoInt, latency: GoInt, quiescence: GoInt, idle: GoInt, discarded: Uint64, sawBytes: bool)

  datatype Guard = Guard(deadline: GoInt, id: Uint64, unit: bv8)

  datatype Ids = Ids(request: Uint64, wire: Uint64, diagnostic: Uint64)

  /** `log` holds the numbers of the events handed to the sink. */
  datatype Endpoint = Endpoint(
    phase: Phase, generation: Uint64, ids: Ids, sequence: Uint64, current: Option<Request>, quarantined: Option<Request>,
    clock: Option<GoInt>, hold: Hold, guard: Guard, discarded: Uint64, pending: bool, observed: Option<GoInt>,
    decoder: RtuDecoder.State, log: seq<nat>)

  const New := Endpoint(
    Idle, 1, Ids(1, 1, 1), 0, None, None, None, Hold(0, 0, 0, 0, 0, false), Guard(0, 0, 0), 0, false, None, RtuDecoder.Fresh, [])

  // ---------- Clock, events, recovery ----------

  function Recovering(e: Endpoint): (f: Endpoint)
    ensures f.phase == RecoveryRequired
  {
    e.(phase := RecoveryRequired, pending := true)
  }

  predicate Regresses(e: Endpoint, now: GoInt) {
    now < 0 || (e.clock.Some? && now < e.clock.value)
  }

  /** Reads the clock; a clock that runs backwards ends everything that was going on. */
  function AtTime(e: Endpoint, now: GoInt): Endpoint {
    if Regresses(e, now) then Recovering(e).(current := None, quarantined := None) else e.(clock := Some(now))
  }

  predicate CanEmit(e: Endpoint, n: nat) {
    e.sequence + n <= MAX_UINT64
  }

  /** Numbers one event; an exhausted counter would end in recovery. */
  function Event(e: Endpoint): Endpoint {
    if e.sequence == MAX_UINT64 then e.(phase := RecoveryRequired)
    else e.(sequence := e.sequence + 1, log := e.log + [e.sequence + 1])
  }

  /** The events handed out so far are numbered one by one from the first. */
  ghost predicate Numbered(sequence: Uint64, log: seq<nat>) {
    |log| == sequence && forall i :: 0 <= i < |log| ==> log[i] == i + 1
  }

  function Emit(e: Endpoint, n: nat): (f: Endpoint)
    ensures f.generation == e.generation && f.ids == e.ids && (Numbered(e.sequence, e.log) ==> Numbered(f.sequence, f.log))
    decreases n
  {
    if n == 0 then e else Emit(Event(e), n - 1)
  }

  function GiveUp(e: Endpoint): Endpoint {
    Recovering(e).(current := None)
  }

  // ---------- Quarantine ----------

  function Horizon(c: Config, frameBytes: nat): Option<GoInt> {
    if frameBytes == 0 || frameBytes > RtuAdu.MAX_ADU || c.character <= 0 || frameBytes > MAX_INT / c.character then None
    else
      MulFits(frameBytes, c.character);
      Some(frameBytes * c.character)
  }

  lemma {:induction false} MulFits(n: nat, t: GoInt)
    requires t > 0 && n <= MAX_INT / t
    ensures 0 <= n * t <= MAX_INT
  {
    assert n * t <= (MAX_INT / t) * t;
  }

  function Prepare(c: Config, observed: Option<GoInt>, anchor: GoInt): Option<Hold> {
    var latency, quiescence := Later(anchor, c.latency), Later(anchor, c.quiescence);
    if latency.None? || quiescence.None? then None
    else
      var idle := Later(latency.value, c.timing.t35);
      if idle.None? || idle.value > quiescence.value then None
      else if observed.None? then Some(Hold(anchor, latency.value, quiescence.value, idle.value, 0, false))
      else
        var quiet := Later(observed.value, c.timing.t35);
        if quiet.None? || quiet.value > quiescence.value then None
        else Some(Hold(anchor, latency.value, quiescence.value, if quiet.value > idle.value then quiet.value else idle.value, 0, true))
  }

  function Enter(c: Config, e: Endpoint, r: Request, anchor: GoInt, events: nat): Endpoint {
    var hold := Prepare(c, e.observed, anchor);
    if hold.None? then GiveUp(e)
    else Emit(e.(phase := Quarantine, hold := hold.value, quarantined := Some(r), current := None, decoder := RtuDecoder.Fresh), events)
  }

  /** When an interrupted write can have left the line at the latest. */
  function Anchor(c: Config, r: Request, now: GoInt): Option<GoInt> {
    var horizon := Horizon(c, FrameBytes(r.kind));
    if horizon.None? then None
    else
      var end := Later(r.written, horizon.value);
      if end.None? then None else Some(if end.value < now then now else end.value)
  }

  function Interrupt(c: Config, e: Endpoint, r: Request, now: GoInt): Endpoint {
    var anchor := Anchor(c, r, now);
    if anchor.None? then GiveUp(e) else Enter(c, e, r, anchor.value, 3)
  }

  predicate Overstayed(e: Endpoint, now: GoInt) {
    e.phase == Quarantine && now > e.hold.quiescence
  }

  /** A quarantine that outlasts its quiescence bound needs recovery. */
  function Expire(e: Endpoint): Endpoint {
    if !CanEmit(e, 1) then Recovering(e).(quarantined := None, decoder := RtuDecoder.Fresh)
    else Emit(e.(phase := RecoveryRequired, quarantined := None, decoder := RtuDecoder.Fresh), 1)
  }

  /** The same when it is noticed by an incoming byte or an ended frame. */
  function ExpireOnTraffic(e: Endpoint): Endpoint {
    if !CanEmit(e, 1) then Expire(e) else Expire(e.(hold := e.hold.(sawBytes := false)))
  }

  // ---------- Requests ----------

  datatype Plan = Plan(unit: bv8, kind: Kind, timeout: GoInt, identified: bool)

  predicate ValidPlan(p: Plan) {
    RtuAdu.ValidUnit(p.unit) && (p.kind.Read? ==> ValidRead(p.kind.read)) && p.timeout > 0 && p.identified
  }

  predicate Spent(id: Uint64) {
    id == 0 || id == MAX_UINT64
  }

  function Begin(e: Endpoint, p: Plan, now: GoInt): (Endpoint, Option<Request>) {
    if !ValidPlan(p) || e.phase != Idle then (e, None)
    else if Spent(e.ids.request) || !CanEmit(e, 1) then (Recovering(e), None)
    else if Regresses(e, now) then (AtTime(e, now), None)
    else
      var f, deadline := AtTime(e, now), Later(now, p.timeout);
      if deadline.None? then (f, None)
      else
        var r := Request(e.ids.request, e.generation, p.unit, p.kind, now, deadline.value, 0);
        (Emit(f.(phase := Writing, ids := e.ids.(request := e.ids.request + 1), observed := None, current := Some(r)), 1), Some(r))
  }

  predicate Matches(e: Endpoint, h: Handle) {
    && e.current.Some? && h.mine && h.id != 0 && h.id == e.current.value.id && h.generation == e.generation
  }

  datatype Result = ProvableZero | Complete | Uncertain

  function Transmitted(c: Config, e: Endpoint, r: Request, result: Result, now: GoInt, late: bool): Endpoint {
    match result
    case ProvableZero =>
      if !CanEmit(e, 2) then GiveUp(e) else Emit(e.(phase := Idle, current := None, observed := None), 2)
    case Complete =>
      var s := r.(completed := now);
      if !late then (if !CanEmit(e, 1) then GiveUp(e) else Emit(e.(phase := ResponseWait, current := Some(s)), 1))
      else if !CanEmit(e, 3) then GiveUp(e)
      else Enter(c, e, s, now, 3)
    case Uncertain =>
      if !CanEmit(e, 3) then GiveUp(e) else Interrupt(c, e, r, now)
  }

  function CompleteTransmit(c: Config, e: Endpoint, h: Handle, result: Result, now: GoInt, cancelled: bool): Endpoint {
    if !Matches(e, h) || e.phase != Writing then e
    else if Regresses(e, now) then AtTime(e, now)
    else Transmitted(c, AtTime(e, now), e.current.value, result, now, cancelled || now >= e.current.value.deadline)
  }

  function GiveUpWaiting(c: Config, e: Endpoint, r: Request): Endpoint {
    if !CanEmit(e, 2) then GiveUp(e) else Enter(c, e, r, r.completed, 2)
  }

  function Tick(c: Config, e: Endpoint, now: GoInt, cancelled: bool): Endpoint {
    if Regresses(e, now) then AtTime(e, now)
    else
      var f := AtTime(e, now);
      if f.phase == Quarantine then (if Overstayed(f, now) then Expire(f) else f)
      else if f.current.None? || !(cancelled || now >= f.current.value.deadline) then f
      else if f.phase == Writing then (if !CanEmit(f, 3) then GiveUp(f) else Interrupt(c, f, f.current.value, now))
      else if f.phase == ResponseWait then GiveUpWaiting(c, f, f.current.value)
      else f
  }

  function Abandon(c: Config, e: Endpoint, h: Handle, now: GoInt): Endpoint {
    if !Matches(e, h) || e.phase != ResponseWait then e
    else if !CanEmit(e, 2) then GiveUp(e)
    else if Regresses(e, now) then AtTime(e, now)
    else Enter(c, AtTime(e, now), e.current.value, e.current.value.completed, 2)
  }

  // ---------- Bytes ----------

  function FeedQuarantine(c: Config, e: Endpoint, now: GoInt, value: bv8): Endpoint {
    var quiet := Later(now, c.timing.t35);
    if quiet.None? then Recovering(e).(quarantined := None, observed := Some(now))
    else
      var idle := if quiet.value < e.hold.latency then e.hold.latency else quiet.value;
      var (d, fed) := RtuDecoder.Feed(c.timing, e.decoder, now, value);
      e.(observed := Some(now), hold := e.hold.(idle := idle, sawBytes := true),
         decoder := if fed == RtuDecoder.Accepted then d else RtuDecoder.Fresh)
  }

  function FeedGuard(c: Config, e: Endpoint, now: GoInt): Endpoint {
    var deadline := Later(now, c.timing.t35);
    if deadline.None? || e.discarded == MAX_UINT64 || !CanEmit(e, 1) then Recovering(e)
    else Emit(e.(guard := e.guard.(deadline := deadline.value), discarded := e.discarded + 1), 1)
  }

  function FeedByte(c: Config, e: Endpoint, now: GoInt, value: bv8): Endpoint {
    if Regresses(e, now) then AtTime(e, now)
    else
      var f := AtTime(e, now);
      if Overstayed(f, now) then ExpireOnTraffic(f)
      else match f.phase
        case Quarantine => FeedQuarantine(c, f, now, value)
        case ResponseWait => f.(observed := Some(now), decoder := RtuDecoder.Feed(c.timing, f.decoder, now, value).0)
        case InterFrameGuard => FeedGuard(c, f, now)
        case _ => f
  }

  // ---------- Frames ----------

  function ToBytes(o: Crc.Octets): seq<Byte> {
    seq(|o|, i requires 0 <= i < |o| => o[i] as int)
  }

  datatype Verdict = Good | ExceptionReply | Bad

  /** How the frame decodes against the request; `segment` says so for a device identification. */
  function Judge(r: Request, frame: Crc.Octets, segment: Verdict): Verdict {
    var d := RtuAdu.Decode(frame);
    if !d.Valid? || d.adu.unit != r.unit then Bad
    else match r.kind
      case DeviceId => segment
      case Read(read) =>
        if !ValidRead(read) then Bad
        else match DecodeReply(read, ToBytes(d.adu.pdu))
          case Data(_) => Good
          case Exception(_) => ExceptionReply
          case Malformed => Bad
  }

  predicate Candidate(r: Request, frame: Crc.Octets) {
    && |frame| > 1 && frame[0] == r.unit
    && (frame[1] as int == FunctionOf(r.kind) || frame[1] as int == FunctionOf(r.kind) + 0x80)
  }

  /** What ending a frame gives the caller. */
  datatype Receipt = Nothing | Discarded | Diagnostic(frame: Crc.Octets) | Response(request: Request, frame: Crc.Octets, verdict: Verdict)

  function Receive(c: Config, e: Endpoint, r: Request, frame: Crc.Octets, now: GoInt, segment: Verdict): (Endpoint, Receipt) {
    if !Candidate(r, frame) then
      if Spent(e.ids.diagnostic) || !CanEmit(e, 1) then (GiveUp(e), Nothing)
      else (Emit(e.(ids := e.ids.(diagnostic := e.ids.diagnostic + 1)), 1), Diagnostic(frame))
    else
      var deadline := Later(now, c.timing.t35);
      if deadline.None? || !CanEmit(e, 1) || Spent(e.ids.wire) then (GiveUp(e), Nothing)
      else
        (Emit(e.(phase := InterFrameGuard, ids := e.ids.(wire := e.ids.wire + 1), guard := Guard(deadline.value, r.id, r.unit), current := None), 1),
         Response(r, frame, Judge(r, frame, segment)))
  }

  function DiscardLate(c: Config, e: Endpoint, r: Request): (Endpoint, Receipt) {
    if e.discarded == MAX_UINT64 || !CanEmit(e, 3) then (GiveUp(e).(decoder := RtuDecoder.Fresh), Nothing)
    else
      var hold := Prepare(c, e.observed, r.completed);
      if hold.None? then (GiveUp(e), Nothing)
      else
        (Emit(e.(phase := Quarantine, hold := hold.value.(discarded := 1, sawBytes := false), quarantined := Some(r), current := None,
                 decoder := RtuDecoder.Fresh, observed := None, discarded := e.discarded + 1), 3), Discarded)
  }

  function DiscardQuarantined(c: Config, e: Endpoint): (Endpoint, Receipt) {
    if e.discarded == MAX_UINT64 || e.hold.discarded == MAX_UINT64 then (Recovering(e).(quarantined := None), Nothing)
    else
      var recovery := e.hold.discarded >= c.maxDiscarded;
      if !CanEmit(e, if recovery then 2 else 1) then (Recovering(e).(quarantined := None), Nothing)
      else
        var f := e.(discarded := e.discarded + 1, hold := e.hold.(discarded := e.hold.discarded + 1));
        if recovery then (Emit(Emit(f, 1).(phase := RecoveryRequired, quarantined := None), 1), Discarded)
        else (Emit(f, 1), Discarded)
  }

  function EndWaiting(c: Config, e: Endpoint, deviceId: bool, now: GoInt, cancelled: bool, segment: Verdict): (Endpoint, Receipt) {
    if e.current.None? || e.current.value.kind.DeviceId? != deviceId then (e, Nothing)
    else
      var (d, frame) := RtuDecoder.End(c.timing, e.decoder, now);
      if frame.None? then (e, Nothing)
      else
        var f, r := e.(decoder := d), e.current.value;
        if cancelled || now >= r.deadline then DiscardLate(c, f, r) else Receive(c, f, r, frame.value, now, segment)
  }

  function EndFrame(c: Config, e: Endpoint, deviceId: bool, now: GoInt, cancelled: bool, segment: Verdict): (Endpoint, Receipt) {
    if Regresses(e, now) then (AtTime(e, now), Nothing)
    else
      var f := AtTime(e, now);
      if Overstayed(f, now) then (ExpireOnTraffic(f), Nothing)
      else match f.phase
        case Quarantine =>
          if !f.hold.sawBytes then (f, Nothing)
          else DiscardQuarantined(c, f.(decoder := RtuDecoder.Fresh, hold := f.hold.(sawBytes := false), observed := None))
        case ResponseWait => EndWaiting(c, f, deviceId, now, cancelled, segment)
        case _ => (f, Nothing)
  }

  // ---------- Leaving guard and quarantine ----------

  function Release(e: Endpoint): Endpoint {
    Emit(e.(phase := Idle, quarantined := None, hold := e.hold.(sawBytes := false, discarded := 0), observed := None,
            decoder := RtuDecoder.Fresh), 1).(guard := e.guard.(id := 0, unit := 0))
  }

  /** Throws away what is still buffered; too many frames in one quarantine need recovery. */
  function ReleaseBuffered(c: Config, e: Endpoint): Endpoint {
    if e.discarded == MAX_UINT64 || e.hold.discarded == MAX_UINT64 then
      Emit(e.(phase := RecoveryRequired, quarantined := None, decoder := RtuDecoder.Fresh), 1)
    else
      var f := Emit(e.(discarded := e.discarded + 1, hold := e.hold.(discarded := e.hold.discarded + 1)), 1);
      if f.hold.discarded > c.maxDiscarded then
        Emit(f.(phase := RecoveryRequired, quarantined := None, hold := f.hold.(sawBytes := false), decoder := RtuDecoder.Fresh), 1)
      else Release(f)
  }

  predicate Buffered(e: Endpoint) {
    e.phase == Quarantine && e.hold.sawBytes
  }

  function Resynchronize(c: Config, e: Endpoint, now: GoInt): Endpoint {
    if Regresses(e, now) then AtTime(e, now)
    else
      var f := AtTime(e, now);
      if f.phase == Quarantine && now > f.hold.quiescence then
        if !CanEmit(f, 1) then Recovering(f) else Emit(f.(phase := RecoveryRequired), 1)
      else if f.phase == Quarantine && (now < f.hold.latency || now < f.hold.idle) then f
      else if f.phase == InterFrameGuard && now < f.guard.deadline then f
      else if f.phase != Quarantine && f.phase != InterFrameGuard then f
      else if !CanEmit(f, if Buffered(f) then 2 else 1) then Recovering(f).(quarantined := None, decoder := RtuDecoder.Fresh)
      else if Buffered(f) then ReleaseBuffered(c, f)
      else Release(f)
  }

  function FailQuiescence(e: Endpoint, now: GoInt): Endpoint {
    if e.phase != Quarantine then e
    else if Regresses(e, now) then AtTime(e, now)
    else
      var f := AtTime(e, now);
      if !CanEmit(f, 1) then Recovering(f) else Emit(f.(phase := RecoveryRequired), 1)
  }

  function NewGeneration(e: Endpoint): Endpoint
    requires e.generation < MAX_UINT64
  {
    Endpoint(Idle, e.generation + 1, Ids(1, 1, 1), e.sequence, None, None, e.clock, Hold(0, 0, 0, 0, 0, false), Guard(0, 0, 0),
             e.discarded, false, None, RtuDecoder.Fresh, e.log)
  }

  function Recover(e: Endpoint, now: GoInt): Endpoint {
    if e.phase != RecoveryRequired || e.generation == MAX_UINT64 then e
    else if Regresses(e, now) then AtTime(e, now)
    else
      var f := AtTime(e, now);
      var n := if f.pending then 2 else 1;
      if !CanEmit(f, n) then f else Emit(NewGeneration(f), n)
  }

  function Close(e: Endpoint, now: GoInt): Endpoint {
    if e.phase == Closed then e
    else if Regresses(e, now) then AtTime(e, now).(phase := Closed)
    else
      var f := AtTime(e, now);
      if !CanEmit(f, 1) then f.(phase := Closed, current := None)
      else
        Emit(f.(phase := Closed, current := None, quarantined := None, guard := f.guard.(id := 0, unit := 0), observed := None,
                decoder := RtuDecoder.Fresh), 1)
  }
}
