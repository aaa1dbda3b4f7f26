/** What every run of a transaction owner keeps, across cancellations, abandonments, losses and reconnects. */
module OwnerSafety {
  import opened Common
  import opened Pdu
  import opened OwnerModel

  type Requests = map<Uint16, Owned>

  // ---------- Invariant ----------

  /** Physical identities below this one have been issued; zero marks the exhausted counter. */
  function Bound(o: Owner): nat {
    if o.nextPhys == 0 then MAX_UINT64 + 1 else o.nextPhys
  }

  predicate ValidKind(k: Kind) {
    k.ReadRegisters? ==> ValidRead(k.read)
  }

  ghost predicate Issued(r: Owned, id: Uint16, bound: nat) {
    r.tx == id && 0 < r.phys < bound && ValidKind(r.kind)
  }

  ghost predicate Flight(m: Requests, bound: nat) {
    && (forall id :: id in m ==> Issued(m[id], id, bound))
    && (forall i, j :: i in m && j in m && m[i].phys == m[j].phys ==> i == j)
  }

  /** The physical identities that still wait for something. */
  ghost function Open(m: Requests): set<Uint64> {
    set id | id in m :: m[id].phys
  }

  ghost predicate Stones(m: Requests, open: set<Uint64>, bound: nat) {
    forall id :: id in m ==> Issued(m[id], id, bound) && m[id].phys !in open
  }

  ghost predicate Last(c: Option<Owned>, open: set<Uint64>, bound: nat) {
    c.Some? ==> Issued(c.value, c.value.tx, bound) && c.value.phys !in open
  }

  ghost predicate Overtaken(e: map<Uint64, Uint16>, open: set<Uint64>, bound: nat) {
    forall p :: p in e ==> 0 < p < bound && p !in open
  }

  /** What is tombstoned or was answered early has been issued and is no longer open. */
  ghost predicate Buried(o: Owner, open: set<Uint64>, bound: nat) {
    Stones(o.tombstones, open, bound) && Last(o.closing, open, bound) && Overtaken(o.early, open, bound)
  }

  ghost predicate Inv(o: Owner) {
    && ValidLimits(o.limits)
    && Flight(o.inFlight, Bound(o))
    && Buried(o, Open(o.inFlight), Bound(o))
    && o.inFlight.Keys !! o.tombstones.Keys
    && |o.tombstones| <= o.limits.maxTombstones
    && |o.inFlight| + |o.early| <= o.limits.maxInFlight
  }

  /** Burial is undisturbed while nothing old reopens. */
  lemma {:induction false} BuriedStays(o: Owner, open: set<Uint64>, bound: nat, open': set<Uint64>, bound': nat)
    requires Buried(o, open, bound) && bound <= bound' && forall x :: x in open' ==> x in open || x >= bound
    ensures Buried(o, open', bound')
  {
  }

  // ---------- Steps ----------

  datatype Op =
    | DoReserve(unit: Byte, kind: Kind, deadline: GoInt)
    | DoCancel(handle: Reservation)
    | DoReplace(handle: Reservation, read: ReadRequest)
    | DoWrite(handle: Reservation)
    | DoTransmit(handle: Reservation, result: Result, until: GoInt)
    | DoExpire(now: GoInt)
    | DoAbandon(handle: Reservation)
    | DoCorrelate(generation: Uint64, frame: Frame)
    | DoBind
    | DoLose
    | DoClose
    | DoRetire
    | DoReconnect(next: Uint64)
    | DoDrain

  ghost function Step(o: Owner, op: Op): Owner {
    match op
    case DoReserve(unit, kind, deadline) => Reserve(o, unit, kind, deadline).0
    case DoCancel(h) => CancelBeforeWrite(o, h).0
    case DoReplace(h, read) => ReplaceRead(o, h, read).0
    case DoWrite(h) => MarkWriteInvoked(o, h).0
    case DoTransmit(h, result, until) => RecordTransmit(o, h, result, until).0
    case DoExpire(now) => AbandonExpired(o, now).0
    case DoAbandon(h) => AbandonAfterWrite(o, h).0
    case DoCorrelate(generation, f) => Correlate(o, generation, f).0
    case DoBind => Bind(o).0
    case DoLose => LoseTransport(o).0
    case DoClose => Close(o)
    case DoRetire => Retire(o)
    case DoReconnect(next) => Reconnect(o, next)
    case DoDrain => Drain(o).0
  }

  /** The physical request that this step delivers data for, if any. */
  ghost function Delivers(o: Owner, op: Op): Option<Uint64> {
    if op.DoCorrelate? && Correlate(o, op.generation, op.frame).1.Answer? && Correlate(o, op.generation, op.frame).1.deliverable
    then Some(Correlate(o, op.generation, op.frame).1.phys)
    else None
  }

  /**
   How a step may change what is open: identities only leave, except for a fresh one; the counter only grows;
   and a closed owner opens nothing.
   */
  ghost predicate Shrinks(o: Owner, p: Owner) {
    && Bound(o) <= Bound(p)
    && (forall x :: x in Open(p.inFlight) ==> x in Open(o.inFlight) || x >= Bound(o))
    && (o.closed && p.inFlight != map[] ==> p.closed)
  }

  lemma {:induction false} OpenWithout(m: Requests, bound: nat, id: Uint16)
    requires Flight(m, bound) && id in m
    ensures Flight(m - {id}, bound) && Open(m - {id}) == Open(m) - {m[id].phys} && m[id].phys in Open(m)
    ensures |m - {id}| == |m| - 1 && 0 < m[id].phys < bound
  {
    assert (m - {id}).Keys == m.Keys - {id};
    assert Issued(m[id], id, bound);
    forall x
      ensures x in Open(m - {id}) <==> x in Open(m) && x != m[id].phys
    {
      if x in Open(m) && x != m[id].phys {
        var i :| i in m && m[i].phys == x;
        assert (m - {id})[i].phys == x;
      }
    }
  }

  /** A request that changes in place keeps its identity. */
  lemma {:induction false} OpenUpdate(m: Requests, bound: nat, id: Uint16, r: Owned)
    requires Flight(m, bound) && id in m && r.tx == id && r.phys == m[id].phys && ValidKind(r.kind)
    ensures Flight(m[id := r], bound) && Open(m[id := r]) == Open(m) && |m[id := r]| == |m|
  {
    var n := m[id := r];
    assert n.Keys == m.Keys;
    forall x
      ensures x in Open(n) <==> x in Open(m)
    {
      if x in Open(m) {
        var i :| i in m && m[i].phys == x;
        assert n[i].phys == x;
      }
    }
  }

  lemma {:induction false} OpenEmpty(bound: nat)
    ensures Flight(map[], bound) && Open(map[]) == {}
  {
  }

  lemma {:induction false} FlightGrows(m: Requests, bound: nat, id: Uint16, r: Owned)
    requires Flight(m, bound) && id !in m && r.tx == id && r.phys == bound && bound > 0 && ValidKind(r.kind)
    ensures Flight(m[id := r], bound + 1) && Open(m[id := r]) == Open(m) + {r.phys} && |m[id := r]| == |m| + 1
  {
    var n := m[id := r];
    assert n.Keys == m.Keys + {id};
    forall x
      ensures x in Open(n) <==> x in Open(m) + {r.phys}
    {
      if x in Open(m) {
        var i :| i in m && m[i].phys == x;
        assert n[i].phys == x;
      }
      assert n[id].phys == r.phys;
    }
  }

  lemma {:induction false} IssueKeeps(o: Owner, id: Uint16, r: Owned, nextTx: Uint16)
    requires Inv(o) && !Taken(o, id) && |o.inFlight| + |o.early| < o.limits.maxInFlight
    requires o.nextPhys != 0 && r.tx == id && r.phys == o.nextPhys && ValidKind(r.kind)
    ensures var p := o.(nextTx := nextTx, nextPhys := Successor(o.nextPhys), inFlight := o.inFlight[id := r]);
            Inv(p) && Shrinks(o, p)
  {
    hide Flight, Open, Buried;
    var p := o.(nextTx := nextTx, nextPhys := Successor(o.nextPhys), inFlight := o.inFlight[id := r]);
    FlightGrows(o.inFlight, Bound(o), id, r);
    BuriedStays(o, Open(o.inFlight), Bound(o), Open(p.inFlight), Bound(p));
    BuriedSame(o, p, Open(p.inFlight), Bound(p));
  }

  lemma {:induction false} ReserveKeeps(o: Owner, unit: Byte, kind: Kind, deadline: GoInt)
    requires Inv(o)
    ensures Inv(Reserve(o, unit, kind, deadline).0) && Shrinks(o, Reserve(o, unit, kind, deadline).0)
  {
    hide Inv, Shrinks, Probe, Candidate, Successor, SameBook;
    var p := Reserve(o, unit, kind, deadline);
    if p.1.Issued? {
      var id := Candidate(o.nextTx, Probe(o, 0));
      IssueKeeps(o, id, p.0.inFlight[id], p.0.nextTx);
    } else {
      FlagsKeep(o, p.0);
    }
  }

  lemma {:induction false} BuriedSame(o: Owner, p: Owner, open: set<Uint64>, bound: nat)
    requires Buried(o, open, bound) && p.tombstones == o.tombstones && p.closing == o.closing && p.early == o.early
    ensures Buried(p, open, bound)
  {
  }

  lemma {:induction false} UpdateKeeps(o: Owner, id: Uint16, r: Owned)
    requires Inv(o) && id in o.inFlight && r.tx == id && r.phys == o.inFlight[id].phys && ValidKind(r.kind)
    ensures Inv(o.(inFlight := o.inFlight[id := r])) && Shrinks(o, o.(inFlight := o.inFlight[id := r]))
  {
    hide Flight, Open, Buried;
    OpenUpdate(o.inFlight, Bound(o), id, r);
    BuriedSame(o, o.(inFlight := o.inFlight[id := r]), Open(o.inFlight), Bound(o));
    assert o.inFlight[id := r].Keys == o.inFlight.Keys;
  }

  lemma {:induction false} WithdrawKeeps(o: Owner, id: Uint16)
    requires Inv(o) && id in o.inFlight
    ensures var p := Rewind(o.(inFlight := o.inFlight - {id}), id); Inv(p) && Shrinks(o, p)
    ensures o.inFlight[id].phys !in Open(o.inFlight - {id})
  {
    hide Flight, Open, Buried, Shrinks, Rewind;
    var q := o.(inFlight := o.inFlight - {id});
    OpenWithout(o.inFlight, Bound(o), id);
    BuriedStays(o, Open(o.inFlight), Bound(o), Open(q.inFlight), Bound(o));
    BuriedSame(o, q, Open(q.inFlight), Bound(o));
    Assemble(o, q);
    SameShrinks(o, q, Rewind(q, id));
  }

  lemma {:induction false} SameShrinks(o: Owner, q: Owner, p: Owner)
    requires Inv(q) && Shrinks(o, q) && SameBook(q, p) && p.closed == q.closed
    ensures Inv(p) && Shrinks(o, p)
  {
    hide Flight, Open, Buried;
    BuriedSame(q, p, Open(q.inFlight), Bound(q));
  }

  lemma {:induction false} BuriedGrows(o: Owner, r: Owned, open: set<Uint64>, bound: nat)
    requires Buried(o, open, bound) && Issued(r, r.tx, bound) && r.phys !in open
    ensures Buried(Bury(o, r), open, bound) && Buried(o.(closing := Some(r)), open, bound)
  {
  }

  /** Burying one request takes it out of flight. */
  lemma {:induction false} BuryKeeps(o: Owner, id: Uint16)
    requires Inv(o) && id in o.inFlight
    ensures var p := Bury(o, o.inFlight[id]).(inFlight := o.inFlight - {id}); Inv(p) && Shrinks(o, p)
  {
    hide Flight, Open, Buried, Shrinks, Inv, Bury;
    var p := Bury(o, o.inFlight[id]).(inFlight := o.inFlight - {id});
    BuryParts(o, id);
    BuryLeaves(o, o.inFlight[id]);
    BuryApart(o, id);
    Assemble(o, p);
  }

  lemma {:induction false} BuryLeaves(o: Owner, r: Owned)
    ensures Bury(o, r).limits == o.limits && Bury(o, r).nextPhys == o.nextPhys && Bury(o, r).closed == o.closed
    ensures |o.tombstones| < o.limits.maxTombstones ==> Bury(o, r).tombstones == o.tombstones[r.tx := r]
    ensures |o.tombstones| >= o.limits.maxTombstones ==> Bury(o, r).tombstones == o.tombstones
  {
  }

  lemma {:induction false} BuryApart(o: Owner, id: Uint16)
    requires Inv(o) && id in o.inFlight
    ensures var stones := Bury(o, o.inFlight[id]).tombstones;
            (o.inFlight - {id}).Keys !! stones.Keys && |stones| <= o.limits.maxTombstones
    ensures Flight(o.inFlight - {id}, Bound(o)) && Open(o.inFlight - {id}) <= Open(o.inFlight) && |o.inFlight - {id}| <= |o.inFlight|
  {
    hide Flight, Open, Buried, Bury;
    OpenWithout(o.inFlight, Bound(o), id);
    InFlightTx(o, id);
    BuryLeaves(o, o.inFlight[id]);
    KeysApart(o.inFlight, o.tombstones, id, o.inFlight[id]);
  }

  lemma {:induction false} BuryParts(o: Owner, id: Uint16)
    requires Inv(o) && id in o.inFlight
    ensures var p := Bury(o, o.inFlight[id]).(inFlight := o.inFlight - {id}); Buried(p, Open(p.inFlight), Bound(p))
  {
    hide Flight, Open, Buried;
    var rest := o.inFlight - {id};
    OpenWithout(o.inFlight, Bound(o), id);
    InFlightIssued(o, id);
    BuriedStays(o, Open(o.inFlight), Bound(o), Open(rest), Bound(o));
    BuriedGrows(o, o.inFlight[id], Open(rest), Bound(o));
    BuriedSame(Bury(o, o.inFlight[id]), Bury(o, o.inFlight[id]).(inFlight := rest), Open(rest), Bound(o));
  }

  lemma {:induction false} Assemble(o: Owner, p: Owner)
    requires Inv(o) && p.limits == o.limits && p.nextPhys == o.nextPhys && (o.closed ==> p.closed) && p.early == o.early
    requires Flight(p.inFlight, Bound(o)) && Buried(p, Open(p.inFlight), Bound(p)) && Open(p.inFlight) <= Open(o.inFlight)
    requires p.inFlight.Keys !! p.tombstones.Keys && |p.tombstones| <= o.limits.maxTombstones && |p.inFlight| <= |o.inFlight|
    ensures Inv(p) && Shrinks(o, p)
  {
    hide Flight, Open, Buried;
  }

  lemma {:induction false} KeysApart(inFlight: Requests, tombstones: Requests, id: Uint16, r: Owned)
    requires inFlight.Keys !! tombstones.Keys
    ensures (inFlight - {id}).Keys !! tombstones[id := r].Keys && (inFlight - {id}).Keys !! tombstones.Keys
    ensures |tombstones[id := r]| <= |tombstones| + 1
  {
    assert tombstones[id := r].Keys == tombstones.Keys + {id};
    assert (inFlight - {id}).Keys == inFlight.Keys - {id};
  }

  lemma {:induction false} InFlightIssued(o: Owner, id: Uint16)
    requires Inv(o) && id in o.inFlight
    ensures Issued(o.inFlight[id], id, Bound(o))
  {
  }

  lemma {:induction false} ClosedParts(o: Owner, id: Uint16)
    requires Inv(o) && id in o.inFlight
    ensures Open(map[]) == {} && Flight(map[], Bound(o))
    ensures Buried(Bury(o, o.inFlight[id]), {}, Bound(o)) && Buried(o.(closing := Some(o.inFlight[id])), {}, Bound(o))
    ensures |Bury(o, o.inFlight[id]).tombstones| <= o.limits.maxTombstones
  {
    hide Flight, Open, Buried, Bury;
    InFlightIssued(o, id);
    OpenEmpty(Bound(o));
    BuriedStays(o, Open(o.inFlight), Bound(o), {}, Bound(o));
    BuriedGrows(o, o.inFlight[id], {}, Bound(o));
    BuryApart(o, id);
  }

  lemma {:induction false} SpoilKeeps(o: Owner, id: Uint16)
    requires Inv(o) && id in o.inFlight
    ensures Inv(Spoil(o, o.inFlight[id]).0) && Shrinks(o, Spoil(o, o.inFlight[id]).0)
  {
    hide Flight, Open, Buried, Bury, Inv, Shrinks, Failures;
    ClosedParts(o, id);
    BuryLeaves(o, o.inFlight[id]);
    var q, p := Bury(o, o.inFlight[id]), Spoil(o, o.inFlight[id]).0;
    BuriedSame(q, p, {}, Bound(o));
    Assemble(o, p);
  }

  lemma {:induction false} ClosingKeeps(o: Owner, id: Uint16, pending: seq<Reservation>)
    requires Inv(o) && id in o.inFlight
    ensures var p := o.(closing := Some(o.inFlight[id]), inFlight := map[], closed := true, pending := pending); Inv(p) && Shrinks(o, p)
  {
    hide Flight, Open, Buried, Shrinks;
    ClosedParts(o, id);
    var q, p := o.(closing := Some(o.inFlight[id])), o.(closing := Some(o.inFlight[id]), inFlight := map[], closed := true, pending := pending);
    BuriedSame(q, p, {}, Bound(o));
    Assemble(o, p);
  }

  lemma {:induction false} EarlyLeaves(o: Owner, phys: Uint64)
    requires Inv(o)
    ensures Inv(o.(early := o.early - {phys})) && Shrinks(o, o.(early := o.early - {phys}))
    ensures Inv(o.(closed := true)) && Shrinks(o, o.(closed := true))
  {
    assert (o.early - {phys}).Keys == o.early.Keys - {phys};
  }

  lemma {:induction false} TransmitKeeps(o: Owner, h: Reservation, result: Result, until: GoInt)
    requires Inv(o)
    ensures Inv(RecordTransmit(o, h, result, until).0) && Shrinks(o, RecordTransmit(o, h, result, until).0)
  {
    hide Inv, Shrinks, Spoil, Rewind;
    NoChange(o);
    if h.phys in o.early {
      EarlyLeaves(o, h.phys);
    } else if RequestFor(o, h, WriteInvoked).Some? {
      InFlightTx(o, h.tx);
      match result {
        case ProvableZero => WithdrawKeeps(o, h.tx);
        case Complete =>
          var r := o.inFlight[h.tx];
          UpdateKeeps(o, h.tx, r.(deadline := if until > 0 then until else r.deadline, phase := Waiting));
        case _ => SpoilKeeps(o, h.tx);
      }
    }
  }

  lemma {:induction false} AbandonKeeps(o: Owner, h: Reservation)
    requires Inv(o)
    ensures Inv(AbandonAfterWrite(o, h).0) && Shrinks(o, AbandonAfterWrite(o, h).0)
  {
    hide Failures, Inv, Shrinks, Spoil;
    NoChange(o);
    if RequestFor(o, h, Waiting).Some? || RequestFor(o, h, WriteInvoked).Some? {
      BuryKeeps(o, h.tx);
      SpoilKeeps(o, h.tx);
      ClosingKeeps(o, h.tx, o.pending + Failures(o.inFlight - {h.tx}));
    }
  }

  lemma {:induction false} ShrinksTwice(o: Owner, p: Owner, q: Owner)
    requires Shrinks(o, p) && Shrinks(p, q) && (p.inFlight == map[] ==> q.inFlight == map[])
    ensures Shrinks(o, q)
  {
    forall x | x in Open(q.inFlight)
      ensures x in Open(o.inFlight) || x >= Bound(o)
    {
      assert x in Open(p.inFlight) || x >= Bound(p);
    }
  }

  lemma {:induction false} ExpireKeeps(o: Owner, due: Requests)
    requires Inv(o) && forall id :: id in due ==> id in o.inFlight && o.inFlight[id] == due[id]
    ensures Inv(Abandon(o, due).0) && Shrinks(o, Abandon(o, due).0)
    ensures o.inFlight == map[] ==> Abandon(o, due).0.inFlight == map[]
    decreases |due|
  {
    hide Flight, Open, Failures, Inv, Shrinks;
    if due == map[] {
      NoChange(o);
    } else {
      var id := First(due);
      if |o.tombstones| >= o.limits.maxTombstones {
        ClosingKeeps(o, id, o.pending + Failures(o.inFlight - {id}));
      } else {
        BuryKeeps(o, id);
        var p := Bury(o, due[id]).(inFlight := o.inFlight - {id});
        ExpireKeeps(p, due - {id});
        ShrinksTwice(o, p, Abandon(p, due - {id}).0);
      }
    }
  }

  lemma {:induction false} NoChange(o: Owner)
    ensures Shrinks(o, o)
  {
  }

  lemma {:induction false} AnswerKeeps(o: Owner, id: Uint16, wire: Uint64, overtaken: bool)
    requires Inv(o) && id in o.inFlight
    ensures var r := o.inFlight[id];
            var p := o.(inFlight := o.inFlight - {id}, nextWire := wire, early := if overtaken then o.early[r.phys := r.tx] else o.early);
            Inv(p) && Shrinks(o, p)
  {
    hide Flight, Open, Buried;
    var r, rest := o.inFlight[id], o.inFlight - {id};
    var early := if overtaken then o.early[r.phys := r.tx] else o.early;
    var p := o.(inFlight := rest, nextWire := wire, early := early);
    OpenWithout(o.inFlight, Bound(o), id);
    BuriedStays(o, Open(o.inFlight), Bound(o), Open(rest), Bound(o));
    OvertakenBy(o, p, r, Open(rest), Bound(o));
    assert o.early[r.phys := r.tx].Keys == o.early.Keys + {r.phys};
  }

  lemma {:induction false} OvertakenBy(o: Owner, p: Owner, r: Owned, open: set<Uint64>, bound: nat)
    requires Buried(o, open, bound) && 0 < r.phys < bound && r.phys !in open
    requires p.tombstones == o.tombstones && p.closing == o.closing && (p.early == o.early || p.early == o.early[r.phys := r.tx])
    ensures Buried(p, open, bound)
  {
    hide Stones, Last;
  }

  /** Counters and the closed flag alone leave the requests as they are. */
  lemma {:induction false} FlagsKeep(o: Owner, p: Owner)
    requires Inv(o) && SameBook(o, p) && (o.closed ==> p.closed)
    ensures Inv(p) && Shrinks(o, p)
  {
  }

  lemma {:induction false} CorrelateKeeps(o: Owner, generation: Uint64, f: Frame)
    requires Inv(o)
    ensures Inv(Correlate(o, generation, f).0) && Shrinks(o, Correlate(o, generation, f).0)
  {
    hide Inv, Shrinks, Judge, Matches, Successor, CorrelateLate, CorrelateActive, Diagnose, SameBook;
    FlagsKeep(o, Diagnose(o).0);
    FlagsKeep(o, CorrelateLate(o, f).0);
    ExhaustedKeeps(o);
    if f.tx in o.inFlight {
      ActiveKeeps(o, f.tx, f);
    }
  }

  lemma {:induction false} ExhaustedKeeps(o: Owner)
    requires Inv(o)
    ensures var p := Diagnose(o.(closed := true)).0; Inv(p) && Shrinks(o, p)
  {
    hide Inv, Shrinks, Diagnose;
    FlagsKeep(o, Diagnose(o.(closed := true)).0);
  }

  lemma {:induction false} ActiveKeeps(o: Owner, id: Uint16, f: Frame)
    requires Inv(o) && id in o.inFlight
    ensures var p := CorrelateActive(o, o.inFlight[id], f).0; Inv(p) && Shrinks(o, p)
  {
    hide Inv, Shrinks, Judge, Successor;
    InFlightTx(o, id);
    AnswerKeeps(o, id, Successor(o.nextWire), o.inFlight[id].phase == WriteInvoked);
  }

  lemma {:induction false} SweepKeeps(o: Owner, p: Owner)
    requires Inv(o) && p.limits == o.limits && p.inFlight == map[] && p.tombstones == map[] && p.closing == None
    requires p.early == map[] && p.nextPhys == o.nextPhys
    ensures Inv(p) && Shrinks(o, p)
  {
    OpenEmpty(Bound(p));
  }

  lemma {:induction false} StepKeeps(o: Owner, op: Op)
    requires Inv(o)
    ensures Inv(Step(o, op)) && Shrinks(o, Step(o, op))
  {
    hide Inv, Shrinks, RecordTransmit, AbandonAfterWrite, Abandon, Correlate, Reserve, Rewind, Failures;
    NoChange(o);
    match op
    case DoReserve(unit, kind, deadline) => ReserveKeeps(o, unit, kind, deadline);
    case DoCancel(h) =>
      if RequestFor(o, h, Reserved).Some? {
        WithdrawKeeps(o, h.tx);
      }
    case DoReplace(h, read) =>
      if RequestFor(o, h, Reserved).Some? && ValidRead(read) {
        InFlightTx(o, h.tx);
        UpdateKeeps(o, h.tx, o.inFlight[h.tx].(kind := ReadRegisters(read)));
      }
    case DoWrite(h) =>
      if RequestFor(o, h, Reserved).Some? {
        InFlightTx(o, h.tx);
        UpdateKeeps(o, h.tx, o.inFlight[h.tx].(phase := WriteInvoked));
      }
    case DoTransmit(h, result, until) => TransmitKeeps(o, h, result, until);
    case DoExpire(now) => ExpireKeeps(o, DueIn(o, now));
    case DoAbandon(h) => AbandonKeeps(o, h);
    case DoCorrelate(generation, f) => CorrelateKeeps(o, generation, f);
    case DoBind => FlagsKeep(o, Bind(o).0);
    case DoLose =>
      if o.bound {
        SweepKeeps(o, LoseTransport(o).0);
      }
    case DoClose => SweepKeeps(o, Close(o));
    case DoRetire => SweepKeeps(o, Retire(o));
    case DoReconnect(next) =>
      if Reconnect(o, next) != o {
        SweepKeeps(o, Reconnect(o, next));
      }
    case DoDrain => FlagsKeep(o, Drain(o).0);
  }

  lemma {:induction false} InFlightTx(o: Owner, id: Uint16)
    requires Inv(o) && id in o.inFlight
    ensures o.inFlight[id].tx == id && ValidKind(o.inFlight[id].kind)
  {
    InFlightIssued(o, id);
  }

  // ---------- Runs ----------

  ghost function Run(o: Owner, ops: seq<Op>): Owner
    decreases |ops|
  {
    if ops == [] then o else Run(Step(o, ops[0]), ops[1..])
  }

  /** The physical requests that a run delivers data for, in order. */
  ghost function Deliveries(o: Owner, ops: seq<Op>): seq<Uint64>
    decreases |ops|
  {
    if ops == [] then []
    else
      var d := Delivers(o, ops[0]);
      (if d.Some? then [d.value] else []) + Deliveries(Step(o, ops[0]), ops[1..])
  }

  lemma {:induction false} NewInv(l: Limits, generation: Uint64, pooled: bool)
    requires ValidLimits(l)
    ensures Inv(New(l, generation, pooled))
  {
    OpenEmpty(1);
  }

  lemma {:induction false} RunKeeps(o: Owner, ops: seq<Op>)
    requires Inv(o)
    ensures Inv(Run(o, ops)) && Bound(o) <= Bound(Run(o, ops))
    decreases |ops|
  {
    hide Inv, Step;
    if ops != [] {
      StepKeeps(o, ops[0]);
      RunKeeps(Step(o, ops[0]), ops[1..]);
    }
  }

  lemma {:induction false} AbandonLimits(o: Owner, due: Requests)
    ensures Abandon(o, due).0.limits == o.limits
    decreases |due|
  {
    hide Failures;
    if due != map[] && |o.tombstones| < o.limits.maxTombstones {
      var id := First(due);
      AbandonLimits(Bury(o, due[id]).(inFlight := o.inFlight - {id}), due - {id});
    }
  }

  lemma {:induction false} ReserveLimits(o: Owner, unit: Byte, kind: Kind, deadline: GoInt)
    ensures Reserve(o, unit, kind, deadline).0.limits == o.limits
  {
    hide Probe, ValidRead, SameBook;
  }

  lemma {:induction false} CorrelateLimits(o: Owner, generation: Uint64, f: Frame)
    ensures Correlate(o, generation, f).0.limits == o.limits
  {
    hide Judge, Matches, CorrelateLate, Diagnose;
  }

  lemma {:induction false} TransmitLimits(o: Owner, h: Reservation, result: Result, until: GoInt)
    ensures RecordTransmit(o, h, result, until).0.limits == o.limits
  {
    hide Failures, SameBook;
  }

  lemma {:induction false} StepLimits(o: Owner, op: Op)
    ensures Step(o, op).limits == o.limits
  {
    hide Abandon, Failures, Reserve, Correlate, RecordTransmit, SameBook;
    match op
    case DoReserve(unit, kind, deadline) => ReserveLimits(o, unit, kind, deadline);
    case DoTransmit(h, result, until) => TransmitLimits(o, h, result, until);
    case DoExpire(now) => AbandonLimits(o, DueIn(o, now));
    case DoCorrelate(generation, f) => CorrelateLimits(o, generation, f);
    case _ =>
  }

  lemma {:induction false} RunLimits(o: Owner, ops: seq<Op>)
    ensures Run(o, ops).limits == o.limits
    decreases |ops|
  {
    hide Step;
    if ops != [] {
      StepLimits(o, ops[0]);
      RunLimits(Step(o, ops[0]), ops[1..]);
    }
  }

  /** In every reachable state the bounds hold, no identifier is both in flight and tombstoned, and no two requests share one. */
  lemma {:induction false} StaysBounded(l: Limits, generation: Uint64, pooled: bool, ops: seq<Op>)
    requires ValidLimits(l)
    ensures var o := Run(New(l, generation, pooled), ops);
            && |o.inFlight| + |o.early| <= l.maxInFlight && |o.tombstones| <= l.maxTombstones
            && o.inFlight.Keys !! o.tombstones.Keys
            && (forall id :: id in o.inFlight ==> o.inFlight[id].tx == id)
            && (forall i, j :: i in o.inFlight && j in o.inFlight && o.inFlight[i].phys == o.inFlight[j].phys ==> i == j)
  {
    NewInv(l, generation, pooled);
    hide Run, Buried;
    RunKeeps(New(l, generation, pooled), ops);
    RunLimits(New(l, generation, pooled), ops);
  }

  // ---------- Retirement ----------

  ghost predicate Done(o: Owner) {
    o.retired && o.closed && !o.bound && o.inFlight == map[] && o.tombstones == map[] && o.early == map[] && o.closing == None
  }

  lemma {:induction false} DoneStays(o: Owner, op: Op)
    requires Done(o)
    ensures Done(Step(o, op)) && Delivers(o, op) == None
  {
    hide Failures, Judge, Probe;
    NothingDue(o);
  }

  lemma {:induction false} NothingDue(o: Owner)
    requires o.inFlight == map[]
    ensures forall now :: DueIn(o, now) == map[]
  {
  }

  /** Whatever is tried after retirement: nothing is reserved, bound, reconnected or delivered any more, and no book fills again. */
  lemma {:induction false} RetiredForGood(o: Owner, ops: seq<Op>, unit: Byte, kind: Kind, deadline: GoInt)
    ensures var p := Run(Retire(o), ops);
            && Done(p) && Deliveries(Retire(o), ops) == []
            && Reserve(p, unit, kind, deadline).1.NotIssued? && !Bind(p).1 && (forall next :: Reconnect(p, next) == p)
  {
    hide Failures, Probe, Step, Run, Deliveries;
    DoneForGood(Retire(o), ops);
  }

  lemma {:induction false} DoneForGood(o: Owner, ops: seq<Op>)
    requires Done(o)
    ensures Done(Run(o, ops)) && Deliveries(o, ops) == []
    decreases |ops|
  {
    hide Step, Done, Delivers;
    if ops != [] {
      DoneStays(o, ops[0]);
      DoneForGood(Step(o, ops[0]), ops[1..]);
    }
  }

  /** Data is delivered only for a request that is open on a live socket, and that closes it. */
  lemma {:induction false} DeliveryCloses(o: Owner, op: Op)
    requires Inv(o) && Delivers(o, op).Some?
    ensures !o.closed && Delivers(o, op).value in Open(o.inFlight) && Delivers(o, op).value < Bound(o)
    ensures Delivers(o, op).value !in Open(Step(o, op).inFlight)
  {
    hide Inv, Judge, Matches, Flight, Open, Buried, CorrelateLate, Diagnose, SameBook, Successor;
    InFlightTx(o, op.frame.tx);
    WithdrawKeeps(o, op.frame.tx);
    OpenAt(o, op.frame.tx);
  }

  lemma {:induction false} OpenAt(o: Owner, id: Uint16)
    requires Inv(o) && id in o.inFlight
    ensures o.inFlight[id].phys in Open(o.inFlight) && o.inFlight[id].phys < Bound(o)
  {
    InFlightIssued(o, id);
  }

  /** A request that is no longer open was cancelled, abandoned, failed or answered, and gets no data any more. */
  lemma {:induction false} NoDeliveryOnceClosed(o: Owner, ops: seq<Op>, phys: Uint64)
    requires Inv(o) && phys < Bound(o) && (phys !in Open(o.inFlight) || o.closed)
    ensures phys !in Deliveries(o, ops)
    decreases |ops|
  {
    hide Inv, Step, Delivers, Open;
    if ops != [] {
      var p := Step(o, ops[0]);
      StepKeeps(o, ops[0]);
      if Delivers(o, ops[0]).Some? {
        DeliveryCloses(o, ops[0]);
      }
      OpenEmpty(Bound(p));
      NoDeliveryOnceClosed(p, ops[1..], phys);
    }
  }

  /** Over any run, each physical request gets at most one deliverable response. */
  lemma {:induction false} DeliveredAtMostOnce(o: Owner, ops: seq<Op>)
    requires Inv(o)
    ensures Distinct(Deliveries(o, ops))
    decreases |ops|
  {
    hide Inv, Step, Delivers, Open;
    if ops != [] {
      var p, rest := Step(o, ops[0]), Deliveries(Step(o, ops[0]), ops[1..]);
      StepKeeps(o, ops[0]);
      DeliveredAtMostOnce(p, ops[1..]);
      if Delivers(o, ops[0]).Some? {
        DeliveryCloses(o, ops[0]);
        var d := Delivers(o, ops[0]).value;
        NoDeliveryOnceClosed(p, ops[1..], d);
        forall i, j | 0 <= i < j < |[d] + rest|
          ensures ([d] + rest)[i] != ([d] + rest)[j]
        {
          assert ([d] + rest)[j] == rest[j - 1];
        }
      }
    }
  }

  // ---------- What closes a request ----------

  lemma {:induction false} CancelCloses(o: Owner, h: Reservation)
    requires Inv(o) && CancelBeforeWrite(o, h).1
    ensures h.phys in Open(o.inFlight) && h.phys !in Open(CancelBeforeWrite(o, h).0.inFlight)
  {
    OpenWithout(o.inFlight, Bound(o), h.tx);
  }

  lemma {:induction false} AbandonCloses(o: Owner, h: Reservation)
    requires Inv(o) && (AbandonAfterWrite(o, h).1.accepted || AbandonAfterWrite(o, h).1.close)
    ensures h.phys in Open(o.inFlight) && h.phys !in Open(AbandonAfterWrite(o, h).0.inFlight)
  {
    hide Failures;
    OpenWithout(o.inFlight, Bound(o), h.tx);
    OpenEmpty(Bound(o));
  }

  // ---------- Failures ----------

  lemma {:induction false} FailuresMembers(m: Requests, bound: nat)
    requires Flight(m, bound)
    ensures |Failures(m)| == |m|
    ensures forall h :: h in Failures(m) <==> exists id :: id in m && h == Handle(m[id])
    decreases |m|
  {
    hide Flight, Open;
    if m != map[] {
      var id := Oldest(m);
      OpenWithout(m, bound, id);
      FailuresMembers(m - {id}, bound);
      forall h
        ensures h in Failures(m) <==> exists i :: i in m && h == Handle(m[i])
      {
        FailuresStep(m, id, h);
      }
    }
  }

  ghost predicate Ascending(s: seq<Reservation>) {
    forall i, j :: 0 <= i < j < |s| ==> s[i].phys < s[j].phys
  }

  lemma {:induction false} AscendingCons(h: Reservation, s: seq<Reservation>)
    requires Ascending(s) && forall x :: x in s ==> h.phys < x.phys
    ensures Ascending([h] + s)
  {
  }

  lemma {:induction false} FailuresAscend(m: Requests, bound: nat)
    requires Flight(m, bound)
    ensures Ascending(Failures(m))
    decreases |m|
  {
    hide Ascending, Open;
    if m == map[] {
      assert Ascending([]) by {
        NothingAscends();
      }
    } else {
      var id := Oldest(m);
      OpenWithout(m, bound, id);
      FailuresAscend(m - {id}, bound);
      FailuresMembers(m - {id}, bound);
      forall x | x in Failures(m - {id})
        ensures Handle(m[id]).phys < x.phys
      {
        OlderThanRest(m, id, x);
      }
      AscendingCons(Handle(m[id]), Failures(m - {id}));
    }
  }

  lemma {:induction false} NothingAscends()
    ensures Ascending([])
  {
  }

  /** The reported siblings are exactly the requests in flight, each once, oldest first. */
  lemma {:induction false} FailuresExact(m: Requests, bound: nat)
    requires Flight(m, bound)
    ensures |Failures(m)| == |m| && Ascending(Failures(m))
    ensures forall h :: h in Failures(m) <==> exists id :: id in m && h == Handle(m[id])
  {
    FailuresMembers(m, bound);
    FailuresAscend(m, bound);
  }

  lemma {:induction false} OlderThanRest(m: Requests, id: Uint16, h: Reservation)
    requires m != map[] && id == Oldest(m) && exists i :: i in m - {id} && h == Handle((m - {id})[i])
    requires forall i, j :: i in m && j in m && m[i].phys == m[j].phys ==> i == j
    ensures m[id].phys < h.phys
  {
    var i :| i in m - {id} && h == Handle((m - {id})[i]);
    assert m[i].phys != m[id].phys;
  }

  lemma {:induction false} FailuresStep(m: Requests, id: Uint16, h: Reservation)
    requires m != map[] && id == Oldest(m)
    requires h in Failures(m - {id}) <==> exists i :: i in m - {id} && h == Handle((m - {id})[i])
    ensures h in Failures(m) <==> exists i :: i in m && h == Handle(m[i])
  {
    if i :| i in m && h == Handle(m[i]) {
      if i != id {
        assert i in m - {id} && h == Handle((m - {id})[i]);
      }
    }
    if h in Failures(m - {id}) {
      var i :| i in m - {id} && h == Handle((m - {id})[i]);
      assert i in m && h == Handle(m[i]);
    }
  }
}
