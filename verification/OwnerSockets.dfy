/** One transport at a time, one generation after another, and responses numbered without a gap. */
module OwnerSockets {
  import opened Common
  import opened Pdu
  import opened OwnerModel
  import opened OwnerSafety
  import opened OwnerStories

  /** Whether a transport is attached, whether the owner is retired, and how many answers and diagnostics were numbered. */
  datatype Course = Course(attached: bool, retired: bool, answers: nat, notes: nat)

  ghost function TellCourse(o: Owner, op: Op, pooled: bool, t: Course): Course {
    match op
    case DoBind => if Bind(o).1 then t.(attached := true) else t
    case DoLose => if LoseTransport(o).1.accepted then t.(attached := false, retired := t.retired || pooled) else t
    case DoClose => t.(attached := false)
    case DoRetire => t.(attached := false, retired := true)
    case DoCorrelate(generation, f) =>
      var r := Correlate(o, generation, f).1;
      if r.Answer? then t.(answers := t.answers + 1) else if r.Diagnostic? then t.(notes := t.notes + 1) else t
    case _ => t
  }

  ghost function CourseIn(o: Owner, ops: seq<Op>, pooled: bool, t: Course): Course
    decreases |ops|
  {
    if ops == [] then t else CourseIn(Step(o, ops[0]), ops[1..], pooled, TellCourse(o, ops[0], pooled, t))
  }

  /** A counter that starts at one and is spent after its greatest value. */
  ghost predicate Counts(counter: Uint64, n: nat) {
    if counter == 0 then n == MAX_UINT64 else counter == n + 1
  }

  ghost predicate Follows(o: Owner, pooled: bool, t: Course) {
    && o.bound == t.attached && o.retired == t.retired && (!o.retired ==> o.pooled == pooled)
    && Counts(o.nextWire, t.answers) && Counts(o.nextDiag, t.notes)
  }

  /** Transport, pool and counters are those of before. */
  ghost predicate Still(o: Owner, p: Owner) {
    p.bound == o.bound && p.retired == o.retired && p.pooled == o.pooled && p.nextWire == o.nextWire && p.nextDiag == o.nextDiag
  }

  lemma {:induction false} AbandonStill(o: Owner, due: Requests)
    ensures Still(o, Abandon(o, due).0)
    decreases |due|
  {
    hide Failures;
    if due != map[] && |o.tombstones| < o.limits.maxTombstones {
      var id := First(due);
      AbandonStill(Bury(o, due[id]).(inFlight := o.inFlight - {id}), due - {id});
    }
  }

  lemma {:induction false} CallStill(o: Owner, op: Op)
    requires op.DoReserve? || op.DoCancel? || op.DoReplace? || op.DoWrite? || op.DoTransmit? || op.DoAbandon? || op.DoExpire? || op.DoReconnect? || op.DoDrain?
    ensures Still(o, Step(o, op))
  {
    hide Failures, Abandon, Reserve, RecordTransmit, AbandonAfterWrite, CancelBeforeWrite, ReplaceRead, MarkWriteInvoked;
    match op
    case DoExpire(now) => AbandonStill(o, DueIn(o, now));
    case DoReserve(unit, kind, deadline) => ReserveStill(o, unit, kind, deadline);
    case DoTransmit(h, result, until) => TransmitStill(o, h, result, until);
    case DoAbandon(h) => GiveUpStill(o, h);
    case DoCancel(h) => HandleStill(o, h);
    case DoReplace(h, read) => ReplaceStill(o, h, read);
    case DoWrite(h) => HandleStill(o, h);
    case _ =>
  }

  lemma {:induction false} HandleStill(o: Owner, h: Reservation)
    ensures Still(o, CancelBeforeWrite(o, h).0) && Still(o, MarkWriteInvoked(o, h).0)
  {
    hide SameBook;
  }

  lemma {:induction false} ReplaceStill(o: Owner, h: Reservation, read: ReadRequest)
    ensures Still(o, ReplaceRead(o, h, read).0)
  {
    hide ValidRead;
  }

  lemma {:induction false} GiveUpStill(o: Owner, h: Reservation)
    ensures Still(o, AbandonAfterWrite(o, h).0)
  {
    hide Failures;
  }

  lemma {:induction false} ReserveStill(o: Owner, unit: Byte, kind: Kind, deadline: GoInt)
    ensures Still(o, Reserve(o, unit, kind, deadline).0)
  {
    hide Reserve;
    ReserveIs(o, unit, kind, deadline);
  }

  lemma {:induction false} TransmitStill(o: Owner, h: Reservation, result: Result, until: GoInt)
    ensures Still(o, RecordTransmit(o, h, result, until).0)
  {
    hide Failures, SameBook, Spoil, AwaitResponse;
    if RequestFor(o, h, WriteInvoked).Some? {
      SpoilStill(o, o.inFlight[h.tx], until);
    }
  }

  lemma {:induction false} SpoilStill(o: Owner, r: Owned, until: GoInt)
    ensures Still(o, Spoil(o, r).0) && Still(o, AwaitResponse(o, r, until))
  {
    hide Failures;
  }

  lemma {:induction false} NoteIs(o: Owner, pooled: bool, t: Course)
    requires Follows(o, pooled, t)
    ensures var (p, r) := Diagnose(o);
            && Follows(p, pooled, if r.Diagnostic? then t.(notes := t.notes + 1) else t)
            && !r.Answer? && (r.Diagnostic? ==> r.id == t.notes + 1) && (r.Exhausted? ==> t.notes == MAX_UINT64)
  {
    hide SameBook;
  }

  lemma {:induction false} LateNoteIs(o: Owner, f: Frame, pooled: bool, t: Course)
    requires Follows(o, pooled, t) && o.nextWire != 0
    ensures var (p, r) := CorrelateLate(o, f);
            && Follows(p, pooled, if r.Answer? then t.(answers := t.answers + 1) else if r.Diagnostic? then t.(notes := t.notes + 1) else t)
            && (r.Answer? ==> r.wire == t.answers + 1) && (r.Diagnostic? ==> r.id == t.notes + 1) && (r.Exhausted? ==> t.notes == MAX_UINT64)
  {
    hide SameBook, Judge, Matches, Diagnose;
    NoteIs(o, pooled, t);
  }

  lemma {:induction false} ActiveNoteIs(o: Owner, r: Owned, f: Frame, pooled: bool, t: Course)
    requires Follows(o, pooled, t) && o.nextWire != 0
    ensures var (p, answer) := CorrelateActive(o, r, f);
            Follows(p, pooled, t.(answers := t.answers + 1)) && answer.Answer? && answer.wire == t.answers + 1
  {
    hide Judge;
  }

  lemma {:induction false} CorrelateFollows(o: Owner, generation: Uint64, f: Frame, pooled: bool, t: Course)
    requires Follows(o, pooled, t)
    ensures Follows(Step(o, DoCorrelate(generation, f)), pooled, TellCourse(o, DoCorrelate(generation, f), pooled, t))
    ensures var r := Correlate(o, generation, f).1;
            (r.Answer? ==> r.wire == t.answers + 1) && (r.Diagnostic? ==> r.id == t.notes + 1) && (r.Exhausted? ==> t.notes == MAX_UINT64)
  {
    hide Judge, Matches, SameBook, Diagnose, CorrelateLate, CorrelateActive;
    if f.tx in o.inFlight && o.nextWire != 0 {
      ActiveNoteIs(o, o.inFlight[f.tx], f, pooled, t);
    }
    NoteIs(o, pooled, t);
    NoteIs(o.(closed := true), pooled, t);
    if o.nextWire != 0 {
      LateNoteIs(o, f, pooled, t);
    }
  }

  lemma {:induction false} StepFollows(o: Owner, op: Op, pooled: bool, t: Course)
    requires Follows(o, pooled, t)
    ensures Follows(Step(o, op), pooled, TellCourse(o, op, pooled, t))
  {
    hide Failures, Correlate, Reserve, RecordTransmit, Abandon, CancelBeforeWrite, ReplaceRead, MarkWriteInvoked, AbandonAfterWrite, AbandonExpired;
    match op
    case DoCorrelate(generation, f) => CorrelateFollows(o, generation, f, pooled, t);
    case DoBind =>
    case DoLose =>
    case DoClose =>
    case DoRetire =>
    case _ => CallStill(o, op);
  }

  lemma {:induction false} RunFollows(o: Owner, ops: seq<Op>, pooled: bool, t: Course)
    requires Follows(o, pooled, t)
    ensures Follows(Run(o, ops), pooled, CourseIn(o, ops, pooled, t))
    decreases |ops|
  {
    hide Follows, Step, TellCourse;
    if ops != [] {
      StepFollows(o, ops[0], pooled, t);
      RunFollows(Step(o, ops[0]), ops[1..], pooled, TellCourse(o, ops[0], pooled, t));
    }
  }

  ghost function CourseOf(l: Limits, generation: Uint64, pooled: bool, ops: seq<Op>): Course {
    CourseIn(New(l, generation, pooled), ops, pooled, Course(false, false, 0, 0))
  }

  /**
   A transport is bound exactly while none is attached to an open owner that is not retired; a new generation starts exactly on
   a closed one, with empty books; the n-th answer and the n-th diagnostic carry the number n.
   */
  lemma {:induction false} SocketDecides(l: Limits, generation: Uint64, pooled: bool, ops: seq<Op>, next: Uint64, g: Uint64, f: Frame)
    ensures var o, t := Run(New(l, generation, pooled), ops), CourseOf(l, generation, pooled, ops);
            && (Bind(o).1 <==> !t.attached && !t.retired && !o.closed)
            && (o.closed && !t.attached && !t.retired && next != 0 ==>
                  var p := Reconnect(o, next);
                  && p.generation == next && !p.closed && p.inFlight == map[] && p.tombstones == map[] && p.early == map[] && p.closing == None && p.nextTx == 0)
            && (!(o.closed && !t.attached && !t.retired && next != 0) ==> Reconnect(o, next) == o)
    ensures var t, r := CourseOf(l, generation, pooled, ops), Correlate(Run(New(l, generation, pooled), ops), g, f).1;
            (r.Answer? ==> r.wire == t.answers + 1) && (r.Diagnostic? ==> r.id == t.notes + 1) && (r.Exhausted? ==> t.notes == MAX_UINT64)
  {
    hide Run, CourseIn, Correlate;
    RunFollows(New(l, generation, pooled), ops, pooled, Course(false, false, 0, 0));
    var o, t := Run(New(l, generation, pooled), ops), CourseOf(l, generation, pooled, ops);
    CorrelateFollows(o, g, f, pooled, t);
  }
}
