/** The story of one attempt, told by calls and answers, and what it decides about issuing and closing. */
module AcquisitionAttempts {
  import opened Common
  import opened AcquisitionModel
  import opened Acquisition
  import opened Cancellation

  /** An attempt under way knows its key and which capability it got for which ordinal. */
  datatype Course = Unbegun | Underway(key: string, issued: map<nat, Uint64>) | Over

  ghost function Tell(s: Source, op: Op, a: nat, t: Course): Course
    requires s.lifetime > 0
  {
    match op
    case DoBegin(key, valid) => if Begin(s, key, valid).1 == Some(a) then Underway(key, map[]) else t
    case DoIssue(b, ordinal, view, eligible, now) =>
      var q := Issue(s, b, ordinal, view, eligible, now).1;
      if b == a && q.Some? && t.Underway? then t.(issued := t.issued[ordinal := q.value]) else t
    case DoClose(b, _) => if b == a && t.Underway? then Over else t
    case DoExport => if t.Underway? && t.issued == map[] then Over else t
    case _ => t
  }

  ghost function CourseIn(s: Source, ops: seq<Op>, a: nat, t: Course): Course
    requires Inv(s)
    decreases |ops|
  {
    if ops == [] then t
    else
      StepKeeps(s, ops[0]);
      Positive(s);
      CourseIn(Step(s, ops[0]), ops[1..], a, Tell(s, ops[0], a, t))
  }

  ghost predicate Fits(s: Source, a: nat, t: Course) {
    match t
    case Unbegun => a >= s.begun && a !in s.attempts
    case Underway(key, issued) => a < s.begun && a in s.attempts && s.attempts[a] == Attempt(key, Open, issued, []) && !s.retired
    case Over => a < s.begun && (a in s.attempts ==> s.attempts[a].phase == Closed)
  }

  /** Open attempts stay as they are and no attempt is opened. */
  ghost predicate Calm(s: Source, u: Source) {
    && u.begun == s.begun && u.retired == s.retired
    && (forall a :: a in u.attempts ==> a in s.attempts && u.attempts[a] == s.attempts[a])
    && (forall a :: a in s.attempts && s.attempts[a].phase == Open ==> a in u.attempts)
  }

  lemma {:induction false} CalmFits(s: Source, u: Source, a: nat, t: Course)
    requires Fits(s, a, t) && Calm(s, u)
    ensures Fits(u, a, t)
  {
  }

  lemma {:induction false} CalmTwice(s: Source, u: Source, v: Source)
    requires Calm(s, u) && Calm(u, v)
    ensures Calm(s, v)
  {
  }

  lemma {:induction false} EndCalm(s: Source, q: Uint64, o: Outcome)
    requires q in s.live
    ensures Calm(s, End(s, q, o))
  {
    hide AllTerminal, Record;
  }

  lemma {:induction false} ExpireCalm(s: Source, now: GoInt)
    ensures Calm(s, ExpireOpen(s, now).0)
    decreases |s.live|
  {
    hide End, Calm;
    if Due(s, now) == {} {
      CalmSelf(s);
    } else {
      var q := Least(Due(s, now));
      ShrinkLive(s, q);
      EndCalm(s, q, Expired);
      ExpireCalm(End(s, q, Expired), now);
      CalmTwice(s, End(s, q, Expired), ExpireOpen(s, now).0);
    }
  }

  lemma {:induction false} CalmSelf(s: Source)
    ensures Calm(s, s)
  {
  }

  lemma {:induction false} CancelAllSame(s: Source, todo: set<Uint64>)
    ensures var u := CancelAll(s, todo); u.attempts == s.attempts && u.begun == s.begun && u.retired == s.retired
    decreases |todo|
  {
    hide Record;
    if todo != {} {
      var q := Pick(todo);
      CancelAllSame(if q in s.live then Terminalize(s, q, Cancelled) else s, todo - {q});
    }
  }

  lemma {:induction false} BeginFits(s: Source, key: string, valid: bool, a: nat, t: Course)
    requires Inv(s) && Fits(s, a, t) && s.lifetime > 0
    ensures Fits(Begin(s, key, valid).0, a, Tell(s, DoBegin(key, valid), a, t))
  {
    hide Inv;
  }

  lemma {:induction false} IssueFits(s: Source, b: nat, ordinal: nat, view: nat, eligible: bool, now: GoInt, a: nat, t: Course)
    requires Fits(s, a, t) && s.lifetime > 0
    ensures Fits(Issue(s, b, ordinal, view, eligible, now).0, a, Tell(s, DoIssue(b, ordinal, view, eligible, now), a, t))
  {
  }

  lemma {:induction false} CloseFits(s: Source, b: nat, members: seq<Member>, a: nat, t: Course)
    requires Fits(s, a, t) && s.lifetime > 0
    ensures Fits(Close(s, b, members).0, a, Tell(s, DoClose(b, members), a, t))
  {
    hide CancelAll, ExactMembership, AllTerminal;
    if b in s.attempts {
      CancelAllSame(s, s.attempts[b].registered.Values);
    }
  }

  lemma {:induction false} CancelCalm(s: Source, b: nat)
    ensures Calm(s, CancelOpen(s, b).0)
  {
    hide CancelAll;
    if b in s.attempts {
      CancelAllSame(s, MemberSet(s.attempts[b].members));
    }
  }

  lemma {:induction false} ExportFits(s: Source, a: nat, t: Course)
    requires Fits(s, a, t) && s.lifetime > 0
    ensures Fits(Export(s).0, a, Tell(s, DoExport, a, t))
  {
    assert a in DropEmpty(s).attempts ==> DropEmpty(s).attempts != map[];
  }

  lemma {:induction false} StepFits(s: Source, op: Op, a: nat, t: Course)
    requires Inv(s) && Fits(s, a, t) && s.lifetime > 0
    ensures Fits(Step(s, op), a, Tell(s, op, a, t))
  {
    hide Inv, Fits, Begin, Issue, Close, CancelOpen, ExpireOpen, Export, Calm, End;
    CalmSelf(s);
    match op
    case DoBegin(key, valid) => BeginFits(s, key, valid, a, t);
    case DoIssue(b, ordinal, view, eligible, now) => IssueFits(s, b, ordinal, view, eligible, now, a, t);
    case DoClose(b, members) => CloseFits(s, b, members, a, t);
    case DoClaim(q, b, now) =>
      if q in s.live {
        EndCalm(s, q, Claimed);
        EndCalm(s, q, Expired);
      }
      CalmFits(s, Step(s, op), a, t);
    case DoCancel(b) =>
      CancelCalm(s, b);
      CalmFits(s, Step(s, op), a, t);
    case DoFail(q) =>
      if q in s.live {
        EndCalm(s, q, Failed);
      }
      CalmFits(s, Step(s, op), a, t);
    case DoExpire(now) =>
      ExpireCalm(s, now);
      CalmFits(s, Step(s, op), a, t);
    case DoExport => ExportFits(s, a, t);
  }

  lemma {:induction false} RunFits(s: Source, ops: seq<Op>, a: nat, t: Course)
    requires Inv(s) && Fits(s, a, t)
    ensures Fits(Run(s, ops), a, CourseIn(s, ops, a, t))
    decreases |ops|
  {
    hide Inv, Fits, Tell, Step;
    if ops != [] {
      Positive(s);
      StepKeeps(s, ops[0]);
      StepFits(s, ops[0], a, t);
      RunFits(Step(s, ops[0]), ops[1..], a, Tell(s, ops[0], a, t));
    }
  }

  /** The views that were ever offered as eligible. */
  function Offered(ops: seq<Op>): set<nat>
    decreases |ops|
  {
    if ops == [] then {}
    else (if ops[0].DoIssue? && ops[0].eligible then {ops[0].view} else {}) + Offered(ops[1..])
  }

  lemma {:induction false} StepViews(s: Source, op: Op)
    requires s.lifetime > 0
    ensures Step(s, op).views == s.views + Offered([op])
  {
    hide Claim, FailOpen, Close, CancelOpen, ExpireOpen;
    assert [op][1..] == [];
    match op
    case DoClose(b, members) => CloseViews(s, b, members);
    case DoCancel(b) => CancelOpenViews(s, b);
    case DoExpire(now) => ExpireViews(s, now);
    case DoClaim(q, b, now) => ClaimViews(s, q, b, now);
    case DoFail(q) => ClaimViews(s, q, 0, 0);
    case _ =>
  }

  lemma {:induction false} CancelViews(s: Source, todo: set<Uint64>)
    ensures CancelAll(s, todo).views == s.views
    decreases |todo|
  {
    hide Record;
    if todo != {} {
      var q := Pick(todo);
      CancelViews(if q in s.live then Terminalize(s, q, Cancelled) else s, todo - {q});
    }
  }

  lemma {:induction false} CloseViews(s: Source, b: nat, members: seq<Member>)
    ensures Close(s, b, members).0.views == s.views
  {
    hide CancelAll, ExactMembership, AllTerminal;
    if b in s.attempts {
      CancelViews(s, s.attempts[b].registered.Values);
    }
  }

  lemma {:induction false} CancelOpenViews(s: Source, b: nat)
    ensures CancelOpen(s, b).0.views == s.views
  {
    hide CancelAll;
    if b in s.attempts {
      CancelViews(s, MemberSet(s.attempts[b].members));
    }
  }

  lemma {:induction false} ExpireViews(s: Source, now: GoInt)
    ensures ExpireOpen(s, now).0.views == s.views
    decreases |s.live|
  {
    hide Record, AllTerminal;
    if Due(s, now) != {} {
      var q := Least(Due(s, now));
      ShrinkLive(s, q);
      ExpireViews(End(s, q, Expired), now);
    }
  }

  lemma {:induction false} ClaimViews(s: Source, q: Uint64, b: nat, now: GoInt)
    ensures Claim(s, q, b, now).0.views == s.views && FailOpen(s, q).0.views == s.views
  {
    hide Record, AllTerminal;
  }

  lemma {:induction false} RunViews(s: Source, ops: seq<Op>)
    requires Inv(s)
    ensures Run(s, ops).views == s.views + Offered(ops)
    decreases |ops|
  {
    hide Inv, Step;
    if ops != [] {
      Positive(s);
      StepKeeps(s, ops[0]);
      StepViews(s, ops[0]);
      assert [ops[0]][1..] == [];
      RunViews(Step(s, ops[0]), ops[1..]);
    }
  }

  /** The course of an attempt in a run of a source. */
  ghost function CourseOf(l: Limits, lifetime: GoInt, r: Restart, ops: seq<Op>, a: nat): Course
    requires ValidLimits(l) && lifetime > 0 && ValidRestart(l, r)
  {
    StartInv(l, lifetime, r);
    CourseIn(Start(l, lifetime, r), ops, a, Unbegun)
  }

  lemma {:induction false} CourseFits(l: Limits, lifetime: GoInt, r: Restart, ops: seq<Op>, a: nat)
    requires ValidLimits(l) && lifetime > 0 && ValidRestart(l, r)
    ensures Inv(Start(l, lifetime, r)) && Inv(Run(Start(l, lifetime, r), ops))
    ensures var s := Run(Start(l, lifetime, r), ops);
            s.lifetime == lifetime && s.limits == l && s.views == Offered(ops) && Fits(s, a, CourseOf(l, lifetime, r, ops, a))
  {
    hide Inv, Run, CourseIn, ValidRestart, Offered;
    StartInv(l, lifetime, r);
    RunKeeps(Start(l, lifetime, r), ops);
    RunFits(Start(l, lifetime, r), ops, a, Unbegun);
    RunViews(Start(l, lifetime, r), ops);
  }

  /**
   When a capability is issued: for a view that was never offered before, to an attempt under way, for an ordinal that is
   in range and unused, while there is room and the lifetime does not pass the clock. Each view is used at most once.
   */
  lemma {:induction false} IssueIsExact(
    l: Limits, lifetime: GoInt, r: Restart, ops: seq<Op>, a: nat, ordinal: nat, view: nat, eligible: bool, now: GoInt)
    requires ValidLimits(l) && lifetime > 0 && ValidRestart(l, r)
    ensures Inv(Start(l, lifetime, r)) && Run(Start(l, lifetime, r), ops).lifetime == lifetime
    ensures var s, t := Run(Start(l, lifetime, r), ops), CourseOf(l, lifetime, r, ops, a);
            Issue(s, a, ordinal, view, eligible, now).1.Some? <==>
              && eligible && view !in Offered(ops) && t.Underway? && ordinal < l.maxMembers && ordinal !in t.issued
              && |t.issued| < l.maxMembers && |s.live| < l.maxLive && s.next != 0 && 0 <= now && now + lifetime <= MAX_INT
  {
    hide Inv, Run, CourseOf, ValidRestart, ValidLimits, Offered;
    CourseFits(l, lifetime, r, ops, a);
  }

  /** When an attempt is closed: exactly once, with all that was issued to it, in the order of the ordinals and under its key. */
  lemma {:induction false} CloseIsExact(l: Limits, lifetime: GoInt, r: Restart, ops: seq<Op>, a: nat, members: seq<Member>)
    requires ValidLimits(l) && lifetime > 0 && ValidRestart(l, r)
    ensures Inv(Start(l, lifetime, r))
    ensures var s, t := Run(Start(l, lifetime, r), ops), CourseOf(l, lifetime, r, ops, a);
            Close(s, a, members).1 <==>
              && t.Underway? && 0 < |members| == |t.issued|
              && forall i :: 0 <= i < |members| ==> i in t.issued && members[i] == Member(t.issued[i], t.key)
  {
    hide Inv, Run, CourseOf, ValidRestart, ValidLimits, Offered;
    CourseFits(l, lifetime, r, ops, a);
    var s, t := Run(Start(l, lifetime, r), ops), CourseOf(l, lifetime, r, ops, a);
    if t.Underway? {
      ExactIs(s, a, members);
    }
  }

  lemma {:induction false} ExactIs(s: Source, a: nat, members: seq<Member>)
    requires Inv(s) && a in s.attempts
    ensures var t := s.attempts[a];
            ExactMembership(s, a, members) <==>
              && 0 < |members| == |t.registered|
              && forall i :: 0 <= i < |members| ==> i in t.registered && members[i] == Member(t.registered[i], t.key)
  {
    hide Kept, Sizes, ValidRestart, Pending, Homes;
    var t := s.attempts[a];
    assert Sound(s.issued, a, t, s.limits.maxMembers);
    if 0 < |members| == |t.registered| && forall i :: 0 <= i < |members| ==> i in t.registered && members[i] == Member(t.registered[i], t.key) {
      forall i | 0 <= i < |members|
        ensures ExactAt(s, a, members, i)
      {
        assert i in t.registered && t.registered[i] in s.issued;
      }
      assert |members| - 1 in t.registered;
    }
    if ExactMembership(s, a, members) {
      forall i | 0 <= i < |members|
        ensures i in t.registered && members[i] == Member(t.registered[i], t.key)
      {
        assert ExactAt(s, a, members, i);
      }
    }
  }
}
