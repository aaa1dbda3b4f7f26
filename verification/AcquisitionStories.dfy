/** The stories of one capability and of one attempt, told by the calls made and the answers they gave alone. */
module AcquisitionStories {
  import opened Common
  import opened AcquisitionModel
  import opened Acquisition
  import opened Cancellation

  // ---------- Capabilities ----------

  /** For which place and when a capability was issued, whether its attempt was closed since, and how it ended. */
  datatype Story = Unissued | Told(attempt: nat, ordinal: nat, at: GoInt, closed: bool, ended: Option<Outcome>)

  /** What one call and its answer make of the story of capability `q`. */
  ghost function Tell(s: Source, op: Op, q: Uint64, t: Story): Story
    requires s.lifetime > 0
  {
    match op
    case DoIssue(a, ordinal, view, eligible, now) =>
      if Issue(s, a, ordinal, view, eligible, now).1 == Some(q) then Told(a, ordinal, now, false, None) else t
    case DoClose(a, members) =>
      if t.Unissued? || t.attempt != a || t.closed then t
      else if Close(s, a, members).1 then t.(closed := true)
      else Ended(t, Cancelled)
    case DoClaim(p, a, now) => if p == q then Claimed(t, Claim(s, p, a, now).1) else t
    case DoCancel(a) => if t.Told? && t.attempt == a && CancelOpen(s, a).1 then Ended(t, Cancelled) else t
    case DoFail(p) => if p == q && FailOpen(s, p).1.Some? then Ended(t, FailOpen(s, p).1.value) else t
    case DoExpire(now) => if q in ExpireOpen(s, now).1 then Ended(t, Expired) else t
    case _ => t
  }

  /** A capability ends once. */
  function Ended(t: Story, o: Outcome): Story {
    if t.Told? && t.ended.None? then t.(ended := Some(o)) else t
  }

  function Claimed(t: Story, answer: Answer): Story {
    match answer
    case Won => Ended(t, Outcome.Claimed)
    case Observed(o) => Ended(t, o)
    case Refused => t
  }

  ghost function StoryIn(s: Source, ops: seq<Op>, q: Uint64, t: Story): Story
    requires Inv(s)
    decreases |ops|
  {
    if ops == [] then t
    else
      StepKeeps(s, ops[0]);
      Positive(s);
      StoryIn(Step(s, ops[0]), ops[1..], q, Tell(s, ops[0], q, t))
  }

  ghost predicate Fits(s: Source, q: Uint64, t: Story) {
    match t
    case Unissued => q !in s.issued
    case Told(a, ordinal, at, closed, ended) =>
      && q in s.issued && s.issued[q] == Place(a, ordinal)
      && (ended.None? ==>
            && q in s.live && s.live[q].attempt == a && s.live[q].deadline == at + s.lifetime
            && a in s.attempts && (s.attempts[a].phase == Closed <==> closed))
      && (ended.Some? ==> q in s.outcomes && s.outcomes[q] == ended.value)
  }

  /** The parts of a state that a story is about. */
  ghost predicate Like(s: Source, u: Source, q: Uint64) {
    && u.lifetime == s.lifetime && (q in s.issued <==> q in u.issued) && (q in s.issued ==> u.issued[q] == s.issued[q])
    && (q in s.outcomes ==> q in u.outcomes && u.outcomes[q] == s.outcomes[q])
    && (q in s.live ==> q in u.live && u.live[q] == s.live[q])
  }

  lemma {:induction false} Apart(s: Source, q: Uint64)
    requires Inv(s)
    ensures q in s.issued <==> q in s.live || q in s.outcomes
    ensures !(q in s.live && q in s.outcomes)
  {
    hide Kept, Registry, Homes, Sizes, Pending, ValidRestart;
  }

  /** An ended story stays ended; a live one goes on while its attempt keeps its phase. */
  lemma {:induction false} OnFits(s: Source, u: Source, q: Uint64, t: Story)
    requires Fits(s, q, t) && Like(s, u, q)
    requires t.Told? && t.ended.None? ==> t.attempt in u.attempts && u.attempts[t.attempt].phase == s.attempts[t.attempt].phase
    ensures Fits(u, q, t)
  {
  }

  lemma {:induction false} BeginFits(s: Source, key: string, valid: bool, q: Uint64, t: Story)
    requires Inv(s) && Fits(s, q, t)
    ensures Fits(Begin(s, key, valid).0, q, t)
  {
    hide Kept, Registry, Homes, Pending, ValidRestart, Numbers;
    OnFits(s, Begin(s, key, valid).0, q, t);
  }

  lemma {:induction false} IssueFits(s: Source, a: nat, ordinal: nat, view: nat, eligible: bool, now: GoInt, q: Uint64, t: Story)
    requires Inv(s) && Fits(s, q, t) && s.lifetime > 0
    ensures Fits(Issue(s, a, ordinal, view, eligible, now).0, q, Tell(s, DoIssue(a, ordinal, view, eligible, now), q, t))
  {
    hide Kept, Registry, Homes, Pending, ValidRestart, Sizes;
    Apart(s, q);
    var (u, issued) := Issue(s, a, ordinal, view, eligible, now);
    if issued != Some(q) {
      OnFits(s, u, q, t);
    }
  }

  lemma {:induction false} CancelAllFits(s: Source, todo: set<Uint64>, a: nat, q: Uint64, t: Story)
    requires Inv(s) && Fits(s, q, t) && a in s.attempts
    requires q in s.live ==> (q in todo <==> s.live[q].attempt == a)
    ensures var u := CancelAll(s, todo);
            Fits(u.(attempts := u.attempts - {a}), q, if t.Told? && t.attempt == a then Ended(t, Cancelled) else t)
  {
    hide Inv, CancelAll, CancelledIn;
    AllApart(s);
    NoneCancelled(s);
    CancelAllCancels(s, todo, {}, s);
    assert {} + todo == todo;
    CancelledFits(s, todo, CancelAll(s, todo), a, q, t);
  }

  lemma {:induction false} AllApart(s: Source)
    requires Inv(s)
    ensures forall p :: !(p in s.live && p in s.outcomes)
  {
    hide Kept, Registry, Homes, Sizes, Pending, ValidRestart;
  }

  lemma {:induction false} CancelledFits(s: Source, todo: set<Uint64>, u: Source, a: nat, q: Uint64, t: Story)
    requires Inv(s) && Fits(s, q, t) && CancelledIn(s, todo, u)
    requires q in s.live ==> (q in todo <==> s.live[q].attempt == a)
    ensures Fits(u.(attempts := u.attempts - {a}), q, if t.Told? && t.attempt == a then Ended(t, Cancelled) else t)
  {
    hide Inv;
    Apart(s, q);
  }

  lemma {:induction false} RegisteredIs(s: Source, a: nat, q: Uint64)
    requires Inv(s) && a in s.attempts && q in s.live
    ensures q in s.attempts[a].registered.Values <==> s.live[q].attempt == a
    ensures s.attempts[a].phase == Closed ==> (q in MemberSet(s.attempts[a].members) <==> s.live[q].attempt == a)
  {
    hide Kept, Numbers, Sizes, ValidRestart, Pending;
    assert Home(s.issued, s.attempts, q, s.live[q].attempt) && Sound(s.issued, a, s.attempts[a], s.limits.maxMembers);
    var registered, ordinal := s.attempts[a].registered, s.issued[q].ordinal;
    if q in registered.Values {
      var o :| o in registered && registered[o] == q;
    }
    if s.live[q].attempt == a {
      assert registered[ordinal] == q;
      assert s.attempts[a].phase == Closed ==> s.attempts[a].members[ordinal] == q;
    }
  }

  lemma {:induction false} CloseFits(s: Source, a: nat, members: seq<Member>, q: Uint64, t: Story)
    requires Inv(s) && Fits(s, q, t) && s.lifetime > 0
    ensures Fits(Close(s, a, members).0, q, Tell(s, DoClose(a, members), q, t))
  {
    hide Inv, CancelAll, ExactMembership, Reclaim, Names;
    Apart(s, q);
    if a in s.attempts && s.attempts[a].phase == Open {
      if ExactMembership(s, a, members) {
        FreezeFits(s, a, members, q, t);
      } else {
        if q in s.live {
          RegisteredIs(s, a, q);
        }
        CancelAllFits(s, s.attempts[a].registered.Values, a, q, t);
      }
    }
  }

  lemma {:induction false} FreezeFits(s: Source, a: nat, members: seq<Member>, q: Uint64, t: Story)
    requires Inv(s) && Fits(s, q, t) && a in s.attempts && s.attempts[a].phase == Open && ExactMembership(s, a, members)
    ensures var u := s.(attempts := s.attempts[a := s.attempts[a].(phase := Closed, members := Names(members))]);
            Fits(Reclaim(u, a), q, if t.Unissued? || t.attempt != a || t.closed then t else t.(closed := true))
  {
    hide Inv, ExactMembership, AllTerminal, Names;
    Apart(s, q);
    if q in s.live && s.live[q].attempt == a {
      StillPending(s, a, members, q);
    }
  }

  /** A live capability of the attempt is among its members, so that the attempt stays. */
  lemma {:induction false} StillPending(s: Source, a: nat, members: seq<Member>, q: Uint64)
    requires Inv(s) && a in s.attempts && ExactMembership(s, a, members) && q in s.live && s.live[q].attempt == a
    ensures !AllTerminal(s.outcomes, Names(members))
  {
    hide Kept, Numbers, Sizes, ValidRestart, Pending;
    Apart(s, q);
    assert Home(s.issued, s.attempts, q, a);
    var o := s.issued[q].ordinal;
    forall i | 0 <= i < |members|
      ensures i in s.attempts[a].registered
    {
      assert ExactAt(s, a, members, i);
    }
    ExactlyThese(s.attempts[a].registered, |members|);
    assert ExactAt(s, a, members, o);
    assert Names(members)[o] == q;
  }

  lemma {:induction false} EndFits(s: Source, p: Uint64, o: Outcome, q: Uint64, t: Story)
    requires Inv(s) && Fits(s, q, t) && p in s.live
    ensures Fits(End(s, p, o), q, if p == q then Ended(t, o) else t)
  {
    hide Inv, AllTerminal, Record, Fixed;
    Apart(s, q);
    EndKeeps(s, p, o);
    if p != q && q in s.live {
      KeptHome(s, p, o, q);
    }
  }

  lemma {:induction false} KeptHome(s: Source, p: Uint64, o: Outcome, q: Uint64)
    requires Inv(s) && p in s.live && q in s.live && q != p
    ensures var a := s.live[q].attempt; a in s.attempts && a in End(s, p, o).attempts && End(s, p, o).attempts[a] == s.attempts[a]
  {
    EndKeeps(s, p, o);
    var u, a := End(s, p, o), s.live[q].attempt;
    hide Kept, Numbers, Sizes, ValidRestart, Pending, Registry, Record, Terminalize;
    assert Home(s.issued, s.attempts, q, a);
    assert Home(u.issued, u.attempts, q, u.live[q].attempt);
    assert u.live[q] == s.live[q];
    EndAttempts(s, p, o);
  }

  lemma {:induction false} EndAttempts(s: Source, p: Uint64, o: Outcome)
    requires p in s.live
    ensures forall a :: a in End(s, p, o).attempts ==> a in s.attempts && End(s, p, o).attempts[a] == s.attempts[a]
  {
    hide AllTerminal, Record;
  }

  lemma {:induction false} ExpireFits(s: Source, now: GoInt, q: Uint64, t: Story)
    requires Inv(s) && Fits(s, q, t)
    ensures Fits(ExpireOpen(s, now).0, q, if q in ExpireOpen(s, now).1 then Ended(t, Expired) else t)
    decreases |s.live|
  {
    hide Inv, End, Fixed, Fits, Ended;
    if Due(s, now) != {} {
      var p := Least(Due(s, now));
      ShrinkLive(s, p);
      EndKeeps(s, p, Expired);
      EndFits(s, p, Expired, q, t);
      ExpireFits(End(s, p, Expired), now, q, if p == q then Ended(t, Expired) else t);
      EndedOnce(t, Expired);
    }
  }

  lemma {:induction false} EndedOnce(t: Story, o: Outcome)
    ensures Ended(Ended(t, o), o) == Ended(t, o)
  {
  }

  lemma {:induction false} CancelFits(s: Source, a: nat, q: Uint64, t: Story)
    requires Inv(s) && Fits(s, q, t) && s.lifetime > 0
    ensures Fits(CancelOpen(s, a).0, q, Tell(s, DoCancel(a), q, t))
  {
    hide Inv, CancelAll;
    Apart(s, q);
    if a in s.attempts && s.attempts[a].phase == Closed {
      if q in s.live {
        RegisteredIs(s, a, q);
      }
      CancelAllFits(s, MemberSet(s.attempts[a].members), a, q, t);
    } else if a in s.drained && a !in s.attempts {
      OnFits(s, CancelOpen(s, a).0, q, t);
    } else if a in s.drained {
      DrainedIsGone(s, a);
    }
  }

  lemma {:induction false} DrainedIsGone(s: Source, a: nat)
    requires Inv(s)
    ensures !(a in s.drained && a in s.attempts)
  {
    hide Kept, Registry, Homes, Numbers, Pending, ValidRestart;
  }

  lemma {:induction false} ClaimFits(s: Source, p: Uint64, a: nat, now: GoInt, q: Uint64, t: Story)
    requires Inv(s) && Fits(s, q, t) && s.lifetime > 0
    ensures Fits(Claim(s, p, a, now).0, q, Tell(s, DoClaim(p, a, now), q, t))
  {
    hide Inv, End;
    Apart(s, q);
    if p in s.live {
      EndFits(s, p, Expired, q, t);
      EndFits(s, p, Outcome.Claimed, q, t);
    }
  }

  lemma {:induction false} FailFits(s: Source, p: Uint64, q: Uint64, t: Story)
    requires Inv(s) && Fits(s, q, t) && s.lifetime > 0
    ensures Fits(FailOpen(s, p).0, q, Tell(s, DoFail(p), q, t))
  {
    hide Inv, End;
    Apart(s, q);
    if p in s.live {
      EndFits(s, p, Failed, q, t);
    }
  }

  lemma {:induction false} ExportFits(s: Source, q: Uint64, t: Story)
    requires Inv(s) && Fits(s, q, t)
    ensures Fits(Export(s).0, q, t)
  {
    hide Kept, Numbers, Sizes, ValidRestart, Pending, Registry;
    if q in s.live {
      assert Home(s.issued, s.attempts, q, s.live[q].attempt);
    }
    Apart(s, q);
  }

  lemma {:induction false} StepFits(s: Source, op: Op, q: Uint64, t: Story)
    requires Inv(s) && Fits(s, q, t) && s.lifetime > 0
    ensures Fits(Step(s, op), q, Tell(s, op, q, t))
  {
    hide Inv, Fits, Begin, Issue, Close, Claim, CancelOpen, FailOpen, ExpireOpen, Export;
    match op
    case DoBegin(key, valid) => BeginFits(s, key, valid, q, t);
    case DoIssue(a, ordinal, view, eligible, now) => IssueFits(s, a, ordinal, view, eligible, now, q, t);
    case DoClose(a, members) => CloseFits(s, a, members, q, t);
    case DoClaim(p, a, now) => ClaimFits(s, p, a, now, q, t);
    case DoCancel(a) => CancelFits(s, a, q, t);
    case DoFail(p) => FailFits(s, p, q, t);
    case DoExpire(now) => ExpireFits(s, now, q, t);
    case DoExport => ExportFits(s, q, t);
  }

  lemma {:induction false} RunFits(s: Source, ops: seq<Op>, q: Uint64, t: Story)
    requires Inv(s) && Fits(s, q, t)
    ensures Fits(Run(s, ops), q, StoryIn(s, ops, q, t))
    decreases |ops|
  {
    hide Inv, Fits, Tell, Step;
    if ops != [] {
      Positive(s);
      StepKeeps(s, ops[0]);
      StepFits(s, ops[0], q, t);
      RunFits(Step(s, ops[0]), ops[1..], q, Tell(s, ops[0], q, t));
    }
  }

  /** The story of a capability in a run of a source. */
  ghost function StoryOf(l: Limits, lifetime: GoInt, r: Restart, ops: seq<Op>, q: Uint64): Story
    requires ValidLimits(l) && lifetime > 0 && ValidRestart(l, r)
  {
    StartInv(l, lifetime, r);
    StoryIn(Start(l, lifetime, r), ops, q, Unissued)
  }

  lemma {:induction false} StoryFits(l: Limits, lifetime: GoInt, r: Restart, ops: seq<Op>, q: Uint64)
    requires ValidLimits(l) && lifetime > 0 && ValidRestart(l, r)
    ensures Inv(Start(l, lifetime, r)) && Inv(Run(Start(l, lifetime, r), ops))
    ensures Run(Start(l, lifetime, r), ops).lifetime == lifetime && Run(Start(l, lifetime, r), ops).limits == l
    ensures Fits(Run(Start(l, lifetime, r), ops), q, StoryOf(l, lifetime, r, ops, q))
  {
    hide Inv, Run, StoryIn, ValidRestart;
    StartInv(l, lifetime, r);
    RunKeeps(Start(l, lifetime, r), ops);
    RunFits(Start(l, lifetime, r), ops, q, Unissued);
  }

  /** What a claim through attempt `a` is answered, by the story of the capability alone. */
  function Verdict(t: Story, a: nat, now: GoInt, lifetime: GoInt): Answer {
    if t.Unissued? || t.attempt != a then Refused
    else if t.ended.Some? then Observed(t.ended.value)
    else if !t.closed then Refused
    else if now >= t.at + lifetime then Observed(Expired)
    else Won
  }

  /**
   When a claim wins: exactly when the capability was issued for this attempt, has not ended since, the attempt was closed
   and its lifetime is not over. Later claims of a capability that has not ended make it expire.
   */
  lemma {:induction false} ClaimIsExact(l: Limits, lifetime: GoInt, r: Restart, ops: seq<Op>, q: Uint64, a: nat, now: GoInt)
    requires ValidLimits(l) && lifetime > 0 && ValidRestart(l, r)
    ensures Inv(Start(l, lifetime, r))
    ensures var s, t := Run(Start(l, lifetime, r), ops), StoryOf(l, lifetime, r, ops, q);
            var (u, answer) := Claim(s, q, a, now);
            && answer == Verdict(t, a, now, lifetime)
            && (answer == Won ==> q in u.outcomes && u.outcomes[q] == Outcome.Claimed)
            && (t.Told? && t.ended.None? && answer == Observed(Expired) ==> q in u.outcomes && u.outcomes[q] == Expired)
  {
    hide Inv, Run, StoryOf, ValidRestart, End, ValidLimits, Fixed;
    StoryFits(l, lifetime, r, ops, q);
    var s := Run(Start(l, lifetime, r), ops);
    Apart(s, q);
    if q in s.live {
      EndKeeps(s, q, Outcome.Claimed);
      EndKeeps(s, q, Expired);
      if a in s.attempts {
        RegisteredIs(s, a, q);
      }
    }
  }

  /** Failing reports the end a capability has come to, or fails it; expiry takes exactly the live ones whose lifetime is over. */
  lemma {:induction false} EndIsExact(l: Limits, lifetime: GoInt, r: Restart, ops: seq<Op>, q: Uint64, now: GoInt)
    requires ValidLimits(l) && lifetime > 0 && ValidRestart(l, r)
    ensures Inv(Start(l, lifetime, r))
    ensures var s, t := Run(Start(l, lifetime, r), ops), StoryOf(l, lifetime, r, ops, q);
            && FailOpen(s, q).1 == (if t.Unissued? then None else if t.ended.Some? then t.ended else Some(Failed))
            && (q in ExpireOpen(s, now).1 <==> t.Told? && t.ended.None? && t.at + lifetime <= now)
  {
    hide Inv, Run, StoryOf, ValidRestart, End, ValidLimits, ExpireOpen;
    StoryFits(l, lifetime, r, ops, q);
    var s := Run(Start(l, lifetime, r), ops);
    Apart(s, q);
    ExpiryExact(s, now);
  }
}
