/** One-shot capabilities over every run: each sequence number is reserved once, is live or ended, and ends once. */
module Acquisition {
  import opened Common
  import opened AcquisitionModel
  import opened Tombstones

  // ---------- Invariant ----------

  function After(next: Uint64): nat {
    if next == 0 then MAX_UINT64 + 1 else next
  }

  function First(s: Source): nat {
    After(s.restart.next)
  }

  function Bound(s: Source): nat {
    After(s.next)
  }

  /** Every reserved number is live or has ended, and not both. */
  ghost predicate Numbers(first: nat, bound: nat, issued: map<Uint64, Place>, live: map<Uint64, Capability>, outcomes: map<Uint64, Outcome>) {
    && first <= bound
    && (forall q :: q in issued <==> first <= q < bound)
    && (forall q :: q in issued <==> q in live || q in outcomes)
    && (forall q :: !(q in live && q in outcomes))
  }

  ghost predicate Kept(limit: nat, restored: seq<Tombstone>, outcomes: map<Uint64, Outcome>, tombstones: seq<Tombstone>) {
    && Retained(tombstones, Sequences(restored) + outcomes.Keys, limit)
    && forall t :: t in tombstones ==> t in restored || (t.sequence in outcomes && outcomes[t.sequence] == t.outcome)
  }

  /** The members are the capabilities registered for the ordinals from zero up, and no others are registered. */
  ghost predicate Frozen(attempt: Attempt) {
    && 0 < |attempt.members| == |attempt.registered|
    && (forall i :: 0 <= i < |attempt.members| ==> i in attempt.registered && attempt.registered[i] == attempt.members[i])
    && (forall o :: o in attempt.registered ==> o < |attempt.members|)
  }

  ghost predicate Sound(issued: map<Uint64, Place>, a: nat, attempt: Attempt, maxMembers: nat) {
    && (forall o :: o in attempt.registered ==>
          o < maxMembers && attempt.registered[o] in issued && issued[attempt.registered[o]] == Place(a, o))
    && (attempt.phase == Closed ==> Frozen(attempt))
  }

  ghost predicate Registry(issued: map<Uint64, Place>, attempts: map<nat, Attempt>, maxMembers: nat) {
    forall a :: a in attempts ==> Sound(issued, a, attempts[a], maxMembers)
  }

  ghost predicate Home(issued: map<Uint64, Place>, attempts: map<nat, Attempt>, q: Uint64, attempt: nat) {
    && q in issued && issued[q].attempt == attempt && attempt in attempts && issued[q].ordinal in attempts[attempt].registered
    && attempts[attempt].registered[issued[q].ordinal] == q
  }

  /** A live capability is registered with its attempt. */
  ghost predicate Homes(issued: map<Uint64, Place>, attempts: map<nat, Attempt>, live: map<Uint64, Capability>) {
    forall q :: q in live ==> Home(issued, attempts, q, live[q].attempt)
  }

  /** A closed attempt that is kept has a member that may still be claimed. */
  ghost predicate Pending(attempts: map<nat, Attempt>, outcomes: map<Uint64, Outcome>, except: set<nat>) {
    forall a :: a in attempts && a !in except && attempts[a].phase == Closed ==> !AllTerminal(outcomes, attempts[a].members)
  }

  ghost predicate Sizes(l: Limits, attempts: set<nat>, drained: set<nat>, live: nat, begun: nat) {
    && |attempts| + |drained| <= l.maxAttempts && live <= l.maxLive
    && attempts !! drained && (forall a :: a in attempts || a in drained ==> a < begun)
  }

  ghost predicate Core(s: Source) {
    && ValidLimits(s.limits) && s.lifetime > 0 && ValidRestart(s.limits, s.restart)
    && Numbers(First(s), Bound(s), s.issued, s.live, s.outcomes)
    && Kept(s.limits.tombstones, s.restart.tombstones, s.outcomes, s.tombstones)
    && Registry(s.issued, s.attempts, s.limits.maxMembers) && Homes(s.issued, s.attempts, s.live)
    && Sizes(s.limits, s.attempts.Keys, s.drained, |s.live|, s.begun)
  }

  ghost predicate Inv(s: Source) {
    Core(s) && Pending(s.attempts, s.outcomes, {})
  }

  lemma {:induction false} InvIsCore(s: Source)
    requires Inv(s)
    ensures Core(s) && Sorted(s.tombstones) && Pending(s.attempts, s.outcomes, {}) && s.lifetime > 0
  {
    hide Numbers, Registry, Homes, Sizes, Pending, ValidRestart;
  }

  lemma {:induction false} StartInv(l: Limits, lifetime: GoInt, r: Restart)
    requires ValidLimits(l) && lifetime > 0 && ValidRestart(l, r)
    ensures Inv(Start(l, lifetime, r))
  {
    SequencesCount(r.tombstones);
    var none: map<Uint64, Outcome> := map[];
    assert Sequences(r.tombstones) + none.Keys == Sequences(r.tombstones);
  }

  /** What no step may do: take a number back, change an outcome, or change the restart it came from. */
  ghost predicate Fixed(s: Source, t: Source) {
    && t.limits == s.limits && t.lifetime == s.lifetime && t.restart == s.restart && s.views <= t.views
    && (forall q :: q in s.outcomes ==> q in t.outcomes && t.outcomes[q] == s.outcomes[q])
    && (forall q :: q in s.issued ==> q in t.issued && t.issued[q] == s.issued[q])
    && (s.retired ==> t.retired)
  }

  lemma {:induction false} FixedTwice(s: Source, t: Source, u: Source)
    requires Fixed(s, t) && Fixed(t, u)
    ensures Fixed(s, u)
  {
  }

  // ---------- Ending ----------

  /** Restored numbers lie below everything reserved since. */
  lemma {:induction false} RestoredBelow(l: Limits, r: Restart, t: Tombstone)
    requires ValidRestart(l, r) && t in r.tombstones
    ensures 0 < t.sequence < After(r.next)
  {
    var ts := r.tombstones;
    var i :| 0 <= i < |ts| && ts[i] == t;
    assert i < |ts| - 1 ==> ts[i].sequence < ts[|ts| - 1].sequence;
  }

  lemma {:induction false} EndNumbers(
    first: nat, bound: nat, issued: map<Uint64, Place>, live: map<Uint64, Capability>, outcomes: map<Uint64, Outcome>, q: Uint64, o: Outcome)
    requires Numbers(first, bound, issued, live, outcomes) && q in live
    ensures Numbers(first, bound, issued, live - {q}, outcomes[q := o])
  {
  }

  lemma {:induction false} RecordEnd(limit: nat, restored: seq<Tombstone>, outcomes: map<Uint64, Outcome>, tombstones: seq<Tombstone>, q: Uint64, o: Outcome)
    requires Kept(limit, restored, outcomes, tombstones) && 0 < limit && q !in outcomes && q !in Sequences(restored)
    ensures Kept(limit, restored, outcomes[q := o], Record(tombstones, Tombstone(q, o), limit))
  {
    hide Retained, Record, Sequences;
    RecordKeeps(tombstones, Sequences(restored) + outcomes.Keys, limit, Tombstone(q, o));
    assert Sequences(restored) + outcomes[q := o].Keys == Sequences(restored) + outcomes.Keys + {q};
  }

  lemma {:induction false} NeverRestored(l: Limits, r: Restart, q: Uint64)
    requires ValidRestart(l, r) && After(r.next) <= q
    ensures q !in Sequences(r.tombstones)
  {
    if q in Sequences(r.tombstones) {
      var i :| 0 <= i < |r.tombstones| && r.tombstones[i].sequence == q;
      RestoredBelow(l, r, r.tombstones[i]);
    }
  }

  lemma {:induction false} LiveIsFresh(s: Source, q: Uint64)
    requires Core(s) && q in s.live
    ensures q in s.issued && q !in s.outcomes && First(s) <= q
  {
    hide Kept, Registry, Homes, Sizes, ValidRestart;
  }

  lemma {:induction false} EndHomes(issued: map<Uint64, Place>, attempts: map<nat, Attempt>, live: map<Uint64, Capability>, q: Uint64)
    requires Homes(issued, attempts, live)
    ensures Homes(issued, attempts, live - {q})
  {
  }

  lemma {:induction false} OthersPend(s: Source, q: Uint64, o: Outcome, except: set<nat>)
    requires Registry(s.issued, s.attempts, s.limits.maxMembers) && Homes(s.issued, s.attempts, s.live)
    requires q in s.live && Pending(s.attempts, s.outcomes, except)
    ensures Pending(s.attempts, s.outcomes[q := o], except + {s.live[q].attempt})
  {
    forall a | a in s.attempts && a !in except + {s.live[q].attempt} && s.attempts[a].phase == Closed
      ensures !AllTerminal(s.outcomes[q := o], s.attempts[a].members)
    {
      var members := s.attempts[a].members;
      var i :| 0 <= i < |members| && members[i] !in s.outcomes;
      assert Sound(s.issued, a, s.attempts[a], s.limits.maxMembers) && Home(s.issued, s.attempts, q, s.live[q].attempt);
      assert s.attempts[a].registered[i] == members[i];
    }
  }

  lemma {:induction false} TerminalKeeps(s: Source, q: Uint64, o: Outcome, except: set<nat>)
    requires Core(s) && q in s.live && Pending(s.attempts, s.outcomes, except)
    ensures var t := Terminalize(s, q, o);
            && Core(t) && Pending(t.attempts, t.outcomes, except + {s.live[q].attempt}) && Fixed(s, t) && t.live == s.live - {q}
            && t.attempts == s.attempts && t.drained == s.drained && t.issued == s.issued && q in s.issued && q !in s.outcomes
  {
    hide Kept, Numbers, Registry, Homes, Pending, Record, ValidRestart, Sequences;
    LiveIsFresh(s, q);
    NeverRestored(s.limits, s.restart, q);
    RecordEnd(s.limits.tombstones, s.restart.tombstones, s.outcomes, s.tombstones, q, o);
    EndNumbers(First(s), Bound(s), s.issued, s.live, s.outcomes, q, o);
    EndHomes(s.issued, s.attempts, s.live, q);
    OthersPend(s, q, o, except);
    assert (s.live - {q}).Keys == s.live.Keys - {q};
  }

  lemma {:induction false} RemoveRegistry(issued: map<Uint64, Place>, attempts: map<nat, Attempt>, maxMembers: nat, live: map<Uint64, Capability>, a: nat)
    requires Registry(issued, attempts, maxMembers) && Homes(issued, attempts, live) && (forall q :: q in live ==> live[q].attempt != a)
    ensures Registry(issued, attempts - {a}, maxMembers) && Homes(issued, attempts - {a}, live)
  {
  }

  lemma {:induction false} RemovePending(attempts: map<nat, Attempt>, outcomes: map<Uint64, Outcome>, a: nat)
    requires Pending(attempts, outcomes, {a})
    ensures Pending(attempts - {a}, outcomes, {})
  {
  }

  /** An attempt none of whose capabilities is live may be removed. */
  lemma {:induction false} RemoveKeeps(s: Source, a: nat, drained: set<nat>)
    requires Core(s) && Pending(s.attempts, s.outcomes, {a}) && a in s.attempts && (forall q :: q in s.live ==> s.live[q].attempt != a)
    requires drained == s.drained || drained == s.drained + {a}
    ensures var t := s.(attempts := s.attempts - {a}, drained := drained); Inv(t) && Fixed(s, t)
  {
    hide Kept, Numbers, Registry, Homes, Pending, ValidRestart, Sizes;
    RemoveRegistry(s.issued, s.attempts, s.limits.maxMembers, s.live, a);
    RemovePending(s.attempts, s.outcomes, a);
    RemoveSizes(s.limits, s.attempts, s.drained, |s.live|, s.begun, a, drained);
  }

  lemma {:induction false} RemoveSizes(l: Limits, attempts: map<nat, Attempt>, drained: set<nat>, live: nat, begun: nat, a: nat, after: set<nat>)
    requires Sizes(l, attempts.Keys, drained, live, begun) && a in attempts && (after == drained || after == drained + {a})
    ensures Sizes(l, (attempts - {a}).Keys, after, live, begun)
  {
    assert (attempts - {a}).Keys == attempts.Keys - {a};
  }

  /** Once all members of a closed attempt have ended, none of its capabilities is live. */
  lemma {:induction false} NoneLiveHere(s: Source, a: nat)
    requires Core(s) && a in s.attempts && s.attempts[a].phase == Closed && AllTerminal(s.outcomes, s.attempts[a].members)
    ensures forall q :: q in s.live ==> s.live[q].attempt != a
  {
    hide Kept, Sizes, ValidRestart;
    forall q | q in s.live
      ensures s.live[q].attempt != a
    {
      assert Home(s.issued, s.attempts, q, s.live[q].attempt) && Sound(s.issued, a, s.attempts[a], s.limits.maxMembers);
    }
  }

  lemma {:induction false} ReclaimKeeps(s: Source, a: nat)
    requires Core(s) && Pending(s.attempts, s.outcomes, {a})
    ensures Inv(Reclaim(s, a)) && Fixed(s, Reclaim(s, a))
  {
    hide Core;
    if a in s.attempts && s.attempts[a].phase == Closed && AllTerminal(s.outcomes, s.attempts[a].members) {
      NoneLiveHere(s, a);
      RemoveKeeps(s, a, s.drained + {a});
    }
  }

  lemma {:induction false} EndKeeps(s: Source, q: Uint64, o: Outcome)
    requires Inv(s) && q in s.live
    ensures Inv(End(s, q, o)) && End(s, q, o).live == s.live - {q} && End(s, q, o).outcomes == s.outcomes[q := o]
    ensures Fixed(s, End(s, q, o)) && q !in s.outcomes
  {
    hide Core, Pending, AllTerminal, Record, Fixed;
    TerminalKeeps(s, q, o, {});
    assert {} + {s.live[q].attempt} == {s.live[q].attempt};
    var t := Terminalize(s, q, o);
    ReclaimKeeps(t, s.live[q].attempt);
    FixedTwice(s, t, End(s, q, o));
  }

  // ---------- Cancelling a whole attempt ----------

  lemma {:induction false} CancelAllKeeps(s: Source, todo: set<Uint64>, a: nat)
    requires Core(s) && Pending(s.attempts, s.outcomes, {a}) && (forall q :: q in todo && q in s.live ==> s.live[q].attempt == a)
    ensures var t := CancelAll(s, todo);
            && Core(t) && Pending(t.attempts, t.outcomes, {a}) && Fixed(s, t)
            && t.live == s.live - todo && t.attempts == s.attempts && t.drained == s.drained && t.issued == s.issued
    decreases |todo|
  {
    hide Core, Pending, Fixed, Terminalize;
    if todo == {} {
      assert s.live - todo == s.live;
      FixedSelf(s);
    } else {
      var q := Pick(todo);
      if q in s.live {
        TerminalKeeps(s, q, Cancelled, {a});
        assert {a} + {a} == {a};
        var t := Terminalize(s, q, Cancelled);
        CancelAllKeeps(t, todo - {q}, a);
        FixedTwice(s, t, CancelAll(t, todo - {q}));
        assert t.live - (todo - {q}) == s.live - todo;
      } else {
        CancelAllKeeps(s, todo - {q}, a);
        assert s.live - (todo - {q}) == s.live - todo;
      }
    }
  }

  lemma {:induction false} FixedSelf(s: Source)
    ensures Fixed(s, s)
  {
  }

  /** When all that is registered is cancelled, nothing of the attempt stays live. */
  lemma {:induction false} DropAttempt(s: Source, a: nat, todo: set<Uint64>)
    requires Inv(s) && a in s.attempts
    requires forall q :: q in todo && q in s.live ==> s.live[q].attempt == a
    requires forall o :: o in s.attempts[a].registered ==> s.attempts[a].registered[o] in todo
    ensures var t := CancelAll(s, todo);
            var u := t.(attempts := t.attempts - {a});
            Inv(u) && Fixed(s, u) && u.live == s.live - todo
  {
    forall q | q in s.live && q !in todo
      ensures s.live[q].attempt != a
    {
      assert Home(s.issued, s.attempts, q, s.live[q].attempt);
    }
    hide Core, CancelAll, Fixed;
    assert Pending(s.attempts, s.outcomes, {a});
    CancelAllKeeps(s, todo, a);
    hide Pending;
    var t := CancelAll(s, todo);
    RemoveKeeps(t, a, t.drained);
    var u := t.(attempts := t.attempts - {a});
    assert u == t.(attempts := t.attempts - {a}, drained := t.drained);
    FixedTwice(s, t, u);
  }

  /** What is registered with an attempt was issued for it. */
  lemma {:induction false} RegisteredHere(s: Source, a: nat, o: nat)
    requires Core(s) && a in s.attempts && o in s.attempts[a].registered && s.attempts[a].registered[o] in s.live
    ensures s.live[s.attempts[a].registered[o]].attempt == a
  {
    hide Kept, Numbers, Sizes, ValidRestart;
    var q := s.attempts[a].registered[o];
    assert Home(s.issued, s.attempts, q, s.live[q].attempt) && Sound(s.issued, a, s.attempts[a], s.limits.maxMembers);
  }

  lemma {:induction false} DropRegistered(s: Source, a: nat)
    requires Inv(s) && a in s.attempts
    ensures var t := CancelAll(s, s.attempts[a].registered.Values);
            var u := t.(attempts := t.attempts - {a});
            Inv(u) && Fixed(s, u)
  {
    hide Core, CancelAll, Fixed, Pending;
    var registered := s.attempts[a].registered;
    forall q | q in registered.Values && q in s.live
      ensures s.live[q].attempt == a
    {
      var o :| o in registered && registered[o] == q;
      RegisteredHere(s, a, o);
    }
    DropAttempt(s, a, registered.Values);
  }

  lemma {:induction false} DropMembers(s: Source, a: nat)
    requires Inv(s) && a in s.attempts && s.attempts[a].phase == Closed
    ensures var t := CancelAll(s, MemberSet(s.attempts[a].members));
            var u := t.(attempts := t.attempts - {a});
            Inv(u) && Fixed(s, u)
  {
    var attempt := s.attempts[a];
    assert Sound(s.issued, a, attempt, s.limits.maxMembers);
    hide Core, CancelAll, Fixed, Pending, Sound;
    var todo := MemberSet(attempt.members);
    forall q | q in todo && q in s.live
      ensures s.live[q].attempt == a
    {
      var i :| 0 <= i < |attempt.members| && attempt.members[i] == q;
      RegisteredHere(s, a, i);
    }
    forall o | o in attempt.registered
      ensures attempt.registered[o] in todo
    {
      assert attempt.members[o] == attempt.registered[o];
    }
    DropAttempt(s, a, todo);
  }

  // ---------- Steps ----------

  /** A step that moves only attempts keeps the books. */
  lemma {:induction false} Rearranged(s: Source, t: Source)
    requires Inv(s) && t == s.(attempts := t.attempts, drained := t.drained, views := t.views, begun := t.begun, retired := t.retired)
    requires s.views <= t.views && (s.retired ==> t.retired)
    requires Registry(s.issued, t.attempts, s.limits.maxMembers) && Homes(s.issued, t.attempts, s.live)
    requires Sizes(s.limits, t.attempts.Keys, t.drained, |s.live|, t.begun)
    ensures Core(t) && Fixed(s, t)
  {
    hide Kept, Numbers, Registry, Homes, Sizes, Pending, ValidRestart;
  }

  lemma {:induction false} BeginRegistry(issued: map<Uint64, Place>, attempts: map<nat, Attempt>, maxMembers: nat, live: map<Uint64, Capability>, a: nat, key: string)
    requires Registry(issued, attempts, maxMembers) && Homes(issued, attempts, live) && a !in attempts
    ensures Registry(issued, attempts[a := Attempt(key, Open, map[], [])], maxMembers) && Homes(issued, attempts[a := Attempt(key, Open, map[], [])], live)
  {
    hide Sound;
    assert Sound(issued, a, Attempt(key, Open, map[], []), maxMembers) by {
      NothingRegistered(issued, a, key, maxMembers);
    }
  }

  lemma {:induction false} NothingRegistered(issued: map<Uint64, Place>, a: nat, key: string, maxMembers: nat)
    ensures Sound(issued, a, Attempt(key, Open, map[], []), maxMembers)
  {
  }

  lemma {:induction false} BeginPending(attempts: map<nat, Attempt>, outcomes: map<Uint64, Outcome>, a: nat, key: string)
    requires Pending(attempts, outcomes, {})
    ensures Pending(attempts[a := Attempt(key, Open, map[], [])], outcomes, {})
  {
  }

  lemma {:induction false} BeginKeeps(s: Source, key: string, valid: bool)
    requires Inv(s)
    ensures Inv(Begin(s, key, valid).0) && Fixed(s, Begin(s, key, valid).0)
  {
    hide Kept, Numbers, ValidRestart, Fixed, Registry, Homes, Pending;
    if !valid || s.retired || |s.attempts| + |s.drained| >= s.limits.maxAttempts {
      FixedSelf(s);
    } else {
      var t := Begin(s, key, valid).0;
      BeginRegistry(s.issued, s.attempts, s.limits.maxMembers, s.live, s.begun, key);
      BeginPending(s.attempts, s.outcomes, s.begun, key);
      BeginSizes(s.limits, s.attempts, s.drained, |s.live|, s.begun, t.attempts[s.begun]);
      hide Sizes;
      Rearranged(s, t);
    }
  }

  lemma {:induction false} BeginSizes(l: Limits, attempts: map<nat, Attempt>, drained: set<nat>, live: nat, begun: nat, attempt: Attempt)
    requires Sizes(l, attempts.Keys, drained, live, begun) && |attempts| + |drained| < l.maxAttempts
    ensures Sizes(l, attempts[begun := attempt].Keys, drained, live, begun + 1)
  {
    assert attempts[begun := attempt].Keys == attempts.Keys + {begun};
  }

  lemma {:induction false} IssueNumbers(
    first: nat, issued: map<Uint64, Place>, live: map<Uint64, Capability>, outcomes: map<Uint64, Outcome>, q: Uint64, c: Capability, p: Place)
    requires Numbers(first, After(q), issued, live, outcomes) && q != 0
    ensures Numbers(first, After(if q == MAX_UINT64 then 0 else q + 1), issued[q := p], live[q := c], outcomes)
    ensures q !in issued && q !in live
  {
  }

  function Registered(attempts: map<nat, Attempt>, a: nat, o: nat, q: Uint64): map<nat, Attempt>
    requires a in attempts
  {
    attempts[a := attempts[a].(registered := attempts[a].registered[o := q])]
  }

  lemma {:induction false} IssueRegistry(issued: map<Uint64, Place>, attempts: map<nat, Attempt>, maxMembers: nat, a: nat, o: nat, q: Uint64)
    requires Registry(issued, attempts, maxMembers) && q !in issued && a in attempts && attempts[a].phase == Open && o < maxMembers
    ensures Registry(issued[q := Place(a, o)], Registered(attempts, a, o, q), maxMembers)
  {
    forall b | b in attempts
      ensures Sound(issued[q := Place(a, o)], b, Registered(attempts, a, o, q)[b], maxMembers)
    {
      assert Sound(issued, b, attempts[b], maxMembers);
    }
  }

  lemma {:induction false} IssueHomes(issued: map<Uint64, Place>, attempts: map<nat, Attempt>, live: map<Uint64, Capability>, a: nat, o: nat, q: Uint64, c: Capability)
    requires Homes(issued, attempts, live) && q !in issued && a in attempts && o !in attempts[a].registered && c.attempt == a
    ensures Homes(issued[q := Place(a, o)], Registered(attempts, a, o, q), live[q := c])
  {
    var after, grown := Registered(attempts, a, o, q), live[q := c];
    forall p | p in grown
      ensures Home(issued[q := Place(a, o)], after, p, grown[p].attempt)
    {
      assert p != q ==> Home(issued, attempts, p, live[p].attempt);
    }
  }

  lemma {:induction false} IssuePending(attempts: map<nat, Attempt>, outcomes: map<Uint64, Outcome>, a: nat, o: nat, q: Uint64)
    requires Pending(attempts, outcomes, {}) && a in attempts && attempts[a].phase == Open
    ensures Pending(Registered(attempts, a, o, q), outcomes, {})
  {
  }

  lemma {:induction false} IssueKeeps(s: Source, a: nat, ordinal: nat, view: nat, eligible: bool, now: GoInt)
    requires Inv(s)
    ensures Inv(Issue(s, a, ordinal, view, eligible, now).0) && Fixed(s, Issue(s, a, ordinal, view, eligible, now).0)
  {
    hide Kept, Numbers, Registry, Homes, Pending, ValidRestart, Sizes;
    var t := Issue(s, a, ordinal, view, eligible, now).0;
    if !eligible || view in s.views {
    } else if !Issuable(s, a, ordinal, now) {
      Rearranged(s, t);
    } else {
      hide Fixed;
      IssuedKeeps(s, t, a, ordinal, t.live[s.next]);
    }
  }

  lemma {:induction false} IssuedKeeps(s: Source, t: Source, a: nat, ordinal: nat, c: Capability)
    requires Inv(s) && s.next != 0 && a in s.attempts && s.attempts[a].phase == Open && ordinal !in s.attempts[a].registered && c.attempt == a
    requires ordinal < s.limits.maxMembers && |s.live| < s.limits.maxLive
    requires t == s.(views := t.views, next := if s.next == MAX_UINT64 then 0 else s.next + 1, live := s.live[s.next := c],
                     issued := s.issued[s.next := Place(a, ordinal)], attempts := Registered(s.attempts, a, ordinal, s.next)) && s.views <= t.views
    ensures Inv(t) && Fixed(s, t)
  {
    hide Kept, Numbers, Registry, Homes, Pending, ValidRestart, Sizes, Registered;
    var q := s.next;
    IssueNumbers(First(s), s.issued, s.live, s.outcomes, q, c, Place(a, ordinal));
    IssueRegistry(s.issued, s.attempts, s.limits.maxMembers, a, ordinal, q);
    IssueHomes(s.issued, s.attempts, s.live, a, ordinal, q, c);
    IssuePending(s.attempts, s.outcomes, a, ordinal, q);
    IssueSizes(s.limits, s.attempts, s.drained, s.live, s.begun, a, ordinal, q, c);
  }

  lemma {:induction false} IssueSizes(
    l: Limits, attempts: map<nat, Attempt>, drained: set<nat>, live: map<Uint64, Capability>, begun: nat, a: nat, o: nat, q: Uint64, c: Capability)
    requires Sizes(l, attempts.Keys, drained, |live|, begun) && a in attempts && |live| < l.maxLive && q !in live
    ensures Sizes(l, Registered(attempts, a, o, q).Keys, drained, |live[q := c]|, begun)
  {
    assert Registered(attempts, a, o, q).Keys == attempts.Keys;
    assert live[q := c].Keys == live.Keys + {q};
  }

  ghost function UpTo(n: nat): (s: set<nat>)
    ensures |s| == n && forall x: nat :: x in s <==> x < n
  {
    if n == 0 then {} else UpTo(n - 1) + {n - 1}
  }

  /** As many ordinals as there are members, with all below their number among them: no other is registered. */
  lemma {:induction false} ExactlyThese(registered: map<nat, Uint64>, n: nat)
    requires |registered| == n && forall i :: 0 <= i < n ==> i in registered
    ensures forall o :: o in registered ==> o < n
  {
    var want := UpTo(n);
    assert want <= registered.Keys;
    assert want + (registered.Keys - want) == registered.Keys && want * (registered.Keys - want) == {};
    assert |registered.Keys - want| == 0;
    forall o | o in registered
      ensures o < n
    {
      assert o in want || o in registered.Keys - want;
    }
  }

  function Freeze(attempts: map<nat, Attempt>, a: nat, members: seq<Member>): map<nat, Attempt>
    requires a in attempts
  {
    attempts[a := attempts[a].(phase := Closed, members := Names(members))]
  }

  lemma {:induction false} FreezeRegistry(s: Source, a: nat, members: seq<Member>)
    requires Registry(s.issued, s.attempts, s.limits.maxMembers) && Homes(s.issued, s.attempts, s.live)
    requires a in s.attempts && ExactMembership(s, a, members)
    ensures Registry(s.issued, Freeze(s.attempts, a, members), s.limits.maxMembers) && Homes(s.issued, Freeze(s.attempts, a, members), s.live)
  {
    var after := Freeze(s.attempts, a, members);
    forall i | 0 <= i < |members|
      ensures i in s.attempts[a].registered && s.attempts[a].registered[i] == Names(members)[i]
    {
      assert ExactAt(s, a, members, i);
    }
    hide ExactAt;
    ExactlyThese(s.attempts[a].registered, |members|);
    forall b | b in after
      ensures Sound(s.issued, b, after[b], s.limits.maxMembers)
    {
      assert Sound(s.issued, b, s.attempts[b], s.limits.maxMembers);
    }
    forall p | p in s.live
      ensures Home(s.issued, after, p, s.live[p].attempt)
    {
      assert Home(s.issued, s.attempts, p, s.live[p].attempt);
    }
  }

  lemma {:induction false} FreezePending(attempts: map<nat, Attempt>, outcomes: map<Uint64, Outcome>, a: nat, members: seq<Member>)
    requires Pending(attempts, outcomes, {}) && a in attempts
    ensures Pending(Freeze(attempts, a, members), outcomes, {a})
  {
  }

  lemma {:induction false} FreezeKeeps(s: Source, a: nat, members: seq<Member>)
    requires Inv(s) && a in s.attempts && ExactMembership(s, a, members)
    ensures var t := s.(attempts := Freeze(s.attempts, a, members));
            Core(t) && Pending(t.attempts, t.outcomes, {a}) && Fixed(s, t)
  {
    hide Kept, Numbers, ValidRestart, Fixed, Registry, Homes, Pending, ExactMembership;
    var t := s.(attempts := Freeze(s.attempts, a, members));
    FreezeRegistry(s, a, members);
    FreezePending(s.attempts, s.outcomes, a, members);
    assert t.attempts.Keys == s.attempts.Keys;
    Rearranged(s, t);
  }

  lemma {:induction false} CloseKeeps(s: Source, a: nat, members: seq<Member>)
    requires Inv(s)
    ensures Inv(Close(s, a, members).0) && Fixed(s, Close(s, a, members).0)
  {
    hide Inv, Core, Pending, Fixed, Reclaim, ExactMembership, CancelAll;
    if a in s.attempts && s.attempts[a].phase == Open {
      if ExactMembership(s, a, members) {
        var t := s.(attempts := Freeze(s.attempts, a, members));
        FreezeKeeps(s, a, members);
        ReclaimKeeps(t, a);
        FixedTwice(s, t, Reclaim(t, a));
      } else {
        DropRegistered(s, a);
      }
    } else {
      FixedSelf(s);
    }
  }

  lemma {:induction false} CancelOpenKeeps(s: Source, a: nat)
    requires Inv(s)
    ensures Inv(CancelOpen(s, a).0) && Fixed(s, CancelOpen(s, a).0)
  {
    hide Core, Pending, CancelAll, Fixed;
    if a in s.attempts && s.attempts[a].phase == Closed {
      DropMembers(s, a);
    } else if a in s.drained {
      Undrain(s, a);
    } else {
      FixedSelf(s);
    }
  }

  lemma {:induction false} Undrain(s: Source, a: nat)
    requires Inv(s)
    ensures Inv(s.(drained := s.drained - {a})) && Fixed(s, s.(drained := s.drained - {a}))
  {
    hide Kept, Numbers, Registry, Homes, Pending, ValidRestart;
    Rearranged(s, s.(drained := s.drained - {a}));
  }

  lemma {:induction false} ClaimKeeps(s: Source, q: Uint64, a: nat, now: GoInt)
    requires Inv(s)
    ensures Inv(Claim(s, q, a, now).0) && Fixed(s, Claim(s, q, a, now).0)
  {
    hide Inv, End, Fixed;
    FixedSelf(s);
    if q in s.live {
      EndKeeps(s, q, Claimed);
      EndKeeps(s, q, Expired);
    }
  }

  lemma {:induction false} FailKeeps(s: Source, q: Uint64)
    requires Inv(s)
    ensures Inv(FailOpen(s, q).0) && Fixed(s, FailOpen(s, q).0)
  {
    hide Inv, End, Fixed;
    FixedSelf(s);
    if q in s.live {
      EndKeeps(s, q, Failed);
    }
  }

  // ---------- Expiry ----------

  ghost predicate Increasing(qs: seq<Uint64>) {
    forall i, j :: 0 <= i < j < |qs| ==> qs[i] < qs[j]
  }

  lemma {:induction false} IncreasingCons(q: Uint64, qs: seq<Uint64>)
    requires Increasing(qs) && forall p :: p in qs ==> q < p
    ensures Increasing([q] + qs)
  {
    var all := [q] + qs;
    forall i, j | 0 <= i < j < |all|
      ensures all[i] < all[j]
    {
      assert all[j] == qs[j - 1] && qs[j - 1] in qs;
      assert i > 0 ==> all[i] == qs[i - 1];
    }
  }

  ghost predicate Expires(s: Source, now: GoInt, t: Source, expired: seq<Uint64>) {
    && Increasing(expired) && (forall q :: q in expired <==> q in Due(s, now)) && t.live == s.live - Due(s, now)
    && (forall q :: q in Due(s, now) ==> q in t.outcomes && t.outcomes[q] == Expired)
  }

  lemma {:induction false} ExpiresStep(s: Source, now: GoInt, q: Uint64, m: Source, t: Source, rest: seq<Uint64>)
    requires q in Due(s, now) && (forall p :: p in Due(s, now) ==> q <= p) && m.live == s.live - {q} && m.outcomes == s.outcomes[q := Expired]
    requires Expires(m, now, t, rest) && Fixed(m, t)
    ensures Expires(s, now, t, [q] + rest)
  {
    assert Due(m, now) == Due(s, now) - {q};
    IncreasingCons(q, rest);
    assert m.live - Due(m, now) == s.live - Due(s, now);
  }

  /** Expiry ends, having expired exactly what was due, in the order of the sequence numbers. */
  lemma {:induction false} ExpiryExact(s: Source, now: GoInt)
    requires Inv(s)
    ensures Inv(ExpireOpen(s, now).0) && Fixed(s, ExpireOpen(s, now).0)
    ensures Expires(s, now, ExpireOpen(s, now).0, ExpireOpen(s, now).1)
    decreases |s.live|
  {
    hide Inv, End, Fixed, Expires;
    var due := Due(s, now);
    if due == {} {
      NoneExpires(s, now);
      FixedSelf(s);
    } else {
      var q := Least(due);
      EndKeeps(s, q, Expired);
      ShrinkLive(s, q);
      var m := End(s, q, Expired);
      ExpiryExact(m, now);
      var (t, rest) := ExpireOpen(m, now);
      FixedTwice(s, m, t);
      ExpiresStep(s, now, q, m, t, rest);
    }
  }

  lemma {:induction false} NoneExpires(s: Source, now: GoInt)
    requires Due(s, now) == {}
    ensures Expires(s, now, s, [])
  {
    assert s.live - Due(s, now) == s.live;
  }

  // ---------- Export ----------

  lemma {:induction false} DropEmptyKeeps(s: Source)
    requires Inv(s)
    ensures Inv(DropEmpty(s)) && Fixed(s, DropEmpty(s))
  {
    hide Kept, Numbers, ValidRestart, Fixed, Sound;
    var t := DropEmpty(s);
    FewerKeys(s.attempts.Keys, t.attempts.Keys);
    Rearranged(s, t);
  }

  lemma {:induction false} FewerKeys(more: set<nat>, less: set<nat>)
    requires less <= more
    ensures |less| <= |more|
  {
    assert less + (more - less) == more && less * (more - less) == {};
  }

  lemma {:induction false} ExportKeeps(s: Source)
    requires Inv(s)
    ensures Inv(Export(s).0) && Fixed(s, Export(s).0)
  {
    hide Inv, Fixed;
    FixedSelf(s);
    if !s.retired {
      DropEmptyKeeps(s);
      var t := DropEmpty(s);
      if t.live == map[] && t.attempts == map[] {
        RetireKeeps(t);
        FixedTwice(s, t, Export(s).0);
      }
    }
  }

  lemma {:induction false} RetireKeeps(s: Source)
    requires Inv(s) && s.live == map[] && s.attempts == map[]
    ensures Inv(s.(drained := {}, retired := true)) && Fixed(s, s.(drained := {}, retired := true))
  {
    hide Kept, Numbers, ValidRestart, Fixed;
    Rearranged(s, s.(drained := {}, retired := true));
  }

  /** Whatever a source exports, a source with the same limits accepts. */
  lemma {:induction false} ExportIsValid(s: Source)
    requires Inv(s) && Export(s).1.Some?
    ensures ValidRestart(s.limits, Export(s).1.value)
    ensures After(Export(s).1.value.next) == Bound(s)
  {
    var ts := s.tombstones;
    forall i | 0 <= i < |ts|
      ensures 0 < ts[i].sequence < Bound(s)
    {
      TombstoneBelow(s, ts[i]);
    }
    hide Numbers, Registry, Homes, Pending, Sizes;
  }

  lemma {:induction false} TombstoneBelow(s: Source, t: Tombstone)
    requires Inv(s) && t in s.tombstones
    ensures 0 < t.sequence < Bound(s)
  {
    hide Retained, Registry, Homes, Pending, Sizes, ValidRestart;
    if t in s.restart.tombstones {
      RestoredBelow(s.limits, s.restart, t);
    } else {
      assert t.sequence in s.issued;
    }
  }

  // ---------- Runs ----------

  datatype Op =
    | DoBegin(key: string, valid: bool)
    | DoIssue(attempt: nat, ordinal: nat, view: nat, eligible: bool, now: GoInt)
    | DoClose(attempt: nat, members: seq<Member>)
    | DoClaim(capability: Uint64, attempt: nat, now: GoInt)
    | DoCancel(attempt: nat)
    | DoFail(capability: Uint64)
    | DoExpire(now: GoInt)
    | DoExport

  ghost function Step(s: Source, op: Op): Source
    requires s.lifetime > 0
  {
    match op
    case DoBegin(key, valid) => Begin(s, key, valid).0
    case DoIssue(a, ordinal, view, eligible, now) => Issue(s, a, ordinal, view, eligible, now).0
    case DoClose(a, members) => Close(s, a, members).0
    case DoClaim(q, a, now) => Claim(s, q, a, now).0
    case DoCancel(a) => CancelOpen(s, a).0
    case DoFail(q) => FailOpen(s, q).0
    case DoExpire(now) => ExpireOpen(s, now).0
    case DoExport => Export(s).0
  }

  lemma {:induction false} StepKeeps(s: Source, op: Op)
    requires Inv(s)
    ensures Inv(Step(s, op)) && Fixed(s, Step(s, op))
  {
    hide Core, Pending, Fixed, Begin, Issue, Close, Claim, CancelOpen, FailOpen, ExpireOpen, Export;
    match op
    case DoBegin(key, valid) => BeginKeeps(s, key, valid);
    case DoIssue(a, ordinal, view, eligible, now) => IssueKeeps(s, a, ordinal, view, eligible, now);
    case DoClose(a, members) => CloseKeeps(s, a, members);
    case DoClaim(q, a, now) => ClaimKeeps(s, q, a, now);
    case DoCancel(a) => CancelOpenKeeps(s, a);
    case DoFail(q) => FailKeeps(s, q);
    case DoExpire(now) => ExpiryExact(s, now);
    case DoExport => ExportKeeps(s);
  }

  ghost function Run(s: Source, ops: seq<Op>): Source
    requires Inv(s)
    decreases |ops|
  {
    if ops == [] then s
    else
      StepKeeps(s, ops[0]);
      Run(Step(s, ops[0]), ops[1..])
  }

  lemma {:induction false} Positive(s: Source)
    requires Inv(s)
    ensures s.lifetime > 0
  {
  }

  /** Over any run: numbers are never taken back and an outcome never changes. */
  lemma {:induction false} RunKeeps(s: Source, ops: seq<Op>)
    requires Inv(s)
    ensures Inv(Run(s, ops)) && Fixed(s, Run(s, ops))
    decreases |ops|
  {
    hide Core, Pending, Fixed, Begin, Issue, Close, Claim, CancelOpen, FailOpen, ExpireOpen, Export;
    Positive(s);
    FixedSelf(s);
    if ops != [] {
      StepKeeps(s, ops[0]);
      RunKeeps(Step(s, ops[0]), ops[1..]);
      FixedTwice(s, Step(s, ops[0]), Run(Step(s, ops[0]), ops[1..]));
    }
  }

  /** How often a run wins the claim of one capability. */
  ghost function Wins(s: Source, ops: seq<Op>, q: Uint64): nat
    requires Inv(s)
    decreases |ops|
  {
    if ops == [] then 0
    else
      StepKeeps(s, ops[0]);
      var won := ops[0].DoClaim? && ops[0].capability == q && Claim(s, q, ops[0].attempt, ops[0].now).1 == Won;
      (if won then 1 else 0) + Wins(Step(s, ops[0]), ops[1..], q)
  }

  lemma {:induction false} WinEnds(s: Source, q: Uint64, a: nat, now: GoInt)
    requires Inv(s) && Claim(s, q, a, now).1 == Won
    ensures q !in s.outcomes && q in Claim(s, q, a, now).0.outcomes && Claim(s, q, a, now).0.outcomes[q] == Claimed
  {
    hide Core, Pending, End;
    EndKeeps(s, q, Claimed);
  }

  lemma {:induction false} NoWinAfterwards(s: Source, ops: seq<Op>, q: Uint64)
    requires Inv(s) && q in s.outcomes
    ensures Wins(s, ops, q) == 0
    decreases |ops|
  {
    hide Core, Pending, Claim;
    Positive(s);
    if ops != [] {
      StepKeeps(s, ops[0]);
      if ops[0].DoClaim? && ops[0].capability == q && Claim(s, q, ops[0].attempt, ops[0].now).1 == Won {
        WinEnds(s, q, ops[0].attempt, ops[0].now);
      }
      NoWinAfterwards(Step(s, ops[0]), ops[1..], q);
    }
  }

  /** At most one claim wins, however often and through however many copies a capability is claimed. */
  lemma {:induction false} ClaimedAtMostOnce(s: Source, ops: seq<Op>, q: Uint64)
    requires Inv(s)
    ensures Wins(s, ops, q) <= 1
    decreases |ops|
  {
    hide Core, Pending, Claim;
    Positive(s);
    if ops != [] {
      StepKeeps(s, ops[0]);
      var won := ops[0].DoClaim? && ops[0].capability == q && Claim(s, q, ops[0].attempt, ops[0].now).1 == Won;
      if won {
        WinEnds(s, q, ops[0].attempt, ops[0].now);
        NoWinAfterwards(Step(s, ops[0]), ops[1..], q);
      } else {
        ClaimedAtMostOnce(Step(s, ops[0]), ops[1..], q);
      }
    }
  }

  /** In every reachable state, a closed attempt consists of the capabilities issued for its ordinals from zero up. */
  lemma {:induction false} ClosedIsExact(l: Limits, lifetime: GoInt, r: Restart, ops: seq<Op>, a: nat)
    requires ValidLimits(l) && lifetime > 0 && ValidRestart(l, r)
    ensures Inv(Start(l, lifetime, r))
    ensures var s := Run(Start(l, lifetime, r), ops);
            a in s.attempts && s.attempts[a].phase == Closed ==>
              var attempt := s.attempts[a];
              && Frozen(attempt)
              && forall i :: 0 <= i < |attempt.members| ==>
                   attempt.members[i] in s.issued && s.issued[attempt.members[i]] == Place(a, i)
  {
    StartInv(l, lifetime, r);
    hide Numbers, Kept, Pending, Run, Homes, Sizes, ValidRestart;
    RunKeeps(Start(l, lifetime, r), ops);
    var s := Run(Start(l, lifetime, r), ops);
    if a in s.attempts {
      assert Sound(s.issued, a, s.attempts[a], s.limits.maxMembers);
    }
  }

  /** In every reachable state the record is sorted and holds the latest of all that ended, restored ones included. */
  lemma {:induction false} RecordIsLatest(l: Limits, lifetime: GoInt, r: Restart, ops: seq<Op>)
    requires ValidLimits(l) && lifetime > 0 && ValidRestart(l, r)
    ensures Inv(Start(l, lifetime, r))
    ensures var s := Run(Start(l, lifetime, r), ops); Retained(s.tombstones, Sequences(r.tombstones) + s.outcomes.Keys, l.tombstones)
  {
    StartInv(l, lifetime, r);
    hide Numbers, Pending, Run, Retained;
    RunKeeps(Start(l, lifetime, r), ops);
  }

  /** In every reachable state the reserved numbers are an interval, each live or ended but not both. */
  lemma {:induction false} ReservedOnce(l: Limits, lifetime: GoInt, r: Restart, ops: seq<Op>)
    requires ValidLimits(l) && lifetime > 0 && ValidRestart(l, r)
    ensures Inv(Start(l, lifetime, r))
    ensures var s := Run(Start(l, lifetime, r), ops);
            && (forall q :: q in s.issued <==> After(r.next) <= q < Bound(s))
            && (forall q :: q in s.issued <==> q in s.live || q in s.outcomes)
            && (forall q :: !(q in s.live && q in s.outcomes))
  {
    StartInv(l, lifetime, r);
    hide Kept, Pending, Run, Retained, Registry;
    RunKeeps(Start(l, lifetime, r), ops);
  }

  // ---------- Chains of restarts ----------

  /** The numbers reserved in each incarnation of a chain in which every source starts from its predecessor's export. */
  ghost function Chain(l: Limits, lifetime: GoInt, r: Restart, runs: seq<seq<Op>>): seq<set<Uint64>>
    requires ValidLimits(l) && lifetime > 0 && ValidRestart(l, r)
    decreases |runs|
  {
    if runs == [] then []
    else
      StartInv(l, lifetime, r);
      var s := Run(Start(l, lifetime, r), runs[0]);
      RunKeeps(Start(l, lifetime, r), runs[0]);
      var exported := Export(s).1;
      if exported.None? then [s.issued.Keys]
      else
        ExportIsValid(s);
        [s.issued.Keys] + Chain(l, lifetime, exported.value, runs[1..])
  }

  /** One link: the first incarnation stays in its interval, and the rest of the chain starts where that ends. */
  lemma {:induction false} ChainLink(l: Limits, lifetime: GoInt, r: Restart, runs: seq<seq<Op>>) returns (bound: nat, rest: seq<set<Uint64>>, next: Restart)
    requires ValidLimits(l) && lifetime > 0 && ValidRestart(l, r) && runs != []
    ensures |Chain(l, lifetime, r, runs)| > 0 && After(r.next) <= bound
    ensures forall q :: q in Chain(l, lifetime, r, runs)[0] ==> After(r.next) <= q < bound
    ensures Chain(l, lifetime, r, runs)[1..] == rest
    ensures rest == [] || (ValidRestart(l, next) && After(next.next) == bound && rest == Chain(l, lifetime, next, runs[1..]))
  {
    hide ValidRestart, ValidLimits, Run, Export, Inv;
    StartInv(l, lifetime, r);
    var start := Start(l, lifetime, r);
    RunKeeps(start, runs[0]);
    var s := Run(start, runs[0]);
    IssuedInside(s);
    bound := Bound(s);
    var exported := Export(s).1;
    if exported.Some? {
      ExportIsValid(s);
      next := exported.value;
      rest := Chain(l, lifetime, next, runs[1..]);
    } else {
      rest, next := [], r;
    }
  }

  lemma {:induction false} IssuedInside(s: Source)
    requires Inv(s)
    ensures First(s) <= Bound(s) && forall q :: q in s.issued ==> First(s) <= q < Bound(s)
  {
  }

  ghost predicate Above(sets: seq<set<Uint64>>, floor: nat) {
    forall i, q :: 0 <= i < |sets| && q in sets[i] ==> floor <= q
  }

  lemma {:induction false} AboveCons(sets: seq<set<Uint64>>, floor: nat, bound: nat)
    requires sets != [] && (forall q :: q in sets[0] ==> floor <= q) && Above(sets[1..], bound) && floor <= bound
    ensures Above(sets, floor)
  {
    forall i, q | 0 <= i < |sets| && q in sets[i]
      ensures floor <= q
    {
      assert i > 0 ==> sets[i] == sets[1..][i - 1];
    }
  }

  lemma {:induction false} ChainAbove(l: Limits, lifetime: GoInt, r: Restart, runs: seq<seq<Op>>)
    requires ValidLimits(l) && lifetime > 0 && ValidRestart(l, r)
    ensures Above(Chain(l, lifetime, r, runs), After(r.next))
    decreases |runs|
  {
    if runs != [] {
      var bound, rest, next := ChainLink(l, lifetime, r, runs);
      hide Chain, ValidRestart, ValidLimits, Above;
      if rest == [] {
        NoneAbove(bound);
      } else {
        ChainAbove(l, lifetime, next, runs[1..]);
      }
      AboveCons(Chain(l, lifetime, r, runs), After(r.next), bound);
    }
  }

  lemma {:induction false} NoneAbove(floor: nat)
    ensures Above([], floor)
  {
  }

  ghost predicate Apart(sets: seq<set<Uint64>>) {
    forall i, j :: 0 <= i < j < |sets| ==> sets[i] !! sets[j]
  }

  lemma {:induction false} ApartCons(sets: seq<set<Uint64>>, bound: nat)
    requires sets != [] && (forall q :: q in sets[0] ==> q < bound) && Above(sets[1..], bound) && Apart(sets[1..])
    ensures Apart(sets)
  {
    forall i, j | 0 <= i < j < |sets|
      ensures sets[i] !! sets[j]
    {
      assert sets[j] == sets[1..][j - 1];
      assert i > 0 ==> sets[i] == sets[1..][i - 1];
    }
  }

  /** Across any chain of exports and restores, no sequence number is ever used twice. */
  lemma {:induction false} ChainNeverReuses(l: Limits, lifetime: GoInt, r: Restart, runs: seq<seq<Op>>)
    requires ValidLimits(l) && lifetime > 0 && ValidRestart(l, r)
    ensures Apart(Chain(l, lifetime, r, runs))
    decreases |runs|
  {
    if runs != [] {
      var bound, rest, next := ChainLink(l, lifetime, r, runs);
      hide Chain, ValidRestart, ValidLimits;
      if rest != [] {
        ChainAbove(l, lifetime, next, runs[1..]);
        ChainNeverReuses(l, lifetime, next, runs[1..]);
      }
      ApartCons(Chain(l, lifetime, r, runs), bound);
    }
  }
}
