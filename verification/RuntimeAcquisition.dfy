/** The acquisition source as the program runs it. A token is a number, its contents are maps. */
module RuntimeAcquisitions {
  import opened Common
  import opened AcquisitionModel
  import opened Tombstones
  import Acquisition
  import opened Cancellation

  /** Entry by entry against its predecessor, as the source walks the list. */
  method ValidateRestart(l: Limits, r: Restart) returns (ok: bool)
    ensures ok == ValidRestart(l, r)
  {
    if |r.tombstones| > l.tombstones || (r.exhausted && r.next != 0) || (!r.exhausted && r.next == 0) {
      return false;
    }
    var previous: Uint64 := 0;
    for i := 0 to |r.tombstones|
      invariant i > 0 ==> previous == r.tombstones[i - 1].sequence
      invariant i == 0 ==> previous == 0
      invariant forall k :: 0 <= k < i ==> 0 < r.tombstones[k].sequence <= previous
      invariant forall j, k :: 0 <= j < k < i ==> r.tombstones[j].sequence < r.tombstones[k].sequence
    {
      var t := r.tombstones[i];
      if t.sequence == 0 || (i > 0 && t.sequence <= previous) {
        return false;
      }
      previous := t.sequence;
    }
    return r.exhausted || previous < r.next;
  }

  method NamesOf(members: seq<Member>) returns (names: seq<Uint64>)
    ensures names == Names(members)
  {
    names := [];
    for i := 0 to |members|
      invariant |names| == i && forall k :: 0 <= k < i ==> names[k] == members[k].capability
    {
      names := names + [members[i].capability];
    }
  }

  class RuntimeAcquisitionSource {
    const limits: Limits
    const lifetime: GoInt
    ghost const restart: Restart
    var attempts: map<nat, Attempt>
    var drained: set<nat>
    var live: map<Uint64, Capability>
    var tombstones: seq<Tombstone>
    var next: Uint64
    var retired: bool
    var issued: map<Uint64, Place>
    var outcomes: map<Uint64, Outcome>
    var views: set<nat>
    var begun: nat

    ghost function View(): Source
      reads this
    {
      Source(limits, lifetime, restart, attempts, drained, live, tombstones, next, retired, issued, outcomes, views, begun)
    }

    ghost predicate Valid()
      reads this
    {
      Acquisition.Inv(View())
    }

    constructor (l: Limits, lifetime: GoInt, r: Option<Restart>)
      requires ValidLimits(l) && lifetime > 0 && (r.Some? ==> ValidRestart(l, r.value))
      ensures Valid() && View() == Start(l, lifetime, Initial(r))
    {
      limits, this.lifetime, restart := l, lifetime, Initial(r);
      attempts, drained, live, tombstones, next, retired := map[], {}, map[], [], 1, false;
      issued, outcomes, views, begun := map[], map[], {}, 0;
      if r.Some? {
        tombstones, next := r.value.tombstones, r.value.next;
      }
      new;
      Acquisition.StartInv(l, lifetime, Initial(r));
    }

    // ---------- Ending ----------

    /** A binary search for the first greater sequence number. */
    method Search(q: Uint64) returns (i: nat)
      requires Sorted(tombstones)
      ensures i == Position(tombstones, q)
    {
      var lo, hi := 0, |tombstones|;
      while lo < hi
        invariant 0 <= lo <= hi <= |tombstones|
        invariant forall k :: 0 <= k < lo ==> tombstones[k].sequence <= q
        invariant forall k :: hi <= k < |tombstones| ==> tombstones[k].sequence > q
      {
        var mid := (lo + hi) / 2;
        if tombstones[mid].sequence > q {
          hi := mid;
        } else {
          lo := mid + 1;
        }
      }
      PositionIs(tombstones, q, lo);
      return lo;
    }

    method TerminalizeLocked(q: Uint64, o: Outcome)
      requires Sorted(tombstones)
      modifies this
      ensures View() == Terminalize(old(View()), q, o)
    {
      outcomes, live := outcomes[q := o], live - {q};
      var i := Search(q);
      tombstones := tombstones[..i] + [Tombstone(q, o)] + tombstones[i..];
      if |tombstones| > limits.tombstones {
        tombstones := tombstones[1..];
      }
    }

    method ReclaimIfTerminal(a: nat)
      modifies this
      ensures View() == Reclaim(old(View()), a)
    {
      if a !in attempts || attempts[a].phase != Closed {
        return;
      }
      var members := attempts[a].members;
      for i := 0 to |members|
        invariant View() == old(View())
        invariant forall k :: 0 <= k < i ==> members[k] in outcomes
      {
        if members[i] !in outcomes {
          return;
        }
      }
      attempts, drained := attempts - {a}, drained + {a};
    }

    method EndLocked(q: Uint64, o: Outcome)
      requires Valid() && q in live
      modifies this
      ensures Valid() && View() == End(old(View()), q, o)
    {
      hide Acquisition.Inv, Acquisition.Core, Reclaim, Terminalize;
      Acquisition.EndKeeps(View(), q, o);
      Acquisition.InvIsCore(View());
      var a := live[q].attempt;
      TerminalizeLocked(q, o);
      ReclaimIfTerminal(a);
    }

    // ---------- Attempts ----------

    /** `valid` says that the key is a non-empty well-formed string within its bound. */
    method BeginAttempt(key: string, valid: bool) returns (attempt: Option<nat>)
      requires Valid()
      modifies this
      ensures Valid() && (View(), attempt) == Begin(old(View()), key, valid)
    {
      Acquisition.BeginKeeps(View(), key, valid);
      hide Acquisition.Inv, Acquisition.Fixed;
      if !valid || retired || |attempts| + |drained| >= limits.maxAttempts {
        return None;
      }
      attempts, begun, attempt := attempts[begun := Attempt(key, Open, map[], [])], begun + 1, Some(begun);
    }

    method ReserveSequence() returns (q: Option<Uint64>)
      modifies this`next
      ensures old(next) == 0 ==> q == None && next == 0
      ensures old(next) != 0 ==> q == Some(old(next)) && next == if old(next) == MAX_UINT64 then 0 else old(next) + 1
    {
      if next == 0 {
        return None;
      }
      q := Some(next);
      next := if next == MAX_UINT64 then 0 else next + 1;
    }

    method CanIssue(a: nat, ordinal: nat, now: GoInt) returns (ok: bool)
      ensures next != 0 ==> ok == Issuable(View(), a, ordinal, now)
      ensures next == 0 ==> !Issuable(View(), a, ordinal, now)
      ensures ok ==> a in attempts && now + lifetime <= MAX_INT && now >= 0
    {
      if now < 0 || lifetime > MAX_INT - now {
        return false;
      }
      if retired || a !in attempts || attempts[a].phase != Open {
        return false;
      }
      if ordinal >= limits.maxMembers || ordinal in attempts[a].registered {
        return false;
      }
      return |attempts[a].registered| < limits.maxMembers && |live| < limits.maxLive;
    }

    method Issue(a: nat, ordinal: nat, view: nat, eligible: bool, now: GoInt) returns (issuedAs: Option<Uint64>)
      requires Valid()
      modifies this
      ensures Valid() && lifetime > 0 && (View(), issuedAs) == AcquisitionModel.Issue(old(View()), a, ordinal, view, eligible, now)
    {
      Acquisition.IssueKeeps(View(), a, ordinal, view, eligible, now);
      Acquisition.InvIsCore(View());
      hide Acquisition.Inv, Acquisition.Fixed, Acquisition.Core, Acquisition.Pending, Issuable, Sorted;
      if !eligible || view in views {
        return None;
      }
      issuedAs := Spend(a, ordinal, view, now);
    }

    /** The view is used up whether or not a capability comes of it. */
    method Spend(a: nat, ordinal: nat, view: nat, now: GoInt) returns (issuedAs: Option<Uint64>)
      requires view !in views && lifetime > 0
      modifies this
      ensures lifetime > 0 && (View(), issuedAs) == AcquisitionModel.Issue(old(View()), a, ordinal, view, true, now)
    {
      hide Issuable;
      var ok := CanIssue(a, ordinal, now);
      views := views + {view};
      if !ok {
        return None;
      }
      issuedAs := ReserveSequence();
      if issuedAs.None? {
        return None;
      }
      Register(a, ordinal, issuedAs.value, now + lifetime);
    }

    method Register(a: nat, ordinal: nat, q: Uint64, deadline: GoInt)
      requires a in attempts
      modifies this`live, this`issued, this`attempts
      ensures live == old(live)[q := Capability(a, deadline)] && issued == old(issued)[q := Place(a, ordinal)]
      ensures attempts == old(attempts)[a := old(attempts)[a].(registered := old(attempts)[a].registered[ordinal := q])]
    {
      live, issued := live[q := Capability(a, deadline)], issued[q := Place(a, ordinal)];
      attempts := attempts[a := attempts[a].(registered := attempts[a].registered[ordinal := q])];
    }

    method MembershipIsExact(a: nat, members: seq<Member>) returns (exact: bool)
      requires Valid() && a in attempts
      ensures exact == ExactMembership(View(), a, members)
    {
      hide Acquisition.Inv;
      if |members| == 0 || |members| != |attempts[a].registered| || |members| > limits.maxMembers {
        return false;
      }
      var registered, seen := attempts[a].registered, {};
      for i := 0 to |members|
        invariant forall k :: 0 <= k < i ==> ExactAt(View(), a, members, k)
        invariant forall q :: q in seen ==> exists k :: 0 <= k < i && members[k].capability == q
      {
        var q := members[i].capability;
        LivePlace(View(), q);
        if i !in registered || q != registered[i] || q !in issued || issued[q].ordinal != i || (q !in live && q !in outcomes)
           || (q in live && live[q].attempt != a) || issued[q].attempt != a || members[i].key != attempts[a].key
        {
          assert !ExactAt(View(), a, members, i);
          return false;
        }
        forall k | 0 <= k < i
          ensures members[k].capability != q
        {
          assert ExactAt(View(), a, members, k);
        }
        if q in seen {
          assert false;
        }
        seen := seen + {q};
      }
      return true;
    }

    method CancelEach(a: nat, all: set<Uint64>)
      requires Valid() && forall q :: q in all && q in live ==> live[q].attempt == a
      modifies this
      ensures View() == CancelAll(old(View()), all)
    {
      ghost var s := View();
      hide Acquisition.Inv, Cancelling, CancelAll, Terminalize;
      CancellingStarts(s, a);
      var todo := all;
      assert all - todo == {};
      while todo != {}
        invariant todo <= all
        invariant Cancelling(s, a, all - todo, View()) && Sorted(tombstones)
        decreases |todo|
      {
        var q :| q in todo;
        CancellingGoesOn(s, a, all - todo, View(), q);
        assert all - todo + {q} == all - (todo - {q});
        if q in live {
          TerminalizeLocked(q, Cancelled);
        }
        todo := todo - {q};
      }
      assert all - todo == all;
      CancellingEnds(s, a, all, View());
    }

    method Close(a: nat, members: seq<Member>) returns (closed: bool)
      requires Valid()
      modifies this
      ensures Valid() && (View(), closed) == AcquisitionModel.Close(old(View()), a, members)
    {
      Acquisition.CloseKeeps(View(), a, members);
      hide Acquisition.Inv, Acquisition.Fixed, CancelAll, ExactMembership, Reclaim;
      if a !in attempts || attempts[a].phase != Open {
        return false;
      }
      var exact := MembershipIsExact(a, members);
      if !exact {
        RegisteredHere(View(), a);
        CancelEach(a, attempts[a].registered.Values);
        attempts := attempts - {a};
        return false;
      }
      var names := NamesOf(members);
      attempts := attempts[a := attempts[a].(phase := Closed, members := names)];
      ReclaimIfTerminal(a);
      return true;
    }

    // ---------- Claims ----------

    method Contains(a: nat, q: Uint64) returns (found: bool)
      requires a in attempts
      ensures found == (q in attempts[a].members)
    {
      var members := attempts[a].members;
      for i := 0 to |members|
        invariant q !in members[..i]
      {
        if members[i] == q {
          return true;
        }
        assert members[..i + 1] == members[..i] + [members[i]];
      }
      assert members[..|members|] == members;
      return false;
    }

    method Claim(q: Uint64, a: nat, now: GoInt) returns (answer: Answer)
      requires Valid()
      modifies this
      ensures Valid() && (View(), answer) == AcquisitionModel.Claim(old(View()), q, a, now)
    {
      hide Acquisition.Inv, End;
      if q !in issued || issued[q].attempt != a {
        return Refused;
      }
      if q !in live {
        return if q in outcomes then Observed(outcomes[q]) else Refused;
      }
      if a !in attempts || attempts[a].phase != Closed || live[q].attempt != a {
        return Refused;
      }
      var found := Contains(a, q);
      if !found {
        return Refused;
      }
      if now >= live[q].deadline {
        EndLocked(q, Expired);
        return Observed(Expired);
      }
      EndLocked(q, Claimed);
      return Won;
    }

    method CancelOpen(a: nat) returns (cancelled: bool)
      requires Valid()
      modifies this
      ensures Valid() && (View(), cancelled) == AcquisitionModel.CancelOpen(old(View()), a)
    {
      hide Acquisition.Inv, Acquisition.Fixed, CancelAll, MemberSet;
      Acquisition.CancelOpenKeeps(View(), a);
      if a !in attempts {
        if a !in drained {
          return false;
        }
        drained := drained - {a};
        return true;
      }
      if attempts[a].phase != Closed {
        NotDrained(View(), a);
        return false;
      }
      CancelClosed(a);
      return true;
    }

    method CancelClosed(a: nat)
      requires Valid() && a in attempts && attempts[a].phase == Closed
      modifies this
      ensures View() == AcquisitionModel.CancelOpen(old(View()), a).0
    {
      hide Acquisition.Inv, CancelAll;
      CancelMembers(a);
      attempts := attempts - {a};
    }

    method CancelMembers(a: nat)
      requires Valid() && a in attempts && attempts[a].phase == Closed
      modifies this
      ensures View() == CancelAll(old(View()), MemberSet(old(attempts[a].members)))
    {
      ghost var s := View();
      var members := attempts[a].members;
      MembersHere(s, a);
      hide Acquisition.Inv, Cancelling, CancelAll, Terminalize;
      CancellingStarts(s, a);
      assert MemberSet(members[..0]) == {};
      for i := 0 to |members|
        invariant Cancelling(s, a, MemberSet(members[..i]), View()) && Sorted(tombstones)
      {
        var q := members[i];
        assert q in MemberSet(members);
        CancellingGoesOn(s, a, MemberSet(members[..i]), View(), q);
        MemberSetAppend(members, i);
        if q in live {
          TerminalizeLocked(q, Cancelled);
        }
      }
      assert members[..|members|] == members;
      CancellingEnds(s, a, MemberSet(members), View());
    }

    method FailOpen(q: Uint64) returns (outcome: Option<Outcome>)
      requires Valid()
      modifies this
      ensures Valid() && (View(), outcome) == AcquisitionModel.FailOpen(old(View()), q)
    {
      hide Acquisition.Inv, End;
      if q !in live {
        return if q in outcomes then Some(outcomes[q]) else None;
      }
      EndLocked(q, Failed);
      return Some(Failed);
    }

    // ---------- Expiry ----------

    /** One walk over the live capabilities, in any order, for the earliest that is due. */
    method EarliestDue(now: GoInt) returns (candidate: Option<Uint64>)
      ensures candidate.None? <==> Due(View(), now) == {}
      ensures candidate.Some? ==> candidate.value == Least(Due(View(), now))
    {
      candidate := None;
      var left := live.Keys;
      while left != {}
        invariant left <= live.Keys
        invariant candidate.Some? ==> candidate.value in live && live[candidate.value].deadline <= now
        invariant forall q :: q in live && q !in left && live[q].deadline <= now ==> candidate.Some? && candidate.value <= q
        decreases |left|
      {
        var q :| q in left;
        left := left - {q};
        if live[q].deadline > now || (candidate.Some? && candidate.value < q) {
          continue;
        }
        candidate := Some(q);
      }
      if candidate.Some? {
        assert candidate.value in Due(View(), now);
      }
    }

    method ExpireOpen(now: GoInt) returns (expired: nat)
      requires Valid()
      modifies this
      ensures Valid() && View() == AcquisitionModel.ExpireOpen(old(View()), now).0
      ensures expired == |AcquisitionModel.ExpireOpen(old(View()), now).1|
    {
      hide Acquisition.Inv, End, Least;
      expired := 0;
      while true
        invariant Valid()
        invariant AcquisitionModel.ExpireOpen(View(), now).0 == AcquisitionModel.ExpireOpen(old(View()), now).0
        invariant expired + |AcquisitionModel.ExpireOpen(View(), now).1| == |AcquisitionModel.ExpireOpen(old(View()), now).1|
        decreases |live|
      {
        var candidate := EarliestDue(now);
        if candidate.None? {
          return;
        }
        ShrinkLive(View(), candidate.value);
        EndLocked(candidate.value, Expired);
        expired := expired + 1;
      }
    }

    // ---------- Restart ----------

    method DropEmptyAttempts()
      modifies this`attempts
      ensures View() == DropEmpty(old(View()))
    {
      var left := attempts.Keys;
      while left != {}
        invariant left <= attempts.Keys
        invariant attempts == map a | a in old(attempts) && (a in left || old(attempts)[a].registered != map[]) :: old(attempts)[a]
        decreases |left|
      {
        var a :| a in left;
        left := left - {a};
        if |attempts[a].registered| == 0 {
          attempts := attempts - {a};
        }
      }
    }

    method ExportRestartState() returns (exported: Option<Restart>)
      requires Valid()
      modifies this
      ensures Valid() && (View(), exported) == Export(old(View()))
    {
      Acquisition.ExportKeeps(View());
      hide Acquisition.Inv, Acquisition.Fixed, DropEmpty;
      if retired {
        return None;
      }
      DropEmptyAttempts();
      if |live| != 0 || |attempts| != 0 {
        return None;
      }
      drained, exported, retired := {}, Some(Restart(next, next == 0, tombstones)), true;
    }
  }

  lemma {:induction false} LivePlace(s: Source, q: Uint64)
    requires Acquisition.Inv(s)
    ensures q in s.live ==> q in s.issued && s.live[q].attempt == s.issued[q].attempt
  {
    assert q in s.live ==> Acquisition.Home(s.issued, s.attempts, q, s.live[q].attempt);
  }

  lemma {:induction false} RegisteredHere(s: Source, a: nat)
    requires Acquisition.Inv(s) && a in s.attempts
    ensures forall q :: q in s.attempts[a].registered.Values && q in s.live ==> s.live[q].attempt == a
  {
    hide Acquisition.Core, Acquisition.Pending;
    var registered := s.attempts[a].registered;
    forall q | q in registered.Values && q in s.live
      ensures s.live[q].attempt == a
    {
      var o :| o in registered && registered[o] == q;
      Acquisition.RegisteredHere(s, a, o);
    }
  }

  lemma {:induction false} MemberSetAppend(members: seq<Uint64>, i: nat)
    requires i < |members|
    ensures MemberSet(members[..i + 1]) == MemberSet(members[..i]) + {members[i]}
  {
    var more, less := members[..i + 1], members[..i];
    forall q
      ensures q in MemberSet(more) <==> q in MemberSet(less) || q == members[i]
    {
      if q in MemberSet(less) {
        var k :| 0 <= k < |less| && less[k] == q;
        assert more[k] == q;
      }
      if q == members[i] {
        assert more[i] == q;
      }
    }
  }

  lemma {:induction false} MembersHere(s: Source, a: nat)
    requires Acquisition.Inv(s) && a in s.attempts && s.attempts[a].phase == Closed
    ensures forall q :: q in MemberSet(s.attempts[a].members) && q in s.live ==> s.live[q].attempt == a
  {
    var attempt := s.attempts[a];
    assert Acquisition.Sound(s.issued, a, attempt, s.limits.maxMembers);
    hide Acquisition.Core, Acquisition.Pending, Acquisition.Sound;
    forall q | q in MemberSet(attempt.members) && q in s.live
      ensures s.live[q].attempt == a
    {
      var i :| 0 <= i < |attempt.members| && attempt.members[i] == q;
      Acquisition.RegisteredHere(s, a, i);
    }
  }

  lemma {:induction false} NotDrained(s: Source, a: nat)
    requires Acquisition.Inv(s) && a in s.attempts
    ensures a !in s.drained
  {
  }
}
