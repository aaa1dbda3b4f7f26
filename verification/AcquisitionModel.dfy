/** The acquisition source as a value: capabilities claimed once and a bounded record of how they ended. */
module AcquisitionModel {
  import opened Common

  datatype Limits = Limits(maxLive: nat, maxAttempts: nat, maxMembers: nat, tombstones: nat)

  predicate ValidLimits(l: Limits) {
    && 0 < l.maxLive <= 0x1_0000 && 0 < l.maxAttempts <= 0x1_0000 && 0 < l.maxMembers <= 4096
    && 0 < l.tombstones <= 0x1_0000 && l.maxMembers <= l.maxLive
  }

  datatype Outcome = Claimed | Cancelled | Failed | Expired

  datatype Tombstone = Tombstone(sequence: Uint64, outcome: Outcome)

  /** What survives a restart. */
  datatype Restart = Restart(next: Uint64, exhausted: bool, tombstones: seq<Tombstone>)

  predicate Sorted(ts: seq<Tombstone>) {
    forall i, j :: 0 <= i < j < |ts| ==> ts[i].sequence < ts[j].sequence
  }

  predicate ValidRestart(l: Limits, r: Restart) {
    && |r.tombstones| <= l.tombstones && (r.exhausted <==> r.next == 0)
    && (forall i :: 0 <= i < |r.tombstones| ==> r.tombstones[i].sequence != 0) && Sorted(r.tombstones)
    && (!r.exhausted && r.tombstones != [] ==> r.tombstones[|r.tombstones| - 1].sequence < r.next)
  }

  datatype Phase = Open | Closed

  datatype Attempt = Attempt(key: string, phase: Phase, registered: map<nat, Uint64>, members: seq<Uint64>)

  datatype Capability = Capability(attempt: nat, deadline: GoInt)

  /** The place a capability was issued for. */
  datatype Place = Place(attempt: nat, ordinal: nat)

  datatype Source = Source(
    limits: Limits, lifetime: GoInt, restart: Restart, attempts: map<nat, Attempt>, drained: set<nat>, live: map<Uint64, Capability>,
    tombstones: seq<Tombstone>, next: Uint64, retired: bool, issued: map<Uint64, Place>, outcomes: map<Uint64, Outcome>,
    views: set<nat>, begun: nat)

  /** A source that is given no restart state begins at one with an empty record. */
  function Initial(r: Option<Restart>): Restart {
    if r.Some? then r.value else Restart(1, false, [])
  }

  function Start(l: Limits, lifetime: GoInt, r: Restart): Source {
    Source(l, lifetime, r, map[], {}, map[], r.tombstones, r.next, false, map[], map[], {}, 0)
  }

  // ---------- Ending a capability ----------

  /** Where a sequence number belongs in the record. */
  function Position(ts: seq<Tombstone>, q: Uint64): (i: nat)
    ensures i <= |ts|
  {
    if ts == [] || ts[0].sequence > q then 0 else 1 + Position(ts[1..], q)
  }

  function Record(ts: seq<Tombstone>, t: Tombstone, limit: nat): seq<Tombstone> {
    var i := Position(ts, t.sequence);
    var more := ts[..i] + [t] + ts[i..];
    if |more| > limit then more[1..] else more
  }

  function Terminalize(s: Source, q: Uint64, o: Outcome): Source {
    s.(live := s.live - {q}, outcomes := s.outcomes[q := o], tombstones := Record(s.tombstones, Tombstone(q, o), s.limits.tombstones))
  }

  predicate AllTerminal(outcomes: map<Uint64, Outcome>, members: seq<Uint64>) {
    forall i :: 0 <= i < |members| ==> members[i] in outcomes
  }

  /** A closed attempt whose members have all ended is set aside. */
  function Reclaim(s: Source, a: nat): Source {
    if a in s.attempts && s.attempts[a].phase == Closed && AllTerminal(s.outcomes, s.attempts[a].members)
    then s.(attempts := s.attempts - {a}, drained := s.drained + {a})
    else s
  }

  function End(s: Source, q: Uint64, o: Outcome): Source
    requires q in s.live
  {
    Reclaim(Terminalize(s, q, o), s.live[q].attempt)
  }

  ghost function Pick(todo: set<Uint64>): (q: Uint64)
    requires todo != {}
    ensures q in todo
  {
    var q :| q in todo;
    q
  }

  /** Cancels those of the named capabilities that are still live, in any order. */
  ghost function CancelAll(s: Source, todo: set<Uint64>): Source
    decreases |todo|
  {
    if todo == {} then s
    else
      var q := Pick(todo);
      CancelAll(if q in s.live then Terminalize(s, q, Cancelled) else s, todo - {q})
  }

  // ---------- Operations ----------

  function Begin(s: Source, key: string, valid: bool): (Source, Option<nat>) {
    if !valid || s.retired || |s.attempts| + |s.drained| >= s.limits.maxAttempts then (s, None)
    else (s.(attempts := s.attempts[s.begun := Attempt(key, Open, map[], [])], begun := s.begun + 1), Some(s.begun))
  }

  predicate Issuable(s: Source, a: nat, ordinal: nat, now: GoInt) {
    && now >= 0 && s.lifetime <= MAX_INT - now
    && !s.retired && a in s.attempts && s.attempts[a].phase == Open
    && ordinal < s.limits.maxMembers && ordinal !in s.attempts[a].registered
    && |s.attempts[a].registered| < s.limits.maxMembers && |s.live| < s.limits.maxLive
    && s.next != 0
  }

  /** Each eligible view is tried at most once; `eligible` says that it belongs to this source and matches its record. */
  function Issue(s: Source, a: nat, ordinal: nat, view: nat, eligible: bool, now: GoInt): (Source, Option<Uint64>)
    requires 0 < s.lifetime
  {
    if !eligible || view in s.views then (s, None)
    else if !Issuable(s, a, ordinal, now) then (s.(views := s.views + {view}), None)
    else
      var q, attempt := s.next, s.attempts[a];
      (s.(views := s.views + {view}, next := if q == MAX_UINT64 then 0 else q + 1,
          live := s.live[q := Capability(a, now + s.lifetime)], issued := s.issued[q := Place(a, ordinal)],
          attempts := s.attempts[a := attempt.(registered := attempt.registered[ordinal := q])]),
       Some(q))
  }

  datatype Member = Member(capability: Uint64, key: string)

  /** The i-th member is the capability registered for ordinal i of this attempt, live or ended, under the same key. */
  predicate ExactAt(s: Source, a: nat, members: seq<Member>, i: nat)
    requires a in s.attempts && i < |members|
  {
    var attempt := s.attempts[a];
    && i in attempt.registered && members[i].capability == attempt.registered[i] && members[i].key == attempt.key
    && members[i].capability in s.issued && s.issued[members[i].capability] == Place(a, i)
    && (members[i].capability in s.live || members[i].capability in s.outcomes)
  }

  predicate ExactMembership(s: Source, a: nat, members: seq<Member>)
    requires a in s.attempts
  {
    && 0 < |members| == |s.attempts[a].registered| <= s.limits.maxMembers
    && forall i :: 0 <= i < |members| ==> ExactAt(s, a, members, i)
  }

  function Names(members: seq<Member>): (names: seq<Uint64>)
    ensures |names| == |members|
  {
    seq(|members|, i requires 0 <= i < |members| => members[i].capability)
  }

  /** Freezes the member set, or cancels the attempt when it is not exactly what was registered. */
  ghost function Close(s: Source, a: nat, members: seq<Member>): (Source, bool) {
    if a !in s.attempts || s.attempts[a].phase != Open then (s, false)
    else if !ExactMembership(s, a, members) then
      var t := CancelAll(s, s.attempts[a].registered.Values);
      (t.(attempts := t.attempts - {a}), false)
    else (Reclaim(s.(attempts := s.attempts[a := s.attempts[a].(phase := Closed, members := Names(members))]), a), true)
  }

  datatype Answer = Won | Observed(outcome: Outcome) | Refused

  function Claim(s: Source, q: Uint64, a: nat, now: GoInt): (Source, Answer) {
    if q !in s.issued || s.issued[q].attempt != a then (s, Refused)
    else if q !in s.live then (s, if q in s.outcomes then Observed(s.outcomes[q]) else Refused)
    else if a !in s.attempts || s.attempts[a].phase != Closed || s.live[q].attempt != a || q !in s.attempts[a].members then (s, Refused)
    else if now >= s.live[q].deadline then (End(s, q, Expired), Observed(Expired))
    else (End(s, q, Claimed), Won)
  }

  ghost function MemberSet(members: seq<Uint64>): set<Uint64> {
    set i | 0 <= i < |members| :: members[i]
  }

  ghost function CancelOpen(s: Source, a: nat): (Source, bool) {
    if a in s.attempts && s.attempts[a].phase == Closed then
      var t := CancelAll(s, MemberSet(s.attempts[a].members));
      (t.(attempts := t.attempts - {a}), true)
    else if a in s.drained then (s.(drained := s.drained - {a}), true)
    else (s, false)
  }

  function FailOpen(s: Source, q: Uint64): (Source, Option<Outcome>) {
    if q in s.live then (End(s, q, Failed), Some(Failed))
    else if q in s.outcomes then (s, Some(s.outcomes[q]))
    else (s, None)
  }

  // ---------- Expiry ----------

  function Due(s: Source, now: GoInt): set<Uint64> {
    set q | q in s.live && s.live[q].deadline <= now
  }

  ghost function Least(qs: set<Uint64>): (q: Uint64)
    requires qs != {}
    ensures q in qs && forall p :: p in qs ==> q <= p
    decreases |qs|
  {
    var q :| q in qs;
    if qs == {q} then q
    else
      var r := Least(qs - {q});
      assert forall p :: p in qs && p != q ==> p in qs - {q};
      if q < r then q else r
  }

  /** Expires the due capability with the least sequence number, again and again; the list tells the order. */
  ghost function ExpireOpen(s: Source, now: GoInt): (r: (Source, seq<Uint64>))
    decreases |s.live|
  {
    if Due(s, now) == {} then (s, [])
    else
      var q := Least(Due(s, now));
      ShrinkLive(s, q);
      var (t, rest) := ExpireOpen(End(s, q, Expired), now);
      (t, [q] + rest)
  }

  lemma {:induction false} ShrinkLive(s: Source, q: Uint64)
    requires q in s.live
    ensures End(s, q, Expired).live == s.live - {q} && |End(s, q, Expired).live| < |s.live|
  {
    assert (s.live - {q}).Keys == s.live.Keys - {q};
  }

  // ---------- Restart ----------

  function DropEmpty(s: Source): Source {
    s.(attempts := map a | a in s.attempts && s.attempts[a].registered != map[] :: s.attempts[a])
  }

  function Export(s: Source): (Source, Option<Restart>) {
    if s.retired then (s, None)
    else
      var t := DropEmpty(s);
      if t.live != map[] || t.attempts != map[] then (t, None)
      else (t.(drained := {}, retired := true), Some(Restart(t.next, t.next == 0, t.tombstones)))
  }
}
