/** Cancelling the capabilities of an attempt: the order in which the source walks its tables does not matter. */
module Cancellation {
  import opened Common
  import opened AcquisitionModel
  import opened Tombstones
  import opened Acquisition

  ghost predicate Ends(live: map<Uint64, Capability>, outcomes: map<Uint64, Outcome>, todo: set<Uint64>, after: map<Uint64, Capability>, now: map<Uint64, Outcome>) {
    && after == live - todo
    && (forall q :: q in now <==> q in outcomes || (q in todo && q in live))
    && (forall q :: q in now ==> now[q] == if q in outcomes then outcomes[q] else Cancelled)
  }

  /** `t` is `s` with the named live capabilities ended as cancelled, whatever its record. */
  ghost predicate CancelledIn(s: Source, todo: set<Uint64>, t: Source) {
    && t == s.(live := t.live, outcomes := t.outcomes, tombstones := t.tombstones)
    && Ends(s.live, s.outcomes, todo, t.live, t.outcomes)
  }

  lemma {:induction false} NoneCancelled(s: Source)
    ensures CancelledIn(s, {}, s)
  {
    assert s.live - {} == s.live;
  }

  lemma {:induction false} EndsOneMore(live: map<Uint64, Capability>, outcomes: map<Uint64, Outcome>, done: set<Uint64>, after: map<Uint64, Capability>, now: map<Uint64, Outcome>, q: Uint64)
    requires Ends(live, outcomes, done, after, now) && (forall p :: !(p in live && p in outcomes))
    ensures if q in after then Ends(live, outcomes, done + {q}, after - {q}, now[q := Cancelled]) else Ends(live, outcomes, done + {q}, after, now)
  {
    assert live - (done + {q}) == live - done - {q};
    if q !in after {
      assert after - {q} == after;
    }
  }

  lemma {:induction false} CancelMore(s: Source, done: set<Uint64>, m: Source, q: Uint64)
    requires CancelledIn(s, done, m) && (forall p :: !(p in s.live && p in s.outcomes))
    ensures CancelledIn(s, done + {q}, if q in m.live then Terminalize(m, q, Cancelled) else m)
  {
    hide Record, Ends;
    EndsOneMore(s.live, s.outcomes, done, m.live, m.outcomes, q);
  }

  lemma {:induction false} EndsUnique(live: map<Uint64, Capability>, outcomes: map<Uint64, Outcome>, todo: set<Uint64>, a: map<Uint64, Capability>, b: map<Uint64, Capability>, x: map<Uint64, Outcome>, y: map<Uint64, Outcome>)
    requires Ends(live, outcomes, todo, a, x) && Ends(live, outcomes, todo, b, y)
    ensures a == b && x == y
  {
  }

  lemma {:induction false} CancelAllCancels(s: Source, todo: set<Uint64>, done: set<Uint64>, m: Source)
    requires CancelledIn(s, done, m) && (forall p :: !(p in s.live && p in s.outcomes))
    ensures CancelledIn(s, done + todo, CancelAll(m, todo))
    decreases |todo|
  {
    hide CancelledIn, Terminalize;
    if todo == {} {
      assert done + todo == done;
    } else {
      var q := Pick(todo);
      CancelMore(s, done, m, q);
      assert done + todo == (done + {q}) + (todo - {q});
      CancelAllCancels(s, todo - {q}, done + {q}, if q in m.live then Terminalize(m, q, Cancelled) else m);
    }
  }

  /** The record of a source is determined by what it restored and how its capabilities ended. */
  lemma {:induction false} RecordUnique(l: Limits, r: Restart, outcomes: map<Uint64, Outcome>, a: seq<Tombstone>, b: seq<Tombstone>)
    requires ValidRestart(l, r) && (forall q :: q in outcomes ==> After(r.next) <= q)
    requires Kept(l.tombstones, r.tombstones, outcomes, a) && Kept(l.tombstones, r.tombstones, outcomes, b)
    ensures a == b
  {
    RetainedUnique(a, b, Sequences(r.tombstones) + outcomes.Keys, l.tombstones);
    hide Retained, Sequences;
    forall i | 0 <= i < |a|
      ensures a[i] == b[i]
    {
      SameEntry(l, r, outcomes, a[i], b[i]);
    }
  }

  lemma {:induction false} SameEntry(l: Limits, r: Restart, outcomes: map<Uint64, Outcome>, x: Tombstone, y: Tombstone)
    requires ValidRestart(l, r) && (forall q :: q in outcomes ==> After(r.next) <= q) && x.sequence == y.sequence
    requires x in r.tombstones || (x.sequence in outcomes && outcomes[x.sequence] == x.outcome)
    requires y in r.tombstones || (y.sequence in outcomes && outcomes[y.sequence] == y.outcome)
    ensures x == y
  {
    if x in r.tombstones {
      RestoredBelow(l, r, x);
    }
    if y in r.tombstones {
      RestoredBelow(l, r, y);
    }
    if x in r.tombstones && y in r.tombstones {
      var ts := r.tombstones;
      var i :| 0 <= i < |ts| && ts[i] == x;
      var j :| 0 <= j < |ts| && ts[j] == y;
      assert i == j;
    }
  }

  lemma {:induction false} Separate(s: Source)
    requires Core(s)
    ensures ValidRestart(s.limits, s.restart) && Kept(s.limits.tombstones, s.restart.tombstones, s.outcomes, s.tombstones)
    ensures (forall p :: !(p in s.live && p in s.outcomes)) && (forall q :: q in s.outcomes ==> First(s) <= q)
  {
    hide Kept, Registry, Homes, Sizes, ValidRestart;
  }

  lemma {:induction false} SameRest(s: Source, t: Source, u: Source)
    requires t == s.(live := t.live, outcomes := t.outcomes, tombstones := t.tombstones)
    requires u == s.(live := t.live, outcomes := t.outcomes, tombstones := t.tombstones)
    ensures t == u
  {
  }

  lemma {:induction false} CancelledUnique(s: Source, todo: set<Uint64>, t: Source, u: Source)
    requires Core(t) && Core(u) && CancelledIn(s, todo, t) && CancelledIn(s, todo, u)
    ensures t == u
  {
    hide Ends, Core, ValidRestart, Kept;
    EndsUnique(s.live, s.outcomes, todo, t.live, u.live, t.outcomes, u.outcomes);
    Separate(t);
    Separate(u);
    RecordUnique(s.limits, s.restart, t.outcomes, t.tombstones, u.tombstones);
    SameRest(s, t, u);
  }

  /** Every order of cancelling ends in the same state. */
  lemma {:induction false} CancelOrderIrrelevant(s: Source, todo: set<Uint64>, t: Source, a: nat)
    requires Core(s) && Pending(s.attempts, s.outcomes, {a}) && (forall q :: q in todo && q in s.live ==> s.live[q].attempt == a)
    requires Core(t) && CancelledIn(s, todo, t)
    ensures t == CancelAll(s, todo)
  {
    hide Core, Pending, CancelAll, Fixed, ValidRestart, Kept, CancelledIn;
    Separate(s);
    NoneCancelled(s);
    CancelAllCancels(s, todo, {}, s);
    assert {} + todo == todo;
    CancelAllKeeps(s, todo, a);
    CancelledUnique(s, todo, t, CancelAll(s, todo));
  }

  // ---------- One walk, in whatever order ----------

  ghost predicate Cancelling(s: Source, a: nat, done: set<Uint64>, m: Source) {
    Core(s) && Core(m) && Pending(m.attempts, m.outcomes, {a}) && CancelledIn(s, done, m)
  }

  lemma {:induction false} CancellingStarts(s: Source, a: nat)
    requires Inv(s)
    ensures Cancelling(s, a, {}, s) && Sorted(s.tombstones)
  {
    InvIsCore(s);
    NoneCancelled(s);
    hide Core;
  }

  lemma {:induction false} StillThere(s: Source, done: set<Uint64>, m: Source, q: Uint64)
    requires CancelledIn(s, done, m) && q in m.live
    ensures q in s.live && m.live[q] == s.live[q]
  {
  }

  lemma {:induction false} CancellingGoesOn(s: Source, a: nat, done: set<Uint64>, m: Source, q: Uint64)
    requires Cancelling(s, a, done, m) && (q in s.live ==> s.live[q].attempt == a)
    ensures Cancelling(s, a, done + {q}, if q in m.live then Terminalize(m, q, Cancelled) else m)
    ensures Sorted((if q in m.live then Terminalize(m, q, Cancelled) else m).tombstones)
  {
    hide Core, Pending, CancelledIn, Terminalize, Fixed, Sorted;
    Separate(s);
    CancelMore(s, done, m, q);
    if q in m.live {
      StillThere(s, done, m, q);
      TerminalKeeps(m, q, Cancelled, {a});
      assert {a} + {a} == {a};
      CoreSorted(Terminalize(m, q, Cancelled));
    } else {
      CoreSorted(m);
    }
  }

  lemma {:induction false} CoreSorted(s: Source)
    requires Core(s)
    ensures Sorted(s.tombstones)
  {
    hide Numbers, Registry, Homes, Sizes, ValidRestart;
  }

  lemma {:induction false} CancellingEnds(s: Source, a: nat, todo: set<Uint64>, m: Source)
    requires Inv(s) && Cancelling(s, a, todo, m) && (forall q :: q in todo && q in s.live ==> s.live[q].attempt == a)
    ensures m == CancelAll(s, todo)
  {
    InvIsCore(s);
    assert Pending(s.attempts, s.outcomes, {a});
    hide Core, CancelAll, CancelledIn, Pending;
    CancelOrderIrrelevant(s, todo, m, a);
  }
}
