/** The bounded record of ended capabilities: always sorted, always the latest ones. */
module Tombstones {
  import opened Common
  import opened AcquisitionModel

  ghost function Sequences(ts: seq<Tombstone>): set<Uint64> {
    set i | 0 <= i < |ts| :: ts[i].sequence
  }

  /** The record holds the `limit` greatest of all sequence numbers that ended. */
  ghost predicate Retained(ts: seq<Tombstone>, ended: set<Uint64>, limit: nat) {
    && Sorted(ts) && Sequences(ts) <= ended
    && |ts| == (if |ended| < limit then |ended| else limit)
    && forall q, i :: q in ended && q !in Sequences(ts) && 0 <= i < |ts| ==> q < ts[i].sequence
  }

  lemma {:induction false} PositionSplits(ts: seq<Tombstone>, q: Uint64)
    requires Sorted(ts)
    ensures forall k :: 0 <= k < Position(ts, q) ==> ts[k].sequence <= q
    ensures forall k :: Position(ts, q) <= k < |ts| ==> ts[k].sequence > q
    decreases |ts|
  {
    if ts != [] && ts[0].sequence <= q {
      PositionSplits(ts[1..], q);
    }
  }

  lemma {:induction false} SequencesCount(ts: seq<Tombstone>)
    requires Sorted(ts)
    ensures |Sequences(ts)| == |ts|
    decreases |ts|
  {
    if ts != [] {
      var n := |ts| - 1;
      SequencesCount(ts[..n]);
      SequencesAppend(ts[..n], ts[n]);
      assert ts == ts[..n] + [ts[n]];
      assert ts[n].sequence !in Sequences(ts[..n]);
    }
  }

  lemma {:induction false} SequencesAppend(ts: seq<Tombstone>, t: Tombstone)
    ensures Sequences(ts + [t]) == Sequences(ts) + {t.sequence}
  {
    var all := ts + [t];
    forall q
      ensures q in Sequences(all) <==> q in Sequences(ts) || q == t.sequence
    {
      if q in Sequences(ts) {
        var i :| 0 <= i < |ts| && ts[i].sequence == q;
        assert all[i].sequence == q;
      }
      assert all[|ts|].sequence == t.sequence;
    }
  }

  lemma {:induction false} SequencesConcat(a: seq<Tombstone>, b: seq<Tombstone>)
    ensures Sequences(a + b) == Sequences(a) + Sequences(b)
  {
    var all := a + b;
    forall q
      ensures q in Sequences(all) <==> q in Sequences(a) || q in Sequences(b)
    {
      if q in Sequences(a) {
        var i :| 0 <= i < |a| && a[i].sequence == q;
        assert all[i].sequence == q;
      }
      if q in Sequences(b) {
        var i :| 0 <= i < |b| && b[i].sequence == q;
        assert all[|a| + i].sequence == q;
      }
    }
  }

  /** The record with one more entry, before anything is dropped. */
  function Inserted(ts: seq<Tombstone>, t: Tombstone): seq<Tombstone> {
    var i := Position(ts, t.sequence);
    ts[..i] + [t] + ts[i..]
  }

  lemma {:induction false} InsertInOrder(ts: seq<Tombstone>, t: Tombstone, k: nat)
    requires Sorted(ts) && k <= |ts|
    requires forall i :: 0 <= i < k ==> ts[i].sequence < t.sequence
    requires forall i :: k <= i < |ts| ==> ts[i].sequence > t.sequence
    ensures Sorted(ts[..k] + [t] + ts[k..])
  {
    var more := ts[..k] + [t] + ts[k..];
    assert forall i :: 0 <= i < k ==> more[i] == ts[i];
    assert more[k] == t;
    assert forall i :: k < i < |more| ==> more[i] == ts[i - 1];
  }

  lemma {:induction false} InsertSequences(ts: seq<Tombstone>, t: Tombstone, k: nat)
    requires k <= |ts|
    ensures Sequences(ts[..k] + [t] + ts[k..]) == Sequences(ts) + {t.sequence}
  {
    SequencesConcat(ts[..k] + [t], ts[k..]);
    SequencesAppend(ts[..k], t);
    SequencesConcat(ts[..k], ts[k..]);
    assert ts == ts[..k] + ts[k..];
  }

  lemma {:induction false} InsertMembers(ts: seq<Tombstone>, t: Tombstone, k: nat)
    requires k <= |ts|
    ensures forall x :: x in ts[..k] + [t] + ts[k..] <==> x in ts || x == t
  {
    assert ts == ts[..k] + ts[k..];
  }

  lemma {:induction false} InsertSorted(ts: seq<Tombstone>, t: Tombstone)
    requires Sorted(ts) && t.sequence !in Sequences(ts)
    ensures Sorted(Inserted(ts, t)) && |Inserted(ts, t)| == |ts| + 1
    ensures Sequences(Inserted(ts, t)) == Sequences(ts) + {t.sequence}
    ensures forall x :: x in Inserted(ts, t) <==> x in ts || x == t
  {
    hide Sorted;
    var k := Position(ts, t.sequence);
    PositionSplits(ts, t.sequence);
    forall i | 0 <= i < k
      ensures ts[i].sequence < t.sequence
    {
      assert ts[i].sequence in Sequences(ts);
    }
    InsertInOrder(ts, t, k);
    InsertSequences(ts, t, k);
    InsertMembers(ts, t, k);
  }

  lemma {:induction false} TailSorted(ts: seq<Tombstone>)
    requires Sorted(ts) && ts != []
    ensures Sorted(ts[1..]) && Sequences(ts[1..]) == Sequences(ts) - {ts[0].sequence} && ts[0].sequence in Sequences(ts)
    ensures forall i :: 0 <= i < |ts[1..]| ==> ts[0].sequence < ts[1..][i].sequence
  {
    var rest := ts[1..];
    assert ts == [ts[0]] + rest;
    SequencesConcat([ts[0]], rest);
    forall q | q in Sequences(rest)
      ensures q != ts[0].sequence
    {
      var i :| 0 <= i < |rest| && rest[i].sequence == q;
      assert ts[0].sequence < ts[i + 1].sequence;
    }
    assert [ts[0]][0].sequence in Sequences([ts[0]]);
  }

  /** Inserting in order and dropping the first keeps exactly the greatest ones. */
  lemma {:induction false} RecordKeeps(ts: seq<Tombstone>, ended: set<Uint64>, limit: nat, t: Tombstone)
    requires Retained(ts, ended, limit) && t.sequence !in ended && limit > 0
    ensures Retained(Record(ts, t, limit), ended + {t.sequence}, limit)
    ensures forall x :: x in Record(ts, t, limit) ==> x in ts || x == t
  {
    var more := Inserted(ts, t);
    InsertSorted(ts, t);
    if |more| > limit {
      TailSorted(more);
      Overflowing(ts, ended, limit, t);
    } else {
      SequencesCount(ts);
      assert |ended| == |Sequences(ts)|;
      SubsetFull(Sequences(ts), ended);
    }
  }

  lemma {:induction false} SubsetFull(a: set<Uint64>, b: set<Uint64>)
    requires a <= b && |a| == |b|
    ensures a == b
  {
    assert a + (b - a) == b && a * (b - a) == {};
    assert |b - a| == 0;
  }

  lemma {:induction false} Overflowing(ts: seq<Tombstone>, ended: set<Uint64>, limit: nat, t: Tombstone)
    requires Retained(ts, ended, limit) && t.sequence !in ended && limit > 0 && |ts| == limit
    requires Sorted(Inserted(ts, t)) && |Inserted(ts, t)| == |ts| + 1
    requires Sequences(Inserted(ts, t)) == Sequences(ts) + {t.sequence}
    ensures forall q, i :: q in ended + {t.sequence} && q !in Sequences(Inserted(ts, t)[1..]) && 0 <= i < |Inserted(ts, t)[1..]| ==>
              q < Inserted(ts, t)[1..][i].sequence
  {
    var more := Inserted(ts, t);
    var kept := more[1..];
    TailSorted(more);
    PositionSplits(ts, t.sequence);
    forall q, i | q in ended + {t.sequence} && q !in Sequences(kept) && 0 <= i < |kept|
      ensures q < kept[i].sequence
    {
      if q != more[0].sequence {
        assert q !in Sequences(more) && q != t.sequence;
        assert q < ts[0].sequence;
        var k := Position(ts, t.sequence);
        assert more[0] == (if k == 0 then t else ts[0]);
        assert k == 0 ==> kept == ts;
        assert k > 0 ==> more[0] == ts[0];
      }
    }
  }

  // ---------- The record is determined by what ended ----------

  lemma {:induction false} SameRetained(a: seq<Tombstone>, b: seq<Tombstone>, ended: set<Uint64>, limit: nat)
    requires Retained(a, ended, limit) && Retained(b, ended, limit)
    ensures Sequences(a) <= Sequences(b)
  {
    SequencesCount(a);
    SequencesCount(b);
    if Sequences(b) <= Sequences(a) {
      SubsetFull(Sequences(b), Sequences(a));
    }
  }

  lemma {:induction false} SortedUnique(a: seq<Tombstone>, b: seq<Tombstone>)
    requires Sorted(a) && Sorted(b) && Sequences(a) == Sequences(b)
    ensures |a| == |b| && forall i :: 0 <= i < |a| ==> a[i].sequence == b[i].sequence
    decreases |a|
  {
    SequencesCount(a);
    SequencesCount(b);
    if a != [] {
      var n := |a| - 1;
      LastIsGreatest(a);
      LastIsGreatest(b);
      assert a[n].sequence == b[n].sequence;
      SortedUnique(a[..n], b[..n]);
      forall i | 0 <= i < |a|
        ensures a[i].sequence == b[i].sequence
      {
        assert i < n ==> a[i] == a[..n][i] && b[i] == b[..n][i];
      }
    }
  }

  lemma {:induction false} LastIsGreatest(a: seq<Tombstone>)
    requires Sorted(a) && a != []
    ensures var n := |a| - 1;
            && a[n].sequence in Sequences(a) && (forall q :: q in Sequences(a) ==> q <= a[n].sequence)
            && Sorted(a[..n]) && Sequences(a[..n]) == Sequences(a) - {a[n].sequence}
  {
    var n := |a| - 1;
    assert a == a[..n] + [a[n]];
    SequencesAppend(a[..n], a[n]);
    AllBelow(a[..n], a[n]);
    hide Sequences;
  }

  lemma {:induction false} AllBelow(ts: seq<Tombstone>, t: Tombstone)
    requires Sorted(ts + [t])
    ensures Sorted(ts) && forall q :: q in Sequences(ts) ==> q < t.sequence
  {
    var all := ts + [t];
    assert all[|ts|] == t && forall i :: 0 <= i < |ts| ==> all[i] == ts[i];
  }

  /** Two records that keep the latest of the same numbers list the same numbers, entry by entry. */
  lemma {:induction false} RetainedUnique(a: seq<Tombstone>, b: seq<Tombstone>, ended: set<Uint64>, limit: nat)
    requires Retained(a, ended, limit) && Retained(b, ended, limit)
    ensures |a| == |b| && forall i :: 0 <= i < |a| ==> a[i].sequence == b[i].sequence
  {
    SameRetained(a, b, ended, limit);
    SameRetained(b, a, ended, limit);
    SortedUnique(a, b);
  }

  /** A binary search that splits the record finds the position. */
  lemma {:induction false} PositionIs(ts: seq<Tombstone>, q: Uint64, i: nat)
    requires Sorted(ts) && i <= |ts|
    requires forall k :: 0 <= k < i ==> ts[k].sequence <= q
    requires forall k :: i <= k < |ts| ==> ts[k].sequence > q
    ensures Position(ts, q) == i
    decreases |ts|
  {
    if ts != [] && ts[0].sequence <= q {
      PositionIs(ts[1..], q, i - 1);
    }
  }
}
