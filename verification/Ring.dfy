/** Service order: a list read from a cursor, as the scheduler keeps for scopes and for the units of a scope. */
module Rings {
  import opened Common

  datatype Ring<T> = Ring(items: seq<T>, cursor: nat)

  ghost predicate Valid<T>(r: Ring<T>) {
    && Distinct(r.items)
    && (if r.items == [] then r.cursor == 0 else r.cursor < |r.items|)
  }

  /** The order in which the entries will be offered service. */
  function Rotation<T>(r: Ring<T>): (s: seq<T>)
    ensures |s| == |r.items|
  {
    if r.cursor <= |r.items| then r.items[r.cursor..] + r.items[..r.cursor] else r.items
  }

  function IndexOf<T(==)>(s: seq<T>, x: T): (i: nat)
    ensures i <= |s| && x !in s[..i]
    ensures i < |s| <==> x in s
    ensures i < |s| ==> s[i] == x
  {
    if s == [] then 0
    else if s[0] == x then 0
    else
      var i := IndexOf(s[1..], x);
      assert s[..1 + i] == [s[0]] + s[1..][..i];
      1 + i
  }

  function CursorAfterRemoval(cursor: nat, removed: nat, oldLength: nat): nat {
    if oldLength <= 1 then 0
    else
      var c := if cursor > removed then cursor - 1 else cursor;
      if c >= oldLength - 1 then 0 else c
  }

  function DropAt<T>(s: seq<T>, i: nat): (t: seq<T>)
    requires i < |s|
    ensures |t| == |s| - 1
  {
    s[..i] + s[i + 1..]
  }

  function Remove<T(==)>(r: Ring<T>, x: T): Ring<T> {
    var i := IndexOf(r.items, x);
    if i == |r.items| then r
    else Ring(DropAt(r.items, i), CursorAfterRemoval(r.cursor, i, |r.items|))
  }

  function Append<T(==)>(r: Ring<T>, x: T): Ring<T> {
    if x in r.items then r else r.(items := r.items + [x])
  }

  /** Steps past the entry that is `d` places ahead of the cursor. */
  function Advance<T>(r: Ring<T>, d: nat): Ring<T>
    requires d < |r.items|
  {
    r.(cursor := (r.cursor + d + 1) % |r.items|)
  }

  /** Where the first member of `ready` stands in `s`; the length when there is none. */
  function FirstIn<T(==)>(s: seq<T>, ready: set<T>): (d: nat)
    ensures d <= |s|
    ensures forall i :: 0 <= i < d ==> s[i] !in ready
    ensures d < |s| ==> s[d] in ready
  {
    if s == [] || s[0] in ready then 0 else 1 + FirstIn(s[1..], ready)
  }

  /** `s` without the members of `gone`. */
  function Minus<T(==,!new)>(s: seq<T>, gone: set<T>): (t: seq<T>)
    ensures forall x :: x in t <==> x in s && x !in gone
  {
    if s == [] then []
    else if s[0] in gone then Minus(s[1..], gone)
    else [s[0]] + Minus(s[1..], gone)
  }

  lemma {:induction false} MinusAppend<T(!new)>(s: seq<T>, t: seq<T>, gone: set<T>)
    ensures Minus(s + t, gone) == Minus(s, gone) + Minus(t, gone)
  {
    if s == [] {
      assert s + t == t;
    } else {
      assert (s + t)[1..] == s[1..] + t;
      MinusAppend(s[1..], t, gone);
    }
  }

  lemma {:induction false} MinusTwice<T(!new)>(s: seq<T>, a: set<T>, b: set<T>)
    ensures Minus(Minus(s, a), b) == Minus(s, a + b)
  {
    if s != [] {
      MinusTwice(s[1..], a, b);
      if s[0] !in a {
        assert ([s[0]] + Minus(s[1..], a))[1..] == Minus(s[1..], a);
      }
    }
  }

  lemma {:induction false} MinusNone<T(!new)>(s: seq<T>, gone: set<T>)
    requires forall x :: x in s ==> x !in gone
    ensures Minus(s, gone) == s
  {
    if s != [] {
      MinusNone(s[1..], gone);
    }
  }

  lemma {:induction false} DropAtIsMinus<T(!new)>(s: seq<T>, i: nat)
    requires i < |s| && Distinct(s)
    ensures DropAt(s, i) == Minus(s, {s[i]})
  {
    if i == 0 {
      MinusNone(s[1..], {s[0]});
    } else {
      DropAtIsMinus(s[1..], i - 1);
      assert DropAt(s, i) == [s[0]] + DropAt(s[1..], i - 1);
    }
  }

  lemma {:induction false} DropAtDistinct<T(!new)>(s: seq<T>, i: nat)
    requires i < |s| && Distinct(s)
    ensures Distinct(DropAt(s, i))
  {
  }

  lemma {:induction false} RotationOfDrop<T>(s: seq<T>, c: nat, i: nat) returns (d: nat)
    requires c < |s| && i < |s|
    ensures d < |s| && (s[c..] + s[..c])[d] == s[i]
    ensures var e := CursorAfterRemoval(c, i, |s|);
            && e <= |s| - 1 && (e == |s| - 1 ==> e == 0)
            && DropAt(s, i)[e..] + DropAt(s, i)[..e] == DropAt(s[c..] + s[..c], d)
  {
    var t, e := DropAt(s, i), CursorAfterRemoval(c, i, |s|);
    if i >= c {
      d := i - c;
      assert t[c..] + t[..c] == s[c..i] + s[i + 1..] + s[..c];
      assert DropAt(s[c..] + s[..c], d) == s[c..i] + s[i + 1..] + s[..c];
      if e != c {
        assert t[e..] + t[..e] == t;
      }
    } else {
      d := i + |s| - c;
      assert t[e..] + t[..e] == s[c..] + (s[..i] + s[i + 1..c]);
      assert DropAt(s[c..] + s[..c], d) == s[c..] + (s[..i] + s[i + 1..c]);
    }
  }

  /** Removing an entry deletes it from the list and from the service order, and moves nothing else. */
  lemma {:induction false} RemoveKeepsRotation<T(!new)>(r: Ring<T>, x: T)
    requires Valid(r)
    ensures Valid(Remove(r, x))
    ensures Remove(r, x).items == Minus(r.items, {x})
    ensures Rotation(Remove(r, x)) == Minus(Rotation(r), {x})
  {
    var i := IndexOf(r.items, x);
    if i == |r.items| {
      MinusNone(r.items, {x});
      MinusNone(Rotation(r), {x});
    } else {
      DropAtDistinct(r.items, i);
      DropAtIsMinus(r.items, i);
      RotationDistinct(r);
      var d := RotationOfDrop(r.items, r.cursor, i);
      DropAtIsMinus(Rotation(r), d);
    }
  }

  lemma {:induction false} RotationDistinct<T(!new)>(r: Ring<T>)
    requires Valid(r)
    ensures Distinct(Rotation(r))
  {
  }

  /** A ring is fixed by its list and its service order. */
  lemma {:induction false} RingFromRotation<T(!new)>(r: Ring<T>, q: Ring<T>)
    requires Valid(r) && Valid(q)
    requires r.items == q.items && Rotation(r) == Rotation(q)
    ensures r == q
  {
    if r.items != [] {
      assert Rotation(r)[0] == r.items[r.cursor];
      assert Rotation(q)[0] == q.items[q.cursor];
    }
  }

  /** Two removals may be done in either order. */
  lemma {:induction false} RemoveCommutes<T(!new)>(r: Ring<T>, x: T, y: T)
    requires Valid(r)
    ensures Remove(Remove(r, x), y) == Remove(Remove(r, y), x)
  {
    RemoveKeepsRotation(r, x);
    RemoveKeepsRotation(r, y);
    RemoveKeepsRotation(Remove(r, x), y);
    RemoveKeepsRotation(Remove(r, y), x);
    MinusTwice(r.items, {x}, {y});
    MinusTwice(r.items, {y}, {x});
    MinusTwice(Rotation(r), {x}, {y});
    MinusTwice(Rotation(r), {y}, {x});
    assert {x} + {y} == {y} + {x};
    RingFromRotation(Remove(Remove(r, x), y), Remove(Remove(r, y), x));
  }

  /** How many entries are offered service before `x`. */
  function Ahead<T(==)>(r: Ring<T>, x: T): (d: nat)
    requires Valid(r) && x in r.items
    ensures d < |r.items| && Rotation(r)[d] == x
  {
    assert x in Rotation(r) by {
      var i := IndexOf(r.items, x);
      var n := |r.items|;
      var d := if i >= r.cursor then i - r.cursor else i + n - r.cursor;
      assert Rotation(r)[d] == x;
    }
    IndexOf(Rotation(r), x)
  }

  lemma {:induction false} AheadIs<T(!new)>(r: Ring<T>, x: T, d: nat)
    requires Valid(r) && x in r.items
    requires d < |r.items| && Rotation(r)[d] == x
    ensures Ahead(r, x) == d
  {
    RotationDistinct(r);
  }

  lemma {:induction false} MinusMovesUp<T(!new)>(s: seq<T>, gone: set<T>, d: nat) returns (e: nat)
    requires d < |s| && s[d] !in gone
    ensures e <= d && e < |Minus(s, gone)| && Minus(s, gone)[e] == s[d]
  {
    if d == 0 {
      e := 0;
    } else {
      e := MinusMovesUp(s[1..], gone, d - 1);
      if s[0] !in gone { e := e + 1; }
    }
  }

  /** Removing another entry never puts `x` further back. */
  lemma {:induction false} RemoveNeverDelays<T(!new)>(r: Ring<T>, x: T, y: T)
    requires Valid(r) && x in r.items && x != y
    ensures x in Remove(r, y).items && Valid(Remove(r, y))
    ensures Ahead(Remove(r, y), x) <= Ahead(r, x)
    ensures |Remove(r, y).items| <= |r.items|
  {
    RemoveKeepsRotation(r, y);
    var e := MinusMovesUp(Rotation(r), {y}, Ahead(r, x));
    AheadIs(Remove(r, y), x, e);
  }

  lemma {:induction false} Wrap(k: nat, n: nat)
    requires 0 < n && k < 2 * n
    ensures k % n == if k < n then k else k - n
  {
  }

  lemma {:induction false} RotateFurther<T>(s: seq<T>, c: nat, j: nat, k: nat)
    requires c < |s| && j <= |s|
    requires k == if c + j < |s| then c + j else c + j - |s|
    ensures var rot := s[c..] + s[..c]; rot[j..] + rot[..j] == s[k..] + s[..k]
  {
    var rot := s[c..] + s[..c];
    if c + j < |s| {
      assert rot[j..] == s[k..] + s[..c];
      assert rot[..j] == s[c..k];
    } else {
      assert rot[j..] == s[k..c];
      assert rot[..j] == s[c..] + s[..k];
    }
  }

  lemma {:induction false} AdvanceRotation<T>(r: Ring<T>, d: nat)
    requires Valid(r) && d < |r.items|
    ensures Valid(Advance(r, d))
    ensures Rotation(Advance(r, d)) == Rotation(r)[d + 1..] + Rotation(r)[..d + 1]
  {
    Wrap(r.cursor + d + 1, |r.items|);
    RotateFurther(r.items, r.cursor, d + 1, Advance(r, d).cursor);
  }

  /** An entry that was passed over moves forward; the one served moves to the very end. */
  lemma {:induction false} AdvanceAhead<T(!new)>(r: Ring<T>, d: nat, x: T)
    requires Valid(r) && x in r.items && d <= Ahead(r, x)
    ensures Valid(Advance(r, d))
    ensures Ahead(Advance(r, d), x) == if d < Ahead(r, x) then Ahead(r, x) - d - 1 else |r.items| - 1
  {
    AdvanceRotation(r, d);
    var a := Ahead(r, x);
    AheadIs(Advance(r, d), x, if d < a then a - d - 1 else |r.items| - 1);
  }

  lemma {:induction false} AppendKeeps<T(!new)>(r: Ring<T>, x: T)
    requires Valid(r)
    ensures Valid(Append(r, x))
    ensures forall y :: y in Append(r, x).items <==> y in r.items || y == x
  {
  }
}
