/** The two-level service order: it lists exactly the active keys, and removals commute. */
module SchedulerOrder {
  import opened Common
  import opened Rings
  import opened SchedulerModel

  ghost predicate Listed(o: Order, k: AdmissionKey) {
    k.unit in RingOf(o, k.scope).items
  }

  ghost predicate OrderOk(o: Order) {
    && Rings.Valid(o.scopes)
    && (forall scope :: scope in o.scopes.items <==> scope in o.units)
    && (forall scope :: scope in o.units ==> Rings.Valid(o.units[scope]) && o.units[scope].items != [])
  }

  ghost predicate Lists(o: Order, keys: set<AdmissionKey>) {
    forall k {:trigger Listed(o, k)} :: Listed(o, k) <==> k in keys
  }

  lemma {:induction false} RingOk(o: Order, scope: string)
    requires OrderOk(o)
    ensures Rings.Valid(RingOf(o, scope))
  {
  }

  lemma {:induction false} RememberKeeps(o: Order, k: AdmissionKey)
    requires OrderOk(o)
    ensures OrderOk(Remember(o, k))
    ensures forall j :: Listed(Remember(o, k), j) <==> Listed(o, j) || j == k
  {
    RingOk(o, k.scope);
    AppendKeeps(o.scopes, k.scope);
    AppendKeeps(RingOf(o, k.scope), k.unit);
  }

  lemma {:induction false} StoreKeeps(o: Order, scope: string, rest: Ring<Byte>, others: Ring<string>, u: Byte)
    requires OrderOk(o) && scope in o.units
    requires Rings.Valid(rest) && forall x :: x in rest.items <==> x in o.units[scope].items && x != u
    requires Rings.Valid(others) && forall x :: x in others.items <==> x in o.scopes.items && x != scope
    ensures OrderOk(Store(o, scope, rest, others))
    ensures forall j :: Listed(Store(o, scope, rest, others), j) <==> Listed(o, j) && j != AdmissionKey(scope, u)
  {
    var p := Store(o, scope, rest, others);
    forall j
      ensures Listed(p, j) <==> Listed(o, j) && j != AdmissionKey(scope, u)
    {
      if j.scope == scope {
        assert RingOf(o, j.scope) == o.units[scope];
      } else {
        assert RingOf(p, j.scope) == RingOf(o, j.scope);
      }
    }
  }

  lemma {:induction false} ForgetKeeps(o: Order, k: AdmissionKey)
    requires OrderOk(o)
    ensures OrderOk(Forget(o, k))
    ensures forall j :: Listed(Forget(o, k), j) <==> Listed(o, j) && j != k
  {
    if Listed(o, k) {
      RemoveKeepsRotation(o.units[k.scope], k.unit);
      RemoveKeepsRotation(o.scopes, k.scope);
      StoreKeeps(o, k.scope, Remove(o.units[k.scope], k.unit), Remove(o.scopes, k.scope), k.unit);
    }
  }

  lemma {:induction false} StoreApart(o: Order, a: string, ra: Ring<Byte>, b: string, rb: Ring<Byte>,
                   withoutA: Ring<string>, withoutB: Ring<string>, without: Ring<string>)
    requires a in o.units && b in o.units && a != b
    ensures Store(Store(o, a, ra, withoutA), b, rb, if ra.items == [] then without else withoutB)
         == Store(Store(o, b, rb, withoutB), a, ra, if rb.items == [] then without else withoutA)
  {
    assert o.units[a := ra][b := rb] == o.units[b := rb][a := ra];
    assert o.units[a := ra] - {b} == (o.units - {b})[a := ra];
    assert o.units[b := rb] - {a} == (o.units - {a})[b := rb];
    assert o.units - {a} - {b} == o.units - {b} - {a};
  }

  /** Two keys may be forgotten in either order. */
  lemma {:induction false} ForgetCommutes(o: Order, a: AdmissionKey, b: AdmissionKey)
    requires OrderOk(o) && Listed(o, a) && Listed(o, b) && a != b
    ensures Forget(Forget(o, a), b) == Forget(Forget(o, b), a)
  {
    if a.scope == b.scope {
      SameScopeCommutes(o, a, b);
    } else {
      OtherScopeCommutes(o, a, b);
    }
  }

  lemma {:induction false} OtherScopeCommutes(o: Order, a: AdmissionKey, b: AdmissionKey)
    requires OrderOk(o) && Listed(o, a) && Listed(o, b) && a.scope != b.scope
    ensures Forget(Forget(o, a), b) == Forget(Forget(o, b), a)
  {
    var ra, rb := Remove(o.units[a.scope], a.unit), Remove(o.units[b.scope], b.unit);
    var p, q := Forget(o, a), Forget(o, b);
    assert p == Store(o, a.scope, ra, Remove(o.scopes, a.scope));
    assert q == Store(o, b.scope, rb, Remove(o.scopes, b.scope));
    assert RingOf(p, b.scope) == o.units[b.scope];
    assert RingOf(q, a.scope) == o.units[a.scope];
    RemoveCommutes(o.scopes, a.scope, b.scope);
    StoreApart(o, a.scope, ra, b.scope, rb, Remove(o.scopes, a.scope), Remove(o.scopes, b.scope),
               Remove(Remove(o.scopes, a.scope), b.scope));
  }

  lemma {:induction false} StoreTwice(o: Order, scope: string, r: Ring<Byte>, rest: Ring<Byte>, others: Ring<string>, s: Ring<string>)
    requires r.items != []
    ensures Store(Store(o, scope, r, s), scope, rest, others) == Store(o, scope, rest, others)
  {
    if rest.items != [] {
      assert o.units[scope := r][scope := rest] == o.units[scope := rest];
    } else {
      assert o.units[scope := r] - {scope} == o.units - {scope};
    }
  }

  lemma {:induction false} SameScopeCommutes(o: Order, a: AdmissionKey, b: AdmissionKey)
    requires OrderOk(o) && Listed(o, a) && Listed(o, b) && a != b && a.scope == b.scope
    ensures Forget(Forget(o, a), b) == Forget(Forget(o, b), a)
  {
    var r, others := o.units[a.scope], Remove(o.scopes, a.scope);
    RemoveKeepsRotation(r, a.unit);
    RemoveKeepsRotation(r, b.unit);
    RemoveCommutes(r, a.unit, b.unit);
    var ra, rb := Remove(r, a.unit), Remove(r, b.unit);
    assert b.unit in ra.items && a.unit in rb.items;
    assert Forget(o, a) == Store(o, a.scope, ra, others);
    assert Forget(o, b) == Store(o, a.scope, rb, others);
    StoreTwice(o, a.scope, ra, Remove(ra, b.unit), others, others);
    StoreTwice(o, a.scope, rb, Remove(rb, a.unit), others, others);
  }
}
