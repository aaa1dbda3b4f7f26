/** Expiry and dispatch: what they keep, that map iteration order is invisible, and whose turn it is. */
module SchedulerDispatch {
  import opened Common
  import opened Rings
  import opened SchedulerModel
  import opened SchedulerLedger
  import opened SchedulerOrder
  import opened SchedulerInvariant
  import opened SchedulerSteps

  // ---------- Expiry ----------

  lemma {:induction false} ExpireKeyKeeps(s: State, key: AdmissionKey, now: GoInt)
    requires Inv(s)
    ensures Inv(ExpireKey(s, key, now))
    ensures ExpireKey(s, key, now).keys.Keys <= s.keys.Keys
    ensures ExpireKey(s, key, now).entries == s.entries - Due(s, key, now)
    ensures ExpireKey(s, key, now).coalesced == s.coalesced - GroupsOf(s.entries, Due(s, key, now))
    ensures ExpireKey(s, key, now).limits == s.limits && ExpireKey(s, key, now).inFlight == s.inFlight
  {
    hide Ledger, ValidLimits, Queues, Groups, OrderOk, Lists;
    if key in s.keys {
      ForgetQueued(s, key, Due(s, key, now));
    } else {
      assert GroupsOf(s.entries, {}) == {};
    }
  }

  /** What is left of a key once its overdue entries are gone. */
  function Remaining(s: State, key: AdmissionKey, now: GoInt): KeyState
    requires key in s.keys
  {
    var v := s.keys[key];
    var kept := Minus(v.queue, Due(s, key, now));
    v.(queue := kept, queued := v.queued - (QueueWeight(s.entries, v.queue) - QueueWeight(s.entries, kept)))
  }

  lemma {:induction false} ExpireKeyForm(s: State, key: AdmissionKey, now: GoInt)
    requires key in s.keys
    ensures var w := Remaining(s, key, now);
            var t := ExpireKey(s, key, now);
            && t.keys == (if Idle(w) then s.keys - {key} else s.keys[key := w])
            && t.order == (if Idle(w) then Forget(s.order, key) else s.order)
  {
    var w := Remaining(s, key, now);
    assert s.keys[key := w] - {key} == s.keys - {key};
  }

  lemma {:induction false} DueElsewhere(s: State, a: AdmissionKey, b: AdmissionKey, now: GoInt)
    requires Queues(s.entries, s.keys) && a in s.keys && b in s.keys && a != b
    ensures forall id :: id in s.keys[b].queue ==> id !in Due(s, a, now)
  {
    assert KeyOk(s.entries, a, s.keys[a]) && KeyOk(s.entries, b, s.keys[b]);
    forall id | id in s.keys[b].queue
      ensures id !in Due(s, a, now)
    {
      assert QueuedAt(s.entries, id, b);
      assert id in s.keys[a].queue ==> QueuedAt(s.entries, id, a);
    }
  }

  /** Expiring one key leaves what expiring another would do. */
  lemma {:induction false} ExpireElsewhere(s: State, t: State, a: AdmissionKey, b: AdmissionKey, now: GoInt)
    requires Queues(s.entries, s.keys) && a in s.keys && b in s.keys && a != b
    requires b in t.keys && t.keys[b] == s.keys[b] && t.entries == s.entries - Due(s, a, now)
    ensures Due(t, b, now) == Due(s, b, now) && Remaining(t, b, now) == Remaining(s, b, now)
    ensures GroupsOf(t.entries, Due(t, b, now)) == GroupsOf(s.entries, Due(s, b, now))
  {
    DueElsewhere(s, a, b, now);
    assert Due(t, b, now) == Due(s, b, now);
    var kept := Minus(s.keys[b].queue, Due(s, b, now));
    WeightFrame(s.entries, t.entries, s.keys[b].queue);
    WeightFrame(s.entries, t.entries, kept);
  }

  /** The second of two expiries, in terms of the state before both. */
  lemma {:induction false} ExpireTwice(s: State, a: AdmissionKey, b: AdmissionKey, now: GoInt)
    requires Inv(s) && a in s.keys && b in s.keys && a != b
    ensures var v, w := Remaining(s, a, now), Remaining(s, b, now);
            var t := ExpireKey(ExpireKey(s, a, now), b, now);
            var keys := if Idle(v) then s.keys - {a} else s.keys[a := v];
            var order := if Idle(v) then Forget(s.order, a) else s.order;
            && t.entries == s.entries - Due(s, a, now) - Due(s, b, now)
            && t.coalesced == s.coalesced - GroupsOf(s.entries, Due(s, a, now)) - GroupsOf(s.entries, Due(s, b, now))
            && t.keys == (if Idle(w) then keys - {b} else keys[b := w])
            && t.order == (if Idle(w) then Forget(order, b) else order)
            && t.limits == s.limits && t.inFlight == s.inFlight
  {
    hide Ledger, ValidLimits, Queues, Groups, OrderOk, Lists, Forget, ExpireKey, Remaining, Due, GroupsOf;
    var sa := ExpireKey(s, a, now);
    ExpireKeyKeeps(s, a, now);
    ExpireKeyForm(s, a, now);
    ExpireElsewhere(s, sa, a, b, now);
    ExpireKeyForm(sa, b, now);
    ExpireKeyKeeps(sa, b, now);
  }

  /** Two keys may be expired in either order. */
  lemma {:induction false} ExpireCommutes(s: State, a: AdmissionKey, b: AdmissionKey, now: GoInt)
    requires Inv(s) && a in s.keys && b in s.keys && a != b
    ensures ExpireKey(ExpireKey(s, a, now), b, now) == ExpireKey(ExpireKey(s, b, now), a, now)
  {
    hide Ledger, ValidLimits, Queues, Groups, Forget, ExpireKey, Remaining, Due, GroupsOf;
    ExpireTwice(s, a, b, now);
    ExpireTwice(s, b, a, now);
    assert Listed(s.order, a) && Listed(s.order, b);
    ForgetCommutes(s.order, a, b);
    CommuteMaps(s.keys, a, Remaining(s, a, now), b, Remaining(s, b, now));
    CommuteDrops(s.entries, Due(s, a, now), Due(s, b, now));
    CommuteDrops(s.coalesced, GroupsOf(s.entries, Due(s, a, now)), GroupsOf(s.entries, Due(s, b, now)));
  }

  lemma {:induction false} CommuteDrops<K, V>(m: map<K, V>, a: set<K>, b: set<K>)
    ensures m - a - b == m - b - a
  {
  }

  lemma {:induction false} CommuteMaps(m: Keys, a: AdmissionKey, v: KeyState, b: AdmissionKey, w: KeyState)
    requires a != b
    ensures m[a := v][b := w] == m[b := w][a := v]
    ensures m - {a} - {b} == m - {b} - {a}
    ensures (m - {a})[b := w] == m[b := w] - {a}
    ensures (m - {b})[a := v] == m[a := v] - {b}
  {
  }

  lemma {:induction false} OtherKeysStay(s: State, key: AdmissionKey, now: GoInt)
    ensures forall k :: k in s.keys && k != key ==> k in ExpireKey(s, key, now).keys
  {
    if key in s.keys {
      ExpireKeyForm(s, key, now);
    }
  }

  /** The source iterates over a map while it expires; whichever key comes first, the result is the same. */
  lemma {:induction false} ExpiryOrderIrrelevant(s: State, todo: set<AdmissionKey>, k: AdmissionKey, now: GoInt)
    requires Inv(s) && todo <= s.keys.Keys && k in todo
    ensures ExpireKeys(s, todo, now) == ExpireKeys(ExpireKey(s, k, now), todo - {k}, now)
    decreases |todo|
  {
    hide Inv, ExpireKey;
    var p := PickKey(todo);
    if p != k {
      ExpireKeyKeeps(s, p, now);
      ExpireKeyKeeps(s, k, now);
      OtherKeysStay(s, p, now);
      OtherKeysStay(s, k, now);
      ExpiryOrderIrrelevant(ExpireKey(s, p, now), todo - {p}, k, now);
      ExpiryOrderIrrelevant(ExpireKey(s, k, now), todo - {k}, p, now);
      ExpireCommutes(s, p, k, now);
      assert todo - {p} - {k} == todo - {k} - {p};
    }
  }

  lemma {:induction false} ExpireKeysKeeps(s: State, todo: set<AdmissionKey>, now: GoInt)
    requires Inv(s)
    ensures Inv(ExpireKeys(s, todo, now))
    ensures ExpireKeys(s, todo, now).keys.Keys <= s.keys.Keys
    ensures ExpireKeys(s, todo, now).limits == s.limits && ExpireKeys(s, todo, now).inFlight == s.inFlight
    decreases |todo|
  {
    hide Inv, ExpireKey;
    if todo != {} {
      var k := PickKey(todo);
      ExpireKeyKeeps(s, k, now);
      ExpireKeysKeeps(ExpireKey(s, k, now), todo - {k}, now);
    }
  }

  /** A queued entry whose deadline has come. */
  predicate Overdue(e: Entry, now: GoInt) {
    e.phase == Queued && e.request.deadline <= now
  }

  /** Expiry removes exactly the overdue entries of the keys it visits. */
  lemma {:induction false} ExpireKeysRemoves(s: State, todo: set<AdmissionKey>, now: GoInt)
    requires Inv(s) && todo <= s.keys.Keys
    ensures ExpireKeys(s, todo, now).entries ==
              map id | id in s.entries && !(Overdue(s.entries[id], now) && s.entries[id].request.key in todo) :: s.entries[id]
    decreases |todo|
  {
    hide Ledger, ValidLimits, Queues, Groups, OrderOk, Lists, ExpireKey, Due;
    if todo != {} {
      var k := PickKey(todo);
      ExpireKeyKeeps(s, k, now);
      OtherKeysStay(s, k, now);
      DueAre(s, k, now);
      ExpireKeysRemoves(ExpireKey(s, k, now), todo - {k}, now);
    }
  }

  lemma {:induction false} DueAre(s: State, k: AdmissionKey, now: GoInt)
    requires Queues(s.entries, s.keys) && k in s.keys
    ensures forall id :: id in Due(s, k, now) <==> id in s.entries && Overdue(s.entries[id], now) && s.entries[id].request.key == k
  {
    assert KeyOk(s.entries, k, s.keys[k]);
    forall id
      ensures id in Due(s, k, now) <==> id in s.entries && Overdue(s.entries[id], now) && s.entries[id].request.key == k
    {
      assert id in s.keys[k].queue ==> QueuedAt(s.entries, id, k);
      assert id in s.entries ==> EntryOk(s.keys, id, s.entries[id]);
    }
  }

  /** After expiry nothing overdue waits, and nothing else was touched. */
  lemma {:induction false} ExpireIsExact(s: State, now: GoInt)
    requires Inv(s)
    ensures Inv(Expire(s, now)) && Expire(s, now).keys.Keys <= s.keys.Keys
    ensures Expire(s, now).entries == map id | id in s.entries && !Overdue(s.entries[id], now) :: s.entries[id]
    ensures Expire(s, now).inFlight == s.inFlight && Expire(s, now).limits == s.limits
  {
    hide Ledger, ValidLimits, Groups, OrderOk, Lists, ExpireKeys;
    ExpireKeysKeeps(s, s.keys.Keys, now);
    ExpireKeysRemoves(s, s.keys.Keys, now);
    forall id | id in s.entries
      ensures s.entries[id].request.key in s.keys.Keys
    {
      assert EntryOk(s.keys, id, s.entries[id]);
    }
  }

  // ---------- Whose turn it is ----------

  /** Some work exists exactly when somebody's turn comes; and it comes to a key with work. */
  lemma {:induction false} TurnIsReady(s: State)
    requires Inv(s)
    ensures Turn(s).Some? ==>
              var k := Turn(s).value;
              && HasWork(s.keys, k) && s.keys[k].queue[0] in s.entries
              && k.scope in s.order.scopes.items && k.unit in RingOf(s.order, k.scope).items
              && Rings.Valid(s.order.scopes) && Rings.Valid(RingOf(s.order, k.scope))
    ensures Turn(s) == None ==> forall k :: k in s.keys ==> s.keys[k].queue == []
  {
    hide Ledger, ValidLimits, Groups;
    var scopes := Rotation(s.order.scopes);
    var d := FirstIn(scopes, ReadyScopes(s));
    if d < |scopes| {
      ScopeTurn(s, scopes[d]);
      var units := Rotation(RingOf(s.order, scopes[d]));
      var e := FirstIn(units, ReadyUnits(s, scopes[d]));
      var k := AdmissionKey(scopes[d], units[e]);
      assert units[e] in ReadyUnits(s, scopes[d]);
      assert KeyOk(s.entries, k, s.keys[k]);
      assert QueuedAt(s.entries, s.keys[k].queue[0], k);
    } else {
      forall k | k in s.keys
        ensures s.keys[k].queue == []
      {
        assert Listed(s.order, k);
        RotationSame(s.order.scopes);
        assert k.scope in scopes;
        assert k.scope !in ReadyScopes(s);
        assert k.unit !in ReadyUnits(s, k.scope);
      }
    }
  }

  lemma {:induction false} RotationSame<T(!new)>(r: Ring<T>)
    ensures forall x :: x in Rotation(r) <==> x in r.items
  {
    if r.cursor <= |r.items| {
      assert r.items == r.items[..r.cursor] + r.items[r.cursor..];
    }
  }

  /** A scope that is ready has a unit that is ready. */
  lemma {:induction false} ScopeTurn(s: State, scope: string)
    requires OrderOk(s.order) && scope in ReadyScopes(s)
    ensures scope in s.order.scopes.items
    ensures FirstIn(Rotation(RingOf(s.order, scope)), ReadyUnits(s, scope)) < |RingOf(s.order, scope).items|
    ensures forall u :: u in Rotation(RingOf(s.order, scope)) <==> u in RingOf(s.order, scope).items
  {
    RotationSame(RingOf(s.order, scope));
    var u :| u in ReadyUnits(s, scope);
    assert u in Rotation(RingOf(s.order, scope));
    var i :| 0 <= i < |Rotation(RingOf(s.order, scope))| && Rotation(RingOf(s.order, scope))[i] == u;
    assert FirstIn(Rotation(RingOf(s.order, scope)), ReadyUnits(s, scope)) <= i;
  }

  /** Expire, then serve the key whose turn it is unless the wire is full. */
  ghost function Dispatch(s: State, now: GoInt): (State, Option<Request>)
    requires Inv(s)
  {
    ExpireIsExact(s, now);
    var t := Expire(s, now);
    TurnIsReady(t);
    if t.inFlight >= t.limits.maxInFlight then (t, None)
    else match Turn(t)
      case None => (t, None)
      case Some(k) => (Launch(Served(t, k), k), Some(t.entries[t.keys[k].queue[0]].request))
  }

  lemma {:induction false} ServedKeeps(s: State, k: AdmissionKey)
    requires OrderOk(s.order) && Lists(s.order, s.keys.Keys) && k in s.keys
    requires k.scope in s.order.scopes.items && k.unit in RingOf(s.order, k.scope).items
    ensures OrderOk(Served(s, k).order) && Lists(Served(s, k).order, s.keys.Keys)
  {
    var ring := RingOf(s.order, k.scope);
    RingOk(s.order, k.scope);
    AdvanceRotation(s.order.scopes, Ahead(s.order.scopes, k.scope));
    AdvanceRotation(ring, Ahead(ring, k.unit));
    var t := Served(s, k);
    forall j
      ensures Listed(t.order, j) <==> j in s.keys.Keys
    {
      assert RingOf(t.order, j.scope).items == RingOf(s.order, j.scope).items;
      assert Listed(s.order, j) <==> j in s.keys.Keys;
    }
  }

  lemma {:induction false} LaunchGroups(entries: Entries, coalesced: map<nat, Uint64>, id: Uint64)
    requires Groups(entries, coalesced) && id in entries
    ensures Groups(entries[id := entries[id].(phase := InFlight)], coalesced)
  {
  }

  lemma {:induction false} LaunchParts(s: State, k: AdmissionKey)
    requires Queues(s.entries, s.keys) && Groups(s.entries, s.coalesced)
    requires HasWork(s.keys, k) && s.keys[k].queue[0] in s.entries
    ensures var t := Launch(s, k);
            && Queues(t.entries, t.keys) && Groups(t.entries, t.coalesced)
            && |AllFlying(t.entries)| == |AllFlying(s.entries)| + 1 && t.keys.Keys == s.keys.Keys
  {
    hide Queues, Groups;
    LaunchQueues(s.entries, s.keys, k, s.keys[k].queue[0], Launch(s, k).keys[k]);
    LaunchGroups(s.entries, s.coalesced, s.keys[k].queue[0]);
  }

  lemma {:induction false} LaunchLedger(s: State, k: AdmissionKey)
    requires Core(s) && HasWork(s.keys, k) && s.keys[k].queue[0] in s.entries
    ensures Ledger(s.limits, Launch(s, k).keys)
  {
    var v, w := s.keys[k], Launch(s, k).keys[k];
    assert KeyOk(s.entries, k, v) && KeyBounds(s.limits, v);
    WeightMinus(s.entries, v.queue[1..], {});
    MinusNone(v.queue[1..], {});
    LowerKeepsLedger(s.limits, s.keys, k, w);
  }

  lemma {:induction false} LaunchKeeps(s: State, k: AdmissionKey)
    requires Inv(s) && HasWork(s.keys, k) && s.keys[k].queue[0] in s.entries && s.inFlight < s.limits.maxInFlight
    ensures Inv(Launch(s, k)) && Launch(s, k).keys.Keys == s.keys.Keys
  {
    hide Ledger, ValidLimits, Groups, OrderOk, Lists;
    LaunchParts(s, k);
    LaunchLedger(s, k);
    CoreFromParts(s, Launch(s, k));
    assert KeyOk(s.entries, k, s.keys[k]);
  }

  lemma {:induction false} DispatchKeeps(s: State, now: GoInt)
    requires Inv(s)
    ensures Inv(Dispatch(s, now).0)
    ensures Dispatch(s, now).0.keys.Keys <= s.keys.Keys
  {
    hide Ledger, ValidLimits, Queues, Groups, OrderOk, Lists, Launch, Turn, Served;
    ExpireIsExact(s, now);
    var t := Expire(s, now);
    TurnIsReady(t);
    if t.inFlight < t.limits.maxInFlight && Turn(t).Some? {
      var k := Turn(t).value;
      ServedInv(t, k);
      LaunchKeeps(Served(t, k), k);
    }
  }

  lemma {:induction false} ServedInv(s: State, k: AdmissionKey)
    requires Inv(s) && k in s.keys
    requires k.scope in s.order.scopes.items && k.unit in RingOf(s.order, k.scope).items
    requires Rings.Valid(s.order.scopes) && Rings.Valid(RingOf(s.order, k.scope))
    ensures Inv(Served(s, k)) && Served(s, k).keys == s.keys && Served(s, k).entries == s.entries
    ensures Served(s, k).inFlight == s.inFlight && Served(s, k).limits == s.limits
  {
    hide Ledger, ValidLimits, Queues, Groups;
    ServedKeeps(s, k);
    CoreFromParts(s, Served(s, k));
  }
}
