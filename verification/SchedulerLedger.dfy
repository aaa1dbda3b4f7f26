/** Admission accounting: `Ledger` is what makes the tests of the source sufficient. */
module SchedulerLedger {
  import opened Common
  import opened MapSum
  import opened SchedulerModel

  ghost predicate KeyBounds(l: Limits, v: KeyState) {
    && v.queued >= 0 && 0 <= v.dependents <= l.maxDependents
    && Occupied(v) <= l.maxPerKey
  }

  /** Total occupancy, plus unmet shares of active keys, plus a share for every free position. */
  ghost function Charged(l: Limits, keys: map<AdmissionKey, KeyState>): int {
    Total(keys) + Deficits(l, keys) + Shares(l, l.maxKeys - |keys|)
  }

  ghost predicate ScopesFit(l: Limits, keys: map<AdmissionKey, KeyState>) {
    forall scope: string :: ScopeTotal(keys, scope) <= l.maxPerScope
  }

  /** Every active key is charged the larger of its occupancy and its protected share, every free position a full share. */
  ghost predicate Ledger(l: Limits, keys: map<AdmissionKey, KeyState>) {
    && |keys| <= l.maxKeys
    && (forall k :: k in keys ==> KeyBounds(l, keys[k]))
    && ScopesFit(l, keys)
    && Charged(l, keys) <= l.totalQueued
  }

  // ---------- Arithmetic of shares ----------

  lemma {:induction false} SharesMono(l: Limits, n: int, m: int)
    requires 0 < l.protectedSlots && 0 <= n <= m
    ensures 0 <= Shares(l, n) <= Shares(l, m)
    ensures Shares(l, n + 1) == Shares(l, n) + l.protectedSlots
  {
  }

  lemma {:induction false} SharesFit(l: Limits)
    requires ValidLimits(l)
    ensures 0 < Shares(l, l.maxKeys) <= l.totalQueued - l.sharedBurst
    ensures Shares(l, l.maxKeys) <= l.maxPerScope
  {
  }

  // ---------- How the sums move ----------

  lemma {:induction false} SumsNonNegative(l: Limits, keys: map<AdmissionKey, KeyState>, scope: string)
    requires forall k :: k in keys ==> KeyBounds(l, keys[k])
    ensures 0 <= ScopeTotal(keys, scope) <= Total(keys)
    ensures 0 <= Deficits(l, keys)
  {
    var zero := (k: AdmissionKey, v: KeyState) => 0;
    SumZero(keys, zero);
    SumMono(keys, zero, ByScope(scope));
    SumMono(keys, ByScope(scope), ByOccupancy());
    SumMono(keys, zero, ByDeficit(l));
  }

  lemma {:induction false} SetKey(l: Limits, keys: map<AdmissionKey, KeyState>, k: AdmissionKey, v: KeyState)
    ensures Total(keys[k := v]) == Total(keys) - OccupiedAt(keys, k) + Occupied(v)
    ensures Deficits(l, keys[k := v])
         == Deficits(l, keys) - (if k in keys then Deficit(l, Occupied(keys[k])) else 0) + Deficit(l, Occupied(v))
    ensures forall scope: string ::
              ScopeTotal(keys[k := v], scope) == ScopeTotal(keys, scope) + if k.scope == scope then Occupied(v) - OccupiedAt(keys, k) else 0
    ensures |keys[k := v]| == |keys| + if k in keys then 0 else 1
  {
    SumUpdate(keys, ByOccupancy(), k, v);
    SumUpdate(keys, ByDeficit(l), k, v);
    forall scope: string
      ensures ScopeTotal(keys[k := v], scope)
           == ScopeTotal(keys, scope) + if k.scope == scope then Occupied(v) - OccupiedAt(keys, k) else 0
    {
      SumUpdate(keys, ByScope(scope), k, v);
    }
    assert keys[k := v].Keys == keys.Keys + {k};
  }

  lemma {:induction false} UnsetKey(l: Limits, keys: map<AdmissionKey, KeyState>, k: AdmissionKey)
    requires k in keys
    ensures Total(keys - {k}) == Total(keys) - Occupied(keys[k])
    ensures Deficits(l, keys - {k}) == Deficits(l, keys) - Deficit(l, Occupied(keys[k]))
    ensures forall scope: string ::
              ScopeTotal(keys - {k}, scope) == ScopeTotal(keys, scope) - if k.scope == scope then Occupied(keys[k]) else 0
    ensures |keys - {k}| == |keys| - 1
  {
    SumAt(keys, ByOccupancy(), k);
    SumAt(keys, ByDeficit(l), k);
    forall scope: string
      ensures ScopeTotal(keys - {k}, scope) == ScopeTotal(keys, scope) - if k.scope == scope then Occupied(keys[k]) else 0
    {
      SumAt(keys, ByScope(scope), k);
    }
    assert (keys - {k}).Keys == keys.Keys - {k};
  }

  // ---------- What keeps the ledger ----------

  lemma {:induction false} EmptyLedger(l: Limits)
    requires ValidLimits(l)
    ensures Ledger(l, map[])
  {
    SharesFit(l);
  }

  /** Setting a key keeps the ledger as soon as the new charge, key and scope fit. */
  lemma {:induction false} SetKeepsLedger(l: Limits, keys: map<AdmissionKey, KeyState>, k: AdmissionKey, v: KeyState)
    requires Ledger(l, keys) && KeyBounds(l, v)
    requires k in keys || |keys| < l.maxKeys
    requires ScopeTotal(keys, k.scope) - OccupiedAt(keys, k) + Occupied(v) <= l.maxPerScope
    requires Charged(l, keys[k := v]) <= l.totalQueued
    ensures Ledger(l, keys[k := v])
  {
    SetKey(l, keys, k, v);
    var after := keys[k := v];
    forall scope: string
      ensures ScopeTotal(after, scope) <= l.maxPerScope
    {
      assert ScopeTotal(keys, scope) <= l.maxPerScope;
    }
  }

  lemma {:induction false} ChargeOfSet(l: Limits, keys: map<AdmissionKey, KeyState>, k: AdmissionKey, v: KeyState)
    requires 0 < l.protectedSlots && |keys| <= l.maxKeys
    requires k in keys || |keys| < l.maxKeys
    ensures Charged(l, keys[k := v]) == Charged(l, keys) + Max(Occupied(v), l.protectedSlots)
                                      - (if k in keys then Max(Occupied(keys[k]), l.protectedSlots) else l.protectedSlots)
  {
    SetKey(l, keys, k, v);
    if k !in keys {
      SharesMono(l, l.maxKeys - |keys| - 1, l.maxKeys - |keys| - 1);
      assert Shares(l, l.maxKeys - |keys| - 1 + 1) == Shares(l, l.maxKeys - |keys|);
    }
  }

  /** Lowering a key's occupancy costs nothing. */
  lemma {:induction false} LowerKeepsLedger(l: Limits, keys: map<AdmissionKey, KeyState>, k: AdmissionKey, v: KeyState)
    requires 0 < l.protectedSlots && Ledger(l, keys) && k in keys
    requires KeyBounds(l, v) && Occupied(v) <= Occupied(keys[k])
    ensures Ledger(l, keys[k := v])
  {
    ChargeOfSet(l, keys, k, v);
    assert ScopeTotal(keys, k.scope) <= l.maxPerScope;
    SetKeepsLedger(l, keys, k, v);
  }

  /** Giving a free position to a key moves a share from one side of the ledger to the other. */
  lemma {:induction false} ActivateKeepsLedger(l: Limits, keys: map<AdmissionKey, KeyState>, k: AdmissionKey, v: KeyState)
    requires 0 < l.protectedSlots && KeyBounds(l, v) && Occupied(v) == 0
    requires Ledger(l, keys) && k !in keys && |keys| < l.maxKeys
    ensures Ledger(l, keys[k := v])
  {
    ChargeOfSet(l, keys, k, v);
    assert ScopeTotal(keys, k.scope) <= l.maxPerScope;
    SetKeepsLedger(l, keys, k, v);
  }

  /** A key that gives up its place leaves its share to the free position. */
  lemma {:induction false} DropKeepsLedger(l: Limits, keys: map<AdmissionKey, KeyState>, k: AdmissionKey)
    requires 0 < l.protectedSlots && Ledger(l, keys) && k in keys && Occupied(keys[k]) == 0
    ensures Ledger(l, keys - {k})
  {
    UnsetKey(l, keys, k);
    SharesMono(l, l.maxKeys - |keys|, l.maxKeys - |keys|);
    forall scope: string
      ensures ScopeTotal(keys - {k}, scope) <= l.maxPerScope
    {
      assert ScopeTotal(keys, scope) <= l.maxPerScope;
    }
  }

  // ---------- Admission ----------

  /** The decision in numbers: `charged` is what the ledger charges before the request. */
  lemma {:induction false} DecisionIsExact(l: Limits, active: bool, n: int, mine: int, total: int, inScope: int, owed: int, count: int, charged: int)
    requires ValidLimits(l) && 0 <= n <= l.maxKeys && count > 0
    requires 0 <= mine <= l.maxPerKey && 0 <= inScope <= total && 0 <= owed && inScope <= l.maxPerScope
    requires !active ==> mine == 0
    requires charged == total + owed + (if active then Deficit(l, mine) else 0) + Shares(l, l.maxKeys - n) <= l.totalQueued
    ensures Decide(l, active, n, mine, total, inScope, owed, count) != Some(Accounting)
    ensures Decide(l, active, n, mine, total, inScope, owed, count) == None <==>
              && (active || n < l.maxKeys)
              && mine + count <= l.maxPerKey
              && inScope + count <= l.maxPerScope
              && charged + Max(mine + count, l.protectedSlots)
                 - (if active then Max(mine, l.protectedSlots) else l.protectedSlots) <= l.totalQueued
  {
    SharesFit(l);
    SharesMono(l, l.maxKeys - n, l.maxKeys);
    if n < l.maxKeys {
      SharesMono(l, l.maxKeys - n - 1, l.maxKeys);
    }
  }

  lemma {:induction false} OthersOwe(l: Limits, keys: map<AdmissionKey, KeyState>, key: AdmissionKey)
    requires Ledger(l, keys)
    ensures 0 <= Deficits(l, keys - {key})
    ensures Deficits(l, keys) == Deficits(l, keys - {key}) + if key in keys then Deficit(l, Occupied(keys[key])) else 0
  {
    forall k | k in keys - {key}
      ensures KeyBounds(l, (keys - {key})[k])
    {
      assert k in keys;
    }
    SumsNonNegative(l, keys - {key}, key.scope);
    if key in keys {
      UnsetKey(l, keys, key);
    } else {
      assert keys - {key} == keys;
    }
  }

  lemma {:induction false} DecideUnderLedger(l: Limits, keys: map<AdmissionKey, KeyState>, key: AdmissionKey, count: int)
    requires ValidLimits(l) && Ledger(l, keys) && count > 0
    ensures CheckAdmission(l, keys, key, count) != Some(Accounting)
    ensures CheckAdmission(l, keys, key, count) == None <==>
              && (key in keys || |keys| < l.maxKeys)
              && OccupiedAt(keys, key) + count <= l.maxPerKey
              && ScopeTotal(keys, key.scope) + count <= l.maxPerScope
              && Charged(l, keys) + Max(OccupiedAt(keys, key) + count, l.protectedSlots)
                 - Max(OccupiedAt(keys, key), l.protectedSlots) <= l.totalQueued
  {
    SumsNonNegative(l, keys, key.scope);
    OthersOwe(l, keys, key);
    assert ScopeTotal(keys, key.scope) <= l.maxPerScope;
    DecisionIsExact(l, key in keys, |keys|, OccupiedAt(keys, key), Total(keys), ScopeTotal(keys, key.scope),
                    Deficits(l, keys - {key}), count, Charged(l, keys));
  }

  lemma {:induction false} LedgerOfSet(l: Limits, keys: map<AdmissionKey, KeyState>, k: AdmissionKey, v: KeyState)
    requires 0 < l.protectedSlots && Ledger(l, keys)
    requires k in keys || |keys| < l.maxKeys
    ensures Ledger(l, keys[k := v]) <==>
              && KeyBounds(l, v)
              && ScopeTotal(keys, k.scope) - OccupiedAt(keys, k) + Occupied(v) <= l.maxPerScope
              && Charged(l, keys) + Max(Occupied(v), l.protectedSlots)
                 - Max(OccupiedAt(keys, k), l.protectedSlots) <= l.totalQueued
  {
    ChargeOfSet(l, keys, k, v);
    if Ledger(l, keys[k := v]) {
      SetKey(l, keys, k, v);
      assert keys[k := v][k] == v;
      assert ScopeTotal(keys[k := v], k.scope) <= l.maxPerScope;
    } else if KeyBounds(l, v) && ScopeTotal(keys, k.scope) - OccupiedAt(keys, k) + Occupied(v) <= l.maxPerScope
              && Charged(l, keys[k := v]) <= l.totalQueued {
      SetKeepsLedger(l, keys, k, v);
    }
  }

  /**
   The admission test is exact: under the ledger it admits a request if and only if there is a key
   position and the ledger, with its key and scope limits, would still hold afterwards. It never
   reports broken accounting.
   */
  /** Which of the limits refuses a request: the first of them, in this order, that it would break. */
  lemma {:induction false} ReasonIsExact(l: Limits, keys: map<AdmissionKey, KeyState>, key: AdmissionKey, count: int)
    requires ValidLimits(l) && Ledger(l, keys) && count > 0
    ensures CheckAdmission(l, keys, key, count) ==
              if key !in keys && |keys| == l.maxKeys then Some(ActiveKeys)
              else if OccupiedAt(keys, key) + count > l.maxPerKey then Some(QueuedPerKey)
              else if Total(keys) + count > l.totalQueued || ScopeTotal(keys, key.scope) + count > l.maxPerScope then Some(QueuedCapacity)
              else if Charged(l, keys) + Max(OccupiedAt(keys, key) + count, l.protectedSlots) - Max(OccupiedAt(keys, key), l.protectedSlots) > l.totalQueued
              then Some(ProtectedCapacity)
              else None
  {
    DecideUnderLedger(l, keys, key, count);
    assert |keys| <= l.maxKeys && ScopeTotal(keys, key.scope) <= l.maxPerScope;
    hide Total, ScopeTotal, Deficits, Charged, Ledger, Shares;
  }

  lemma {:induction false} AdmissionIsExact(l: Limits, keys: map<AdmissionKey, KeyState>, key: AdmissionKey, v: KeyState, count: int)
    requires ValidLimits(l) && Ledger(l, keys) && count > 0
    requires v.queued >= 0 && 0 <= v.dependents <= l.maxDependents
    requires Occupied(v) == OccupiedAt(keys, key) + count
    ensures CheckAdmission(l, keys, key, count) != Some(Accounting)
    ensures CheckAdmission(l, keys, key, count) == None <==>
              (key in keys || |keys| < l.maxKeys) && Ledger(l, keys[key := v])
  {
    DecideUnderLedger(l, keys, key, count);
    if key in keys || |keys| < l.maxKeys {
      LedgerOfSet(l, keys, key, v);
    }
  }

  /** The test on a key looks only at what the key occupies, not at how, nor at whether it was active. */
  lemma {:induction false} AdmissionIgnoresShape(l: Limits, keys: map<AdmissionKey, KeyState>, key: AdmissionKey, v: KeyState, count: int)
    requires ValidLimits(l) && Ledger(l, keys) && Ledger(l, keys[key := v]) && count > 0
    requires key in keys || |keys| < l.maxKeys
    requires Occupied(v) == OccupiedAt(keys, key)
    ensures CheckAdmission(l, keys[key := v], key, count) == None <==> CheckAdmission(l, keys, key, count) == None
  {
    var w := KeyState([], Occupied(v) + count, 0, 0);
    assert keys[key := v][key] == v;
    assert KeyBounds(l, v);
    AdmissionIsExact(l, keys, key, w, count);
    AdmissionIsExact(l, keys[key := v], key, w, count);
    assert keys[key := v][key := w] == keys[key := w];
  }

  /**
   The protected share is a guarantee: a key whose occupancy stays within its share is refused only by
   its own scope's limit, or because every key position is taken. No other scope can block it.
   */
  lemma {:induction false} ShareIsGuaranteed(l: Limits, keys: map<AdmissionKey, KeyState>, key: AdmissionKey, count: int)
    requires ValidLimits(l) && Ledger(l, keys) && count > 0
    requires key in keys || |keys| < l.maxKeys
    requires OccupiedAt(keys, key) + count <= l.protectedSlots
    ensures CheckAdmission(l, keys, key, count) ==
              if ScopeTotal(keys, key.scope) + count <= l.maxPerScope then None else Some(QueuedCapacity)
  {
    SumsNonNegative(l, keys, key.scope);
    OthersOwe(l, keys, key);
    assert ScopeTotal(keys, key.scope) <= l.maxPerScope;
    DecisionIsExact(l, key in keys, |keys|, OccupiedAt(keys, key), Total(keys), ScopeTotal(keys, key.scope),
                    Deficits(l, keys - {key}), count, Charged(l, keys));
  }

  lemma {:induction false} OneKey(l: Limits, key: AdmissionKey, v: KeyState)
    ensures Total(map[key := v]) == Occupied(v)
    ensures ScopeTotal(map[key := v], key.scope) == Occupied(v)
    ensures Deficits(l, map[key := v] - {key}) == 0
  {
    var none: map<AdmissionKey, KeyState> := map[];
    assert map[key := v] - {key} == none;
    SumAt(map[key := v], ByOccupancy(), key);
    SumAt(map[key := v], ByScope(key.scope), key);
  }
}
