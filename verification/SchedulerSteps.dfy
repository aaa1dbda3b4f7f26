/** Every operation keeps the scheduler invariant; so does every run. */
module SchedulerSteps {
  import opened Common
  import opened Rings
  import opened SchedulerModel
  import opened SchedulerLedger
  import opened SchedulerOrder
  import opened SchedulerInvariant

  // ---------- Building blocks ----------

  /** The parts of `Core` that a step changes, put back together. */
  lemma {:induction false} CoreFromParts(s: State, t: State)
    requires Core(s) && t.limits == s.limits
    requires Ledger(t.limits, t.keys) && Queues(t.entries, t.keys) && Groups(t.entries, t.coalesced)
    requires OrderOk(t.order) && Lists(t.order, t.keys.Keys)
    requires t.inFlight == |AllFlying(t.entries)| <= t.limits.maxInFlight
    ensures Core(t)
  {
  }

  lemma {:induction false} NoEntriesWhenIdle(entries: Entries, keys: Keys, k: AdmissionKey)
    requires Queues(entries, keys) && k in keys && Idle(keys[k])
    ensures Occupied(keys[k]) == 0
    ensures forall id :: id in entries ==> entries[id].request.key != k
  {
    assert KeyOk(entries, k, keys[k]);
    forall id | id in entries
      ensures entries[id].request.key != k
    {
      assert EntryOk(keys, id, entries[id]);
      assert id in Flying(entries, entries[id].request.key) || entries[id].phase == Queued;
    }
  }

  lemma {:induction false} DropKeyQueues(entries: Entries, keys: Keys, k: AdmissionKey)
    requires Queues(entries, keys)
    requires forall id :: id in entries ==> entries[id].request.key != k
    ensures Queues(entries, keys - {k})
  {
    forall id | id in entries
      ensures EntryOk(keys - {k}, id, entries[id])
    {
      assert EntryOk(keys, id, entries[id]);
    }
    forall j | j in keys - {k}
      ensures KeyOk(entries, j, (keys - {k})[j])
    {
      assert KeyOk(entries, j, keys[j]);
    }
  }

  lemma {:induction false} ReleaseKeeps(s: State, k: AdmissionKey)
    requires Core(s) && Busy(s.keys, {k})
    ensures Inv(Release(s, k))
    ensures Release(s, k).keys.Keys <= s.keys.Keys
  {
    if k in s.keys && Idle(s.keys[k]) {
      var t := Release(s, k);
      NoEntriesWhenIdle(s.entries, s.keys, k);
      assert Ledger(t.limits, t.keys) by {
        DropKeepsLedger(s.limits, s.keys, k);
      }
      DropKeyQueues(s.entries, s.keys, k);
      ForgetLists(s.order, s.keys.Keys, k);
      assert t.keys.Keys == s.keys.Keys - {k};
      CoreFromParts(s, t);
    }
  }

  lemma {:induction false} ForgetLists(o: Order, keys: set<AdmissionKey>, k: AdmissionKey)
    requires OrderOk(o) && Lists(o, keys)
    ensures OrderOk(Forget(o, k)) && Lists(Forget(o, k), keys - {k})
  {
    ForgetKeeps(o, k);
    forall j
      ensures Listed(Forget(o, k), j) <==> j in keys - {k}
    {
      assert Listed(o, j) <==> j in keys;
    }
  }

  lemma {:induction false} RememberLists(o: Order, keys: set<AdmissionKey>, k: AdmissionKey)
    requires OrderOk(o) && Lists(o, keys)
    ensures OrderOk(Remember(o, k)) && Lists(Remember(o, k), keys + {k})
  {
    RememberKeeps(o, k);
    forall j
      ensures Listed(Remember(o, k), j) <==> j in keys + {k}
    {
      assert Listed(o, j) <==> j in keys;
    }
  }

  lemma {:induction false} ActivateLedger(l: Limits, keys: Keys, k: AdmissionKey)
    requires ValidLimits(l) && Ledger(l, keys) && k !in keys && |keys| < l.maxKeys
    ensures Ledger(l, keys[k := KeyState([], 0, 0, 0)])
  {
    ActivateKeepsLedger(l, keys, k, KeyState([], 0, 0, 0));
  }

  lemma {:induction false} ActivateKeeps(s: State, k: AdmissionKey)
    requires Inv(s) && (k in s.keys || |s.keys| < s.limits.maxKeys)
    ensures Core(Activate(s, k)) && Busy(Activate(s, k).keys, {k})
    ensures Activate(s, k).entries == s.entries && Activate(s, k).coalesced == s.coalesced
    ensures Activate(s, k).keys == if k in s.keys then s.keys else s.keys[k := KeyState([], 0, 0, 0)]
  {
    hide Ledger, ValidLimits, Queues, Groups, OrderOk, Lists, Remember, Busy;
    BusyBut(s.keys, k, KeyState([], 0, 0, 0));
    if k !in s.keys {
      ActivateLedger(s.limits, s.keys, k);
      RememberLists(s.order, s.keys.Keys, k);
      ActivateQueues(s.entries, s.keys, k);
      assert s.keys[k := KeyState([], 0, 0, 0)].Keys == s.keys.Keys + {k};
      CoreFromParts(s, Activate(s, k));
    }
  }

  lemma {:induction false} BusyBut(keys: Keys, k: AdmissionKey, v: KeyState)
    requires Busy(keys, {})
    ensures Busy(keys, {k}) && Busy(keys[k := v], {k})
  {
  }

  lemma {:induction false} ActivateQueues(entries: Entries, keys: Keys, k: AdmissionKey)
    requires Queues(entries, keys) && k !in keys
    ensures Queues(entries, keys[k := KeyState([], 0, 0, 0)])
  {
    var keys' := keys[k := KeyState([], 0, 0, 0)];
    forall id | id in entries
      ensures EntryOk(keys', id, entries[id]) && entries[id].request.key != k
    {
      assert EntryOk(keys, id, entries[id]);
    }
    assert Flying(entries, k) == {};
    forall j | j in keys'
      ensures KeyOk(entries, j, keys'[j])
    {
      if j != k {
        assert KeyOk(entries, j, keys[j]);
      }
    }
  }

  lemma {:induction false} PushGroups(entries: Entries, coalesced: map<nat, Uint64>, e: Entry)
    requires Groups(entries, coalesced) && e.request.id !in entries
    requires e.group.Some? ==> e.group.value !in coalesced
    ensures Groups(entries[e.request.id := e], if e.group.Some? then coalesced[e.group.value := e.request.id] else coalesced)
  {
  }

  lemma {:induction false} PushParts(s: State, e: Entry)
    requires Queues(s.entries, s.keys) && Groups(s.entries, s.coalesced)
    requires e.request.key in s.keys && e.request.id !in s.entries && e.phase == Queued
    requires e.group.Some? ==> e.group.value !in s.coalesced
    ensures Queues(Push(s, e).entries, Push(s, e).keys)
    ensures Groups(Push(s, e).entries, Push(s, e).coalesced)
    ensures AllFlying(Push(s, e).entries) == AllFlying(s.entries)
    ensures Push(s, e).keys.Keys == s.keys.Keys
  {
    PushQueues(s.entries, s.keys, e, Push(s, e).keys[e.request.key]);
    PushGroups(s.entries, s.coalesced, e);
  }

  lemma {:induction false} PushBusy(s: State, e: Entry)
    requires e.request.key in s.keys && Busy(s.keys, {e.request.key})
    ensures Busy(Push(s, e).keys, {})
  {
  }

  /** A new entry, once the ledger has room for it. */
  lemma {:induction false} PushKeeps(s: State, e: Entry)
    requires Core(s) && Busy(s.keys, {e.request.key})
    requires e.request.key in s.keys && e.request.id !in s.entries && e.phase == Queued
    requires e.group.Some? ==> e.group.value !in s.coalesced
    requires Ledger(s.limits, Push(s, e).keys)
    ensures Inv(Push(s, e))
    ensures Push(s, e).keys.Keys == s.keys.Keys
  {
    hide Queues, Groups, OrderOk, Lists, Ledger, ValidLimits, Busy;
    PushParts(s, e);
    PushBusy(s, e);
    CoreFromParts(s, Push(s, e));
  }

  /** The state between leaving the queue and releasing the key. */
  function Pulled(s: State, key: AdmissionKey, ids: set<Uint64>): State
    requires key in s.keys
  {
    var v := s.keys[key];
    var kept := Minus(v.queue, ids);
    var queued := v.queued - (QueueWeight(s.entries, v.queue) - QueueWeight(s.entries, kept));
    ForgetEntries(s.(keys := s.keys[key := v.(queue := kept, queued := queued)]), ids)
  }

  lemma {:induction false} PulledParts(s: State, key: AdmissionKey, ids: set<Uint64>)
    requires Queues(s.entries, s.keys) && Groups(s.entries, s.coalesced) && key in s.keys
    requires forall id :: id in ids ==> id in s.keys[key].queue
    ensures var t := Pulled(s, key, ids);
            && Queues(t.entries, t.keys) && Groups(t.entries, t.coalesced)
            && AllFlying(t.entries) == AllFlying(s.entries) && t.keys.Keys == s.keys.Keys
  {
    var v, t := s.keys[key], Pulled(s, key, ids);
    assert KeyOk(s.entries, key, v);
    PullQueues(s.entries, s.keys, key, ids, t.keys[key]);
    ForgetGroups(s.entries, s.coalesced, ids);
    QueuedDoNotFly(s.entries, s.keys, key, ids);
  }

  lemma {:induction false} PulledLedger(s: State, key: AdmissionKey, ids: set<Uint64>)
    requires Core(s) && key in s.keys
    ensures Ledger(s.limits, Pulled(s, key, ids).keys)
  {
    var v, t := s.keys[key], Pulled(s, key, ids);
    assert KeyOk(s.entries, key, v) && KeyBounds(s.limits, v);
    WeightMinus(s.entries, v.queue, ids);
    LowerKeepsLedger(s.limits, s.keys, key, t.keys[key]);
  }

  lemma {:induction false} PulledKeeps(s: State, key: AdmissionKey, ids: set<Uint64>)
    requires Inv(s) && key in s.keys
    requires forall id :: id in ids ==> id in s.keys[key].queue
    ensures Core(Pulled(s, key, ids)) && Busy(Pulled(s, key, ids).keys, {key})
    ensures Pulled(s, key, ids).keys.Keys == s.keys.Keys
  {
    hide Ledger, ValidLimits, OrderOk, Lists;
    PulledParts(s, key, ids);
    PulledLedger(s, key, ids);
    CoreFromParts(s, Pulled(s, key, ids));
  }

  lemma {:induction false} ForgetQueued(s: State, key: AdmissionKey, ids: set<Uint64>)
    requires Inv(s) && key in s.keys
    requires forall id :: id in ids ==> id in s.keys[key].queue
    ensures Inv(DropQueued(s, key, ids))
    ensures DropQueued(s, key, ids) == Release(Pulled(s, key, ids), key)
    ensures DropQueued(s, key, ids).keys.Keys <= s.keys.Keys
    ensures DropQueued(s, key, ids).entries == s.entries - ids
    ensures DropQueued(s, key, ids).coalesced == s.coalesced - GroupsOf(s.entries, ids)
  {
    hide Ledger, ValidLimits, Queues, Groups, OrderOk, Lists;
    PulledKeeps(s, key, ids);
    ReleaseKeeps(Pulled(s, key, ids), key);
  }

  lemma {:induction false} QueuedDoNotFly(entries: Entries, keys: Keys, key: AdmissionKey, ids: set<Uint64>)
    requires Queues(entries, keys) && key in keys
    requires forall id :: id in ids ==> id in keys[key].queue
    ensures AllFlying(entries - ids) == AllFlying(entries)
  {
    assert KeyOk(entries, key, keys[key]);
    forall id | id in ids
      ensures id !in AllFlying(entries)
    {
      assert QueuedAt(entries, id, key);
    }
  }

  /** The state between landing a request and releasing its key. */
  function Landed(s: State, id: Uint64): State
    requires id in s.entries && s.entries[id].request.key in s.keys
  {
    var key := s.entries[id].request.key;
    var v := s.keys[key];
    ForgetEntries(s.(keys := s.keys[key := v.(inFlight := v.inFlight - 1)], inFlight := s.inFlight - 1), {id})
  }

  lemma {:induction false} LandedParts(s: State, id: Uint64)
    requires Queues(s.entries, s.keys) && Groups(s.entries, s.coalesced)
    requires id in s.entries && s.entries[id].phase == InFlight
    ensures s.entries[id].request.key in s.keys
    ensures var t := Landed(s, id);
            && Queues(t.entries, t.keys) && Groups(t.entries, t.coalesced)
            && |AllFlying(t.entries)| == |AllFlying(s.entries)| - 1 && t.keys.Keys == s.keys.Keys
  {
    LandQueues(s.entries, s.keys, id);
    ForgetGroups(s.entries, s.coalesced, {id});
  }

  lemma {:induction false} LandedKeeps(s: State, id: Uint64)
    requires Inv(s) && id in s.entries && s.entries[id].phase == InFlight
    ensures s.entries[id].request.key in s.keys
    ensures Core(Landed(s, id)) && Busy(Landed(s, id).keys, {s.entries[id].request.key})
    ensures Landed(s, id).keys.Keys == s.keys.Keys
  {
    LandedParts(s, id);
    var key, t := s.entries[id].request.key, Landed(s, id);
    assert Ledger(t.limits, t.keys) by {
      assert KeyBounds(s.limits, s.keys[key]);
      LowerKeepsLedger(s.limits, s.keys, key, t.keys[key]);
    }
    CoreFromParts(s, t);
  }

  lemma {:induction false} LandKeeps(s: State, id: Uint64)
    requires Inv(s) && id in s.entries && s.entries[id].phase == InFlight
    ensures Inv(Land(s, id))
    ensures Land(s, id).keys.Keys <= s.keys.Keys
    ensures Land(s, id).entries == s.entries - {id}
    ensures Land(s, id).coalesced == s.coalesced - GroupsOf(s.entries, {id})
  {
    LandedKeeps(s, id);
    assert Land(s, id) == Release(Landed(s, id), s.entries[id].request.key);
    ReleaseKeeps(Landed(s, id), s.entries[id].request.key);
  }

  // ---------- Operations ----------

  lemma {:induction false} PushLedger(s: State, e: Entry, count: int)
    requires Core(s) && e.request.key in s.keys && count > 0 && e.weight == count
    requires CheckAdmission(s.limits, s.keys, e.request.key, count) == None
    ensures Ledger(s.limits, Push(s, e).keys)
  {
    var key := e.request.key;
    var v := s.keys[key];
    assert KeyBounds(s.limits, v);
    var w := v.(queue := v.queue + [e.request.id], queued := v.queued + e.weight);
    AdmissionIsExact(s.limits, s.keys, key, w, count);
  }

  /** Activating a key does not change what the admission test says about it. */
  lemma {:induction false} AdmissionAfterActivation(s: State, key: AdmissionKey, count: int)
    requires Inv(s) && count > 0 && CheckAdmission(s.limits, s.keys, key, count) == None
    ensures key in s.keys || |s.keys| < s.limits.maxKeys
    ensures CheckAdmission(s.limits, Activate(s, key).keys, key, count) == None
  {
    DecideUnderLedger(s.limits, s.keys, key, count);
    ActivateKeeps(s, key);
    if key !in s.keys {
      AdmissionIgnoresShape(s.limits, s.keys, key, KeyState([], 0, 0, 0), count);
    }
  }

  lemma {:induction false} AdmitKeeps(s: State, r: Request, group: Option<nat>, weight: nat)
    requires Inv(s) && (weight == 0 ==> r.key in s.keys) && (group.Some? ==> group.value !in s.coalesced)
    ensures Inv(Admit(s, r, group, weight).0)
    ensures Admit(s, r, group, weight).1 != Some(Accounting)
    ensures Admit(s, r, group, weight).1.Some? ==> Admit(s, r, group, weight).0 == s
  {
    hide Ledger, ValidLimits, Queues, Groups, OrderOk, Lists, CheckAdmission, Push;
    if r.id !in s.entries {
      if weight > 0 {
        DecideUnderLedger(s.limits, s.keys, r.key, weight);
      }
      if Admit(s, r, group, weight).1 == None {
        var e := Entry(r, Queued, 0, weight, group);
        if weight > 0 {
          AdmissionAfterActivation(s, r.key, weight);
        }
        ActivateKeeps(s, r.key);
        if weight > 0 {
          PushLedger(Activate(s, r.key), e, weight);
        } else {
          WeightlessLedger(Activate(s, r.key), e);
        }
        PushKeeps(Activate(s, r.key), e);
      }
    }
  }

  lemma {:induction false} EnqueueKeeps(s: State, r: Request)
    requires Inv(s)
    ensures Inv(Enqueue(s, r).0)
    ensures Enqueue(s, r).1 != Some(Accounting)
    ensures Enqueue(s, r).1.Some? ==> Enqueue(s, r).0 == s
  {
    hide Inv, Admit;
    AdmitKeeps(s, r, None, 1);
  }

  lemma {:induction false} ScheduleKeeps(s: State, r: Request, group: nat, count: int)
    requires Inv(s) && group !in s.coalesced && count <= s.limits.maxDependents
    ensures Inv(ScheduleCoalesced(s, r, group, count).0)
    ensures ScheduleCoalesced(s, r, group, count).1 != Some(Accounting)
    ensures ScheduleCoalesced(s, r, group, count).1.Some? ==> ScheduleCoalesced(s, r, group, count).0 == s
  {
    if ValidRequest(r) && r.id !in s.entries && count > 0 {
      DecideUnderLedger(s.limits, s.keys, r.key, count);
      if CheckAdmission(s.limits, s.keys, r.key, count) == None {
        AdmissionAfterActivation(s, r.key, count);
        ActivateKeeps(s, r.key);
        AttachKeeps(s, r, group, count);
      }
    }
  }

  /** A changed count of dependents, once the ledger has room for it. */
  lemma {:induction false} DependentsKeep(s: State, key: AdmissionKey, dependents: int)
    requires Core(s) && Busy(s.keys, {key}) && key in s.keys
    requires Ledger(s.limits, s.keys[key := s.keys[key].(dependents := dependents)])
    ensures var t := s.(keys := s.keys[key := s.keys[key].(dependents := dependents)]);
            Core(t) && Busy(t.keys, {key}) && t.keys.Keys == s.keys.Keys
  {
    var t := s.(keys := s.keys[key := s.keys[key].(dependents := dependents)]);
    DependentsQueues(s.entries, s.keys, key, dependents);
    assert t.keys.Keys == s.keys.Keys;
    CoreFromParts(s, t);
  }

  lemma {:induction false} MoreDependentsLedger(l: Limits, keys: Keys, key: AdmissionKey, count: int)
    requires ValidLimits(l) && Ledger(l, keys) && key in keys && 0 < count <= l.maxDependents - keys[key].dependents
    requires CheckAdmission(l, keys, key, count) == None
    ensures Ledger(l, keys[key := keys[key].(dependents := keys[key].dependents + count)])
  {
    assert KeyBounds(l, keys[key]);
    AdmissionIsExact(l, keys, key, keys[key].(dependents := keys[key].dependents + count), count);
  }

  lemma {:induction false} FewerDependentsLedger(l: Limits, keys: Keys, key: AdmissionKey, count: int)
    requires ValidLimits(l) && Ledger(l, keys) && key in keys && 0 < count <= keys[key].dependents
    ensures Ledger(l, keys[key := keys[key].(dependents := keys[key].dependents - count)])
  {
    assert KeyBounds(l, keys[key]);
    LowerKeepsLedger(l, keys, key, keys[key].(dependents := keys[key].dependents - count));
  }

  lemma {:induction false} AttachAccepts(t: State, r: Request, group: nat, count: int)
    requires Core(t) && Busy(t.keys, {r.key}) && r.key in t.keys
    requires group !in t.coalesced && r.id !in t.entries
    requires 0 < count <= t.limits.maxDependents - t.keys[r.key].dependents
    requires CheckAdmission(t.limits, t.keys, r.key, count) == None
    ensures Inv(Attach(t, r, group, count).0) && Attach(t, r, group, count).1 == None
  {
    hide Core, Busy, Attach, CheckAdmission;
    var v := t.keys[r.key];
    ChargeKeeps(t, r.key, count);
    var u := t.(keys := t.keys[r.key := v.(dependents := v.dependents + count)]);
    var e := Entry(r, Queued, 0, 0, Some(group));
    WeightlessLedger(u, e);
    PushKeeps(u, e);
    AttachIs(t, r, group, count);
  }

  lemma {:induction false} ChargeKeeps(s: State, key: AdmissionKey, count: int)
    requires Core(s) && Busy(s.keys, {key}) && key in s.keys && 0 < count <= s.limits.maxDependents - s.keys[key].dependents
    requires CheckAdmission(s.limits, s.keys, key, count) == None
    ensures var t := s.(keys := s.keys[key := s.keys[key].(dependents := s.keys[key].dependents + count)]);
            Core(t) && Busy(t.keys, {key}) && t.keys.Keys == s.keys.Keys
  {
    hide Ledger, ValidLimits, Queues, Groups, OrderOk, Lists, Busy, CheckAdmission;
    MoreDependentsLedger(s.limits, s.keys, key, count);
    DependentsKeep(s, key, s.keys[key].dependents + count);
  }

  lemma {:induction false} AttachIs(t: State, r: Request, group: nat, count: int)
    requires r.key in t.keys && 0 < count <= t.limits.maxDependents - t.keys[r.key].dependents
    ensures var v := t.keys[r.key];
            var u := t.(keys := t.keys[r.key := v.(dependents := v.dependents + count)]);
            Attach(t, r, group, count) == (Push(u, Entry(r, Queued, 0, 0, Some(group))), None)
  {
  }

  lemma {:induction false} AttachRefuses(s: State, r: Request, group: nat, count: int)
    requires Inv(s) && r.key in s.keys
    requires count > s.limits.maxDependents - s.keys[r.key].dependents
    ensures Attach(s, r, group, count) == (s, Some(CoalescedDependents))
  {
    assert KeyBounds(s.limits, s.keys[r.key]);
    assert Release(s, r.key) == s;
  }

  lemma {:induction false} AttachKeeps(s: State, r: Request, group: nat, count: int)
    requires Inv(s) && group !in s.coalesced && 0 < count <= s.limits.maxDependents && r.id !in s.entries
    requires r.key in s.keys || |s.keys| < s.limits.maxKeys
    requires CheckAdmission(s.limits, Activate(s, r.key).keys, r.key, count) == None
    ensures Inv(Attach(Activate(s, r.key), r, group, count).0)
    ensures Attach(Activate(s, r.key), r, group, count).1 in {None, Some(CoalescedDependents)}
    ensures Attach(Activate(s, r.key), r, group, count).1.Some? ==> Attach(Activate(s, r.key), r, group, count).0 == s
  {
    hide Ledger, ValidLimits, Queues, Groups, OrderOk, Lists;
    ActivateKeeps(s, r.key);
    var t := Activate(s, r.key);
    if count <= t.limits.maxDependents - t.keys[r.key].dependents {
      AttachAccepts(t, r, group, count);
    } else {
      AttachRefuses(s, r, group, count);
    }
  }

  /** An entry of weight zero is free of charge. */
  lemma {:induction false} WeightlessLedger(s: State, e: Entry)
    requires Core(s) && e.request.key in s.keys && e.weight == 0
    ensures Ledger(s.limits, Push(s, e).keys)
  {
    var v := s.keys[e.request.key];
    assert KeyBounds(s.limits, v);
    LowerKeepsLedger(s.limits, s.keys, e.request.key, v.(queue := v.queue + [e.request.id], queued := v.queued + e.weight));
  }

  lemma {:induction false} ReleaseDependentsKeeps(s: State, key: AdmissionKey, count: int)
    requires Inv(s)
    ensures Inv(ReleaseDependents(s, key, count))
    ensures ReleaseDependents(s, key, count).keys.Keys <= s.keys.Keys
    ensures ReleaseDependents(s, key, count).entries == s.entries
  {
    hide Ledger, ValidLimits, Queues, Groups, OrderOk, Lists;
    if key in s.keys && 0 < count <= s.keys[key].dependents {
      var v := s.keys[key];
      FewerDependentsLedger(s.limits, s.keys, key, count);
      DependentsKeep(s, key, v.dependents - count);
      ReleaseKeeps(s.(keys := s.keys[key := v.(dependents := v.dependents - count)]), key);
    }
  }

  lemma {:induction false} CancelKeeps(s: State, id: Uint64)
    requires Inv(s)
    ensures Inv(CancelQueued(s, id).0)
    ensures CancelQueued(s, id).0.keys.Keys <= s.keys.Keys
    ensures CancelQueued(s, id).1 <==> id in s.entries && s.entries[id].phase == Queued
    ensures CancelQueued(s, id).0.entries == if CancelQueued(s, id).1 then s.entries - {id} else s.entries
  {
    if id in s.entries && s.entries[id].phase == Queued {
      assert EntryOk(s.keys, id, s.entries[id]);
      ForgetQueued(s, s.entries[id].request.key, {id});
    }
  }

  lemma {:induction false} CompleteKeeps(s: State, id: Uint64)
    requires Inv(s)
    ensures Inv(Complete(s, id).0)
    ensures Complete(s, id).0.keys.Keys <= s.keys.Keys
  {
    if id in s.entries && s.entries[id].phase == InFlight {
      LandKeeps(s, id);
    }
  }

  lemma {:induction false} FinishKeeps(s: State, group: nat)
    requires Inv(s)
    ensures Inv(FinishCoalesced(s, group))
    ensures FinishCoalesced(s, group).keys.Keys <= s.keys.Keys
    ensures group !in FinishCoalesced(s, group).coalesced
  {
    if group in s.coalesced {
      var id := s.coalesced[group];
      assert s.entries[id].group == Some(group);
      assert group in GroupsOf(s.entries, {id});
      if s.entries[id].phase == Queued {
        assert EntryOk(s.keys, id, s.entries[id]);
        ForgetQueued(s, s.entries[id].request.key, {id});
      } else {
        LandKeeps(s, id);
      }
    }
  }

  lemma {:induction false} RetryNeverMiscounts(s: State, id: Uint64)
    requires Inv(s) && id in s.entries && s.entries[id].phase == InFlight
    ensures RetryRefusal(s, s.entries[id]) != Some(Accounting)
  {
    if s.entries[id].weight > 0 {
      DecideUnderLedger(s.limits, s.keys, s.entries[id].request.key, s.entries[id].weight);
    }
  }

  lemma {:induction false} RetryKeeps(s: State, id: Uint64)
    requires Inv(s)
    ensures Inv(Retry(s, id).0)
    ensures Retry(s, id).0.keys.Keys <= s.keys.Keys
    ensures Retry(s, id).1 != Some(Accounting)
  {
    hide Ledger, ValidLimits, Queues, Groups, OrderOk, Lists;
    if id in s.entries && s.entries[id].phase == InFlight {
      RetryNeverMiscounts(s, id);
      LandedKeeps(s, id);
      if RetryRefusal(s, s.entries[id]) == None {
        RequeueKeeps(s, id);
      } else {
        LandKeeps(s, id);
      }
    }
  }

  lemma {:induction false} LandedLacks(s: State, id: Uint64)
    requires Inv(s) && id in s.entries && s.entries[id].request.key in s.keys
    ensures s.entries[id].request.id == id && s.entries[id].weight >= 0 && id !in Landed(s, id).entries && Landed(s, id).limits == s.limits
    ensures s.entries[id].group.Some? ==> s.entries[id].group.value !in Landed(s, id).coalesced
  {
    assert EntryOk(s.keys, id, s.entries[id]);
    hide Groups, OrderOk, Lists, Ledger, ValidLimits, Busy;
  }

  /** Going back to the queue is landing and being pushed again. */
  lemma {:induction false} RequeueKeeps(s: State, id: Uint64)
    requires Inv(s) && id in s.entries && s.entries[id].phase == InFlight
    requires s.entries[id].request.key in s.keys
    requires s.entries[id].weight > 0 ==>
               CheckAdmission(s.limits, s.keys, s.entries[id].request.key, s.entries[id].weight) == None
    ensures Inv(Requeue(s, id)) && Requeue(s, id).keys.Keys == s.keys.Keys
  {
    hide Queues, Groups, OrderOk, Lists, Ledger, CheckAdmission, ValidLimits, Busy, Requeue, Landed, Push;
    var e := s.entries[id];
    var landed, again := Landed(s, id), e.(phase := Queued, retries := e.retries + 1);
    LandedKeeps(s, id);
    LandedLacks(s, id);
    RequeueIsPush(s, id);
    if e.weight > 0 {
      RequeueAdmission(s, id);
      PushLedger(landed, again, e.weight);
    } else {
      WeightlessLedger(landed, again);
    }
    PushKeeps(landed, again);
  }

  lemma {:induction false} RequeueIsPush(s: State, id: Uint64)
    requires id in s.entries && s.entries[id].request.key in s.keys && s.entries[id].request.id == id
    ensures var e := s.entries[id];
            var again := e.(phase := Queued, retries := e.retries + 1);
            && e.request.key in Landed(s, id).keys
            && Requeue(s, id) == Push(Landed(s, id), again)
            && (e.group.Some? ==> e.group.value !in Landed(s, id).coalesced)
  {
    var e := s.entries[id];
    var v := s.keys[e.request.key];
    var t := s.(keys := s.keys[e.request.key := v.(inFlight := v.inFlight - 1)], inFlight := s.inFlight - 1);
    PushOverForgotten(t, id, e.(phase := Queued, retries := e.retries + 1));
  }

  lemma {:induction false} RequeueAdmission(s: State, id: Uint64)
    requires Inv(s) && id in s.entries && s.entries[id].phase == InFlight
    requires s.entries[id].request.key in s.keys && s.entries[id].weight > 0
    requires CheckAdmission(s.limits, s.keys, s.entries[id].request.key, s.entries[id].weight) == None
    ensures CheckAdmission(s.limits, Landed(s, id).keys, s.entries[id].request.key, s.entries[id].weight) == None
  {
    LandedKeeps(s, id);
    hide Queues, Groups, OrderOk, Lists, Ledger, CheckAdmission, ValidLimits, Busy;
    var e := s.entries[id];
    var v := s.keys[e.request.key];
    AdmissionIgnoresShape(s.limits, s.keys, e.request.key, v.(inFlight := v.inFlight - 1), e.weight);
  }

  lemma {:induction false} PushOverForgotten(s: State, id: Uint64, e: Entry)
    requires id in s.entries && e.request.id == id && e.request.key in s.keys && e.group == s.entries[id].group
    ensures e.request.key in ForgetEntries(s, {id}).keys
    ensures Push(ForgetEntries(s, {id}), e) == Push(s, e)
    ensures e.group.Some? ==> e.group.value !in ForgetEntries(s, {id}).coalesced
  {
    assert (s.entries - {id})[id := e.(phase := Queued)] == s.entries[id := e.(phase := Queued)];
    if e.group.Some? {
      assert GroupsOf(s.entries, {id}) == {e.group.value};
      assert (s.coalesced - {e.group.value})[e.group.value := id] == s.coalesced[e.group.value := id];
    } else {
      assert GroupsOf(s.entries, {id}) == {};
      assert s.coalesced - {} == s.coalesced;
    }
  }

  // ---------- What leaves with an entry ----------

  lemma {:induction false} DropLoses(s: State, key: AdmissionKey, ids: set<Uint64>)
    requires key in s.keys
    ensures DropQueued(s, key, ids).coalesced == s.coalesced - GroupsOf(s.entries, ids)
    ensures DropQueued(s, key, ids).entries == s.entries - ids
  {
    hide Minus, QueueWeight, GroupsOf, Forget;
  }

  lemma {:induction false} LandLoses(s: State, id: Uint64)
    requires id in s.entries && s.entries[id].request.key in s.keys
    ensures Land(s, id).coalesced == s.coalesced - GroupsOf(s.entries, {id})
    ensures Land(s, id).entries == s.entries - {id}
  {
    hide GroupsOf, Forget;
  }

  lemma {:induction false} KeyOfEntry(s: State, id: Uint64)
    requires Inv(s) && id in s.entries
    ensures s.entries[id].request.key in s.keys
  {
    assert EntryOk(s.keys, id, s.entries[id]);
  }
}
