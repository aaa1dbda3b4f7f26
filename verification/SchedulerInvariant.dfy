/** What every reachable scheduler state satisfies, and how queues and counters move. */
module SchedulerInvariant {
  import opened Common
  import opened Rings
  import opened SchedulerModel
  import opened SchedulerLedger
  import opened SchedulerOrder

  type Entries = map<Uint64, Entry>
  type Keys = map<AdmissionKey, KeyState>

  ghost function Flying(entries: Entries, k: AdmissionKey): set<Uint64> {
    set id | id in entries && entries[id].phase == InFlight && entries[id].request.key == k
  }

  ghost function AllFlying(entries: Entries): set<Uint64> {
    set id | id in entries && entries[id].phase == InFlight
  }

  ghost predicate QueuedAt(entries: Entries, id: Uint64, k: AdmissionKey) {
    id in entries && entries[id].phase == Queued && entries[id].request.key == k
  }

  ghost predicate EntryOk(keys: Keys, id: Uint64, e: Entry) {
    && e.request.id == id && e.request.key in keys
    && (e.phase == Queued ==> id in keys[e.request.key].queue)
  }

  ghost predicate KeyOk(entries: Entries, k: AdmissionKey, v: KeyState) {
    && Distinct(v.queue)
    && (forall id :: id in v.queue ==> QueuedAt(entries, id, k))
    && v.queued == QueueWeight(entries, v.queue)
    && v.inFlight == |Flying(entries, k)|
  }

  ghost predicate Queues(entries: Entries, keys: Keys) {
    && (forall id :: id in entries ==> EntryOk(keys, id, entries[id]))
    && (forall k :: k in keys ==> KeyOk(entries, k, keys[k]))
  }

  ghost predicate Groups(entries: Entries, coalesced: map<nat, Uint64>) {
    && (forall id :: id in entries && entries[id].group.Some? ==>
          entries[id].group.value in coalesced && coalesced[entries[id].group.value] == id)
    && (forall g :: g in coalesced ==> coalesced[g] in entries && entries[coalesced[g]].group == Some(g))
  }

  ghost predicate Busy(keys: Keys, except: set<AdmissionKey>) {
    forall k :: k in keys && k !in except ==> !Idle(keys[k])
  }

  ghost predicate Core(s: State) {
    && ValidLimits(s.limits)
    && Ledger(s.limits, s.keys)
    && Queues(s.entries, s.keys)
    && Groups(s.entries, s.coalesced)
    && OrderOk(s.order) && Lists(s.order, s.keys.Keys)
    && s.inFlight == |AllFlying(s.entries)| <= s.limits.maxInFlight
  }

  ghost predicate Inv(s: State) {
    Core(s) && Busy(s.keys, {})
  }

  lemma {:induction false} EmptyInv(l: Limits)
    requires ValidLimits(l)
    ensures Inv(Empty(l))
  {
    EmptyLedger(l);
  }

  // ---------- Queue weights ----------

  lemma {:induction false} WeightFrame(e: Entries, f: Entries, queue: seq<Uint64>)
    requires forall id :: id in queue ==> (id in e <==> id in f) && (id in e ==> e[id].weight == f[id].weight)
    ensures QueueWeight(e, queue) == QueueWeight(f, queue)
  {
    if queue != [] {
      WeightFrame(e, f, queue[1..]);
    }
  }

  lemma {:induction false} WeightAppend(e: Entries, queue: seq<Uint64>, id: Uint64)
    requires id in e
    ensures QueueWeight(e, queue + [id]) == QueueWeight(e, queue) + e[id].weight
  {
    if queue == [] {
      assert queue + [id] == [id];
    } else {
      assert (queue + [id])[1..] == queue[1..] + [id];
      WeightAppend(e, queue[1..], id);
    }
  }

  lemma {:induction false} WeightMinus(e: Entries, queue: seq<Uint64>, gone: set<Uint64>)
    ensures 0 <= QueueWeight(e, Minus(queue, gone)) <= QueueWeight(e, queue)
  {
    if queue != [] {
      WeightMinus(e, queue[1..], gone);
      if queue[0] !in gone {
        assert ([queue[0]] + Minus(queue[1..], gone))[1..] == Minus(queue[1..], gone);
      }
    }
  }

  lemma {:induction false} MinusDistinct(queue: seq<Uint64>, gone: set<Uint64>)
    requires Distinct(queue)
    ensures Distinct(Minus(queue, gone))
  {
    if queue != [] {
      MinusDistinct(queue[1..], gone);
      assert queue[0] !in Minus(queue[1..], gone);
    }
  }

  // ---------- Queues under each change ----------

  lemma {:induction false} PushKey(entries: Entries, e: Entry, k: AdmissionKey, v: KeyState)
    requires e.request.id !in entries && e.phase == Queued
    requires KeyOk(entries, k, v)
    ensures KeyOk(entries[e.request.id := e], k,
                  if k == e.request.key then v.(queue := v.queue + [e.request.id], queued := v.queued + e.weight) else v)
  {
    var id := e.request.id;
    var entries' := entries[id := e];
    assert Flying(entries', k) == Flying(entries, k);
    forall j | j in v.queue
      ensures QueuedAt(entries', j, k)
    {
      assert QueuedAt(entries, j, k);
    }
    WeightFrame(entries, entries', v.queue);
    WeightAppend(entries', v.queue, id);
  }

  lemma {:induction false} PushQueues(entries: Entries, keys: Keys, e: Entry, v: KeyState)
    requires Queues(entries, keys) && e.request.id !in entries && e.request.key in keys && e.phase == Queued
    requires v == keys[e.request.key].(queue := keys[e.request.key].queue + [e.request.id],
                                       queued := keys[e.request.key].queued + e.weight)
    ensures Queues(entries[e.request.id := e], keys[e.request.key := v])
  {
    var entries', keys' := entries[e.request.id := e], keys[e.request.key := v];
    forall k | k in keys'
      ensures KeyOk(entries', k, keys'[k])
    {
      assert KeyOk(entries, k, keys[k]);
      PushKey(entries, e, k, keys[k]);
    }
    forall j | j in entries'
      ensures EntryOk(keys', j, entries'[j])
    {
      assert j != e.request.id ==> EntryOk(keys, j, entries[j]);
    }
  }

  /** Counters that move alone leave the queues as they are. */
  lemma {:induction false} DependentsQueues(entries: Entries, keys: Keys, k: AdmissionKey, dependents: int)
    requires Queues(entries, keys) && k in keys
    ensures Queues(entries, keys[k := keys[k].(dependents := dependents)])
  {
    var keys' := keys[k := keys[k].(dependents := dependents)];
    forall j | j in keys'
      ensures KeyOk(entries, j, keys'[j])
    {
      assert KeyOk(entries, j, keys[j]);
    }
    forall id | id in entries
      ensures EntryOk(keys', id, entries[id])
    {
    }
  }

  lemma {:induction false} PullQueues(entries: Entries, keys: Keys, key: AdmissionKey, ids: set<Uint64>, v: KeyState)
    requires Queues(entries, keys) && key in keys
    requires forall id :: id in ids ==> id in keys[key].queue
    requires v == keys[key].(queue := Minus(keys[key].queue, ids), queued := QueueWeight(entries, Minus(keys[key].queue, ids)))
    ensures Queues(entries - ids, keys[key := v])
  {
    var entries', keys' := entries - ids, keys[key := v];
    assert KeyOk(entries, key, keys[key]);
    MinusDistinct(keys[key].queue, ids);
    forall k | k in keys'
      ensures KeyOk(entries', k, keys'[k])
    {
      assert KeyOk(entries, k, keys[k]);
      forall id | id in ids
        ensures id in entries && entries[id].phase == Queued && entries[id].request.key == key
      {
        assert QueuedAt(entries, id, key);
      }
      assert Flying(entries', k) == Flying(entries, k);
      forall id | id in keys'[k].queue
        ensures id !in ids && QueuedAt(entries', id, k)
      {
        assert QueuedAt(entries, id, k);
      }
      WeightFrame(entries, entries', keys'[k].queue);
    }
    forall j | j in entries'
      ensures EntryOk(keys', j, entries'[j])
    {
      assert EntryOk(keys, j, entries[j]);
    }
  }

  lemma {:induction false} LandQueues(entries: Entries, keys: Keys, id: Uint64)
    requires Queues(entries, keys) && id in entries && entries[id].phase == InFlight
    ensures var key := entries[id].request.key;
            && key in keys && keys[key].inFlight >= 1
            && Queues(entries - {id}, keys[key := keys[key].(inFlight := keys[key].inFlight - 1)])
    ensures AllFlying(entries - {id}) == AllFlying(entries) - {id} && id in AllFlying(entries)
  {
    assert EntryOk(keys, id, entries[id]);
    var key := entries[id].request.key;
    var entries', keys' := entries - {id}, keys[key := keys[key].(inFlight := keys[key].inFlight - 1)];
    assert KeyOk(entries, key, keys[key]);
    assert id in Flying(entries, key);
    forall k | k in keys'
      ensures KeyOk(entries', k, keys'[k])
    {
      assert KeyOk(entries, k, keys[k]);
      assert Flying(entries', k) == Flying(entries, k) - {id};
      forall j | j in keys'[k].queue
        ensures QueuedAt(entries', j, k)
      {
        assert QueuedAt(entries, j, k);
      }
      WeightFrame(entries, entries', keys'[k].queue);
    }
    forall j | j in entries'
      ensures EntryOk(keys', j, entries'[j])
    {
      assert EntryOk(keys, j, entries[j]);
    }
  }

  lemma {:induction false} TailOf(queue: seq<Uint64>)
    requires queue != [] && Distinct(queue)
    ensures Distinct(queue[1..])
    ensures forall j :: j in queue[1..] <==> j in queue && j != queue[0]
  {
    assert queue == [queue[0]] + queue[1..];
  }

  lemma {:induction false} LaunchOtherKey(entries: Entries, id: Uint64, k: AdmissionKey, v: KeyState)
    requires id in entries && entries[id].phase == Queued && entries[id].request.key != k
    requires KeyOk(entries, k, v)
    ensures KeyOk(entries[id := entries[id].(phase := InFlight)], k, v)
  {
    var entries' := entries[id := entries[id].(phase := InFlight)];
    assert Flying(entries', k) == Flying(entries, k);
    forall j | j in v.queue
      ensures QueuedAt(entries', j, k)
    {
      assert QueuedAt(entries, j, k);
    }
    WeightFrame(entries, entries', v.queue);
  }

  lemma {:induction false} LaunchOwnKey(entries: Entries, id: Uint64, k: AdmissionKey, v: KeyState)
    requires id in entries && v.queue != [] && v.queue[0] == id
    requires KeyOk(entries, k, v)
    ensures KeyOk(entries[id := entries[id].(phase := InFlight)], k,
                  v.(queue := v.queue[1..], queued := v.queued - entries[id].weight, inFlight := v.inFlight + 1))
  {
    var entries' := entries[id := entries[id].(phase := InFlight)];
    TailOf(v.queue);
    assert QueuedAt(entries, id, k);
    assert Flying(entries', k) == Flying(entries, k) + {id};
    forall j | j in v.queue[1..]
      ensures QueuedAt(entries', j, k)
    {
      assert QueuedAt(entries, j, k);
    }
    WeightFrame(entries, entries', v.queue[1..]);
  }

  lemma {:induction false} LaunchQueues(entries: Entries, keys: Keys, key: AdmissionKey, id: Uint64, v: KeyState)
    requires Queues(entries, keys) && HasWork(keys, key) && id == keys[key].queue[0]
    requires id in entries
    requires v == keys[key].(queue := keys[key].queue[1..], queued := keys[key].queued - entries[id].weight,
                             inFlight := keys[key].inFlight + 1)
    ensures Queues(entries[id := entries[id].(phase := InFlight)], keys[key := v])
    ensures AllFlying(entries[id := entries[id].(phase := InFlight)]) == AllFlying(entries) + {id}
    ensures id !in AllFlying(entries)
  {
    assert KeyOk(entries, key, keys[key]);
    assert QueuedAt(entries, id, key);
    TailOf(keys[key].queue);
    var entries', keys' := entries[id := entries[id].(phase := InFlight)], keys[key := v];
    forall k | k in keys'
      ensures KeyOk(entries', k, keys'[k])
    {
      assert KeyOk(entries, k, keys[k]);
      if k == key {
        LaunchOwnKey(entries, id, k, keys[k]);
      } else {
        LaunchOtherKey(entries, id, k, keys[k]);
      }
    }
    forall j | j in entries'
      ensures EntryOk(keys', j, entries'[j])
    {
      assert EntryOk(keys, j, entries[j]);
    }
  }

  // ---------- Groups under each change ----------

  lemma {:induction false} ForgetGroups(entries: Entries, coalesced: map<nat, Uint64>, ids: set<Uint64>)
    requires Groups(entries, coalesced)
    ensures Groups(entries - ids, coalesced - GroupsOf(entries, ids))
  {
    var gone := GroupsOf(entries, ids);
    forall g | g in coalesced && g !in gone
      ensures coalesced[g] !in ids
    {
      assert entries[coalesced[g]].group == Some(g);
    }
    forall id | id in entries && id !in ids && entries[id].group.Some?
      ensures entries[id].group.value !in gone
    {
    }
  }
}
