/** Runs of the scheduler, and how long a queued request can wait in one. */
module SchedulerRuns {
  import opened Common
  import opened Rings
  import opened SchedulerModel
  import opened SchedulerLedger
  import opened SchedulerOrder
  import opened SchedulerInvariant
  import opened SchedulerSteps
  import opened SchedulerDispatch

  datatype Op =
    | DoEnqueue(request: Request)
    | DoSchedule(request: Request, group: nat, count: int)
    | DoRelease(key: AdmissionKey, count: int)
    | DoCancel(id: Uint64)
    | DoComplete(id: Uint64)
    | DoRetry(id: Uint64)
    | DoFinish(group: nat)
    | DoDispatch(now: GoInt)

  /** A coalesced read is a fresh object and was bounded when it was built. */
  ghost predicate Callable(s: State, op: Op) {
    op.DoSchedule? ==> op.group !in s.coalesced && op.count <= s.limits.maxDependents
  }

  ghost function Step(s: State, op: Op): State
    requires Inv(s)
  {
    if !Callable(s, op) then s
    else match op
      case DoEnqueue(r) => Enqueue(s, r).0
      case DoSchedule(r, g, n) => ScheduleCoalesced(s, r, g, n).0
      case DoRelease(k, n) => ReleaseDependents(s, k, n)
      case DoCancel(id) => CancelQueued(s, id).0
      case DoComplete(id) => Complete(s, id).0
      case DoRetry(id) => Retry(s, id).0
      case DoFinish(g) => FinishCoalesced(s, g)
      case DoDispatch(now) => Dispatch(s, now).0
  }

  lemma {:induction false} StepKeeps(s: State, op: Op)
    requires Inv(s)
    ensures Inv(Step(s, op))
  {
    hide Inv, Enqueue, ScheduleCoalesced, ReleaseDependents, CancelQueued, Complete, Retry, FinishCoalesced, Dispatch;
    if Callable(s, op) {
      match op
      case DoEnqueue(r) => EnqueueKeeps(s, r);
      case DoSchedule(r, g, n) => ScheduleKeeps(s, r, g, n);
      case DoRelease(k, n) => ReleaseDependentsKeeps(s, k, n);
      case DoCancel(id) => CancelKeeps(s, id);
      case DoComplete(id) => CompleteKeeps(s, id);
      case DoRetry(id) => RetryKeeps(s, id);
      case DoFinish(g) => FinishKeeps(s, g);
      case DoDispatch(now) => DispatchKeeps(s, now);
    }
  }

  ghost function Run(s: State, ops: seq<Op>): State
    requires Inv(s)
    decreases |ops|
  {
    if ops == [] then s
    else
      StepKeeps(s, ops[0]);
      Run(Step(s, ops[0]), ops[1..])
  }

  lemma {:induction false} RunKeeps(s: State, ops: seq<Op>)
    requires Inv(s)
    ensures Inv(Run(s, ops))
    decreases |ops|
  {
    hide Inv, Step;
    if ops != [] {
      StepKeeps(s, ops[0]);
      RunKeeps(Step(s, ops[0]), ops[1..]);
    }
  }

  lemma {:induction false} FinishLimits(s: State, group: nat)
    ensures FinishCoalesced(s, group).limits == s.limits
  {
    hide Minus, QueueWeight, GroupsOf, Forget;
  }

  lemma {:induction false} StepLimits(s: State, op: Op)
    requires Inv(s)
    ensures Step(s, op).limits == s.limits
  {
    hide Inv, CheckAdmission, Minus, QueueWeight, GroupsOf, Forget, Remember, Turn, Pass, FinishCoalesced, Expire;
    if op.DoFinish? {
      FinishLimits(s, op.group);
    } else if op.DoDispatch? {
      ExpireIsExact(s, op.now);
      TurnIsReady(Expire(s, op.now));
    }
  }

  lemma {:induction false} RunLimits(s: State, ops: seq<Op>)
    requires Inv(s)
    ensures Run(s, ops).limits == s.limits
    decreases |ops|
  {
    hide Inv, Step;
    if ops != [] {
      StepKeeps(s, ops[0]);
      StepLimits(s, ops[0]);
      RunLimits(Step(s, ops[0]), ops[1..]);
    }
  }

  /** Every reachable state honours the ledger: occupancy and all reservations together fit under the limits it was built with. */
  lemma {:induction false} ReservationsAlwaysFit(l: Limits, ops: seq<Op>)
    requires ValidLimits(l)
    ensures Inv(Empty(l))
    ensures var s := Run(Empty(l), ops); s.limits == l && Charged(l, s.keys) <= l.totalQueued
  {
    hide Run, Charged, ValidLimits, Queues, Groups, OrderOk, Lists;
    EmptyInv(l);
    RunKeeps(Empty(l), ops);
    RunLimits(Empty(l), ops);
    var s := Run(Empty(l), ops);
    assert Ledger(s.limits, s.keys);
  }

  // ---------- Protected shares ----------

  ghost predicate HasPosition(s: State, key: AdmissionKey) {
    key in s.keys || |s.keys| < s.limits.maxKeys
  }

  /** Whatever happened before: a new request within its key's share is refused only by the limit of its own scope. */
  lemma {:induction false} ShareIsServed(l: Limits, ops: seq<Op>, r: Request)
    requires ValidLimits(l)
    ensures Inv(Empty(l))
    ensures var s := Run(Empty(l), ops);
            ValidRequest(r) && r.id !in s.entries && HasPosition(s, r.key) && OccupiedAt(s.keys, r.key) + 1 <= l.protectedSlots ==>
              Enqueue(s, r).1 == if ScopeTotal(s.keys, r.key.scope) + 1 <= l.maxPerScope then None else Some(QueuedCapacity)
  {
    EmptyInv(l);
    hide Run, Queues, Groups, OrderOk, Lists, CheckAdmission, ScopeTotal;
    RunKeeps(Empty(l), ops);
    RunLimits(Empty(l), ops);
    var s := Run(Empty(l), ops);
    if HasPosition(s, r.key) && OccupiedAt(s.keys, r.key) + 1 <= l.protectedSlots {
      ShareIsGuaranteed(l, s.keys, r.key, 1);
    }
  }

  /** The same for a coalesced read with all of its dependents. */
  lemma {:induction false} GroupShareIsServed(l: Limits, ops: seq<Op>, r: Request, group: nat, count: int)
    requires ValidLimits(l)
    ensures Inv(Empty(l))
    ensures var s := Run(Empty(l), ops);
            ValidRequest(r) && r.id !in s.entries && count > 0 && HasPosition(s, r.key) && OccupiedAt(s.keys, r.key) + count <= l.protectedSlots ==>
              ScheduleCoalesced(s, r, group, count).1 == if ScopeTotal(s.keys, r.key.scope) + count <= l.maxPerScope then None else Some(QueuedCapacity)
  {
    EmptyInv(l);
    hide Run, Queues, Groups, OrderOk, Lists, CheckAdmission, ScopeTotal;
    RunKeeps(Empty(l), ops);
    RunLimits(Empty(l), ops);
    var s := Run(Empty(l), ops);
    if count > 0 && HasPosition(s, r.key) && OccupiedAt(s.keys, r.key) + count <= l.protectedSlots {
      ShareIsGuaranteed(l, s.keys, r.key, count);
      assert r.key in s.keys ==> KeyBounds(l, s.keys[r.key]);
    }
  }

  /** Two keys with one protected slot each, five places in all, three of them for one scope. */
  const TIGHT := Limits(2, 1, 2, 5, 3, 3, 1, 1, 1)

  const FIRST := AdmissionKey("s", 1)

  const SECOND := AdmissionKey("s", 2)

  const THREE := [DoEnqueue(Request(1, FIRST, 1)), DoEnqueue(Request(2, FIRST, 1)), DoEnqueue(Request(3, FIRST, 1))]

  lemma {:induction false} TightStart()
    ensures ValidLimits(TIGHT) && Inv(Empty(TIGHT))
  {
    hide Inv;
    EmptyInv(TIGHT);
  }

  lemma {:induction false} FewAdmitted(l: Limits, keys: map<AdmissionKey, KeyState>, key: AdmissionKey, v: KeyState)
    requires l == TIGHT && v.dependents == 0 && 0 <= v.queued < 3
    requires keys == map[key := v] || (keys == map[] && v.queued == 0)
    ensures CheckAdmission(l, keys, key, 1) == None
  {
    OneKey(l, key, v);
    var none: map<AdmissionKey, KeyState> := map[];
    assert none - {key} == none;
  }

  lemma {:induction false} FillOne(s: State, r: Request, v: KeyState)
    requires Inv(s) && s.limits == TIGHT && ValidRequest(r) && r.id !in s.entries
    requires v.dependents == 0 && 0 <= v.queued < 3
    requires s.keys == map[r.key := v] || (s.keys == map[] && v == KeyState([], 0, 0, 0))
    ensures Step(s, DoEnqueue(r)).keys == map[r.key := v.(queue := v.queue + [r.id], queued := v.queued + 1)]
    ensures Step(s, DoEnqueue(r)).entries.Keys == s.entries.Keys + {r.id}
  {
    hide Inv, Remember, CheckAdmission;
    FewAdmitted(s.limits, s.keys, r.key, v);
    assert Step(s, DoEnqueue(r)) == Push(Activate(s, r.key), Entry(r, Queued, 0, 1, None));
  }

  lemma {:induction false} FillThree(s: State)
    requires Inv(s) && s == Empty(TIGHT)
    ensures Run(s, THREE).keys == map[FIRST := KeyState([1, 2, 3], 3, 0, 0)] && Run(s, THREE).entries.Keys == {1, 2, 3}
  {
    hide Inv, Step;
    FillOne(s, Request(1, FIRST, 1), KeyState([], 0, 0, 0));
    StepKeeps(s, THREE[0]);
    StepLimits(s, THREE[0]);
    var t := Step(s, THREE[0]);
    assert [] + [1] == [1];
    FillOne(t, Request(2, FIRST, 1), KeyState([1], 1, 0, 0));
    StepKeeps(t, THREE[1]);
    StepLimits(t, THREE[1]);
    var u := Step(t, THREE[1]);
    assert [1] + [2] == [1, 2];
    FillOne(u, Request(3, FIRST, 1), KeyState([1, 2], 2, 0, 0));
    assert [1, 2] + [3] == [1, 2, 3];
    ThreeSteps(s, THREE, t, u);
  }

  lemma {:induction false} ThreeSteps(s: State, ops: seq<Op>, t: State, u: State)
    requires |ops| == 3 && Inv(s) && Inv(t) && Inv(u) && t == Step(s, ops[0]) && u == Step(t, ops[1])
    ensures Run(s, ops) == Step(u, ops[2])
  {
    hide Inv, Step;
    StepKeeps(u, ops[2]);
    assert ops[1..][0] == ops[1] && ops[1..][1..] == [ops[2]];
    assert Run(Step(u, ops[2]), [ops[2]][1..]) == Step(u, ops[2]);
    assert Run(u, [ops[2]]) == Step(u, ops[2]);
    assert Run(t, ops[1..]) == Run(u, ops[1..][1..]);
  }

  /**
   The scope limit can be in the way of a share: after this run one key has filled the scope, and a newcomer of the same
   scope is refused although it has a position, its share is untouched and the endpoint as a whole has room.
   */
  lemma {:induction false} ScopeLimitCanBlockAShare()
    ensures ValidLimits(TIGHT) && Inv(Empty(TIGHT))
    ensures var s := Run(Empty(TIGHT), THREE);
            && HasPosition(s, SECOND) && OccupiedAt(s.keys, SECOND) < TIGHT.protectedSlots && Total(s.keys) < TIGHT.totalQueued
            && Enqueue(s, Request(4, SECOND, 1)).1 == Some(QueuedCapacity)
  {
    TightStart();
    hide Inv, Run, Enqueue, Total, HasPosition, OccupiedAt, ValidLimits;
    FillThree(Empty(TIGHT));
    RunKeeps(Empty(TIGHT), THREE);
    RunLimits(Empty(TIGHT), THREE);
    FullRefuses(Run(Empty(TIGHT), THREE), KeyState([1, 2, 3], 3, 0, 0));
  }

  lemma {:induction false} FullRefuses(s: State, v: KeyState)
    requires Inv(s) && s.limits == TIGHT && 4 !in s.entries && s.keys == map[FIRST := v] && v.queued == 3 && v.dependents == 0
    ensures HasPosition(s, SECOND) && OccupiedAt(s.keys, SECOND) < TIGHT.protectedSlots && Total(s.keys) < TIGHT.totalQueued
    ensures Enqueue(s, Request(4, SECOND, 1)).1 == Some(QueuedCapacity)
  {
    hide Inv;
    OneKey(TIGHT, FIRST, v);
  }

  /** When no entry is left and no dependent is charged, nothing at all is left. */
  lemma {:induction false} NothingLeftBehind(s: State)
    requires Inv(s) && s.entries == map[] && forall k :: k in s.keys ==> s.keys[k].dependents == 0
    ensures s == Empty(s.limits)
  {
    hide Ledger, ValidLimits;
    forall k
      ensures k !in s.keys
    {
      assert Flying(s.entries, k) == {};
      assert k in s.keys ==> KeyOk(s.entries, k, s.keys[k]);
      assert k in s.keys ==> s.keys[k].queue == [] || QueuedAt(s.entries, s.keys[k].queue[0], k);
    }
    assert s.keys == map[] && s.coalesced == map[] && AllFlying(s.entries) == {};
    NoKeysNoOrder(s.order);
  }

  lemma {:induction false} NoKeysNoOrder(o: Order)
    requires OrderOk(o) && Lists(o, {})
    ensures o == Order(Ring([], 0), map[])
  {
    forall scope
      ensures scope !in o.units
    {
      var items := RingOf(o, scope).items;
      assert items == [] || Listed(o, AdmissionKey(scope, items[0]));
    }
    assert o.units == map[];
    if o.scopes.items != [] {
      HeadIsIn(o.scopes.items);
      assert false;
    }
  }

  lemma {:induction false} HeadIsIn<T>(s: seq<T>)
    requires s != []
    ensures s[0] in s
  {
  }

  // ---------- Standing of a queued request ----------

  ghost predicate Waits(s: State, id: Uint64) {
    id in s.entries && s.entries[id].phase == Queued
  }

  /** Requests ahead in its queue, units ahead in its scope, scopes ahead; and how many of each there are. */
  datatype Standing = Standing(place: nat, unitsAhead: nat, scopesAhead: nat, units: nat, scopes: nat)

  ghost predicate NoWorse(a: Standing, b: Standing) {
    && a.place <= b.place && a.unitsAhead <= b.unitsAhead && a.scopesAhead <= b.scopesAhead
    && a.units <= b.units && a.scopes <= b.scopes
  }

  lemma {:induction false} WaitsWhere(s: State, id: Uint64)
    requires Inv(s) && Waits(s, id)
    ensures var k := s.entries[id].request.key;
            && k in s.keys && id in s.keys[k].queue && !Idle(s.keys[k])
            && s.entries[id].request.id == id
            && Rings.Valid(s.order.scopes) && k.scope in s.order.scopes.items
            && Rings.Valid(RingOf(s.order, k.scope)) && k.unit in RingOf(s.order, k.scope).items
  {
    hide Ledger, ValidLimits, Groups;
    var k := s.entries[id].request.key;
    assert EntryOk(s.keys, id, s.entries[id]);
    assert Listed(s.order, k);
    RingOk(s.order, k.scope);
  }

  ghost function StandingOf(s: State, id: Uint64): Standing
    requires Inv(s) && Waits(s, id)
  {
    WaitsWhere(s, id);
    StandingAt(s.order, s.entries[id].request.key, IndexOf(s.keys[s.entries[id].request.key].queue, id))
  }

  ghost function StandingAt(o: Order, k: AdmissionKey, place: nat): (r: Standing)
    requires Rings.Valid(o.scopes) && k.scope in o.scopes.items
    requires Rings.Valid(RingOf(o, k.scope)) && k.unit in RingOf(o, k.scope).items
    ensures r.unitsAhead < r.units && r.scopesAhead < r.scopes
  {
    var ring := RingOf(o, k.scope);
    Standing(place, Ahead(ring, k.unit), Ahead(o.scopes, k.scope), |ring.items|, |o.scopes.items|)
  }

  /** Forgetting another key never puts this one further back. */
  lemma {:induction false} ForgetNeverDelays(o: Order, gone: AdmissionKey, k: AdmissionKey, place: nat)
    requires OrderOk(o) && Listed(o, k) && gone != k
    ensures OrderOk(Forget(o, gone)) && Listed(Forget(o, gone), k)
    ensures Rings.Valid(o.scopes) && k.scope in o.scopes.items && Rings.Valid(RingOf(o, k.scope))
    ensures var p := Forget(o, gone);
            && Rings.Valid(p.scopes) && k.scope in p.scopes.items && Rings.Valid(RingOf(p, k.scope))
            && NoWorse(StandingAt(p, k, place), StandingAt(o, k, place))
  {
    hide Rings.Valid, Ahead, Remove;
    ForgetKeeps(o, gone);
    RingOk(o, k.scope);
    var p := Forget(o, gone);
    RingOk(p, k.scope);
    assert Listed(p, k);
    if Listed(o, gone) {
      if gone.scope == k.scope {
        RemoveNeverDelays(RingOf(o, k.scope), k.unit, gone.unit);
      } else {
        RemoveNeverDelays(o.scopes, k.scope, gone.scope);
      }
    }
  }

  lemma {:induction false} StandingFrom(s: State, t: State, id: Uint64)
    requires Inv(s) && Inv(t) && Waits(s, id) && Waits(t, id)
    requires t.entries[id].request == s.entries[id].request
    requires var k := s.entries[id].request.key;
             && k in s.keys && k in t.keys
             && IndexOf(t.keys[k].queue, id) <= IndexOf(s.keys[k].queue, id)
             && t.order == s.order
    ensures NoWorse(StandingOf(t, id), StandingOf(s, id))
  {
    hide Ledger, ValidLimits, Groups, Queues;
    WaitsWhere(s, id);
    WaitsWhere(t, id);
  }

  lemma {:induction false} ReleaseNeverDelays(s: State, k: AdmissionKey, id: Uint64)
    requires Core(s) && Busy(s.keys, {k})
    requires Waits(s, id)
    ensures Inv(Release(s, k)) && Waits(Release(s, k), id) && Release(s, k).entries == s.entries
    ensures var key := s.entries[id].request.key;
            && key in s.keys && key in Release(s, k).keys && Release(s, k).keys[key] == s.keys[key]
            && Listed(s.order, key) && OrderOk(s.order)
            && (Release(s, k).order == s.order || (key != k && Release(s, k).order == Forget(s.order, k)))
  {
    hide Ledger, ValidLimits, Groups;
    ReleaseKeeps(s, k);
    var key := s.entries[id].request.key;
    assert EntryOk(s.keys, id, s.entries[id]);
    assert Listed(s.order, key);
  }

  /** A change of the books at `k`, followed by releasing `k`. */
  lemma {:induction false} ChangeNeverDelays(s: State, mid: State, k: AdmissionKey, id: Uint64)
    requires Inv(s) && Waits(s, id) && Core(mid) && Busy(mid.keys, {k}) && Waits(mid, id)
    requires mid.entries[id].request == s.entries[id].request && mid.order == s.order
    requires var key := s.entries[id].request.key;
             key in s.keys && key in mid.keys && IndexOf(mid.keys[key].queue, id) <= IndexOf(s.keys[key].queue, id)
    ensures Inv(Release(mid, k)) && Waits(Release(mid, k), id)
    ensures NoWorse(StandingOf(Release(mid, k), id), StandingOf(s, id))
  {
    hide Ledger, ValidLimits, Groups, Queues, Core, Release, Forget, StandingAt, OrderOk, Listed;
    ReleaseNeverDelays(mid, k, id);
    var t, key := Release(mid, k), s.entries[id].request.key;
    WaitsWhere(s, id);
    WaitsWhere(t, id);
    if t.order == s.order {
      StandingFrom(s, t, id);
    } else {
      ForgetNeverDelays(s.order, k, key, IndexOf(t.keys[key].queue, id));
      PlaceOnly(s.order, key, IndexOf(t.keys[key].queue, id), IndexOf(s.keys[key].queue, id));
    }
  }

  lemma {:induction false} PlaceOnly(o: Order, k: AdmissionKey, a: nat, b: nat)
    requires Rings.Valid(o.scopes) && k.scope in o.scopes.items
    requires Rings.Valid(RingOf(o, k.scope)) && k.unit in RingOf(o, k.scope).items
    requires a <= b
    ensures NoWorse(StandingAt(o, k, a), StandingAt(o, k, b))
  {
  }

  lemma {:induction false} IndexOfAppend(q: seq<Uint64>, x: Uint64, id: Uint64)
    requires id in q
    ensures IndexOf(q + [x], id) == IndexOf(q, id)
  {
    if q[0] != id {
      assert (q + [x])[1..] == q[1..] + [x];
      IndexOfAppend(q[1..], x, id);
    }
  }

  lemma {:induction false} IndexOfFirst(q: seq<Uint64>, i: nat)
    requires i < |q|
    ensures IndexOf(q, q[i]) <= i
  {
    if i > 0 && q[0] != q[i] {
      IndexOfFirst(q[1..], i - 1);
    }
  }

  lemma {:induction false} IndexOfMinus(q: seq<Uint64>, gone: set<Uint64>, id: Uint64)
    requires id in q && id !in gone
    ensures IndexOf(Minus(q, gone), id) <= IndexOf(q, id)
  {
    var e := MinusMovesUp(q, gone, IndexOf(q, id));
    IndexOfFirst(Minus(q, gone), e);
  }

  // ---------- No operation puts a waiting request further back ----------

  lemma {:induction false} PushNeverDelays(s: State, t: State, e: Entry, id: Uint64)
    requires Inv(s) && Waits(s, id) && e.request.id != id && e.request.key in s.keys
    requires Inv(t) && t.order == s.order && id in t.entries && t.entries[id] == s.entries[id]
    requires t.keys.Keys == s.keys.Keys
    requires forall k :: k in s.keys ==>
               t.keys[k].queue == if k == e.request.key then s.keys[k].queue + [e.request.id] else s.keys[k].queue
    ensures NoWorse(StandingOf(t, id), StandingOf(s, id))
  {
    hide Ledger, ValidLimits, Groups, Queues, Core;
    WaitsWhere(s, id);
    var k := s.entries[id].request.key;
    IndexOfAppend(s.keys[k].queue, e.request.id, id);
    StandingFrom(s, t, id);
  }

  lemma {:induction false} DropNeverDelays(s: State, k: AdmissionKey, ids: set<Uint64>, id: Uint64)
    requires Inv(s) && Waits(s, id) && k in s.keys && id !in ids
    requires forall j :: j in ids ==> j in s.keys[k].queue
    ensures Inv(DropQueued(s, k, ids)) && Waits(DropQueued(s, k, ids), id)
    ensures NoWorse(StandingOf(DropQueued(s, k, ids), id), StandingOf(s, id))
  {
    hide Ledger, ValidLimits, Groups, Queues, Core, StandingOf, DropQueued;
    WaitsWhere(s, id);
    PulledKeeps(s, k, ids);
    ForgetQueued(s, k, ids);
    IndexOfMinus(s.keys[s.entries[id].request.key].queue, ids, id);
    ChangeNeverDelays(s, Pulled(s, k, ids), k, id);
  }

  lemma {:induction false} LandNeverDelays(s: State, j: Uint64, id: Uint64)
    requires Inv(s) && Waits(s, id) && j in s.entries && s.entries[j].phase == InFlight
    ensures Inv(Land(s, j)) && Waits(Land(s, j), id)
    ensures NoWorse(StandingOf(Land(s, j), id), StandingOf(s, id))
  {
    hide Ledger, ValidLimits, Groups, Queues, Core, StandingOf;
    WaitsWhere(s, id);
    LandedKeeps(s, j);
    LandKeeps(s, j);
    assert Land(s, j) == Release(Landed(s, j), s.entries[j].request.key);
    ChangeNeverDelays(s, Landed(s, j), s.entries[j].request.key, id);
  }

  lemma {:induction false} EnqueueNeverDelays(s: State, r: Request, id: Uint64)
    requires Inv(s) && Waits(s, id) && Inv(Enqueue(s, r).0) && Enqueue(s, r).0.keys.Keys <= s.keys.Keys
    ensures Waits(Enqueue(s, r).0, id) && NoWorse(StandingOf(Enqueue(s, r).0, id), StandingOf(s, id))
  {
    hide Ledger, ValidLimits, Groups, Queues, Core, StandingOf, CheckAdmission;
    var t := Enqueue(s, r).0;
    if t != s {
      assert r.key in t.keys;
      assert t.keys.Keys == s.keys.Keys;
      PushNeverDelays(s, t, Entry(r, Queued, 0, 1, None), id);
    }
  }

  lemma {:induction false} ScheduleNeverDelays(s: State, r: Request, g: nat, n: int, id: Uint64)
    requires Inv(s) && Waits(s, id) && Callable(s, DoSchedule(r, g, n))
    requires Inv(ScheduleCoalesced(s, r, g, n).0) && ScheduleCoalesced(s, r, g, n).0.keys.Keys <= s.keys.Keys
    ensures Waits(ScheduleCoalesced(s, r, g, n).0, id)
    ensures NoWorse(StandingOf(ScheduleCoalesced(s, r, g, n).0, id), StandingOf(s, id))
  {
    hide Ledger, ValidLimits, Groups, Queues, Core, StandingOf, CheckAdmission, Release;
    var t := ScheduleCoalesced(s, r, g, n).0;
    ScheduleKeeps(s, r, g, n);
    if ScheduleCoalesced(s, r, g, n).1 == None {
      assert r.key in t.keys;
      assert t.keys.Keys == s.keys.Keys;
      PushNeverDelays(s, t, Entry(r, Queued, 0, 0, Some(g)), id);
    }
  }

  lemma {:induction false} ReleaseDependentsNeverDelays(s: State, k: AdmissionKey, n: int, id: Uint64)
    requires Inv(s) && Waits(s, id)
    ensures var t := ReleaseDependents(s, k, n);
            Inv(t) && Waits(t, id) && NoWorse(StandingOf(t, id), StandingOf(s, id))
  {
    hide Ledger, ValidLimits, Groups, Queues, OrderOk, Lists, StandingOf;
    ReleaseDependentsKeeps(s, k, n);
    if k in s.keys && 0 < n <= s.keys[k].dependents {
      WaitsWhere(s, id);
      var v := s.keys[k];
      FewerDependentsLedger(s.limits, s.keys, k, n);
      DependentsKeep(s, k, v.dependents - n);
      ChangeNeverDelays(s, s.(keys := s.keys[k := v.(dependents := v.dependents - n)]), k, id);
    }
  }

  lemma {:induction false} RetryNeverDelays(s: State, j: Uint64, id: Uint64)
    requires Inv(s) && Waits(s, id) && Waits(Retry(s, j).0, id)
    ensures Inv(Retry(s, j).0) && NoWorse(StandingOf(Retry(s, j).0, id), StandingOf(s, id))
  {
    hide Ledger, ValidLimits, Groups, Queues, Core, StandingOf, RetryRefusal, Land;
    RetryKeeps(s, j);
    if j in s.entries && s.entries[j].phase == InFlight {
      if RetryRefusal(s, s.entries[j]).Some? {
        LandNeverDelays(s, j, id);
      } else {
        RequeueNeverDelays(s, j, id);
      }
    }
  }

  lemma {:induction false} RequeueNeverDelays(s: State, j: Uint64, id: Uint64)
    requires Inv(s) && Waits(s, id) && j in s.entries && s.entries[j].phase == InFlight
    requires RetryRefusal(s, s.entries[j]) == None
    ensures Inv(Retry(s, j).0) && Waits(Retry(s, j).0, id)
    ensures NoWorse(StandingOf(Retry(s, j).0, id), StandingOf(s, id))
  {
    hide Ledger, ValidLimits, Groups, Queues, OrderOk, Lists, StandingOf, RetryRefusal;
    RetryKeeps(s, j);
    LandedKeeps(s, j);
    JustRequest(s, j);
    var t := Retry(s, j).0;
    assert t == Requeue(s, j);
    assert t.keys.Keys == s.keys.Keys;
    PushNeverDelays(s, t, s.entries[j], id);
  }

  lemma {:induction false} JustRequest(s: State, j: Uint64)
    requires Inv(s) && j in s.entries
    ensures s.entries[j].request.id == j
  {
    hide Ledger, ValidLimits, Groups, OrderOk, Lists;
    assert EntryOk(s.keys, j, s.entries[j]);
  }

  // ---------- Dispatch ----------

  lemma {:induction false} ExpireNeverDelays(s: State, todo: set<AdmissionKey>, now: GoInt, id: Uint64)
    requires Inv(s) && Waits(s, id) && todo <= s.keys.Keys
    requires s.entries[id].request.deadline > now
    ensures var t := ExpireKeys(s, todo, now);
            && Inv(t) && Waits(t, id) && t.entries[id] == s.entries[id]
            && NoWorse(StandingOf(t, id), StandingOf(s, id))
    decreases |todo|
  {
    hide Inv, StandingOf, ExpireKey;
    if todo != {} {
      var k := PickKey(todo);
      var t := ExpireKey(s, k, now);
      assert id !in Due(s, k, now);
      DropNeverDelays(s, k, Due(s, k, now), id);
      ExpireKeyKeeps(s, k, now);
      OtherKeysStay(s, k, now);
      ExpireKeyIs(s, k, now);
      ExpireNeverDelays(t, todo - {k}, now, id);
    }
  }

  lemma {:induction false} ExpireKeyIs(s: State, k: AdmissionKey, now: GoInt)
    ensures ExpireKey(s, k, now) == DropQueued(s, k, Due(s, k, now))
  {
  }

  /** The chosen key stands nowhere behind a waiting one, in its scope or among the scopes. */
  lemma {:induction false} TurnComesInOrder(s: State, k: AdmissionKey)
    requires Inv(s) && HasWork(s.keys, k)
    requires Rings.Valid(s.order.scopes) && k.scope in s.order.scopes.items
    requires Rings.Valid(RingOf(s.order, k.scope)) && k.unit in RingOf(s.order, k.scope).items
    ensures Turn(s).Some?
    ensures var c := Turn(s).value;
            && c.scope in s.order.scopes.items && c in s.keys
            && Ahead(s.order.scopes, c.scope) <= Ahead(s.order.scopes, k.scope)
            && (c.scope == k.scope ==> && c.unit in RingOf(s.order, k.scope).items
                                       && Ahead(RingOf(s.order, k.scope), c.unit) <= Ahead(RingOf(s.order, k.scope), k.unit))
  {
    hide Ledger, ValidLimits, Groups, Queues;
    TurnIsReady(s);
    var scopes := Rotation(s.order.scopes);
    assert k.unit in ReadyUnits(s, k.scope);
    assert k.scope in ReadyScopes(s);
    var d := FirstIn(scopes, ReadyScopes(s));
    assert d <= Ahead(s.order.scopes, k.scope);
    ScopeTurn(s, scopes[d]);
    AheadIs(s.order.scopes, scopes[d], d);
    if scopes[d] == k.scope {
      var ring := RingOf(s.order, k.scope);
      var e := FirstIn(Rotation(ring), ReadyUnits(s, k.scope));
      assert e <= Ahead(ring, k.unit);
      AheadIs(ring, Rotation(ring)[e], e);
    }
  }

  /** How many services may still come before this request's: queue places, then units, then scopes. */
  function Rank(a: Standing, units: nat, scopes: nat): nat {
    (a.place * units + a.unitsAhead) * scopes + a.scopesAhead
  }

  lemma {:induction false} MulMono(a: nat, b: nat, m: nat)
    requires a <= b
    ensures a * m <= b * m
  {
  }

  lemma {:induction false} RankMono(a: Standing, b: Standing, units: nat, scopes: nat)
    requires NoWorse(a, b)
    ensures Rank(a, units, scopes) <= Rank(b, units, scopes)
  {
    MulMono(a.place, b.place, units);
    MulMono(a.place * units + a.unitsAhead, b.place * units + b.unitsAhead, scopes);
  }

  /** A higher leading digit wins whatever follows. */
  lemma {:induction false} Leading(m: nat, n: nat, x: nat, y: nat, base: nat)
    requires m < n && x < base
    ensures m * base + x < n * base + y
  {
    MulMono(m + 1, n, base);
    assert (m + 1) * base == m * base + base;
  }

  /** A service that goes to another scope, another unit, or the request's own queue lowers its rank. */
  lemma {:induction false} RankFalls(a: Standing, b: Standing, units: nat, scopes: nat)
    requires b.unitsAhead < b.units <= units && b.scopesAhead < b.scopes <= scopes
    requires || (a.place == b.place && a.unitsAhead == b.unitsAhead && a.scopesAhead < b.scopesAhead)
             || (a.place == b.place && a.unitsAhead < b.unitsAhead && a.scopesAhead == b.scopes - 1)
             || (a.place < b.place && a.unitsAhead == b.units - 1 && a.scopesAhead == b.scopes - 1)
    ensures Rank(a, units, scopes) < Rank(b, units, scopes)
  {
    var m, n := a.place * units + a.unitsAhead, b.place * units + b.unitsAhead;
    if a.place < b.place {
      Leading(a.place, b.place, a.unitsAhead, b.unitsAhead, units);
      Leading(m, n, a.scopesAhead, b.scopesAhead, scopes);
    } else if a.unitsAhead < b.unitsAhead {
      Leading(m, n, a.scopesAhead, b.scopesAhead, scopes);
    }
  }

  lemma {:induction false} RankBound(a: Standing, units: nat, scopes: nat)
    requires a.unitsAhead < units && a.scopesAhead < scopes
    ensures Rank(a, units, scopes) < (a.place + 1) * units * scopes
  {
    var m := a.place * units + a.unitsAhead;
    assert (a.place + 1) * units == a.place * units + units;
    MulMono(m + 1, (a.place + 1) * units, scopes);
    assert (m + 1) * scopes == m * scopes + scopes;
  }

  /** How passing key `c` moves key `k`, which stands no further ahead. */
  lemma {:induction false} PassStanding(o: Order, c: AdmissionKey, k: AdmissionKey, place: nat)
    requires Rings.Valid(o.scopes) && k.scope in o.scopes.items && c.scope in o.scopes.items
    requires Rings.Valid(RingOf(o, k.scope)) && k.unit in RingOf(o, k.scope).items
    requires Rings.Valid(RingOf(o, c.scope)) && c.unit in RingOf(o, c.scope).items
    requires Ahead(o.scopes, c.scope) <= Ahead(o.scopes, k.scope)
    requires c.scope == k.scope ==> Ahead(RingOf(o, k.scope), c.unit) <= Ahead(RingOf(o, k.scope), k.unit)
    ensures var p := Pass(o, c);
            && Rings.Valid(p.scopes) && k.scope in p.scopes.items
            && Rings.Valid(RingOf(p, k.scope)) && k.unit in RingOf(p, k.scope).items
            && var a, b := StandingAt(p, k, place), StandingAt(o, k, place);
            && a.units == b.units && a.scopes == b.scopes
            && (c.scope != k.scope ==> a.unitsAhead == b.unitsAhead && a.scopesAhead < b.scopesAhead)
            && (c.scope == k.scope ==> a.scopesAhead == b.scopes - 1)
            && (c.scope == k.scope && c != k ==> a.unitsAhead < b.unitsAhead)
            && (c == k ==> a.unitsAhead == b.units - 1)
  {
    hide Ahead, Advance, Rings.Valid;
    AdvanceKeeps(o.scopes, Ahead(o.scopes, c.scope));
    AdvanceAhead(o.scopes, Ahead(o.scopes, c.scope), k.scope);
    SameAhead(o.scopes, c.scope, k.scope);
    if c.scope == k.scope {
      var ring := RingOf(o, k.scope);
      AdvanceKeeps(ring, Ahead(ring, c.unit));
      AdvanceAhead(ring, Ahead(ring, c.unit), k.unit);
      SameAhead(ring, c.unit, k.unit);
    }
  }

  lemma {:induction false} AdvanceKeeps<T(!new)>(r: Ring<T>, d: nat)
    requires Rings.Valid(r) && d < |r.items|
    ensures Rings.Valid(Advance(r, d)) && Advance(r, d).items == r.items
  {
    AdvanceRotation(r, d);
  }

  /** Serving a key and launching the head of its queue: what that does to a request that keeps waiting. */
  lemma {:induction false} ServiceLowersRank(s: State, id: Uint64, c: AdmissionKey, units: nat, scopes: nat)
    requires Inv(s) && Waits(s, id) && Turn(s) == Some(c)
    requires StandingOf(s, id).units <= units && StandingOf(s, id).scopes <= scopes
    requires HasWork(s.keys, c) && s.keys[c].queue[0] in s.entries
    requires c.scope in s.order.scopes.items && c.unit in RingOf(s.order, c.scope).items
    requires Rings.Valid(s.order.scopes) && Rings.Valid(RingOf(s.order, c.scope))
    requires Inv(Launch(Served(s, c), c)) && Waits(Launch(Served(s, c), c), id)
    ensures var t := Launch(Served(s, c), c);
            && Rank(StandingOf(t, id), units, scopes) < Rank(StandingOf(s, id), units, scopes)
            && StandingOf(t, id).units == StandingOf(s, id).units && StandingOf(t, id).scopes == StandingOf(s, id).scopes
  {
    hide Inv, Turn, Rank, Ahead, Pass, Rings.Valid, IndexOf, StandingAt;
    var t := Launch(Served(s, c), c);
    WaitsWhere(s, id);
    WaitsWhere(t, id);
    var k := s.entries[id].request.key;
    TurnComesInOrder(s, k);
    PassStanding(s.order, c, k, IndexOf(s.keys[k].queue, id));
    PassStanding(s.order, c, k, IndexOf(t.keys[k].queue, id));
    PlaceOf(s.order, k, IndexOf(s.keys[k].queue, id), IndexOf(t.keys[k].queue, id));
    PlaceOf(t.order, k, IndexOf(t.keys[k].queue, id), 0);
    if c == k {
      QueueDistinct(s, k);
      PlaceFalls(s.keys[k].queue, id);
    }
    RankFalls(StandingOf(t, id), StandingOf(s, id), units, scopes);
  }

  lemma {:induction false} QueueDistinct(s: State, k: AdmissionKey)
    requires Inv(s) && k in s.keys
    ensures Distinct(s.keys[k].queue)
  {
    hide Ledger, ValidLimits, Groups, OrderOk, Lists;
    assert KeyOk(s.entries, k, s.keys[k]);
  }

  lemma {:induction false} PlaceOf(o: Order, k: AdmissionKey, a: nat, b: nat)
    requires Rings.Valid(o.scopes) && k.scope in o.scopes.items
    requires Rings.Valid(RingOf(o, k.scope)) && k.unit in RingOf(o, k.scope).items
    ensures StandingAt(o, k, a) == StandingAt(o, k, b).(place := a)
    ensures StandingAt(o, k, a).place == a
  {
  }

  lemma {:induction false} SameAhead<T(!new)>(r: Ring<T>, x: T, y: T)
    requires Rings.Valid(r) && x in r.items && y in r.items
    ensures Ahead(r, x) == Ahead(r, y) <==> x == y
  {
  }

  lemma {:induction false} PlaceFalls(q: seq<Uint64>, id: Uint64)
    requires id in q && id in q[1..] && Distinct(q)
    ensures IndexOf(q[1..], id) < IndexOf(q, id)
  {
  }

  lemma {:induction false} DispatchLowersRank(s: State, now: GoInt, id: Uint64, units: nat, scopes: nat)
    requires Inv(s) && Waits(s, id) && Inv(Dispatch(s, now).0) && Waits(Dispatch(s, now).0, id)
    requires StandingOf(s, id).units <= units && StandingOf(s, id).scopes <= scopes
    ensures var t := Dispatch(s, now).0;
            && StandingOf(t, id).units <= units && StandingOf(t, id).scopes <= scopes
            && Rank(StandingOf(t, id), units, scopes) + (if Dispatch(s, now).1.Some? then 1 else 0)
               <= Rank(StandingOf(s, id), units, scopes)
  {
    hide Inv, Turn, Rank, StandingOf, Launch, Served, ExpireKeys;
    ExpireIsExact(s, now);
    var x := Expire(s, now);
    TurnIsReady(x);
    StillEarly(s, now, id);
    ExpireNeverDelays(s, s.keys.Keys, now, id);
    RankMono(StandingOf(x, id), StandingOf(s, id), units, scopes);
    if Dispatch(s, now).1.Some? {
      ServiceLowersRank(x, id, Turn(x).value, units, scopes);
    }
  }

  /** A request that is still queued after a dispatch was not overdue. */
  lemma {:induction false} StillEarly(s: State, now: GoInt, id: Uint64)
    requires Inv(s) && Waits(s, id) && id in Dispatch(s, now).0.entries
    ensures s.entries[id].request.deadline > now
  {
    hide Inv, Turn, Expire;
    ExpireIsExact(s, now);
    TurnIsReady(Expire(s, now));
  }

  /** Whether the operation puts a request on the wire. */
  ghost predicate Serves(s: State, op: Op)
    requires Inv(s)
  {
    op.DoDispatch? && Dispatch(s, op.now).1.Some?
  }

  lemma {:induction false} OtherOpsNeverDelay(s: State, op: Op, id: Uint64)
    requires Inv(s) && Waits(s, id) && Waits(Step(s, op), id) && Step(s, op).keys.Keys <= s.keys.Keys && !op.DoDispatch?
    ensures Inv(Step(s, op)) && NoWorse(StandingOf(Step(s, op), id), StandingOf(s, id))
  {
    hide Inv, StandingOf, Enqueue, ScheduleCoalesced, ReleaseDependents, Retry, DropQueued, Land, Dispatch;
    StepKeeps(s, op);
    if Callable(s, op) {
      match op
      case DoEnqueue(r) => EnqueueNeverDelays(s, r, id);
      case DoSchedule(r, g, n) => ScheduleNeverDelays(s, r, g, n, id);
      case DoRelease(k, n) => ReleaseDependentsNeverDelays(s, k, n, id);
      case DoCancel(j) => CancelNeverDelays(s, j, id);
      case DoComplete(j) =>
        if j in s.entries && s.entries[j].phase == InFlight {
          LandNeverDelays(s, j, id);
        }
      case DoRetry(j) => RetryNeverDelays(s, j, id);
      case DoFinish(g) => FinishNeverDelays(s, g, id);
    }
  }

  lemma {:induction false} CancelNeverDelays(s: State, j: Uint64, id: Uint64)
    requires Inv(s) && Waits(s, id) && Waits(CancelQueued(s, j).0, id)
    ensures Inv(CancelQueued(s, j).0) && NoWorse(StandingOf(CancelQueued(s, j).0, id), StandingOf(s, id))
  {
    hide Inv, StandingOf, DropQueued;
    CancelKeeps(s, j);
    if j in s.entries && s.entries[j].phase == Queued {
      WaitsWhere(s, j);
      DropNeverDelays(s, s.entries[j].request.key, {j}, id);
    }
  }

  lemma {:induction false} GroupEntry(s: State, g: nat)
    requires Inv(s) && g in s.coalesced
    ensures s.coalesced[g] in s.entries && s.entries[s.coalesced[g]].group == Some(g)
  {
    hide Ledger, ValidLimits, Queues, OrderOk, Lists;
  }

  lemma {:induction false} FinishNeverDelays(s: State, g: nat, id: Uint64)
    requires Inv(s) && Waits(s, id) && Waits(FinishCoalesced(s, g), id)
    ensures Inv(FinishCoalesced(s, g)) && NoWorse(StandingOf(FinishCoalesced(s, g), id), StandingOf(s, id))
  {
    hide Inv, StandingOf, DropQueued, Land;
    FinishKeeps(s, g);
    if g in s.coalesced {
      GroupEntry(s, g);
      var j := s.coalesced[g];
      if s.entries[j].phase == Queued {
        WaitsWhere(s, j);
        ForgetQueued(s, s.entries[j].request.key, {j});
        DropNeverDelays(s, s.entries[j].request.key, {j}, id);
      } else {
        LandNeverDelays(s, j, id);
      }
    }
  }

  lemma {:induction false} StepLowersRank(s: State, op: Op, id: Uint64, units: nat, scopes: nat)
    requires Inv(s) && Waits(s, id) && Waits(Step(s, op), id) && Step(s, op).keys.Keys <= s.keys.Keys
    requires StandingOf(s, id).units <= units && StandingOf(s, id).scopes <= scopes
    ensures Inv(Step(s, op))
    ensures var t := Step(s, op);
            && StandingOf(t, id).units <= units && StandingOf(t, id).scopes <= scopes
            && Rank(StandingOf(t, id), units, scopes) + (if Serves(s, op) then 1 else 0) <= Rank(StandingOf(s, id), units, scopes)
  {
    hide Inv, StandingOf, Rank, Dispatch;
    StepKeeps(s, op);
    if op.DoDispatch? {
      DispatchLowersRank(s, op.now, id, units, scopes);
    } else {
      OtherOpsNeverDelay(s, op, id);
      RankMono(StandingOf(Step(s, op), id), StandingOf(s, id), units, scopes);
    }
  }

  // ---------- Bounded waiting ----------

  /** Along the run no new key joins, and the request never leaves its queue. */
  ghost predicate KeepsWaiting(s: State, ops: seq<Op>, id: Uint64)
    requires Inv(s)
    decreases |ops|
  {
    if ops == [] then Waits(s, id)
    else
      StepKeeps(s, ops[0]);
      Waits(s, id) && Step(s, ops[0]).keys.Keys <= s.keys.Keys && KeepsWaiting(Step(s, ops[0]), ops[1..], id)
  }

  ghost function Services(s: State, ops: seq<Op>): nat
    requires Inv(s)
    decreases |ops|
  {
    if ops == [] then 0
    else
      StepKeeps(s, ops[0]);
      (if Serves(s, ops[0]) then 1 else 0) + Services(Step(s, ops[0]), ops[1..])
  }

  lemma {:induction false} ServicesBounded(s: State, ops: seq<Op>, id: Uint64, units: nat, scopes: nat)
    requires Inv(s) && KeepsWaiting(s, ops, id)
    requires StandingOf(s, id).units <= units && StandingOf(s, id).scopes <= scopes
    ensures Services(s, ops) <= Rank(StandingOf(s, id), units, scopes)
    decreases |ops|
  {
    hide Inv, StandingOf, Rank, Step, Serves;
    if ops != [] {
      StepKeeps(s, ops[0]);
      StepLowersRank(s, ops[0], id, units, scopes);
      ServicesBounded(Step(s, ops[0]), ops[1..], id, units, scopes);
    }
  }

  /**
   Bounded waiting. While no scope or unit joins, fewer than (q + 1) * scopes * units requests are put on the
   wire before a request at position q of its queue is dispatched, expires or is cancelled.
   */
  lemma {:induction false} BoundedWaiting(s: State, ops: seq<Op>, id: Uint64)
    requires Inv(s) && KeepsWaiting(s, ops, id)
    ensures id in s.entries && s.entries[id].request.key in s.keys
    ensures var key := s.entries[id].request.key;
            var q := IndexOf(s.keys[key].queue, id);
            Services(s, ops) < (q + 1) * |RingOf(s.order, key.scope).items| * |s.order.scopes.items|
  {
    hide Inv, Rank, Step, KeepsWaiting, Ahead, Services, StandingOf, RingOf, IndexOf, Rotation;
    assert Waits(s, id) by { WaitingNow(s, ops, id); }
    WaitsWhere(s, id);
    StandingIs(s, id);
    var a := StandingOf(s, id);
    ServicesBounded(s, ops, id, a.units, a.scopes);
    RankBound(a, a.units, a.scopes);
  }

  lemma {:induction false} StandingIs(s: State, id: Uint64)
    requires Inv(s) && Waits(s, id)
    ensures s.entries[id].request.key in s.keys
    ensures var a, key := StandingOf(s, id), s.entries[id].request.key;
            && a.units == |RingOf(s.order, key.scope).items| && a.scopes == |s.order.scopes.items|
            && a.place == IndexOf(s.keys[key].queue, id) && a.unitsAhead < a.units && a.scopesAhead < a.scopes
  {
    hide Inv, Ahead;
    WaitsWhere(s, id);
  }

  lemma {:induction false} WaitingNow(s: State, ops: seq<Op>, id: Uint64)
    requires Inv(s) && KeepsWaiting(s, ops, id)
    ensures Waits(s, id)
  {
    hide Inv, Step;
  }
}
