/** The scheduler as the source runs it: maps, slices, cursors and counters updated in place. */
module EndpointScheduling {
  import opened Common
  import opened MapSum
  import opened Rings
  import opened SchedulerModel
  import opened SchedulerLedger
  import opened SchedulerOrder
  import opened SchedulerInvariant
  import opened SchedulerSteps
  import opened SchedulerDispatch

  function CheckedAdd(a: int, b: int): Option<int> {
    if a < 0 || b < 0 || a > MAX_INT - b then None else Some(a + b)
  }

  function CheckedRemaining(limit: int, used: int): Option<int> {
    if limit < 0 || used < 0 || used > limit then None else Some(limit - used)
  }

  method FindIndex<T(==)>(s: seq<T>, x: T) returns (i: nat)
    ensures i == IndexOf(s, x)
  {
    i := 0;
    while i < |s| && s[i] != x
      invariant i <= |s|
      invariant IndexOf(s, x) == i + IndexOf(s[i..], x)
    {
      i := i + 1;
    }
  }

  ghost function UnitRings(order: map<string, seq<Byte>>, cursors: map<string, nat>): map<string, Ring<Byte>> {
    map scope | scope in order :: Ring(order[scope], if scope in cursors then cursors[scope] else 0)
  }

  class EndpointScheduler {
    const limits: Limits
    var entries: map<Uint64, Entry>
    var coalesced: map<nat, Uint64>
    var keys: map<AdmissionKey, KeyState>
    var scopeOrder: seq<string>
    var unitOrder: map<string, seq<Byte>>
    var scopeCursor: nat
    var unitCursor: map<string, nat>
    var inFlight: int

    ghost function OrderView(): Order
      reads this
    {
      Order(Ring(scopeOrder, scopeCursor), UnitRings(unitOrder, unitCursor))
    }

    ghost function View(): State
      reads this
    {
      State(limits, entries, coalesced, keys, OrderView(), inFlight)
    }

    /** No cursor outlives the units it points into. */
    ghost predicate Tidy()
      reads this
    {
      unitCursor.Keys <= unitOrder.Keys
    }

    ghost predicate Valid()
      reads this
    {
      Inv(View()) && Tidy()
    }

    constructor (l: Limits)
      requires ValidLimits(l)
      ensures Valid() && View() == Empty(l)
    {
      limits := l;
      entries, coalesced, keys := map[], map[], map[];
      scopeOrder, unitOrder, scopeCursor, unitCursor := [], map[], 0, map[];
      inFlight := 0;
      new;
      EmptyInv(l);
      assert View() == Empty(l);
    }

    // ---------- Admission ----------

    method Tally(scope: string) returns (total: int, inScope: int, accounting: bool)
      requires Valid()
      ensures !accounting && total == Total(keys) && inScope == ScopeTotal(keys, scope)
    {
      hide ValidLimits, Queues, Groups, OrderOk, Lists, Sum;
      total, inScope, accounting := 0, 0, false;
      var rest := keys;
      SumsNonNegative(limits, keys, scope);
      TotalsFit(View(), scope);
      while rest != map[]
        invariant forall k :: k in rest ==> k in keys && rest[k] == keys[k]
        invariant total + Total(rest) == Total(keys)
        invariant inScope + ScopeTotal(rest, scope) == ScopeTotal(keys, scope)
        invariant 0 <= inScope <= total && !accounting
        decreases |rest|
      {
        var k :| k in rest;
        assert KeyBounds(limits, keys[k]);
        UnsetKey(limits, rest, k);
        forall j | j in rest - {k}
          ensures KeyBounds(limits, (rest - {k})[j])
        {
          assert j in rest;
        }
        SumsNonNegative(limits, rest - {k}, scope);
        var occupied := CheckedAdd(rest[k].queued, rest[k].dependents);
        var sum := if occupied.Some? then CheckedAdd(total, occupied.value) else None;
        var scopeSum := if k.scope != scope then Some(inScope) else if occupied.Some? then CheckedAdd(inScope, occupied.value) else None;
        if sum.Some? && scopeSum.Some? {
          total, inScope := sum.value, scopeSum.value;
        } else {
          accounting := true;
        }
        rest := rest - {k};
      }
      EmptySums(limits, scope);
    }

    /** What the keys other than `key` still miss of their protected shares, added to `start`. */
    method Owed(key: AdmissionKey, start: int) returns (sum: int, accounting: bool)
      requires Valid() && 0 <= start && start + Deficits(limits, keys - {key}) <= MAX_INT
      ensures !accounting && sum == start + Deficits(limits, keys - {key})
    {
      hide ValidLimits, Queues, Groups, OrderOk, Lists, Sum;
      sum, accounting := start, false;
      var rest := keys - {key};
      while rest != map[]
        invariant forall k :: k in rest ==> k in keys && rest[k] == keys[k]
        invariant sum + Deficits(limits, rest) == start + Deficits(limits, keys - {key})
        invariant 0 <= sum && !accounting
        decreases |rest|
      {
        var k :| k in rest;
        assert KeyBounds(limits, keys[k]);
        UnsetKey(limits, rest, k);
        forall j | j in rest - {k}
          ensures KeyBounds(limits, (rest - {k})[j])
        {
          assert j in rest;
        }
        SumsNonNegative(limits, rest - {k}, key.scope);
        var occupied := CheckedAdd(rest[k].queued, rest[k].dependents);
        if occupied.None? {
          accounting := true;
        } else if occupied.value < limits.protectedSlots {
          var more := CheckedAdd(sum, limits.protectedSlots - occupied.value);
          if more.Some? {
            sum := more.value;
          } else {
            accounting := true;
          }
        }
        rest := rest - {k};
      }
      EmptySums(limits, key.scope);
    }

    method CheckAdmissionCount(key: AdmissionKey, count: int) returns (refusal: Option<Rejection>)
      requires Valid()
      ensures refusal == CheckAdmission(limits, keys, key, count)
    {
      hide ValidLimits, Queues, Groups, OrderOk, Lists, Sum, Ledger;
      var active := key in keys;
      if count <= 0 {
        return Some(QueuedCapacity);
      }
      if !active && |keys| >= limits.maxKeys {
        return Some(ActiveKeys);
      }
      KeyFits(View(), key);
      var mine := if active then CheckedAdd(keys[key].queued, keys[key].dependents) else Some(0);
      var keyRemaining := if mine.Some? then CheckedRemaining(limits.maxPerKey, mine.value) else None;
      if keyRemaining.Some? && count > keyRemaining.value {
        return Some(QueuedPerKey);
      }
      var total, inScope, miscounted := Tally(key.scope);
      TotalsFit(View(), key.scope);
      var totalRemaining := CheckedRemaining(limits.totalQueued, total);
      var scopeRemaining := CheckedRemaining(limits.maxPerScope, inScope);
      if totalRemaining.Some? && scopeRemaining.Some? && (count > totalRemaining.value || count > scopeRemaining.value) {
        return Some(QueuedCapacity);
      }
      var positions := limits.maxKeys - |keys| - (if active then 0 else 1);
      OwedFits(View(), key);
      var reserved, unpayable := Owed(key, positions * limits.protectedSlots);
      var usable := CheckedRemaining(limits.totalQueued, reserved);
      var usableRemaining := if usable.Some? then CheckedRemaining(usable.value, total) else None;
      refusal :=
        if keyRemaining.None? || miscounted || totalRemaining.None? || scopeRemaining.None? || unpayable || usable.None? then Some(Accounting)
        else if usableRemaining.None? || count > usableRemaining.value then Some(ProtectedCapacity)
        else None;
    }

    // ---------- Order ----------

    method RememberOrder(key: AdmissionKey)
      requires OrderOk(OrderView()) && Tidy()
      modifies `scopeOrder, `unitOrder
      ensures Tidy() && OrderView() == Remember(old(OrderView()), key)
    {
      hide OrderOk;
      ghost var before := OrderView();
      var at := FindIndex(scopeOrder, key.scope);
      if at == |scopeOrder| {
        scopeOrder := scopeOrder + [key.scope];
      }
      var units := if key.scope in unitOrder then unitOrder[key.scope] else [];
      var unitAt := FindIndex(units, key.unit);
      if unitAt == |units| {
        unitOrder := unitOrder[key.scope := units + [key.unit]];
      }
      assert unitOrder[key.scope] == Append(RingOf(before, key.scope), key.unit).items;
      assert OrderView().units == Remember(before, key).units;
    }

    method ForgetOrder(key: AdmissionKey)
      requires OrderOk(OrderView()) && Tidy()
      modifies `scopeOrder, `unitOrder, `scopeCursor, `unitCursor
      ensures Tidy() && OrderView() == Forget(old(OrderView()), key)
    {
      ghost var before := OrderView();
      var units := if key.scope in unitOrder then unitOrder[key.scope] else [];
      var at := FindIndex(units, key.unit);
      assert units == RingOf(before, key.scope).items;
      if at == |units| {
        return;
      }
      var cursor := if key.scope in unitCursor then unitCursor[key.scope] else 0;
      var rest := units[..at] + units[at + 1..];
      ghost var ring := Remove(RingOf(before, key.scope), key.unit);
      assert rest == ring.items;
      if |rest| > 0 {
        unitOrder := unitOrder[key.scope := rest];
        unitCursor := unitCursor[key.scope := CursorAfterRemoval(cursor, at, |rest| + 1)];
        assert OrderView().units == before.units[key.scope := ring];
        return;
      }
      unitOrder := unitOrder - {key.scope};
      unitCursor := unitCursor - {key.scope};
      assert UnitRings(unitOrder, unitCursor) == before.units - {key.scope};
      ForgetScope(key.scope);
    }

    method ForgetScope(scope: string)
      requires scope in scopeOrder
      modifies `scopeOrder, `scopeCursor
      ensures Ring(scopeOrder, scopeCursor) == Remove(old(Ring(scopeOrder, scopeCursor)), scope)
    {
      var at := FindIndex(scopeOrder, scope);
      scopeCursor := CursorAfterRemoval(scopeCursor, at, |scopeOrder|);
      scopeOrder := scopeOrder[..at] + scopeOrder[at + 1..];
    }

    method ReleaseIfEmpty(key: AdmissionKey)
      requires Core(View()) && Busy(keys, {key}) && Tidy()
      modifies `keys, `scopeOrder, `unitOrder, `scopeCursor, `unitCursor
      ensures Valid() && View() == Release(old(View()), key)
    {
      hide Inv, Forget, Core, Busy, OrderOk;
      ReleaseKeeps(View(), key);
      if key in keys && |keys[key].queue| == 0 && keys[key].inFlight == 0 && keys[key].dependents == 0 {
        CoreOrder(View());
        keys := keys - {key};
        ForgetOrder(key);
      }
    }

    // ---------- Entry points ----------

    method ActivateKey(key: AdmissionKey)
      requires Valid()
      modifies `keys, `scopeOrder, `unitOrder
      ensures View() == Activate(old(View()), key) && Tidy()
    {
      hide Inv, Remember;
      if key !in keys {
        InvOrder(View());
        keys := keys[key := KeyState([], 0, 0, 0)];
        RememberOrder(key);
      }
    }

    method EnqueueLocked(r: Request, group: Option<nat>, weight: nat) returns (refusal: Option<Rejection>)
      requires Valid() && (weight == 0 ==> r.key in keys) && (group.Some? ==> group.value !in coalesced)
      modifies this
      ensures Valid() && View() == Admit(old(View()), r, group, weight).0
      ensures refusal == Admit(old(View()), r, group, weight).1
    {
      hide Inv, Remember, CheckAdmission;
      AdmitKeeps(View(), r, group, weight);
      if r.id in entries {
        return Some(DuplicateRequest);
      }
      refusal := None;
      if weight > 0 {
        refusal := CheckAdmissionCount(r.key, weight);
        if refusal.Some? {
          return;
        }
      }
      ActivateKey(r.key);
      var v := keys[r.key];
      entries := entries[r.id := Entry(r, Queued, 0, weight, group)];
      keys := keys[r.key := v.(queue := v.queue + [r.id], queued := v.queued + weight)];
      if group.Some? {
        coalesced := coalesced[group.value := r.id];
      }
    }

    method Enqueue(r: Request) returns (refusal: Option<Rejection>)
      requires Valid()
      modifies this
      ensures Valid() && View() == SchedulerModel.Enqueue(old(View()), r).0
      ensures refusal == SchedulerModel.Enqueue(old(View()), r).1
    {
      hide Inv, Admit;
      if !ValidRequest(r) {
        return Some(BadRequest);
      }
      refusal := EnqueueLocked(r, None, 1);
    }

    /** `count` intents were coalesced into `group`, which bounded them by the dependents limit. */
    method ScheduleCoalesced(r: Request, group: nat, count: int) returns (refusal: Option<Rejection>)
      requires Valid() && group !in coalesced && count <= limits.maxDependents
      modifies this
      ensures Valid() && View() == SchedulerModel.ScheduleCoalesced(old(View()), r, group, count).0
      ensures refusal == SchedulerModel.ScheduleCoalesced(old(View()), r, group, count).1
    {
      hide Inv, Remember, CheckAdmission, Core, Busy, Push;
      ghost var s := View();
      ScheduleKeeps(s, r, group, count);
      if !ValidRequest(r) || count <= 0 {
        return Some(BadRequest);
      }
      if r.id in entries {
        return Some(DuplicateRequest);
      }
      refusal := CheckAdmissionCount(r.key, count);
      if refusal.Some? {
        return;
      }
      AdmissionAfterActivation(s, r.key, count);
      ActivateKeeps(s, r.key);
      ActivateKey(r.key);
      hide Activate;
      DependentsBounded(View(), r.key);
      var remaining := CheckedRemaining(limits.maxDependents, keys[r.key].dependents);
      assert remaining.Some?;
      if count > remaining.value {
        ReleaseIfEmpty(r.key);
        return Some(CoalescedDependents);
      }
      ChargeKeeps(View(), r.key, count);
      var v := keys[r.key];
      keys := keys[r.key := v.(dependents := v.dependents + count)];
      NowBusy(View(), r.key);
      refusal := EnqueueLocked(r, Some(group), 0);
      AttachIs(Activate(s, r.key), r, group, count);
    }

    method ReleaseCoalescedDependents(key: AdmissionKey, count: int)
      requires Valid()
      modifies this
      ensures Valid() && View() == ReleaseDependents(old(View()), key, count)
    {
      hide Ledger, ValidLimits, Queues, Groups, OrderOk, Lists, Release;
      if key !in keys || count <= 0 || count > keys[key].dependents {
        return;
      }
      FewerDependentsLedger(limits, keys, key, count);
      DependentsKeep(View(), key, keys[key].dependents - count);
      keys := keys[key := keys[key].(dependents := keys[key].dependents - count)];
      ReleaseIfEmpty(key);
    }

    // ---------- Leaving ----------

    method ForgetEntryLocked(id: Uint64)
      requires id in entries
      modifies `entries, `coalesced
      ensures View() == ForgetEntries(old(View()), {id})
    {
      var e := entries[id];
      ForgetOne(View(), id);
      entries := entries - {id};
      if e.group.Some? {
        coalesced := coalesced - {e.group.value};
      }
    }

    /** Takes one queued entry out of its queue. */
    method Withdraw(id: Uint64)
      requires Valid() && id in entries && entries[id].phase == Queued
      modifies this
      ensures Valid() && View() == DropQueued(old(View()), old(entries[id].request.key), {id})
    {
      hide Inv, Core, Busy, Release, Minus, QueueWeight, ForgetEntries;
      ghost var s := View();
      var e := entries[id];
      var key := e.request.key;
      WithdrawIs(s, id);
      ForgetQueued(s, key, {id});
      PulledKeeps(s, key, {id});
      var v := keys[key];
      var at := FindIndex(v.queue, id);
      var remaining := CheckedRemaining(v.queued, e.weight);
      assert remaining.Some?;
      keys := keys[key := v.(queue := v.queue[..at] + v.queue[at + 1..], queued := remaining.value)];
      ForgetEntryLocked(id);
      assert View() == Pulled(s, key, {id});
      ReleaseIfEmpty(key);
    }

    /** `orphan` is the group that the source fails once the lock is released. */
    method CancelQueued(id: Uint64) returns (cancelled: bool, orphan: Option<nat>)
      requires Valid()
      modifies this
      ensures Valid() && View() == SchedulerModel.CancelQueued(old(View()), id).0
      ensures cancelled == SchedulerModel.CancelQueued(old(View()), id).1
      ensures orphan == Orphan(old(View()), View(), id)
    {
      hide Inv, DropQueued;
      if id !in entries || entries[id].phase != Queued {
        return false, None;
      }
      orphan := entries[id].group;
      KeyOfEntry(View(), id);
      DropLoses(View(), entries[id].request.key, {id});
      Withdraw(id);
      return true, orphan;
    }

    method ReleaseInFlightLocked(key: AdmissionKey) returns (ok: bool)
      modifies `keys, `inFlight
      ensures ok == (key in old(keys) && old(keys[key].inFlight) >= 1 && old(inFlight) >= 1)
      ensures ok ==> keys == old(keys)[key := old(keys)[key].(inFlight := old(keys)[key].inFlight - 1)] && inFlight == old(inFlight) - 1
      ensures !ok ==> keys == old(keys) && inFlight == old(inFlight)
    {
      if key !in keys {
        return false;
      }
      var keyInFlight := CheckedRemaining(keys[key].inFlight, 1);
      var left := CheckedRemaining(inFlight, 1);
      if keyInFlight.None? || left.None? {
        return false;
      }
      keys := keys[key := keys[key].(inFlight := keyInFlight.value)];
      inFlight := left.value;
      return true;
    }

    /** Ends one entry that is on the wire. */
    method LandEntry(id: Uint64)
      requires Valid() && id in entries && entries[id].phase == InFlight
      modifies this
      ensures Valid() && View() == Land(old(View()), id)
    {
      hide Inv, Core, Busy, Release, ForgetEntries;
      ghost var s := View();
      LandedKeeps(s, id);
      FlyingCounted(s, id);
      var key := entries[id].request.key;
      var ok := ReleaseInFlightLocked(key);
      assert ok;
      ForgetEntryLocked(id);
      assert View() == Landed(s, id);
      ReleaseIfEmpty(key);
    }

    method Complete(id: Uint64) returns (refusal: Option<Rejection>)
      requires Valid()
      modifies this
      ensures Valid() && View() == SchedulerModel.Complete(old(View()), id).0
      ensures refusal == SchedulerModel.Complete(old(View()), id).1
    {
      hide Inv, Land;
      if id !in entries || entries[id].phase != InFlight {
        return Some(RequestState);
      }
      LandEntry(id);
      return None;
    }

    method FinishCoalesced(group: nat)
      requires Valid()
      modifies this
      ensures Valid() && View() == SchedulerModel.FinishCoalesced(old(View()), group)
    {
      hide Inv, Land, DropQueued;
      if group !in coalesced {
        return;
      }
      GroupHasEntry(View(), group);
      var id := coalesced[group];
      if entries[id].phase == Queued {
        Withdraw(id);
      } else {
        LandEntry(id);
      }
    }

    /** `orphan` is the group that the source fails once the lock is released: that of a request given up. */
    method Retry(id: Uint64) returns (refusal: Option<Rejection>, orphan: Option<nat>)
      requires Valid()
      modifies this
      ensures Valid() && View() == SchedulerModel.Retry(old(View()), id).0
      ensures refusal == SchedulerModel.Retry(old(View()), id).1
      ensures orphan == Orphan(old(View()), View(), id)
    {
      hide Inv, Core, Busy, Land, CheckAdmission;
      ghost var s := View();
      if id !in entries || entries[id].phase != InFlight {
        return Some(RequestState), None;
      }
      LandedKeeps(s, id);
      RetryKeeps(s, id);
      FlyingCounted(s, id);
      LandLoses(s, id);
      var e := entries[id];
      if e.retries >= limits.maxRetries {
        LandEntry(id);
        return Some(RetryAttempts), e.group;
      }
      if e.weight > 0 {
        refusal := CheckAdmissionCount(e.request.key, e.weight);
        if refusal.Some? {
          LandEntry(id);
          return refusal, e.group;
        }
      }
      var ok := ReleaseInFlightLocked(e.request.key);
      assert ok;
      RequeueStays(s, id);
      var v := keys[e.request.key];
      entries := entries[id := e.(phase := Queued, retries := e.retries + 1)];
      keys := keys[e.request.key := v.(queue := v.queue + [id], queued := v.queued + e.weight)];
      return None, None;
    }

    // ---------- Dispatch ----------

    /** Scans one key's queue, forgets what is due and names the groups whose entries went. */
    method ScanQueue(key: AdmissionKey, now: GoInt) returns (kept: seq<Uint64>, queued: int, expired: seq<nat>)
      requires Valid() && key in keys
      modifies `entries, `coalesced
      ensures var s := old(View());
              && entries == s.entries - Due(s, key, now)
              && coalesced == s.coalesced - GroupsOf(s.entries, Due(s, key, now))
              && kept == Minus(keys[key].queue, Due(s, key, now))
              && queued == keys[key].queued - (QueueWeight(s.entries, keys[key].queue) - QueueWeight(s.entries, kept))
      ensures Distinct(expired) && forall g :: g in expired <==> g in old(coalesced) && g !in coalesced
    {
      hide Inv, Minus, QueueWeight, GroupsOf, Due, Gone;
      ghost var s := View();
      ghost var due := Due(s, key, now);
      var queue := keys[key].queue;
      kept, queued, expired := [], keys[key].queued, [];
      var i := 0;
      Scanned(s, key, now);
      while i < |queue|
        invariant i <= |queue|
        invariant kept == Minus(queue[..i], due)
        invariant queued == keys[key].queued - (QueueWeight(s.entries, queue[..i]) - QueueWeight(s.entries, kept))
        invariant entries == s.entries - Gone(queue[..i], due)
        invariant coalesced == s.coalesced - GroupsOf(s.entries, Gone(queue[..i], due))
        invariant Distinct(expired) && forall g :: g in expired <==> g in s.coalesced && g !in coalesced
      {
        var id := queue[i];
        Scan(s, key, now, i);
        if entries[id].request.deadline <= now {
          var left := CheckedRemaining(queued, entries[id].weight);
          assert left.Some?;
          queued := left.value;
          var group := entries[id].group;
          entries := entries - {id};
          if group.Some? {
            coalesced := coalesced - {group.value};
            expired := expired + [group.value];
          }
        } else {
          kept := kept + [id];
        }
        i := i + 1;
      }
    }

    method ExpireQueue(key: AdmissionKey, now: GoInt) returns (expired: seq<nat>)
      requires Valid() && key in keys
      modifies this
      ensures Valid() && View() == ExpireKey(old(View()), key, now)
      ensures Distinct(expired) && forall g :: g in expired <==> g in old(coalesced) && g !in coalesced
    {
      hide Inv, Core, Busy, Release, Minus, QueueWeight, GroupsOf, Due;
      ghost var s := View();
      DueQueued(s, key, now);
      PulledKeeps(s, key, Due(s, key, now));
      ExpireKeyKeeps(s, key, now);
      var kept, queued;
      kept, queued, expired := ScanQueue(key, now);
      keys := keys[key := keys[key].(queue := kept, queued := queued)];
      assert View() == Pulled(s, key, Due(s, key, now));
      ReleaseIfEmpty(key);
    }

    method ExpireLocked(now: GoInt) returns (expired: seq<nat>)
      requires Valid()
      modifies this
      ensures Valid() && View() == Expire(old(View()), now)
      ensures Distinct(expired) && forall g :: g in expired <==> g in old(coalesced) && g !in coalesced
    {
      hide Inv, ExpireKey;
      ghost var s := View();
      var todo := keys.Keys;
      expired := [];
      while todo != {}
        invariant Valid() && todo <= keys.Keys
        invariant ExpireKeys(View(), todo, now) == Expire(s, now)
        invariant coalesced.Keys <= s.coalesced.Keys
        invariant Distinct(expired) && forall g :: g in expired <==> g in s.coalesced && g !in coalesced
        decreases |todo|
      {
        var k :| k in todo;
        ghost var before, was := View(), coalesced.Keys;
        ExpiryOrderIrrelevant(before, todo, k, now);
        OtherKeysStay(before, k, now);
        ExpireKeyKeeps(before, k, now);
        var more := ExpireQueue(k, now);
        DistinctJoin(expired, more);
        expired := expired + more;
        todo := todo - {k};
      }
    }

    method ScopeHasQueued(scope: string) returns (found: bool)
      requires scope in unitOrder
      ensures found == (scope in ReadyScopes(View()))
    {
      var units := unitOrder[scope];
      assert units == RingOf(View().order, scope).items;
      var i := 0;
      while i < |units|
        invariant i <= |units|
        invariant forall j :: 0 <= j < i ==> units[j] !in ReadyUnits(View(), scope)
      {
        if HasWork(keys, AdmissionKey(scope, units[i])) {
          assert units[i] in ReadyUnits(View(), scope);
          return true;
        }
        i := i + 1;
      }
      assert ReadyUnits(View(), scope) == {};
      return false;
    }

    /** The first scope in service order with queued work; the cursor steps past it. */
    method NextScope() returns (scope: Option<string>)
      requires Valid()
      modifies `scopeCursor
      ensures var rotation := Rotation(Ring(scopeOrder, old(scopeCursor)));
              var d := FirstIn(rotation, ReadyScopes(old(View())));
              if d == |rotation| then scope == None && scopeCursor == old(scopeCursor)
              else scope == Some(rotation[d]) && Ring(scopeOrder, scopeCursor) == Advance(Ring(scopeOrder, old(scopeCursor)), d)
    {
      hide Inv, ReadyScopes, Rotation;
      ghost var ready, ring := ReadyScopes(View()), Ring(scopeOrder, scopeCursor);
      InvOrder(View());
      if |scopeOrder| == 0 {
        return None;
      }
      var checked := 0;
      while checked < |scopeOrder|
        invariant checked <= |scopeOrder| && scopeCursor == ring.cursor
        invariant forall i :: 0 <= i < checked ==> Rotation(ring)[i] !in ready
      {
        RotationAt(ring, checked);
        var index := (scopeCursor + checked) % |scopeOrder|;
        ScopeKnown(View(), scopeOrder[index]);
        var found := ScopeHasQueued(scopeOrder[index]);
        if found {
          FirstIs(Rotation(ring), ready, checked);
          scopeCursor := (index + 1) % |scopeOrder|;
          return Some(scopeOrder[index]);
        }
        checked := checked + 1;
      }
      FirstIs(Rotation(ring), ready, checked);
      return None;
    }

    /** The first unit of the scope in service order with queued work; its cursor steps past it. */
    method NextUnit(scope: string) returns (unit: Option<Byte>)
      requires OrderOk(OrderView()) && Tidy()
      modifies `unitCursor
      ensures var ring := RingOf(old(View()).order, scope);
              var d := FirstIn(Rotation(ring), ReadyUnits(old(View()), scope));
              if d == |Rotation(ring)| then unit == None && unitCursor == old(unitCursor)
              else && unit == Some(Rotation(ring)[d])
                   && OrderView() == old(OrderView()).(units := old(OrderView()).units[scope := Advance(ring, d)])
                   && Tidy()
    {
      hide ReadyUnits, Rotation;
      ghost var ready, ring := ReadyUnits(View(), scope), RingOf(View().order, scope);
      if scope !in unitOrder {
        return None;
      }
      var units := unitOrder[scope];
      if |units| == 0 {
        return None;
      }
      var cursor := if scope in unitCursor then unitCursor[scope] else 0;
      assert ring == Ring(units, cursor);
      var checked := 0;
      while checked < |units|
        invariant checked <= |units| && unitCursor == old(unitCursor)
        invariant forall i :: 0 <= i < checked ==> Rotation(ring)[i] !in ready
      {
        RotationAt(ring, checked);
        var index := (cursor + checked) % |units|;
        UnitReady(View(), scope, units[index]);
        if HasWork(keys, AdmissionKey(scope, units[index])) {
          FirstIs(Rotation(ring), ready, checked);
          unitCursor := unitCursor[scope := (index + 1) % |units|];
          assert OrderView().units == old(OrderView()).units[scope := Advance(ring, checked)];
          return Some(units[index]);
        }
        checked := checked + 1;
      }
      FirstIs(Rotation(ring), ready, checked);
      return None;
    }

    /** Moves the head of a key's queue onto the wire. */
    method LaunchHead(key: AdmissionKey) returns (request: Request)
      requires HasWork(keys, key) && keys[key].queue[0] in entries
      requires 0 <= entries[keys[key].queue[0]].weight <= keys[key].queued
      modifies `keys, `entries, `inFlight
      ensures View() == Launch(old(View()), key) && request == old(entries[keys[key].queue[0]].request)
    {
      var v := keys[key];
      var id := v.queue[0];
      var queued := CheckedRemaining(v.queued, entries[id].weight);
      assert queued.Some?;
      keys := keys[key := v.(queue := v.queue[1..], queued := queued.value, inFlight := v.inFlight + 1)];
      inFlight := inFlight + 1;
      entries := entries[id := entries[id].(phase := InFlight)];
      request := entries[id].request;
    }

    /** Picks the key whose turn it is and moves both cursors past it. */
    method TakeTurn() returns (key: Option<AdmissionKey>)
      requires Valid()
      modifies `scopeCursor, `unitCursor
      ensures Tidy() && key == Turn(old(View()))
      ensures key.None? ==> View() == old(View())
      ensures key.Some? ==>
                && Rings.Valid(old(OrderView()).scopes) && key.value.scope in old(OrderView()).scopes.items
                && Rings.Valid(RingOf(old(OrderView()), key.value.scope))
                && key.value.unit in RingOf(old(OrderView()), key.value.scope).items
                && View() == Served(old(View()), key.value)
    {
      hide Inv, FirstIn, Rotation, ReadyScopes, ReadyUnits, Advance, Turn, Pass, OrderOk;
      ghost var t := View();
      InvOrder(t);
      OrderRings(t.order);
      TurnIs(t);
      var scope := NextScope();
      if scope.None? {
        return None;
      }
      ghost var d := FirstIn(Rotation(t.order.scopes), ReadyScopes(t));
      CursorMoved(t, d, scope.value);
      var unit := NextUnit(scope.value);
      assert unit.Some?;
      return Some(AdmissionKey(scope.value, unit.value));
    }

    /** `expired` names the groups that the source fails once the lock is released. */
    method Dispatch(now: GoInt) returns (request: Option<Request>, expired: seq<nat>)
      requires Valid()
      modifies this
      ensures Valid() && View() == SchedulerDispatch.Dispatch(old(View()), now).0
      ensures request == SchedulerDispatch.Dispatch(old(View()), now).1
      ensures Distinct(expired) && forall g :: g in expired <==> g in old(coalesced) && g !in coalesced
    {
      hide Inv, Expire, Turn, Pass, OrderOk, RingOf;
      DispatchKeeps(View(), now);
      ExpireIsExact(View(), now);
      expired := ExpireLocked(now);
      ghost var t := View();
      TurnIsReady(t);
      if inFlight >= limits.maxInFlight {
        return None, expired;
      }
      var key := TakeTurn();
      if key.None? {
        return None, expired;
      }
      HeadWeighs(t, key.value);
      var head := LaunchHead(key.value);
      return Some(head), expired;
    }
  }

  lemma {:induction false} EmptySums(l: Limits, scope: string)
    ensures Total(map[]) == 0 && ScopeTotal(map[], scope) == 0 && Deficits(l, map[]) == 0
  {
  }

  lemma {:induction false} TotalsFit(s: State, scope: string)
    requires Inv(s)
    ensures 0 <= ScopeTotal(s.keys, scope) <= Total(s.keys) <= s.limits.totalQueued
    ensures ScopeTotal(s.keys, scope) <= s.limits.maxPerScope
    ensures 0 <= Deficits(s.limits, s.keys)
  {
    hide ValidLimits, Queues, Groups, OrderOk, Lists, Sum;
    SumsNonNegative(s.limits, s.keys, scope);
    SharesPositive(s);
    assert ScopesFit(s.limits, s.keys);
  }

  lemma {:induction false} SharesPositive(s: State)
    requires Inv(s)
    ensures 0 <= Shares(s.limits, s.limits.maxKeys - |s.keys|)
  {
    hide Queues, Groups, OrderOk, Lists, Sum;
    SharesMono(s.limits, s.limits.maxKeys - |s.keys|, s.limits.maxKeys);
  }

  lemma {:induction false} KeyFits(s: State, key: AdmissionKey)
    requires Inv(s)
    ensures 0 <= OccupiedAt(s.keys, key) <= s.limits.maxPerKey
    ensures key in s.keys ==> s.keys[key].queued >= 0 && s.keys[key].dependents >= 0
    ensures |s.keys| <= s.limits.maxKeys
  {
    hide Queues, Groups, OrderOk, Lists, Sum;
    assert key in s.keys ==> KeyBounds(s.limits, s.keys[key]);
  }

  lemma {:induction false} OwedFits(s: State, key: AdmissionKey)
    requires Inv(s) && (key in s.keys || |s.keys| < s.limits.maxKeys)
    ensures var positions := s.limits.maxKeys - |s.keys| - (if key in s.keys then 0 else 1);
            && 0 <= positions && 0 <= Shares(s.limits, positions) && 0 <= Deficits(s.limits, s.keys - {key})
            && Shares(s.limits, positions) + Deficits(s.limits, s.keys - {key}) <= s.limits.totalQueued
  {
    hide Queues, Groups, OrderOk, Lists, Sum;
    OthersOwe(s.limits, s.keys, key);
    SumsNonNegative(s.limits, s.keys, key.scope);
    var positions := s.limits.maxKeys - |s.keys| - (if key in s.keys then 0 else 1);
    SharesMono(s.limits, positions, s.limits.maxKeys - |s.keys|);
  }

  lemma {:induction false} CoreOrder(s: State)
    requires Core(s)
    ensures OrderOk(s.order)
  {
  }

  lemma {:induction false} InvOrder(s: State)
    requires Inv(s)
    ensures OrderOk(s.order)
  {
  }

  lemma {:induction false} DependentsBounded(s: State, key: AdmissionKey)
    requires Core(s) && key in s.keys
    ensures 0 <= s.keys[key].dependents <= s.limits.maxDependents
  {
    hide Queues, Groups, OrderOk, Lists, Sum;
    assert KeyBounds(s.limits, s.keys[key]);
  }

  /** A key with a dependent is busy. */
  lemma {:induction false} NowBusy(s: State, key: AdmissionKey)
    requires Core(s) && Busy(s.keys, {key}) && key in s.keys && s.keys[key].dependents != 0
    ensures Inv(s)
  {
    hide Core;
  }

  lemma {:induction false} ForgetOne(s: State, id: Uint64)
    requires id in s.entries
    ensures GroupsOf(s.entries, {id}) == if s.entries[id].group.Some? then {s.entries[id].group.value} else {}
    ensures s.coalesced - {} == s.coalesced
  {
  }

  /** What it takes to withdraw one entry. */
  lemma {:induction false} WithdrawIs(s: State, id: Uint64)
    requires Inv(s) && id in s.entries && s.entries[id].phase == Queued
    ensures var e := s.entries[id];
            var key := e.request.key;
            && key in s.keys && id in s.keys[key].queue && e.weight <= s.keys[key].queued
            && var v, at := s.keys[key], IndexOf(s.keys[key].queue, id);
            && v.queue[..at] + v.queue[at + 1..] == Minus(v.queue, {id})
            && v.queued - (QueueWeight(s.entries, v.queue) - QueueWeight(s.entries, Minus(v.queue, {id}))) == v.queued - e.weight
  {
    hide Ledger, ValidLimits, Groups, OrderOk, Lists;
    assert EntryOk(s.keys, id, s.entries[id]);
    var key := s.entries[id].request.key;
    var v := s.keys[key];
    assert KeyOk(s.entries, key, v);
    DropAtIsMinus(v.queue, IndexOf(v.queue, id));
    WeightOfOne(s.entries, v.queue, id);
    WeightMinus(s.entries, v.queue, {id});
  }

  lemma {:induction false} WeightOfOne(e: Entries, queue: seq<Uint64>, id: Uint64)
    requires Distinct(queue) && id in queue && id in e
    ensures QueueWeight(e, Minus(queue, {id})) == QueueWeight(e, queue) - e[id].weight
  {
    if queue[0] == id {
      MinusNone(queue[1..], {id});
    } else {
      WeightOfOne(e, queue[1..], id);
      assert ([queue[0]] + Minus(queue[1..], {id}))[1..] == Minus(queue[1..], {id});
    }
  }

  lemma {:induction false} FlyingCounted(s: State, id: Uint64)
    requires Inv(s) && id in s.entries && s.entries[id].phase == InFlight
    ensures s.entries[id].request.id == id && s.entries[id].request.key in s.keys
    ensures s.keys[s.entries[id].request.key].inFlight >= 1 && s.inFlight >= 1
  {
    hide Ledger, ValidLimits, Groups, OrderOk, Lists;
    LandQueues(s.entries, s.keys, id);
    assert EntryOk(s.keys, id, s.entries[id]);
    assert AllFlying(s.entries) != {};
  }

  lemma {:induction false} GroupHasEntry(s: State, group: nat)
    requires Inv(s) && group in s.coalesced
    ensures s.coalesced[group] in s.entries
  {
    hide Ledger, ValidLimits, Queues, OrderOk, Lists;
  }

  /** An entry that goes back to its queue keeps its group. */
  lemma {:induction false} RequeueStays(s: State, id: Uint64)
    requires Inv(s) && id in s.entries
    ensures s.entries[id].group.Some? ==> s.coalesced[s.entries[id].group.value := id] == s.coalesced
  {
    hide Ledger, ValidLimits, Queues, OrderOk, Lists;
  }

  ghost function Gone(queue: seq<Uint64>, due: set<Uint64>): set<Uint64> {
    set id | id in queue && id in due
  }

  lemma {:induction false} DueQueued(s: State, key: AdmissionKey, now: GoInt)
    requires Inv(s) && key in s.keys
    ensures forall id :: id in Due(s, key, now) ==> id in s.keys[key].queue
    ensures ExpireKey(s, key, now) == Release(Pulled(s, key, Due(s, key, now)), key)
  {
  }

  lemma {:induction false} Scanned(s: State, key: AdmissionKey, now: GoInt)
    requires key in s.keys
    ensures var q, due := s.keys[key].queue, Due(s, key, now);
            && Gone(q[..0], due) == {} && Minus(q[..0], due) == [] && QueueWeight(s.entries, q[..0]) == 0
            && GroupsOf(s.entries, {}) == {} && s.entries - {} == s.entries && s.coalesced - {} == s.coalesced
            && q[..|q|] == q && Gone(q, due) == due
  {
  }

  lemma {:induction false} WeightOfParts(e: Entries, p: seq<Uint64>, q: seq<Uint64>)
    ensures QueueWeight(e, p + q) == QueueWeight(e, p) + QueueWeight(e, q)
  {
    if p == [] {
      assert p + q == q;
    } else {
      assert (p + q)[1..] == p[1..] + q;
      WeightOfParts(e, p[1..], q);
    }
  }

  lemma {:induction false} ScanWeights(e: Entries, queue: seq<Uint64>, due: set<Uint64>, i: nat)
    requires i < |queue| && queue[i] in e
    ensures QueueWeight(e, queue[..i + 1]) == QueueWeight(e, queue[..i]) + e[queue[i]].weight
    ensures QueueWeight(e, Minus(queue[..i], due) + [queue[i]]) == QueueWeight(e, Minus(queue[..i], due)) + e[queue[i]].weight
    ensures 0 <= QueueWeight(e, Minus(queue[..i], due))
    ensures QueueWeight(e, queue[..i]) + e[queue[i]].weight <= QueueWeight(e, queue)
    ensures Minus(queue[..i + 1], due) == Minus(queue[..i], due) + (if queue[i] in due then [] else [queue[i]])
  {
    assert queue[..i + 1] == queue[..i] + [queue[i]];
    WeightAppend(e, queue[..i], queue[i]);
    WeightAppend(e, Minus(queue[..i], due), queue[i]);
    WeightMinus(e, queue[..i], due);
    assert queue == queue[..i + 1] + queue[i + 1..];
    WeightOfParts(e, queue[..i + 1], queue[i + 1..]);
    WeightMinus(e, queue[i + 1..], {});
    MinusAppend(queue[..i], [queue[i]], due);
  }

  /** One step of the scan over a queue. */
  lemma {:induction false} Scan(s: State, key: AdmissionKey, now: GoInt, i: nat)
    requires Inv(s) && key in s.keys && i < |s.keys[key].queue|
    ensures var q, due, id, e := s.keys[key].queue, Due(s, key, now), s.keys[key].queue[i], s.entries;
            && id in e && id !in Gone(q[..i], due) && (id in due <==> e[id].request.deadline <= now)
            && QueueWeight(e, q[..i + 1]) == QueueWeight(e, q[..i]) + e[id].weight
            && QueueWeight(e, Minus(q[..i], due) + [id]) == QueueWeight(e, Minus(q[..i], due)) + e[id].weight
            && 0 <= QueueWeight(e, Minus(q[..i], due))
            && QueueWeight(e, q[..i]) + e[id].weight <= s.keys[key].queued
            && Minus(q[..i + 1], due) == Minus(q[..i], due) + (if id in due then [] else [id])
            && Gone(q[..i + 1], due) == Gone(q[..i], due) + (if id in due then {id} else {})
            && GroupsOf(e, Gone(q[..i + 1], due)) ==
               GroupsOf(e, Gone(q[..i], due)) + (if id in due && e[id].group.Some? then {e[id].group.value} else {})
            && (e[id].group.Some? ==> e[id].group.value in s.coalesced && e[id].group.value !in GroupsOf(e, Gone(q[..i], due)))
  {
    hide Ledger, ValidLimits, OrderOk, Lists, QueueWeight, Minus;
    var q, due, id := s.keys[key].queue, Due(s, key, now), s.keys[key].queue[i];
    assert KeyOk(s.entries, key, s.keys[key]);
    assert QueuedAt(s.entries, id, key);
    ScanWeights(s.entries, q, due, i);
    assert q[..i + 1] == q[..i] + [id];
  }

  lemma {:induction false} RotationAt<T>(r: Ring<T>, d: nat)
    requires Rings.Valid(r) && d < |r.items|
    ensures var i := (r.cursor + d) % |r.items|;
            && Rotation(r)[d] == r.items[i]
            && (i + 1) % |r.items| == Advance(r, d).cursor
  {
    Wrap(r.cursor + d, |r.items|);
    NextWrap(r.cursor + d, |r.items|);
  }

  lemma {:induction false} NextWrap(k: nat, n: nat)
    requires 0 < n && k < 2 * n - 1
    ensures (k % n + 1) % n == (k + 1) % n
  {
    Wrap(k, n);
    Wrap(k + 1, n);
    Wrap(k % n + 1, n);
  }

  lemma {:induction false} FirstIs<T>(s: seq<T>, ready: set<T>, d: nat)
    requires d <= |s| && (forall i :: 0 <= i < d ==> s[i] !in ready) && (d < |s| ==> s[d] in ready)
    ensures FirstIn(s, ready) == d
  {
    var f := FirstIn(s, ready);
    assert f < |s| ==> s[f] in ready;
  }

  lemma {:induction false} ScopeKnown(s: State, scope: string)
    requires OrderOk(s.order) && scope in s.order.scopes.items
    ensures scope in s.order.units
  {
  }

  lemma {:induction false} UnitReady(s: State, scope: string, unit: Byte)
    requires scope in s.order.units && unit in RingOf(s.order, scope).items
    ensures unit in ReadyUnits(s, scope) <==> HasWork(s.keys, AdmissionKey(scope, unit))
  {
  }

  /** Stepping the scope cursor changes neither the order's validity nor which units are ready. */
  lemma {:induction false} CursorMoved(t: State, d: nat, scope: string)
    requires OrderOk(t.order) && d < |t.order.scopes.items|
    ensures var o := t.order.(scopes := Advance(t.order.scopes, d));
            OrderOk(o) && ReadyUnits(t.(order := o), scope) == ReadyUnits(t, scope)
  {
    AdvanceRotation(t.order.scopes, d);
  }

  /** The turn in terms of the two scans. */
  lemma {:induction false} TurnIs(t: State)
    requires OrderOk(t.order)
    ensures var scopes := Rotation(t.order.scopes);
            var d := FirstIn(scopes, ReadyScopes(t));
            if d == |scopes| then Turn(t) == None
            else
              var ring := RingOf(t.order, scopes[d]);
              var e := FirstIn(Rotation(ring), ReadyUnits(t, scopes[d]));
              && e < |Rotation(ring)|
              && var key := AdmissionKey(scopes[d], Rotation(ring)[e]);
              && Turn(t) == Some(key)
              && key.scope in t.order.scopes.items && key.unit in ring.items && Rings.Valid(ring)
              && Pass(t.order, key) == Order(Advance(t.order.scopes, d), t.order.units[key.scope := Advance(ring, e)])
  {
    var scopes := Rotation(t.order.scopes);
    var d := FirstIn(scopes, ReadyScopes(t));
    if d < |scopes| {
      ScopeTurn(t, scopes[d]);
      var ring := RingOf(t.order, scopes[d]);
      var e := FirstIn(Rotation(ring), ReadyUnits(t, scopes[d]));
      RingOk(t.order, scopes[d]);
      assert Rotation(ring)[e] in ring.items;
      AheadIs(t.order.scopes, scopes[d], d);
      AheadIs(ring, Rotation(ring)[e], e);
    }
  }

  lemma {:induction false} HeadWeighs(s: State, key: AdmissionKey)
    requires Inv(s) && HasWork(s.keys, key) && s.keys[key].queue[0] in s.entries
    ensures s.entries[s.keys[key].queue[0]].weight <= s.keys[key].queued
  {
    hide Ledger, ValidLimits, Groups, OrderOk, Lists;
    assert KeyOk(s.entries, key, s.keys[key]);
    WeightMinus(s.entries, s.keys[key].queue[1..], {});
    MinusNone(s.keys[key].queue[1..], {});
  }

  lemma {:induction false} OrderRings(o: Order)
    requires OrderOk(o)
    ensures Rings.Valid(o.scopes)
  {
  }

  lemma {:induction false} DistinctJoin<T>(a: seq<T>, b: seq<T>)
    requires Distinct(a) && Distinct(b) && forall x :: x in a ==> x !in b
    ensures Distinct(a + b)
  {
    forall i, j | 0 <= i < j < |a + b|
      ensures (a + b)[i] != (a + b)[j]
    {
      assert i < |a| ==> a[i] in a;
      assert j >= |a| ==> b[j - |a|] in b;
    }
  }
}
