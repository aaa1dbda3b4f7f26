/** The endpoint scheduler as a value: what it holds and what each of its operations turns it into. */
module SchedulerModel {
  import opened Common
  import opened MapSum
  import opened Rings

  const MAX_COALESCED_DEPENDENTS: int := 4096

  datatype Limits = Limits(
    maxKeys: GoInt, protectedSlots: GoInt, sharedBurst: GoInt, totalQueued: GoInt, maxPerKey: GoInt,
    maxPerScope: GoInt, maxDependents: GoInt, maxRetries: GoInt, maxInFlight: GoInt)

  /** The construction check, with the source's overflow guards. */
  predicate ValidLimits(l: Limits) {
    && l.maxKeys > 0 && l.protectedSlots > 0 && l.sharedBurst > 0 && l.totalQueued > 0 && l.maxPerKey > 0
    && l.maxPerScope > 0 && l.maxDependents > 0 && l.maxRetries > 0 && l.maxInFlight > 0
    && l.maxKeys <= MAX_INT / l.protectedSlots
    && var reserved := l.maxKeys * l.protectedSlots;
    && reserved <= MAX_INT - l.sharedBurst
    && l.totalQueued >= reserved + l.sharedBurst
    && l.maxPerKey >= l.protectedSlots && l.maxPerKey <= l.totalQueued
    && l.maxPerScope >= reserved && l.maxPerScope <= l.totalQueued
    && l.maxDependents >= l.protectedSlots && l.maxDependents <= MAX_COALESCED_DEPENDENTS
    && l.maxDependents <= l.totalQueued
  }

  datatype AdmissionKey = AdmissionKey(scope: string, unit: Byte)

  datatype Request = Request(id: Uint64, key: AdmissionKey, deadline: GoInt)

  predicate ValidRequest(r: Request) {
    r.id != 0 && r.key.scope != "" && r.key.unit <= 247 && r.deadline > 0
  }

  datatype Phase = Queued | InFlight

  /** `group` names the coalesced read the entry carries, if any; such an entry weighs nothing by itself. */
  datatype Entry = Entry(request: Request, phase: Phase, retries: nat, weight: nat, group: Option<nat>)

  datatype KeyState = KeyState(queue: seq<Uint64>, queued: int, inFlight: int, dependents: int)

  datatype Order = Order(scopes: Ring<string>, units: map<string, Ring<Byte>>)

  datatype State = State(
    limits: Limits, entries: map<Uint64, Entry>, coalesced: map<nat, Uint64>, keys: map<AdmissionKey, KeyState>,
    order: Order, inFlight: int)

  datatype Rejection =
    | BadRequest | DuplicateRequest | ActiveKeys | QueuedPerKey | QueuedCapacity | ProtectedCapacity
    | CoalescedDependents | RequestState | RetryAttempts | Accounting

  function Empty(l: Limits): State {
    State(l, map[], map[], map[], Order(Ring([], 0), map[]), 0)
  }

  // ---------- Occupancy ----------

  function Occupied(v: KeyState): int {
    v.queued + v.dependents
  }

  function Max(a: int, b: int): int {
    if a > b then a else b
  }

  /** What each key takes of the total: its occupancy. */
  ghost function ByOccupancy(): (AdmissionKey, KeyState) -> int {
    (k: AdmissionKey, v: KeyState) => Occupied(v)
  }

  ghost function ByScope(scope: string): (AdmissionKey, KeyState) -> int {
    (k: AdmissionKey, v: KeyState) => if k.scope == scope then Occupied(v) else 0
  }

  /** The part of its protected share that a key with this occupancy does not use. */
  function Deficit(l: Limits, occupied: int): int {
    Max(0, l.protectedSlots - occupied)
  }

  ghost function ByDeficit(l: Limits): (AdmissionKey, KeyState) -> int {
    (k: AdmissionKey, v: KeyState) => Deficit(l, Occupied(v))
  }

  ghost function Total(keys: map<AdmissionKey, KeyState>): int {
    Sum(keys, ByOccupancy())
  }

  ghost function ScopeTotal(keys: map<AdmissionKey, KeyState>, scope: string): int {
    Sum(keys, ByScope(scope))
  }

  ghost function Deficits(l: Limits, keys: map<AdmissionKey, KeyState>): int {
    Sum(keys, ByDeficit(l))
  }

  /** Shares kept for `positions` unused key positions. */
  function Shares(l: Limits, positions: int): int {
    positions * l.protectedSlots
  }

  /**
   The admission test, in the source's order of refusals. `mine`, `total` and `inScope` are the present
   occupancies of the key, of all keys and of the key's scope; `owed` is what the other keys still miss.
   */
  function Decide(l: Limits, active: bool, n: int, mine: int, total: int, inScope: int, owed: int, count: int): Option<Rejection> {
    var positions := l.maxKeys - n - (if active then 0 else 1);
    var reserved := Shares(l, positions) + owed;
    if count <= 0 then Some(QueuedCapacity)
    else if !active && n >= l.maxKeys then Some(ActiveKeys)
    else if mine < 0 || mine > l.maxPerKey then Some(Accounting)
    else if count > l.maxPerKey - mine then Some(QueuedPerKey)
    else if total < 0 || total > l.totalQueued || inScope < 0 || inScope > l.maxPerScope then Some(Accounting)
    else if count > l.totalQueued - total || count > l.maxPerScope - inScope then Some(QueuedCapacity)
    else if positions < 0 then Some(ActiveKeys)
    else if reserved < 0 || reserved > l.totalQueued then Some(Accounting)
    else if total > l.totalQueued - reserved || count > l.totalQueued - reserved - total then Some(ProtectedCapacity)
    else None
  }

  function OccupiedAt(keys: map<AdmissionKey, KeyState>, key: AdmissionKey): int {
    if key in keys then Occupied(keys[key]) else 0
  }

  ghost function CheckAdmission(l: Limits, keys: map<AdmissionKey, KeyState>, key: AdmissionKey, count: int): Option<Rejection> {
    Decide(l, key in keys, |keys|, OccupiedAt(keys, key), Total(keys), ScopeTotal(keys, key.scope),
           Deficits(l, keys - {key}), count)
  }

  // ---------- Order ----------

  function RingOf(o: Order, scope: string): Ring<Byte> {
    if scope in o.units then o.units[scope] else Ring([], 0)
  }

  function Remember(o: Order, key: AdmissionKey): Order {
    Order(Append(o.scopes, key.scope), o.units[key.scope := Append(RingOf(o, key.scope), key.unit)])
  }

  /** Stores what is left of a scope's units; a scope without units leaves the scope list. */
  function Store(o: Order, scope: string, rest: Ring<Byte>, otherScopes: Ring<string>): Order {
    if rest.items != [] then o.(units := o.units[scope := rest])
    else Order(otherScopes, o.units - {scope})
  }

  function Forget(o: Order, key: AdmissionKey): Order {
    if key.unit !in RingOf(o, key.scope).items then o
    else Store(o, key.scope, Remove(RingOf(o, key.scope), key.unit), Remove(o.scopes, key.scope))
  }

  predicate HasWork(keys: map<AdmissionKey, KeyState>, key: AdmissionKey) {
    key in keys && keys[key].queue != []
  }

  function ReadyUnits(s: State, scope: string): set<Byte> {
    set u | u in RingOf(s.order, scope).items && HasWork(s.keys, AdmissionKey(scope, u))
  }

  function ReadyScopes(s: State): set<string> {
    set scope | scope in s.order.units && ReadyUnits(s, scope) != {}
  }

  // ---------- Operations ----------

  predicate Idle(v: KeyState) {
    v.queue == [] && v.inFlight == 0 && v.dependents == 0
  }

  /** A key with nothing left gives up its place. */
  function Release(s: State, key: AdmissionKey): State {
    if key in s.keys && Idle(s.keys[key])
    then s.(keys := s.keys - {key}, order := Forget(s.order, key))
    else s
  }

  function Activate(s: State, key: AdmissionKey): (t: State)
    ensures key in t.keys && t.limits == s.limits
  {
    if key in s.keys then s
    else s.(keys := s.keys[key := KeyState([], 0, 0, 0)], order := Remember(s.order, key))
  }

  function GroupsOf(entries: map<Uint64, Entry>, ids: set<Uint64>): set<nat> {
    set id | id in ids && id in entries && entries[id].group.Some? :: entries[id].group.value
  }

  function ForgetEntries(s: State, ids: set<Uint64>): State {
    s.(entries := s.entries - ids, coalesced := s.coalesced - GroupsOf(s.entries, ids))
  }

  /** Puts an entry at the tail of its key's queue. */
  function Push(s: State, e: Entry): State
    requires e.request.key in s.keys
  {
    var key, id := e.request.key, e.request.id;
    var v := s.keys[key];
    s.(entries := s.entries[id := e.(phase := Queued)],
       keys := s.keys[key := v.(queue := v.queue + [id], queued := v.queued + e.weight)],
       coalesced := if e.group.Some? then s.coalesced[e.group.value := id] else s.coalesced)
  }

  /** Queues a request of the given weight, unless its identity is taken or the admission test refuses it. */
  ghost function Admit(s: State, r: Request, group: Option<nat>, weight: nat): (State, Option<Rejection>) {
    if r.id in s.entries then (s, Some(DuplicateRequest))
    else
      var refusal := if weight > 0 then CheckAdmission(s.limits, s.keys, r.key, weight) else None;
      if refusal.Some? then (s, refusal)
      else (Push(Activate(s, r.key), Entry(r, Queued, 0, weight, group)), None)
  }

  ghost function Enqueue(s: State, r: Request): (State, Option<Rejection>) {
    if !ValidRequest(r) then (s, Some(BadRequest)) else Admit(s, r, None, 1)
  }

  /** Charges `count` dependents to an active key and queues their physical read. */
  function Attach(s: State, r: Request, group: nat, count: int): (State, Option<Rejection>)
    requires r.key in s.keys
  {
    var v := s.keys[r.key];
    if v.dependents > s.limits.maxDependents then (Release(s, r.key), Some(Accounting))
    else if count > s.limits.maxDependents - v.dependents then (Release(s, r.key), Some(CoalescedDependents))
    else
      var t := s.(keys := s.keys[r.key := v.(dependents := v.dependents + count)]);
      (Push(t, Entry(r, Queued, 0, 0, Some(group))), None)
  }

  /** Admits a coalesced read with `count` dependents; `group` is its identity. */
  ghost function ScheduleCoalesced(s: State, r: Request, group: nat, count: int): (State, Option<Rejection>) {
    if !ValidRequest(r) || count <= 0 then (s, Some(BadRequest))
    else if r.id in s.entries then (s, Some(DuplicateRequest))
    else
      var refusal := CheckAdmission(s.limits, s.keys, r.key, count);
      if refusal.Some? then (s, refusal)
      else Attach(Activate(s, r.key), r, group, count)
  }

  function ReleaseDependents(s: State, key: AdmissionKey, count: int): State {
    if key !in s.keys || count <= 0 || count > s.keys[key].dependents then s
    else
      var v := s.keys[key];
      Release(s.(keys := s.keys[key := v.(dependents := v.dependents - count)]), key)
  }

  function QueueWeight(entries: map<Uint64, Entry>, queue: seq<Uint64>): int {
    if queue == [] then 0
    else (if queue[0] in entries then entries[queue[0]].weight else 0) + QueueWeight(entries, queue[1..])
  }

  /** Takes `ids` out of a key's queue and forgets them. */
  function DropQueued(s: State, key: AdmissionKey, ids: set<Uint64>): State {
    if key !in s.keys then s
    else
      var v := s.keys[key];
      var kept := Minus(v.queue, ids);
      var queued := v.queued - (QueueWeight(s.entries, v.queue) - QueueWeight(s.entries, kept));
      var t := s.(keys := s.keys[key := v.(queue := kept, queued := queued)]);
      Release(ForgetEntries(t, ids), key)
  }

  function CancelQueued(s: State, id: Uint64): (State, bool) {
    if id !in s.entries || s.entries[id].phase != Queued then (s, false)
    else (DropQueued(s, s.entries[id].request.key, {id}), true)
  }

  /** Ends one request that is on the wire. */
  function Land(s: State, id: Uint64): State
    requires id in s.entries
  {
    var key := s.entries[id].request.key;
    if key !in s.keys then s
    else
      var v := s.keys[key];
      var t := s.(keys := s.keys[key := v.(inFlight := v.inFlight - 1)], inFlight := s.inFlight - 1);
      Release(ForgetEntries(t, {id}), key)
  }

  function Complete(s: State, id: Uint64): (State, Option<Rejection>) {
    if id !in s.entries || s.entries[id].phase != InFlight then (s, Some(RequestState))
    else (Land(s, id), None)
  }

  /** Puts a request that was on the wire back at the tail of its queue. */
  function Requeue(s: State, id: Uint64): State
    requires id in s.entries && s.entries[id].request.key in s.keys
  {
    var e := s.entries[id];
    var v := s.keys[e.request.key];
    var t := s.(keys := s.keys[e.request.key := v.(inFlight := v.inFlight - 1)], inFlight := s.inFlight - 1);
    Push(t, e.(phase := Queued, retries := e.retries + 1))
  }

  ghost function RetryRefusal(s: State, e: Entry): Option<Rejection> {
    if e.retries >= s.limits.maxRetries then Some(RetryAttempts)
    else if e.weight > 0 then CheckAdmission(s.limits, s.keys, e.request.key, e.weight)
    else None
  }

  ghost function Retry(s: State, id: Uint64): (State, Option<Rejection>) {
    if id !in s.entries || s.entries[id].phase != InFlight then (s, Some(RequestState))
    else
      var refusal := RetryRefusal(s, s.entries[id]);
      if refusal.Some? then (Land(s, id), refusal)
      else if s.entries[id].request.key !in s.keys then (s, Some(Accounting))
      else (Requeue(s, id), None)
  }

  /** The group that lost its entry when request `id` was given up; the source then fails it. */
  function Orphan(s: State, t: State, id: Uint64): Option<nat> {
    if id in s.entries && id !in t.entries then s.entries[id].group else None
  }

  /** Ends a coalesced read's entry from either phase; a second call finds nothing. */
  function FinishCoalesced(s: State, group: nat): State {
    if group !in s.coalesced then s
    else
      var id := s.coalesced[group];
      if id !in s.entries then s.(coalesced := s.coalesced - {group})
      else if s.entries[id].phase == Queued then DropQueued(s, s.entries[id].request.key, {id})
      else Land(s, id)
  }

  // ---------- Dispatch ----------

  function Due(s: State, key: AdmissionKey, now: GoInt): set<Uint64> {
    if key !in s.keys then {}
    else set id | id in s.keys[key].queue && id in s.entries && s.entries[id].request.deadline <= now
  }

  function ExpireKey(s: State, key: AdmissionKey, now: GoInt): State {
    DropQueued(s, key, Due(s, key, now))
  }

  ghost function PickKey(todo: set<AdmissionKey>): (k: AdmissionKey)
    requires todo != {}
    ensures k in todo
  {
    var k :| k in todo;
    k
  }

  /** Expires one key after another. The order does not matter: see ExpiryOrderIrrelevant. */
  ghost function ExpireKeys(s: State, todo: set<AdmissionKey>, now: GoInt): State
    decreases |todo|
  {
    if todo == {} then s
    else
      var k := PickKey(todo);
      ExpireKeys(ExpireKey(s, k, now), todo - {k}, now)
  }

  ghost function Expire(s: State, now: GoInt): State {
    ExpireKeys(s, s.keys.Keys, now)
  }

  /** Moves the head of a key's queue onto the wire. */
  function Launch(s: State, key: AdmissionKey): State
    requires HasWork(s.keys, key) && s.keys[key].queue[0] in s.entries
  {
    var v := s.keys[key];
    var id := v.queue[0];
    var e := s.entries[id];
    s.(keys := s.keys[key := v.(queue := v.queue[1..], queued := v.queued - e.weight, inFlight := v.inFlight + 1)],
       entries := s.entries[id := e.(phase := InFlight)],
       inFlight := s.inFlight + 1)
  }

  /** The scope and the unit whose turn it is. */
  function Turn(s: State): Option<AdmissionKey> {
    var scopes := Rotation(s.order.scopes);
    var d := FirstIn(scopes, ReadyScopes(s));
    if d == |scopes| then None
    else
      var units := Rotation(RingOf(s.order, scopes[d]));
      var e := FirstIn(units, ReadyUnits(s, scopes[d]));
      if e == |units| then None else Some(AdmissionKey(scopes[d], units[e]))
  }

  /** Both cursors step past the key that was served. */
  function Pass(o: Order, key: AdmissionKey): Order
    requires key.scope in o.scopes.items && key.unit in RingOf(o, key.scope).items
    requires Rings.Valid(o.scopes) && Rings.Valid(RingOf(o, key.scope))
  {
    var ring := RingOf(o, key.scope);
    Order(Advance(o.scopes, Ahead(o.scopes, key.scope)), o.units[key.scope := Advance(ring, Ahead(ring, key.unit))])
  }

  function Served(s: State, key: AdmissionKey): State
    requires key.scope in s.order.scopes.items && key.unit in RingOf(s.order, key.scope).items
    requires Rings.Valid(s.order.scopes) && Rings.Valid(RingOf(s.order, key.scope))
  {
    s.(order := Pass(s.order, key))
  }
}
