/** The scheduler with the coalesced reads it carries: their counts agree after every step of either. */
module SchedulerGroups {
  import opened Common
  import opened MapSum
  import opened Rings
  import opened SchedulerModel
  import opened SchedulerInvariant
  import opened SchedulerSteps
  import opened SchedulerDispatch
  import SchedulerRuns
  import Coalescing
  import CoalescingModel

  type Keys = map<AdmissionKey, KeyState>

  /** A scheduled group and the key that is charged for it. */
  datatype Member = Member(key: AdmissionKey, group: CoalescingModel.Group)

  /** `detached` is history: the groups whose entry a caller took away with Complete or FinishCoalesced. */
  datatype Joint = Joint(scheduler: State, groups: map<nat, Member>, detached: set<nat>)

  function LiveIn(m: Member): nat {
    CoalescingModel.LiveCount(m.group.dependents)
  }

  ghost function ByKey(key: AdmissionKey): (nat, Member) -> int {
    (g: nat, m: Member) => if m.key == key then LiveIn(m) else 0
  }

  /** The live dependents of all groups charged to one key. */
  ghost function LiveAt(groups: map<nat, Member>, key: AdmissionKey): int {
    Sum(groups, ByKey(key))
  }

  function DependentsAt(keys: Keys, key: AdmissionKey): int {
    if key in keys then keys[key].dependents else 0
  }

  ghost predicate Charged(keys: Keys, groups: map<nat, Member>) {
    forall key :: DependentsAt(keys, key) == LiveAt(groups, key)
  }

  ghost predicate Sound(groups: map<nat, Member>) {
    forall g :: g in groups ==> CoalescingModel.Inv(groups[g].group)
  }

  /** A group is in the scheduler exactly until it is completed; `orphans` are still to be failed. */
  ghost predicate Entered(coalesced: set<nat>, groups: map<nat, Member>, detached: set<nat>, orphans: set<nat>) {
    && coalesced <= groups.Keys
    && (forall g :: g in groups && groups[g].group.completed ==> g !in coalesced)
    && (forall g :: g in groups && !groups[g].group.completed ==> g in coalesced || g in detached || g in orphans)
  }

  ghost predicate AgreeBut(j: Joint, orphans: set<nat>) {
    && SchedulerInvariant.Inv(j.scheduler) && Sound(j.groups) && Charged(j.scheduler.keys, j.groups)
    && Entered(j.scheduler.coalesced.Keys, j.groups, j.detached, orphans)
  }

  ghost predicate Agree(j: Joint) {
    AgreeBut(j, {})
  }

  datatype Op =
    | Plain(request: Request)
    | Coalesce(read: Request, name: nat, intents: seq<CoalescingModel.Intent>)
    | Group(name: nat, step: Coalescing.Op)
    | Finish(name: nat)
    | Cancel(id: Uint64)
    | Complete(id: Uint64)
    | Retry(id: Uint64)
    | Dispatch(now: GoInt, order: seq<nat>)

  /** A write may begin only once the scheduler has dispatched the group. */
  predicate Dispatched(s: State, name: nat) {
    name in s.coalesced && s.coalesced[name] in s.entries && s.entries[s.coalesced[name]].phase == InFlight
  }

  /** The intents may share one read, and the request is admitted under their scope and unit. */
  ghost predicate Schedulable(s: State, r: Request, intents: seq<CoalescingModel.Intent>) {
    && CoalescingModel.Coalescible(intents, s.limits.maxDependents)
    && r.key.scope == intents[0].scope && r.key.unit == intents[0].unit
  }

  /** The steps that belong to the scheduler alone. */
  ghost function Alone(s: State, op: Op): State
    requires SchedulerInvariant.Inv(s)
  {
    match op
    case Plain(r) => Enqueue(s, r).0
    case Cancel(id) => CancelQueued(s, id).0
    case Complete(id) => SchedulerModel.Complete(s, id).0
    case Retry(id) => SchedulerModel.Retry(s, id).0
    case Dispatch(now, _) => SchedulerDispatch.Dispatch(s, now).0
    case Finish(name) => FinishCoalesced(s, name)
    case _ => s
  }

  /** The groups that a step of the scheduler left without an entry. */
  function Orphans(s: State, t: State): set<nat> {
    s.coalesced.Keys - t.coalesced.Keys
  }

  ghost predicate Names(order: seq<nat>, groups: set<nat>) {
    Distinct(order) && forall g :: g in order <==> g in groups
  }

  /** A step of one group: what it ends is released, and a completed group finishes its entry, if one is left. */
  ghost function GroupStep(j: Joint, name: nat, step: Coalescing.Op): Joint
    requires name in j.groups && CoalescingModel.Inv(j.groups[name].group)
  {
    var m := j.groups[name];
    var (group, released) := Coalescing.Step(m.group, step);
    var s := ReleaseDependents(j.scheduler, m.key, released);
    j.(scheduler := if group.completed then FinishCoalesced(s, name) else s, groups := j.groups[name := m.(group := group)])
  }

  /** Fails the named groups one after the other. */
  ghost function FailEach(j: Joint, order: seq<nat>): Joint
    requires Sound(j.groups)
    decreases |order|
  {
    if order == [] then j
    else if order[0] !in j.groups then FailEach(j, order[1..])
    else
      SoundStays(j, order[0], Coalescing.DoFail);
      FailEach(GroupStep(j, order[0], Coalescing.DoFail), order[1..])
  }

  lemma {:induction false} SoundStays(j: Joint, name: nat, step: Coalescing.Op)
    requires Sound(j.groups) && name in j.groups
    ensures Sound(GroupStep(j, name, step).groups)
  {
    hide CoalescingModel.Inv, Coalescing.Step;
    Coalescing.StepKeeps(j.groups[name].group, step);
  }

  /**
   The scheduler and its groups as one machine. Cancelling, retrying and dispatching fail the groups whose entries
   they gave up, in the order in which the source found them; Complete and FinishCoalesced leave that to the caller.
   */
  ghost function Step(j: Joint, op: Op): Joint
    requires Agree(j)
  {
    match op
    case Plain(r) => j.(scheduler := Alone(j.scheduler, op))
    case Coalesce(r, name, intents) =>
      if name in j.groups || !Schedulable(j.scheduler, r, intents) then j
      else
        var (t, refusal) := ScheduleCoalesced(j.scheduler, r, name, |intents|);
        if refusal.Some? then j.(scheduler := t)
        else j.(scheduler := t, groups := j.groups[name := Member(r.key, CoalescingModel.Built(intents))])
    case Group(name, step) =>
      if name !in j.groups || (step.DoWrite? && !Dispatched(j.scheduler, name)) then j else GroupStep(j, name, step)
    case Finish(_) => Detach(j, Alone(j.scheduler, op))
    case Complete(_) => Detach(j, Alone(j.scheduler, op))
    case Cancel(id) =>
      var t := Alone(j.scheduler, op);
      FailEach(j.(scheduler := t), Only(Orphan(j.scheduler, t, id)))
    case Retry(id) =>
      var t := Alone(j.scheduler, op);
      FailEach(j.(scheduler := t), Only(Orphan(j.scheduler, t, id)))
    case Dispatch(_, order) =>
      var t := Alone(j.scheduler, op);
      if Names(order, Orphans(j.scheduler, t)) then FailEach(j.(scheduler := t), order) else j
  }

  function Detach(j: Joint, t: State): Joint {
    j.(scheduler := t, detached := j.detached + Orphans(j.scheduler, t))
  }

  function Only(g: Option<nat>): seq<nat> {
    if g.Some? then [g.value] else []
  }

  // ---------- The scheduler's own steps leave every charge alone ----------

  ghost predicate SameCharges(s: State, t: State) {
    && (forall key :: DependentsAt(t.keys, key) == DependentsAt(s.keys, key))
    && t.coalesced.Keys <= s.coalesced.Keys
  }

  lemma {:induction false} ReleaseCharges(s: State, key: AdmissionKey)
    ensures SameCharges(s, Release(s, key))
  {
  }

  lemma {:induction false} DropCharges(s: State, key: AdmissionKey, ids: set<Uint64>)
    ensures SameCharges(s, DropQueued(s, key, ids))
  {
    hide Release, Minus, QueueWeight, GroupsOf;
    if key in s.keys {
      ReleaseCharges(Pulled(s, key, ids), key);
    }
  }

  lemma {:induction false} LandCharges(s: State, id: Uint64)
    requires id in s.entries
    ensures SameCharges(s, Land(s, id))
  {
    hide Release, GroupsOf;
    if s.entries[id].request.key in s.keys {
      ReleaseCharges(Landed(s, id), s.entries[id].request.key);
    }
  }

  lemma {:induction false} AdmitCharges(s: State, r: Request)
    ensures SameCharges(s, Admit(s, r, None, 1).0)
  {
    hide CheckAdmission, Remember;
  }

  lemma {:induction false} RetryCharges(s: State, id: Uint64)
    requires SchedulerInvariant.Inv(s)
    ensures SameCharges(s, SchedulerModel.Retry(s, id).0)
  {
    hide Land, CheckAdmission, Core, Busy;
    if id in s.entries && s.entries[id].phase == InFlight {
      LandCharges(s, id);
      GroupStays(s, id);
    }
  }

  lemma {:induction false} GroupStays(s: State, id: Uint64)
    requires SchedulerInvariant.Inv(s) && id in s.entries
    ensures s.entries[id].group.Some? ==> s.entries[id].group.value in s.coalesced
  {
  }

  lemma {:induction false} ExpiryCharges(s: State, todo: set<AdmissionKey>, now: GoInt)
    ensures SameCharges(s, ExpireKeys(s, todo, now))
    decreases |todo|
  {
    hide DropQueued, Due;
    if todo != {} {
      var k := PickKey(todo);
      DropCharges(s, k, Due(s, k, now));
      ExpiryCharges(ExpireKey(s, k, now), todo - {k}, now);
    }
  }

  lemma {:induction false} LaunchCharges(s: State, key: AdmissionKey)
    requires HasWork(s.keys, key) && s.keys[key].queue[0] in s.entries
    ensures SameCharges(s, Launch(s, key))
  {
  }

  lemma {:induction false} DispatchCharges(s: State, now: GoInt)
    requires SchedulerInvariant.Inv(s)
    ensures SameCharges(s, SchedulerDispatch.Dispatch(s, now).0)
  {
    hide SchedulerInvariant.Inv, ExpireKeys, Turn, Launch, Pass;
    ExpiryCharges(s, s.keys.Keys, now);
    ExpireIsExact(s, now);
    var t := Expire(s, now);
    TurnIsReady(t);
    if t.inFlight < t.limits.maxInFlight && Turn(t).Some? {
      LaunchCharges(Served(t, Turn(t).value), Turn(t).value);
    }
  }

  lemma {:induction false} FinishCharges(s: State, name: nat)
    ensures SameCharges(s, FinishCoalesced(s, name))
  {
    hide Land, DropQueued;
    if name in s.coalesced && s.coalesced[name] in s.entries {
      var id := s.coalesced[name];
      DropCharges(s, s.entries[id].request.key, {id});
      LandCharges(s, id);
    }
  }

  lemma {:induction false} AloneKeeps(s: State, op: Op)
    requires SchedulerInvariant.Inv(s)
    ensures SchedulerInvariant.Inv(Alone(s, op)) && SameCharges(s, Alone(s, op))
  {
    hide SchedulerInvariant.Inv, SameCharges, Admit, CancelQueued, SchedulerModel.Complete, SchedulerModel.Retry, FinishCoalesced, SchedulerDispatch.Dispatch;
    match op
    case Plain(r) => EnqueueKeeps(s, r); AdmitCharges(s, r); NoCharge(s);
    case Cancel(id) => CancelKeeps(s, id); CancelCharges(s, id);
    case Complete(id) => CompleteKeeps(s, id); CompleteCharges(s, id);
    case Retry(id) => RetryKeeps(s, id); RetryCharges(s, id);
    case Dispatch(now, _) => DispatchKeeps(s, now); DispatchCharges(s, now);
    case Finish(name) => FinishKeeps(s, name); FinishCharges(s, name);
    case _ => NoCharge(s);
  }

  lemma {:induction false} NoCharge(s: State)
    ensures SameCharges(s, s)
  {
  }

  lemma {:induction false} CancelCharges(s: State, id: Uint64)
    ensures SameCharges(s, CancelQueued(s, id).0)
  {
    hide DropQueued;
    if id in s.entries {
      DropCharges(s, s.entries[id].request.key, {id});
    }
  }

  lemma {:induction false} CompleteCharges(s: State, id: Uint64)
    ensures SameCharges(s, SchedulerModel.Complete(s, id).0)
  {
    hide Land;
    if id in s.entries {
      LandCharges(s, id);
    }
  }

  // ---------- Charging and releasing ----------

  /** Scheduling a group charges its key for all of its dependents. */
  lemma {:induction false} ScheduleCharges(s: State, r: Request, name: nat, count: int)
    requires SchedulerInvariant.Inv(s) && name !in s.coalesced && count <= s.limits.maxDependents
    ensures var (t, refusal) := ScheduleCoalesced(s, r, name, count);
            && SchedulerInvariant.Inv(t)
            && (refusal.Some? ==> t == s)
            && (refusal.None? ==>
                  && t.coalesced.Keys == s.coalesced.Keys + {name}
                  && forall key :: DependentsAt(t.keys, key) == DependentsAt(s.keys, key) + if key == r.key then count else 0)
  {
    hide CheckAdmission, Core, Busy, Remember, Release;
    ScheduleKeeps(s, r, name, count);
  }

  lemma {:induction false} ReleaseLowers(s: State, key: AdmissionKey, count: nat)
    requires count <= DependentsAt(s.keys, key)
    ensures var t := ReleaseDependents(s, key, count);
            && t.coalesced == s.coalesced
            && forall k :: DependentsAt(t.keys, k) == DependentsAt(s.keys, k) - if k == key then count else 0
  {
    hide Release;
    if key in s.keys && count > 0 {
      var v := s.keys[key];
      var u := s.(keys := s.keys[key := v.(dependents := v.dependents - count)]);
      ReleaseCharges(u, key);
      ReleaseGroups(u, key);
    }
  }

  lemma {:induction false} ReleaseGroups(s: State, key: AdmissionKey)
    ensures Release(s, key).coalesced == s.coalesced
  {
  }

  lemma {:induction false} LiveUpdate(groups: map<nat, Member>, name: nat, m: Member, key: AdmissionKey)
    ensures LiveAt(groups[name := m], key) ==
              LiveAt(groups, key)
              - (if name in groups && groups[name].key == key then LiveIn(groups[name]) else 0)
              + (if m.key == key then LiveIn(m) else 0)
  {
    SumUpdate(groups, ByKey(key), name, m);
  }

  /** A group's live dependents are part of what its key is charged. */
  lemma {:induction false} OneOfMany(groups: map<nat, Member>, name: nat)
    requires name in groups
    ensures 0 <= LiveIn(groups[name]) <= LiveAt(groups, groups[name].key)
  {
    var key := groups[name].key;
    SumAt(groups, ByKey(key), name);
    SumMono(groups - {name}, (g: nat, m: Member) => 0, ByKey(key));
    SumZero(groups - {name}, (g: nat, m: Member) => 0);
  }

  lemma {:induction false} CoalesceKeeps(j: Joint, r: Request, name: nat, intents: seq<CoalescingModel.Intent>)
    requires Agree(j)
    ensures Agree(Step(j, Coalesce(r, name, intents)))
  {
    hide SchedulerInvariant.Inv, CoalescingModel.Inv, ScheduleCoalesced, LiveAt, DependentsAt, CoalescingModel.Built;
    if name !in j.groups && Schedulable(j.scheduler, r, intents) {
      ScheduleCharges(j.scheduler, r, name, |intents|);
      Coalescing.BuiltInv(intents, j.scheduler.limits.maxDependents);
      var m := Member(r.key, CoalescingModel.Built(intents));
      assert LiveIn(m) == |intents|;
      var t := ScheduleCoalesced(j.scheduler, r, name, |intents|);
      if t.1 == None {
        var groups := j.groups[name := m];
        forall key
          ensures DependentsAt(t.0.keys, key) == LiveAt(groups, key)
        {
          LiveUpdate(j.groups, name, m, key);
          assert DependentsAt(j.scheduler.keys, key) == LiveAt(j.groups, key);
        }
        NewIsOpen(intents);
        assert Step(j, Coalesce(r, name, intents)) == j.(scheduler := t.0, groups := groups);
      }
    }
  }

  lemma {:induction false} NewIsOpen(intents: seq<CoalescingModel.Intent>)
    requires intents != []
    ensures !CoalescingModel.Built(intents).completed
  {
    hide CoalescingModel.Hull;
  }

  lemma {:induction false} EntryOfGroup(s: State, name: nat)
    requires SchedulerInvariant.Inv(s) && name in s.coalesced
    ensures s.coalesced[name] in s.entries && s.entries[s.coalesced[name]].group == Some(name)
  {
  }

  /** Finishing a group takes away its own entry and no other. */
  lemma {:induction false} FinishLoses(s: State, name: nat)
    requires SchedulerInvariant.Inv(s)
    ensures FinishCoalesced(s, name).coalesced.Keys == s.coalesced.Keys - {name}
  {
    hide SchedulerInvariant.Inv, DropQueued, Land;
    if name in s.coalesced {
      EntryOfGroup(s, name);
      var id := s.coalesced[name];
      KeyOfEntry(s, id);
      assert GroupsOf(s.entries, {id}) == {name};
      DropLoses(s, s.entries[id].request.key, {id});
      LandLoses(s, id);
    }
  }

  /** Releasing what a group step ended keeps the charges. */
  lemma {:induction false} ReleaseAgrees(s: State, groups: map<nat, Member>, name: nat, group: CoalescingModel.Group, released: nat)
    requires SchedulerInvariant.Inv(s) && Charged(s.keys, groups) && name in groups
    requires CoalescingModel.LiveCount(groups[name].group.dependents) == CoalescingModel.LiveCount(group.dependents) + released
    ensures var t := ReleaseDependents(s, groups[name].key, released);
            && SchedulerInvariant.Inv(t) && t.coalesced == s.coalesced
            && Charged(t.keys, groups[name := groups[name].(group := group)])
  {
    hide SchedulerInvariant.Inv, LiveAt, DependentsAt, ReleaseDependents;
    var m := groups[name];
    var after := m.(group := group);
    OneOfMany(groups, name);
    assert DependentsAt(s.keys, m.key) == LiveAt(groups, m.key);
    ReleaseDependentsKeeps(s, m.key, released);
    ReleaseLowers(s, m.key, released);
    forall key
      ensures DependentsAt(ReleaseDependents(s, m.key, released).keys, key) == LiveAt(groups[name := after], key)
    {
      LiveUpdate(groups, name, after, key);
      assert DependentsAt(s.keys, key) == LiveAt(groups, key);
    }
  }

  lemma {:induction false} FinishAgrees(s: State, groups: map<nat, Member>, name: nat)
    requires SchedulerInvariant.Inv(s) && Charged(s.keys, groups)
    ensures var t := FinishCoalesced(s, name);
            SchedulerInvariant.Inv(t) && Charged(t.keys, groups) && t.coalesced.Keys == s.coalesced.Keys - {name}
  {
    hide SchedulerInvariant.Inv, LiveAt, DependentsAt, FinishCoalesced;
    FinishKeeps(s, name);
    FinishCharges(s, name);
    FinishLoses(s, name);
  }

  /** A group step keeps the agreement, and takes the group from the list of those to be failed once it completes it. */
  lemma {:induction false} GroupKeeps(j: Joint, name: nat, step: Coalescing.Op, orphans: set<nat>)
    requires AgreeBut(j, orphans) && name in j.groups
    ensures AgreeBut(GroupStep(j, name, step), orphans)
    ensures GroupStep(j, name, step).groups[name].group.completed ==> AgreeBut(GroupStep(j, name, step), orphans - {name})
  {
    hide SchedulerInvariant.Inv, CoalescingModel.Inv, Coalescing.Step, Charged, ReleaseDependents, FinishCoalesced;
    var m := j.groups[name];
    Coalescing.StepKeeps(m.group, step);
    if m.group.completed {
      StaysCompleted(m.group, step);
    }
    var (group, released) := Coalescing.Step(m.group, step);
    var groups := j.groups[name := m.(group := group)];
    ReleaseAgrees(j.scheduler, j.groups, name, group, released);
    FinishAgrees(ReleaseDependents(j.scheduler, m.key, released), groups, name);
    SoundStays(j, name, step);
  }

  lemma {:induction false} StaysCompleted(g: CoalescingModel.Group, step: Coalescing.Op)
    requires CoalescingModel.Inv(g) && g.completed
    ensures Coalescing.Step(g, step).0.completed
  {
    hide CoalescingModel.Inv;
  }

  lemma {:induction false} FailCompletes(g: CoalescingModel.Group)
    requires CoalescingModel.Inv(g)
    ensures Coalescing.Step(g, Coalescing.DoFail).0.completed
  {
    hide CoalescingModel.Inv;
  }

  /** Failing every group that was left without an entry restores the agreement. */
  lemma {:induction false} FailEachAgrees(j: Joint, order: seq<nat>)
    requires AgreeBut(j, Members(order)) && forall g :: g in order ==> g in j.groups
    ensures Agree(FailEach(j, order))
    decreases |order|
  {
    hide SchedulerInvariant.Inv, CoalescingModel.Inv, Coalescing.Step, Charged, Entered;
    if order == [] {
      assert Members(order) == {};
    } else {
      var name, rest := order[0], order[1..];
      GroupKeeps(j, name, Coalescing.DoFail, Members(order));
      FailCompletes(j.groups[name].group);
      var k := GroupStep(j, name, Coalescing.DoFail);
      assert order == [name] + rest;
      FewerOrphans(k, Members(order) - {name}, Members(rest));
      FailEachAgrees(k, rest);
    }
  }

  ghost function Members(order: seq<nat>): set<nat> {
    set g | g in order
  }

  lemma {:induction false} FewerOrphans(j: Joint, less: set<nat>, more: set<nat>)
    requires AgreeBut(j, less) && less <= more
    ensures AgreeBut(j, more)
  {
    hide SchedulerInvariant.Inv, Sound, Charged;
  }

  /** After a step of the scheduler alone only the groups it gave up disagree. */
  lemma {:induction false} AloneAgrees(j: Joint, op: Op)
    requires Agree(j)
    ensures var t := Alone(j.scheduler, op);
            AgreeBut(j.(scheduler := t), Orphans(j.scheduler, t)) && Orphans(j.scheduler, t) <= j.groups.Keys && Agree(Detach(j, t))
  {
    hide SchedulerInvariant.Inv, CoalescingModel.Inv, LiveAt, Alone;
    AloneKeeps(j.scheduler, op);
  }

  /** Cancelling and retrying give up the group of the entry they remove, and no other. */
  lemma {:induction false} OneOrphan(s: State, op: Op, id: Uint64)
    requires SchedulerInvariant.Inv(s) && (op == Cancel(id) || op == Retry(id))
    ensures Members(Only(Orphan(s, Alone(s, op), id))) == Orphans(s, Alone(s, op))
  {
    hide SchedulerInvariant.Inv, DropQueued, Land, CheckAdmission;
    if id in s.entries {
      KeyOfEntry(s, id);
      GroupStays(s, id);
      var e := s.entries[id];
      assert GroupsOf(s.entries, {id}) == if e.group.Some? then {e.group.value} else {};
      DropLoses(s, e.request.key, {id});
      LandLoses(s, id);
    }
  }

  lemma {:induction false} PlainLoses(s: State, r: Request)
    requires SchedulerInvariant.Inv(s)
    ensures Orphans(s, Alone(s, Plain(r))) == {}
  {
    hide SchedulerInvariant.Inv, CheckAdmission, Remember;
  }

  /** Scheduler and groups agree after every step of either. */
  lemma {:induction false} StepAgrees(j: Joint, op: Op)
    requires Agree(j)
    ensures Agree(Step(j, op))
  {
    hide SchedulerInvariant.Inv, CoalescingModel.Inv, Sound, Charged, Entered, Alone, FailEach, GroupStep, Orphans, Orphan;
    match op
    case Coalesce(r, name, intents) => CoalesceKeeps(j, r, name, intents);
    case Group(name, step) => if name in j.groups { GroupKeeps(j, name, step, {}); }
    case Plain(r) => AloneAgrees(j, op); PlainLoses(j.scheduler, r);
    case Finish(_) => AloneAgrees(j, op);
    case Complete(_) => AloneAgrees(j, op);
    case Cancel(id) => GivenUpAgrees(j, op, id);
    case Retry(id) => GivenUpAgrees(j, op, id);
    case Dispatch(_, order) =>
      AloneAgrees(j, op);
      var t := Alone(j.scheduler, op);
      if Names(order, Orphans(j.scheduler, t)) {
        assert Members(order) == Orphans(j.scheduler, t);
        FailEachAgrees(j.(scheduler := t), order);
      }
  }

  lemma {:induction false} GivenUpAgrees(j: Joint, op: Op, id: Uint64)
    requires Agree(j) && (op == Cancel(id) || op == Retry(id))
    ensures Agree(Step(j, op))
  {
    hide SchedulerInvariant.Inv, CoalescingModel.Inv, Sound, Charged, Entered, Alone, FailEach, Orphans, Orphan;
    AloneAgrees(j, op);
    OneOrphan(j.scheduler, op, id);
    var t := Alone(j.scheduler, op);
    var order := Only(Orphan(j.scheduler, t, id));
    assert forall g :: g in order ==> g in Members(order);
    FailEachAgrees(j.(scheduler := t), order);
  }

  // ---------- Runs ----------

  ghost function Run(j: Joint, ops: seq<Op>): Joint
    requires Agree(j)
    decreases |ops|
  {
    if ops == [] then j
    else
      StepAgrees(j, ops[0]);
      Run(Step(j, ops[0]), ops[1..])
  }

  lemma {:induction false} RunAgrees(j: Joint, ops: seq<Op>)
    requires Agree(j)
    ensures Agree(Run(j, ops))
    decreases |ops|
  {
    hide Agree, Step;
    if ops != [] {
      StepAgrees(j, ops[0]);
      RunAgrees(Step(j, ops[0]), ops[1..]);
    }
  }

  function Fresh(l: Limits): Joint {
    Joint(Empty(l), map[], {})
  }

  lemma {:induction false} EmptyAgrees(l: Limits)
    requires ValidLimits(l)
    ensures Agree(Fresh(l))
  {
    EmptyInv(l);
  }

  /** The key's count of dependents is the number of live dependents of its groups, after any run. */
  lemma {:induction false} CountsAgree(l: Limits, ops: seq<Op>, key: AdmissionKey)
    requires ValidLimits(l)
    ensures Agree(Fresh(l))
    ensures var j := Run(Fresh(l), ops); DependentsAt(j.scheduler.keys, key) == LiveAt(j.groups, key)
  {
    EmptyAgrees(l);
    hide SchedulerInvariant.Inv, Run, Sound, Entered;
    RunAgrees(Fresh(l), ops);
  }

  lemma {:induction false} CompletedIsReleased(m: Member)
    requires CoalescingModel.Inv(m.group) && m.group.completed
    ensures LiveIn(m) == 0 && forall i :: 0 <= i < |m.group.dependents| ==> !CoalescingModel.Live(m.group.dependents[i])
  {
    forall i | 0 <= i < |m.group.dependents|
      ensures !CoalescingModel.Live(m.group.dependents[i])
    {
      assert CoalescingModel.StageOk(m.group, m.group.dependents[i]);
    }
    Coalescing.NoneLive(m.group.dependents);
  }

  /**
   After any run a group whose views have all ended has no entry left, and a group that still has a live view has one,
   unless a caller took it away with Complete or FinishCoalesced: whatever else removes an entry ends all its views.
   */
  lemma {:induction false} EnteredUntilEnded(l: Limits, ops: seq<Op>, g: nat)
    requires ValidLimits(l)
    ensures Agree(Fresh(l))
    ensures var j := Run(Fresh(l), ops);
            g in j.groups ==>
              var live := exists i :: 0 <= i < |j.groups[g].group.dependents| && CoalescingModel.Live(j.groups[g].group.dependents[i]);
              && (live <==> !j.groups[g].group.completed)
              && (g in j.scheduler.coalesced ==> live)
              && (live ==> g in j.scheduler.coalesced || g in j.detached)
  {
    EmptyAgrees(l);
    hide SchedulerInvariant.Inv, Run, Charged, CoalescingModel.Inv;
    RunAgrees(Fresh(l), ops);
    var j := Run(Fresh(l), ops);
    if g in j.groups {
      if j.groups[g].group.completed {
        CompletedIsReleased(j.groups[g]);
      } else {
        OpenIsLive(j.groups[g].group);
      }
    }
  }

  lemma {:induction false} OpenIsLive(g: CoalescingModel.Group)
    requires CoalescingModel.Inv(g) && !g.completed
    ensures exists i :: 0 <= i < |g.dependents| && CoalescingModel.Live(g.dependents[i])
  {
    hide CoalescingModel.Hull, CoalescingModel.LiveCount;
    var i := Coalescing.LiveFrom(g.dependents, 0);
  }

  // ---------- Every view ends once ----------

  /** No group is lost or given to another key, and each of its views keeps the end it has reached. */
  ghost predicate Carries(before: map<nat, Member>, after: map<nat, Member>) {
    forall g :: g in before ==>
      g in after && after[g].key == before[g].key && Coalescing.Follows(before[g].group.dependents, after[g].group.dependents)
  }

  lemma {:induction false} CarriesItself(groups: map<nat, Member>)
    ensures Carries(groups, groups)
  {
  }

  lemma {:induction false} CarriesOn(a: map<nat, Member>, b: map<nat, Member>, c: map<nat, Member>)
    requires Carries(a, b) && Carries(b, c)
    ensures Carries(a, c)
  {
    hide Coalescing.Follows;
    forall g | g in a
      ensures Coalescing.Follows(a[g].group.dependents, c[g].group.dependents)
    {
      FollowsOn(a[g].group.dependents, b[g].group.dependents, c[g].group.dependents);
    }
  }

  lemma {:induction false} FollowsOn(ds: seq<CoalescingModel.Dependent>, es: seq<CoalescingModel.Dependent>, fs: seq<CoalescingModel.Dependent>)
    requires Coalescing.Follows(ds, es) && Coalescing.Follows(es, fs)
    ensures Coalescing.Follows(ds, fs)
  {
    forall i | 0 <= i < |ds|
      ensures Coalescing.SameView(ds[i], fs[i]) && (Coalescing.Terminal(ds[i]) ==> fs[i].stage == ds[i].stage)
    {
      assert Coalescing.SameView(ds[i], es[i]) && Coalescing.SameView(es[i], fs[i]);
    }
  }

  lemma {:induction false} GroupCarries(j: Joint, name: nat, step: Coalescing.Op)
    requires Sound(j.groups) && name in j.groups
    ensures Carries(j.groups, GroupStep(j, name, step).groups)
  {
    hide CoalescingModel.Inv, Coalescing.Step;
    Coalescing.StepKeeps(j.groups[name].group, step);
  }

  lemma {:induction false} FailEachCarries(j: Joint, order: seq<nat>)
    requires Sound(j.groups)
    ensures Carries(j.groups, FailEach(j, order).groups)
    decreases |order|
  {
    hide Sound, Carries, GroupStep;
    CarriesItself(j.groups);
    if order != [] {
      if order[0] in j.groups {
        assert CoalescingModel.Inv(j.groups[order[0]].group) by { GroupIsSound(j.groups, order[0]); }
        SoundStays(j, order[0], Coalescing.DoFail);
        GroupCarries(j, order[0], Coalescing.DoFail);
        var k := GroupStep(j, order[0], Coalescing.DoFail);
        FailEachCarries(k, order[1..]);
        CarriesOn(j.groups, k.groups, FailEach(k, order[1..]).groups);
      } else {
        FailEachCarries(j, order[1..]);
      }
    }
  }

  lemma {:induction false} GroupIsSound(groups: map<nat, Member>, name: nat)
    requires Sound(groups) && name in groups
    ensures CoalescingModel.Inv(groups[name].group)
  {
  }

  lemma {:induction false} StepCarries(j: Joint, op: Op)
    requires Agree(j)
    ensures Carries(j.groups, Step(j, op).groups)
  {
    hide SchedulerInvariant.Inv, CoalescingModel.Inv, Carries, Alone, FailEach, GroupStep, Orphans, Orphan, ScheduleCoalesced, Charged, Entered;
    CarriesItself(j.groups);
    match op
    case Coalesce(r, name, intents) =>
      if name !in j.groups && Schedulable(j.scheduler, r, intents) {
        MoreCarries(j.groups, name, Member(r.key, CoalescingModel.Built(intents)));
      }
    case Group(name, step) => if name in j.groups { GroupCarries(j, name, step); }
    case Cancel(id) =>
      var t := Alone(j.scheduler, op);
      FailEachCarries(j.(scheduler := t), Only(Orphan(j.scheduler, t, id)));
    case Retry(id) =>
      var t := Alone(j.scheduler, op);
      FailEachCarries(j.(scheduler := t), Only(Orphan(j.scheduler, t, id)));
    case Dispatch(_, order) => FailEachCarries(j.(scheduler := Alone(j.scheduler, op)), order);
    case _ =>
  }

  lemma {:induction false} MoreCarries(groups: map<nat, Member>, name: nat, m: Member)
    requires name !in groups
    ensures Carries(groups, groups[name := m])
  {
  }

  /** From any state on and through any run of both, a view that has ended keeps that end, and no view changes its meaning. */
  lemma {:induction false} ViewsEndOnce(j: Joint, ops: seq<Op>)
    requires Agree(j)
    ensures Carries(j.groups, Run(j, ops).groups)
    decreases |ops|
  {
    hide Agree, Step, Carries;
    CarriesItself(j.groups);
    if ops != [] {
      StepAgrees(j, ops[0]);
      StepCarries(j, ops[0]);
      ViewsEndOnce(Step(j, ops[0]), ops[1..]);
      CarriesOn(j.groups, Step(j, ops[0]).groups, Run(j, ops).groups);
    }
  }

  // ---------- All work ended ----------

  lemma {:induction false} GroupLimits(j: Joint, name: nat, step: Coalescing.Op)
    requires name in j.groups && CoalescingModel.Inv(j.groups[name].group)
    ensures GroupStep(j, name, step).scheduler.limits == j.scheduler.limits
  {
    hide CoalescingModel.Inv, Coalescing.Step, FinishCoalesced;
    var m := j.groups[name];
    SchedulerRuns.FinishLimits(ReleaseDependents(j.scheduler, m.key, Coalescing.Step(m.group, step).1), name);
  }

  lemma {:induction false} FailEachLimits(j: Joint, order: seq<nat>)
    requires Sound(j.groups)
    ensures FailEach(j, order).scheduler.limits == j.scheduler.limits
    decreases |order|
  {
    if order != [] {
      if order[0] in j.groups {
        GroupLimits(j, order[0], Coalescing.DoFail);
        SoundStays(j, order[0], Coalescing.DoFail);
        hide Sound, GroupStep;
        FailEachLimits(GroupStep(j, order[0], Coalescing.DoFail), order[1..]);
      } else {
        hide Sound, GroupStep;
        FailEachLimits(j, order[1..]);
      }
    }
  }

  lemma {:induction false} AloneLimits(s: State, op: Op)
    requires SchedulerInvariant.Inv(s)
    ensures Alone(s, op).limits == s.limits
  {
    hide SchedulerInvariant.Inv, FinishCoalesced, SchedulerModel.Complete, SchedulerModel.Retry, CancelQueued, Enqueue, SchedulerDispatch.Dispatch;
    match op
    case Plain(r) => SchedulerRuns.StepLimits(s, SchedulerRuns.DoEnqueue(r));
    case Cancel(id) => SchedulerRuns.StepLimits(s, SchedulerRuns.DoCancel(id));
    case Complete(id) => SchedulerRuns.StepLimits(s, SchedulerRuns.DoComplete(id));
    case Retry(id) => SchedulerRuns.StepLimits(s, SchedulerRuns.DoRetry(id));
    case Dispatch(now, _) => SchedulerRuns.StepLimits(s, SchedulerRuns.DoDispatch(now));
    case Finish(name) => SchedulerRuns.FinishLimits(s, name);
    case _ =>
  }

  lemma {:induction false} EnteredAreKnown(j: Joint)
    requires Agree(j)
    ensures j.scheduler.coalesced.Keys <= j.groups.Keys
  {
  }

  lemma {:induction false} StepLimits(j: Joint, op: Op)
    requires Agree(j)
    ensures Step(j, op).scheduler.limits == j.scheduler.limits
  {
    hide SchedulerInvariant.Inv, CoalescingModel.Inv, Alone, FailEach, GroupStep, Orphans, Orphan, Charged, Entered, ScheduleCoalesced;
    match op
    case Coalesce(r, name, intents) =>
      if name !in j.groups && Schedulable(j.scheduler, r, intents) {
        EnteredAreKnown(j);
        var schedule := SchedulerRuns.DoSchedule(r, name, |intents|);
        assert SchedulerRuns.Callable(j.scheduler, schedule);
        SchedulerRuns.StepLimits(j.scheduler, schedule);
      }
    case Group(name, step) => if name in j.groups { GroupLimits(j, name, step); }
    case _ =>
      AloneLimits(j.scheduler, op);
      var t := Alone(j.scheduler, op);
      forall order
        ensures FailEach(j.(scheduler := t), order).scheduler.limits == t.limits
      {
        FailEachLimits(j.(scheduler := t), order);
      }
  }

  lemma {:induction false} RunLimits(j: Joint, ops: seq<Op>)
    requires Agree(j)
    ensures Run(j, ops).scheduler.limits == j.scheduler.limits
    decreases |ops|
  {
    hide Agree, Step;
    if ops != [] {
      StepAgrees(j, ops[0]);
      StepLimits(j, ops[0]);
      RunLimits(Step(j, ops[0]), ops[1..]);
    }
  }

  /** An entry that belongs to a group belongs to one that is not completed. */
  lemma {:induction false} OnlyPlainLeft(j: Joint)
    requires Agree(j) && (forall g :: g in j.groups ==> j.groups[g].group.completed)
    ensures forall id :: id in j.scheduler.entries ==> j.scheduler.entries[id].group == None
  {
    hide Charged, Sound;
    forall id | id in j.scheduler.entries
      ensures j.scheduler.entries[id].group == None
    {
      GroupStays(j.scheduler, id);
    }
  }

  /**
   Once all work is terminal the scheduler is as it was when it was built: after any run that leaves all groups completed
   and no plain request, there is no entry, no key, no place in the service order and no cursor.
   */
  lemma {:induction false} TerminalIsEmpty(l: Limits, ops: seq<Op>)
    requires ValidLimits(l)
    ensures Agree(Fresh(l))
    ensures var j := Run(Fresh(l), ops);
            (forall g :: g in j.groups ==> j.groups[g].group.completed)
            && (forall id :: id in j.scheduler.entries ==> j.scheduler.entries[id].group.Some?) ==>
              j.scheduler == Empty(l)
  {
    EmptyAgrees(l);
    hide SchedulerInvariant.Inv, CoalescingModel.Inv, Run, Entered;
    RunAgrees(Fresh(l), ops);
    RunLimits(Fresh(l), ops);
    var j := Run(Fresh(l), ops);
    if (forall g :: g in j.groups ==> j.groups[g].group.completed) && (forall id :: id in j.scheduler.entries ==> j.scheduler.entries[id].group.Some?) {
      OnlyPlainLeft(j);
      assert j.scheduler.entries == map[];
      forall key | key in j.scheduler.keys
        ensures j.scheduler.keys[key].dependents == 0
      {
        NoneCharged(j.groups, key);
        assert DependentsAt(j.scheduler.keys, key) == LiveAt(j.groups, key);
      }
      SchedulerRuns.NothingLeftBehind(j.scheduler);
    }
  }

  lemma {:induction false} NoneCharged(groups: map<nat, Member>, key: AdmissionKey)
    requires Sound(groups) && forall g :: g in groups ==> groups[g].group.completed
    ensures LiveAt(groups, key) == 0
  {
    hide CoalescingModel.Inv;
    forall g | g in groups
      ensures LiveIn(groups[g]) == 0
    {
      CompletedIsReleased(groups[g]);
    }
    SumZero(groups, ByKey(key));
  }

  /** Finishing a group, completed or not, removes its entry and no other, and finishing again changes nothing. */
  lemma {:induction false} FinishedOnce(j: Joint, name: nat)
    requires Agree(j)
    ensures Agree(Step(j, Finish(name)))
    ensures Step(j, Finish(name)).scheduler.coalesced.Keys == j.scheduler.coalesced.Keys - {name}
    ensures Step(Step(j, Finish(name)), Finish(name)) == Step(j, Finish(name))
  {
    hide SchedulerInvariant.Inv, Sound, Charged, Entered;
    StepAgrees(j, Finish(name));
    FinishLoses(j.scheduler, name);
  }
}
