/** Coalescing preserves meaning: what every run of a coalesced read keeps, and what its views are. */
module Coalescing {
  import opened Common
  import opened Pdu
  import opened CoalescingModel

  // ---------- Live dependents ----------

  lemma {:induction false} LiveAt(ds: seq<Dependent>, i: nat) returns (k: nat)
    requires i < |ds| && Live(ds[i])
    ensures k < LiveCount(ds) && LiveRanges(ds)[k] == RangeOf(ds[i])
  {
    var n := |ds| - 1;
    if i == n {
      k := LiveCount(ds) - 1;
    } else {
      k := LiveAt(ds[..n], i);
    }
  }

  lemma {:induction false} LiveFrom(ds: seq<Dependent>, k: nat) returns (i: nat)
    requires k < LiveCount(ds)
    ensures i < |ds| && Live(ds[i]) && RangeOf(ds[i]) == LiveRanges(ds)[k]
  {
    var n := |ds| - 1;
    if k < LiveCount(ds[..n]) {
      i := LiveFrom(ds[..n], k);
    } else {
      i := n;
    }
  }

  lemma {:induction false} NoneLive(ds: seq<Dependent>)
    requires forall i :: 0 <= i < |ds| ==> !Live(ds[i])
    ensures LiveCount(ds) == 0
  {
    if LiveCount(ds) > 0 {
      var i := LiveFrom(ds, 0);
    }
  }

  lemma {:induction false} LiveCounts(ds: seq<Dependent>)
    requires LiveCount(ds) == 0
    ensures forall i :: 0 <= i < |ds| ==> !Live(ds[i])
  {
    forall i | 0 <= i < |ds|
      ensures !Live(ds[i])
    {
      if Live(ds[i]) {
        var k := LiveAt(ds, i);
      }
    }
  }

  // ---------- Building ----------

  lemma {:induction false} RangesAt(intents: seq<Intent>, i: nat)
    requires i < |intents|
    ensures Ranges(intents)[i] == RangeOfRead(intents[i].request)
  {
  }

  lemma {:induction false} AllLive(ds: seq<Dependent>, rs: seq<Range>)
    requires |rs| == |ds| && forall i :: 0 <= i < |ds| ==> Live(ds[i]) && RangeOf(ds[i]) == rs[i]
    ensures LiveCount(ds) == |ds| && LiveRanges(ds) == rs
  {
    if ds != [] {
      var n := |ds| - 1;
      AllLive(ds[..n], rs[..n]);
      assert rs == rs[..n] + [rs[n]];
    }
  }

  lemma {:induction false} HullFits(intents: seq<Intent>, maxDependents: int)
    requires Coalescible(intents, maxDependents)
    ensures var h := Hull(Ranges(intents));
            && 0 <= h.start < h.end <= 0x1_0000 && h.end - h.start <= MAX_READ_REGISTERS
            && forall k :: 0 <= k < |intents| ==>
                 h.start <= intents[k].request.offset && intents[k].request.offset + intents[k].request.quantity <= h.end
  {
    var rs := Ranges(intents);
    var i, j := HullReached(rs);
    assert ValidIntent(intents[i]) && ValidIntent(intents[j]);
    assert rs[i].start < rs[j].end;
    forall k | 0 <= k < |intents|
      ensures Hull(rs).start <= intents[k].request.offset && intents[k].request.offset + intents[k].request.quantity <= Hull(rs).end
    {
      RangesAt(intents, k);
    }
  }

  lemma {:induction false} BuiltInv(intents: seq<Intent>, maxDependents: int)
    requires Coalescible(intents, maxDependents)
    ensures Inv(Built(intents)) && LiveCount(Built(intents).dependents) == |intents|
  {
    hide Hull, LiveRanges, LiveCount;
    var h, g := Hull(Ranges(intents)), Built(intents);
    HullFits(intents, maxDependents);
    AllLive(g.dependents, Ranges(intents));
    assert ValidRead(g.physical) by {
      Member(intents, maxDependents, 0);
    }
    assert Shared(g.dependents) by {
      SharedWhenBuilt(intents, maxDependents);
    }
  }

  lemma {:induction false} Member(intents: seq<Intent>, maxDependents: int, i: nat)
    requires Coalescible(intents, maxDependents) && i < |intents|
    ensures ValidIntent(intents[i])
  {
  }

  lemma {:induction false} SharedWhenBuilt(intents: seq<Intent>, maxDependents: int)
    requires Coalescible(intents, maxDependents)
    ensures Shared(Built(intents).dependents)
  {
    hide Hull;
    var ds := Built(intents).dependents;
    forall i, j | 0 <= i < |ds| && 0 <= j < |ds|
      ensures RangeOf(ds[i]).start < RangeOf(ds[j]).end
    {
      RangesAt(intents, i);
      RangesAt(intents, j);
      assert Ranges(intents)[i].start < Ranges(intents)[j].end;
    }
  }

  // ---------- Cancelling ----------

  lemma {:induction false} CountWithout(ds: seq<Dependent>, i: nat)
    requires i < |ds| && Live(ds[i])
    ensures LiveCount(Without(ds, i)) == LiveCount(ds) - 1
  {
    var n := |ds| - 1;
    if i == n {
      assert Without(ds, i)[..n] == ds[..n];
    } else {
      CountWithout(ds[..n], i);
      assert Without(ds, i)[..n] == Without(ds[..n], i);
    }
  }

  /** Slice offsets do not matter to the ranges. */
  lemma {:induction false} RebaseRanges(ds: seq<Dependent>, base: Uint16)
    ensures LiveCount(Rebase(ds, base)) == LiveCount(ds) && LiveRanges(Rebase(ds, base)) == LiveRanges(ds)
  {
    if ds != [] {
      var n := |ds| - 1;
      RebaseRanges(ds[..n], base);
      assert Rebase(ds, base)[..n] == Rebase(ds[..n], base);
      assert Rebase(ds, base)[n] == Rebased(ds[n], base);
    }
  }

  lemma {:induction false} LiveOverlap(ds: seq<Dependent>)
    requires Shared(ds)
    ensures Overlap(LiveRanges(ds))
  {
    var rs := LiveRanges(ds);
    forall k, m | 0 <= k < |rs| && 0 <= m < |rs|
      ensures rs[k].start < rs[m].end
    {
      var i := LiveFrom(ds, k);
      var j := LiveFrom(ds, m);
    }
  }

  /** What is left after a cancellation is a shorter read inside the old one: narrowing cannot fail. */
  lemma {:induction false} NarrowingSucceeds(physical: ReadRequest, ds: seq<Dependent>)
    requires ValidRead(physical) && Shared(ds) && LiveCount(ds) > 0
    requires forall i :: 0 <= i < |ds| ==> Fits(ds[i], physical)
    ensures var p := Narrowed(physical, ds);
            && ValidRead(p) && RangeOfRead(p) == Hull(LiveRanges(ds))
            && physical.offset <= p.offset && p.offset + p.quantity <= physical.offset + physical.quantity
            && forall i :: 0 <= i < |ds| ==> Fits(Rebased(ds[i], p.offset), p)
  {
    HullInside(physical, ds);
    hide Hull, Shared, LiveRanges, LiveCount;
    var p := Narrowed(physical, ds);
    forall k | 0 <= k < |ds|
      ensures Fits(Rebased(ds[k], p.offset), p)
    {
      LiveInHull(ds, k);
      RebasedFits(ds[k], physical, p);
    }
  }

  lemma {:induction false} HullInside(physical: ReadRequest, ds: seq<Dependent>)
    requires ValidRead(physical) && Shared(ds) && LiveCount(ds) > 0 && forall i :: 0 <= i < |ds| ==> Fits(ds[i], physical)
    ensures var h := Hull(LiveRanges(ds)); physical.offset <= h.start < h.end <= physical.offset + physical.quantity
  {
    hide Hull;
    var rs := LiveRanges(ds);
    var i, j := HullReached(rs);
    LiveOverlap(ds);
    var a := LiveFrom(ds, i);
    var b := LiveFrom(ds, j);
    assert Fits(ds[a], physical) && Fits(ds[b], physical);
    assert rs[i].start < rs[j].end;
  }

  lemma {:induction false} LiveInHull(ds: seq<Dependent>, k: nat)
    requires k < |ds| && LiveCount(ds) > 0
    ensures Live(ds[k]) ==> Hull(LiveRanges(ds)).start <= RangeOf(ds[k]).start && RangeOf(ds[k]).end <= Hull(LiveRanges(ds)).end
  {
    hide Hull;
    var i, j := HullReached(LiveRanges(ds));
    if Live(ds[k]) {
      var m := LiveAt(ds, k);
    }
  }

  lemma {:induction false} RebasedFits(d: Dependent, before: ReadRequest, p: ReadRequest)
    requires Fits(d, before) && (Live(d) ==> p.offset <= RangeOf(d).start && RangeOf(d).end <= p.offset + p.quantity)
    ensures Fits(Rebased(d, p.offset), p)
  {
  }

  lemma {:induction false} SharedKept(ds: seq<Dependent>, es: seq<Dependent>)
    requires Shared(ds) && |es| == |ds|
    requires forall i :: 0 <= i < |ds| ==> SameView(ds[i], es[i])
    ensures Shared(es)
  {
    forall i | 0 <= i < |es|
      ensures Sound(es[i])
    {
      assert SameView(ds[i], es[i]) && Sound(ds[i]);
    }
    forall i, j | 0 <= i < |es| && 0 <= j < |es|
      ensures RangeOf(es[i]).start < RangeOf(es[j]).end
    {
      assert SameView(ds[i], es[i]) && SameView(ds[j], es[j]);
    }
    forall i, j | 0 <= i < j < |es|
      ensures es[i].slice.view != es[j].slice.view
    {
      assert SameView(ds[i], es[i]) && SameView(ds[j], es[j]);
    }
  }

  /** The same logical view of the same registers. */
  ghost predicate SameView(d: Dependent, e: Dependent) {
    && d.slice.view == e.slice.view && d.slice.logicalOffset == e.slice.logicalOffset
    && d.slice.logicalWords == e.slice.logicalWords
  }

  ghost predicate Terminal(d: Dependent) {
    !Live(d)
  }

  /** A step keeps every view and never changes a terminal stage. */
  ghost predicate Follows(ds: seq<Dependent>, es: seq<Dependent>) {
    && |es| == |ds|
    && forall i :: 0 <= i < |ds| ==> SameView(ds[i], es[i]) && (Terminal(ds[i]) ==> es[i].stage == ds[i].stage)
  }

  lemma {:induction false} NarrowKeeps(g: Group, i: nat)
    requires Inv(g) && !g.writeBegun && !g.completed && i < |g.dependents| && Live(g.dependents[i])
    requires LiveCount(Without(g.dependents, i)) > 0
    ensures var ds := Without(g.dependents, i);
            var physical := Narrowed(g.physical, ds);
            var h := g.(physical := physical, dependents := Rebase(ds, physical.offset));
            Inv(h) && Follows(g.dependents, h.dependents) && LiveCount(g.dependents) == LiveCount(h.dependents) + 1
  {
    hide Hull, LiveCount, LiveRanges, Narrowed, Shared;
    var ds := Without(g.dependents, i);
    var physical := Narrowed(g.physical, ds);
    CountWithout(g.dependents, i);
    SharedKept(g.dependents, ds);
    NarrowingSucceeds(g.physical, ds);
    RebaseRanges(ds, physical.offset);
    SharedKept(ds, Rebase(ds, physical.offset));
  }

  lemma {:induction false} DetachKeeps(g: Group, i: nat)
    requires Inv(g) && !g.completed && i < |g.dependents| && Live(g.dependents[i])
    requires g.writeBegun || LiveCount(Without(g.dependents, i)) == 0
    ensures var ds := Without(g.dependents, i);
            var h := g.(dependents := ds, completed := LiveCount(ds) == 0);
            Inv(h) && Follows(g.dependents, h.dependents) && LiveCount(g.dependents) == LiveCount(h.dependents) + 1
  {
    hide Hull, LiveCount, LiveRanges, Shared;
    var ds := Without(g.dependents, i);
    CountWithout(g.dependents, i);
    SharedKept(g.dependents, ds);
    if LiveCount(ds) == 0 {
      LiveCounts(ds);
    }
  }

  lemma {:induction false} CancelKeeps(g: Group, view: Uint64, reply: OwnerReply)
    requires Inv(g)
    ensures var (h, released, ok) := Cancel(g, view, reply);
            && Inv(h) && Follows(g.dependents, h.dependents)
            && LiveCount(g.dependents) == LiveCount(h.dependents) + released
            && (!ok ==> h == g)
  {
    hide Inv, LiveCount, Narrowed, Rebase;
    var i := IndexOfView(g.dependents, view);
    if Cancel(g, view, reply).2 {
      if !g.writeBegun && LiveCount(Without(g.dependents, i)) > 0 {
        NarrowKeeps(g, i);
      } else {
        DetachKeeps(g, i);
      }
    }
  }

  // ---------- The other steps ----------

  lemma {:induction false} AttachLive(ds: seq<Dependent>)
    ensures LiveCount(Attach(ds)) == LiveCount(ds)
  {
    if ds != [] {
      AttachLive(ds[..|ds| - 1]);
      assert Attach(ds)[..|ds| - 1] == Attach(ds[..|ds| - 1]);
    }
  }

  lemma {:induction false} BeginWriteKeeps(g: Group)
    requires Inv(g)
    ensures Inv(BeginWrite(g).0) && Follows(g.dependents, BeginWrite(g).0.dependents)
    ensures LiveCount(BeginWrite(g).0.dependents) == LiveCount(g.dependents)
  {
    hide Hull, LiveCount, LiveRanges;
    AttachLive(g.dependents);
    SharedKept(g.dependents, Attach(g.dependents));
  }

  lemma {:induction false} FailKeeps(g: Group)
    requires Inv(g)
    ensures Inv(Fail(g).0) && Follows(g.dependents, Fail(g).0.dependents)
    ensures LiveCount(g.dependents) == LiveCount(Fail(g).0.dependents) + Fail(g).1
  {
    SharedKept(g.dependents, Drop(g.dependents));
    NoneLive(Drop(g.dependents));
  }

  /** Cutting a genuine reply apart cannot fail. */
  lemma {:induction false} SlicesFit(g: Group, words: seq<Uint16>)
    requires Inv(g) && |words| == g.physical.quantity
    ensures forall i :: 0 <= i < |g.dependents| && Live(g.dependents[i]) ==> Sliceable(g.dependents[i], |words|)
  {
    forall i | 0 <= i < |g.dependents| && Live(g.dependents[i])
      ensures Sliceable(g.dependents[i], |words|)
    {
      assert Fits(g.dependents[i], g.physical);
    }
  }

  /** Delivers a reply: a view for each live dependent, all of them released. */
  ghost function Replay(g: Group, r: Response): (Group, seq<View>, nat)
    requires Inv(g)
  {
    if !Accepts(g, r) then (g, [], 0)
    else
      SlicesFit(g, r.words);
      (g.(dependents := Deliver(g.dependents), completed := true), Cut(g.dependents, r.words), LiveCount(g.dependents))
  }

  lemma {:induction false} ReplayKeeps(g: Group, r: Response)
    requires Inv(g)
    ensures Inv(Replay(g, r).0) && Follows(g.dependents, Replay(g, r).0.dependents)
    ensures LiveCount(g.dependents) == LiveCount(Replay(g, r).0.dependents) + Replay(g, r).2
  {
    SharedKept(g.dependents, Deliver(g.dependents));
    NoneLive(Deliver(g.dependents));
  }

  // ---------- Runs ----------

  datatype Op =
    | DoBind
    | DoWrite
    | DoCancel(view: Uint64, reply: OwnerReply)
    | DoReplay(response: Response)
    | DoFail

  ghost function Step(g: Group, op: Op): (Group, nat)
    requires Inv(g)
  {
    match op
    case DoBind => (Bind(g), 0)
    case DoWrite => (BeginWrite(g).0, 0)
    case DoCancel(v, reply) => (Cancel(g, v, reply).0, Cancel(g, v, reply).1)
    case DoReplay(r) => (Replay(g, r).0, Replay(g, r).2)
    case DoFail => Fail(g)
  }

  /** Every dependent a step ends is released by it, exactly once, and stays ended. */
  lemma {:induction false} StepKeeps(g: Group, op: Op)
    requires Inv(g)
    ensures Inv(Step(g, op).0) && Follows(g.dependents, Step(g, op).0.dependents)
    ensures LiveCount(g.dependents) == LiveCount(Step(g, op).0.dependents) + Step(g, op).1
  {
    hide Inv, Follows, LiveCount, Cancel, BeginWrite, Replay, Fail;
    match op
    case DoBind => BindKeeps(g);
    case DoWrite => BeginWriteKeeps(g);
    case DoCancel(v, reply) => CancelKeeps(g, v, reply);
    case DoReplay(r) => ReplayKeeps(g, r);
    case DoFail => FailKeeps(g);
  }

  lemma {:induction false} BindKeeps(g: Group)
    requires Inv(g)
    ensures Inv(Bind(g)) && Follows(g.dependents, Bind(g).dependents)
    ensures LiveCount(Bind(g).dependents) == LiveCount(g.dependents)
  {
  }

  ghost function Run(g: Group, ops: seq<Op>): Group
    requires Inv(g)
    decreases |ops|
  {
    if ops == [] then g
    else
      StepKeeps(g, ops[0]);
      Run(Step(g, ops[0]).0, ops[1..])
  }

  ghost function Released(g: Group, ops: seq<Op>): nat
    requires Inv(g)
    decreases |ops|
  {
    if ops == [] then 0
    else
      StepKeeps(g, ops[0]);
      Step(g, ops[0]).1 + Released(Step(g, ops[0]).0, ops[1..])
  }

  /** Over any run the views stay what they were, an ended view stays ended, and each is released once. */
  lemma {:induction false} RunKeeps(g: Group, ops: seq<Op>)
    requires Inv(g)
    ensures Inv(Run(g, ops)) && Follows(g.dependents, Run(g, ops).dependents)
    ensures LiveCount(g.dependents) == LiveCount(Run(g, ops).dependents) + Released(g, ops)
    decreases |ops|
  {
    hide Inv, LiveCount, Step;
    if ops != [] {
      StepKeeps(g, ops[0]);
      var h := Step(g, ops[0]).0;
      RunKeeps(h, ops[1..]);
      var k := Run(h, ops[1..]);
      assert forall i :: 0 <= i < |g.dependents| ==> SameView(g.dependents[i], h.dependents[i]) && SameView(h.dependents[i], k.dependents[i]);
    }
  }

  // ---------- Meaning ----------

  /** Whose registers a read is about. */
  datatype Device = Device(endpoint: string, transport: Transport, generation: Uint64, unit: Byte)

  /** The registers of all devices and tables there are. */
  type World = (Device, Table, Uint16) -> Uint16

  function DeviceOf(i: Intent): Device {
    Device(i.endpoint, i.transport, i.generation, i.unit)
  }

  function MemoryOf(world: World, device: Device, table: Table): Uint16 -> Uint16 {
    (register: Uint16) => world(device, table, register)
  }

  /** What reading the intent from its own device and table gives. */
  ghost function DirectRead(world: World, i: Intent): View
    requires ValidIntent(i)
  {
    View(i.view, i.request.offset, Registers(MemoryOf(world, DeviceOf(i), i.request.table), i.request.offset, i.request.quantity))
  }

  /** What a caller that read each live view directly would get. */
  ghost function DirectReads(intents: seq<Intent>, ds: seq<Dependent>, world: World): seq<View>
    requires |ds| <= |intents| && forall i :: 0 <= i < |ds| ==> ValidIntent(intents[i])
  {
    if ds == [] then []
    else
      var n := |ds| - 1;
      assert ValidIntent(intents[n]);
      DirectReads(intents, ds[..n], world) + if Live(ds[n]) then [DirectRead(world, intents[n])] else []
  }

  /** What the device of the first intent answers to a read. */
  ghost function Answer(world: World, intents: seq<Intent>, read: ReadRequest): Response
    requires intents != [] && ValidRead(read)
  {
    Response(true, read, Registers(MemoryOf(world, DeviceOf(intents[0]), read.table), read.offset, read.quantity))
  }

  ghost predicate Stems(i: Intent, d: Dependent) {
    i.view == d.slice.view && i.request.offset == d.slice.logicalOffset && i.request.quantity == d.slice.logicalWords
  }

  /** The intents all ask the device and table that the reply comes from. */
  ghost predicate OneSource(intents: seq<Intent>, device: Device, table: Table) {
    forall i :: 0 <= i < |intents| ==> DeviceOf(intents[i]) == device && intents[i].request.table == table
  }

  lemma {:induction false} CutsAreDirect(intents: seq<Intent>, ds: seq<Dependent>, physical: ReadRequest, device: Device, world: World)
    requires |ds| <= |intents| && forall i :: 0 <= i < |ds| ==> ValidIntent(intents[i]) && Stems(intents[i], ds[i]) && Fits(ds[i], physical)
    requires ValidRead(physical) && OneSource(intents, device, physical.table)
    ensures var words := Registers(MemoryOf(world, device, physical.table), physical.offset, physical.quantity);
            && (forall i :: 0 <= i < |ds| && Live(ds[i]) ==> Sliceable(ds[i], |words|))
            && Cut(ds, words) == DirectReads(intents, ds, world)
    decreases |ds|
  {
    var words := Registers(MemoryOf(world, device, physical.table), physical.offset, physical.quantity);
    forall i | 0 <= i < |ds| && Live(ds[i])
      ensures Sliceable(ds[i], |words|)
    {
      assert Fits(ds[i], physical);
    }
    if ds != [] {
      var n := |ds| - 1;
      CutsAreDirect(intents, ds[..n], physical, device, world);
      if Live(ds[n]) {
        assert Stems(intents[n], ds[n]) && Fits(ds[n], physical);
        CutIsDirect(intents[n], ds[n], physical, world);
      }
    }
  }

  lemma {:induction false} CutIsDirect(i: Intent, d: Dependent, physical: ReadRequest, world: World)
    requires ValidIntent(i) && Stems(i, d) && Fits(d, physical) && Live(d) && ValidRead(physical) && i.request.table == physical.table
    ensures var words := Registers(MemoryOf(world, DeviceOf(i), physical.table), physical.offset, physical.quantity);
            && Sliceable(d, |words|)
            && View(d.slice.view, d.slice.logicalOffset, words[d.slice.sliceOffset..d.slice.sliceOffset + d.slice.sliceWords]) == DirectRead(world, i)
  {
    var memory, s := MemoryOf(world, DeviceOf(i), physical.table), d.slice;
    var words := Registers(memory, physical.offset, physical.quantity);
    assert words[s.sliceOffset..s.sliceOffset + s.sliceWords] == Registers(memory, s.logicalOffset, s.logicalWords);
  }

  /** Whatever is cancelled, the physical read goes on asking for the same table by the same function. */
  lemma {:induction false} SameTable(g: Group, ops: seq<Op>)
    requires Inv(g)
    ensures Run(g, ops).physical.table == g.physical.table && Run(g, ops).physical.function_ == g.physical.function_
    decreases |ops|
  {
    if ops != [] {
      StepKeeps(g, ops[0]);
      TableStays(g, ops[0]);
      hide Inv, Step;
      SameTable(Step(g, ops[0]).0, ops[1..]);
    }
  }

  lemma {:induction false} TableStays(g: Group, op: Op)
    requires Inv(g)
    ensures Step(g, op).0.physical.table == g.physical.table && Step(g, op).0.physical.function_ == g.physical.function_
  {
    hide Inv, Hull, LiveRanges, LiveCount, Accepts;
  }

  lemma {:induction false} BuiltStems(intents: seq<Intent>, maxDependents: int, ops: seq<Op>)
    requires Coalescible(intents, maxDependents)
    ensures Inv(Built(intents)) && Inv(Run(Built(intents), ops)) && |Run(Built(intents), ops).dependents| == |intents|
    ensures forall i :: 0 <= i < |intents| ==> ValidIntent(intents[i]) && Stems(intents[i], Run(Built(intents), ops).dependents[i])
  {
    hide Inv, Hull;
    BuiltInv(intents, maxDependents);
    var g := Built(intents);
    RunKeeps(g, ops);
    forall i | 0 <= i < |intents|
      ensures ValidIntent(intents[i]) && Stems(intents[i], Run(g, ops).dependents[i])
    {
      assert SameView(g.dependents[i], Run(g, ops).dependents[i]);
    }
  }

  /**
   Coalescing preserves meaning. Whatever intents were accepted and whatever was cancelled since, when the device of the
   first intent answers the physical read, every live view gets what reading its own range from its own device and table
   would give.
   */
  lemma {:induction false} ViewsAreDirectReads(intents: seq<Intent>, maxDependents: int, ops: seq<Op>, world: World)
    requires Coalescible(intents, maxDependents)
    ensures Inv(Built(intents)) && Inv(Run(Built(intents), ops)) && |Run(Built(intents), ops).dependents| == |intents|
    ensures forall i :: 0 <= i < |intents| ==> ValidIntent(intents[i])
    ensures var g := Run(Built(intents), ops);
            var reply := Answer(world, intents, g.physical);
            g.writeBegun && !g.completed ==>
              && Accepts(g, reply) && Replay(g, reply).0.completed
              && Replay(g, reply).1 == DirectReads(intents, g.dependents, world)
  {
    BuiltStems(intents, maxDependents, ops);
    SameTable(Built(intents), ops);
    OneDevice(intents, maxDependents);
    hide Hull, LiveRanges, Run, Built, SameIdentity;
    var g := Run(Built(intents), ops);
    CutsAreDirect(intents, g.dependents, g.physical, DeviceOf(intents[0]), world);
  }

  lemma {:induction false} OneDevice(intents: seq<Intent>, maxDependents: int)
    requires Coalescible(intents, maxDependents)
    ensures Built(intents).physical.table == intents[0].request.table
    ensures OneSource(intents, DeviceOf(intents[0]), intents[0].request.table)
  {
    hide Hull, Overlap;
    forall i | 0 <= i < |intents|
      ensures DeviceOf(intents[i]) == DeviceOf(intents[0]) && intents[i].request.table == intents[0].request.table
    {
      assert SameIdentity(intents[0], intents[i]);
    }
  }

  /** The same registers of the same device, asked for by the same poll, under the same authority and deadline. */
  ghost predicate Agree(a: Intent, b: Intent) {
    && DeviceOf(a) == DeviceOf(b) && a.request.table == b.request.table
    && a.scope == b.scope && a.poll == b.poll && a.deadline == b.deadline
  }

  ghost predicate Meet(a: ReadRequest, b: ReadRequest) {
    exists register :: Covers(a, register) && Covers(b, register)
  }

  ghost predicate AllValid(intents: seq<Intent>) {
    forall i :: 0 <= i < |intents| ==> ValidIntent(intents[i])
  }

  ghost predicate AllAgree(intents: seq<Intent>) {
    forall i, j :: 0 <= i < j < |intents| ==> Agree(intents[i], intents[j]) && intents[i].view != intents[j].view
  }

  ghost predicate AllMeet(intents: seq<Intent>) {
    forall i, j :: 0 <= i < |intents| && 0 <= j < |intents| ==> Meet(intents[i].request, intents[j].request)
  }

  ghost predicate Narrow(intents: seq<Intent>) {
    forall i, j :: 0 <= i < |intents| && 0 <= j < |intents| ==>
      intents[j].request.offset + intents[j].request.quantity - intents[i].request.offset <= MAX_READ_REGISTERS
  }

  lemma {:induction false} AgreeIff(intents: seq<Intent>)
    requires intents != [] && AllValid(intents)
    ensures AllAgree(intents) <==>
              && (forall i :: 0 <= i < |intents| ==> SameIdentity(intents[0], intents[i]))
              && (forall i, j :: 0 <= i < j < |intents| ==> intents[i].view != intents[j].view)
  {
    forall i | 0 <= i < |intents|
      ensures ValidIntent(intents[i]) && (Agree(intents[0], intents[i]) <==> SameIdentity(intents[0], intents[i]))
    {
      assert ValidIntent(intents[0]);
    }
  }

  lemma {:induction false} MeetIff(a: ReadRequest, b: ReadRequest)
    requires ValidRead(a) && ValidRead(b)
    ensures Meet(a, b) <==> a.offset < b.offset + b.quantity && b.offset < a.offset + a.quantity
  {
    var register := if a.offset < b.offset then b.offset else a.offset;
    if a.offset < b.offset + b.quantity && b.offset < a.offset + a.quantity {
      assert Covers(a, register) && Covers(b, register);
    }
  }

  lemma {:induction false} OverlapIff(intents: seq<Intent>)
    requires AllValid(intents)
    ensures AllMeet(intents) <==> Overlap(Ranges(intents))
  {
    forall i, j | 0 <= i < |intents| && 0 <= j < |intents|
      ensures Meet(intents[i].request, intents[j].request) <==>
                Ranges(intents)[i].start < Ranges(intents)[j].end && Ranges(intents)[j].start < Ranges(intents)[i].end
    {
      assert ValidIntent(intents[i]) && ValidIntent(intents[j]);
      MeetIff(intents[i].request, intents[j].request);
    }
    hide Meet;
    var rs := Ranges(intents);
    if AllMeet(intents) {
      forall i, j | 0 <= i < |rs| && 0 <= j < |rs|
        ensures rs[i].start < rs[j].end
      {
        assert Meet(intents[i].request, intents[j].request);
      }
    }
  }

  lemma {:induction false} NarrowIff(intents: seq<Intent>)
    requires intents != []
    ensures Narrow(intents) <==> Hull(Ranges(intents)).end - Hull(Ranges(intents)).start <= MAX_READ_REGISTERS
  {
    hide Hull;
    var rs := Ranges(intents);
    var i, j := HullReached(rs);
    assert rs[i].start == intents[i].request.offset && rs[j].end == intents[j].request.offset + intents[j].request.quantity;
    forall k, m | 0 <= k < |intents| && 0 <= m < |intents|
      ensures intents[m].request.offset + intents[m].request.quantity - intents[k].request.offset <= Hull(rs).end - Hull(rs).start
    {
      assert Hull(rs).start <= rs[k].start && rs[m].end <= Hull(rs).end;
    }
  }

  /**
   Which reads are merged: valid ones, not too many, that agree pairwise, name distinct views, share a register pairwise
   and together span no more than one read may ask for.
   */
  lemma {:induction false} CoalescesIff(intents: seq<Intent>, maxDependents: int)
    ensures Coalescible(intents, maxDependents) <==>
              && 0 < |intents| <= maxDependents <= MAX_DEPENDENTS
              && AllValid(intents) && AllAgree(intents) && AllMeet(intents) && Narrow(intents)
  {
    hide AllAgree, AllMeet, Narrow, ValidIntent, SameIdentity, Overlap, Hull, Ranges;
    if intents != [] && AllValid(intents) {
      AgreeIff(intents);
      OverlapIff(intents);
      NarrowIff(intents);
    }
  }

  /** Before the write, the physical read asks for exactly the registers some live view asks for. */
  lemma {:induction false} PhysicalIsUnion(intents: seq<Intent>, maxDependents: int, ops: seq<Op>, register: int)
    requires Coalescible(intents, maxDependents)
    ensures Inv(Built(intents)) && |Run(Built(intents), ops).dependents| == |intents|
    ensures var g := Run(Built(intents), ops);
            !g.writeBegun && !g.completed ==>
              && g.physical.quantity <= MAX_READ_REGISTERS
              && (Covers(g.physical, register) <==>
                    exists i :: 0 <= i < |intents| && Live(g.dependents[i]) && Covers(intents[i].request, register))
  {
    hide Hull, Run, Built;
    BuiltStems(intents, maxDependents, ops);
    var g := Run(Built(intents), ops);
    if !g.writeBegun && !g.completed {
      LiveOverlap(g.dependents);
      var rs := LiveRanges(g.dependents);
      HullIsUnion(rs, register);
      assert Covers(g.physical, register) <==> In(Hull(rs), register);
      assert g.physical.quantity <= MAX_READ_REGISTERS;
      hide Inv, LiveRanges;
      if Covers(g.physical, register) {
        var k :| 0 <= k < |rs| && In(rs[k], register);
        var i := LiveFrom(g.dependents, k);
        assert Stems(intents[i], g.dependents[i]);
      }
      if i :| 0 <= i < |intents| && Live(g.dependents[i]) && Covers(intents[i].request, register) {
        assert Stems(intents[i], g.dependents[i]);
        var k := LiveAt(g.dependents, i);
        assert In(rs[k], register);
      }
    }
  }
}
