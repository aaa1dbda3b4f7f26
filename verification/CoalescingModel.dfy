/** Read coalescing as a value: overlapping reads become one physical read, narrowed and sliced again. */
module CoalescingModel {
  import opened Common
  import opened Pdu

  const MAX_DEPENDENTS := 4096

  datatype Transport = Tcp | Rtu

  datatype Intent = Intent(
    view: Uint64, endpoint: string, transport: Transport, generation: Uint64, unit: Byte, scope: string,
    poll: Uint64, deadline: Uint64, request: ReadRequest)

  predicate ValidIntent(i: Intent) {
    && i.view != 0 && i.endpoint != "" && i.generation != 0 && i.unit <= 247
    && (i.unit == 0 ==> i.transport == Tcp)
    && i.scope != "" && i.poll != 0 && i.deadline != 0
    && ValidRead(i.request)
  }

  predicate SameIdentity(a: Intent, b: Intent) {
    && a.endpoint == b.endpoint && a.transport == b.transport && a.generation == b.generation && a.unit == b.unit
    && a.request.function_ == b.request.function_ && a.request.table == b.request.table
    && a.scope == b.scope && a.poll == b.poll && a.deadline == b.deadline
  }

  datatype Stage = Queued | Attached | Cancelled | Delivered | Failed

  datatype Slice = Slice(view: Uint64, logicalOffset: Uint16, logicalWords: Uint16, sliceOffset: Uint16, sliceWords: Uint16)

  datatype Dependent = Dependent(slice: Slice, stage: Stage)

  datatype Group = Group(physical: ReadRequest, dependents: seq<Dependent>, bound: bool, writeBegun: bool, completed: bool)

  datatype View = View(view: Uint64, offset: Uint16, words: seq<Uint16>)

  // ---------- Ranges ----------

  datatype Range = Range(start: int, end: int)

  predicate In(r: Range, x: int) {
    r.start <= x < r.end
  }

  /** The smallest range around all of them. */
  function Hull(rs: seq<Range>): Range
    requires rs != []
  {
    if |rs| == 1 then rs[0]
    else
      var h := Hull(rs[..|rs| - 1]);
      var r := rs[|rs| - 1];
      Range(if r.start < h.start then r.start else h.start, if r.end > h.end then r.end else h.end)
  }

  predicate Overlap(rs: seq<Range>) {
    forall i, j :: 0 <= i < |rs| && 0 <= j < |rs| ==> rs[i].start < rs[j].end
  }

  lemma {:induction false} HullReached(rs: seq<Range>) returns (i: nat, j: nat)
    requires rs != []
    ensures i < |rs| && j < |rs| && rs[i].start == Hull(rs).start && rs[j].end == Hull(rs).end
    ensures forall k :: 0 <= k < |rs| ==> Hull(rs).start <= rs[k].start && rs[k].end <= Hull(rs).end
  {
    if |rs| == 1 {
      i, j := 0, 0;
    } else {
      var n := |rs| - 1;
      i, j := HullReached(rs[..n]);
      if rs[n].start < Hull(rs[..n]).start {
        i := n;
      }
      if rs[n].end > Hull(rs[..n]).end {
        j := n;
      }
    }
  }

  /** Ranges that pairwise overlap leave no hole: their hull is exactly their union. */
  lemma {:induction false} HullIsUnion(rs: seq<Range>, x: int)
    requires rs != [] && Overlap(rs)
    ensures In(Hull(rs), x) <==> exists i :: 0 <= i < |rs| && In(rs[i], x)
  {
    var i, j := HullReached(rs);
    if In(Hull(rs), x) {
      assert rs[i].start < rs[j].end && rs[j].start < rs[i].end;
      assert In(rs[i], x) || In(rs[j], x);
    }
  }

  // ---------- Dependents ----------

  predicate Live(d: Dependent) {
    d.stage == Queued || d.stage == Attached
  }

  function LiveCount(ds: seq<Dependent>): (n: nat)
    ensures n <= |ds|
  {
    if ds == [] then 0
    else LiveCount(ds[..|ds| - 1]) + (if Live(ds[|ds| - 1]) then 1 else 0)
  }

  function RangeOf(d: Dependent): Range {
    Range(d.slice.logicalOffset, d.slice.logicalOffset + d.slice.logicalWords)
  }

  function LiveRanges(ds: seq<Dependent>): (rs: seq<Range>)
    ensures |rs| == LiveCount(ds)
  {
    if ds == [] then []
    else
      var rest := LiveRanges(ds[..|ds| - 1]);
      if Live(ds[|ds| - 1]) then rest + [RangeOf(ds[|ds| - 1])] else rest
  }

  function Ranges(intents: seq<Intent>): seq<Range> {
    seq(|intents|, i requires 0 <= i < |intents| =>
      Range(intents[i].request.offset, intents[i].request.offset + intents[i].request.quantity))
  }

  function Wrapped(x: int): Uint16 {
    x % 0x1_0000
  }

  function Joined(i: Intent, base: int): Dependent {
    Dependent(Slice(i.view, i.request.offset, i.request.quantity, Wrapped(i.request.offset - base), i.request.quantity), Queued)
  }

  // ---------- Building a group ----------

  /** Which intents may share one physical read. */
  ghost predicate Coalescible(intents: seq<Intent>, maxDependents: int) {
    && 0 < maxDependents <= MAX_DEPENDENTS && 0 < |intents| <= maxDependents
    && (forall i :: 0 <= i < |intents| ==> ValidIntent(intents[i]) && SameIdentity(intents[0], intents[i]))
    && (forall i, j :: 0 <= i < j < |intents| ==> intents[i].view != intents[j].view)
    && Overlap(Ranges(intents))
    && Hull(Ranges(intents)).end - Hull(Ranges(intents)).start <= MAX_READ_REGISTERS
  }

  ghost function Built(intents: seq<Intent>): Group
    requires intents != []
  {
    var h := Hull(Ranges(intents));
    Group(ReadRequest(intents[0].request.function_, intents[0].request.table, Wrapped(h.start), Wrapped(h.end - h.start)),
          seq(|intents|, i requires 0 <= i < |intents| => Joined(intents[i], h.start)), false, false, false)
  }

  // ---------- Steps ----------

  /** How the transaction owner answers: it agrees, it refuses, or it fails and closes the connection. */
  datatype OwnerReply = Agreed | Refused | Closing

  function IndexOfView(ds: seq<Dependent>, view: Uint64): (i: nat)
    ensures i <= |ds| && (i < |ds| ==> ds[i].slice.view == view)
    ensures forall j :: 0 <= j < i ==> ds[j].slice.view != view
  {
    if ds == [] || ds[0].slice.view == view then 0 else 1 + IndexOfView(ds[1..], view)
  }

  function Rebased(d: Dependent, base: Uint16): Dependent {
    if Live(d) then d.(slice := d.slice.(sliceOffset := Wrapped(d.slice.logicalOffset - base))) else d
  }

  function Rebase(ds: seq<Dependent>, base: Uint16): (r: seq<Dependent>)
    ensures |r| == |ds|
  {
    seq(|ds|, i requires 0 <= i < |ds| => Rebased(ds[i], base))
  }

  function Without(ds: seq<Dependent>, i: nat): seq<Dependent>
    requires i < |ds|
  {
    ds[i := ds[i].(stage := Cancelled)]
  }

  function Narrowed(physical: ReadRequest, ds: seq<Dependent>): ReadRequest
    requires LiveCount(ds) > 0
  {
    var h := Hull(LiveRanges(ds));
    physical.(offset := Wrapped(h.start), quantity := Wrapped(h.end - h.start))
  }

  /** Cancels one logical view; the result says how many dependents were released and whether it was accepted. */
  function Cancel(g: Group, view: Uint64, reply: OwnerReply): (Group, nat, bool) {
    var i := IndexOfView(g.dependents, view);
    if g.completed || i == |g.dependents| || !Live(g.dependents[i]) then (g, 0, false)
    else
      var ds := Without(g.dependents, i);
      var last := LiveCount(ds) == 0;
      var wasAttached := g.dependents[i].stage == Attached;
      var asked := (g.bound && !g.writeBegun) || (wasAttached && last);
      var closes := wasAttached && last && reply == Closing;
      if asked && reply != Agreed && !closes then (g, 0, false)
      else if !g.writeBegun && !last
      then
        var physical := Narrowed(g.physical, ds);
        (g.(physical := physical, dependents := Rebase(ds, physical.offset)), 1, true)
      else (g.(dependents := ds, completed := last), 1, true)
  }

  function Bind(g: Group): Group {
    if g.completed || g.writeBegun || g.bound then g else g.(bound := true)
  }

  function Attach(ds: seq<Dependent>): (r: seq<Dependent>)
    ensures |r| == |ds|
  {
    seq(|ds|, i requires 0 <= i < |ds| => if ds[i].stage == Queued then ds[i].(stage := Attached) else ds[i])
  }

  function BeginWrite(g: Group): (Group, bool) {
    if g.writeBegun || g.completed || !g.bound || LiveCount(g.dependents) == 0 then (g, false)
    else (g.(dependents := Attach(g.dependents), writeBegun := true), true)
  }

  /** Fails every live dependent. */
  function Drop(ds: seq<Dependent>): (r: seq<Dependent>)
    ensures |r| == |ds|
  {
    seq(|ds|, i requires 0 <= i < |ds| => if Live(ds[i]) then ds[i].(stage := Failed) else ds[i])
  }

  function Fail(g: Group): (Group, nat) {
    if g.completed then (g, 0) else (g.(dependents := Drop(g.dependents), completed := true), LiveCount(g.dependents))
  }

  /** A reply as the group sees it: whether it answers this very reservation with data, what it read, and the words. */
  datatype Response = Response(genuine: bool, read: ReadRequest, words: seq<Uint16>)

  function Deliver(ds: seq<Dependent>): (r: seq<Dependent>)
    ensures |r| == |ds|
  {
    seq(|ds|, i requires 0 <= i < |ds| => if Live(ds[i]) then ds[i].(stage := Delivered) else ds[i])
  }

  predicate Sliceable(d: Dependent, n: nat) {
    d.slice.sliceOffset + d.slice.sliceWords <= n
  }

  /** The views cut out of the reply, one for each live dependent. */
  function Cut(ds: seq<Dependent>, words: seq<Uint16>): seq<View>
    requires forall i :: 0 <= i < |ds| && Live(ds[i]) ==> Sliceable(ds[i], |words|)
  {
    if ds == [] then []
    else
      var d := ds[|ds| - 1];
      assert Live(d) ==> Sliceable(ds[|ds| - 1], |words|);
      Cut(ds[..|ds| - 1], words)
      + if Live(d) then [View(d.slice.view, d.slice.logicalOffset, words[d.slice.sliceOffset..d.slice.sliceOffset + d.slice.sliceWords])]
      else []
  }

  predicate Accepts(g: Group, r: Response) {
    !g.completed && g.writeBegun && r.genuine && r.read == g.physical && |r.words| == g.physical.quantity
  }

  // ---------- Invariant ----------

  ghost predicate Fits(d: Dependent, physical: ReadRequest) {
    && d.slice.logicalWords == d.slice.sliceWords
    && (Live(d) ==>
          && physical.offset <= d.slice.logicalOffset
          && d.slice.logicalOffset + d.slice.logicalWords <= physical.offset + physical.quantity
          && d.slice.sliceOffset == d.slice.logicalOffset - physical.offset)
  }

  ghost predicate Sound(d: Dependent) {
    d.slice.logicalWords > 0 && d.slice.logicalOffset + d.slice.logicalWords <= 0x1_0000
  }

  ghost predicate Shared(ds: seq<Dependent>) {
    && (forall i :: 0 <= i < |ds| ==> Sound(ds[i]))
    && (forall i, j :: 0 <= i < |ds| && 0 <= j < |ds| ==> RangeOf(ds[i]).start < RangeOf(ds[j]).end)
    && (forall i, j :: 0 <= i < j < |ds| ==> ds[i].slice.view != ds[j].slice.view)
  }

  ghost predicate StageOk(g: Group, d: Dependent) {
    && (Live(d) ==> !g.completed && (d.stage == Attached <==> g.writeBegun))
    && (d.stage == Delivered || d.stage == Failed ==> g.completed)
  }

  ghost predicate Inv(g: Group) {
    && ValidRead(g.physical) && Shared(g.dependents)
    && (forall i :: 0 <= i < |g.dependents| ==> Fits(g.dependents[i], g.physical) && StageOk(g, g.dependents[i]))
    && (!g.completed ==> LiveCount(g.dependents) > 0)
    && (g.writeBegun ==> g.bound)
    && (!g.completed && !g.writeBegun ==> RangeOfRead(g.physical) == Hull(LiveRanges(g.dependents)))
  }

  function RangeOfRead(r: ReadRequest): Range {
    Range(r.offset, r.offset + r.quantity)
  }
}
