/** A coalesced read as the source keeps it: one object whose request and dependents change in place. */
module CoalescedReads {
  import opened Common
  import opened Pdu
  import opened CoalescingModel
  import opened Coalescing

  class CoalescedRead {
    var physical: ReadRequest
    var dependents: seq<Dependent>
    var bound: bool
    var writeBegun: bool
    var completed: bool

    ghost function Value(): Group
      reads this
    {
      Group(physical, dependents, bound, writeBegun, completed)
    }

    ghost predicate Valid()
      reads this
    {
      Inv(Value())
    }

    constructor (read: ReadRequest, ds: seq<Dependent>)
      ensures Value() == Group(read, ds, false, false, false)
    {
      physical, dependents := read, ds;
      bound, writeBegun, completed := false, false, false;
    }

    method ActiveDependentCount() returns (count: nat)
      ensures count == LiveCount(dependents)
    {
      count := 0;
      for i := 0 to |dependents|
        invariant count == LiveCount(dependents[..i])
      {
        assert dependents[..i + 1][..i] == dependents[..i];
        if Live(dependents[i]) {
          count := count + 1;
        }
      }
      assert dependents[..|dependents|] == dependents;
    }

    method BindReservation() returns (ok: bool)
      requires Valid()
      modifies `bound
      ensures Valid() && Value() == Bind(old(Value()))
      ensures ok <==> Value() != old(Value())
    {
      BindKeeps(Value());
      if completed || writeBegun || bound {
        return false;
      }
      bound := true;
      return true;
    }

    method BeginWrite() returns (ok: bool)
      requires Valid()
      modifies this
      ensures Valid() && (Value(), ok) == CoalescingModel.BeginWrite(old(Value()))
    {
      hide Inv, LiveCount;
      ghost var g := Value();
      BeginWriteKeeps(g);
      var active := ActiveDependentCount();
      if writeBegun || completed || !bound || active == 0 {
        return false;
      }
      writeBegun := true;
      for i := 0 to |dependents|
        invariant |dependents| == |g.dependents|
        invariant forall k :: 0 <= k < |dependents| ==> dependents[k] == if k < i then Attach(g.dependents)[k] else g.dependents[k]
        invariant writeBegun && bound && !completed && physical == g.physical
      {
        if dependents[i].stage == Queued {
          dependents := dependents[i := dependents[i].(stage := Attached)];
        }
      }
      assert dependents == Attach(g.dependents);
      return true;
    }

    /** Fails every live dependent and says how many were released. */
    method FailTransport() returns (released: nat)
      requires Valid()
      modifies this
      ensures Valid() && (Value(), released) == Fail(old(Value()))
    {
      hide Inv, LiveCount;
      ghost var g := Value();
      FailKeeps(g);
      released := 0;
      if completed {
        return;
      }
      for i := 0 to |dependents|
        invariant |dependents| == |g.dependents|
        invariant forall k :: 0 <= k < |dependents| ==> dependents[k] == if k < i then Drop(g.dependents)[k] else g.dependents[k]
        invariant writeBegun == g.writeBegun && bound == g.bound && completed == g.completed && physical == g.physical
        invariant released == LiveCount(g.dependents[..i])
      {
        LiveStep(g.dependents, i);
        if Live(dependents[i]) {
          dependents := dependents[i := dependents[i].(stage := Failed)];
          released := released + 1;
        }
      }
      assert g.dependents[..|g.dependents|] == g.dependents;
      assert dependents == Drop(g.dependents);
      completed := true;
    }

    /** The read that remains without one view, whose range goes last. */
    method PhysicalWithoutLogical(view: Uint64) returns (read: Option<ReadRequest>)
      requires Valid() && IndexOfView(dependents, view) < |dependents| && Live(dependents[IndexOfView(dependents, view)])
      ensures var ds := Without(dependents, IndexOfView(dependents, view));
              read == if LiveCount(ds) == 0 then None else Some(Narrowed(physical, ds))
    {
      hide Inv, LiveCount, Spans, Narrowed, Without;
      ghost var at := IndexOfView(dependents, view);
      ghost var ds := Without(dependents, at);
      WithoutAt(dependents, at);
      var minOffset, maxEnd, haveActive := 0, 0, false;
      SpansNothing(ds, minOffset, maxEnd);
      for i := 0 to |dependents|
        invariant Spans(ds[..i], haveActive, minOffset, maxEnd)
      {
        SpansMore(ds, i, haveActive, minOffset, maxEnd);
        OneView(Value(), at, i);
        if Live(dependents[i]) && dependents[i].slice.view != view {
          var start := dependents[i].slice.logicalOffset;
          var end := start + dependents[i].slice.logicalWords;
          if !haveActive || start < minOffset {
            minOffset := start;
          }
          if !haveActive || end > maxEnd {
            maxEnd := end;
          }
          haveActive := true;
        }
      }
      assert ds[..|ds|] == ds;
      SpansAll(physical, ds, haveActive, minOffset, maxEnd);
      if !haveActive {
        return None;
      }
      return Some(physical.(offset := Wrapped(minOffset), quantity := Wrapped(maxEnd - minOffset)));
    }

    method ApplyPhysical(read: ReadRequest)
      modifies `physical, `dependents
      ensures physical == read && dependents == Rebase(old(dependents), read.offset)
    {
      ghost var before := dependents;
      physical := read;
      for i := 0 to |dependents|
        invariant |dependents| == |before| && physical == read
        invariant forall k :: 0 <= k < |dependents| ==> dependents[k] == if k < i then Rebase(before, read.offset)[k] else before[k]
      {
        if Live(dependents[i]) {
          var d := dependents[i];
          dependents := dependents[i := d.(slice := d.slice.(sliceOffset := Wrapped(d.slice.logicalOffset - read.offset)))];
        }
      }
      assert dependents == Rebase(before, read.offset);
    }

    /** `reply` is the owner's answer where this cancellation asks it for anything. */
    method Cancel(view: Uint64, reply: OwnerReply) returns (released: nat, ok: bool)
      requires Valid()
      modifies this
      ensures Valid() && (Value(), released, ok) == CoalescingModel.Cancel(old(Value()), view, reply)
    {
      hide Inv, LiveCount, Narrowed, Rebase;
      ghost var g := Value();
      CancelKeeps(g, view, reply);
      if completed {
        return 0, false;
      }
      var at := FindView(view);
      if at == |dependents| || !Live(dependents[at]) {
        return 0, false;
      }
      CountWithout(dependents, at);
      AttachedMeansWritten(g, at);
      var wasAttached := dependents[at].stage == Attached;
      var active := ActiveDependentCount();
      var replacement := None;
      if !writeBegun && active > 1 {
        replacement := PhysicalWithoutLogical(view);
        if bound && reply != Agreed {
          return 0, false;
        }
      }
      if !writeBegun && active == 1 && bound && reply != Agreed {
        return 0, false;
      }
      if wasAttached && active == 1 && reply == Refused {
        return 0, false;
      }
      dependents := dependents[at := dependents[at].(stage := Cancelled)];
      if replacement.Some? {
        ApplyPhysical(replacement.value);
      }
      if active == 1 {
        completed := true;
      }
      return 1, true;
    }

    method FindView(view: Uint64) returns (at: nat)
      ensures at == IndexOfView(dependents, view)
    {
      at := 0;
      while at < |dependents| && dependents[at].slice.view != view
        invariant at <= |dependents|
        invariant IndexOfView(dependents, view) == at + IndexOfView(dependents[at..], view)
      {
        at := at + 1;
      }
    }

    /** Cuts a reply into one view for each live dependent. Neither error branch of the loop can be taken. */
    method ReplaySuccessfulResponse(r: Response) returns (views: seq<View>, ok: bool)
      requires Valid()
      modifies this
      ensures Valid() && Value() == Replay(old(Value()), r).0 && views == Replay(old(Value()), r).1
      ensures ok == Accepts(old(Value()), r)
    {
      hide Inv, LiveCount;
      ghost var g := Value();
      ReplayKeeps(g, r);
      views := [];
      if completed || !writeBegun || !r.genuine || r.read != physical || |r.words| != physical.quantity {
        return views, false;
      }
      SlicesFit(g, r.words);
      ok := true;
      for i := 0 to |dependents|
        invariant ok && |dependents| == |g.dependents|
        invariant forall k :: 0 <= k < |dependents| ==> dependents[k] == if k < i then Deliver(g.dependents)[k] else g.dependents[k]
        invariant writeBegun == g.writeBegun && bound == g.bound && completed == g.completed && physical == g.physical
        invariant views == Cut(g.dependents[..i], r.words)
      {
        OnlyAttached(g, i);
        CutStep(g.dependents, i, r.words);
        var d := dependents[i];
        if d.stage != Cancelled {
          var start, end := d.slice.sliceOffset, d.slice.sliceOffset + d.slice.sliceWords;
          if d.stage != Attached || end > |r.words| {
            ok := false;
          } else {
            views := views + [View(d.slice.view, d.slice.logicalOffset, r.words[start..end])];
            dependents := dependents[i := d.(stage := Delivered)];
          }
        }
      }
      assert g.dependents[..|g.dependents|] == g.dependents;
      assert dependents == Deliver(g.dependents);
      completed := true;
    }
  }

  /** Merges the intents into one group, exactly when they may share a read. */
  method CoalesceReads(intents: seq<Intent>, maxDependents: int) returns (group: CoalescedRead?)
    ensures group != null <==> Coalescible(intents, maxDependents)
    ensures group != null ==> fresh(group) && group.Valid() && group.Value() == Built(intents)
  {
    hide Hull, Inv, Alike, Extremes, Coalescible, ValidIntent, SameIdentity;
    CoalescibleNeeds(intents, maxDependents);
    if maxDependents <= 0 || maxDependents > MAX_DEPENDENTS || |intents| == 0 || |intents| > maxDependents {
      return null;
    }
    var base := intents[0];
    if !ValidIntent(base) {
      return null;
    }
    var minOffset, maxEnd := base.request.offset, base.request.offset + base.request.quantity;
    var maxStart, minEnd := minOffset, maxEnd;
    var seen := {};
    ExtremesStart(intents);
    for i := 0 to |intents|
      invariant seen == set k | 0 <= k < i :: intents[k].view
      invariant Alike(intents, i) && Extremes(intents, i, minOffset, maxEnd, maxStart, minEnd)
    {
      var intent := intents[i];
      AlikeStep(intents, i, seen);
      if !ValidIntent(intent) || intent.view in seen || !SameIdentity(base, intent) {
        return null;
      }
      seen := seen + {intent.view};
      var start, end := intent.request.offset, intent.request.offset + intent.request.quantity;
      ExtremesStep(intents, i, minOffset, maxEnd, maxStart, minEnd);
      if start < minOffset {
        minOffset := start;
      }
      if end > maxEnd {
        maxEnd := end;
      }
      if start > maxStart {
        maxStart := start;
      }
      if end < minEnd {
        minEnd := end;
      }
    }
    ExtremesDecide(intents, maxDependents, minOffset, maxEnd, maxStart, minEnd);
    var union := maxEnd - minOffset;
    if (|intents| > 1 && maxStart >= minEnd) || union == 0 || union > MAX_READ_REGISTERS {
      return null;
    }
    BuiltInv(intents, maxDependents);
    HullFits(intents, maxDependents);
    var ds := seq(|intents|, i requires 0 <= i < |intents| => Joined(intents[i], minOffset));
    group := new CoalescedRead(base.request.(offset := minOffset, quantity := union), ds);
  }

  /** The first `n` intents are valid, of one identity, and name distinct views. */
  ghost predicate Alike(intents: seq<Intent>, n: nat)
    requires 0 < |intents| && n <= |intents|
  {
    && (forall k :: 0 <= k < n ==> ValidIntent(intents[k]) && SameIdentity(intents[0], intents[k]))
    && (forall k, m :: 0 <= k < m < n ==> intents[k].view != intents[m].view)
  }

  lemma {:induction false} CoalescibleNeeds(intents: seq<Intent>, maxDependents: int)
    ensures Coalescible(intents, maxDependents) ==>
              && 0 < maxDependents <= MAX_DEPENDENTS && 0 < |intents| <= maxDependents
              && ValidIntent(intents[0]) && Alike(intents, |intents|)
  {
    hide Hull, Overlap;
  }

  lemma {:induction false} ExtremesStart(intents: seq<Intent>)
    requires 0 < |intents|
    ensures Alike(intents, 0)
    ensures var r := RangeOfRead(intents[0].request); Extremes(intents, 0, r.start, r.end, r.start, r.end)
  {
    assert Ranges(intents)[0] == RangeOfRead(intents[0].request);
  }

  lemma {:induction false} AlikeStep(intents: seq<Intent>, n: nat, seen: set<Uint64>)
    requires n < |intents| && Alike(intents, n) && seen == set k | 0 <= k < n :: intents[k].view
    ensures Alike(intents, n + 1) <==> ValidIntent(intents[n]) && intents[n].view !in seen && SameIdentity(intents[0], intents[n])
    ensures !Alike(intents, n + 1) ==> !Alike(intents, |intents|)
    ensures seen + {intents[n].view} == set k | 0 <= k < n + 1 :: intents[k].view
  {
    if intents[n].view in seen {
      var k :| 0 <= k < n && intents[k].view == intents[n].view;
      assert !Alike(intents, n + 1);
    }
  }

  /** The running bounds of the first `n` intents; before any, those of the first one. */
  ghost predicate Extremes(intents: seq<Intent>, n: nat, lo: int, hi: int, maxStart: int, minEnd: int)
    requires 0 < |intents| && n <= |intents|
  {
    var rs := Ranges(intents);
    && Range(lo, hi) == (if n == 0 then rs[0] else Hull(rs[..n]))
    && (exists k :: 0 <= k < |rs| && k <= n && rs[k].start == maxStart)
    && (exists k :: 0 <= k < |rs| && k <= n && rs[k].end == minEnd)
    && (forall k :: 0 <= k < n ==> rs[k].start <= maxStart && minEnd <= rs[k].end)
  }

  lemma {:induction false} ExtremesStep(intents: seq<Intent>, n: nat, lo: int, hi: int, maxStart: int, minEnd: int)
    requires n < |intents| && Extremes(intents, n, lo, hi, maxStart, minEnd)
    ensures var r := RangeOfRead(intents[n].request);
            Extremes(intents, n + 1, if r.start < lo then r.start else lo, if r.end > hi then r.end else hi,
                     if r.start > maxStart then r.start else maxStart, if r.end < minEnd then r.end else minEnd)
  {
    HullStep(Ranges(intents), n);
    assert Ranges(intents)[n] == RangeOfRead(intents[n].request);
  }

  lemma {:induction false} ExtremesDecide(intents: seq<Intent>, maxDependents: int, lo: int, hi: int, maxStart: int, minEnd: int)
    requires 0 < maxDependents <= MAX_DEPENDENTS && 0 < |intents| <= maxDependents && Alike(intents, |intents|)
    requires Extremes(intents, |intents|, lo, hi, maxStart, minEnd)
    ensures Range(lo, hi) == Hull(Ranges(intents)) && lo < hi
    ensures Coalescible(intents, maxDependents) <==> !((|intents| > 1 && maxStart >= minEnd) || hi - lo > MAX_READ_REGISTERS)
  {
    assert Ranges(intents)[..|intents|] == Ranges(intents);
    OverlapTest(intents, maxStart, minEnd);
    HullNotEmpty(intents);
  }

  /** The running bounds of the live ranges. */
  ghost predicate Spans(ds: seq<Dependent>, some: bool, lo: int, hi: int) {
    some == (LiveCount(ds) > 0) && (some ==> Range(lo, hi) == Hull(LiveRanges(ds)))
  }

  lemma {:induction false} SpansNothing(ds: seq<Dependent>, lo: int, hi: int)
    ensures Spans(ds[..0], false, lo, hi)
  {
  }

  lemma {:induction false} SpansMore(ds: seq<Dependent>, i: nat, some: bool, lo: int, hi: int)
    requires i < |ds| && Spans(ds[..i], some, lo, hi)
    ensures !Live(ds[i]) ==> Spans(ds[..i + 1], some, lo, hi)
    ensures Live(ds[i]) ==>
              var r := RangeOf(ds[i]);
              Spans(ds[..i + 1], true, if !some || r.start < lo then r.start else lo, if !some || r.end > hi then r.end else hi)
  {
    hide Hull, LiveCount;
    LiveStep(ds, i);
  }

  lemma {:induction false} SpansAll(physical: ReadRequest, ds: seq<Dependent>, some: bool, lo: int, hi: int)
    requires Spans(ds, some, lo, hi)
    ensures some <==> LiveCount(ds) > 0
    ensures some ==> Narrowed(physical, ds) == physical.(offset := Wrapped(lo), quantity := Wrapped(hi - lo))
  {
  }

  lemma {:induction false} WithoutAt(ds: seq<Dependent>, at: nat)
    requires at < |ds|
    ensures |Without(ds, at)| == |ds| && !Live(Without(ds, at)[at])
    ensures forall i :: 0 <= i < |ds| && i != at ==> Without(ds, at)[i] == ds[i]
  {
  }

  lemma {:induction false} HullStep(rs: seq<Range>, i: nat)
    requires i < |rs|
    ensures i == 0 ==> Hull(rs[..i + 1]) == rs[0]
    ensures i > 0 ==>
              var h, r := Hull(rs[..i]), rs[i];
              Hull(rs[..i + 1]) == Range(if r.start < h.start then r.start else h.start, if r.end > h.end then r.end else h.end)
  {
    assert rs[..i + 1][..i] == rs[..i];
  }

  lemma {:induction false} OverlapTest(intents: seq<Intent>, maxStart: int, minEnd: int)
    requires intents != [] && ValidIntent(intents[0])
    requires exists k :: 0 <= k < |intents| && Ranges(intents)[k].start == maxStart
    requires exists k :: 0 <= k < |intents| && Ranges(intents)[k].end == minEnd
    requires forall k :: 0 <= k < |intents| ==> Ranges(intents)[k].start <= maxStart && minEnd <= Ranges(intents)[k].end
    ensures Overlap(Ranges(intents)) <==> !(|intents| > 1 && maxStart >= minEnd)
  {
    var rs := Ranges(intents);
    var a :| 0 <= a < |intents| && rs[a].start == maxStart;
    var b :| 0 <= b < |intents| && rs[b].end == minEnd;
    assert Overlap(rs) ==> rs[a].start < rs[b].end;
  }

  lemma {:induction false} HullNotEmpty(intents: seq<Intent>)
    requires intents != [] && ValidIntent(intents[0])
    ensures Hull(Ranges(intents)).start < Hull(Ranges(intents)).end
  {
    var i, j := HullReached(Ranges(intents));
    assert Hull(Ranges(intents)).start <= Ranges(intents)[0].start;
  }

  lemma {:induction false} LiveStep(ds: seq<Dependent>, i: nat)
    requires i < |ds|
    ensures LiveCount(ds[..i + 1]) == LiveCount(ds[..i]) + (if Live(ds[i]) then 1 else 0)
    ensures Live(ds[i]) ==> LiveRanges(ds[..i + 1]) == LiveRanges(ds[..i]) + [RangeOf(ds[i])]
    ensures !Live(ds[i]) ==> LiveRanges(ds[..i + 1]) == LiveRanges(ds[..i])
    ensures Live(ds[i]) ==>
              var h, r := Hull(LiveRanges(ds[..i + 1])), RangeOf(ds[i]);
              if LiveCount(ds[..i]) == 0 then h == r
              else
                var g := Hull(LiveRanges(ds[..i]));
                h == Range(if r.start < g.start then r.start else g.start, if r.end > g.end then r.end else g.end)
  {
    assert ds[..i + 1][..i] == ds[..i];
    if Live(ds[i]) {
      var rs := LiveRanges(ds[..i + 1]);
      assert rs[..|rs| - 1] == LiveRanges(ds[..i]);
    }
  }

  /** No two dependents carry the same view. */
  lemma {:induction false} OneView(g: Group, at: nat, i: nat)
    requires Inv(g) && at < |g.dependents| && i < |g.dependents|
    ensures g.dependents[i].slice.view == g.dependents[at].slice.view <==> i == at
  {
  }

  lemma {:induction false} AttachedMeansWritten(g: Group, i: nat)
    requires Inv(g) && i < |g.dependents| && Live(g.dependents[i])
    ensures g.dependents[i].stage == Attached <==> g.writeBegun
  {
    assert StageOk(g, g.dependents[i]);
  }

  lemma {:induction false} OnlyAttached(g: Group, i: nat)
    requires Inv(g) && i < |g.dependents| && g.writeBegun && !g.completed
    ensures g.dependents[i].stage == Attached || g.dependents[i].stage == Cancelled
  {
    assert StageOk(g, g.dependents[i]);
  }

  lemma {:induction false} CutStep(ds: seq<Dependent>, i: nat, words: seq<Uint16>)
    requires i < |ds|
    requires forall k :: 0 <= k < |ds| && Live(ds[k]) ==> Sliceable(ds[k], |words|)
    ensures Live(ds[i]) ==> Sliceable(ds[i], |words|)
    ensures Live(ds[i]) ==>
              var s := ds[i].slice;
              Cut(ds[..i + 1], words) == Cut(ds[..i], words) + [View(s.view, s.logicalOffset, words[s.sliceOffset..s.sliceOffset + s.sliceWords])]
    ensures !Live(ds[i]) ==> Cut(ds[..i + 1], words) == Cut(ds[..i], words)
  {
    assert ds[..i + 1][..i] == ds[..i];
  }
}
