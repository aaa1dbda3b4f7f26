/** The story of one coalesced read, told by calls and answers, and what it decides. */
module CoalescingStories {
  import opened Common
  import opened Pdu
  import opened CoalescingModel
  import opened Coalescing

  /** Whether a reservation is bound, what was asked of the device once the write began, and which views are still served. */
  datatype Story = Story(bound: bool, asked: Option<ReadRequest>, alive: set<Uint64>)

  ghost function Views(intents: seq<Intent>): set<Uint64> {
    set i | 0 <= i < |intents| :: intents[i].view
  }

  /** What one call and its answer make of the story. */
  ghost function Tell(g: Group, op: Op, t: Story): Story
    requires Inv(g)
  {
    match op
    case DoBind => if Bind(g) != g then t.(bound := true) else t
    case DoWrite => if BeginWrite(g).1 then t.(asked := Some(g.physical)) else t
    case DoCancel(view, reply) => if Cancel(g, view, reply).2 then t.(alive := t.alive - {view}) else t
    case DoReplay(r) => if Accepts(g, r) then t.(alive := {}) else t
    case DoFail => t.(alive := {})
  }

  ghost function StoryIn(g: Group, ops: seq<Op>, t: Story): Story
    requires Inv(g)
    decreases |ops|
  {
    if ops == [] then t
    else
      StepKeeps(g, ops[0]);
      StoryIn(Step(g, ops[0]).0, ops[1..], Tell(g, ops[0], t))
  }

  ghost function LiveViews(ds: seq<Dependent>): set<Uint64> {
    set i | 0 <= i < |ds| && Live(ds[i]) :: ds[i].slice.view
  }

  ghost predicate Fits(g: Group, t: Story) {
    && g.bound == t.bound && g.writeBegun == t.asked.Some? && (t.asked.Some? ==> g.physical == t.asked.value)
    && t.alive == LiveViews(g.dependents) && (g.completed <==> t.alive == {})
  }

  lemma {:induction false} LiveSize(ds: seq<Dependent>)
    requires forall i, j :: 0 <= i < j < |ds| ==> ds[i].slice.view != ds[j].slice.view
    ensures |LiveViews(ds)| == LiveCount(ds)
    decreases |ds|
  {
    if ds != [] {
      var n := |ds| - 1;
      var before, last := ds[..n], ds[n];
      LiveSize(before);
      assert ds == before + [last];
      if Live(last) {
        assert LiveViews(ds) == LiveViews(before) + {last.slice.view} by {
          LiveMore(before, last);
        }
        assert last.slice.view !in LiveViews(before);
      } else {
        LiveMore(before, last);
      }
    }
  }

  lemma {:induction false} LiveMore(ds: seq<Dependent>, d: Dependent)
    ensures LiveViews(ds + [d]) == if Live(d) then LiveViews(ds) + {d.slice.view} else LiveViews(ds)
  {
    var all := ds + [d];
    forall v
      ensures v in LiveViews(all) <==> v in LiveViews(ds) || (Live(d) && v == d.slice.view)
    {
      if v in LiveViews(ds) {
        var i :| 0 <= i < |ds| && Live(ds[i]) && ds[i].slice.view == v;
        assert all[i] == ds[i];
      }
      assert all[|ds|] == d;
    }
  }

  /** The live views of a group count its live dependents, and tell whether it is completed. */
  lemma {:induction false} LiveIs(g: Group)
    requires Inv(g)
    ensures |LiveViews(g.dependents)| == LiveCount(g.dependents) && (g.completed <==> LiveViews(g.dependents) == {})
  {
    LiveSize(g.dependents);
    if g.completed {
      NoneAlive(g.dependents);
    }
  }

  lemma {:induction false} NoneAlive(ds: seq<Dependent>)
    requires forall i :: 0 <= i < |ds| ==> !Live(ds[i])
    ensures LiveViews(ds) == {}
  {
  }

  lemma {:induction false} WithoutViews(ds: seq<Dependent>, i: nat)
    requires i < |ds| && Live(ds[i]) && forall j, k :: 0 <= j < k < |ds| ==> ds[j].slice.view != ds[k].slice.view
    ensures LiveViews(Without(ds, i)) == LiveViews(ds) - {ds[i].slice.view}
  {
    var es := Without(ds, i);
    forall v
      ensures v in LiveViews(es) <==> v in LiveViews(ds) && v != ds[i].slice.view
    {
      if v in LiveViews(ds) && v != ds[i].slice.view {
        var j :| 0 <= j < |ds| && Live(ds[j]) && ds[j].slice.view == v;
        assert es[j] == ds[j];
      }
      if v in LiveViews(es) {
        var j :| 0 <= j < |es| && Live(es[j]) && es[j].slice.view == v;
        assert j != i && ds[j] == es[j];
      }
    }
  }

  /** Views and liveness are the same in both. */
  ghost predicate SameLife(ds: seq<Dependent>, es: seq<Dependent>) {
    |es| == |ds| && forall i :: 0 <= i < |ds| ==> es[i].slice.view == ds[i].slice.view && (Live(es[i]) <==> Live(ds[i]))
  }

  lemma {:induction false} SameViews(ds: seq<Dependent>, es: seq<Dependent>)
    requires SameLife(ds, es)
    ensures LiveViews(es) == LiveViews(ds)
  {
    forall v
      ensures v in LiveViews(es) <==> v in LiveViews(ds)
    {
      if v in LiveViews(ds) {
        var i :| 0 <= i < |ds| && Live(ds[i]) && ds[i].slice.view == v;
        assert Live(es[i]) && es[i].slice.view == v;
      }
      if v in LiveViews(es) {
        var i :| 0 <= i < |es| && Live(es[i]) && es[i].slice.view == v;
        assert Live(ds[i]) && ds[i].slice.view == v;
      }
    }
  }

  lemma {:induction false} RebaseLife(ds: seq<Dependent>, base: Uint16)
    ensures LiveViews(Rebase(ds, base)) == LiveViews(ds)
  {
    hide LiveViews;
    SameViews(ds, Rebase(ds, base));
  }

  lemma {:induction false} DistinctViews(g: Group)
    requires Inv(g)
    ensures forall j, k :: 0 <= j < k < |g.dependents| ==> g.dependents[j].slice.view != g.dependents[k].slice.view
  {
    hide Fits, StageOk, Hull, LiveCount, LiveRanges;
  }

  lemma {:induction false} CancelFits(g: Group, view: Uint64, reply: OwnerReply, t: Story)
    requires Inv(g) && Fits(g, t)
    ensures Fits(Cancel(g, view, reply).0, Tell(g, DoCancel(view, reply), t))
  {
    hide Inv, LiveViews, LiveCount, Narrowed, Rebase, Without;
    CancelKeeps(g, view, reply);
    LiveIs(Cancel(g, view, reply).0);
    if Cancel(g, view, reply).2 {
      var i := IndexOfView(g.dependents, view);
      DistinctViews(g);
      WithoutViews(g.dependents, i);
      var ds := Without(g.dependents, i);
      if !g.writeBegun && LiveCount(ds) > 0 {
        RebaseLife(ds, Narrowed(g.physical, ds).offset);
      }
    }
  }

  lemma {:induction false} WriteFits(g: Group, t: Story)
    requires Inv(g) && Fits(g, t)
    ensures Fits(Step(g, DoWrite).0, Tell(g, DoWrite, t))
  {
    hide Inv, LiveViews, LiveCount;
    SameViews(g.dependents, Attach(g.dependents));
  }

  lemma {:induction false} ReplayFits(g: Group, r: Response, t: Story)
    requires Inv(g) && Fits(g, t)
    ensures Fits(Step(g, DoReplay(r)).0, Tell(g, DoReplay(r), t))
  {
    hide Inv, LiveViews, LiveCount, Cut;
    NoneAlive(Deliver(g.dependents));
  }

  lemma {:induction false} FailFits(g: Group, t: Story)
    requires Inv(g) && Fits(g, t)
    ensures Fits(Step(g, DoFail).0, Tell(g, DoFail, t))
  {
    hide Inv, LiveViews, LiveCount;
    StepKeeps(g, DoFail);
    LiveIs(Step(g, DoFail).0);
    NoneAlive(Drop(g.dependents));
  }

  lemma {:induction false} StepFits(g: Group, op: Op, t: Story)
    requires Inv(g) && Fits(g, t)
    ensures Fits(Step(g, op).0, Tell(g, op, t))
  {
    hide Inv, LiveViews, LiveCount, Cut;
    match op
    case DoCancel(view, reply) => CancelFits(g, view, reply, t);
    case DoWrite => WriteFits(g, t);
    case DoReplay(r) => ReplayFits(g, r, t);
    case DoFail => FailFits(g, t);
    case DoBind =>
  }

  lemma {:induction false} RunFits(g: Group, ops: seq<Op>, t: Story)
    requires Inv(g) && Fits(g, t)
    ensures Fits(Run(g, ops), StoryIn(g, ops, t))
    decreases |ops|
  {
    hide Inv, Fits, Step, Tell;
    if ops != [] {
      StepKeeps(g, ops[0]);
      StepFits(g, ops[0], t);
      RunFits(Step(g, ops[0]).0, ops[1..], Tell(g, ops[0], t));
    }
  }

  /** The story of the group made of these intents. */
  ghost function StoryOf(intents: seq<Intent>, maxDependents: int, ops: seq<Op>): Story
    requires Coalescible(intents, maxDependents)
  {
    BuiltInv(intents, maxDependents);
    StoryIn(Built(intents), ops, Story(false, None, Views(intents)))
  }

  lemma {:induction false} StoryFits(intents: seq<Intent>, maxDependents: int, ops: seq<Op>)
    requires Coalescible(intents, maxDependents)
    ensures Inv(Built(intents)) && Inv(Run(Built(intents), ops)) && Fits(Run(Built(intents), ops), StoryOf(intents, maxDependents, ops))
  {
    BuiltInv(intents, maxDependents);
    BuiltViews(intents, maxDependents);
    hide Inv, Run, StoryIn, Coalescible, Built;
    RunKeeps(Built(intents), ops);
    RunFits(Built(intents), ops, Story(false, None, Views(intents)));
  }

  lemma {:induction false} BuiltViews(intents: seq<Intent>, maxDependents: int)
    requires Coalescible(intents, maxDependents)
    ensures Fits(Built(intents), Story(false, None, Views(intents)))
  {
    hide Hull;
    var ds := Built(intents).dependents;
    forall v
      ensures v in LiveViews(ds) <==> v in Views(intents)
    {
      if v in Views(intents) {
        var i :| 0 <= i < |intents| && intents[i].view == v;
        assert Live(ds[i]) && ds[i].slice.view == v;
      }
      if v in LiveViews(ds) {
        var i :| 0 <= i < |ds| && Live(ds[i]) && ds[i].slice.view == v;
        assert intents[i].view == v;
      }
    }
    assert intents[0].view in Views(intents);
  }

  // ---------- The story decides ----------

  /** The owner is asked before the write when a reservation is bound, and after it when the last view goes. */
  predicate Asks(t: Story) {
    if t.asked.Some? then |t.alive| == 1 else t.bound
  }

  /**
   A reservation is bound once, before the write; the write begins once, with a reservation and a view to serve; a view can be
   cancelled exactly while it is served and the owner, where it is asked, agrees or is closing the connection of the last view
   anyway; a reply is taken exactly once, after the write, when it answers what was asked with that many words.
   */
  lemma {:induction false} StoryDecides(intents: seq<Intent>, maxDependents: int, ops: seq<Op>, view: Uint64, reply: OwnerReply, r: Response)
    requires Coalescible(intents, maxDependents)
    ensures Inv(Built(intents)) && Inv(Run(Built(intents), ops))
    ensures var g, t := Run(Built(intents), ops), StoryOf(intents, maxDependents, ops);
            && (Bind(g) != g <==> !t.bound && t.asked.None? && t.alive != {})
            && (BeginWrite(g).1 <==> t.bound && t.asked.None? && t.alive != {})
            && (Cancel(g, view, reply).2 <==>
                  view in t.alive && (Asks(t) ==> reply == Agreed || (t.asked.Some? && reply == Closing)))
            && (Accepts(g, r) <==>
                  t.alive != {} && t.asked.Some? && r.genuine && r.read == t.asked.value && |r.words| == t.asked.value.quantity)
  {
    assert intents != [];
    hide Coalescible, Built, Run, StoryOf;
    StoryFits(intents, maxDependents, ops);
    var g, t := Run(Built(intents), ops), StoryOf(intents, maxDependents, ops);
    LiveIs(g);
    CancelIs(g, t, view, reply);
    hide Inv, LiveViews;
  }

  lemma {:induction false} CancelIs(g: Group, t: Story, view: Uint64, reply: OwnerReply)
    requires Inv(g) && Fits(g, t)
    ensures Cancel(g, view, reply).2 <==>
              view in t.alive && (Asks(t) ==> reply == Agreed || (t.asked.Some? && reply == Closing))
  {
    LiveIs(g);
    var i := IndexOfView(g.dependents, view);
    ViewIsLive(g.dependents, view);
    if i < |g.dependents| && Live(g.dependents[i]) {
      assert StageOk(g, g.dependents[i]);
      CountWithout(g.dependents, i);
    }
    hide Inv, LiveViews, LiveCount, Narrowed, Rebase;
  }

  lemma {:induction false} ViewIsLive(ds: seq<Dependent>, view: Uint64)
    requires forall j, k :: 0 <= j < k < |ds| ==> ds[j].slice.view != ds[k].slice.view
    ensures view in LiveViews(ds) <==> IndexOfView(ds, view) < |ds| && Live(ds[IndexOfView(ds, view)])
  {
    hide IndexOfView;
    var i := IndexOfView(ds, view);
    if view in LiveViews(ds) {
      var j :| 0 <= j < |ds| && Live(ds[j]) && ds[j].slice.view == view;
      assert i <= j;
    }
  }
}
