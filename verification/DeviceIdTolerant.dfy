/** What a tolerant traversal gives: the first occurrence of every object its chain of pages holds, as far as the limits allow. */
module DeviceIdTolerant {
  import opened Common
  import opened DeviceIdModel
  import opened DeviceIdPages
  import opened DeviceIdAnomalies

  // ---------- First occurrences ----------

  function Firsts(os: Objects): Objects {
    if os == [] then []
    else
      var before, last := Firsts(os[..|os| - 1]), os[|os| - 1];
      if Has(before, last.id) then before else before + [last]
  }

  ghost predicate Within(l: Limits, os: Objects) {
    |os| <= l.objects && ValueBytes(os) <= l.bytes
  }

  /** A new object for which there is no room. */
  ghost predicate Breaks(l: Limits, os: Objects, o: Object) {
    !Has(os, o.id) && !Within(l, os + [o])
  }

  lemma {:induction false} FirstsMore(os: Objects, o: Object)
    ensures Firsts(os + [o]) == if Has(Firsts(os), o.id) then Firsts(os) else Firsts(os) + [o]
  {
    assert (os + [o])[..|os|] == os;
  }

  lemma {:induction false} WithinMore(l: Limits, os: Objects, o: Object)
    requires Within(l, os)
    ensures Within(l, os + [o]) <==> !(|os| == l.objects || |o.value| > l.bytes - ValueBytes(os))
  {
    assert (os + [o])[..|os|] == os;
  }

  /** How far collecting goes, after the objects `a`, into the objects `b`. */
  ghost predicate Reaches(l: Limits, a: Objects, b: Objects, taken: Objects, k: nat) {
    k <= |b| && taken == Firsts(a + b[..k]) && Within(l, taken) && (k < |b| ==> Breaks(l, taken, b[k]))
  }

  lemma {:induction false} CollectReaches(l: Limits, a: Objects, list: seq<Anomaly>, b: Objects) returns (k: nat)
    requires Within(l, Firsts(a))
    ensures var (os, noted, room) := Collect(l, Firsts(a), list, b);
            && Reaches(l, a, b, os, k) && (room <==> k == |b|)
            && (AggregateLimit in noted <==> AggregateLimit in list || !room)
    decreases |b|
  {
    hide Has, Within, Firsts;
    if b == [] {
      k := 0;
      assert a + b[..0] == a;
    } else {
      FirstsMore(a, b[0]);
      WithinMore(l, Firsts(a), b[0]);
      if Has(Firsts(a), b[0].id) || Within(l, Firsts(a) + [b[0]]) {
        var more := if Has(Firsts(a), b[0].id) then Add(list, DuplicateObject) else list;
        var j := CollectReaches(l, a + [b[0]], more, b[1..]);
        k := j + 1;
        assert a + [b[0]] + b[1..][..j] == a + b[..k];
      } else {
        k := 0;
        assert a + b[..0] == a;
      }
    }
  }

  // ---------- The chain of pages ----------

  function AllObjects(pages: seq<Page>): Objects {
    if pages == [] then [] else AllObjects(pages[..|pages| - 1]) + pages[|pages| - 1].objects
  }

  /** The pages answer the first request and then each the one that follows from its predecessor. */
  ghost predicate Chain(first: Request, pages: seq<Page>) {
    forall i :: 0 <= i < |pages| ==>
      && DecodePage(pages[i].request, pages[i].pdu) == Some(pages[i])
      && (i == 0 ==> pages[i].request == first)
      && (i > 0 ==> pages[i - 1].moreValue != 0 && NextPageRequest(pages[i - 1]) == Some(pages[i].request))
  }

  ghost predicate Asked(pages: seq<Page>, asked: seq<(Request, Bytes)>) {
    |asked| == |pages| && forall i :: 0 <= i < |pages| ==> asked[i] == (pages[i].request, pages[i].pdu)
  }

  ghost predicate Expects(t: Traversal, first: Request) {
    if t.pages == [] then t.expected == first
    else
      var last := t.pages[|t.pages| - 1];
      last.moreValue != 0 && NextPageRequest(last) == Some(t.expected)
  }

  /** It has gone through its objects as far as the limits allow, and says whether they stopped it. */
  ghost predicate Gone(t: Traversal, l: Limits, k: nat) {
    Reaches(l, [], AllObjects(t.pages), t.objects, k) && (AggregateLimit in t.anomalies <==> k < |AllObjects(t.pages)|)
  }

  ghost predicate Sound(t: Traversal, l: Limits, first: Request) {
    && t.limits == l && Chain(first, t.pages)
    && (!t.closed ==> Expects(t, first) && t.objects == Firsts(AllObjects(t.pages)) && Within(l, t.objects) && AggregateLimit !in t.anomalies)
    && (t.closed ==>
          && t.pages != [] && (exists k :: Gone(t, l, k))
          && (t.complete <==> t.pages[|t.pages| - 1].moreValue == 0 && AggregateLimit !in t.anomalies))
  }

  lemma {:induction false} AddAllHas(list: seq<Anomaly>, more: seq<Anomaly>, a: Anomaly)
    ensures a in AddAll(list, more) <==> a in list || a in more
    decreases |more|
  {
    if more != [] {
      AddAllHas(Add(list, more[0]), more[1..], a);
    }
  }

  lemma {:induction false} NoLimitInPage(r: Request, pdu: Bytes)
    requires DecodePage(r, pdu).Some?
    ensures AggregateLimit !in DecodePage(r, pdu).value.anomalies
  {
    AnomaliesAreExact(r, pdu, AggregateLimit);
  }

  lemma {:induction false} ChainMore(first: Request, pages: seq<Page>, p: Page)
    requires Chain(first, pages) && DecodePage(p.request, p.pdu) == Some(p)
    requires if pages == [] then p.request == first else pages[|pages| - 1].moreValue != 0 && NextPageRequest(pages[|pages| - 1]) == Some(p.request)
    ensures Chain(first, pages + [p]) && AllObjects(pages + [p]) == AllObjects(pages) + p.objects
  {
    hide DecodePage, NextPageRequest;
    var all := pages + [p];
    assert all[..|pages|] == pages;
    forall i | 0 <= i < |all|
      ensures DecodePage(all[i].request, all[i].pdu) == Some(all[i]) && (i == 0 ==> all[i].request == first)
      ensures i > 0 ==> all[i - 1].moreValue != 0 && NextPageRequest(all[i - 1]) == Some(all[i].request)
    {
      if i < |pages| {
        assert all[i] == pages[i];
      }
    }
  }

  lemma {:induction false} ReachesFromStart(l: Limits, a: Objects, b: Objects, taken: Objects, j: nat)
    requires Reaches(l, a, b, taken, j)
    ensures Reaches(l, [], a + b, taken, |a| + j)
  {
    hide Firsts, Within, Has;
    assert [] + (a + b)[..|a| + j] == a + b[..j];
  }

  lemma {:induction false} SettleIs(t: Traversal, p: Page, room: bool)
    requires t.pages != [] && t.pages[|t.pages| - 1] == p && !t.closed
    ensures var u := Settle(t, p, room);
            && u.limits == t.limits && u.pages == t.pages && u.objects == t.objects
            && (AggregateLimit in u.anomalies <==> AggregateLimit in t.anomalies)
            && (u.closed ==> (u.complete <==> room && p.moreValue == 0))
            && (!u.closed ==> room && p.moreValue != 0 && NextPageRequest(p) == Some(u.expected) && u.anomalies == t.anomalies)
  {
    hide NextPageRequest, HasBasics;
  }

  /** The traversal with one page more, before it is settled what comes next. */
  function Merged(t: Traversal, p: Page): (Traversal, bool) {
    var changed := t.pages != [] && p.conformity != t.conformity;
    var list := AddAll(AddIf(t.anomalies, changed, ConformityChange), p.anomalies);
    var (os, noted, room) := Collect(t.limits, t.objects, list, p.objects);
    (t.(pages := t.pages + [p], conformity := if t.pages == [] then p.conformity else t.conformity, objects := os, anomalies := noted), room)
  }

  lemma {:induction false} AddPageIs(t: Traversal, r: Request, pdu: Bytes)
    requires AddPage(t, r, pdu).Some?
    ensures DecodePage(r, pdu).Some? && !t.closed && r == t.expected
    ensures var (m, room) := Merged(t, DecodePage(r, pdu).value);
            m.pages != [] && AddPage(t, r, pdu) == Some(Settle(m, DecodePage(r, pdu).value, room))
  {
    hide DecodePage, Settle, Collect, AddAll, AddIf;
  }

  lemma {:induction false} MergedReaches(t: Traversal, l: Limits, p: Page) returns (k: nat)
    requires t.limits == l && t.objects == Firsts(AllObjects(t.pages)) && Within(l, t.objects) && AggregateLimit !in t.anomalies
    requires AggregateLimit !in p.anomalies
    ensures var (m, room) := Merged(t, p);
            var all := AllObjects(t.pages) + p.objects;
            && m.pages == t.pages + [p] && m.limits == l && m.closed == t.closed
            && Reaches(l, [], all, m.objects, k) && (room <==> k == |all|) && (AggregateLimit in m.anomalies <==> !room)
  {
    hide Collect, Firsts, Within, AddAll, AddIf, Reaches;
    var changed := t.pages != [] && p.conformity != t.conformity;
    var start := AddIf(t.anomalies, changed, ConformityChange);
    var list := AddAll(start, p.anomalies);
    Noted(t.anomalies, changed, ConformityChange, AggregateLimit);
    AddAllHas(start, p.anomalies, AggregateLimit);
    var before := AllObjects(t.pages);
    var j := CollectReaches(l, before, list, p.objects);
    ReachesFromStart(l, before, p.objects, Collect(l, t.objects, list, p.objects).0, j);
    k := |before| + j;
  }

  lemma {:induction false} AddPageSound(t: Traversal, l: Limits, first: Request, r: Request, pdu: Bytes)
    requires Sound(t, l, first) && AddPage(t, r, pdu).Some?
    ensures var u := AddPage(t, r, pdu).value;
            Sound(u, l, first) && u.pages == t.pages + [DecodePage(r, pdu).value] && DecodePage(r, pdu).value.request == r && DecodePage(r, pdu).value.pdu == pdu
  {
    hide AddPage, DecodePage, Settle, Merged, Firsts, Within, NextPageRequest, Reaches, Chain, AllObjects;
    AddPageIs(t, r, pdu);
    var p := DecodePage(r, pdu).value;
    DecodedFrom(r, pdu);
    NoLimitInPage(r, pdu);
    ChainMore(first, t.pages, p);
    var k := MergedReaches(t, l, p);
    var (m, room) := Merged(t, p);
    SettleIs(m, p, room);
    AllReached(l, AllObjects(m.pages), m.objects, k);
    ReachBound(l, AllObjects(m.pages), m.objects, k);
    assert Gone(Settle(m, p, room), l, k);
  }

  lemma {:induction false} AllReached(l: Limits, all: Objects, os: Objects, k: nat)
    requires Reaches(l, [], all, os, k)
    ensures k == |all| ==> os == Firsts(all) && Within(l, os)
  {
    assert k == |all| ==> [] + all[..k] == all;
  }

  lemma {:induction false} DecodedFrom(r: Request, pdu: Bytes)
    requires DecodePage(r, pdu).Some?
    ensures DecodePage(r, pdu).value.request == r && DecodePage(r, pdu).value.pdu == pdu
  {
    hide UnpackAll, PageAnomalies, HeaderAnomalies, FooterAnomalies;
  }

  lemma {:induction false} AddPagesSound(t: Traversal, l: Limits, first: Request, asked: seq<(Request, Bytes)>)
    requires Sound(t, l, first) && AddPages(t, asked).Some?
    ensures var u := AddPages(t, asked).value;
            Sound(u, l, first) && |u.pages| == |t.pages| + |asked| && Asked(u.pages[|t.pages|..], asked) && u.pages[..|t.pages|] == t.pages
    decreases |asked|
  {
    hide Sound, AddPage, DecodePage;
    if asked != [] {
      AddPageSound(t, l, first, asked[0].0, asked[0].1);
      var m := AddPage(t, asked[0].0, asked[0].1).value;
      AddPagesSound(m, l, first, asked[1..]);
      AskedCons(AddPages(m, asked[1..]).value.pages, |t.pages|, asked);
    }
  }

  lemma {:induction false} AskedCons(pages: seq<Page>, n: nat, asked: seq<(Request, Bytes)>)
    requires asked != [] && n + 1 <= |pages| && Asked(pages[n + 1..], asked[1..]) && asked[0] == (pages[n].request, pages[n].pdu)
    ensures Asked(pages[n..], asked)
  {
    forall i | 0 <= i < |pages[n..]|
      ensures asked[i] == (pages[n..][i].request, pages[n..][i].pdu)
    {
      if i > 0 {
        assert pages[n + 1..][i - 1] == pages[n..][i] && asked[1..][i - 1] == asked[i];
      }
    }
  }

  /**
   What a tolerant traversal publishes: its pages answer one another from a first request of their own kind, and its objects are
   the first occurrences of all they hold, in order, up to the first that breaks a limit. It is complete exactly when no limit
   did and the last page has nothing to follow.
   */
  lemma {:induction false} TolerantIs(first: Request, asked: seq<(Request, Bytes)>, l: Limits) returns (pages: seq<Page>, k: nat)
    requires AggregateTolerant(first, asked, l).Some?
    ensures ValidLimits(l) && ValidRequest(first) && !first.continuation && !first.wrapped && 0 < |asked| <= l.segments
    ensures Asked(pages, asked) && Chain(first, pages) && pages != []
    ensures var result, all := AggregateTolerant(first, asked, l).value, AllObjects(pages);
            && Reaches(l, [], all, result.objects, k) && (AggregateLimit in result.anomalies <==> k < |all|)
            && (result.complete <==> k == |all| && pages[|pages| - 1].moreValue == 0)
  {
    hide AddPages, Reaches, Chain, ValidRequest;
    var t := StartTraversal(first, l).value;
    StartSound(first, l);
    AddPagesSound(t, l, first, asked);
    var u := AddPages(t, asked).value;
    pages := u.pages;
    assert pages[0..] == pages;
    k :| Gone(u, l, k);
    assert k <= |AllObjects(pages)| by {
      ReachBound(l, AllObjects(pages), u.objects, k);
    }
  }

  lemma {:induction false} ReachBound(l: Limits, all: Objects, os: Objects, k: nat)
    requires Reaches(l, [], all, os, k)
    ensures k <= |all|
  {
  }

  lemma {:induction false} StartSound(first: Request, l: Limits)
    requires StartTraversal(first, l).Some?
    ensures Sound(StartTraversal(first, l).value, l, first)
  {
  }
}
