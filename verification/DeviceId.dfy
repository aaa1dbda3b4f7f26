/** What Device Identification traversals guarantee: they end, strict and tolerant decoding agree, and pages add up. */
module DeviceId {
  import opened Common
  import opened DeviceIdModel

  // ---------- Paging ends ----------

  /** Requests are ordered by whether the stream has wrapped, then by cursor. */
  function Rank(r: Request): nat {
    (if r.wrapped then 0x100 else 0) + r.id
  }

  function Place(c: Cursor): nat {
    (if c.wrapped then 0x100 else 0) + c.at
  }

  lemma {:induction false} AdvanceRises(previous: Byte, next: Byte, wrapped: bool)
    requires Advance(previous, next, wrapped).Some?
    ensures Place(Cursor(next, Advance(previous, next, wrapped).value)) > Place(Cursor(previous, wrapped))
  {
  }

  lemma {:induction false} WalkRises(from: Cursor, os: Objects)
    requires Walk(from, os).Some?
    ensures Place(Walk(from, os).value) >= Place(from)
    decreases |os|
  {
    if os != [] {
      AdvanceRises(from.at, os[0].id, from.wrapped);
      WalkRises(Cursor(os[0].id, Advance(from.at, os[0].id, from.wrapped).value), os[1..]);
    }
  }

  /** Whatever a valid page says, the next strict request is further on. */
  lemma {:induction false} StrictAdvances(s: Segment)
    requires NextRequest(s).Some?
    ensures Rank(NextRequest(s).value) > Rank(s.request)
  {
    var r := s.request;
    if r.extended {
      var from := Cursor(r.id, r.wrapped);
      var end := WalkPage(from, s.objects).value;
      if s.objects[0].id == r.id {
        WalkRises(from, s.objects[1..]);
      } else {
        WalkRises(from, s.objects);
      }
      AdvanceRises(end.at, s.next, end.wrapped);
    } else {
      RisingEnds(s.objects);
    }
  }

  lemma {:induction false} RisingEnds(os: Objects)
    requires Rising(os) && os != []
    ensures os[0].id <= os[|os| - 1].id
  {
  }

  /** And so is the next tolerant one. */
  lemma {:induction false} TolerantAdvances(p: Page)
    requires NextPageRequest(p).Some?
    ensures Rank(NextPageRequest(p).value) > Rank(p.request)
  {
  }

  /** A tolerant page leads on exactly when its cursor lies above the one asked for, or below it, once, on an extended stream. */
  lemma {:induction false} NextPageIff(p: Page)
    requires ValidRequest(p.request)
    ensures var r := p.request;
            NextPageRequest(p) ==
              if r.access == 4 || p.moreValue == 0 || p.next == r.id || (p.next < r.id && (!r.extended || r.wrapped)) then None
              else Some(Request(r.access, p.next, true, r.extended, r.wrapped || p.next < r.id))
  {
  }

  /** One request follows another in a traversal of either kind, whatever the peer sent. */
  ghost predicate Link(a: Request, b: Request) {
    || (exists s: Segment :: s.request == a && NextRequest(s) == Some(b))
    || (exists p: Page :: p.request == a && NextPageRequest(p) == Some(b))
  }

  lemma {:induction false} LinkAdvances(a: Request, b: Request)
    requires Link(a, b)
    ensures Rank(b) > Rank(a)
  {
    if s: Segment :| s.request == a && NextRequest(s) == Some(b) {
      StrictAdvances(s);
    } else {
      var p: Page :| p.request == a && NextPageRequest(p) == Some(b);
      TolerantAdvances(p);
    }
  }

  ghost predicate Linked(rs: seq<Request>) {
    forall i :: 0 <= i < |rs| - 1 ==> Link(rs[i], rs[i + 1])
  }

  lemma {:induction false} LinkedBefore(rs: seq<Request>)
    requires Linked(rs) && |rs| > 1
    ensures var n := |rs| - 1; Linked(rs[..n]) && Link(rs[n - 1], rs[n])
  {
    hide Link;
    var n := |rs| - 1;
    var before := rs[..n];
    forall i | 0 <= i < |before| - 1
      ensures Link(before[i], before[i + 1])
    {
      assert Link(rs[i], rs[i + 1]);
    }
    assert Link(rs[n - 1], rs[n - 1 + 1]);
  }

  lemma {:induction false} ChainRises(rs: seq<Request>)
    requires rs != [] && Linked(rs)
    ensures Rank(rs[|rs| - 1]) >= |rs| - 1
    decreases |rs|
  {
    hide Link, Linked;
    if |rs| > 1 {
      var n := |rs| - 1;
      LinkedBefore(rs);
      ChainRises(rs[..n]);
      LinkAdvances(rs[n - 1], rs[n]);
    }
  }

  /** No traversal asks for more than 512 pages, even without limits. */
  lemma {:induction false} PagingEnds(rs: seq<Request>)
    requires Linked(rs)
    ensures |rs| <= 512
  {
    if rs != [] {
      ChainRises(rs);
    }
  }

  // ---------- The requests there are ----------

  /** The fields of a request are private: it is built by a constructor, or is the zero value that goes with an error. */
  ghost predicate Built(r: Request) {
    || r == Request(0, 0, false, false, false)
    || NewRequest(r.access, r.id) == Some(r)
    || NewExtendedStreamRequest(r.id) == Some(r)
  }

  ghost predicate Grown(rs: seq<Request>) {
    rs != [] && Built(rs[0]) && Linked(rs)
  }

  /** What a caller can hold: a request that was built, or that follows one already held. */
  ghost predicate Held(r: Request) {
    exists rs :: Grown(rs) && rs[|rs| - 1] == r
  }

  /** The zero value apart, it is valid; and only the continuation of an extended stream has wrapped. */
  ghost predicate Sane(r: Request) {
    && (r == Request(0, 0, false, false, false) || ValidRequest(r))
    && (r.wrapped ==> r.extended && r.continuation && r.access == EXTENDED)
  }

  lemma {:induction false} NextIsSane(s: Segment)
    requires Sane(s.request) && NextRequest(s).Some?
    ensures Sane(NextRequest(s).value)
  {
  }

  lemma {:induction false} NextPageIsSane(p: Page)
    requires Sane(p.request) && NextPageRequest(p).Some?
    ensures Sane(NextPageRequest(p).value)
  {
  }

  lemma {:induction false} LinkIsSane(a: Request, b: Request)
    requires Sane(a) && Link(a, b)
    ensures Sane(b)
  {
    hide Sane, NextRequest, NextPageRequest;
    if s: Segment :| s.request == a && NextRequest(s) == Some(b) {
      NextIsSane(s);
    } else {
      var p: Page :| p.request == a && NextPageRequest(p) == Some(b);
      NextPageIsSane(p);
    }
  }

  lemma {:induction false} GrownIsSane(rs: seq<Request>)
    requires Grown(rs)
    ensures Sane(rs[|rs| - 1])
    decreases |rs|
  {
    if |rs| > 1 {
      hide Link, Linked, Sane;
      var n := |rs| - 1;
      LinkedBefore(rs);
      GrownIsSane(rs[..n]);
      LinkIsSane(rs[n - 1], rs[n]);
    }
  }

  /** However many pages led to it, a request that is not of an extended stream never carries the wrap flag. */
  lemma {:induction false} StandardNeverWraps(r: Request)
    requires Held(r)
    ensures r == Request(0, 0, false, false, false) || ValidRequest(r)
    ensures r.wrapped ==> r.extended && r.continuation && r.access == EXTENDED
  {
    hide Built, Linked;
    var rs :| Grown(rs) && rs[|rs| - 1] == r;
    GrownIsSane(rs);
  }

  // ---------- Strict and tolerant agree ----------

  lemma {:induction false} UnpackAgrees(b: Bytes, n: nat)
    requires Unpack(b, n).Some?
    ensures |Unpack(b, n).value| == n && UnpackAll(b) == (Unpack(b, n).value, [])
    ensures forall i :: 0 <= i < n ==> |Unpack(b, n).value[i].value| <= MAX_VALUE
    decreases n
  {
    if n > 0 {
      UnpackAgrees(b[2 + b[1]..], n - 1);
    }
  }

  lemma {:induction false} QuietObject(r: Request, conformity: Byte, before: Objects, o: Object)
    requires !r.extended && r.access != INDIVIDUAL && StandardObject(r, conformity, o.id) && |o.value| <= MAX_VALUE
    requires forall i :: 0 <= i < |before| ==> before[i].id < o.id
    ensures ObjectAnomalies(r, conformity, before, o, []) == []
  {
  }

  lemma {:induction false} QuietPage(s: Segment, n: nat)
    requires n <= |s.objects| && (s.more ==> s.objects != []) && ValidStandard(s) && !s.request.extended && s.request.access != INDIVIDUAL
    ensures PageAnomalies(s.request, s.conformity, s.objects, n, []) == []
    decreases n
  {
    if n > 0 {
      QuietPage(s, n - 1);
      var os := s.objects;
      assert StandardObject(s.request, s.conformity, os[n - 1].id);
      var before := os[..n - 1];
      forall i | 0 <= i < |before|
        ensures before[i].id < os[n - 1].id
      {
        assert os[i].id < os[n - 1].id;
      }
      QuietObject(s.request, s.conformity, before, os[n - 1]);
    }
  }

  lemma {:induction false} DecodedSegment(r: Request, pdu: Bytes)
    requires DecodeSegment(r, pdu).Some?
    ensures var s := DecodeSegment(r, pdu).value;
            && 7 <= |pdu| <= MAX_PDU && ValidRequest(r) && pdu[0] == FUNCTION && pdu[1] == MEI && pdu[2] == r.access
            && s.request == r && s.conformity == pdu[3] && s.more == (pdu[4] == 0xff) && (pdu[4] == 0 || pdu[4] == 0xff)
            && s.next == pdu[5] && ValidSegment(s) && Unpack(pdu[7..], pdu[6]) == Some(s.objects)
  {
    hide ValidSegment, Unpack, ValidRequest;
  }

  /** A page that strict decoding accepts on a standard stream decodes tolerantly to the same, without anomaly. */
  lemma {:induction false} PageAgrees(r: Request, pdu: Bytes)
    requires DecodeSegment(r, pdu).Some? && !r.extended && r.access != INDIVIDUAL
    ensures var s := DecodeSegment(r, pdu).value;
            DecodePage(r, pdu) == Some(Page(r, pdu, s.conformity, pdu[4], s.next, s.objects, [])) && (pdu[4] != 0 <==> s.more)
  {
    hide DecodeSegment, Unpack, UnpackAll, PageAnomalies, ValidRequest, Fitting, Rising;
    DecodedSegment(r, pdu);
    var s := DecodeSegment(r, pdu).value;
    UnpackAgrees(pdu[7..], pdu[6]);
    QuietPage(s, |s.objects|);
    assert HeaderAnomalies(r, pdu) == [];
    assert FooterAnomalies(r, pdu, s.objects, []) == [];
  }

  lemma {:induction false} NextAgrees(s: Segment, p: Page)
    requires ValidSegment(s) && s.more && !s.request.extended && s.request.access != INDIVIDUAL
    requires p.request == s.request && p.next == s.next && p.moreValue != 0
    ensures NextPageRequest(p) == NextRequest(s) && NextRequest(s).Some?
    ensures !NextRequest(s).value.extended && NextRequest(s).value.access == s.request.access && NextRequest(s).value.wrapped == s.request.wrapped
  {
    RisingEnds(s.objects);
  }

  /** Taking objects strictly is collecting them without noting anything. */
  lemma {:induction false} TakeIsCollect(l: Limits, t: Taken, os: Objects)
    requires Take(l, t, os, false).Some?
    ensures Collect(l, t.objects, [], os) == (Take(l, t, os, false).value.objects, [], true)
    ensures Take(l, t, os, false).value.wrapped == t.wrapped
    decreases |os|
  {
    if os != [] {
      TakeIsCollect(l, Taken(t.objects + [os[0]], t.wrapped), os[1..]);
    }
  }

  /** Each page with the request it answers. */
  function Asked(segments: seq<Segment>, pdus: seq<Bytes>): seq<(Request, Bytes)>
    requires |segments| == |pdus|
  {
    seq(|pdus|, i requires 0 <= i < |pdus| => (segments[i].request, pdus[i]))
  }

  ghost predicate Decodes(segments: seq<Segment>, pdus: seq<Bytes>) {
    |segments| == |pdus| && forall i :: 0 <= i < |pdus| ==> DecodeSegment(segments[i].request, pdus[i]) == Some(segments[i])
  }

  /** A traversal that has taken pages without noting anything and waits for the next. */
  ghost predicate Clean(t: Traversal, l: Limits, first: Request, expected: Request, conformity: Byte, objects: Objects) {
    && t.limits == l && t.expected == expected && t.objects == objects && t.anomalies == [] && !t.closed
    && (t.pages != [] ==> t.conformity == conformity && t.pages[0].request == first)
    && (t.pages == [] ==> expected == first)
  }

  /** One page further. */
  lemma {:induction false} AddAgrees(t: Traversal, l: Limits, first: Request, s: Segment, pdu: Bytes, objects: Objects)
    requires !s.request.extended && s.request.access != INDIVIDUAL && DecodeSegment(s.request, pdu) == Some(s)
    requires Clean(t, l, first, s.request, s.conformity, objects)
    requires Take(l, Taken(objects, false), s.objects, false).Some?
    requires s.more ==> |t.pages| + 1 < l.segments
    ensures AddPage(t, s.request, pdu).Some?
    ensures var u, taken := AddPage(t, s.request, pdu).value, Take(l, Taken(objects, false), s.objects, false).value;
            && |u.pages| == |t.pages| + 1 && u.pages[0].request == first && u.objects == taken.objects && !taken.wrapped
            && (s.more ==> NextRequest(s).Some? && Clean(u, l, first, NextRequest(s).value, s.conformity, taken.objects))
            && (!s.more ==> u.closed && u.complete && u.anomalies == if first.extended || first.access == INDIVIDUAL || HasBasics(taken.objects) then [] else [MandatoryMissing])
  {
    hide DecodeSegment, DecodePage, ValidSegment, Take, Collect, HasBasics, NextRequest, NextPageRequest;
    DecodedSegment(s.request, pdu);
    PageAgrees(s.request, pdu);
    TakeIsCollect(l, Taken(objects, false), s.objects);
    if s.more {
      NextAgrees(s, DecodePage(s.request, pdu).value);
    }
  }

  lemma {:induction false} TailDecodes(segments: seq<Segment>, pdus: seq<Bytes>)
    requires Decodes(segments, pdus) && segments != []
    ensures Decodes(segments[1..], pdus[1..]) && Asked(segments, pdus)[1..] == Asked(segments[1..], pdus[1..])
    ensures DecodeSegment(segments[0].request, pdus[0]) == Some(segments[0]) && Asked(segments, pdus)[0] == (segments[0].request, pdus[0])
  {
    hide DecodeSegment;
  }

  lemma {:induction false} GatherAgrees(
    t: Traversal, l: Limits, first: Request, expected: Request, conformity: Byte, objects: Objects, segments: seq<Segment>, pdus: seq<Bytes>)
    requires segments != [] && Decodes(segments, pdus) && |t.pages| + |segments| <= l.segments
    requires !expected.extended && expected.access != INDIVIDUAL && !first.extended && first.access != INDIVIDUAL
    requires Clean(t, l, first, expected, conformity, objects)
    requires Gather(l, expected, conformity, Taken(objects, false), segments, false).Some?
    requires HasBasics(Gather(l, expected, conformity, Taken(objects, false), segments, false).value.objects)
    ensures AddPages(t, Asked(segments, pdus)).Some?
    ensures var u := AddPages(t, Asked(segments, pdus)).value;
            && u.closed && u.complete && u.anomalies == []
            && u.objects == Gather(l, expected, conformity, Taken(objects, false), segments, false).value.objects
    decreases |segments|
  {
    hide DecodeSegment, AddPage, ValidSegment, Take, HasBasics, NextRequest;
    var s := segments[0];
    TailDecodes(segments, pdus);
    AddAgrees(t, l, first, s, pdus[0], objects);
    var u := AddPage(t, s.request, pdus[0]).value;
    if s.more {
      NextKeepsKind(s);
      GatherAgrees(u, l, first, NextRequest(s).value, conformity, u.objects, segments[1..], pdus[1..]);
    }
  }

  lemma {:induction false} NextKeepsKind(s: Segment)
    requires NextRequest(s).Some?
    ensures NextRequest(s).value.extended == s.request.extended && NextRequest(s).value.access == s.request.access
  {
  }

  /**
   On a standard stream the tolerant path extends the strict one: when strict decoding and aggregation succeed,
   tolerant decoding of the same bytes follows the same requests to the same objects, complete and without
   anomaly.
   */
  lemma {:induction false} TolerantExtendsStrict(first: Request, segments: seq<Segment>, pdus: seq<Bytes>, l: Limits)
    requires Held(first) && Decodes(segments, pdus)
    requires Aggregate(first, segments, l, false).Some?
    ensures AggregateTolerant(first, Asked(segments, pdus), l) == Some(Result(true, Aggregate(first, segments, l, false).value, []))
  {
    hide DecodeSegment, AddPages, ValidSegment, Take, HasBasics, Gather;
    FirstIsValid(first, segments, pdus, l);
    StandardNeverWraps(first);
    var t := StartTraversal(first, l).value;
    GatherAgrees(t, l, first, first, segments[0].conformity, [], segments, pdus);
  }

  lemma {:induction false} FirstIsValid(first: Request, segments: seq<Segment>, pdus: seq<Bytes>, l: Limits)
    requires Decodes(segments, pdus) && Aggregate(first, segments, l, false).Some?
    ensures ValidRequest(first) && !first.continuation
  {
    hide DecodeSegment, Take, HasBasics;
    assert segments[0].request == first && ValidSegment(segments[0]);
  }
}
