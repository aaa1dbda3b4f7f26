/** Any legal object stream, cut into pages in any way, is put together again by strict decoding and aggregation. */
module DeviceIdPages {
  import opened Common
  import opened DeviceIdModel
  import opened DeviceId

  // ---------- One page ----------

  predicate Short(os: Objects) {
    forall i :: 0 <= i < |os| ==> |os[i].value| <= MAX_VALUE
  }

  lemma {:induction false} PackOk(os: Objects)
    requires Short(os)
    ensures forall o :: o in os ==> |o.value| <= 0xff
  {
  }

  function EncodeSegment(s: Segment): Bytes
    requires Short(s.objects) && |s.objects| <= 0xff
  {
    PackOk(s.objects);
    [FUNCTION, MEI, s.request.access, s.conformity, if s.more then 0xff else 0, s.next, |s.objects|] + Pack(s.objects)
  }

  lemma {:induction false} PackSize(os: Objects)
    requires forall o :: o in os ==> |o.value| <= 0xff
    ensures |Pack(os)| == Size(os) && Size(os) >= 2 * |os|
    decreases |os|
  {
    if os != [] {
      PackSize(os[1..]);
    }
  }

  lemma {:induction false} UnpackOfPack(os: Objects)
    requires forall o :: o in os ==> |o.value| <= MAX_VALUE
    ensures Unpack(Pack(os), |os|) == Some(os)
    decreases |os|
  {
    if os != [] {
      UnpackOfPack(os[1..]);
      assert Pack(os) == [os[0].id, |os[0].value|] + os[0].value + Pack(os[1..]);
      hide Unpack, Pack;
      UnpackCons(os[0], Pack(os[1..]), |os| - 1);
      assert [os[0]] + os[1..] == os;
    }
  }

  lemma {:induction false} UnpackCons(o: Object, rest: Bytes, n: nat)
    requires |o.value| <= MAX_VALUE && Unpack(rest, n).Some?
    ensures Unpack([o.id, |o.value|] + o.value + rest, n + 1) == Some([o] + Unpack(rest, n).value)
  {
    Sections(o, rest);
  }

  lemma {:induction false} Sections(o: Object, rest: Bytes)
    requires |o.value| <= 0xff
    ensures var b := [o.id, |o.value|] + o.value + rest;
            && |b| >= 2 + |o.value| && b[0] == o.id && b[1] == |o.value| && b[2..2 + |o.value|] == o.value && b[2 + |o.value|..] == rest
  {
  }

  lemma {:induction false} UnpackHead(b: Bytes, n: nat)
    requires n > 0 && Unpack(b, n).Some?
    ensures |b| >= 2 && 2 + b[1] <= |b| && Unpack(b[2 + b[1]..], n - 1).Some?
    ensures Unpack(b, n).value == [Object(b[0], b[2..2 + b[1]])] + Unpack(b[2 + b[1]..], n - 1).value
    ensures b == [b[0], b[1]] + b[2..2 + b[1]] + b[2 + b[1]..]
  {
  }

  lemma {:induction false} UnpackNone(b: Bytes)
    requires Unpack(b, 0).Some?
    ensures b == [] && Unpack(b, 0).value == [] && Pack([]) == []
  {
  }

  lemma {:induction false} PackOfUnpack(b: Bytes, n: nat)
    requires Unpack(b, n).Some?
    ensures (forall o :: o in Unpack(b, n).value ==> |o.value| <= 0xff) && Pack(Unpack(b, n).value) == b
    decreases n
  {
    hide Unpack, Pack;
    if n == 0 {
      UnpackNone(b);
    } else {
      UnpackHead(b, n);
      var k := b[1];
      PackOfUnpack(b[2 + k..], n - 1);
      PackCons(Object(b[0], b[2..2 + k]), Unpack(b[2 + k..], n - 1).value);
    }
  }

  lemma {:induction false} PackCons(o: Object, rest: Objects)
    requires |o.value| <= 0xff && forall x :: x in rest ==> |x.value| <= 0xff
    ensures (forall x :: x in [o] + rest ==> |x.value| <= 0xff) && Pack([o] + rest) == [o.id, |o.value|] + o.value + Pack(rest)
  {
    assert ([o] + rest)[1..] == rest;
  }

  /** A valid page decodes from its own encoding. */
  lemma {:induction false} SegmentRoundTrip(s: Segment)
    requires ValidSegment(s) && Fitting(s.objects)
    ensures Short(s.objects) && DecodeSegment(s.request, EncodeSegment(s)) == Some(s)
  {
    hide ValidSegment, Unpack;
    assert Short(s.objects);
    PackOk(s.objects);
    PackSize(s.objects);
    UnpackOfPack(s.objects);
    var pdu := EncodeSegment(s);
    assert pdu[7..] == Pack(s.objects);
    SegmentHeader(s);
  }

  lemma {:induction false} SegmentHeader(s: Segment)
    requires ValidSegment(s)
    ensures ValidRequest(s.request) && ValidConformity(s.conformity) && |s.objects| <= 0xff
    ensures (!s.more ==> s.next == 0) && (s.more ==> (s.next != 0 || s.request.extended) && s.objects != [])
  {
  }

  lemma {:induction false} SevenThenRest(pdu: Bytes)
    requires |pdu| >= 7
    ensures pdu == [pdu[0], pdu[1], pdu[2], pdu[3], pdu[4], pdu[5], pdu[6]] + pdu[7..]
  {
  }

  /** And a page that decodes is the encoding of what it decodes to. */
  lemma {:induction false} SegmentIsItsEncoding(r: Request, pdu: Bytes)
    requires DecodeSegment(r, pdu).Some?
    ensures Short(DecodeSegment(r, pdu).value.objects) && |DecodeSegment(r, pdu).value.objects| <= 0xff
    ensures EncodeSegment(DecodeSegment(r, pdu).value) == pdu
  {
    hide ValidSegment, DecodeSegment, Unpack, UnpackAll, Pack, ValidRequest, ValidConformity;
    DecodedSegment(r, pdu);
    var s := DecodeSegment(r, pdu).value;
    UnpackAgrees(pdu[7..], pdu[6]);
    PackOfUnpack(pdu[7..], pdu[6]);
    SegmentHeader(s);
    SevenThenRest(pdu);
  }

  // ---------- Pages of a stream ----------

  function Flat(pages: seq<Objects>): Objects {
    if pages == [] then [] else pages[0] + Flat(pages[1..])
  }

  predicate Cut(pages: seq<Objects>) {
    pages != [] && forall i :: 0 <= i < |pages| ==> pages[i] != [] && Fitting(pages[i])
  }

  /** The bytes of a page hold its objects after a header of seven, within a protocol data unit of 253. */
  predicate Holds(page: Objects) {
    (forall o :: o in page ==> |o.value| <= 0xff) && 7 + |Pack(page)| <= 253
  }

  /** Non-empty pages that each fit a protocol data unit. */
  predicate Pages(pages: seq<Objects>) {
    pages != [] && forall i :: 0 <= i < |pages| ==> pages[i] != [] && Holds(pages[i])
  }

  lemma {:induction false} SizeOfOne(os: Objects, i: nat)
    requires i < |os|
    ensures 2 + |os[i].value| <= Size(os)
    decreases |os|
  {
    if i > 0 {
      SizeOfOne(os[1..], i - 1);
    }
  }

  lemma {:induction false} HoldsFits(page: Objects)
    requires Holds(page)
    ensures Fitting(page)
  {
    hide Pack, Size;
    PackSize(page);
    forall i | 0 <= i < |page|
      ensures |page[i].value| <= MAX_VALUE
    {
      SizeOfOne(page, i);
    }
  }

  lemma {:induction false} PagesCut(pages: seq<Objects>)
    requires Pages(pages)
    ensures Cut(pages)
  {
    hide Fitting, Holds;
    forall i | 0 <= i < |pages|
      ensures Fitting(pages[i])
    {
      HoldsFits(pages[i]);
    }
  }

  /** The page at the front, whose cursor names the first object of the page after it. */
  function FrontPage(r: Request, conformity: Byte, pages: seq<Objects>): Segment
    requires Cut(pages)
  {
    if |pages| == 1 then Segment(r, conformity, false, 0, pages[0])
    else Segment(r, conformity, true, pages[1][0].id, pages[0])
  }

  /** All pages, each answering the request that its predecessor leads to. */
  function Deal(r: Request, conformity: Byte, pages: seq<Objects>): seq<Segment>
    requires Cut(pages)
    decreases |pages|
  {
    var s := FrontPage(r, conformity, pages);
    var next := NextRequest(s);
    if |pages| == 1 || next.None? then [s]
    else [s] + Deal(next.value, conformity, pages[1..])
  }

  lemma {:induction false} FlatLength(pages: seq<Objects>)
    requires Cut(pages)
    ensures |Flat(pages)| >= |pages|
    decreases |pages|
  {
    if |pages| > 1 {
      FlatLength(pages[1..]);
    }
  }

  lemma {:induction false} CutIsShort(pages: seq<Objects>)
    requires Cut(pages)
    ensures Short(Flat(pages))
    decreases |pages|
  {
    if |pages| > 1 {
      CutIsShort(pages[1..]);
    }
  }

  // ---------- Limits ----------

  ghost function Below(n: nat): (s: set<int>)
    ensures |s| == n && forall x :: x in s <==> 0 <= x < n
  {
    if n == 0 then {} else Below(n - 1) + {n - 1}
  }

  ghost function Ids(os: Objects): set<int> {
    set i | 0 <= i < |os| :: os[i].id
  }

  lemma {:induction false} IdsCount(os: Objects)
    requires NoDuplicates(os)
    ensures |Ids(os)| == |os|
    decreases |os|
  {
    if os != [] {
      var n := |os| - 1;
      IdsCount(os[..n]);
      assert os[n].id !in Ids(os[..n]);
      forall x
        ensures x in Ids(os) <==> x in Ids(os[..n]) + {os[n].id}
      {
        if x in Ids(os) {
          var i :| 0 <= i < |os| && os[i].id == x;
          assert i < n ==> os[..n][i].id == x;
        }
        if x in Ids(os[..n]) {
          var i :| 0 <= i < n && os[..n][i].id == x;
          assert os[i].id == x;
        }
      }
      assert Ids(os) == Ids(os[..n]) + {os[n].id};
    }
  }

  lemma {:induction false} SubsetCount(a: set<int>, b: set<int>)
    requires a <= b
    ensures |a| <= |b|
  {
    assert a + (b - a) == b && a * (b - a) == {};
  }

  /** There are 256 object identities. */
  lemma {:induction false} DistinctFit(os: Objects)
    requires NoDuplicates(os)
    ensures |os| <= MAX_OBJECTS
  {
    IdsCount(os);
    SubsetCount(Ids(os), Below(0x100));
  }

  lemma {:induction false} ValuesFit(os: Objects)
    requires Short(os)
    ensures ValueBytes(os) <= MAX_VALUE * |os|
    decreases |os|
  {
    if os != [] {
      ValuesFit(os[..|os| - 1]);
    }
  }

  // ---------- Taking whole pages ----------

  lemma {:induction false} TakeRising(done: Objects, w: bool, os: Objects)
    requires Rising(done + os) && Short(done + os)
    ensures Take(DefaultLimits, Taken(done, w), os, false) == Some(Taken(done + os, w))
    decreases |os|
  {
    if os == [] {
      assert done + os == done;
    } else {
      var all, more := done + os, done + [os[0]];
      assert more + os[1..] == all;
      RisingIsDistinct(all);
      DistinctFit(all);
      NextRises(done, os);
      RoomFor(done, os);
      TakeRising(more, w, os[1..]);
    }
  }

  lemma {:induction false} RisingIsDistinct(os: Objects)
    requires Rising(os)
    ensures NoDuplicates(os)
  {
  }

  lemma {:induction false} NextRises(done: Objects, os: Objects)
    requires Rising(done + os) && os != []
    ensures !Has(done, os[0].id) && (done != [] ==> os[0].id > done[|done| - 1].id)
  {
    var all := done + os;
    forall i | 0 <= i < |done|
      ensures done[i].id < os[0].id
    {
      assert all[i].id < all[|done|].id;
    }
  }

  lemma {:induction false} RoomFor(done: Objects, os: Objects)
    requires Short(done + os) && os != [] && |done + os| <= MAX_OBJECTS
    ensures |done| < MAX_OBJECTS && |os[0].value| <= MAX_AGGREGATE - ValueBytes(done)
  {
    var all := done + os;
    forall i | 0 <= i < |done|
      ensures |done[i].value| <= MAX_VALUE
    {
      assert all[i] == done[i];
    }
    ValuesFit(done);
    assert all[|done|] == os[0];
  }

  // ---------- Standard streams ----------

  ghost predicate Suits(access: Byte, conformity: Byte, os: Objects) {
    forall i :: 0 <= i < |os| ==> !Reserved(os[i].id) && AllowedByAccess(os[i].id, access) && AllowedByConformity(os[i].id, conformity)
  }

  /** Basic, regular and extended identities are of category 1, 2 and 3; those from 0x07 to 0x7f are reserved. */
  function Category(id: Byte): nat {
    if id < 0x03 then 1 else if id < 0x07 then 2 else if id < 0x80 then 4 else 3
  }

  /** A legal standard stream: rising identities of the categories asked for and conformed to, the three basic ones among them. */
  ghost predicate LegalStandard(access: Byte, conformity: Byte, os: Objects) {
    && 1 <= access <= 3 && 1 <= conformity % 0x80 <= 3
    && Rising(os) && Has(os, 0) && Has(os, 1) && Has(os, 2)
    && forall i :: 0 <= i < |os| ==> Category(os[i].id) <= access && Category(os[i].id) <= conformity % 0x80
  }

  lemma {:induction false} CategoryIs(access: Byte, conformity: Byte, id: Byte)
    requires 1 <= access <= 3 && 1 <= conformity % 0x80 <= 3
    ensures Category(id) <= access && Category(id) <= conformity % 0x80 <==>
              !Reserved(id) && AllowedByAccess(id, access) && AllowedByConformity(id, conformity)
  {
  }

  lemma {:induction false} LegalSuits(access: Byte, conformity: Byte, os: Objects)
    requires LegalStandard(access, conformity, os)
    ensures Suits(access, conformity, os) && ValidConformity(conformity) && Rising(os) && HasBasics(os) && BASIC <= access <= EXTENDED
  {
    hide Rising, Has;
    forall i | 0 <= i < |os|
      ensures !Reserved(os[i].id) && AllowedByAccess(os[i].id, access) && AllowedByConformity(os[i].id, conformity)
    {
      CategoryIs(access, conformity, os[i].id);
    }
  }

  ghost predicate StandardRequest(r: Request) {
    BASIC <= r.access <= EXTENDED && !r.extended && !r.wrapped && (r.continuation <==> r.id != 0)
  }

  /** What is left of a standard stream, after `done`, can be dealt into pages. */
  ghost predicate StandardRest(r: Request, conformity: Byte, done: Objects, pages: seq<Objects>) {
    && Cut(pages) && StandardRequest(r) && ValidConformity(conformity) && Suits(r.access, conformity, Flat(pages))
    && Rising(done + Flat(pages)) && Short(done + Flat(pages)) && r.id <= pages[0][0].id
  }

  lemma {:induction false} FlatParts(pages: seq<Objects>)
    requires Cut(pages)
    ensures |Flat(pages)| >= |pages[0]| && Flat(pages)[..|pages[0]|] == pages[0] && Flat(pages) == pages[0] + Flat(pages[1..])
    ensures |pages| > 1 ==> Cut(pages[1..]) && |Flat(pages)| > |pages[0]| && Flat(pages)[|pages[0]|] == pages[1][0]
  {
  }

  /** The first page of what is left, object by object. */
  lemma {:induction false} FrontObjects(r: Request, conformity: Byte, done: Objects, pages: seq<Objects>)
    requires StandardRest(r, conformity, done, pages)
    ensures Rising(pages[0])
    ensures forall i :: 0 <= i < |pages[0]| ==> StandardObject(r, conformity, pages[0][i].id)
    ensures |pages| > 1 ==> pages[1][0].id > pages[0][|pages[0]| - 1].id && StandardObject(r, conformity, pages[1][0].id)
  {
    FlatParts(pages);
    var flat, all, k, n := Flat(pages), done + Flat(pages), |done|, |pages[0]|;
    forall i, j | 0 <= i < j < n
      ensures pages[0][i].id < pages[0][j].id
    {
      assert flat[..n][i] == flat[i] == all[k + i] && flat[..n][j] == flat[j] == all[k + j];
    }
    forall i | 0 <= i < n
      ensures StandardObject(r, conformity, pages[0][i].id)
    {
      assert flat[..n][i] == flat[i] && !Reserved(flat[i].id);
    }
    if |pages| > 1 {
      assert flat[..n][n - 1] == flat[n - 1] == all[k + n - 1] && flat[n] == all[k + n];
      assert !Reserved(flat[n].id);
    }
  }

  lemma {:induction false} FrontIsValid(r: Request, conformity: Byte, done: Objects, pages: seq<Objects>)
    requires StandardRest(r, conformity, done, pages)
    ensures ValidSegment(FrontPage(r, conformity, pages))
    ensures |pages| > 1 ==> NextRequest(FrontPage(r, conformity, pages)) == Some(Request(r.access, pages[1][0].id, true, false, false))
  {
    hide Flat, Suits, Short, AllowedByAccess, AllowedByConformity, ValidConformity, Rising, Size;
    FrontObjects(r, conformity, done, pages);
    PackSizeBound(pages[0]);
  }

  lemma {:induction false} PackSizeBound(os: Objects)
    requires Fitting(os)
    ensures |os| <= 0xff
  {
    SizeAtLeast(os);
  }

  lemma {:induction false} SizeAtLeast(os: Objects)
    ensures Size(os) >= 2 * |os|
    decreases |os|
  {
    if os != [] {
      SizeAtLeast(os[1..]);
    }
  }

  lemma {:induction false} RestGoesOn(r: Request, conformity: Byte, done: Objects, pages: seq<Objects>)
    requires StandardRest(r, conformity, done, pages) && |pages| > 1
    ensures StandardRest(Request(r.access, pages[1][0].id, true, false, false), conformity, done + pages[0], pages[1..])
  {
    FlatParts(pages);
    var all := done + Flat(pages);
    assert done + pages[0] + Flat(pages[1..]) == all;
    var rest := Flat(pages[1..]);
    forall i | 0 <= i < |rest|
      ensures !Reserved(rest[i].id) && AllowedByAccess(rest[i].id, r.access) && AllowedByConformity(rest[i].id, conformity)
    {
      assert Flat(pages)[|pages[0]| + i] == rest[i];
    }
    assert all[|done|].id < all[|done| + |pages[0]|].id;
  }

  lemma {:induction false} GatherStandard(r: Request, conformity: Byte, done: Objects, pages: seq<Objects>)
    requires StandardRest(r, conformity, done, pages)
    ensures Gather(DefaultLimits, r, conformity, Taken(done, false), Deal(r, conformity, pages), false) == Some(Taken(done + Flat(pages), false))
    ensures |Deal(r, conformity, pages)| == |pages| && Deal(r, conformity, pages)[0].conformity == conformity
    ensures forall i :: 0 <= i < |pages| ==> ValidSegment(Deal(r, conformity, pages)[i]) && Fitting(Deal(r, conformity, pages)[i].objects)
    decreases |pages|
  {
    hide ValidSegment, Take, NextRequest, Suits;
    var s := FrontPage(r, conformity, pages);
    FrontIsValid(r, conformity, done, pages);
    FlatParts(pages);
    TakePage(done, pages);
    if |pages| == 1 {
      assert Flat(pages[1..]) == [] && pages[0] + [] == pages[0];
    } else {
      var next := Request(r.access, pages[1][0].id, true, false, false);
      RestGoesOn(r, conformity, done, pages);
      GatherStandard(next, conformity, done + pages[0], pages[1..]);
      assert done + pages[0] + Flat(pages[1..]) == done + Flat(pages);
      var rest := Deal(next, conformity, pages[1..]);
      assert ([s] + rest)[1..] == rest;
    }
  }

  lemma {:induction false} TakePage(done: Objects, pages: seq<Objects>)
    requires Cut(pages) && Rising(done + Flat(pages)) && Short(done + Flat(pages))
    ensures Take(DefaultLimits, Taken(done, false), pages[0], false) == Some(Taken(done + pages[0], false))
  {
    hide Take;
    FlatParts(pages);
    var all, some := done + Flat(pages), done + pages[0];
    assert some == all[..|some|];
    forall i, j | 0 <= i < j < |some|
      ensures some[i].id < some[j].id
    {
      assert all[i].id < all[j].id;
    }
    forall i | 0 <= i < |some|
      ensures |some[i].value| <= MAX_VALUE
    {
      assert all[i] == some[i];
    }
    TakeRising(done, false, pages[0]);
  }

  /** The stream as it goes over the wire, with the requests that ask for it. */
  ghost predicate Delivers(segments: seq<Segment>) {
    forall i :: 0 <= i < |segments| ==>
      && Short(segments[i].objects) && |segments[i].objects| <= 0xff
      && DecodeSegment(segments[i].request, EncodeSegment(segments[i])) == Some(segments[i])
  }

  lemma {:induction false} AllDeliver(segments: seq<Segment>)
    requires forall i :: 0 <= i < |segments| ==> ValidSegment(segments[i]) && Fitting(segments[i].objects)
    ensures Delivers(segments)
  {
    hide ValidSegment, DecodeSegment;
    forall i | 0 <= i < |segments|
      ensures Short(segments[i].objects) && |segments[i].objects| <= 0xff && DecodeSegment(segments[i].request, EncodeSegment(segments[i])) == Some(segments[i])
    {
      PackSizeBound(segments[i].objects);
      SegmentRoundTrip(segments[i]);
    }
  }

  /** Every legal standard stream, however it is cut, is decoded page by page and aggregated to exactly itself. */
  lemma {:induction false} StandardStreamRoundTrip(access: Byte, conformity: Byte, pages: seq<Objects>)
    requires Pages(pages) && LegalStandard(access, conformity, Flat(pages))
    ensures Cut(pages)
    ensures var first := Request(access, 0, false, false, false);
            var segments := Deal(first, conformity, pages);
            && |segments| == |pages| && Delivers(segments)
            && Aggregate(first, segments, DefaultLimits, false) == Some(Flat(pages))
  {
    hide ValidSegment, Take, Gather, HasBasics, Suits, Short, LegalStandard, Rising, NoDuplicates, ValidConformity;
    PagesCut(pages);
    LegalSuits(access, conformity, Flat(pages));
    var first := Request(access, 0, false, false, false);
    CutIsShort(pages);
    assert [] + Flat(pages) == Flat(pages);
    GatherStandard(first, conformity, [], pages);
    AllDeliver(Deal(first, conformity, pages));
    FlatLength(pages);
    RisingIsDistinct(Flat(pages));
    DistinctFit(Flat(pages));
  }

  // ---------- Extended streams ----------

  /** Identities rise from the start up to `k`, where they go around from the last identity to the first and rise again. */
  ghost predicate WrapsAt(start: Byte, os: Objects, k: nat)
    requires k <= |os|
  {
    && Rising(os[..k]) && Rising(os[k..]) && (k > 0 ==> os[0].id >= start)
    && (k < |os| ==> os[k].id == 0 && (if k == 0 then start else os[k - 1].id) == 0xff)
  }

  /** A legal extended stream: distinct identities that rise from the start, around at most once. */
  ghost predicate LegalExtended(start: Byte, os: Objects) {
    NoDuplicates(os) && exists k :: 0 <= k <= |os| && WrapsAt(start, os, k)
  }

  lemma {:induction false} WalkRising(c: Cursor, os: Objects)
    requires Rising(os) && (os != [] ==> os[0].id > c.at)
    ensures Walk(c, os) == Some(Cursor(if os == [] then c.at else os[|os| - 1].id, c.wrapped))
    decreases |os|
  {
    if os != [] {
      WalkRising(Cursor(os[0].id, c.wrapped), os[1..]);
    }
  }

  lemma {:induction false} WalkAround(os: Objects)
    requires Rising(os) && os != [] && os[0].id == 0
    ensures Walk(Cursor(0xff, false), os).Some?
  {
    WalkRising(Cursor(0, true), os[1..]);
  }

  lemma {:induction false} WalkParts(c: Cursor, up: Objects, after: Objects)
    requires Rising(up) && Rising(after) && !c.wrapped && (up != [] ==> up[0].id > c.at)
    requires after != [] ==> after[0].id == 0 && (if up == [] then c.at else up[|up| - 1].id) == 0xff
    ensures Walk(c, up + after).Some?
  {
    hide Rising;
    WalkRising(c, up);
    WalkAppend(c, up, after);
    hide Walk;
    if after != [] {
      WalkAround(after);
    }
  }

  lemma {:induction false} RisingTail(os: Objects)
    requires Rising(os) && os != []
    ensures Rising(os[1..]) && (|os| > 1 ==> os[1].id > os[0].id)
  {
  }

  lemma {:induction false} RisingCons(o: Object, os: Objects)
    requires Rising(os) && (os != [] ==> os[0].id > o.id)
    ensures Rising([o] + os)
  {
    var all := [o] + os;
    forall i, j | 0 <= i < j < |all|
      ensures all[i].id < all[j].id
    {
      assert all[j] == os[j - 1] && (i > 0 ==> all[i] == os[i - 1]);
    }
  }

  /** The decoder's walk passes every legal stream. */
  lemma {:induction false} LegalWalks(start: Byte, os: Objects)
    requires LegalExtended(start, os)
    ensures NoDuplicates(os) && WalkPage(Cursor(start, false), os).Some?
  {
    hide NoDuplicates, WrapsAt, WalkPage;
    var k :| 0 <= k <= |os| && WrapsAt(start, os, k);
    WrappedWalks(start, os, k);
  }

  lemma {:induction false} WrappedWalks(start: Byte, os: Objects, k: nat)
    requires k <= |os| && WrapsAt(start, os, k)
    ensures WalkPage(Cursor(start, false), os).Some?
  {
    hide Rising, Walk;
    var from, before, after := Cursor(start, false), os[..k], os[k..];
    if k > 0 && os[0].id == start {
      RisingTail(before);
      assert before[1..] + after == os[1..];
      WalkParts(from, before[1..], after);
    } else {
      assert before + after == os;
      WalkParts(from, before, after);
    }
  }

  lemma {:induction false} WalkSplits(c: Cursor, os: Objects) returns (k: nat)
    requires Walk(c, os).Some?
    ensures k <= |os| && Rising(os[..k]) && Rising(os[k..]) && (k > 0 ==> os[0].id > c.at)
    ensures k < |os| ==> !c.wrapped && os[k].id == 0 && (if k == 0 then c.at else os[k - 1].id) == 0xff
    decreases |os|
  {
    if os == [] {
      k := 0;
    } else {
      var w, rest := Advance(c.at, os[0].id, c.wrapped).value, os[1..];
      var j := WalkSplits(Cursor(os[0].id, w), rest);
      hide Rising, Walk;
      RisingCons(os[0], rest[..j]);
      if os[0].id > c.at {
        k := j + 1;
        assert os[..k] == [os[0]] + rest[..j] && os[k..] == rest[j..];
      } else {
        k := 0;
        assert rest[..j] == rest && os[k..] == [os[0]] + rest;
        assert os[..0] == rest[j..];
      }
    }
  }

  /** And it passes no other: a stream of distinct identities is walked to its end exactly when it is legal. */
  lemma {:induction false} WalksIffLegal(start: Byte, os: Objects)
    requires NoDuplicates(os)
    ensures WalkPage(Cursor(start, false), os).Some? <==> LegalExtended(start, os)
  {
    hide NoDuplicates, Rising, Walk;
    var from := Cursor(start, false);
    if LegalExtended(start, os) {
      LegalWalks(start, os);
    }
    if WalkPage(from, os).Some? {
      if os != [] && os[0].id == start {
        var rest := os[1..];
        var j := WalkSplits(from, rest);
        RisingCons(os[0], rest[..j]);
        assert os == [os[0]] + rest;
        assert os[..j + 1] == [os[0]] + rest[..j];
        assert os[j + 1..] == rest[j..];
        assert WrapsAt(start, os, j + 1);
      } else {
        var k := WalkSplits(from, os);
        assert WrapsAt(start, os, k);
      }
    }
  }

  lemma {:induction false} WalkAppend(from: Cursor, a: Objects, b: Objects)
    ensures Walk(from, a + b) == if Walk(from, a).None? then None else Walk(Walk(from, a).value, b)
    decreases |a|
  {
    if a == [] {
      assert a + b == b;
    } else {
      assert (a + b)[1..] == a[1..] + b;
      var w := Advance(from.at, a[0].id, from.wrapped);
      if w.Some? {
        WalkAppend(Cursor(a[0].id, w.value), a[1..], b);
      }
    }
  }

  lemma {:induction false} WalkPageAppend(from: Cursor, a: Objects, b: Objects)
    requires a != []
    ensures WalkPage(from, a + b) == if WalkPage(from, a).None? then None else Walk(WalkPage(from, a).value, b)
  {
    assert (a + b)[1..] == a[1..] + b;
    WalkAppend(from, a[1..], b);
    WalkAppend(from, a, b);
  }

  ghost predicate ExtendedRequest(r: Request) {
    r.access == EXTENDED && r.extended && (r.wrapped ==> r.continuation)
  }

  ghost predicate ExtendedRest(r: Request, conformity: Byte, done: Objects, pages: seq<Objects>) {
    && Cut(pages) && ExtendedRequest(r) && ValidConformity(conformity) && conformity % 0x80 == EXTENDED
    && NoDuplicates(done + Flat(pages)) && Short(done + Flat(pages))
    && WalkPage(Cursor(r.id, r.wrapped), Flat(pages)).Some?
  }

  /** Where the first page of what is left ends, and the request that follows it. */
  lemma {:induction false} FrontWalk(r: Request, conformity: Byte, done: Objects, pages: seq<Objects>)
    requires ExtendedRest(r, conformity, done, pages)
    ensures WalkPage(Cursor(r.id, r.wrapped), pages[0]).Some? && NoDuplicates(pages[0])
    ensures |pages| > 1 ==>
              var end := WalkPage(Cursor(r.id, r.wrapped), pages[0]).value;
              var w := Advance(end.at, pages[1][0].id, end.wrapped);
              w.Some? && WalkPage(Cursor(pages[1][0].id, w.value), Flat(pages[1..])).Some?
  {
    FlatParts(pages);
    WalkPageAppend(Cursor(r.id, r.wrapped), pages[0], Flat(pages[1..]));
    var all, k := done + Flat(pages), |done|;
    forall i, j | 0 <= i < j < |pages[0]|
      ensures pages[0][i].id != pages[0][j].id
    {
      assert Flat(pages)[..|pages[0]|][i] == all[k + i] && Flat(pages)[..|pages[0]|][j] == all[k + j];
    }
    if |pages| > 1 {
      assert Flat(pages[1..])[0] == pages[1][0];
    }
  }

  lemma {:induction false} ExtendedFront(r: Request, conformity: Byte, done: Objects, pages: seq<Objects>)
    requires ExtendedRest(r, conformity, done, pages)
    ensures ValidSegment(FrontPage(r, conformity, pages))
    ensures |pages| > 1 ==>
              var next := NextRequest(FrontPage(r, conformity, pages));
              && next.Some? && next.value == Request(EXTENDED, pages[1][0].id, true, true, next.value.wrapped)
              && WalkPage(Cursor(next.value.id, next.value.wrapped), Flat(pages[1..])).Some?
  {
    hide Flat, Short, Walk, NoDuplicates, Size, ValidConformity;
    FrontWalk(r, conformity, done, pages);
    PackSizeBound(pages[0]);
  }

  lemma {:induction false} WalkFree(c: Cursor, os: Objects)
    requires Walk(c, os).Some?
    ensures Walk(c.(wrapped := false), os).Some?
    decreases |os|
  {
    if os != [] {
      var w := Advance(c.at, os[0].id, c.wrapped).value;
      if c.wrapped {
        WalkFree(Cursor(os[0].id, w), os[1..]);
      }
    }
  }

  /** Taking one object after another follows the walk. */
  lemma {:induction false} TakeWalking(done: Objects, w: bool, os: Objects)
    requires NoDuplicates(done + os) && Short(done + os)
    requires done != [] ==> Walk(Cursor(done[|done| - 1].id, w), os).Some?
    requires done == [] && os != [] ==> Walk(Cursor(os[0].id, w), os[1..]).Some?
    ensures Take(DefaultLimits, Taken(done, w), os, true).Some?
    ensures var t := Take(DefaultLimits, Taken(done, w), os, true).value;
            && t.objects == done + os
            && (done != [] ==> t.wrapped == Walk(Cursor(done[|done| - 1].id, w), os).value.wrapped)
            && (done == [] && os != [] ==> t.wrapped == Walk(Cursor(os[0].id, w), os[1..]).value.wrapped)
            && (os == [] ==> t.wrapped == w)
    decreases |os|
  {
    if os == [] {
      assert done + os == done;
    } else {
      var more := done + [os[0]];
      assert more + os[1..] == done + os;
      DistinctFit(done + os);
      RoomFor(done, os);
      NotYet(done, os);
      var v := if done == [] then w else Advance(done[|done| - 1].id, os[0].id, w).value;
      TakeWalking(more, v, os[1..]);
    }
  }

  lemma {:induction false} NotYet(done: Objects, os: Objects)
    requires NoDuplicates(done + os) && os != []
    ensures !Has(done, os[0].id)
  {
    var all := done + os;
    forall i | 0 <= i < |done|
      ensures done[i].id != os[0].id
    {
      assert all[i].id != all[|done|].id;
    }
  }

  /** The aggregation's own place in the stream: what it took last, and whether it saw the wrap. */
  ghost predicate InStep(t: Taken, rest: Objects) {
    if t.objects == [] then rest != [] ==> Walk(Cursor(rest[0].id, t.wrapped), rest[1..]).Some?
    else Walk(Cursor(t.objects[|t.objects| - 1].id, t.wrapped), rest).Some?
  }

  lemma {:induction false} TakeExtendedPage(t: Taken, pages: seq<Objects>)
    requires Cut(pages) && NoDuplicates(t.objects + Flat(pages)) && Short(t.objects + Flat(pages)) && InStep(t, Flat(pages))
    ensures var u := Take(DefaultLimits, t, pages[0], true);
            && u.Some? && u.value.objects == t.objects + pages[0] && InStep(u.value, Flat(pages[1..]))
  {
    hide Take;
    FlatParts(pages);
    var p, rest := pages[0], Flat(pages[1..]);
    var all, some := t.objects + Flat(pages), t.objects + p;
    assert some == all[..|some|];
    forall i, j | 0 <= i < j < |some|
      ensures some[i].id != some[j].id
    {
      assert all[i].id != all[j].id;
    }
    forall i | 0 <= i < |some|
      ensures |some[i].value| <= MAX_VALUE
    {
      assert all[i] == some[i];
    }
    if t.objects == [] {
      var c := Cursor(p[0].id, t.wrapped);
      assert Flat(pages)[0] == p[0] && Flat(pages)[1..] == p[1..] + rest;
      WalkAppend(c, p[1..], rest);
      WalkEnd(c, p[1..]);
    } else {
      var c := Cursor(t.objects[|t.objects| - 1].id, t.wrapped);
      WalkAppend(c, p, rest);
      WalkEnd(c, p);
    }
    TakeWalking(t.objects, t.wrapped, p);
    assert some[|some| - 1] == p[|p| - 1];
  }

  /** A walk ends at the last object it passed. */
  lemma {:induction false} WalkEnd(c: Cursor, os: Objects)
    requires Walk(c, os).Some?
    ensures Walk(c, os).value.at == if os == [] then c.at else os[|os| - 1].id
    decreases |os|
  {
    if os != [] {
      WalkEnd(Cursor(os[0].id, Advance(c.at, os[0].id, c.wrapped).value), os[1..]);
    }
  }

  lemma {:induction false} ExtendedGoesOn(r: Request, conformity: Byte, done: Objects, pages: seq<Objects>)
    requires ExtendedRest(r, conformity, done, pages) && |pages| > 1
    ensures NextRequest(FrontPage(r, conformity, pages)).Some?
    ensures ExtendedRest(NextRequest(FrontPage(r, conformity, pages)).value, conformity, done + pages[0], pages[1..])
  {
    hide NextRequest, Walk, WalkPage;
    ExtendedFront(r, conformity, done, pages);
    FlatParts(pages);
    assert done + pages[0] + Flat(pages[1..]) == done + Flat(pages);
  }

  lemma {:induction false} GatherExtended(r: Request, conformity: Byte, t: Taken, pages: seq<Objects>)
    requires ExtendedRest(r, conformity, t.objects, pages) && InStep(t, Flat(pages))
    ensures Gather(DefaultLimits, r, conformity, t, Deal(r, conformity, pages), true).Some?
    ensures Gather(DefaultLimits, r, conformity, t, Deal(r, conformity, pages), true).value.objects == t.objects + Flat(pages)
    ensures |Deal(r, conformity, pages)| == |pages| && Deal(r, conformity, pages)[0].conformity == conformity
    ensures forall i :: 0 <= i < |pages| ==> ValidSegment(Deal(r, conformity, pages)[i]) && Fitting(Deal(r, conformity, pages)[i].objects)
    decreases |pages|
  {
    hide ValidSegment, Take, NextRequest, Walk, WalkPage, InStep, NoDuplicates, Short;
    var s := FrontPage(r, conformity, pages);
    ExtendedFront(r, conformity, t.objects, pages);
    FlatParts(pages);
    TakeExtendedPage(t, pages);
    if |pages| == 1 {
      assert Flat(pages[1..]) == [] && pages[0] + [] == pages[0];
    } else {
      ExtendedGoesOn(r, conformity, t.objects, pages);
      var next := NextRequest(s).value;
      var u := Take(DefaultLimits, t, pages[0], true).value;
      GatherExtended(next, conformity, u, pages[1..]);
      assert t.objects + pages[0] + Flat(pages[1..]) == t.objects + Flat(pages);
      var rest := Deal(next, conformity, pages[1..]);
      assert ([s] + rest)[1..] == rest;
    }
  }

  lemma {:induction false} StartsInStep(start: Byte, os: Objects)
    requires WalkPage(Cursor(start, false), os).Some?
    ensures InStep(Taken([], false), os)
  {
    if os != [] {
      if os[0].id != start {
        WalkFree(Cursor(os[0].id, Advance(start, os[0].id, false).value), os[1..]);
      }
    }
  }

  /** Every legal extended stream, from any start and however it is cut, is decoded and aggregated to exactly itself. */
  lemma {:induction false} ExtendedStreamRoundTrip(start: Byte, conformity: Byte, pages: seq<Objects>)
    requires Pages(pages) && LegalExtended(start, Flat(pages)) && conformity in {0x03, 0x83}
    ensures Cut(pages)
    ensures var first := Request(EXTENDED, start, false, true, false);
            var segments := Deal(first, conformity, pages);
            && |segments| == |pages| && Delivers(segments)
            && Aggregate(first, segments, DefaultLimits, true) == Some(Flat(pages))
  {
    hide ValidSegment, Take, Gather, Walk, WalkPage, InStep, LegalExtended, NoDuplicates, Short;
    var first := Request(EXTENDED, start, false, true, false);
    PagesCut(pages);
    CutIsShort(pages);
    assert [] + Flat(pages) == Flat(pages);
    LegalWalks(start, Flat(pages));
    StartsInStep(start, Flat(pages));
    GatherExtended(first, conformity, Taken([], false), pages);
    AllDeliver(Deal(first, conformity, pages));
    FlatLength(pages);
    DistinctFit(Flat(pages));
  }
}
