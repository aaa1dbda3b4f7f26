/** Device Identification as the source runs it, proved against the value functions. */
module DeviceIdDecoding {
  import opened Common
  import opened DeviceIdModel

  // ---------- Strict pages ----------

  /** Reads exactly `count` objects from the seventh byte on. */
  method ReadObjects(pdu: Bytes, count: nat) returns (objects: Option<Objects>)
    requires |pdu| >= 7
    ensures objects == Unpack(pdu[7..], count)
  {
    hide Unpack, Left;
    var os, cursor := [], 7;
    LeftStart(pdu[7..], count);
    for index := 0 to count
      invariant 7 <= cursor <= |pdu|
      invariant Left(pdu[7..], count, pdu[cursor..], count - index, os)
    {
      var here := pdu[cursor..];
      LeftStep(pdu[7..], count, here, count - index, os);
      if cursor + 2 > |pdu| {
        return None;
      }
      var id, length := pdu[cursor], pdu[cursor + 1];
      cursor := cursor + 2;
      if length > MAX_VALUE || cursor + length > |pdu| {
        return None;
      }
      var value := pdu[cursor..cursor + length];
      assert here[2..2 + length] == value && here[2 + length..] == pdu[cursor + length..];
      cursor := cursor + length;
      os := os + [Object(id, value)];
    }
    LeftEnd(pdu[7..], count, pdu[cursor..], os);
    if cursor != |pdu| {
      return None;
    }
    return Some(os);
  }

  /** With `os` read, the objects in `all` are those and the `n` in `b`. */
  ghost predicate Left(all: Bytes, count: nat, b: Bytes, n: nat, os: Objects) {
    Unpack(all, count) == if Unpack(b, n).None? then None else Some(os + Unpack(b, n).value)
  }

  lemma {:induction false} LeftStart(all: Bytes, count: nat)
    ensures Left(all, count, all, count, [])
  {
    if Unpack(all, count).Some? {
      assert [] + Unpack(all, count).value == Unpack(all, count).value;
    }
  }

  lemma {:induction false} LeftStep(all: Bytes, count: nat, b: Bytes, n: nat, os: Objects)
    requires n > 0 && Left(all, count, b, n, os)
    ensures |b| < 2 || b[1] > MAX_VALUE || 2 + b[1] > |b| ==> Unpack(all, count).None?
    ensures |b| >= 2 && b[1] <= MAX_VALUE && 2 + b[1] <= |b| ==>
              Left(all, count, b[2 + b[1]..], n - 1, os + [Object(b[0], b[2..2 + b[1]])])
  {
    if |b| >= 2 && b[1] <= MAX_VALUE && 2 + b[1] <= |b| {
      var o, rest := Object(b[0], b[2..2 + b[1]]), Unpack(b[2 + b[1]..], n - 1);
      if rest.Some? {
        assert os + ([o] + rest.value) == os + [o] + rest.value;
      }
    }
  }

  lemma {:induction false} LeftEnd(all: Bytes, count: nat, b: Bytes, os: Objects)
    requires Left(all, count, b, 0, os)
    ensures Unpack(all, count) == if b == [] then Some(os) else None
  {
    assert os + [] == os;
  }

  /** The order, size and category tests of a standard page, one object after another. */
  method CheckStandard(s: Segment) returns (ok: bool)
    requires s.more ==> s.objects != []
    ensures ok == ValidStandard(s)
  {
    hide Size, AllowedByAccess, AllowedByConformity, Reserved;
    var previous, size := 0, 7;
    assert s.objects[..0] == [];
    NoObjects();
    for i := 0 to |s.objects|
      invariant size == 7 + Size(s.objects[..i]) <= MAX_PDU
      invariant i > 0 ==> previous == s.objects[i - 1].id && (s.request.access != INDIVIDUAL ==> s.objects[0].id >= s.request.id)
      invariant forall k :: 0 <= k < i ==> |s.objects[k].value| <= MAX_VALUE && StandardObject(s.request, s.conformity, s.objects[k].id)
      invariant forall j, k :: 0 <= j < k < i ==> s.objects[j].id < s.objects[k].id
    {
      var o := s.objects[i];
      SizeStep(s.objects, i);
      if |o.value| > MAX_VALUE {
        return false;
      }
      size := size + 2 + |o.value|;
      if size > MAX_PDU || (i > 0 && o.id <= previous) || Reserved(o.id) {
        return false;
      }
      if s.request.access != INDIVIDUAL && ((i == 0 && o.id < s.request.id) || !AllowedByAccess(o.id, s.request.access)) {
        return false;
      }
      if !AllowedByConformity(o.id, s.conformity) {
        return false;
      }
      previous := o.id;
    }
    assert s.objects[..|s.objects|] == s.objects;
    return !s.more || (s.next > s.objects[|s.objects| - 1].id && !Reserved(s.next)
                       && AllowedByAccess(s.next, s.request.access) && AllowedByConformity(s.next, s.conformity));
  }

  lemma {:induction false} NoObjects()
    ensures Size([]) == 0
  {
  }

  lemma {:induction false} SizeAppend(a: Objects, b: Objects)
    ensures Size(a + b) == Size(a) + Size(b)
    decreases |a|
  {
    if a == [] {
      assert a + b == b;
    } else {
      assert (a + b)[1..] == a[1..] + b;
      SizeAppend(a[1..], b);
    }
  }

  lemma {:induction false} SizeStep(os: Objects, i: nat)
    requires i < |os|
    ensures Size(os[..i + 1]) == Size(os[..i]) + 2 + |os[i].value| <= Size(os)
  {
    assert os[..i + 1] == os[..i] + [os[i]] && os == os[..i + 1] + os[i + 1..];
    SizeAppend(os[..i], [os[i]]);
    SizeAppend(os[..i + 1], os[i + 1..]);
  }

  /** The progress test of an extended page, with the wrap flag it ends on. */
  method CheckExtended(s: Segment) returns (wrapped: Option<bool>)
    ensures wrapped == ExtendedProgress(s)
  {
    hide Size, Walk;
    if !s.request.extended || s.request.access != EXTENDED || s.conformity % 0x80 != EXTENDED {
      return None;
    }
    var os := s.objects;
    var previous, flag, have, size := s.request.id, s.request.wrapped, false, 7;
    var seen := {};
    ghost var from := Cursor(s.request.id, s.request.wrapped);
    assert os[..0] == [];
    NoObjects();
    WalkNothing(from);
    for i := 0 to |os|
      invariant size == 7 + Size(os[..i]) <= MAX_PDU && seen == (set k | 0 <= k < i :: os[k].id) && have == (i > 0)
      invariant forall k :: 0 <= k < i ==> |os[k].value| <= MAX_VALUE
      invariant forall j, k :: 0 <= j < k < i ==> os[j].id != os[k].id
      invariant WalkPage(from, os[..i]) == Some(Cursor(previous, flag))
    {
      var o := os[i];
      SizeStep(os, i);
      WalkPageStep(from, os, i);
      if |o.value| > MAX_VALUE {
        return None;
      }
      size := size + 2 + |o.value|;
      if size > MAX_PDU {
        return None;
      }
      if o.id in seen {
        var k :| 0 <= k < i && os[k].id == o.id;
        return None;
      }
      seen := seen + {o.id};
      if have || o.id != previous {
        var next := Advance(previous, o.id, flag);
        if next.None? {
          return None;
        }
        flag, previous := next.value, o.id;
      }
      have := true;
    }
    assert os[..|os|] == os;
    return if s.more then Advance(previous, s.next, flag) else Some(flag);
  }

  lemma {:induction false} WalkNothing(from: Cursor)
    ensures WalkPage(from, []) == Some(from)
  {
  }

  lemma {:induction false} WalkFails(from: Cursor, a: Objects, b: Objects)
    requires Walk(from, a).None?
    ensures Walk(from, a + b).None?
    decreases |a|
  {
    assert (a + b)[1..] == a[1..] + b;
    var w := Advance(from.at, a[0].id, from.wrapped);
    if w.Some? {
      WalkFails(Cursor(a[0].id, w.value), a[1..], b);
    }
  }

  lemma {:induction false} WalkOne(from: Cursor, a: Objects, o: Object)
    requires Walk(from, a).Some?
    ensures var c := Walk(from, a).value;
            Walk(from, a + [o]) == var w := Advance(c.at, o.id, c.wrapped); if w.None? then None else Some(Cursor(o.id, w.value))
    decreases |a|
  {
    if a == [] {
      assert a + [o] == [o] && [o][1..] == [];
    } else {
      assert (a + [o])[1..] == a[1..] + [o];
      WalkOne(Cursor(a[0].id, Advance(from.at, a[0].id, from.wrapped).value), a[1..], o);
    }
  }

  /** One object further along a page; a page that fails so far fails as a whole. */
  lemma {:induction false} WalkPageStep(from: Cursor, os: Objects, i: nat)
    requires i < |os| && WalkPage(from, os[..i]).Some?
    ensures var c, o := WalkPage(from, os[..i]).value, os[i];
            && (i == 0 && o.id == from.at ==> WalkPage(from, os[..i + 1]) == Some(c))
            && (!(i == 0 && o.id == from.at) ==>
                  var w := Advance(c.at, o.id, c.wrapped);
                  && (w.Some? ==> WalkPage(from, os[..i + 1]) == Some(Cursor(o.id, w.value)))
                  && (w.None? ==> WalkPage(from, os).None?))
  {
    var a, o := os[..i], os[i];
    assert os[..i + 1] == a + [o] && os == os[..i + 1] + os[i + 1..];
    var skip := os[0].id == from.at;
    if i == 0 {
      assert a == [] && a + [o] == [o] && [o][1..] == [];
      WalkOne(from, [], o);
      if !skip && Walk(from, [o]).None? {
        assert os == [o] + os[1..];
        WalkFails(from, [o], os[1..]);
      }
    } else {
      var b := if skip then a[1..] else a;
      assert a[0] == os[0] && (a + [o])[1..] == a[1..] + [o];
      WalkOne(from, b, o);
      if Walk(from, b + [o]).None? {
        assert os[1..] == a[1..] + [o] + os[i + 1..];
        WalkFails(from, b + [o], os[i + 1..]);
      }
    }
  }

  /** The tests of a page that are not about the order of its objects, then those that are. */
  method CheckSegment(s: Segment) returns (ok: bool)
    ensures ok == ValidSegment(s)
  {
    hide ValidStandard, ExtendedProgress, ValidRequest, ValidConformity;
    if !ValidRequest(s.request) || !ValidConformity(s.conformity) || |s.objects| > 0xff {
      return false;
    }
    if (!s.more && s.next != 0) || (s.more && s.next == 0 && !s.request.extended) || (s.more && |s.objects| == 0) {
      return false;
    }
    if s.request.access == INDIVIDUAL && (s.conformity < 0x80 || s.more || |s.objects| != 1 || s.objects[0].id != s.request.id) {
      return false;
    }
    if s.request.extended {
      var wrapped := CheckExtended(s);
      return wrapped.Some?;
    }
    ok := CheckStandard(s);
  }

  /** Decodes one exact response: the header, the announced objects, then every test of a page. */
  method DecodeDeviceIDSegment(r: Request, pdu: Bytes) returns (segment: Option<Segment>)
    ensures segment == DecodeSegment(r, pdu)
  {
    hide ValidSegment, Unpack, ValidRequest, ValidConformity;
    if !ValidRequest(r) || |pdu| < 7 || |pdu| > MAX_PDU || pdu[0] != FUNCTION || pdu[1] != MEI || pdu[2] != r.access {
      return None;
    }
    if !ValidConformity(pdu[3]) || (pdu[4] != 0 && pdu[4] != 0xff) {
      return None;
    }
    var more, next := pdu[4] == 0xff, pdu[5];
    if (!more && next != 0) || (more && next == 0 && !r.extended) || (more && pdu[6] == 0) {
      return None;
    }
    var objects := ReadObjects(pdu, pdu[6]);
    if objects.None? {
      return None;
    }
    var s := Segment(r, pdu[3], more, next, objects.value);
    var ok := CheckSegment(s);
    return if ok then Some(s) else None;
  }

  /** The request for the page after this one, which is tested again first. */
  method NextDeviceIDRequest(s: Segment) returns (next: Option<Request>)
    ensures next == NextRequest(s)
  {
    hide ValidSegment, ExtendedProgress;
    var ok := CheckSegment(s);
    if !ok || s.request.access == INDIVIDUAL || !s.more {
      return None;
    }
    var wrapped := s.request.wrapped;
    if s.request.extended {
      ExtendedIsChecked(s);
      var end := CheckExtended(s);
      wrapped := end.value;
    }
    return Some(Request(s.request.access, s.next, true, s.request.extended, wrapped));
  }

  lemma {:induction false} ExtendedIsChecked(s: Segment)
    requires ValidSegment(s) && s.request.extended
    ensures ExtendedProgress(s).Some?
  {
    hide ExtendedProgress;
  }

  // ---------- Aggregation ----------

  method TakeObjects(l: Limits, t: Taken, os: Objects, extended: bool) returns (taken: Option<Taken>)
    ensures taken == Take(l, t, os, extended)
  {
    var u := t;
    assert os[0..] == os;
    for i := 0 to |os|
      invariant Take(l, t, os, extended) == Take(l, u, os[i..], extended)
    {
      var o := os[i];
      assert os[i..][0] == o && os[i..][1..] == os[i + 1..];
      var wrapped, progress := u.wrapped, true;
      if u.objects != [] {
        var last := u.objects[|u.objects| - 1].id;
        if extended {
          var next := Advance(last, o.id, u.wrapped);
          progress := next.Some?;
          wrapped := if next.Some? then next.value else u.wrapped;
        } else {
          progress := o.id > last;
        }
      }
      if Has(u.objects, o.id) || !progress {
        return None;
      }
      if |u.objects| == l.objects || |o.value| > l.bytes - ValueBytes(u.objects) {
        return None;
      }
      u := Taken(u.objects + [o], wrapped);
    }
    return Some(u);
  }

  method AggregateDeviceID(first: Request, segments: seq<Segment>, l: Limits, extended: bool) returns (objects: Option<Objects>)
    ensures objects == Aggregate(first, segments, l, extended)
  {
    hide Take, NextRequest, ValidSegment, HasBasics;
    if !ValidLimits(l) || !ValidFirst(first, extended) || |segments| == 0 || |segments| > l.segments {
      return None;
    }
    var expected, t, conformity := first, Taken([], false), segments[0].conformity;
    ghost var result := Gather(l, first, conformity, t, segments, extended);
    assert segments[0..] == segments;
    for i := 0 to |segments|
      invariant i < |segments| ==> result == Gather(l, expected, conformity, t, segments[i..], extended)
      invariant i == |segments| ==> result == Some(t)
    {
      var s := segments[i];
      assert segments[i..][0] == s && segments[i..][1..] == segments[i + 1..];
      if s.request != expected {
        return None;
      }
      var ok := CheckSegment(s);
      if !ok || s.conformity != conformity {
        return None;
      }
      var taken := TakeObjects(l, t, s.objects, extended);
      if taken.None? {
        return None;
      }
      t := taken.value;
      var last := i == |segments| - 1;
      if s.more {
        if last {
          return None;
        }
        var next := NextDeviceIDRequest(s);
        if next.None? {
          return None;
        }
        expected := next.value;
      } else if !last {
        return None;
      }
    }
    if !extended && !HasBasics(t.objects) {
      return None;
    }
    return Some(t.objects);
  }

  // ---------- Tolerant pages ----------

  /** Decodes what parses, and notes what is odd about it as it goes. */
  method ReadPage(r: Request, pdu: Bytes) returns (page: Option<Page>)
    ensures page == DecodePage(r, pdu)
  {
    hide ObjectAnomalies, HeaderAnomalies, FooterAnomalies, UnpackAll, AllLeft, PageAnomalies;
    if !ValidRequest(r) || |pdu| == 0 || pdu[0] != FUNCTION || |pdu| < 7 || |pdu| > MAX_TOLERANT_PDU || pdu[1] != MEI {
      return None;
    }
    ghost var header := HeaderAnomalies(r, pdu);
    var list := HeaderAnomalies(r, pdu);
    var os, cursor, truncated := [], 7, false;
    AllLeftStart(pdu[7..]);
    NoPageAnomalies(r, pdu[3], header);
    while cursor < |pdu| && !truncated
      invariant 7 <= cursor <= |pdu|
      invariant AllLeft(pdu[7..], pdu[cursor..], os)
      invariant list == PageAnomalies(r, pdu[3], os, |os|, header)
      invariant truncated ==> pdu[cursor..] != [] && (cursor + 2 > |pdu| || cursor + 2 + pdu[cursor + 1] > |pdu|)
      decreases |pdu| - cursor, !truncated
    {
      var here := pdu[cursor..];
      AllLeftStep(pdu[7..], here, os);
      if cursor + 2 > |pdu| || cursor + 2 + pdu[cursor + 1] > |pdu| {
        truncated := true;
      } else {
        var length := pdu[cursor + 1];
        var o := Object(pdu[cursor], pdu[cursor + 2..cursor + 2 + length]);
        SliceOfTail(pdu, cursor, length);
        list := ObjectAnomalies(r, pdu[3], os, o, list);
        SamePrefix(r, pdu[3], os, o, header);
        os := os + [o];
        cursor := cursor + 2 + length;
      }
    }
    AllLeftEnd(pdu[7..], pdu[cursor..], os);
    if truncated {
      list := Add(list, TruncatedObject);
    }
    return Some(Page(r, pdu, pdu[3], pdu[4], pdu[5], os, FooterAnomalies(r, pdu, os, list)));
  }

  lemma {:induction false} SliceOfTail(pdu: Bytes, cursor: nat, length: nat)
    requires cursor + 2 + length <= |pdu|
    ensures var here := pdu[cursor..];
            here[2..2 + length] == pdu[cursor + 2..cursor + 2 + length] && here[2 + length..] == pdu[cursor + 2 + length..]
  {
  }

  /** With `os` read, what `all` holds is those and what `b` holds. */
  ghost predicate AllLeft(all: Bytes, b: Bytes, os: Objects) {
    UnpackAll(all) == (os + UnpackAll(b).0, UnpackAll(b).1)
  }

  lemma {:induction false} AllLeftStart(all: Bytes)
    ensures AllLeft(all, all, [])
  {
    assert [] + UnpackAll(all).0 == UnpackAll(all).0;
  }

  lemma {:induction false} AllLeftStep(all: Bytes, b: Bytes, os: Objects)
    requires AllLeft(all, b, os)
    ensures |b| >= 2 && 2 + b[1] <= |b| ==> AllLeft(all, b[2 + b[1]..], os + [Object(b[0], b[2..2 + b[1]])])
  {
    if |b| >= 2 && 2 + b[1] <= |b| {
      var o, rest := Object(b[0], b[2..2 + b[1]]), UnpackAll(b[2 + b[1]..]);
      assert os + ([o] + rest.0) == os + [o] + rest.0;
    }
  }

  lemma {:induction false} AllLeftEnd(all: Bytes, b: Bytes, os: Objects)
    requires AllLeft(all, b, os) && (|b| < 2 || 2 + b[1] > |b|)
    ensures UnpackAll(all) == (os, b)
  {
    assert os + [] == os;
  }

  lemma {:induction false} NoPageAnomalies(r: Request, conformity: Byte, list: seq<Anomaly>)
    ensures PageAnomalies(r, conformity, [], 0, list) == list
  {
  }

  lemma {:induction false} PrefixAnomalies(r: Request, conformity: Byte, os: Objects, o: Object, n: nat, list: seq<Anomaly>)
    requires n <= |os|
    ensures PageAnomalies(r, conformity, os + [o], n, list) == PageAnomalies(r, conformity, os, n, list)
    decreases n
  {
    hide ObjectAnomalies;
    if n > 0 {
      PrefixAnomalies(r, conformity, os, o, n - 1, list);
      assert (os + [o])[..n - 1] == os[..n - 1];
    }
  }

  lemma {:induction false} SamePrefix(r: Request, conformity: Byte, os: Objects, o: Object, list: seq<Anomaly>)
    ensures PageAnomalies(r, conformity, os + [o], |os| + 1, list) ==
              ObjectAnomalies(r, conformity, os, o, PageAnomalies(r, conformity, os, |os|, list))
  {
    hide ObjectAnomalies;
    PrefixAnomalies(r, conformity, os, o, |os|, list);
    assert (os + [o])[..|os|] == os;
  }

  // ---------- Tolerant traversal ----------

  class DeviceIDTolerantTraversal {
    const limits: Limits
    var expected: Request
    var pages: seq<Page>
    var conformity: Byte
    var objects: Objects
    var anomalies: seq<Anomaly>
    var seen: set<Byte>
    var valueBytes: nat
    var closed: bool
    var complete: bool

    ghost function View(): Traversal
      reads this
    {
      Traversal(limits, expected, pages, conformity, objects, anomalies, closed, complete)
    }

    ghost predicate Valid()
      reads this
    {
      valueBytes == ValueBytes(objects) && forall id :: id in seen <==> Has(objects, id)
    }

    constructor (first: Request, l: Limits)
      requires StartTraversal(first, l).Some?
      ensures Valid() && View() == StartTraversal(first, l).value
    {
      limits, expected, conformity := l, first, 0;
      pages, objects, anomalies := [], [], [];
      seen, valueBytes, closed, complete := {}, 0, false, false;
    }

    method Note(a: Anomaly)
      modifies `anomalies
      ensures anomalies == Add(old(anomalies), a)
    {
      if a !in anomalies {
        anomalies := anomalies + [a];
      }
    }

    method NoteAll(list: seq<Anomaly>)
      modifies `anomalies
      ensures anomalies == AddAll(old(anomalies), list)
    {
      assert list[0..] == list;
      for i := 0 to |list|
        invariant AddAll(anomalies, list[i..]) == AddAll(old(anomalies), list)
      {
        assert list[i..][0] == list[i] && list[i..][1..] == list[i + 1..];
        Note(list[i]);
      }
    }

    method Close(done: bool)
      requires Valid() && pages != []
      modifies `closed, `complete, `anomalies
      ensures Valid() && View() == CloseTraversal(old(View()), done)
    {
      closed, complete := true, done;
      var first := pages[0].request;
      if !first.extended && first.access != INDIVIDUAL {
        var missing := false;
        for id: int := 0 to 3
          invariant missing <==> exists j: Byte :: j < id && j !in seen
          invariant Valid() && anomalies == old(anomalies) && closed && complete == done
        {
          var b: Byte := id;
          if b !in seen {
            missing := true;
          }
        }
        Missing(seen, missing);
        if missing {
          Note(MandatoryMissing);
        }
      }
    }

    /** Keeps the first occurrence of each object while the limits allow. */
    method CollectObjects(os: Objects) returns (room: bool)
      requires Valid()
      modifies `objects, `anomalies, `seen, `valueBytes
      ensures Valid() && (objects, anomalies, room) == Collect(limits, old(objects), old(anomalies), os)
    {
      hide Collect, Has, ValueBytes;
      assert os[0..] == os;
      for i := 0 to |os|
        invariant Valid() && Collect(limits, objects, anomalies, os[i..]) == Collect(limits, old(objects), old(anomalies), os)
      {
        var o := os[i];
        assert os[i..][0] == o && os[i..][1..] == os[i + 1..];
        CollectStep(limits, objects, anomalies, os[i..]);
        if o.id in seen {
          Note(DuplicateObject);
        } else {
          if |objects| == limits.objects || |o.value| > limits.bytes - valueBytes {
            Note(AggregateLimit);
            return false;
          }
          HasMore(objects, o);
          seen := seen + {o.id};
          valueBytes := valueBytes + |o.value|;
          objects := objects + [o];
        }
      }
      CollectNone(limits, objects, anomalies);
      return true;
    }

    method SettlePage(p: Page, room: bool)
      requires Valid() && pages != []
      modifies `closed, `complete, `anomalies, `expected
      ensures Valid() && View() == Settle(old(View()), p, room)
    {
      hide NextPageRequest, CloseTraversal;
      if !room {
        Close(false);
        return;
      }
      if p.moreValue == 0 {
        Close(true);
        return;
      }
      var next := NextPageRequest(p);
      if next.None? {
        Note(ContinuationUnavailable);
        Close(false);
        return;
      }
      if |pages| == limits.segments {
        Note(PageLimit);
        Close(false);
        return;
      }
      expected := next.value;
    }

    method AddPage(r: Request, pdu: Bytes) returns (ok: bool)
      requires Valid()
      modifies this
      ensures Valid() && ok == DeviceIdModel.AddPage(old(View()), r, pdu).Some?
      ensures View() == if ok then DeviceIdModel.AddPage(old(View()), r, pdu).value else old(View())
    {
      hide DecodePage, Collect, AddAll, Settle, Has, ValueBytes;
      if closed || r != expected {
        return false;
      }
      var decoded := ReadPage(r, pdu);
      if decoded.None? {
        return false;
      }
      var p := decoded.value;
      if pages == [] {
        conformity := p.conformity;
      } else if p.conformity != conformity {
        Note(ConformityChange);
      }
      pages := pages + [p];
      NoteAll(p.anomalies);
      var room := CollectObjects(p.objects);
      SettlePage(p, room);
      return true;
    }
  }

  lemma {:induction false} CollectStep(l: Limits, taken: Objects, list: seq<Anomaly>, os: Objects)
    requires os != []
    ensures Collect(l, taken, list, os) ==
              if Has(taken, os[0].id) then Collect(l, taken, Add(list, DuplicateObject), os[1..])
              else if |taken| == l.objects || |os[0].value| > l.bytes - ValueBytes(taken) then (taken, Add(list, AggregateLimit), false)
              else Collect(l, taken + [os[0]], list, os[1..])
  {
  }

  lemma {:induction false} CollectNone(l: Limits, taken: Objects, list: seq<Anomaly>)
    ensures Collect(l, taken, list, []) == (taken, list, true)
  {
  }

  lemma {:induction false} Missing(seen: set<Byte>, missing: bool)
    requires missing <==> exists j: Byte :: j < 3 && j !in seen
    ensures missing <==> !(0 in seen && 1 in seen && 2 in seen)
  {
    if missing {
      var j: Byte :| j < 3 && j !in seen;
      assert j == 0 || j == 1 || j == 2;
    }
  }

  lemma {:induction false} HasMore(os: Objects, o: Object)
    ensures forall id: Byte :: Has(os + [o], id) <==> Has(os, id) || id == o.id
    ensures ValueBytes(os + [o]) == ValueBytes(os) + |o.value|
  {
    var all := os + [o];
    assert all[..|os|] == os;
    forall id: Byte
      ensures Has(all, id) <==> Has(os, id) || id == o.id
    {
      if Has(os, id) {
        var i :| 0 <= i < |os| && os[i].id == id;
        assert all[i].id == id;
      }
      assert all[|os|].id == o.id;
    }
  }
}
