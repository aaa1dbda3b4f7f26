/** Read Device Identification, section 6.21 of MODBUS Application Protocol V1.1b3. */
module DeviceIdModel {
  import opened Common

  type Bytes = seq<Byte>

  const FUNCTION: Byte := 0x2b
  const MEI: Byte := 0x0e
  const MAX_PDU := 253
  const MAX_TOLERANT_PDU := 4096
  const MAX_VALUE := 244
  const MAX_SEGMENTS := 256
  const MAX_OBJECTS := 256
  const MAX_AGGREGATE := 62464

  const BASIC: Byte := 1
  const REGULAR: Byte := 2
  const EXTENDED: Byte := 3
  const INDIVIDUAL: Byte := 4

  datatype Request = Request(access: Byte, id: Byte, continuation: bool, extended: bool, wrapped: bool)

  datatype Object = Object(id: Byte, value: Bytes)

  type Objects = seq<Object>

  predicate ValidAccess(access: Byte) {
    BASIC <= access <= INDIVIDUAL
  }

  predicate ValidRequest(r: Request) {
    && ValidAccess(r.access)
    && (if r.access == INDIVIDUAL then !r.continuation && !r.extended && !r.wrapped
        else if r.extended then r.access == EXTENDED && (r.wrapped ==> r.continuation)
        else r.continuation <==> r.id != 0)
  }

  function NewRequest(access: Byte, id: Byte): Option<Request> {
    if !ValidAccess(access) || (access != INDIVIDUAL && id != 0) then None
    else Some(Request(access, id, false, false, false))
  }

  function NewExtendedStreamRequest(id: Byte): Option<Request> {
    var r := Request(EXTENDED, id, false, true, false);
    if ValidRequest(r) then Some(r) else None
  }

  predicate ValidConformity(c: Byte) {
    c in {0x01, 0x02, 0x03, 0x81, 0x82, 0x83}
  }

  predicate Reserved(id: Byte) {
    0x07 <= id < 0x80
  }

  predicate AllowedByAccess(id: Byte, access: Byte) {
    if access == BASIC then id <= 2
    else if access == REGULAR then id <= 6
    else if access == EXTENDED then id <= 6 || id >= 0x80
    else true
  }

  predicate AllowedByConformity(id: Byte, conformity: Byte) {
    var level := conformity % 0x80;
    if level == 1 then id <= 2
    else if level == 2 then id <= 6
    else if level == 3 then id <= 6 || id >= 0x80
    else false
  }

  // ---------- Bytes and objects ----------

  function Size(os: Objects): nat {
    if os == [] then 0 else 2 + |os[0].value| + Size(os[1..])
  }

  function Pack(os: Objects): Bytes
    requires forall o :: o in os ==> |o.value| <= 0xff
  {
    if os == [] then [] else [os[0].id, |os[0].value|] + os[0].value + Pack(os[1..])
  }

  /** Exactly `n` objects that fill the bytes. */
  function Unpack(b: Bytes, n: nat): Option<Objects> {
    if n == 0 then (if b == [] then Some([]) else None)
    else if |b| < 2 || b[1] > MAX_VALUE || 2 + b[1] > |b| then None
    else
      var rest := Unpack(b[2 + b[1]..], n - 1);
      if rest.None? then None else Some([Object(b[0], b[2..2 + b[1]])] + rest.value)
  }

  /** As many objects as there are, and the bytes from the first one that does not fit. */
  function UnpackAll(b: Bytes): (Objects, Bytes)
    decreases |b|
  {
    if |b| < 2 || 2 + b[1] > |b| then ([], b)
    else
      var (os, rest) := UnpackAll(b[2 + b[1]..]);
      ([Object(b[0], b[2..2 + b[1]])] + os, rest)
  }

  // ---------- Segments ----------

  datatype Segment = Segment(request: Request, conformity: Byte, more: bool, next: Byte, objects: Objects)

  /** The step from one object identity to the next: upwards, or once around from the last to the first. */
  function Advance(previous: Byte, next: Byte, wrapped: bool): Option<bool> {
    if next > previous then Some(wrapped)
    else if previous == 0xff && next == 0 && !wrapped then Some(true)
    else None
  }

  datatype Cursor = Cursor(at: Byte, wrapped: bool)

  function Walk(from: Cursor, os: Objects): Option<Cursor>
    decreases |os|
  {
    if os == [] then Some(from)
    else
      var w := Advance(from.at, os[0].id, from.wrapped);
      if w.None? then None else Walk(Cursor(os[0].id, w.value), os[1..])
  }

  /** A page may begin with the very object that was asked for. */
  function WalkPage(from: Cursor, os: Objects): Option<Cursor> {
    if os != [] && os[0].id == from.at then Walk(from, os[1..]) else Walk(from, os)
  }

  predicate Fitting(os: Objects) {
    (forall i :: 0 <= i < |os| ==> |os[i].value| <= MAX_VALUE) && 7 + Size(os) <= MAX_PDU
  }

  predicate NoDuplicates(os: Objects) {
    forall i, j :: 0 <= i < j < |os| ==> os[i].id != os[j].id
  }

  predicate Rising(os: Objects) {
    forall i, j :: 0 <= i < j < |os| ==> os[i].id < os[j].id
  }

  /** Where an extended page ends; the cursor it hands out counts as a step. */
  function ExtendedProgress(s: Segment): Option<bool> {
    if !s.request.extended || s.request.access != EXTENDED || s.conformity % 0x80 != EXTENDED then None
    else if !Fitting(s.objects) || !NoDuplicates(s.objects) then None
    else
      var end := WalkPage(Cursor(s.request.id, s.request.wrapped), s.objects);
      if end.None? then None
      else if !s.more then Some(end.value.wrapped)
      else Advance(end.value.at, s.next, end.value.wrapped)
  }

  predicate StandardObject(r: Request, conformity: Byte, id: Byte) {
    && !Reserved(id) && AllowedByConformity(id, conformity)
    && (r.access != INDIVIDUAL ==> AllowedByAccess(id, r.access))
  }

  predicate ValidStandard(s: Segment)
    requires s.more ==> s.objects != []
  {
    && Fitting(s.objects) && Rising(s.objects)
    && (forall i :: 0 <= i < |s.objects| ==> StandardObject(s.request, s.conformity, s.objects[i].id))
    && (s.request.access != INDIVIDUAL && s.objects != [] ==> s.objects[0].id >= s.request.id)
    && (s.more ==>
          && s.next > s.objects[|s.objects| - 1].id && !Reserved(s.next)
          && AllowedByAccess(s.next, s.request.access) && AllowedByConformity(s.next, s.conformity))
  }

  predicate ValidSegment(s: Segment)
    ensures ValidSegment(s) && s.more ==> s.objects != []
  {
    && ValidRequest(s.request) && ValidConformity(s.conformity) && |s.objects| <= 0xff
    && (!s.more ==> s.next == 0) && (s.more ==> (s.next != 0 || s.request.extended) && s.objects != [])
    && (s.request.access == INDIVIDUAL ==>
          s.conformity >= 0x80 && !s.more && |s.objects| == 1 && s.objects[0].id == s.request.id)
    && (if s.request.extended then ExtendedProgress(s).Some? else ValidStandard(s))
  }

  function DecodeSegment(r: Request, pdu: Bytes): Option<Segment> {
    if !ValidRequest(r) || |pdu| < 7 || |pdu| > MAX_PDU then None
    else if pdu[0] != FUNCTION || pdu[1] != MEI || pdu[2] != r.access || !ValidConformity(pdu[3]) then None
    else if pdu[4] != 0 && pdu[4] != 0xff then None
    else
      var more := pdu[4] == 0xff;
      if (!more && pdu[5] != 0) || (more && pdu[5] == 0 && !r.extended) || (more && pdu[6] == 0) then None
      else
        var os := Unpack(pdu[7..], pdu[6]);
        if os.None? then None
        else
          var s := Segment(r, pdu[3], more, pdu[5], os.value);
          if ValidSegment(s) then Some(s) else None
  }

  function NextRequest(s: Segment): Option<Request> {
    if !ValidSegment(s) || s.request.access == INDIVIDUAL || !s.more then None
    else
      var wrapped := if s.request.extended then ExtendedProgress(s).value else s.request.wrapped;
      Some(Request(s.request.access, s.next, true, s.request.extended, wrapped))
  }

  // ---------- Aggregation ----------

  datatype Limits = Limits(segments: int, objects: int, bytes: int)

  const DefaultLimits := Limits(MAX_SEGMENTS, MAX_OBJECTS, MAX_AGGREGATE)

  predicate ValidLimits(l: Limits) {
    1 <= l.segments <= MAX_SEGMENTS && 1 <= l.objects <= MAX_OBJECTS && 1 <= l.bytes <= MAX_AGGREGATE
  }

  function ValueBytes(os: Objects): nat {
    if os == [] then 0 else ValueBytes(os[..|os| - 1]) + |os[|os| - 1].value|
  }

  predicate ValidFirst(r: Request, extended: bool) {
    if extended then r.access == EXTENDED && r.extended && !r.continuation && !r.wrapped
    else ValidAccess(r.access) && r.access != INDIVIDUAL && r.id == 0 && !r.extended
  }

  /** Whether an object may follow those already taken. */
  predicate Follows(os: Objects, wrapped: bool, o: Object, extended: bool) {
    && !Has(os, o.id)
    && (os == [] || (if extended then Advance(os[|os| - 1].id, o.id, wrapped).Some? else o.id > os[|os| - 1].id))
  }

  datatype Taken = Taken(objects: Objects, wrapped: bool)

  function Take(l: Limits, t: Taken, os: Objects, extended: bool): Option<Taken>
    decreases |os|
  {
    if os == [] then Some(t)
    else if !Follows(t.objects, t.wrapped, os[0], extended) then None
    else if |t.objects| == l.objects || |os[0].value| > l.bytes - ValueBytes(t.objects) then None
    else
      var w := if t.objects != [] && extended then Advance(t.objects[|t.objects| - 1].id, os[0].id, t.wrapped).value else t.wrapped;
      Take(l, Taken(t.objects + [os[0]], w), os[1..], extended)
  }

  function Gather(l: Limits, expected: Request, conformity: Byte, t: Taken, segments: seq<Segment>, extended: bool): Option<Taken>
    decreases |segments|
  {
    if segments == [] then Some(t)
    else
      var s := segments[0];
      if s.request != expected || !ValidSegment(s) || s.conformity != conformity then None
      else
        var u := Take(l, t, s.objects, extended);
        if u.None? then None
        else if s.more != (|segments| > 1) then None
        else if !s.more then u
        else
          var r := NextRequest(s);
          if r.None? then None else Gather(l, r.value, conformity, u.value, segments[1..], extended)
  }

  predicate Has(os: Objects, id: Byte) {
    exists i :: 0 <= i < |os| && os[i].id == id
  }

  predicate HasBasics(os: Objects) {
    Has(os, 0) && Has(os, 1) && Has(os, 2)
  }

  /** The whole object stream, or nothing. */
  function Aggregate(first: Request, segments: seq<Segment>, l: Limits, extended: bool): Option<Objects> {
    if !ValidLimits(l) || !ValidFirst(first, extended) || segments == [] || |segments| > l.segments then None
    else
      var t := Gather(l, first, segments[0].conformity, Taken([], false), segments, extended);
      if t.None? then None
      else if !extended && !HasBasics(t.value.objects) then None
      else Some(t.value.objects)
  }

  // ---------- Tolerant pages ----------

  datatype Anomaly =
    | OversizePage | CountOnlyPage | ObjectCountMismatch | OutsideCategory | OutsideConformity | ReservedObject
    | OversizeValue | ObjectOrder | DuplicateObject | TruncatedObject | AccessMismatch | ConformityValue | MoreFollowsValue
    | NextWithoutMore | MoreWithoutProgress
    | ConformityChange | MandatoryMissing | ContinuationUnavailable | PageLimit | AggregateLimit

  function Add(list: seq<Anomaly>, a: Anomaly): seq<Anomaly> {
    if a in list then list else list + [a]
  }

  function AddIf(list: seq<Anomaly>, condition: bool, a: Anomaly): seq<Anomaly> {
    if condition then Add(list, a) else list
  }

  datatype Page = Page(request: Request, pdu: Bytes, conformity: Byte, moreValue: Byte, next: Byte, objects: Objects, anomalies: seq<Anomaly>)

  predicate CursorAdvances(last: Byte, next: Byte, extended: bool) {
    next > last || (extended && last == 0xff && next == 0)
  }

  /** What is odd about one object, after those before it in the page. */
  function ObjectAnomalies(r: Request, conformity: Byte, before: Objects, o: Object, list: seq<Anomaly>): seq<Anomaly> {
    var a := AddIf(list, |o.value| > MAX_VALUE, OversizeValue);
    var b := AddIf(a, Has(before, o.id), DuplicateObject);
    var c := AddIf(b, before != [] && !CursorAdvances(before[|before| - 1].id, o.id, r.extended), ObjectOrder);
    var d := AddIf(c, Reserved(o.id), ReservedObject);
    var e := AddIf(d, if r.access == INDIVIDUAL then o.id != r.id else !AllowedByAccess(o.id, r.access), OutsideCategory);
    AddIf(e, ValidConformity(conformity) && !AllowedByConformity(o.id, conformity), OutsideConformity)
  }

  function PageAnomalies(r: Request, conformity: Byte, os: Objects, n: nat, list: seq<Anomaly>): seq<Anomaly>
    requires n <= |os|
  {
    if n == 0 then list
    else ObjectAnomalies(r, conformity, os[..n - 1], os[n - 1], PageAnomalies(r, conformity, os, n - 1, list))
  }

  function HeaderAnomalies(r: Request, pdu: Bytes): seq<Anomaly>
    requires |pdu| >= 7
  {
    var a := AddIf([], |pdu| > MAX_PDU, OversizePage);
    var b := AddIf(a, pdu[2] != r.access, AccessMismatch);
    var c := AddIf(b, !ValidConformity(pdu[3]), ConformityValue);
    var d := AddIf(c, pdu[4] != 0 && pdu[4] != 0xff, MoreFollowsValue);
    AddIf(d, pdu[4] == 0 && pdu[5] != 0, NextWithoutMore)
  }

  function FooterAnomalies(r: Request, pdu: Bytes, os: Objects, list: seq<Anomaly>): seq<Anomaly>
    requires |pdu| >= 7
  {
    var a := AddIf(list, pdu[6] != |os|, ObjectCountMismatch);
    var b := AddIf(a, |os| == 1 && |os[0].value| == 1 && pdu[6] > |os|, CountOnlyPage);
    AddIf(b, pdu[4] != 0 && (os == [] || !CursorAdvances(os[|os| - 1].id, pdu[5], r.extended)), MoreWithoutProgress)
  }

  function DecodePage(r: Request, pdu: Bytes): Option<Page> {
    if !ValidRequest(r) || pdu == [] || pdu[0] != FUNCTION then None
    else if |pdu| < 7 || |pdu| > MAX_TOLERANT_PDU || pdu[1] != MEI then None
    else
      var (os, rest) := UnpackAll(pdu[7..]);
      var a := PageAnomalies(r, pdu[3], os, |os|, HeaderAnomalies(r, pdu));
      var b := AddIf(a, rest != [], TruncatedObject);
      Some(Page(r, pdu, pdu[3], pdu[4], pdu[5], os, FooterAnomalies(r, pdu, os, b)))
  }

  function NextPageRequest(p: Page): Option<Request> {
    var r := p.request;
    if r.access == INDIVIDUAL || p.moreValue == 0 then None
    else if p.next > r.id then
      var n := Request(r.access, p.next, true, r.extended, r.wrapped);
      if ValidRequest(n) then Some(n) else None
    else if r.extended && !r.wrapped && p.next < r.id then
      var n := Request(r.access, p.next, true, r.extended, true);
      if ValidRequest(n) then Some(n) else None
    else None
  }

  // ---------- Tolerant traversal ----------

  datatype Traversal = Traversal(
    limits: Limits, expected: Request, pages: seq<Page>, conformity: Byte, objects: Objects, anomalies: seq<Anomaly>,
    closed: bool, complete: bool)

  function StartTraversal(first: Request, l: Limits): Option<Traversal> {
    if !ValidLimits(l) || !ValidRequest(first) || first.continuation || first.wrapped then None
    else Some(Traversal(l, first, [], 0, [], [], false, false))
  }

  function CloseTraversal(t: Traversal, complete: bool): Traversal
    requires t.pages != []
  {
    var first := t.pages[0].request;
    t.(closed := true, complete := complete,
       anomalies := AddIf(t.anomalies, !first.extended && first.access != INDIVIDUAL && !HasBasics(t.objects), MandatoryMissing))
  }

  /** The first occurrence of each object, as long as the limits allow; the second part says whether they did. */
  function Collect(l: Limits, taken: Objects, list: seq<Anomaly>, os: Objects): (Objects, seq<Anomaly>, bool)
    decreases |os|
  {
    if os == [] then (taken, list, true)
    else if Has(taken, os[0].id) then Collect(l, taken, Add(list, DuplicateObject), os[1..])
    else if |taken| == l.objects || |os[0].value| > l.bytes - ValueBytes(taken) then (taken, Add(list, AggregateLimit), false)
    else Collect(l, taken + [os[0]], list, os[1..])
  }

  function AddAll(list: seq<Anomaly>, more: seq<Anomaly>): seq<Anomaly>
    decreases |more|
  {
    if more == [] then list else AddAll(Add(list, more[0]), more[1..])
  }

  /** What follows a page: the end of the traversal, or the request for the next page. */
  function Settle(t: Traversal, p: Page, room: bool): Traversal
    requires t.pages != []
  {
    if !room then CloseTraversal(t, false)
    else if p.moreValue == 0 then CloseTraversal(t, true)
    else
      var next := NextPageRequest(p);
      if next.None? then CloseTraversal(t.(anomalies := Add(t.anomalies, ContinuationUnavailable)), false)
      else if |t.pages| == t.limits.segments then CloseTraversal(t.(anomalies := Add(t.anomalies, PageLimit)), false)
      else t.(expected := next.value)
  }

  function AddPage(t: Traversal, r: Request, pdu: Bytes): Option<Traversal> {
    var page := DecodePage(r, pdu);
    if t.closed || r != t.expected || page.None? then None
    else
      var p := page.value;
      var changed := t.pages != [] && p.conformity != t.conformity;
      var list := AddAll(AddIf(t.anomalies, changed, ConformityChange), p.anomalies);
      var (os, noted, room) := Collect(t.limits, t.objects, list, p.objects);
      var u := t.(pages := t.pages + [p], conformity := if t.pages == [] then p.conformity else t.conformity, objects := os, anomalies := noted);
      Some(Settle(u, p, room))
  }

  /** One page after another; a page that does not belong ends the traversal without a result. */
  function AddPages(t: Traversal, pages: seq<(Request, Bytes)>): Option<Traversal>
    decreases |pages|
  {
    if pages == [] then Some(t)
    else
      var u := AddPage(t, pages[0].0, pages[0].1);
      if u.None? then None else AddPages(u.value, pages[1..])
  }

  datatype Result = Result(complete: bool, objects: Objects, anomalies: seq<Anomaly>)

  function AggregateTolerant(first: Request, pages: seq<(Request, Bytes)>, l: Limits): Option<Result> {
    var t := StartTraversal(first, l);
    if t.None? || pages == [] || |pages| > l.segments then None
    else
      var u := AddPages(t.value, pages);
      if u.None? || !u.value.closed then None
      else Some(Result(u.value.complete, u.value.objects, u.value.anomalies))
  }
}
