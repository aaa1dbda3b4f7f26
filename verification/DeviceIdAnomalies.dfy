/** What tolerant decoding notes about a page: exactly what is odd about it. */
module DeviceIdAnomalies {
  import opened Common
  import opened DeviceIdModel
  import opened DeviceIdPages

  // ---------- Noting ----------

  lemma {:induction false} Noted(list: seq<Anomaly>, condition: bool, b: Anomaly, a: Anomaly)
    ensures a in AddIf(list, condition, b) <==> a in list || (condition && a == b)
  {
  }

  // ---------- One object ----------

  /** What is odd about object `i` of a page. */
  ghost predicate OddObject(r: Request, conformity: Byte, os: Objects, i: nat, a: Anomaly)
    requires i < |os|
  {
    match a
    case OversizeValue => |os[i].value| > 244
    case DuplicateObject => exists j :: 0 <= j < i && os[j].id == os[i].id
    case ObjectOrder => i > 0 && os[i].id <= os[i - 1].id && !(r.extended && os[i - 1].id == 0xff && os[i].id == 0)
    case ReservedObject => 0x07 <= os[i].id <= 0x7f
    case OutsideCategory => if r.access == 4 then os[i].id != r.id else Category(os[i].id) > r.access
    case OutsideConformity => 1 <= conformity % 0x80 <= 3 && Category(os[i].id) > conformity % 0x80
    case _ => false
  }

  /** Which of the six tests fails. */
  lemma {:induction false} ObjectTests(r: Request, conformity: Byte, before: Objects, o: Object, list: seq<Anomaly>, a: Anomaly)
    ensures a in ObjectAnomalies(r, conformity, before, o, list) <==>
              || a in list || (a == OversizeValue && |o.value| > MAX_VALUE) || (a == DuplicateObject && Has(before, o.id))
              || (a == ObjectOrder && before != [] && !CursorAdvances(before[|before| - 1].id, o.id, r.extended))
              || (a == ReservedObject && Reserved(o.id))
              || (a == OutsideCategory && (if r.access == INDIVIDUAL then o.id != r.id else !AllowedByAccess(o.id, r.access)))
              || (a == OutsideConformity && ValidConformity(conformity) && !AllowedByConformity(o.id, conformity))
  {
    hide AddIf, Has, CursorAdvances, Reserved, AllowedByAccess, ValidConformity, AllowedByConformity;
    var outside := if r.access == INDIVIDUAL then o.id != r.id else !AllowedByAccess(o.id, r.access);
    var unordered := before != [] && !CursorAdvances(before[|before| - 1].id, o.id, r.extended);
    var c1 := AddIf(list, |o.value| > MAX_VALUE, OversizeValue);
    var c2 := AddIf(c1, Has(before, o.id), DuplicateObject);
    var c3 := AddIf(c2, unordered, ObjectOrder);
    var c4 := AddIf(c3, Reserved(o.id), ReservedObject);
    Noted(list, |o.value| > MAX_VALUE, OversizeValue, a);
    Noted(c1, Has(before, o.id), DuplicateObject, a);
    Noted(c2, unordered, ObjectOrder, a);
    Noted(c3, Reserved(o.id), ReservedObject, a);
    Noted(c4, outside, OutsideCategory, a);
    Noted(AddIf(c4, outside, OutsideCategory), ValidConformity(conformity) && !AllowedByConformity(o.id, conformity), OutsideConformity, a);
  }

  lemma {:induction false} ObjectNoted(r: Request, conformity: Byte, os: Objects, i: nat, list: seq<Anomaly>, a: Anomaly)
    requires i < |os| && ValidAccess(r.access)
    ensures a in ObjectAnomalies(r, conformity, os[..i], os[i], list) <==> a in list || OddObject(r, conformity, os, i, a)
  {
    hide ObjectAnomalies, Has;
    ObjectTests(r, conformity, os[..i], os[i], list, a);
    HasBefore(os, i);
  }

  lemma {:induction false} HasBefore(os: Objects, i: nat)
    requires i < |os|
    ensures Has(os[..i], os[i].id) <==> exists j :: 0 <= j < i && os[j].id == os[i].id
  {
    if j :| 0 <= j < i && os[j].id == os[i].id {
      assert os[..i][j].id == os[i].id;
    }
  }

  lemma {:induction false} ObjectsNoted(r: Request, conformity: Byte, os: Objects, n: nat, list: seq<Anomaly>, a: Anomaly)
    requires n <= |os| && ValidAccess(r.access)
    ensures a in PageAnomalies(r, conformity, os, n, list) <==> a in list || exists i :: 0 <= i < n && OddObject(r, conformity, os, i, a)
    decreases n
  {
    hide ObjectAnomalies, OddObject;
    if n > 0 {
      ObjectsNoted(r, conformity, os, n - 1, list, a);
      ObjectNoted(r, conformity, os, n - 1, PageAnomalies(r, conformity, os, n - 1, list), a);
    }
  }

  // ---------- The whole page ----------

  /** What is odd about a page that answers `r` with these bytes, of which `os` could be read and `rest` could not. */
  ghost predicate OddPage(r: Request, pdu: Bytes, os: Objects, rest: Bytes, a: Anomaly)
    requires |pdu| >= 7
  {
    match a
    case OversizePage => |pdu| > 253
    case AccessMismatch => pdu[2] != r.access
    case ConformityValue => !(1 <= pdu[3] % 0x80 <= 3)
    case MoreFollowsValue => 0 < pdu[4] < 0xff
    case NextWithoutMore => pdu[4] == 0 && pdu[5] != 0
    case TruncatedObject => rest != []
    case ObjectCountMismatch => pdu[6] != |os|
    case CountOnlyPage => |os| == 1 && |os[0].value| == 1 && pdu[6] > 1
    case MoreWithoutProgress =>
      pdu[4] != 0 && (os == [] || (pdu[5] <= os[|os| - 1].id && !(r.extended && os[|os| - 1].id == 0xff && pdu[5] == 0)))
    case _ => exists i :: 0 <= i < |os| && OddObject(r, pdu[3], os, i, a)
  }

  lemma {:induction false} HeaderNoted(r: Request, pdu: Bytes, a: Anomaly)
    requires |pdu| >= 7
    ensures a in HeaderAnomalies(r, pdu) <==>
              || (a == OversizePage && |pdu| > 253) || (a == AccessMismatch && pdu[2] != r.access)
              || (a == ConformityValue && !(1 <= pdu[3] % 0x80 <= 3)) || (a == MoreFollowsValue && 0 < pdu[4] < 0xff)
              || (a == NextWithoutMore && pdu[4] == 0 && pdu[5] != 0)
  {
    var c1 := AddIf([], |pdu| > MAX_PDU, OversizePage);
    var c2 := AddIf(c1, pdu[2] != r.access, AccessMismatch);
    var c3 := AddIf(c2, !ValidConformity(pdu[3]), ConformityValue);
    var c4 := AddIf(c3, pdu[4] != 0 && pdu[4] != 0xff, MoreFollowsValue);
    Noted([], |pdu| > MAX_PDU, OversizePage, a);
    Noted(c1, pdu[2] != r.access, AccessMismatch, a);
    Noted(c2, !ValidConformity(pdu[3]), ConformityValue, a);
    Noted(c3, pdu[4] != 0 && pdu[4] != 0xff, MoreFollowsValue, a);
    Noted(c4, pdu[4] == 0 && pdu[5] != 0, NextWithoutMore, a);
    hide AddIf;
  }

  lemma {:induction false} FooterNoted(r: Request, pdu: Bytes, os: Objects, list: seq<Anomaly>, a: Anomaly)
    requires |pdu| >= 7
    ensures a in FooterAnomalies(r, pdu, os, list) <==>
              || a in list || (a == ObjectCountMismatch && pdu[6] != |os|)
              || (a == CountOnlyPage && |os| == 1 && |os[0].value| == 1 && pdu[6] > 1)
              || (a == MoreWithoutProgress && pdu[4] != 0 && (os == [] || !CursorAdvances(os[|os| - 1].id, pdu[5], r.extended)))
  {
    var single := |os| == 1 && |os[0].value| == 1 && pdu[6] > |os|;
    var stuck := pdu[4] != 0 && (os == [] || !CursorAdvances(os[|os| - 1].id, pdu[5], r.extended));
    var c1 := AddIf(list, pdu[6] != |os|, ObjectCountMismatch);
    Noted(list, pdu[6] != |os|, ObjectCountMismatch, a);
    Noted(c1, single, CountOnlyPage, a);
    Noted(AddIf(c1, single, CountOnlyPage), stuck, MoreWithoutProgress, a);
    hide AddIf;
  }

  /** A page is decoded whatever it says, and noted is exactly what is odd about it. */
  lemma {:induction false} AnomaliesAreExact(r: Request, pdu: Bytes, a: Anomaly)
    ensures DecodePage(r, pdu).Some? <==> ValidRequest(r) && 7 <= |pdu| <= 4096 && pdu[0] == 0x2b && pdu[1] == 0x0e
    ensures DecodePage(r, pdu).Some? ==>
              var (os, rest) := UnpackAll(pdu[7..]);
              DecodePage(r, pdu).value.objects == os && (a in DecodePage(r, pdu).value.anomalies <==> OddPage(r, pdu, os, rest, a))
  {
    hide UnpackAll, PageAnomalies, HeaderAnomalies, FooterAnomalies, OddObject;
    if DecodePage(r, pdu).Some? {
      var (os, rest) := UnpackAll(pdu[7..]);
      HeaderNoted(r, pdu, a);
      ObjectsNoted(r, pdu[3], os, |os|, HeaderAnomalies(r, pdu), a);
      var list := PageAnomalies(r, pdu[3], os, |os|, HeaderAnomalies(r, pdu));
      Noted(list, rest != [], TruncatedObject, a);
      FooterNoted(r, pdu, os, AddIf(list, rest != [], TruncatedObject), a);
      OddElsewhere(r, pdu[3], os, a);
    }
  }

  /** Objects are odd only in the ways that are about objects. */
  lemma {:induction false} OddElsewhere(r: Request, conformity: Byte, os: Objects, a: Anomaly)
    ensures (exists i :: 0 <= i < |os| && OddObject(r, conformity, os, i, a)) ==>
              a in {OversizeValue, DuplicateObject, ObjectOrder, ReservedObject, OutsideCategory, OutsideConformity}
  {
  }
}
