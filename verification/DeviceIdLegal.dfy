/** Aggregation is sound: whatever it gives is a legal stream, standard or extended. */
module DeviceIdLegal {
  import opened Common
  import opened DeviceIdModel
  import opened DeviceId
  import opened DeviceIdPages

  // ---------- Standard streams ----------

  /** Everything taken so far rises and suits the stream. */
  ghost predicate Good(access: Byte, conformity: Byte, os: Objects) {
    Rising(os) && Suits(access, conformity, os)
  }

  lemma {:induction false} GoodMore(access: Byte, conformity: Byte, os: Objects, o: Object)
    requires Good(access, conformity, os) && (os != [] ==> o.id > os[|os| - 1].id)
    requires !Reserved(o.id) && AllowedByAccess(o.id, access) && AllowedByConformity(o.id, conformity)
    ensures Good(access, conformity, os + [o])
  {
    hide Reserved, AllowedByAccess, AllowedByConformity;
    var all := os + [o];
    forall i, j | 0 <= i < j < |all|
      ensures all[i].id < all[j].id
    {
      if j == |os| && i < |os| - 1 {
        assert os[i].id < os[|os| - 1].id;
      }
    }
  }

  lemma {:induction false} SuitsParts(access: Byte, conformity: Byte, os: Objects)
    requires Suits(access, conformity, os) && os != []
    ensures !Reserved(os[0].id) && AllowedByAccess(os[0].id, access) && AllowedByConformity(os[0].id, conformity)
    ensures Suits(access, conformity, os[1..])
  {
    hide Reserved, AllowedByAccess, AllowedByConformity;
  }

  lemma {:induction false} TakeGood(l: Limits, t: Taken, os: Objects, access: Byte, conformity: Byte)
    requires Take(l, t, os, false).Some? && Good(access, conformity, t.objects) && Suits(access, conformity, os)
    ensures Good(access, conformity, Take(l, t, os, false).value.objects)
    decreases |os|
  {
    hide Good, Reserved, AllowedByAccess, AllowedByConformity, Has, ValueBytes, Suits;
    if os != [] {
      SuitsParts(access, conformity, os);
      GoodMore(access, conformity, t.objects, os[0]);
      TakeGood(l, Taken(t.objects + [os[0]], t.wrapped), os[1..], access, conformity);
    }
  }

  lemma {:induction false} SegmentSuits(s: Segment)
    requires ValidSegment(s) && !s.request.extended && s.request.access != INDIVIDUAL
    ensures Suits(s.request.access, s.conformity, s.objects)
  {
    hide Fitting, Rising, Reserved, AllowedByAccess, AllowedByConformity;
    forall i | 0 <= i < |s.objects|
      ensures !Reserved(s.objects[i].id) && AllowedByAccess(s.objects[i].id, s.request.access) && AllowedByConformity(s.objects[i].id, s.conformity)
    {
      assert StandardObject(s.request, s.conformity, s.objects[i].id);
    }
  }

  lemma {:induction false} GatherGood(l: Limits, expected: Request, conformity: Byte, t: Taken, segments: seq<Segment>)
    requires !expected.extended && expected.access != INDIVIDUAL && Good(expected.access, conformity, t.objects)
    requires Gather(l, expected, conformity, t, segments, false).Some?
    ensures Good(expected.access, conformity, Gather(l, expected, conformity, t, segments, false).value.objects)
    decreases |segments|
  {
    if segments != [] {
      hide Good, Take, ValidSegment, NextRequest;
      var s := segments[0];
      SegmentSuits(s);
      TakeGood(l, t, s.objects, expected.access, conformity);
      if s.more {
        NextKeepsKind(s);
        GatherGood(l, NextRequest(s).value, conformity, Take(l, t, s.objects, false).value, segments[1..]);
      }
    }
  }

  /** What strict aggregation of a standard stream gives is legal, under the category asked for and the conformity of its pages. */
  lemma {:induction false} StandardIsLegal(first: Request, segments: seq<Segment>, l: Limits)
    requires Aggregate(first, segments, l, false).Some?
    ensures segments != [] && LegalStandard(first.access, segments[0].conformity, Aggregate(first, segments, l, false).value)
  {
    hide Gather, Take;
    var conformity := segments[0].conformity;
    var os := Aggregate(first, segments, l, false).value;
    FirstValid(l, first, conformity, segments);
    GatherGood(l, first, conformity, Taken([], false), segments);
    hide ValidSegment, Rising, Has;
    forall i | 0 <= i < |os|
      ensures Category(os[i].id) <= first.access && Category(os[i].id) <= conformity % 0x80
    {
      CategoryIs(first.access, conformity, os[i].id);
    }
  }

  lemma {:induction false} FirstValid(l: Limits, first: Request, conformity: Byte, segments: seq<Segment>)
    requires segments != [] && Gather(l, first, conformity, Taken([], false), segments, false).Some?
    ensures ValidConformity(conformity) && 1 <= conformity % 0x80 <= 3
  {
    hide Take, NextRequest;
    assert ValidSegment(segments[0]) && segments[0].conformity == conformity;
  }

  // ---------- Extended streams ----------

  predicate StepUp(a: Byte, b: Byte) {
    b > a || (a == 0xff && b == 0)
  }

  /** Distinct identities, each a step up from the one before. */
  ghost predicate Climbs(os: Objects) {
    NoDuplicates(os) && forall i :: 0 < i < |os| ==> StepUp(os[i - 1].id, os[i].id)
  }

  lemma {:induction false} ClimbsMore(os: Objects, o: Object)
    requires Climbs(os) && !Has(os, o.id) && (os != [] ==> StepUp(os[|os| - 1].id, o.id))
    ensures Climbs(os + [o])
  {
    var all := os + [o];
    forall i, j | 0 <= i < j < |all|
      ensures all[i].id != all[j].id
    {
      assert i < |os| && all[i] == os[i];
    }
  }

  lemma {:induction false} TakeClimbs(l: Limits, t: Taken, os: Objects)
    requires Take(l, t, os, true).Some? && Climbs(t.objects)
    ensures Climbs(Take(l, t, os, true).value.objects)
    ensures Take(l, t, os, true).value.objects == t.objects + os
    decreases |os|
  {
    hide Climbs, Has, ValueBytes;
    if os == [] {
      assert t.objects + os == t.objects;
    } else {
      ClimbsMore(t.objects, os[0]);
      var w := if t.objects != [] then Advance(t.objects[|t.objects| - 1].id, os[0].id, t.wrapped).value else t.wrapped;
      TakeClimbs(l, Taken(t.objects + [os[0]], w), os[1..]);
      assert t.objects + [os[0]] + os[1..] == t.objects + os;
    }
  }

  lemma {:induction false} GatherClimbs(l: Limits, expected: Request, conformity: Byte, t: Taken, segments: seq<Segment>)
    requires Climbs(t.objects) && Gather(l, expected, conformity, t, segments, true).Some?
    ensures var all := Gather(l, expected, conformity, t, segments, true).value.objects;
            Climbs(all) && |all| >= |t.objects| && all[..|t.objects|] == t.objects
    decreases |segments|
  {
    if segments != [] {
      hide Climbs, Take, ValidSegment, NextRequest;
      var s := segments[0];
      TakeClimbs(l, t, s.objects);
      if s.more {
        GatherClimbs(l, NextRequest(s).value, conformity, Take(l, t, s.objects, true).value, segments[1..]);
      }
    }
  }

  /** The first object is the one asked for, one above it, or the first of all after the last. */
  lemma {:induction false} FirstObject(l: Limits, first: Request, conformity: Byte, segments: seq<Segment>)
    requires segments != [] && ValidFirst(first, true) && Gather(l, first, conformity, Taken([], false), segments, true).Some?
    ensures var all := Gather(l, first, conformity, Taken([], false), segments, true).value.objects;
            all != [] ==> all[0].id == first.id || StepUp(first.id, all[0].id)
  {
    var s := segments[0];
    assert s.request == first && ValidSegment(s);
    NothingClimbs();
    PageStarts(s);
    hide ValidSegment, Take, NextRequest, Climbs;
    TakeClimbs(l, Taken([], false), s.objects);
    assert [] + s.objects == s.objects;
    if s.more {
      GatherClimbs(l, NextRequest(s).value, conformity, Take(l, Taken([], false), s.objects, true).value, segments[1..]);
    }
  }

  lemma {:induction false} ExtendedConforms(l: Limits, first: Request, segments: seq<Segment>)
    requires segments != [] && ValidFirst(first, true) && Gather(l, first, segments[0].conformity, Taken([], false), segments, true).Some?
    ensures segments[0].conformity in {0x03, 0x83}
  {
    hide Take, NextRequest, Fitting, NoDuplicates;
    assert ValidSegment(segments[0]) && segments[0].request == first;
  }

  lemma {:induction false} NothingClimbs()
    ensures Climbs([])
  {
  }

  lemma {:induction false} PageStarts(s: Segment)
    requires ValidSegment(s) && s.request.extended && !s.request.wrapped
    ensures s.objects != [] ==> s.objects[0].id == s.request.id || StepUp(s.request.id, s.objects[0].id)
    ensures s.more ==> s.objects != []
  {
    hide Fitting, NoDuplicates;
  }

  lemma {:induction false} Consecutive(os: Objects)
    requires forall i :: 0 < i < |os| ==> os[i - 1].id < os[i].id
    ensures Rising(os)
    decreases |os|
  {
    if os != [] {
      var n := |os| - 1;
      var before := os[..n];
      forall i | 0 < i < |before|
        ensures before[i - 1].id < before[i].id
      {
        assert os[i - 1].id < os[i].id;
      }
      Consecutive(before);
      forall i, j | 0 <= i < j < |os|
        ensures os[i].id < os[j].id
      {
        if j == n && i < n - 1 {
          assert before[i].id < before[n - 1].id;
          assert os[n - 1].id < os[n].id;
        } else if j == n {
          assert os[j - 1].id < os[j].id;
        } else {
          assert before[i].id < before[j].id;
        }
      }
    }
  }

  /** Where nothing goes around, the identities rise. */
  lemma {:induction false} RisesBetween(os: Objects, lo: nat, hi: nat)
    requires Climbs(os) && lo <= hi <= |os| && forall i :: lo < i < hi ==> os[i].id != 0
    ensures Rising(os[lo..hi])
  {
    var part := os[lo..hi];
    forall i | 0 < i < |part|
      ensures part[i - 1].id < part[i].id
    {
      assert part[i] == os[lo + i] && part[i - 1] == os[lo + i - 1] && StepUp(os[lo + i - 1].id, os[lo + i].id);
    }
    Consecutive(part);
  }

  lemma {:induction false} ClimbIsLegal(start: Byte, os: Objects)
    requires Climbs(os) && (os != [] ==> os[0].id == start || StepUp(start, os[0].id))
    ensures LegalExtended(start, os)
  {
    var n := |os|;
    if k :| 0 < k < n && os[k].id == 0 {
      assert StepUp(os[k - 1].id, os[k].id);
      forall i | 0 <= i < n && i != k
        ensures os[i].id != 0
      {
        assert os[i].id != os[k].id;
      }
      RisesBetween(os, 0, k);
      RisesBetween(os, k, n);
      assert os[..k] == os[0..k] && os[k..] == os[k..n];
      assert WrapsAt(start, os, k);
    } else {
      RisesBetween(os, 0, n);
      assert os[0..n] == os[..n] && os[n..] == [] && os[0..n] == os[0..] == os && os[..0] == [];
      if n == 0 || os[0].id >= start {
        assert WrapsAt(start, os, n);
      } else {
        assert WrapsAt(start, os, 0);
      }
    }
  }

  /** What strict aggregation of an extended stream gives is legal from the identity it was started at, at extended conformity. */
  lemma {:induction false} ExtendedIsLegal(first: Request, segments: seq<Segment>, l: Limits)
    requires Aggregate(first, segments, l, true).Some?
    ensures segments != [] && LegalExtended(first.id, Aggregate(first, segments, l, true).value)
    ensures first.access == 3 && first.extended && segments[0].conformity in {0x03, 0x83}
  {
    hide Gather, Climbs;
    ExtendedConforms(l, first, segments);
    NothingClimbs();
    GatherClimbs(l, first, segments[0].conformity, Taken([], false), segments);
    FirstObject(l, first, segments[0].conformity, segments);
    ClimbIsLegal(first.id, Aggregate(first, segments, l, true).value);
  }

  // ---------- Pages and limits ----------

  function Together(segments: seq<Segment>): Objects {
    if segments == [] then [] else segments[0].objects + Together(segments[1..])
  }

  /** Valid pages of one conformity, each answering the request its predecessor leads to, and only the last without more to come. */
  ghost predicate Chained(first: Request, conformity: Byte, segments: seq<Segment>) {
    forall i :: 0 <= i < |segments| ==>
      && ValidSegment(segments[i]) && segments[i].conformity == conformity && (segments[i].more <==> i < |segments| - 1)
      && (i == 0 ==> segments[i].request == first) && (i > 0 ==> NextRequest(segments[i - 1]) == Some(segments[i].request))
  }

  ghost predicate Within(l: Limits, os: Objects) {
    |os| <= l.objects && ValueBytes(os) <= l.bytes
  }

  lemma {:induction false} BytesMore(os: Objects, o: Object)
    ensures ValueBytes(os + [o]) == ValueBytes(os) + |o.value|
  {
    assert (os + [o])[..|os|] == os;
  }

  lemma {:induction false} TakeIs(l: Limits, t: Taken, os: Objects, extended: bool)
    requires Take(l, t, os, extended).Some? && Within(l, t.objects)
    ensures Take(l, t, os, extended).value.objects == t.objects + os && Within(l, t.objects + os)
    decreases |os|
  {
    hide Follows, ValueBytes;
    if os == [] {
      assert t.objects + os == t.objects;
    } else {
      BytesMore(t.objects, os[0]);
      var w := if t.objects != [] && extended then Advance(t.objects[|t.objects| - 1].id, os[0].id, t.wrapped) else Some(t.wrapped);
      FollowsSteps(t, os[0], extended);
      TakeIs(l, Taken(t.objects + [os[0]], w.value), os[1..], extended);
      assert t.objects + [os[0]] + os[1..] == t.objects + os;
    }
  }

  lemma {:induction false} FollowsSteps(t: Taken, o: Object, extended: bool)
    requires Follows(t.objects, t.wrapped, o, extended)
    ensures t.objects != [] && extended ==> Advance(t.objects[|t.objects| - 1].id, o.id, t.wrapped).Some?
  {
    hide Has;
  }

  lemma {:induction false} GatherIs(l: Limits, expected: Request, conformity: Byte, t: Taken, segments: seq<Segment>, extended: bool)
    requires segments != [] && Within(l, t.objects) && Gather(l, expected, conformity, t, segments, extended).Some?
    ensures var all := Gather(l, expected, conformity, t, segments, extended).value.objects;
            Chained(expected, conformity, segments) && all == t.objects + Together(segments) && Within(l, all)
    decreases |segments|
  {
    hide Take, ValidSegment, NextRequest, Within;
    var s, rest := segments[0], segments[1..];
    TakeIs(l, t, s.objects, extended);
    if s.more {
      GatherIs(l, NextRequest(s).value, conformity, Take(l, t, s.objects, extended).value, rest, extended);
      ChainedCons(expected, conformity, segments);
      assert t.objects + s.objects + Together(rest) == t.objects + Together(segments);
    } else {
      assert Together(rest) == [] && s.objects + [] == s.objects;
    }
  }

  lemma {:induction false} ChainedCons(first: Request, conformity: Byte, segments: seq<Segment>)
    requires |segments| > 1 && ValidSegment(segments[0]) && segments[0].conformity == conformity && segments[0].more && segments[0].request == first
    requires NextRequest(segments[0]).Some? && Chained(NextRequest(segments[0]).value, conformity, segments[1..])
    ensures Chained(first, conformity, segments)
  {
    hide ValidSegment, NextRequest;
    var rest := segments[1..];
    forall i | 0 <= i < |segments|
      ensures && ValidSegment(segments[i]) && segments[i].conformity == conformity && (segments[i].more <==> i < |segments| - 1)
              && (i == 0 ==> segments[i].request == first) && (i > 0 ==> NextRequest(segments[i - 1]) == Some(segments[i].request))
    {
      if i > 0 {
        assert rest[i - 1] == segments[i];
        assert i > 1 ==> rest[i - 2] == segments[i - 1];
      }
    }
  }

  /** An aggregate is the objects of a complete chain of pages, one after the other, within the limits. */
  lemma {:induction false} AggregateIs(first: Request, segments: seq<Segment>, l: Limits, extended: bool)
    requires Aggregate(first, segments, l, extended).Some?
    ensures var os := Aggregate(first, segments, l, extended).value;
            && 0 < |segments| <= l.segments && Chained(first, segments[0].conformity, segments)
            && os == Together(segments) && |os| <= l.objects && ValueBytes(os) <= l.bytes
  {
    hide Gather;
    GatherIs(l, first, segments[0].conformity, Taken([], false), segments, extended);
    assert [] + Together(segments) == Together(segments);
  }
}
