/** Framing of a Modbus TCP stream, specified as a whole. */
module TcpAdu {
  import opened Common

  type Bytes = seq<Byte>

  const HEADER := 7
  const MAX_PDU := 253
  const MIN_LENGTH := 2
  const MAX_LENGTH := 254
  const MAX_ADU := 260
  const MAX_TOLERANT_LENGTH := 4097
  const MAX_TOLERANT_ADU := 4103
  const MAX_BUFFER := 0x1_0000

  datatype Framing = Strict | Tolerant

  function LengthBound(f: Framing): nat {
    if f == Tolerant then MAX_TOLERANT_LENGTH else MAX_LENGTH
  }

  function AduBound(f: Framing): nat {
    if f == Tolerant then MAX_TOLERANT_ADU else MAX_ADU
  }

  datatype Setting = Setting(framing: Framing, bound: nat)

  predicate ValidSetting(s: Setting) {
    HEADER <= s.bound <= MAX_BUFFER && (s.framing == Tolerant ==> s.bound >= MAX_TOLERANT_ADU)
  }

  // ---------- Units ----------

  datatype Adu = Adu(tx: Uint16, unit: Byte, pdu: Bytes)

  function Encode(a: Adu): Option<Bytes> {
    if a.unit > 247 || a.pdu == [] || |a.pdu| > MAX_PDU then None
    else
      var length := |a.pdu| + 1;
      Some([a.tx / 0x100, a.tx % 0x100, 0, 0, length / 0x100, length % 0x100, a.unit] + a.pdu)
  }

  function Read(frame: Bytes): Adu
    requires |frame| >= HEADER
  {
    Adu(frame[0] as int * 0x100 + frame[1], frame[6], frame[7..])
  }

  // ---------- The stream as a whole ----------

  datatype Status = More | BadProtocol | BadLength | Overflow

  datatype Parsed = Parsed(frames: seq<Bytes>, rest: Bytes, status: Status)

  function LengthField(s: Bytes): nat
    requires |s| >= HEADER
  {
    s[4] as int * 0x100 + s[5]
  }

  /** What the header at the front of the stream says; `More` when it announces a unit that may be awaited. */
  function Front(c: Setting, s: Bytes): Status {
    if |s| < HEADER then More
    else if s[2] != 0 || s[3] != 0 then BadProtocol
    else if LengthField(s) < MIN_LENGTH || LengthField(s) > LengthBound(c.framing) then BadLength
    else if 6 + LengthField(s) > c.bound && |s| > c.bound then Overflow
    else More
  }

  predicate Complete(c: Setting, s: Bytes) {
    |s| >= HEADER && Front(c, s) == More && 6 + LengthField(s) <= |s|
  }

  function Parse(c: Setting, s: Bytes): (p: Parsed)
    decreases |s|
  {
    if !Complete(c, s) then Parsed([], s, Front(c, s))
    else
      var total := 6 + LengthField(s);
      var p := Parse(c, s[total..]);
      p.(frames := [s[..total]] + p.frames)
  }

  function Flat(frames: seq<Bytes>): Bytes {
    if frames == [] then [] else frames[0] + Flat(frames[1..])
  }

  /** Nothing is lost or reordered: the units and the rest are the stream. */
  lemma {:induction false} ParseConserves(c: Setting, s: Bytes)
    ensures Flat(Parse(c, s).frames) + Parse(c, s).rest == s
    decreases |s|
  {
    if Complete(c, s) {
      var total := 6 + LengthField(s);
      ParseConserves(c, s[total..]);
      var p := Parse(c, s[total..]);
      assert ([s[..total]] + p.frames)[1..] == p.frames;
      assert s == s[..total] + s[total..];
    }
  }

  lemma {:induction false} RestIncomplete(c: Setting, s: Bytes)
    ensures !Complete(c, Parse(c, s).rest) && Front(c, Parse(c, s).rest) == Parse(c, s).status
    ensures Parse(c, Parse(c, s).rest) == Parsed([], Parse(c, s).rest, Parse(c, s).status)
    decreases |s|
  {
    if Complete(c, s) {
      RestIncomplete(c, s[6 + LengthField(s)..]);
    }
  }

  lemma {:induction false} FrontStays(c: Setting, s: Bytes, t: Bytes)
    requires |s| >= HEADER
    ensures LengthField(s + t) == LengthField(s)
    ensures Front(c, s) != More ==> Front(c, s + t) == Front(c, s)
    ensures Complete(c, s) ==> Complete(c, s + t)
  {
  }

  /** More bytes only continue where the parse stopped. */
  lemma {:induction false} ParseAppend(c: Setting, s: Bytes, t: Bytes)
    ensures var p, q := Parse(c, s), Parse(c, Parse(c, s).rest + t);
            Parse(c, s + t) == q.(frames := p.frames + q.frames)
    decreases |s|
  {
    if Complete(c, s) {
      var total := 6 + LengthField(s);
      FrontStays(c, s, t);
      ParseAppend(c, s[total..], t);
      ParseFirst(c, s);
      ParseFirst(c, s + t);
      assert (s + t)[total..] == s[total..] + t && (s + t)[..total] == s[..total];
      hide Parse, Complete;
      Associates([s[..total]], Parse(c, s[total..]).frames, Parse(c, Parse(c, s[total..]).rest + t).frames);
    } else {
      assert [] + Parse(c, s + t).frames == Parse(c, s + t).frames;
    }
  }

  lemma {:induction false} ParseFirst(c: Setting, s: Bytes)
    requires Complete(c, s)
    ensures var total, p := 6 + LengthField(s), Parse(c, s[6 + LengthField(s)..]);
            Parse(c, s) == p.(frames := [s[..total]] + p.frames)
  {
  }

  lemma {:induction false} Associates(a: seq<Bytes>, b: seq<Bytes>, c: seq<Bytes>)
    ensures a + (b + c) == a + b + c
  {
  }

  /** A stream that went wrong stays wrong in the same way. */
  lemma {:induction false} ParseBadStays(c: Setting, s: Bytes, t: Bytes)
    requires Parse(c, s).status != More
    ensures Parse(c, s + t) == Parsed(Parse(c, s).frames, Parse(c, s).rest + t, Parse(c, s).status)
  {
    var p := Parse(c, s);
    RestIncomplete(c, s);
    ParseAppend(c, s, t);
    FrontStays(c, p.rest, t);
    assert p.frames + [] == p.frames;
  }

  // ---------- Which streams are refused ----------

  /** The longest announced length: 254, or 4097 where oversize units are tolerated. */
  predicate Allowed(f: Framing, length: nat) {
    2 <= length <= if f == Tolerant then 4097 else 254
  }

  /** A unit says protocol zero and how many bytes follow its length field. */
  predicate Unit(c: Setting, u: Bytes) {
    && 8 <= |u| <= c.bound && u[2] == 0 && u[3] == 0
    && u[4] as int * 0x100 + u[5] == |u| - 6 && Allowed(c.framing, |u| - 6)
  }

  predicate Units(c: Setting, us: seq<Bytes>) {
    forall i :: 0 <= i < |us| ==> Unit(c, us[i])
  }

  /** A header that no unit can have. */
  predicate BadHeader(f: Framing, s: Bytes) {
    |s| >= 7 && (s[2] != 0 || s[3] != 0 || !Allowed(f, s[4] as int * 0x100 + s[5]))
  }

  /** A unit that is announced properly but is longer than the buffer, of which more than the buffer holds has come. */
  predicate TooLong(c: Setting, s: Bytes) {
    |s| >= 7 && !BadHeader(c.framing, s) && 6 + s[4] as int * 0x100 + s[5] > c.bound && |s| > c.bound
  }

  lemma {:induction false} FramesAreUnits(c: Setting, s: Bytes)
    ensures Units(c, Parse(c, s).frames)
    ensures Parse(c, s).status == BadProtocol || Parse(c, s).status == BadLength <==> BadHeader(c.framing, Parse(c, s).rest)
    decreases |s|
  {
    if Complete(c, s) {
      FramesAreUnits(c, s[6 + LengthField(s)..]);
      assert Unit(c, s[..6 + LengthField(s)]);
    }
  }

  lemma {:induction false} UnitFirst(c: Setting, u: Bytes, rest: Bytes)
    requires Unit(c, u)
    ensures Parse(c, u + rest) == Parse(c, rest).(frames := [u] + Parse(c, rest).frames)
  {
    var s := u + rest;
    assert LengthField(s) == |u| - 6 && Complete(c, s);
    assert s[..|u|] == u && s[|u|..] == rest;
    ParseFirst(c, s);
  }

  /** Units that lie whole in front of a stream are its first units. */
  lemma {:induction false} UnitsFirst(c: Setting, us: seq<Bytes>, rest: Bytes)
    requires Units(c, us)
    ensures Parse(c, Flat(us) + rest) == Parse(c, rest).(frames := us + Parse(c, rest).frames)
    decreases |us|
  {
    hide Parse, Unit;
    if us == [] {
      assert Flat(us) + rest == rest && us + Parse(c, rest).frames == Parse(c, rest).frames;
    } else {
      UnitsFirst(c, us[1..], rest);
      UnitFirst(c, us[0], Flat(us[1..]) + rest);
      assert Flat(us) + rest == us[0] + (Flat(us[1..]) + rest);
      assert us + Parse(c, rest).frames == [us[0]] + (us[1..] + Parse(c, rest).frames);
    }
  }

  /** A stream is refused exactly when, after some whole units, a header follows that no unit can have. */
  lemma {:induction false} RefusedIff(c: Setting, s: Bytes)
    ensures Parse(c, s).status == BadProtocol || Parse(c, s).status == BadLength <==>
              exists us, rest :: Units(c, us) && BadHeader(c.framing, rest) && s == Flat(us) + rest
  {
    FramesAreUnits(c, s);
    ParseConserves(c, s);
    if us, rest :| Units(c, us) && BadHeader(c.framing, rest) && s == Flat(us) + rest {
      UnitsFirst(c, us, rest);
      assert !Complete(c, rest);
    }
  }

  /** It overflows exactly when, after whole units, a unit is announced and begun that the buffer cannot hold. */
  lemma {:induction false} OverflowsIff(c: Setting, s: Bytes)
    ensures Parse(c, s).status == Overflow <==>
              exists us, rest :: Units(c, us) && TooLong(c, rest) && s == Flat(us) + rest
  {
    FramesAreUnits(c, s);
    RestIncomplete(c, s);
    ParseConserves(c, s);
    if Parse(c, s).status == Overflow {
      assert TooLong(c, Parse(c, s).rest);
    }
    if us, rest :| Units(c, us) && TooLong(c, rest) && s == Flat(us) + rest {
      UnitsFirst(c, us, rest);
      assert !Complete(c, rest);
    }
  }

  /** And it is decoded to exactly these units, with nothing left over, when it is nothing but them one after the other. */
  lemma {:induction false} DecodedIff(c: Setting, s: Bytes, us: seq<Bytes>)
    ensures Parse(c, s) == Parsed(us, [], More) <==> Units(c, us) && s == Flat(us)
  {
    FramesAreUnits(c, s);
    ParseConserves(c, s);
    if Units(c, us) && s == Flat(us) {
      UnitsFirst(c, us, []);
      assert Flat(us) + [] == s && us + [] == us;
    }
    if Parse(c, s) == Parsed(us, [], More) {
      assert Flat(us) + [] == Flat(us);
    }
  }

  // ---------- The stream in pieces ----------

  datatype Failure = Failure(status: Status, raw: Bytes)

  /** What one call delivers, what stays buffered, and how it failed. */
  datatype Fed = Fed(frames: seq<Bytes>, buffer: Bytes, failure: Option<Failure>)

  /**
   A framing error drops what this call had completed: strict framing forgets it, tolerant framing hands it back
   with everything else that was not delivered. An overflow delivers the units completed before it.
   */
  function Feed(c: Setting, buffer: Bytes, fragment: Bytes): Fed {
    var p := Parse(c, buffer + fragment);
    match p.status
    case More => Fed(p.frames, p.rest, None)
    case Overflow => Fed(p.frames, [], Some(Failure(Overflow, [])))
    case _ => Fed([], [], Some(Failure(p.status, if c.framing == Tolerant then buffer + fragment else [])))
  }

  function Finish(c: Setting, buffer: Bytes): Option<Bytes> {
    if buffer == [] then None else Some(if c.framing == Tolerant then buffer else [])
  }

  /** Feeds one fragment after another until one fails. */
  function FeedAll(c: Setting, buffer: Bytes, fragments: seq<Bytes>): Fed
    decreases |fragments|
  {
    if fragments == [] then Fed([], buffer, None)
    else
      var first := Feed(c, buffer, fragments[0]);
      if first.failure.Some? then first
      else
        var rest := FeedAll(c, first.buffer, fragments[1..]);
        rest.(frames := first.frames + rest.frames)
  }

  /** The buffer between calls holds the beginning of one unit. */
  ghost predicate Waiting(c: Setting, buffer: Bytes) {
    !Complete(c, buffer) && Front(c, buffer) == More
  }

  lemma {:induction false} FeedWaits(c: Setting, buffer: Bytes, fragment: Bytes)
    ensures Waiting(c, Feed(c, buffer, fragment).buffer)
  {
    RestIncomplete(c, buffer + fragment);
  }

  /** A stream without a framing error decodes alike however it is cut. */
  lemma {:induction false} ChunkingIrrelevant(c: Setting, buffer: Bytes, fragments: seq<Bytes>)
    requires Waiting(c, buffer)
    ensures var p := Parse(c, buffer + Flat(fragments));
            if p.status == More then FeedAll(c, buffer, fragments) == Fed(p.frames, p.rest, None)
            else FeedAll(c, buffer, fragments).failure.Some? && FeedAll(c, buffer, fragments).failure.value.status == p.status
    decreases |fragments|
  {
    if fragments == [] {
      assert buffer + Flat(fragments) == buffer;
    } else {
      var head, tail := fragments[0], Flat(fragments[1..]);
      assert buffer + Flat(fragments) == buffer + head + tail;
      ParseAppend(c, buffer + head, tail);
      if Parse(c, buffer + head).status == More {
        FeedWaits(c, buffer, head);
        ChunkingIrrelevant(c, Feed(c, buffer, head).buffer, fragments[1..]);
      } else {
        ParseBadStays(c, buffer + head, tail);
      }
    }
  }

  /** A stream that ended without error is reported as truncated exactly when it is not made of whole units. */
  lemma {:induction false} TruncatedIff(c: Setting, fragments: seq<Bytes>)
    requires FeedAll(c, [], fragments).failure.None?
    ensures var fed := FeedAll(c, [], fragments);
            && (Finish(c, fed.buffer).None? <==> exists us :: Units(c, us) && Flat(fragments) == Flat(us))
            && (Finish(c, fed.buffer).Some? && c.framing == Tolerant ==> Flat(fed.frames) + Finish(c, fed.buffer).value == Flat(fragments))
            && (Finish(c, fed.buffer).Some? && c.framing == Strict ==> Finish(c, fed.buffer).value == [])
  {
    var s := Flat(fragments);
    assert [] + s == s;
    ChunkingIrrelevant(c, [], fragments);
    ParseConserves(c, s);
    if us :| Units(c, us) && s == Flat(us) {
      DecodedIff(c, s, us);
    }
    FramesAreUnits(c, s);
    assert Flat(Parse(c, s).frames) + [] == Flat(Parse(c, s).frames);
  }

  /** Two ways to cut the same stream agree. */
  lemma {:induction false} SplitsAgree(c: Setting, a: seq<Bytes>, b: seq<Bytes>)
    requires Flat(a) == Flat(b)
    ensures FeedAll(c, [], a).failure.None? <==> FeedAll(c, [], b).failure.None?
    ensures FeedAll(c, [], a).failure.None? ==> FeedAll(c, [], a) == FeedAll(c, [], b)
    ensures FeedAll(c, [], a).failure.Some? ==> FeedAll(c, [], a).failure.value.status == FeedAll(c, [], b).failure.value.status
  {
    ChunkingIrrelevant(c, [], a);
    ChunkingIrrelevant(c, [], b);
  }

  ghost predicate Prefix<T>(a: seq<T>, b: seq<T>) {
    |a| <= |b| && a == b[..|a|]
  }

  /** Even with an error, what was delivered is the beginning of what the whole stream holds. */
  lemma {:induction false} DeliveredIsPrefix(c: Setting, buffer: Bytes, fragments: seq<Bytes>)
    requires Waiting(c, buffer)
    ensures Prefix(FeedAll(c, buffer, fragments).frames, Parse(c, buffer + Flat(fragments)).frames)
    decreases |fragments|
  {
    if fragments != [] {
      var head, tail := fragments[0], Flat(fragments[1..]);
      assert buffer + Flat(fragments) == buffer + head + tail;
      ParseAppend(c, buffer + head, tail);
      if Parse(c, buffer + head).status == More {
        FeedWaits(c, buffer, head);
        DeliveredIsPrefix(c, Feed(c, buffer, head).buffer, fragments[1..]);
      }
    }
  }

  // ---------- Tolerant framing keeps every byte ----------

  /** How many fragments are taken before one fails, the failing one included. */
  function Taken(c: Setting, buffer: Bytes, fragments: seq<Bytes>): (n: nat)
    ensures n <= |fragments|
    decreases |fragments|
  {
    if fragments == [] then 0
    else if Feed(c, buffer, fragments[0]).failure.Some? then 1
    else 1 + Taken(c, Feed(c, buffer, fragments[0]).buffer, fragments[1..])
  }

  lemma {:induction false} NeverOverflows(c: Setting, s: Bytes)
    requires AduBound(c.framing) <= c.bound
    ensures Parse(c, s).status != Overflow
    decreases |s|
  {
    if Complete(c, s) {
      NeverOverflows(c, s[6 + LengthField(s)..]);
    }
  }

  /** Delivered units, then what the failure gives back or what is still buffered: all bytes fed, in order. */
  lemma {:induction false} TolerantConserves(c: Setting, buffer: Bytes, fragments: seq<Bytes>)
    requires ValidSetting(c) && c.framing == Tolerant
    ensures var r := FeedAll(c, buffer, fragments);
            Flat(r.frames) + (if r.failure.Some? then r.failure.value.raw else r.buffer)
            == buffer + Flat(fragments[..Taken(c, buffer, fragments)])
    decreases |fragments|
  {
    if fragments == [] {
      assert fragments[..0] == [];
    } else {
      var head := fragments[0];
      var first, n := Feed(c, buffer, head), Taken(c, buffer, fragments);
      NeverOverflows(c, buffer + head);
      assert fragments[..n] == [head] + fragments[1..][..n - 1];
      FlatCons(head, fragments[1..][..n - 1]);
      if first.failure.None? {
        ParseConserves(c, buffer + head);
        TolerantConserves(c, first.buffer, fragments[1..]);
        var rest := FeedAll(c, first.buffer, fragments[1..]);
        FlatAppend(first.frames, rest.frames);
        var kept := if rest.failure.Some? then rest.failure.value.raw else rest.buffer;
        Regroup(Flat(first.frames), Flat(rest.frames), kept, first.buffer, buffer, head, Flat(fragments[1..][..n - 1]));
      } else {
        assert fragments[1..][..0] == [];
      }
    }
  }

  lemma {:induction false} Regroup(a: Bytes, b: Bytes, kept: Bytes, middle: Bytes, buffer: Bytes, head: Bytes, tail: Bytes)
    requires a + middle == buffer + head && b + kept == middle + tail
    ensures a + b + kept == buffer + (head + tail)
  {
    assert a + b + kept == a + (b + kept);
    assert a + (middle + tail) == a + middle + tail;
  }

  lemma {:induction false} FlatCons(x: Bytes, xs: seq<Bytes>)
    ensures Flat([x] + xs) == x + Flat(xs)
  {
    assert ([x] + xs)[1..] == xs;
  }

  lemma {:induction false} FlatAppend(a: seq<Bytes>, b: seq<Bytes>)
    ensures Flat(a + b) == Flat(a) + Flat(b)
    decreases |a|
  {
    if a == [] {
      assert a + b == b;
    } else {
      assert (a + b)[1..] == a[1..] + b;
      FlatAppend(a[1..], b);
    }
  }

  // ---------- Round trip ----------

  lemma {:induction false} EncodedReads(a: Adu)
    requires Encode(a).Some?
    ensures var e := Encode(a).value;
            |e| == HEADER + |a.pdu| && Read(e) == a && e[2] == 0 && e[3] == 0 && LengthField(e) == |a.pdu| + 1
  {
    assert Encode(a).value[7..] == a.pdu;
  }

  lemma {:induction false} EncodeOfRead(u: Bytes)
    requires Unit(Setting(Strict, MAX_ADU), u) && u[6] <= 247
    ensures Encode(Read(u)) == Some(u)
  {
    var a := Read(u);
    var length := |a.pdu| + 1;
    assert a.tx / 0x100 == u[0] && a.tx % 0x100 == u[1];
    assert length / 0x100 == u[4] && length % 0x100 == u[5];
    assert u == [u[0], u[1], u[2], u[3], u[4], u[5], u[6]] + u[7..];
  }

  /** What the encoder makes is exactly what strict framing takes for a unit, with an address that may be used. */
  lemma {:induction false} EncodesIff(u: Bytes)
    ensures (exists a :: Encode(a) == Some(u)) <==> Unit(Setting(Strict, MAX_ADU), u) && u[6] <= 247
  {
    if Unit(Setting(Strict, MAX_ADU), u) && u[6] <= 247 {
      EncodeOfRead(u);
    }
    if a :| Encode(a) == Some(u) {
      EncodedReads(a);
    }
  }

  function EncodeAll(adus: seq<Adu>): Option<seq<Bytes>> {
    if adus == [] then Some([])
    else
      var head, tail := Encode(adus[0]), EncodeAll(adus[1..]);
      if head.None? || tail.None? then None else Some([head.value] + tail.value)
  }

  /** What was encoded and sent one after another is decoded to exactly that, with nothing left over. */
  lemma {:induction false} EncodedStreamDecodes(c: Setting, adus: seq<Adu>)
    requires c.bound >= MAX_ADU && EncodeAll(adus).Some?
    ensures Parse(c, Flat(EncodeAll(adus).value)) == Parsed(EncodeAll(adus).value, [], More)
    ensures |EncodeAll(adus).value| == |adus|
    ensures forall i :: 0 <= i < |adus| ==> |EncodeAll(adus).value[i]| >= HEADER && Read(EncodeAll(adus).value[i]) == adus[i]
    decreases |adus|
  {
    if adus != [] {
      var e, rest := Encode(adus[0]).value, EncodeAll(adus[1..]).value;
      EncodedReads(adus[0]);
      EncodedStreamDecodes(c, adus[1..]);
      FlatCons(e, rest);
      FrontStays(c, e, Flat(rest));
      assert (e + Flat(rest))[..|e|] == e && (e + Flat(rest))[|e|..] == Flat(rest);
    }
  }
}
