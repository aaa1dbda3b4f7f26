/** The timed frame decoder: bytes become a frame only when their gaps and the silence after them allow it. */
module RtuDecoder {
  import opened Common
  import Crc
  import opened RtuAdu

  /** Silences of one and a half and of three and a half characters. */
  datatype Timing = Timing(t15: GoInt, t35: GoInt)

  predicate ValidTiming(t: Timing) {
    t.t15 > 0 && t.t35 > 0
  }

  datatype State = State(buffer: Crc.Octets, last: GoInt, have: bool, poisoned: bool)

  const Fresh := State([], 0, false, false)

  datatype Fed = Accepted | BadCall | Resynchronizing | CharacterGap | Overflow

  function Feed(t: Timing, s: State, offset: GoInt, value: bv8): (State, Fed) {
    if offset < 0 then (s, BadCall)
    else if s.poisoned && (offset < s.last || offset - s.last < t.t35) then
      (if offset >= s.last then s.(last := offset) else s, Resynchronizing)
    else if !s.poisoned && s.have && offset < s.last then
      (State([], s.last, false, true), CharacterGap)
    else if !s.poisoned && s.have && offset - s.last > t.t15 then
      (State([], offset, false, true), CharacterGap)
    else if |s.buffer| == MAX_ADU then
      (State([], offset, false, true), Overflow)
    else
      (State(s.buffer + [value], offset, true, false), Accepted)
  }

  predicate CanEnd(t: Timing, s: State, offset: GoInt) {
    !s.poisoned && s.have && offset >= s.last && offset - s.last >= t.t35
  }

  /** The bytes handed over, once the line was silent for long enough. */
  function End(t: Timing, s: State, offset: GoInt): (State, Option<Crc.Octets>) {
    if CanEnd(t, s, offset) then (Fresh, Some(s.buffer)) else (s, None)
  }

  // ---------- History ----------

  datatype Timed = Timed(offset: GoInt, value: bv8)

  /** All bytes observed since the decoder was last reset, and how many of the latest make up the buffer. */
  datatype History = History(seen: seq<Timed>, run: nat)

  const Nothing := History([], 0)

  function Values(s: seq<Timed>): (v: Crc.Octets)
    ensures |v| == |s|
  {
    seq(|s|, i requires 0 <= i < |s| => s[i].value)
  }

  function Latest(s: seq<Timed>): GoInt
    requires s != []
  {
    if |s| == 1 then s[0].offset
    else
      var before := Latest(s[..|s| - 1]);
      if before > s[|s| - 1].offset then before else s[|s| - 1].offset
  }

  function Suffix(h: History): seq<Timed>
    requires h.run <= |h.seen|
  {
    h.seen[|h.seen| - h.run..]
  }

  /** Consecutive bytes follow each other within one and a half characters. */
  ghost predicate Tight(t: Timing, s: seq<Timed>) {
    forall i :: 0 <= i < |s| - 1 ==> 0 <= s[i + 1].offset - s[i].offset <= t.t15
  }

  ghost predicate Inv(t: Timing, s: State, h: History) {
    && h.run <= |h.seen| && h.run <= MAX_ADU
    && s.buffer == Values(Suffix(h)) && Tight(t, Suffix(h))
    && (s.have <==> h.run > 0)
    && (s.poisoned ==> h.run == 0 && h.seen != [])
    && (h.seen != [] ==> (s.have || s.poisoned) && s.last == Latest(h.seen))
    && (h.run > 0 ==> h.seen[|h.seen| - 1].offset == s.last)
  }

  datatype Op = DoFeed(offset: GoInt, value: bv8) | DoEnd(offset: GoInt) | DoReset

  function Step(t: Timing, s: State, op: Op): State {
    match op
    case DoFeed(offset, value) => Feed(t, s, offset, value).0
    case DoEnd(offset) => End(t, s, offset).0
    case DoReset => Fresh
  }

  function Note(t: Timing, s: State, h: History, op: Op): History {
    match op
    case DoFeed(offset, value) =>
      var result := Feed(t, s, offset, value).1;
      if result == BadCall then h
      else History(h.seen + [Timed(offset, value)], if result == Accepted then h.run + 1 else 0)
    case DoEnd(offset) => if CanEnd(t, s, offset) then Nothing else h
    case DoReset => Nothing
  }

  lemma {:induction false} LatestOf(s: seq<Timed>, x: Timed)
    ensures Latest(s + [x]) == if s == [] || x.offset >= Latest(s) then x.offset else Latest(s)
  {
    assert (s + [x])[..|s|] == s;
  }

  lemma {:induction false} SuffixGrows(h: History, x: Timed)
    requires h.run <= |h.seen|
    ensures Suffix(History(h.seen + [x], h.run + 1)) == Suffix(h) + [x]
    ensures Suffix(History(h.seen + [x], 0)) == []
    ensures Values(Suffix(h) + [x]) == Values(Suffix(h)) + [x.value]
    ensures h.run > 0 ==> Suffix(h)[h.run - 1] == h.seen[|h.seen| - 1]
  {
  }

  lemma {:induction false} TightGrows(t: Timing, s: seq<Timed>, x: Timed)
    requires Tight(t, s) && (s != [] ==> 0 <= x.offset - s[|s| - 1].offset <= t.t15)
    ensures Tight(t, s + [x])
  {
  }

  lemma {:induction false} FeedKeeps(t: Timing, s: State, h: History, offset: GoInt, value: bv8)
    requires Inv(t, s, h)
    ensures Inv(t, Feed(t, s, offset, value).0, Note(t, s, h, DoFeed(offset, value)))
  {
    hide Latest, Values, Suffix, Tight;
    var x := Timed(offset, value);
    LatestOf(h.seen, x);
    SuffixGrows(h, x);
    SuffixIs(h);
    if Feed(t, s, offset, value).1 == Accepted {
      TightGrows(t, Suffix(h), x);
    }
    NoValues(t);
  }

  lemma {:induction false} SuffixIs(h: History)
    requires h.run <= |h.seen|
    ensures |Suffix(h)| == h.run
  {
  }

  lemma {:induction false} NoValues(t: Timing)
    ensures Values([]) == [] && Tight(t, [])
  {
  }

  lemma {:induction false} StepKeeps(t: Timing, s: State, h: History, op: Op)
    requires Inv(t, s, h)
    ensures Inv(t, Step(t, s, op), Note(t, s, h, op))
  {
    hide Feed;
    match op
    case DoFeed(offset, value) => FeedKeeps(t, s, h, offset, value);
    case DoEnd(offset) => FreshInv(t);
    case DoReset => FreshInv(t);
  }

  lemma {:induction false} FreshInv(t: Timing)
    ensures Inv(t, Fresh, Nothing)
  {
  }

  function Run(t: Timing, s: State, ops: seq<Op>): State
    decreases |ops|
  {
    if ops == [] then s else Run(t, Step(t, s, ops[0]), ops[1..])
  }

  function Trace(t: Timing, s: State, h: History, ops: seq<Op>): History
    decreases |ops|
  {
    if ops == [] then h else Trace(t, Step(t, s, ops[0]), Note(t, s, h, ops[0]), ops[1..])
  }

  lemma {:induction false} RunKeeps(t: Timing, s: State, h: History, ops: seq<Op>)
    requires Inv(t, s, h)
    ensures Inv(t, Run(t, s, ops), Trace(t, s, h, ops))
    decreases |ops|
  {
    hide Inv, Step, Note;
    if ops != [] {
      StepKeeps(t, s, h, ops[0]);
      RunKeeps(t, Step(t, s, ops[0]), Note(t, s, h, ops[0]), ops[1..]);
    }
  }

  /**
   Whatever was fed before: a frame that is handed over is the unbroken tail of the bytes observed, with every
   gap at most one and a half characters and at least three and a half characters of silence after it.
   */
  lemma {:induction false} FramesAreQuietRuns(t: Timing, ops: seq<Op>, offset: GoInt)
    ensures var s, h := Run(t, Fresh, ops), Trace(t, Fresh, Nothing, ops);
            var frame := End(t, s, offset).1;
            frame.Some? ==>
              && 0 < h.run <= |h.seen| && h.run <= MAX_ADU
              && frame.value == Values(Suffix(h)) && Tight(t, Suffix(h))
              && offset >= h.seen[|h.seen| - 1].offset + t.t35
  {
    FreshInv(t);
    hide Run, Trace, Values, Tight;
    RunKeeps(t, Fresh, Nothing, ops);
  }

  /** After a rejected byte, the next one is accepted exactly when it comes late enough after all that was observed. */
  lemma {:induction false} RejectionNeedsSilence(t: Timing, ops: seq<Op>, offset: GoInt, value: bv8)
    requires ValidTiming(t)
    ensures var s, h := Run(t, Fresh, ops), Trace(t, Fresh, Nothing, ops);
            s.poisoned ==>
              && h.seen != []
              && (Feed(t, s, offset, value).1 == Accepted <==> offset >= 0 && offset >= Latest(h.seen) + t.t35)
  {
    FreshInv(t);
    hide Run, Trace, Tight, Latest;
    RunKeeps(t, Fresh, Nothing, ops);
    SuffixIs(Trace(t, Fresh, Nothing, ops));
  }

  /** A byte that is rejected, other than for a negative offset, poisons the decoder. */
  lemma {:induction false} RejectionPoisons(t: Timing, s: State, offset: GoInt, value: bv8)
    ensures Feed(t, s, offset, value).1 !in {Accepted, BadCall} ==> Feed(t, s, offset, value).0.poisoned
    ensures Feed(t, s, offset, value).1 == BadCall <==> offset < 0
  {
  }

  class RTUFrameDecoder {
    const timing: Timing
    var buffer: Crc.Octets
    var lastByte: GoInt
    var haveByte: bool
    var poisoned: bool

    ghost function View(): State
      reads this
    {
      State(buffer, lastByte, haveByte, poisoned)
    }

    constructor (t: Timing)
      requires ValidTiming(t)
      ensures timing == t && View() == Fresh
    {
      timing := t;
      buffer, lastByte, haveByte, poisoned := [], 0, false, false;
    }

    method Reset()
      modifies this
      ensures View() == Fresh
    {
      buffer, lastByte, haveByte, poisoned := [], 0, false, false;
    }

    method FeedByte(offset: GoInt, value: bv8) returns (result: Fed)
      requires poisoned ==> buffer == [] && !haveByte
      modifies this
      ensures (View(), result) == Feed(timing, old(View()), offset, value)
      ensures poisoned ==> buffer == [] && !haveByte
    {
      if offset < 0 {
        return BadCall;
      }
      if poisoned {
        if offset < lastByte || offset - lastByte < timing.t35 {
          if offset >= lastByte {
            lastByte := offset;
          }
          return Resynchronizing;
        }
        poisoned := false;
        lastByte := 0;
      }
      if haveByte {
        if offset < lastByte {
          buffer, haveByte, poisoned := [], false, true;
          return CharacterGap;
        }
        if offset - lastByte > timing.t15 {
          buffer, lastByte, haveByte, poisoned := [], offset, false, true;
          return CharacterGap;
        }
      }
      if |buffer| == MAX_ADU {
        buffer, lastByte, haveByte, poisoned := [], offset, false, true;
        return Overflow;
      }
      buffer, lastByte, haveByte := buffer + [value], offset, true;
      return Accepted;
    }

    method EndFrame(offset: GoInt) returns (result: Option<Decoded>)
      modifies this
      ensures View() == End(timing, old(View()), offset).0
      ensures var frame := End(timing, old(View()), offset).1;
              result == if frame.None? then None else Some(Decode(frame.value))
    {
      if poisoned || !haveByte || offset < lastByte || offset - lastByte < timing.t35 {
        return None;
      }
      var frame := buffer;
      Reset();
      return Some(Decode(frame));
    }
  }
}
