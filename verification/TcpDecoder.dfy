/** The incremental decoder as the source runs it, proved against the parse of the whole stream. */
module TcpDecoder {
  import opened Common
  import opened TcpAdu

  class TCPStreamDecoder {
    const setting: Setting
    var buffer: Bytes

    ghost predicate Valid()
      reads this
    {
      ValidSetting(setting) && Waiting(setting, buffer) && |buffer| <= setting.bound
    }

    constructor (s: Setting)
      requires ValidSetting(s)
      ensures Valid() && setting == s && buffer == []
    {
      setting := s;
      buffer := [];
    }

    method FailFrame(status: Status, undelivered: seq<Bytes>, remainder: Bytes) returns (failure: Failure)
      modifies this
      ensures buffer == []
      ensures failure == Failure(status, if setting.framing == Tolerant then Flat(undelivered) + old(buffer) + remainder else [])
    {
      if setting.framing != Tolerant {
        buffer := [];
        return Failure(status, []);
      }
      var raw := [];
      for i := 0 to |undelivered|
        invariant raw == Flat(undelivered[..i]) && buffer == old(buffer)
      {
        assert undelivered[..i + 1] == undelivered[..i] + [undelivered[i]];
        FlatAppend(undelivered[..i], [undelivered[i]]);
        FlatCons(undelivered[i], []);
        raw := raw + undelivered[i];
      }
      assert undelivered[..|undelivered|] == undelivered;
      raw := raw + buffer + remainder;
      buffer := [];
      return Failure(status, raw);
    }

    /** Takes from the fragment only what the next header or unit still needs. */
    method Feed(fragment: Bytes) returns (frames: seq<Bytes>, failure: Option<Failure>)
      requires Valid()
      modifies this
      ensures Valid() && Fed(frames, buffer, failure) == TcpAdu.Feed(setting, old(buffer), fragment)
    {
      hide Flat, Parse;
      ghost var all := buffer + fragment;
      frames := [];
      var left := fragment;
      FeedStarts(setting, all);
      while true
        invariant |buffer| <= setting.bound && ValidSetting(setting)
        invariant Continues(setting, all, frames, buffer + left)
        invariant Flat(frames) + (buffer + left) == all
        invariant |buffer| >= HEADER ==> 6 + LengthField(buffer) >= |buffer| || Front(setting, buffer) != More
        decreases |buffer| + |left|, |left|
      {
        ghost var rest := buffer + left;
        if |buffer| < HEADER {
          if |left| == 0 {
            assert rest == buffer;
            ContinuesEnds(setting, all, frames, rest);
            FeedWaits(setting, old(buffer), fragment);
            return frames, None;
          }
          var needed := if HEADER - |buffer| > |left| then |left| else HEADER - |buffer|;
          buffer, left := buffer + left[..needed], left[needed..];
          assert buffer + left == rest;
          continue;
        }
        FrontOfBuffer(setting, buffer, left);
        if buffer[2] != 0 || buffer[3] != 0 || LengthField(buffer) < MIN_LENGTH || LengthField(buffer) > LengthBound(setting.framing) {
          ContinuesEnds(setting, all, frames, rest);
          assert Flat(frames) + buffer + left == all;
          var f := FailFrame(if buffer[2] != 0 || buffer[3] != 0 then BadProtocol else BadLength, frames, left);
          EmptyWaits(setting);
          return [], Some(f);
        }
        var total := 6 + LengthField(buffer);
        if |buffer| < total {
          if |left| == 0 {
            assert rest == buffer;
            ContinuesEnds(setting, all, frames, rest);
            FeedWaits(setting, old(buffer), fragment);
            return frames, None;
          }
          var available := setting.bound - |buffer|;
          if available == 0 {
            ContinuesEnds(setting, all, frames, rest);
            buffer := [];
            EmptyWaits(setting);
            return frames, Some(Failure(Overflow, []));
          }
          var needed := total - |buffer|;
          needed := if needed > |left| then |left| else needed;
          needed := if needed > available then available else needed;
          buffer, left := buffer + left[..needed], left[needed..];
          assert buffer + left == rest;
          continue;
        }
        ContinuesStep(setting, all, frames, rest);
        FlatMore(frames, buffer[..total], buffer[total..] + left);
        assert rest[..total] == buffer[..total] && rest[total..] == buffer[total..] + left;
        assert rest == buffer[..total] + (buffer[total..] + left);
        frames := frames + [buffer[..total]];
        buffer := buffer[total..];
      }
    }

    method Finish() returns (raw: Option<Bytes>)
      requires Valid()
      modifies this
      ensures Valid() && buffer == [] && raw == TcpAdu.Finish(setting, old(buffer))
    {
      EmptyWaits(setting);
      if |buffer| == 0 {
        return None;
      }
      var f := FailFrame(More, [], []);
      assert [] + old(buffer) + [] == old(buffer);
      return Some(f.raw);
    }
  }

  lemma {:induction false} FlatMore(frames: seq<Bytes>, x: Bytes, rest: Bytes)
    ensures Flat(frames + [x]) + rest == Flat(frames) + (x + rest)
  {
    FlatAppend(frames, [x]);
    FlatCons(x, []);
    assert [x] + [] == [x];
    assert Flat(frames) + x + rest == Flat(frames) + (x + rest);
  }

  lemma {:induction false} EmptyWaits(c: Setting)
    ensures Waiting(c, [])
  {
  }

  /** After `frames`, the parse of the whole goes on with the parse of `rest`. */
  ghost predicate Continues(c: Setting, all: Bytes, frames: seq<Bytes>, rest: Bytes) {
    var p := Parse(c, rest);
    Parse(c, all) == p.(frames := frames + p.frames)
  }

  lemma {:induction false} FeedStarts(c: Setting, all: Bytes)
    ensures Continues(c, all, [], all) && Flat([]) + all == all
  {
    assert [] + Parse(c, all).frames == Parse(c, all).frames;
  }

  lemma {:induction false} ContinuesEnds(c: Setting, all: Bytes, frames: seq<Bytes>, rest: Bytes)
    requires Continues(c, all, frames, rest) && !Complete(c, rest)
    ensures Parse(c, all) == Parsed(frames, rest, Front(c, rest))
  {
    assert frames + [] == frames;
  }

  lemma {:induction false} ContinuesStep(c: Setting, all: Bytes, frames: seq<Bytes>, rest: Bytes)
    requires Continues(c, all, frames, rest) && Complete(c, rest)
    ensures var total := 6 + LengthField(rest); Continues(c, all, frames + [rest[..total]], rest[total..])
  {
    var total := 6 + LengthField(rest);
    var p := Parse(c, rest[total..]);
    assert frames + ([rest[..total]] + p.frames) == frames + [rest[..total]] + p.frames;
  }

  lemma {:induction false} FrontOfBuffer(c: Setting, buffer: Bytes, left: Bytes)
    requires |buffer| >= HEADER
    ensures LengthField(buffer + left) == LengthField(buffer)
    ensures forall i :: 0 <= i < HEADER ==> (buffer + left)[i] == buffer[i]
  {
  }
}
