/** Reconnect delays: doubling from the floor up to the ceiling, with jitter that never leaves those bounds. */
module Backoff {
  import opened Common

  datatype Config = Config(floor: GoInt, ceiling: GoInt, maxAttempts: GoInt)

  predicate ValidConfig(c: Config) {
    0 < c.floor <= c.ceiling && c.maxAttempts > 0
  }

  /** The doubling as the source steps it: it snaps to the ceiling from half of it on, rounded down. */
  function Doubled(ceiling: GoInt, base: GoInt, steps: nat): (r: GoInt)
    requires 0 < base <= ceiling
    ensures base <= r <= ceiling
    decreases steps
  {
    if steps == 0 then base
    else if base >= ceiling / 2 then ceiling
    else Doubled(ceiling, base * 2, steps - 1)
  }

  function Base(c: Config, attempt: nat): (r: GoInt)
    requires ValidConfig(c)
    ensures c.floor <= r <= c.ceiling
  {
    Doubled(c.ceiling, c.floor, attempt)
  }

  /** True doubling, without a bound. */
  ghost function Scaled(base: nat, n: nat): (r: nat)
    ensures r >= base
    decreases n
  {
    if n == 0 then base else 2 * Scaled(base, n - 1)
  }

  lemma {:induction false} ScaledShift(base: nat, n: nat)
    ensures Scaled(2 * base, n) == Scaled(base, n + 1)
    decreases n
  {
    if n > 0 {
      ScaledShift(base, n - 1);
    }
  }

  lemma {:induction false} DoubledClosed(ceiling: GoInt, base: GoInt, n: nat)
    requires 0 < base <= ceiling
    ensures Doubled(ceiling, base, n) == if n > 0 && Scaled(base, n - 1) >= ceiling / 2 then ceiling else Scaled(base, n)
    decreases n
  {
    if n > 0 && base < ceiling / 2 {
      DoubledClosed(ceiling, base * 2, n - 1);
      ScaledShift(base, n - 1);
      if n > 1 {
        ScaledShift(base, n - 2);
      }
    }
  }

  /** The stepwise base in closed form. */
  lemma {:induction false} BaseClosed(c: Config, n: nat)
    requires ValidConfig(c)
    ensures Base(c, n) == if n > 0 && Scaled(c.floor, n - 1) >= c.ceiling / 2 then c.ceiling else Scaled(c.floor, n)
  {
    DoubledClosed(c.ceiling, c.floor, n);
  }

  /** It never falls behind true doubling, except where that passes the ceiling, and it leaves it only for the ceiling. */
  lemma {:induction false} BaseBounds(c: Config, n: nat)
    requires ValidConfig(c)
    ensures Base(c, n) >= (if Scaled(c.floor, n) < c.ceiling then Scaled(c.floor, n) else c.ceiling)
    ensures Base(c, n) == Scaled(c.floor, n) || Base(c, n) == c.ceiling
  {
    BaseClosed(c, n);
  }

  /** The base never falls from one attempt to a later one. */
  lemma {:induction false} BaseGrows(c: Config, m: nat, n: nat)
    requires ValidConfig(c) && m <= n
    ensures Base(c, m) <= Base(c, n)
    decreases n - m
  {
    if m < n {
      BaseGrows(c, m + 1, n);
      BaseClosed(c, m);
      BaseClosed(c, m + 1);
    }
  }

  function Clamped(jitter: GoInt, upper: GoInt): (r: GoInt)
    requires upper >= 0
    ensures 0 <= r <= upper && (0 <= jitter <= upper ==> r == jitter)
  {
    if jitter < 0 then 0 else if jitter > upper then upper else jitter
  }

  datatype State = State(attempt: nat, emitted: seq<GoInt>)

  datatype Next = Delay(delay: GoInt) | AttemptsSpent | PastDeadline | Overtaken

  /** The last `limit` jitters, oldest first. */
  function Emit(emitted: seq<GoInt>, jitter: GoInt, limit: nat): seq<GoInt> {
    (if |emitted| == limit && limit > 0 then emitted[1..] else emitted) + [jitter]
  }

  /** `reset` says that a valid response came in while the jitter was drawn. A positive `remaining` is the time left. */
  function NextBefore(c: Config, s: State, remaining: GoInt, jitter: GoInt, reset: bool): (State, Next)
    requires ValidConfig(c)
  {
    if s.attempt >= c.maxAttempts then (s, AttemptsSpent)
    else
      var base := Base(c, s.attempt);
      if remaining > 0 && base >= remaining then (s, PastDeadline)
      else
        var extra := Clamped(jitter, c.ceiling - base);
        var t := if reset then s.(attempt := 0) else s;
        if remaining > 0 && base + extra >= remaining then (t, PastDeadline)
        else if t.attempt != s.attempt then (t, Overtaken)
        else (State(s.attempt + 1, Emit(s.emitted, extra, c.maxAttempts)), Delay(base + extra))
  }

  predicate Within(c: Config, s: State) {
    s.attempt <= c.maxAttempts && |s.emitted| <= c.maxAttempts && forall i :: 0 <= i < |s.emitted| ==> 0 <= s.emitted[i] <= c.ceiling - c.floor
  }

  /** A delay lies between the base of its attempt and the ceiling, and below what remains; the state stays bounded. */
  lemma {:induction false} DelayFits(c: Config, s: State, remaining: GoInt, jitter: GoInt, reset: bool)
    requires ValidConfig(c) && Within(c, s)
    ensures var (t, next) := NextBefore(c, s, remaining, jitter, reset);
            && Within(c, t)
            && (next.Delay? ==> Base(c, s.attempt) <= next.delay <= c.ceiling && (remaining > 0 ==> next.delay < remaining) && t.attempt == s.attempt + 1)
            && (!next.Delay? ==> t.attempt <= s.attempt && t.emitted == s.emitted)
  {
    var base := Base(c, s.attempt);
    var extra := Clamped(jitter, c.ceiling - base);
    var all := Emit(s.emitted, extra, c.maxAttempts);
    assert forall i :: 0 <= i < |all| - 1 ==> all[i] in s.emitted;
  }

  /** The base of an attempt by true doubling: the ceiling once half of it was reached one attempt earlier. */
  ghost function TrueBase(c: Config, n: nat): (r: int)
    requires ValidConfig(c)
    ensures c.floor <= r <= c.ceiling
  {
    BaseClosed(c, n);
    if n > 0 && Scaled(c.floor, n - 1) >= c.ceiling / 2 then c.ceiling else Scaled(c.floor, n)
  }

  /**
   The exact answer: a delay is the base and the jitter, cut to what the ceiling leaves, and is granted exactly while attempts
   are left, it ends before the time does, if there is a limit, and no response came in since an earlier attempt. A base that
   is too long by itself leaves the progression alone; otherwise such a response starts it over.
   */
  lemma {:induction false} DelaysIff(c: Config, s: State, remaining: GoInt, jitter: GoInt, reset: bool)
    requires ValidConfig(c)
    ensures var (t, next) := NextBefore(c, s, remaining, jitter, reset);
            var base := TrueBase(c, s.attempt);
            var extra := if jitter < 0 then 0 else if base + jitter > c.ceiling then c.ceiling - base else jitter;
            var drawn := s.attempt < c.maxAttempts && (remaining <= 0 || base < remaining);
            && (next == AttemptsSpent <==> s.attempt >= c.maxAttempts)
            && (next.Delay? <==> drawn && (remaining <= 0 || base + extra < remaining) && (reset ==> s.attempt == 0))
            && (next.Delay? ==>
                  && next.delay == base + extra && t.attempt == s.attempt + 1 && 0 < |t.emitted| && t.emitted[|t.emitted| - 1] == extra
                  && t.emitted[..|t.emitted| - 1] == (if |s.emitted| == c.maxAttempts then s.emitted[1..] else s.emitted))
            && (!next.Delay? ==> t == if drawn && reset then s.(attempt := 0) else s)
            && (next == Overtaken <==> drawn && (remaining <= 0 || base + extra < remaining) && reset && s.attempt > 0)
  {
    BaseClosed(c, s.attempt);
  }
}
