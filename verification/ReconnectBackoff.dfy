/** The backoff of one endpoint as the source runs it. */
module ReconnectBackoffs {
  import opened Common
  import opened Backoff

  class ReconnectBackoff {
    const config: Config
    var attempt: nat
    var emitted: seq<GoInt>

    ghost function View(): State
      reads this
    {
      State(attempt, emitted)
    }

    ghost predicate Valid()
      reads this
    {
      ValidConfig(config) && Within(config, View())
    }

    constructor (c: Config)
      requires ValidConfig(c)
      ensures Valid() && config == c && View() == State(0, [])
    {
      config, attempt, emitted := c, 0, [];
    }

    /** The doubling loop, left early once the ceiling is reached. */
    method BaseDelay() returns (base: GoInt)
      requires Valid()
      ensures base == Base(config, attempt)
    {
      base := config.floor;
      var step := 0;
      while step < attempt
        invariant 0 <= step <= attempt && 0 < base <= config.ceiling
        invariant Doubled(config.ceiling, base, attempt - step) == Base(config, attempt)
      {
        if base >= config.ceiling / 2 {
          base := config.ceiling;
          break;
        }
        base, step := base * 2, step + 1;
      }
      if base > config.ceiling {
        base := config.ceiling;
      }
    }

    method NextDelayBefore(remaining: GoInt, jitter: GoInt, reset: bool) returns (next: Next)
      requires Valid()
      modifies this
      ensures Valid() && (View(), next) == NextBefore(config, old(View()), remaining, jitter, reset)
    {
      DelayFits(config, View(), remaining, jitter, reset);
      hide Within, Doubled;
      if attempt >= config.maxAttempts {
        return AttemptsSpent;
      }
      var current := attempt;
      var base := BaseDelay();
      if remaining > 0 && base >= remaining {
        return PastDeadline;
      }
      var extra := jitter;
      if extra < 0 {
        extra := 0;
      }
      if extra > config.ceiling - base {
        extra := config.ceiling - base;
      }
      if reset {
        ValidCorrelatedResponse();
      }
      if remaining > 0 && base + extra >= remaining {
        return PastDeadline;
      }
      if attempt != current {
        return Overtaken;
      }
      attempt := attempt + 1;
      if |emitted| == config.maxAttempts {
        emitted := emitted[1..];
      }
      emitted := emitted + [extra];
      return Delay(base + extra);
    }

    method ValidCorrelatedResponse()
      requires Valid()
      modifies this
      ensures Valid() && View() == old(View()).(attempt := 0)
    {
      attempt := 0;
    }
  }
}
