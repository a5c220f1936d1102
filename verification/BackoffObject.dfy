/** The backoff adjuster as an object; its methods are proved against `BackoffRules`. */
module BackoffObject {
  import opened BackoffRules
  import opened Common

  class BackoffAdjuster {
    var lastFail: int
    var period: int
    var min: int
    var max: int

    ghost function State(): Adjuster
      reads this
    {
      Adjuster(lastFail, period, min, max)
    }

    constructor ()
      ensures State() == Adjuster(0, 0, 1, 2) && Valid(State())
    {
      lastFail, period, min, max := 0, 0, 1, 2;
    }

    method SetLastFailTime(time: int)
      modifies this`lastFail
      ensures lastFail == time
    {
      lastFail := time;
    }

    method SetBackoffPeriod(seconds: int)
      requires seconds <= max
      modifies this`period
      ensures period == seconds
    {
      period := seconds;
    }

    method SetMinBackoff(seconds: int)
      requires seconds > 0
      modifies this`min
      ensures min == seconds
    {
      min := seconds;
    }

    method SetMaxBackoff(seconds: int)
      requires seconds > 0 && seconds >= 2 * min
      modifies this`max
      ensures max == seconds
    {
      max := seconds;
    }

    method CheckRetry(now: int) returns (ok: bool)
      ensures ok == RetryOk(State(), now)
    {
      if period == 0 {
        return true;
      }
      ok := now > lastFail + period * TICKS_PER_SECOND;
    }

    /** Returns whether the failure was recorded. */
    method AdjustRetryLimit(now: int) returns (adjusted: bool)
      modifies this`lastFail, this`period
      ensures State() == BackoffRules.AdjustRetryLimit(old(State()), now)
      ensures adjusted == RetryOk(old(State()), now)
    {
      if period == 0 {
        period := min;
        lastFail := now;
        return true;
      }
      if now > lastFail + period * TICKS_PER_SECOND {
        period := Min(2 * period, max);
        lastFail := now;
        return true;
      }
      return false;
    }

    method Reset(now: int)
      modifies this`lastFail, this`period
      ensures State() == BackoffRules.Reset(old(State()), now)
    {
      if period != 0 {
        if now > lastFail + period * TICKS_PER_SECOND {
          period := 0;
          lastFail := 0;
        }
      }
    }
  }
}
