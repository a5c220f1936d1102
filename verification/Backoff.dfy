/**
  The exponential backoff of src/backoff_adjuster.cpp, and how src/thumbnailer.cpp configures,
  saves and restores it. Times are clock ticks since the epoch; periods are whole seconds.
 */
module BackoffRules {
  import opened Common

  const TICKS_PER_SECOND := 1_000_000_000

  datatype Adjuster = Adjuster(lastFail: int, period: int, min: int, max: int)

  /** The end of the period in force: retrying is allowed strictly after it. */
  function Deadline(b: Adjuster): int {
    b.lastFail + b.period * TICKS_PER_SECOND
  }

  predicate Valid(b: Adjuster) {
    0 < b.min <= b.max && (b.period == 0 || b.min <= b.period <= b.max)
  }

  predicate RetryOk(b: Adjuster, now: int) {
    b.period == 0 || now > Deadline(b)
  }

  /** adjust_retry_limit records a failure exactly when retrying was allowed. */
  function AdjustRetryLimit(b: Adjuster, now: int): Adjuster {
    if b.period == 0 then b.(period := b.min, lastFail := now)
    else if now > Deadline(b) then b.(period := Min(2 * b.period, b.max), lastFail := now)
    else b
  }

  function Reset(b: Adjuster, now: int): Adjuster {
    if b.period != 0 && now > Deadline(b) then b.(period := 0, lastFail := 0) else b
  }

  // ---- Runs ----

  /** A temporary failure or an answer from the server is reported at some time. */
  datatype Op = Failure(now: int) | Answer(now: int)

  function Apply(b: Adjuster, op: Op): Adjuster {
    match op
    case Failure(now) => AdjustRetryLimit(b, now)
    case Answer(now) => Reset(b, now)
  }

  function Run(b: Adjuster, ops: seq<Op>): Adjuster
    decreases |ops|
  {
    if ops == [] then b else Run(Apply(b, ops[0]), ops[1..])
  }

  predicate Recorded(b: Adjuster, op: Op) {
    op.Failure? && RetryOk(b, op.now)
  }

  /** The state right after each recorded failure: its time and the period it put in force. */
  function Records(b: Adjuster, ops: seq<Op>): seq<Adjuster>
    decreases |ops|
  {
    if ops == [] then []
    else (if Recorded(b, ops[0]) then [Apply(b, ops[0])] else []) + Records(Apply(b, ops[0]), ops[1..])
  }

  /** The clock does not run backwards. */
  predicate Ordered(start: int, ops: seq<Op>)
    decreases |ops|
  {
    ops == [] || (start <= ops[0].now && Ordered(ops[0].now, ops[1..]))
  }

  lemma {:induction false} RunValid(b: Adjuster, ops: seq<Op>)
    requires Valid(b)
    ensures Valid(Run(b, ops)) && Run(b, ops).min == b.min && Run(b, ops).max == b.max
    decreases |ops|
  {
    if ops != [] {
      RunValid(Apply(b, ops[0]), ops[1..]);
    }
  }

  /** Nothing that happens up to the deadline has any effect, in whatever order it is reported. */
  lemma {:induction false} FrozenUntilDeadline(b: Adjuster, ops: seq<Op>)
    requires b.period != 0
    requires forall op :: op in ops ==> op.now <= Deadline(b)
    ensures Run(b, ops) == b
    decreases |ops|
  {
    if ops != [] {
      assert ops[0] in ops;
      assert Apply(b, ops[0]) == b;
      forall op | op in ops[1..]
        ensures op.now <= Deadline(b)
      {
        assert op in ops;
      }
      FrozenUntilDeadline(b, ops[1..]);
    }
  }

  /**
    Every recorded failure is later than the deadline set by the one before, even when the
    adjuster was reset in between. `passed` is the last deadline set so far.
   */
  lemma {:induction false} Spacing(b: Adjuster, ops: seq<Op>, start: int, passed: int)
    requires Valid(b) && Ordered(start, ops)
    requires if b.period == 0 then start > passed else passed == Deadline(b)
    ensures var r := Records(b, ops);
            && (r != [] ==> r[0].lastFail > passed)
            && forall i :: 0 <= i < |r| - 1 ==> r[i + 1].lastFail > Deadline(r[i])
    decreases |ops|
  {
    if ops != [] {
      var b' := Apply(b, ops[0]);
      var passed' := if Recorded(b, ops[0]) then Deadline(b') else passed;
      Spacing(b', ops[1..], ops[0].now, passed');
      var r, rest := Records(b, ops), Records(b', ops[1..]);
      forall i | 0 <= i < |r| - 1
        ensures r[i + 1].lastFail > Deadline(r[i])
      {
        if Recorded(b, ops[0]) && i > 0 {
          assert r[i + 1] == rest[i] && r[i] == rest[i - 1];
        }
      }
    }
  }

  // ---- Growth of the period ----

  function PowerOfTwo(n: nat): nat {
    if n == 0 then 1 else 2 * PowerOfTwo(n - 1)
  }

  /** The period after the failure number `n` in a row, counting from zero. */
  function PeriodAfter(b: Adjuster, n: nat): int {
    Min(b.min * PowerOfTwo(n), b.max)
  }

  function TotalWait(b: Adjuster, n: nat): int {
    if n == 0 then 0 else TotalWait(b, n - 1) + PeriodAfter(b, n - 1)
  }

  /** No answer takes effect: each arrives while a period is in force, or while there is none. */
  predicate NoReset(b: Adjuster, ops: seq<Op>)
    decreases |ops|
  {
    ops == [] || ((ops[0].Answer? ==> Apply(b, ops[0]) == b) && NoReset(Apply(b, ops[0]), ops[1..]))
  }

  lemma PeriodDoubles(b: Adjuster, n: nat)
    requires Valid(b)
    ensures PeriodAfter(b, n + 1) == Min(2 * PeriodAfter(b, n), b.max)
    ensures b.min <= PeriodAfter(b, n) <= b.max
    decreases n
  {
    if n > 0 {
      PeriodDoubles(b, n - 1);
    }
    assert b.min * PowerOfTwo(n + 1) == 2 * (b.min * PowerOfTwo(n));
  }

  lemma PeriodAfterSameLimits(a: Adjuster, b: Adjuster, n: nat)
    requires a.min == b.min && a.max == b.max
    ensures PeriodAfter(a, n) == PeriodAfter(b, n)
  {
  }

  /** After `k` failures in a row, the next ones put in force the periods of the doubling sequence. */
  lemma {:induction false} Growth(b: Adjuster, ops: seq<Op>, k: nat, i: nat)
    requires Valid(b) && NoReset(b, ops)
    requires b.period == if k == 0 then 0 else PeriodAfter(b, k - 1)
    requires i < |Records(b, ops)|
    ensures Records(b, ops)[i].period == PeriodAfter(b, k + i)
    decreases |ops|
  {
    hide PeriodAfter;
    var b' := Apply(b, ops[0]);
    OnePeriod(b, ops[0], k);
    PeriodAfterSameLimits(b', b, k + i);
    if !Recorded(b, ops[0]) {
      Growth(b', ops[1..], k, i);
    } else if i > 0 {
      Growth(b', ops[1..], k + 1, i - 1);
    }
  }

  lemma OnePeriod(b: Adjuster, op: Op, k: nat)
    requires Valid(b) && b.period == if k == 0 then 0 else PeriodAfter(b, k - 1)
    requires op.Answer? ==> Apply(b, op) == b
    ensures var b' := Apply(b, op);
            && Valid(b') && b'.min == b.min && b'.max == b.max
            && if Recorded(b, op) then b'.period == PeriodAfter(b, k) == PeriodAfter(b', k) else b'.period == b.period
    ensures k > 0 ==> PeriodAfter(Apply(b, op), k - 1) == PeriodAfter(b, k - 1)
  {
    if k > 0 {
      PeriodDoubles(b, k - 1);
    }
  }

  /**
    Without a reset, failure number `n` after the first one comes later than the sum of the
    first `n` periods min(min * 2^i, max), and each period is as long as that sequence says.
   */
  lemma {:induction false} FailuresBackOff(b: Adjuster, ops: seq<Op>, start: int, n: nat)
    requires Valid(b) && b.period == 0 && Ordered(start, ops) && NoReset(b, ops)
    requires n < |Records(b, ops)|
    ensures var r := Records(b, ops);
            && r[n].period == PeriodAfter(b, n)
            && r[n].lastFail >= r[0].lastFail + TotalWait(b, n) * TICKS_PER_SECOND
            && (n > 0 ==> r[n].lastFail > r[0].lastFail + TotalWait(b, n) * TICKS_PER_SECOND)
    decreases n
  {
    Growth(b, ops, 0, n);
    Growth(b, ops, 0, if n == 0 then 0 else n - 1);
    Spacing(b, ops, start, start - 1);
    if n > 0 {
      FailuresBackOff(b, ops, start, n - 1);
    }
  }

  /**
    An answer counts exactly if a period was in force and is over. It then clears the period, so
    that retrying is allowed at any time, and the next failure starts over at the minimum.
   */
  lemma AnswerClears(b: Adjuster, now: int, later: int)
    requires Valid(b)
    ensures var b' := Apply(b, Answer(now));
            && b'.min == b.min && b'.max == b.max && (b' != b ==> b'.lastFail == b'.period == 0)
            && (b' != b <==> b.period > 0 && now > b.lastFail + b.period * TICKS_PER_SECOND)
            && (b' != b ==> RetryOk(b', later))
            && (b' != b ==> Apply(b', Failure(later)) == Adjuster(later, b.min, b.min, b.max))
  {
  }

  /** So the failures that follow an answer that counts go through the doubling sequence from its start. */
  lemma StartsOver(b: Adjuster, now: int, ops: seq<Op>, n: nat)
    requires Valid(b) && RetryOk(b, now) && NoReset(Apply(b, Answer(now)), ops)
    requires n < |Records(Apply(b, Answer(now)), ops)|
    ensures Records(b, [Answer(now)] + ops) == Records(Apply(b, Answer(now)), ops)
    ensures Records(b, [Answer(now)] + ops)[n].period == PeriodAfter(b, n)
  {
    var b' := Apply(b, Answer(now));
    assert ([Answer(now)] + ops)[1..] == ops;
    Growth(b', ops, 0, n);
    PeriodAfterSameLimits(b', b, n);
  }

  // ---- Configuration, saving and restoring ----

  /** The retry_error_max_seconds setting. */
  function RetryErrorMaxSeconds(retryErrorHours: int, extractionTimeout: int): int {
    if retryErrorHours * 3600 < 2 * extractionTimeout then 2 * extractionTimeout else retryErrorHours * 3600
  }

  function Configured(retryErrorHours: int, extractionTimeout: int): Adjuster {
    Adjuster(0, 0, 2 * extractionTimeout, RetryErrorMaxSeconds(retryErrorHours, extractionTimeout))
  }

  /**
    The configuration is always a valid one, but the assertion of set_max_backoff asks for
    twice the minimum, and holds exactly if the retry limit is at least four timeouts.
   */
  lemma ConfigurationAssertion(retryErrorHours: int, extractionTimeout: int)
    requires retryErrorHours > 0 && extractionTimeout > 0
    ensures var b := Configured(retryErrorHours, extractionTimeout);
            && Valid(b)
            && (b.max >= 2 * b.min <==> retryErrorHours * 3600 >= 4 * extractionTimeout)
  {
  }

  lemma ConfigurationAssertionFails()
    ensures var b := Configured(1, 1000); Valid(b) && !(b.max >= 2 * b.min)
  {
  }

  /** What the destructor has put into the failure cache, as far as it is still there: whole seconds, and the period. */
  datatype Saved = Saved(lastFail: Option<int>, period: Option<int>)

  function Save(b: Adjuster): Saved {
    Saved(Some(b.lastFail / TICKS_PER_SECOND), Some(b.period))
  }

  /** The entries of the second are those of the first, or missing. */
  predicate Survives(kept: Saved, saved: Saved) {
    (kept.lastFail.None? || kept.lastFail == saved.lastFail) && (kept.period.None? || kept.period == saved.period)
  }

  /** The constructor, with the settings of the new run. */
  function Restored(saved: Saved, min: int, max: int): Adjuster {
    Adjuster(if saved.lastFail.Some? then saved.lastFail.value * TICKS_PER_SECOND else 0,
             if saved.period.Some? then saved.period.value else 0,
             min, max)
  }

  /**
    Whatever has become of the entries and of the settings, a restart never prolongs the wait.
    The adjuster is valid exactly if the restored period is within the new limits, and the
    assertion of set_backoff_period fails exactly if it is above them.
   */
  lemma RestartNeverProlongs(b: Adjuster, kept: Saved, min: int, max: int, now: int)
    requires Valid(b) && b.lastFail >= 0 && Survives(kept, Save(b)) && 0 < min <= max
    ensures var r := Restored(kept, min, max);
            && (RetryOk(b, now) ==> RetryOk(r, now))
            && (Valid(r) <==> kept.period.None? || b.period == 0 || min <= b.period <= max)
            && (r.period <= max <==> kept.period.None? || b.period <= max)
  {
  }

  /**
    The wait is shortened by less than a second if both entries survive, or if there was
    nothing to wait for. If one is lost it can end at once: a lost period ends it, and a lost
    time of failure lets it end when the period has passed since the epoch.
   */
  lemma RestartShortens(b: Adjuster, kept: Saved, min: int, max: int, now: int)
    requires Valid(b) && b.lastFail >= 0 && Survives(kept, Save(b)) && 0 < min <= max
    ensures var r := Restored(kept, min, max);
            if kept.period.None? || b.period == 0 then RetryOk(r, now)
            else if kept.lastFail.None? then RetryOk(r, now) <==> now > b.period * TICKS_PER_SECOND
            else RetryOk(r, now) ==> RetryOk(b, now + TICKS_PER_SECOND - 1)
    ensures kept == Save(b) ==> Save(Restored(kept, min, max)) == Save(b)
  {
  }
}
