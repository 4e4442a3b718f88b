/** Deadlines: checked addition and the O(1) merge of missed periods. */
module TimeConvert {
  import opened Errors
  import opened Durations

  function CheckedDeadline(now: Duration, after: Duration): Result<Duration> {
    match CheckedAdd(now, after)
    case None => Err(Overflow)
    case Some(d) => Ok(d)
  }

  /** The closed-form computation, with each `u128` and `u64` overflow check of the code. */
  function NextPeriodicDeadline(previous: Duration, period: Duration, now: Duration): Result<Duration> {
    if period == 0 then Err(InvalidParameter)
    else if previous > now then Ok(previous)
    else
      var elapsed := now - previous;
      var missed := elapsed / period + 1;
      if missed > U128_MAX then Err(Overflow)
      else
        var advance := period * missed;
        if advance > U128_MAX then Err(Overflow)
        else if advance / NANOS_PER_SEC > U64_MAX then Err(Overflow)
        else
          match CheckedAdd(previous, Join(Parts(advance / NANOS_PER_SEC, advance % NANOS_PER_SEC)))
          case None => Err(Overflow)
          case Some(d) => Ok(d)
  }

  /** The reference: step period by period until the deadline lies after `now`. */
  function StepPast(deadline: nat, period: nat, now: nat): nat
    requires period > 0
    decreases now + 1 - deadline
  {
    if deadline > now then deadline else StepPast(deadline + period, period, now)
  }

  /** The reference is on the grid of the original deadline, and it is the first grid point after
      `now` that is not before the deadline. */
  lemma {:induction false} StepPastIsLeast(deadline: nat, period: nat, now: nat) returns (k: nat)
    requires period > 0
    decreases now + 1 - deadline
    ensures StepPast(deadline, period, now) == deadline + k * period > now
    ensures k > 0 ==> deadline + (k - 1) * period <= now
  {
    if deadline > now {
      k := 0;
    } else {
      var j := StepPastIsLeast(deadline + period, period, now);
      k := j + 1;
      assert deadline + period + j * period == deadline + k * period;
      if j > 0 { assert deadline + period + (j - 1) * period == deadline + (k - 1) * period; }
    }
  }

  /** How far the closed form advances: past `now`, by at most one period more than has elapsed. */
  lemma AdvanceBounds(elapsed: nat, period: nat)
    requires period > 0
    ensures elapsed < period * (elapsed / period + 1) <= elapsed + period
  {
    var q := elapsed / period;
    assert period * (q + 1) == period * q + period;
  }

  lemma MultiplesApart(i: nat, j: nat, period: nat)
    requires i < j
    ensures (i + 1) * period <= j * period
  {
  }

  /** The number of steps of the reference is the number of missed periods. */
  lemma StepPastIsClosed(previous: nat, period: nat, now: nat)
    requires period > 0 && previous <= now
    ensures StepPast(previous, period, now) == previous + period * ((now - previous) / period + 1)
  {
    var missed := (now - previous) / period + 1;
    AdvanceBounds(now - previous, period);
    var k := StepPastIsLeast(previous, period, now);
    if k < missed {
      MultiplesApart(k, missed, period);
    } else if missed < k {
      MultiplesApart(missed, k, period);
      MultiplesApart(missed - 1, k - 1, period);
    }
  }

  /** Merging missed periods in O(1) equals stepping through them one by one; overflow is reported
      exactly when the resulting deadline is not a `Duration`, never by an intermediate value. */
  lemma MergeEqualsStepping(previous: Duration, period: Duration, now: Duration)
    requires period > 0
    ensures var next := StepPast(previous, period, now);
            NextPeriodicDeadline(previous, period, now) == if next <= DURATION_MAX then Ok(next) else Err(Overflow)
  {
    if previous <= now {
      StepPastIsClosed(previous, period, now);
      AdvanceBounds(now - previous, period);
      MissedIsSmall(now - previous, period);
    }
  }

  lemma MissedIsSmall(elapsed: nat, period: nat)
    requires period > 0
    ensures elapsed / period <= elapsed
  {
    var q := elapsed / period;
    assert q * period <= elapsed;
    Grows(q, period);
  }

  lemma Grows(q: nat, p: nat)
    requires p > 0
    ensures q <= q * p
  {
  }
}
