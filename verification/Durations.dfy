/**
 `core::time::Duration` as a bounded number of nanoseconds.  The seconds and sub-second parts that
 the code builds and takes apart carry the same information.
 */
module Durations {
  import opened Errors

  const NANOS_PER_SEC: nat := 1_000_000_000
  const DURATION_MAX: nat := U64_MAX * NANOS_PER_SEC + (NANOS_PER_SEC - 1)

  type Duration = d: nat | d <= DURATION_MAX

  /** The stored form: `u64` seconds and a sub-second part below one billion. */
  datatype Parts = Parts(secs: nat, nanos: nat) {
    predicate Valid() { secs <= U64_MAX && nanos < NANOS_PER_SEC }
  }

  function Split(d: Duration): (p: Parts)
    ensures p.Valid()
  {
    Parts(d / NANOS_PER_SEC, d % NANOS_PER_SEC)
  }

  function Join(p: Parts): Duration
    requires p.Valid()
  {
    p.secs * NANOS_PER_SEC + p.nanos
  }

  /** The two representations are in one-to-one correspondence. */
  lemma PartsAreLossless(d: Duration, p: Parts)
    requires p.Valid()
    ensures Join(Split(d)) == d
    ensures Split(Join(p)) == p
    ensures Join(p) <= d <==> p.secs < Split(d).secs || (p.secs == Split(d).secs && p.nanos <= Split(d).nanos)
  {
  }

  function CheckedAdd(a: Duration, b: Duration): Option<Duration> {
    if a + b <= DURATION_MAX then Some(a + b) else None
  }

  function SaturatingAdd(a: Duration, b: Duration): Duration {
    if a + b <= DURATION_MAX then a + b else DURATION_MAX
  }

  function SaturatingSub(a: Duration, b: Duration): Duration {
    if a <= b then 0 else a - b
  }
}
