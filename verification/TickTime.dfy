/** Conversions between a wrapping tick counter and `Duration`. */
module TickTime {
  import opened Errors
  import opened Durations
  import opened Bits

  datatype TickConfig = TickConfig(rateHz: nat, bits: nat)

  datatype TickSnapshot = TickSnapshot(overflowCount: nat, tickCount: nat) {
    /** What the kernel guarantees of a coherent sample. */
    predicate Coherent(bits: nat) { overflowCount <= U64_MAX && tickCount < Pow2(bits) }
  }

  predicate ValidRate(rate: nat) { 0 < rate <= U32_MAX }
  predicate ValidBits(bits: nat) { bits == 16 || bits == 32 || bits == 64 }

  function DurationToTicksCeil(duration: Duration, rate: nat): Result<nat> {
    if rate == 0 then Err(InvalidParameter)
    else if duration == 0 then Ok(0)
    else if duration * rate > U128_MAX then Err(Overflow)
    else if duration * rate + (NANOS_PER_SEC - 1) > U128_MAX then Err(Overflow)
    else Ok((duration * rate + (NANOS_PER_SEC - 1)) / NANOS_PER_SEC)
  }

  /** Whole seconds and remainder separately, saturating when the seconds leave `u64`. */
  function TicksToDuration(ticks: nat, rate: nat): Duration
    requires rate > 0
  {
    var seconds := ticks / rate;
    var nanos := ticks % rate * NANOS_PER_SEC / rate;
    SubSecond(ticks % rate, rate);
    if seconds > U64_MAX then DURATION_MAX else Join(Parts(seconds, nanos))
  }

  function ExpandTicks(s: TickSnapshot, bits: nat): nat {
    Or(s.overflowCount * Pow2(bits), s.tickCount)
  }

  function SnapshotToDuration(s: TickSnapshot, c: TickConfig): Result<Duration> {
    if c.rateHz == 0 then Err(InvalidParameter)
    else if !ValidBits(c.bits) then Err(InvalidParameter)
    else Ok(TicksToDuration(ExpandTicks(s, c.bits), c.rateHz))
  }

  lemma MulMono(a: nat, b: nat, c: nat)
    requires a <= b
    ensures a * c <= b * c
  {
  }

  lemma SubSecond(remainder: nat, rate: nat)
    requires remainder < rate
    ensures remainder * NANOS_PER_SEC / rate < NANOS_PER_SEC
  {
    var q := remainder * NANOS_PER_SEC / rate;
    assert q * rate <= remainder * NANOS_PER_SEC;
    if q >= NANOS_PER_SEC { MulMono(NANOS_PER_SEC, q, rate); }
  }

  lemma CeilIsLeast(n: nat, j: nat)
    ensures (n + (NANOS_PER_SEC - 1)) / NANOS_PER_SEC <= j <==> n <= j * NANOS_PER_SEC
  {
  }

  /** The `u128` intermediate results never overflow: the conversion succeeds for every duration and
      every `u32` rate. */
  lemma CeilNeverOverflows(d: Duration, rate: nat)
    requires ValidRate(rate)
    ensures DurationToTicksCeil(d, rate) == Ok((d * rate + (NANOS_PER_SEC - 1)) / NANOS_PER_SEC)
    ensures DurationToTicksCeil(d, rate).value == 0 <==> d == 0
  {
    MulMono(d, DURATION_MAX, rate);
    MulMono(rate, U32_MAX, DURATION_MAX);
    assert U32_MAX * DURATION_MAX + NANOS_PER_SEC < U128_MAX;
    if d > 0 { MulMono(1, d, rate); }
  }

  lemma Floor(a: nat, b: nat)
    requires b > 0
    ensures a / b * b <= a < (a / b + 1) * b
  {
  }

  /** `v` is the floor of `n / rate`, so it reaches what `n / rate` reaches. */
  lemma FloorReaches(v: nat, d: nat, rate: nat, n: nat)
    requires v * rate <= n < (v + 1) * rate
    ensures v >= d <==> d * rate <= n
  {
    if v >= d { MulMono(d, v, rate); } else { MulMono(v + 1, d, rate); }
  }

  lemma SplitFloor(s: nat, r: nat, n: nat, rate: nat)
    requires n * rate <= r * NANOS_PER_SEC < (n + 1) * rate
    ensures (s * NANOS_PER_SEC + n) * rate <= (s * rate + r) * NANOS_PER_SEC < (s * NANOS_PER_SEC + n + 1) * rate
  {
    var whole := s * NANOS_PER_SEC;
    assert (whole + n) * rate == whole * rate + n * rate;
    assert (whole + n + 1) * rate == whole * rate + (n + 1) * rate;
    assert (s * rate + r) * NANOS_PER_SEC == s * rate * NANOS_PER_SEC + r * NANOS_PER_SEC;
    assert whole * rate == s * rate * NANOS_PER_SEC;
  }

  /** Below saturation the split computation is the exact floor. */
  lemma TicksFloor(ticks: nat, rate: nat, d: nat)
    requires rate > 0
    ensures ticks / rate * NANOS_PER_SEC + ticks % rate * NANOS_PER_SEC / rate >= d <==>
            d * rate <= ticks * NANOS_PER_SEC
  {
    var s, r := ticks / rate, ticks % rate;
    var n := r * NANOS_PER_SEC / rate;
    Floor(r * NANOS_PER_SEC, rate);
    SplitFloor(s, r, n, rate);
    assert ticks == s * rate + r;
    FloorReaches(s * NANOS_PER_SEC + n, d, rate, ticks * NANOS_PER_SEC);
  }

  /** The two conversions are adjoint, saturation included: a tick count reaches a duration exactly
      when it is at least the duration's ceiling. */
  lemma ConversionsAreAdjoint(ticks: nat, d: Duration, rate: nat)
    requires ValidRate(rate)
    ensures DurationToTicksCeil(d, rate).Ok?
    ensures TicksToDuration(ticks, rate) >= d <==> ticks >= DurationToTicksCeil(d, rate).value
  {
    CeilNeverOverflows(d, rate);
    TicksFloor(ticks, rate, d);
    CeilIsLeast(d * rate, ticks);
    SubSecond(ticks % rate, rate);
  }

  /** Time never runs backwards in the tick count. */
  lemma TicksAreMonotone(a: nat, b: nat, rate: nat)
    requires ValidRate(rate) && a <= b
    ensures TicksToDuration(a, rate) <= TicksToDuration(b, rate)
  {
    var d := TicksToDuration(a, rate);
    ConversionsAreAdjoint(a, d, rate);
    ConversionsAreAdjoint(b, d, rate);
  }

  /** Covering a duration's ceiling from any instant advances the clock by that duration, or
      saturates it. */
  lemma CeilCovers(from: nat, d: Duration, rate: nat)
    requires ValidRate(rate)
    ensures DurationToTicksCeil(d, rate).Ok?
    ensures TicksToDuration(from + DurationToTicksCeil(d, rate).value, rate) >=
            SaturatingAdd(TicksToDuration(from, rate), d)
  {
    CeilNeverOverflows(d, rate);
    var now, k := TicksToDuration(from, rate), DurationToTicksCeil(d, rate).value;
    var goal := SaturatingAdd(now, d);
    ConversionsAreAdjoint(from, now, rate);
    ConversionsAreAdjoint(from + k, goal, rate);
    CeilNeverOverflows(now, rate);
    CeilNeverOverflows(goal, rate);
    CeilIsLeast(now * rate, from);
    CeilIsLeast(d * rate, k);
    CeilIsLeast(goal * rate, from + k);
    SumCovers(now, d, goal, rate, from, k);
  }

  lemma SumCovers(a: nat, b: nat, c: nat, rate: nat, i: nat, j: nat)
    requires c <= a + b && a * rate <= i * NANOS_PER_SEC && b * rate <= j * NANOS_PER_SEC
    ensures c * rate <= (i + j) * NANOS_PER_SEC
  {
    MulMono(c, a + b, rate);
    assert (a + b) * rate == a * rate + b * rate;
  }

  /** A coherent snapshot is a mixed-radix number, and one tick more, with the wrap, is the next one. */
  lemma ExpansionIsExact(s: TickSnapshot, bits: nat)
    requires s.Coherent(bits)
    ensures ExpandTicks(s, bits) == s.overflowCount * Pow2(bits) + s.tickCount
    ensures s.tickCount + 1 == Pow2(bits) ==>
              ExpandTicks(TickSnapshot(s.overflowCount + 1, 0), bits) == ExpandTicks(s, bits) + 1
  {
    OrOfDisjoint(s.overflowCount, s.tickCount, bits);
    OrOfDisjoint(s.overflowCount + 1, 0, bits);
    OneMore(s.overflowCount, Pow2(bits));
  }

  lemma OneMore(a: nat, b: nat)
    ensures (a + 1) * b == a * b + b
  {
  }

  /** For every supported width the expansion fits `u128`: the shift drops no bit. */
  lemma ExpansionFits(s: TickSnapshot, bits: nat)
    requires ValidBits(bits) && s.Coherent(bits)
    ensures ExpandTicks(s, bits) <= U128_MAX
  {
    ExpansionIsExact(s, bits);
    TickWidth(bits);
    WordFits(s.overflowCount, s.tickCount, Pow2(bits));
  }

  lemma WordFits(high: nat, low: nat, p: nat)
    requires high <= U64_MAX && low < p <= U64_MAX + 1
    ensures high * p + low <= U128_MAX
  {
    MulMono(high, U64_MAX, p);
    MulMono(p, U64_MAX + 1, U64_MAX);
  }

  lemma TickWidth(bits: nat)
    requires ValidBits(bits)
    ensures Pow2(bits) <= U64_MAX + 1
  {
    assert Pow2(8) == 0x100;
    assert Pow2(16) == 0x1_0000;
    assert Pow2(24) == 0x100_0000;
    assert Pow2(32) == U32_MAX + 1;
    assert Pow2(40) == 0x100_0000_0000;
    assert Pow2(48) == 0x1_0000_0000_0000;
    assert Pow2(56) == 0x100_0000_0000_0000;
    assert Pow2(64) == U64_MAX + 1;
  }

  /** Snapshot time is monotone in (overflow count, tick count), across counter wraps. */
  lemma SnapshotsAreMonotone(a: TickSnapshot, b: TickSnapshot, c: TickConfig)
    requires ValidRate(c.rateHz) && ValidBits(c.bits) && a.Coherent(c.bits) && b.Coherent(c.bits)
    requires a.overflowCount < b.overflowCount ||
             (a.overflowCount == b.overflowCount && a.tickCount <= b.tickCount)
    ensures SnapshotToDuration(a, c).Ok? && SnapshotToDuration(b, c).Ok?
    ensures SnapshotToDuration(a, c).value <= SnapshotToDuration(b, c).value
  {
    ExpansionIsExact(a, c.bits);
    ExpansionIsExact(b, c.bits);
    var p := Pow2(c.bits);
    MixedRadix(a.overflowCount, a.tickCount, b.overflowCount, b.tickCount, p);
    TicksAreMonotone(ExpandTicks(a, c.bits), ExpandTicks(b, c.bits), c.rateHz);
  }

  lemma MixedRadix(h1: nat, l1: nat, h2: nat, l2: nat, p: nat)
    requires l1 < p && (h1 < h2 || (h1 == h2 && l1 <= l2))
    ensures h1 * p + l1 <= h2 * p + l2
  {
    if h1 < h2 { MulMono(h1 + 1, h2, p); }
  }
}
