/**
 Blocking on FreeRTOS: the chunked delay, the absolute-deadline wait loop with its guard ticks, and the
 budget that keeps one deadline over repeated waits.
 */
module WaitLoop {
  import opened Errors
  import opened Durations
  import opened Bits
  import opened TickTime

  datatype Scheduler = Running | NotStarted | Suspended | Unknown

  /** How the kernel answers a native call: whether a take succeeds, and the extra ticks that pass. */
  datatype Answer = Answer(acquired: bool, extra: nat)

  /** A native call: the tick at which it was made and the ticks it asked for. */
  datatype Wait = Wait(at: nat, ticks: nat)

  datatype Outcome = Acquired | Unavailable

  function Ceil(d: Duration, rate: nat): nat
    requires ValidRate(rate)
  {
    CeilNeverOverflows(d, rate);
    DurationToTicksCeil(d, rate).value
  }

  /** How many pieces of at most `m` ticks make up `left` ticks. */
  function Chunks(left: nat, m: nat): nat
    requires m > 0
  {
    if left == 0 then 0 else if left <= m then 1 else 1 + Chunks(left - m, m)
  }

  /** Ticks still missing to a goal. */
  function Left(goal: nat, ticks: nat): nat {
    if ticks < goal then goal - ticks else 0
  }

  // ---------------------------------------------------------------------------
  // The kernel
  // ---------------------------------------------------------------------------

  /**
   The tick counter and the blocking primitives.  `script` answers the native calls in order and is
   arbitrary.  A call that times out after n ticks moves the counter by at least n - `early`: 0 if the
   counter itself is what the kernel compares, 1 if the tick in progress may be counted as a whole one.
   */
  class Kernel {
    const rate: nat
    const bits: nat
    const maxFinite: nat
    const early: nat
    const script: nat -> Answer
    var scheduler: Scheduler
    var ticks: nat
    var waits: seq<Wait>

    constructor (rate: nat, bits: nat, maxFinite: nat, early: nat, script: nat -> Answer)
      requires ValidRate(rate) && ValidBits(bits) && 2 <= maxFinite <= U64_MAX && early <= 1
      ensures Valid() && waits == [] && ticks == 0
      ensures this.rate == rate && this.maxFinite == maxFinite && this.early == early && this.script == script
    {
      this.rate, this.bits, this.maxFinite, this.early, this.script := rate, bits, maxFinite, early, script;
      scheduler, ticks, waits := NotStarted, 0, [];
    }

    predicate Valid() {
      ValidRate(rate) && ValidBits(bits) && 2 <= maxFinite <= U64_MAX && early <= 1
    }

    ghost function Clock(): Duration
      requires Valid()
      reads this`ticks
    {
      TicksToDuration(ticks, rate)
    }

    /** `FreeRtosClock::now`, from a snapshot of the wrapping counter and its overflow count. */
    method Now() returns (now: Duration)
      requires Valid()
      ensures now == Clock()
    {
      SnapshotReadsTicks(ticks, bits);
      var r := SnapshotToDuration(Wrapped(ticks, Pow2(bits)), TickConfig(rate, bits));
      now := r.value;
    }

    /** A native take of at most `n` ticks. */
    method Take(n: nat) returns (acquired: bool)
      requires Valid()
      modifies this`ticks, this`waits
      ensures waits == old(waits) + [Wait(old(ticks), n)]
      ensures acquired == script(|old(waits)|).acquired
      ensures ticks >= old(ticks) + (if acquired || n == 0 then 0 else n - early)
    {
      var answer := script(|waits|);
      waits := waits + [Wait(ticks, n)];
      ticks := ticks + answer.extra;
      if !answer.acquired && n > 0 { ticks := ticks + n - early; }
      acquired := answer.acquired;
    }

    /** A native delay; refused beyond `maxFinite` or when the scheduler does not run. */
    method DelayTicks(n: nat) returns (ok: bool)
      requires Valid()
      modifies this`ticks, this`waits
      ensures ok <==> n == 0 || (n <= maxFinite && scheduler == Running)
      ensures ok && n > 0 ==> waits == old(waits) + [Wait(old(ticks), n)] && ticks >= old(ticks) + n - early
      ensures !ok || n == 0 ==> waits == old(waits) && ticks == old(ticks)
    {
      if n == 0 { return true; }
      if n > maxFinite || scheduler != Running { return false; }
      var answer := script(|waits|);
      waits := waits + [Wait(ticks, n)];
      ticks := ticks + n - early + answer.extra;
      ok := true;
    }
  }

  /** The kernel's view of a tick count: a counter that wraps at `p`, and how often it did. */
  function Wrapped(ticks: nat, p: nat): TickSnapshot
    requires p > 0
  {
    TickSnapshot(ticks / p, ticks % p)
  }

  /** A snapshot of the wrapping counter reads the unbounded tick count. */
  lemma SnapshotReadsTicks(ticks: nat, bits: nat)
    ensures ExpandTicks(Wrapped(ticks, Pow2(bits)), bits) == ticks
  {
    DivMod(ticks, Pow2(bits));
    var s := Wrapped(ticks, Pow2(bits));
    OrOfDisjoint(s.overflowCount, s.tickCount, bits);
  }

  lemma DivMod(a: nat, p: nat)
    requires p > 0
    ensures var s := Wrapped(a, p); s.tickCount < p && s.overflowCount * p + s.tickCount == a
  {
  }

  // ---------------------------------------------------------------------------
  // Arithmetic of the remaining time
  // ---------------------------------------------------------------------------

  /** The ceiling of the time left covers the ticks left, with an excess below one nanosecond's worth. */
  lemma RemainingTicks(ticks: nat, deadline: Duration, rate: nat)
    requires ValidRate(rate) && TicksToDuration(ticks, rate) < deadline
    ensures var remaining: Duration := deadline - TicksToDuration(ticks, rate);
            && ticks < Ceil(deadline, rate)
            && Ceil(deadline, rate) - ticks <= Ceil(remaining, rate)
            && Ceil(remaining, rate) <= Ceil(deadline, rate) - ticks + Ceil(1, rate)
  {
    var now := TicksToDuration(ticks, rate);
    var remaining: Duration := deadline - now;
    ConversionsAreAdjoint(ticks, deadline, rate);
    CeilCovers(ticks, remaining, rate);
    ConversionsAreAdjoint(ticks + Ceil(remaining, rate), deadline, rate);
    ConversionsAreAdjoint(ticks, now + 1, rate);
    CeilNeverOverflows(now + 1, rate);
    CeilNeverOverflows(deadline, rate);
    CeilNeverOverflows(remaining, rate);
    CeilNeverOverflows(1, rate);
    CeilIsLeast((now + 1) * rate, ticks);
    CeilIsLeast(deadline * rate, Ceil(deadline, rate));
    CeilIsLeast(1 * rate, Ceil(1, rate));
    SplitProduct(deadline, now, rate);
    CeilIsLeast(remaining * rate, Ceil(deadline, rate) - ticks + Ceil(1, rate));
  }

  lemma SplitProduct(deadline: nat, now: nat, rate: nat)
    requires now < deadline
    ensures (deadline - now) * rate + (now + 1) * rate == deadline * rate + rate
  {
  }

  /** A wait that uses up a whole chunk, or all that is left, leaves one chunk fewer. */
  lemma {:induction false} ChunkTaken(left: nat, left': nat, m: nat)
    requires m > 0 && left > 0 && (left' == 0 || left' + m <= left)
    ensures Chunks(left', m) + 1 <= Chunks(left, m)
  {
    if left' > 0 && left' + m < left { FewerChunks(left', left - m, m); }
  }

  lemma {:induction false} FewerChunks(a: nat, b: nat, m: nat)
    requires m > 0 && a <= b
    ensures Chunks(a, m) <= Chunks(b, m)
  {
    if a > m { FewerChunks(a - m, b - m, m); }
  }

  /** The number of chunks is the ceiling of the quotient. */
  lemma {:induction false} ChunksIsCeiling(left: nat, m: nat)
    requires m > 0
    ensures (Chunks(left, m) - 1) * m < left || left == 0
    ensures left <= Chunks(left, m) * m
  {
    if left > m {
      ChunksIsCeiling(left - m, m);
      OneMore(Chunks(left - m, m), m);
    }
  }

  // ---------------------------------------------------------------------------
  // The deadline loops
  // ---------------------------------------------------------------------------

  /** An immediate attempt, or a timed wait that is within the native range and asks for nothing beyond
      `limit`. */
  predicate Fits(w: Wait, timed: bool, maxFinite: nat, limit: nat) {
    if timed then 2 <= w.ticks <= maxFinite && w.at + w.ticks <= limit else w.ticks == 0
  }

  /** Immediate attempts and timed waits alternate from `n0` on. */
  ghost predicate Alternates(ws: seq<Wait>, n0: nat, maxFinite: nat, limit: nat) {
    forall i :: n0 <= i < |ws| ==> Fits(ws[i], (i - n0) % 2 == 1, maxFinite, limit)
  }

  /** The calls from `n0` up to `n` all timed out. */
  ghost predicate Declined(script: nat -> Answer, n0: nat, n: nat) {
    forall i :: n0 <= i < n ==> !script(i).acquired
  }

  /** The calls from `n0` on: all but the last one timed out, and the last one answered `last`. */
  ghost predicate Ended(k: Kernel, n0: nat, last: bool)
    reads k`waits
  {
    && n0 < |k.waits|
    && Declined(k.script, n0, |k.waits| - 1)
    && k.script(|k.waits| - 1).acquired == last
  }

  /** The ticks to ask for while the deadline is ahead: the remaining payload, cut to one native call,
      and a guard tick.  `None` once the deadline has passed. */
  method NextChunk(k: Kernel, deadline: Duration) returns (r: Result<Option<nat>>)
    requires k.Valid()
    ensures r.Ok? && (r.value.None? <==> k.ticks >= Ceil(deadline, k.rate))
    ensures r.value.Some? ==>
              var n := r.value.value;
              && 2 <= n <= k.maxFinite
              && (n == k.maxFinite || n > Left(Ceil(deadline, k.rate), k.ticks))
              && k.ticks + n <= Ceil(deadline, k.rate) + Ceil(1, k.rate) + 1
  {
    var now := k.Now();
    ConversionsAreAdjoint(k.ticks, deadline, k.rate);
    if now >= deadline { return Ok(None); }
    var maxPayload := k.maxFinite - 1;
    var remaining: Duration := SaturatingSub(deadline, now);
    CeilNeverOverflows(remaining, k.rate);
    RemainingTicks(k.ticks, deadline, k.rate);
    var ticks := DurationToTicksCeil(remaining, k.rate);
    if ticks.Err? { return Err(Overflow); }
    var payload := if ticks.value < maxPayload then ticks.value else maxPayload;
    r := Ok(Some(payload + 1));
  }

  /** One turn of `wait_deadline_loop`; `None` means another turn. */
  method Turn(k: Kernel, deadline: Duration) returns (r: Result<Option<Outcome>>)
    requires k.Valid()
    modifies k`ticks, k`waits
    ensures r.Ok?
    ensures |k.waits| == |old(k.waits)| + 1 || |k.waits| == |old(k.waits)| + 2
    ensures old(k.waits) <= k.waits && k.waits[|old(k.waits)|].ticks == 0
    ensures k.script(|k.waits| - 1).acquired == (r == Ok(Some(Acquired)))
    ensures r == Ok(Some(Unavailable)) ==> |k.waits| == |old(k.waits)| + 1 && k.ticks >= Ceil(deadline, k.rate)
    ensures |k.waits| == |old(k.waits)| + 2 ==>
              && Left(Ceil(deadline, k.rate), old(k.ticks)) > 0 && !k.script(|old(k.waits)|).acquired
              && Fits(k.waits[|k.waits| - 1], true, k.maxFinite, Ceil(deadline, k.rate) + Ceil(1, k.rate) + 1)
    ensures r == Ok(None) ==>
              && |k.waits| == |old(k.waits)| + 2
              && var left := Left(Ceil(deadline, k.rate), k.ticks);
                 left == 0 || left + k.maxFinite - k.early <= Left(Ceil(deadline, k.rate), old(k.ticks))
  {
    var immediate := k.Take(0);
    if immediate { return Ok(Some(Acquired)); }
    var native := NextChunk(k, deadline);
    if native.Err? { return Err(Overflow); }
    if native.value.None? { return Ok(Some(Unavailable)); }
    var waited := k.Take(native.value.value);
    return Ok(if waited then Some(Acquired) else None);
  }

  lemma TurnAlternates(ws: seq<Wait>, n0: nat, n1: nat, maxFinite: nat, limit: nat)
    requires n0 <= n1 < |ws| <= n1 + 2 && (n1 - n0) % 2 == 0
    requires Alternates(ws[..n1], n0, maxFinite, limit) && ws[n1].ticks == 0
    requires |ws| == n1 + 2 ==> Fits(ws[n1 + 1], true, maxFinite, limit)
    ensures Alternates(ws, n0, maxFinite, limit)
  {
    forall i | n0 <= i < |ws|
      ensures Fits(ws[i], (i - n0) % 2 == 1, maxFinite, limit)
    {
      if i < n1 { assert ws[..n1][i] == ws[i]; }
    }
  }

  lemma TurnDeclines(script: nat -> Answer, n0: nat, n1: nat, n: nat)
    requires n0 <= n1 < n <= n1 + 2 && Declined(script, n0, n1)
    requires n == n1 + 2 ==> !script(n1).acquired
    ensures Declined(script, n0, n - 1) && (!script(n - 1).acquired ==> Declined(script, n0, n))
  {
  }

  /** `wait_deadline_loop`: it cannot fail; it gives up only once the deadline has passed and a last
      attempt failed, and within the number of full chunks that fit the ticks left. */
  method WaitDeadlineLoop(k: Kernel, deadline: Duration) returns (r: Result<Outcome>)
    requires k.Valid()
    modifies k`ticks, k`waits
    ensures r.Ok?
    ensures old(k.waits) <= k.waits && Ended(k, |old(k.waits)|, r == Ok(Acquired))
    ensures r == Ok(Unavailable) ==> k.Clock() >= deadline && k.waits[|k.waits| - 1].ticks == 0
    ensures Alternates(k.waits, |old(k.waits)|, k.maxFinite, Ceil(deadline, k.rate) + Ceil(1, k.rate) + 1)
    ensures (|k.waits| - |old(k.waits)|) / 2 <=
            Chunks(Left(Ceil(deadline, k.rate), old(k.ticks)), k.maxFinite - k.early)
  {
    ghost var n0 := |k.waits|;
    ghost var m := k.maxFinite - k.early;
    ghost var goal := Ceil(deadline, k.rate);
    ghost var limit := goal + Ceil(1, k.rate) + 1;
    ghost var turns := 0;
    while true
      invariant old(k.waits) <= k.waits && |k.waits| == n0 + 2 * turns
      invariant Declined(k.script, n0, |k.waits|)
      invariant Alternates(k.waits, n0, k.maxFinite, limit)
      invariant turns + Chunks(Left(goal, k.ticks), m) <= Chunks(Left(goal, old(k.ticks)), m)
      decreases Left(goal, k.ticks)
    {
      ghost var left := Left(goal, k.ticks);
      ghost var n1 := |k.waits|;
      var turn := Turn(k, deadline);
      if turn.Err? { return Err(Overflow); }
      TurnAlternates(k.waits, n0, n1, k.maxFinite, limit);
      TurnDeclines(k.script, n0, n1, |k.waits|);
      if left > 0 { ChunkTaken(left, 0, m); }
      if turn.value.Some? {
        ConversionsAreAdjoint(k.ticks, deadline, k.rate);
        return Ok(turn.value.value);
      }
      ChunkTaken(left, Left(goal, k.ticks), m);
      turns := turns + 1;
    }
  }

  /** The resource is granted some day; without this an unbounded wait need not end. */
  ghost predicate Granted(k: Kernel)
    reads k`waits
  {
    exists i :: i >= |k.waits| && k.script(i).acquired
  }

  /** Calls of one fixed length from `n0` on. */
  ghost predicate AllOf(ws: seq<Wait>, n0: nat, ticks: nat) {
    forall i :: n0 <= i < |ws| ==> ws[i].ticks == ticks
  }

  /** `wait_forever` of either caller: takes of a fixed length until one succeeds. */
  method WaitForever(k: Kernel, length: nat) returns (outcome: Outcome)
    requires k.Valid() && Granted(k)
    modifies k`ticks, k`waits
    ensures outcome == Acquired && old(k.waits) <= k.waits && Ended(k, |old(k.waits)|, true)
    ensures AllOf(k.waits, |old(k.waits)|, length)
  {
    ghost var n0 := |k.waits|;
    ghost var granted :| granted >= |k.waits| && k.script(granted).acquired;
    while true
      invariant old(k.waits) <= k.waits && |k.waits| <= granted
      invariant forall i :: n0 <= i < |k.waits| ==> !k.script(i).acquired
      invariant AllOf(k.waits, n0, length)
      decreases granted - |k.waits|
    {
      var acquired := k.Take(length);
      if acquired { return Acquired; }
    }
  }

  /** `wait_until_deadline` of the timer worker: it returns when it took the wake token or, within the
      number of chunks to the deadline, when the deadline has passed. */
  method WaitUntilDeadline(k: Kernel, deadline: Duration) returns (woken: bool)
    requires k.Valid()
    modifies k`ticks, k`waits
    ensures old(k.waits) <= k.waits
    ensures woken ==> Ended(k, |old(k.waits)|, true)
    ensures !woken ==> k.Clock() >= deadline
    ensures !woken ==> forall i :: |old(k.waits)| <= i < |k.waits| ==> !k.script(i).acquired
    ensures forall i :: |old(k.waits)| <= i < |k.waits| ==> 2 <= k.waits[i].ticks <= k.maxFinite
    ensures |k.waits| - |old(k.waits)| <=
            Chunks(Left(Ceil(deadline, k.rate), old(k.ticks)), k.maxFinite - k.early)
  {
    ghost var n0 := |k.waits|;
    ghost var m := k.maxFinite - k.early;
    ghost var goal := Ceil(deadline, k.rate);
    while true
      invariant old(k.waits) <= k.waits
      invariant forall i :: n0 <= i < |k.waits| ==> !k.script(i).acquired
      invariant forall i :: n0 <= i < |k.waits| ==> 2 <= k.waits[i].ticks <= k.maxFinite
      invariant |k.waits| - n0 + Chunks(Left(goal, k.ticks), m) <= Chunks(Left(goal, old(k.ticks)), m)
      decreases Left(goal, k.ticks)
    {
      ghost var left := Left(goal, k.ticks);
      var native := NextChunk(k, deadline);
      if native.value.None? {
        ConversionsAreAdjoint(k.ticks, deadline, k.rate);
        return false;
      }
      ChunkTaken(left, 0, m);
      var acquired := k.Take(native.value.value);
      if acquired { return true; }
      ChunkTaken(left, Left(goal, k.ticks), m);
    }
  }

  // ---------------------------------------------------------------------------
  // The budget
  // ---------------------------------------------------------------------------

  datatype Timeout = NoWait | After(d: Duration) | Forever

  datatype Budget =
    | NeverBlocks(zero: bool)
    | Finite(duration: Duration, deadline: Option<Duration>, prepared: bool)
    | Unbounded(prepared: bool)

  /** `ensure_blocking_allowed`. */
  function BlockingError(s: Scheduler): Option<Error> {
    match s
    case Running => None
    case NotStarted => Some(NotInitialized)
    case Suspended => Some(Busy)
    case Unknown => Some(Internal)
  }

  /** Why a budget may not block: the scheduler, or a deadline beyond the largest duration. */
  function Obstacle(b: Budget, s: Scheduler, now: Duration): Option<Error> {
    match b
    case NeverBlocks(_) => None
    case Unbounded(_) => BlockingError(s)
    case Finite(duration, deadline, _) =>
      if s == Running && deadline.None? && CheckedAdd(now, duration).None? then Some(Overflow)
      else BlockingError(s)
  }

  class WaitBudget {
    var budget: Budget

    constructor (timeout: Timeout)
      ensures Valid() && !Prepared()
      ensures budget.NeverBlocks? <==> timeout.NoWait? || timeout == After(0)
      ensures budget.NeverBlocks? ==> (budget.zero <==> timeout == After(0))
      ensures budget.Finite? ==> timeout == After(budget.duration) && budget.deadline.None?
      ensures budget.Unbounded? <==> timeout.Forever?
    {
      budget := match timeout
        case NoWait => NeverBlocks(false)
        case After(d) => if d == 0 then NeverBlocks(true) else Finite(d, None, false)
        case Forever => Unbounded(false);
    }

    /** A prepared finite budget has its deadline. */
    predicate Valid()
      reads this
    {
      budget.Finite? ==> budget.duration > 0 && (budget.prepared ==> budget.deadline.Some?)
    }

    predicate Prepared()
      reads this
    {
      match budget
      case NeverBlocks(_) => false
      case Finite(_, _, prepared) => prepared
      case Unbounded(prepared) => prepared
    }

    /** `prepare_blocking`: on success the budget is prepared and its deadline, once there, is never
        moved; on an error nothing changed. */
    method PrepareBlocking(k: Kernel) returns (r: Result<()>)
      requires Valid() && k.Valid()
      modifies this
      ensures Valid()
      ensures match Obstacle(old(budget), k.scheduler, k.Clock())
              case Some(e) => r == Err(e) && budget == old(budget)
              case None => r.Ok?
      ensures !budget.NeverBlocks? ==>
                && (k.scheduler.NotStarted? ==> r == Err(NotInitialized))
                && (k.scheduler.Suspended? ==> r == Err(Busy))
                && (k.scheduler.Unknown? ==> r == Err(Internal))
                && (k.scheduler.Running? ==>
                      if old(budget).Finite? && old(budget).deadline.None? &&
                         k.Clock() + old(budget).duration > DURATION_MAX
                      then r == Err(Overflow) else r.Ok?)
      ensures r.Ok? && !budget.NeverBlocks? ==> Prepared()
      ensures r.Ok? && budget.Finite? ==>
                && old(budget.Finite?) && budget.duration == old(budget.duration)
                && budget.deadline == (if old(budget.deadline).Some? then old(budget.deadline)
                                       else Some(k.Clock() + budget.duration))
      ensures budget.NeverBlocks? == old(budget.NeverBlocks?) && budget.Unbounded? == old(budget.Unbounded?)
    {
      if budget.NeverBlocks? { return Ok(()); }
      var refused := BlockingError(k.scheduler);
      if refused.Some? { return Err(refused.value); }
      if budget.Finite? {
        var deadline := budget.deadline;
        if deadline.None? {
          var now := k.Now();
          deadline := CheckedAdd(now, budget.duration);
          if deadline.None? { return Err(Overflow); }
        }
        budget := Finite(budget.duration, deadline, true);
      } else {
        budget := Unbounded(true);
      }
      r := Ok(());
    }

    /** `wait_once`: a prepared budget cannot fail, gives up only at or after its one deadline, and
        keeps that deadline for the next attempt. */
    method WaitOnce(k: Kernel) returns (r: Result<Outcome>)
      requires Valid() && k.Valid() && (budget.Unbounded? ==> Granted(k))
      modifies this, k`ticks, k`waits
      ensures Valid() && Prepared() == old(Prepared())
      ensures old(Prepared()) || old(budget.NeverBlocks?) ==> r.Ok? && budget == old(budget)
      ensures !old(Prepared()) ==>
                match Obstacle(old(budget), k.scheduler, old(k.Clock()))
                case Some(e) => r == Err(e)
                case None => r.Ok?
      ensures r.Err? ==> k.ticks == old(k.ticks) && k.waits == old(k.waits) && budget == old(budget)
      ensures r.Ok? ==> old(k.waits) <= k.waits && Ended(k, |old(k.waits)|, r == Ok(Acquired))
      ensures budget.NeverBlocks? ==> k.waits == old(k.waits) + [Wait(old(k.ticks), 0)]
      ensures budget.Unbounded? == old(budget.Unbounded?) && (budget.Unbounded? ==> r != Ok(Unavailable))
      ensures r.Ok? && budget.Finite? ==>
                && old(budget.Finite?) && budget.duration == old(budget.duration)
                && budget.deadline == (if old(budget.deadline).Some? then old(budget.deadline)
                                       else CheckedAdd(old(k.Clock()), budget.duration))
                && budget.deadline.Some?
                && (r == Ok(Unavailable) ==> k.Clock() >= budget.deadline.value)
    {
      match budget {
        case NeverBlocks(_) =>
          var acquired := k.Take(0);
          r := Ok(if acquired then Acquired else Unavailable);
        case Finite(duration, deadline, prepared) =>
          if !prepared && k.scheduler != Running { return Err(BlockingError(k.scheduler).value); }
          var value := deadline;
          if value.None? {
            var now := k.Now();
            value := CheckedAdd(now, duration);
            if value.None? { return Err(Overflow); }
            budget := Finite(duration, value, prepared);
          }
          r := WaitDeadlineLoop(k, value.value);
        case Unbounded(prepared) =>
          if !prepared && k.scheduler != Running { return Err(BlockingError(k.scheduler).value); }
          var outcome := WaitForever(k, k.maxFinite);
          r := Ok(outcome);
      }
    }
  }

  // ---------------------------------------------------------------------------
  // The chunked delay
  // ---------------------------------------------------------------------------

  /** The requested ticks without their guards, from call `n0` on. */
  function Payload(ws: seq<Wait>, n0: nat): int {
    if |ws| <= n0 then 0 else Payload(ws[..|ws| - 1], n0) + ws[|ws| - 1].ticks - 1
  }

  lemma PayloadAppend(ws: seq<Wait>, w: Wait, n0: nat)
    requires n0 <= |ws|
    ensures Payload(ws + [w], n0) == Payload(ws, n0) + w.ticks - 1
  {
    assert (ws + [w])[..|ws|] == ws;
  }

  lemma DelayCovers(from: nat, to: nat, d: Duration, rate: nat)
    requires ValidRate(rate) && to >= from + Ceil(d, rate)
    ensures TicksToDuration(to, rate) >= SaturatingAdd(TicksToDuration(from, rate), d)
  {
    CeilCovers(from, d, rate);
    TicksAreMonotone(from + Ceil(d, rate), to, rate);
  }

  /** `FreeRtosClock::delay`; false where the source panics. */
  method Delay(k: Kernel, d: Duration) returns (completed: bool)
    requires k.Valid()
    modifies k`ticks, k`waits
    ensures completed <==> d == 0 || k.scheduler == Running
    ensures old(k.waits) <= k.waits
    ensures completed ==> k.Clock() >= SaturatingAdd(old(k.Clock()), d)
    ensures completed ==> Payload(k.waits, |old(k.waits)|) == Ceil(d, k.rate)
    ensures completed ==> |k.waits| - |old(k.waits)| == Chunks(Ceil(d, k.rate), k.maxFinite - 1)
    ensures forall i :: |old(k.waits)| <= i < |k.waits| ==> 2 <= k.waits[i].ticks <= k.maxFinite
  {
    if d == 0 { return true; }
    if k.scheduler != Running { return false; }
    CeilNeverOverflows(d, k.rate);
    var ceiling := DurationToTicksCeil(d, k.rate);
    var maxPayload := k.maxFinite - 1;
    var remaining: nat := ceiling.value;
    ghost var goal: nat := remaining;
    ghost var n0 := |k.waits|;
    while remaining > 0
      invariant old(k.waits) <= k.waits && remaining <= goal
      invariant k.ticks >= old(k.ticks) + goal - remaining
      invariant Payload(k.waits, n0) == goal - remaining
      invariant |k.waits| - n0 + Chunks(remaining, maxPayload) == Chunks(goal, maxPayload)
      invariant forall i :: n0 <= i < |k.waits| ==> 2 <= k.waits[i].ticks <= k.maxFinite
    {
      var payload := if remaining < maxPayload then remaining else maxPayload;
      PayloadAppend(k.waits, Wait(k.ticks, payload + 1), n0);
      var ok := k.DelayTicks(payload + 1);
      if !ok { return false; }
      remaining := remaining - payload;
    }
    DelayCovers(old(k.ticks), k.ticks, d, k.rate);
    completed := true;
  }
}
