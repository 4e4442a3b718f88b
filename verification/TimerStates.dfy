/** The portable timer state machine and what it promises over whole runs. */
module TimerStates {
  import opened Errors
  import opened Durations
  import opened TimeConvert

  datatype Mode = OneShot | Periodic

  /** The fields of a timer as a value. */
  datatype Timer = Timer(mode: Mode, period: Duration, deadline: Option<Duration>) {
    predicate Expired(now: Duration) { deadline.Some? && deadline.value <= now }
  }

  /** `start` and `reset` are the same operation. */
  function Started(t: Timer, now: Duration): Result<Timer> {
    match CheckedDeadline(now, t.period)
    case Err(e) => Err(e)
    case Ok(d) => Ok(t.(deadline := Some(d)))
  }

  function Stopped(t: Timer): Timer { t.(deadline := None) }

  function Repaced(t: Timer, period: Duration): Result<Timer> {
    if period == 0 then Err(InvalidParameter) else Ok(t.(period := period))
  }

  /** The state after an expiry, advanced before the callback runs. */
  function Advanced(t: Timer, now: Duration): Timer
    requires t.Expired(now)
  {
    match t.mode
    case OneShot => t.(deadline := None)
    case Periodic =>
      match NextPeriodicDeadline(t.deadline.value, t.period, now)
      case Ok(next) => t.(deadline := Some(next))
      case Err(_) => t.(deadline := None)
  }

  // ---------------------------------------------------------------------------
  // The object
  // ---------------------------------------------------------------------------

  class TimerState {
    const mode: Mode
    var period: Duration
    var deadline: Option<Duration>

    ghost function View(): Timer
      reads this
    {
      Timer(mode, period, deadline)
    }

    /** No timer has a zero period. */
    predicate Valid()
      reads this
    {
      period > 0
    }

    constructor (period: Duration, mode: Mode)
      requires period > 0
      ensures Valid() && View() == Timer(mode, period, None)
    {
      this.mode, this.period, this.deadline := mode, period, None;
    }

    /** `start` and `reset`: due one period from now and not before, or refused with nothing changed. */
    method Start(now: Duration) returns (r: Result<()>)
      requires Valid()
      modifies this`deadline
      ensures Valid() && !(r.Ok? && View().Expired(now))
      ensures r.Ok? <==> now + period <= DURATION_MAX
      ensures r.Ok? ==> forall at: Duration :: View().Expired(at) <==> now + period <= at
      ensures r.Err? ==> r.error == Overflow && View() == old(View())
      ensures r.Ok? ==> Started(old(View()), now) == Ok(View())
    {
      match CheckedDeadline(now, period) {
        case Err(e) => r := Err(e);
        case Ok(d) => deadline := Some(d); r := Ok(());
      }
    }

    method Stop()
      requires Valid()
      modifies this`deadline
      ensures Valid() && View() == Stopped(old(View())) && forall at :: !View().Expired(at)
    {
      deadline := None;
    }

    /** The pending deadline is kept: a new period counts from the next start or expiry. */
    method ChangePeriod(newPeriod: Duration) returns (r: Result<()>)
      requires Valid()
      modifies this`period
      ensures Valid()
      ensures r == if newPeriod == 0 then Err(InvalidParameter) else Ok(())
      ensures forall at :: View().Expired(at) == old(View()).Expired(at)
      ensures View() == match Repaced(old(View()), newPeriod) case Ok(t) => t case Err(_) => old(View())
    {
      if newPeriod == 0 { return Err(InvalidParameter); }
      period := newPeriod;
      r := Ok(());
    }

    /** Expiry is reported exactly when due; a periodic timer is then where adding its period again and again
        first passes `now`, or stopped if that is not representable. */
    method AdvanceOnExpiry(now: Duration) returns (expired: bool)
      requires Valid()
      modifies this`deadline
      ensures Valid()
      ensures expired == old(View().Expired(now))
      ensures !View().Expired(now)
      ensures !expired ==> deadline == old(deadline)
      ensures expired && mode.OneShot? ==> deadline.None?
      ensures expired && mode.Periodic? ==>
                var next := StepPast(old(deadline).value, period, now);
                deadline == if next <= DURATION_MAX then Some(next) else None
      ensures View() == if expired then Advanced(old(View()), now) else old(View())
    {
      if deadline.None? || deadline.value > now { return false; }
      AdvancedIsNotExpired(View(), now);
      match mode {
        case OneShot => deadline := None;
        case Periodic =>
          MergeEqualsStepping(deadline.value, period, now);
          match NextPeriodicDeadline(deadline.value, period, now) {
            case Ok(next) => deadline := Some(next);
            case Err(_) => deadline := None;
          }
      }
      expired := true;
    }
  }

  /** `TimerState::new`: a timer is created stopped, and not with a zero period. */
  method NewTimerState(period: Duration, mode: Mode) returns (r: Result<TimerState>)
    ensures period == 0 ==> r == Err(InvalidParameter)
    ensures period > 0 ==> r.Ok? && fresh(r.value) && r.value.Valid() && r.value.View() == Timer(mode, period, None)
  {
    if period == 0 { return Err(InvalidParameter); }
    var t := new TimerState(period, mode);
    r := Ok(t);
  }

  /** After an expiry the timer is no longer due: a dispatch loop at one instant cannot spin on it. */
  lemma AdvancedIsNotExpired(t: Timer, now: Duration)
    requires t.Expired(now)
    ensures !Advanced(t, now).Expired(now)
  {
    if t.mode.Periodic? && t.period > 0 {
      MergeEqualsStepping(t.deadline.value, t.period, now);
      var k := StepPastIsLeast(t.deadline.value, t.period, now);
    }
  }

  /** Where an expiry leaves a timer: a one-shot one stopped, a periodic one where adding its period again and again
      first passes `now`, or stopped if that is not representable. */
  lemma AdvanceStepsPast(t: Timer, now: Duration)
    requires t.Expired(now) && t.period > 0
    ensures var u := Advanced(t, now);
            && u.mode == t.mode && u.period == t.period
            && (t.mode.OneShot? ==> u.deadline.None?)
            && (t.mode.Periodic? ==>
                  var next := StepPast(t.deadline.value, t.period, now);
                  u.deadline == if next <= DURATION_MAX then Some(next) else None)
  {
    MergeEqualsStepping(t.deadline.value, t.period, now);
  }

  /** Nor can starting a timer make it due at that instant, its period being positive. */
  lemma StartedIsNotExpired(t: Timer, now: Duration)
    requires t.period > 0 && Started(t, now).Ok?
    ensures !Started(t, now).value.Expired(now)
  {
  }

  // ---------------------------------------------------------------------------
  // One-shot timers over whole runs
  // ---------------------------------------------------------------------------

  datatype Event = Start(at: Duration) | Stop | ChangePeriod(period: Duration) | Poll(at: Duration)

  /** A timer with the number of its successful starts and of its firings. */
  datatype Log = Log(timer: Timer, starts: nat, fires: nat)

  function After(log: Log, e: Event): Log {
    match e
    case Start(at) =>
      (match Started(log.timer, at)
       case Err(_) => log
       case Ok(t) => log.(timer := t, starts := log.starts + 1))
    case Stop => log.(timer := Stopped(log.timer))
    case ChangePeriod(p) =>
      (match Repaced(log.timer, p) case Err(_) => log case Ok(t) => log.(timer := t))
    case Poll(at) =>
      if log.timer.Expired(at) then log.(timer := Advanced(log.timer, at), fires := log.fires + 1) else log
  }

  function Played(log: Log, events: seq<Event>): Log {
    if events == [] then log else After(Played(log, events[..|events| - 1]), events[|events| - 1])
  }

  /** A one-shot timer fires at most once for each successful start or reset, and an armed one still
      has its firing ahead of it. */
  lemma {:induction false} OneShotFiresOncePerStart(period: Duration, events: seq<Event>)
    ensures var log := Played(Log(Timer(OneShot, period, None), 0, 0), events);
            && log.timer.mode.OneShot?
            && log.fires + (if log.timer.deadline.Some? then 1 else 0) <= log.starts
  {
    if events != [] { OneShotFiresOncePerStart(period, events[..|events| - 1]); }
  }

  // ---------------------------------------------------------------------------
  // Periodic timers left alone
  // ---------------------------------------------------------------------------

  /** A firing: the deadline that expired, and the instant of the poll that found it expired. */
  datatype Expiry = Expiry(deadline: Duration, at: Duration)

  /** How polling at the instants `polls` fires the timer, and the timer after. */
  function Fired(t: Timer, polls: seq<Duration>): (seq<Expiry>, Timer) {
    if polls == [] then ([], t)
    else
      var (fired, u) := Fired(t, polls[..|polls| - 1]);
      var now := polls[|polls| - 1];
      if u.Expired(now) then (fired + [Expiry(u.deadline.value, now)], Advanced(u, now)) else (fired, u)
  }

  ghost predicate OnGrid(d: nat, first: nat, period: nat) { exists k: nat :: d == first + k * period }

  /** `next` is the first grid point after a firing's instant. */
  predicate Follows(f: Expiry, next: Duration, period: Duration) { f.at < next <= f.at + period }

  /** The firings so far: on grid points, never early, each at the first grid point after the instant of the
      one before; and the armed deadline continues them. */
  ghost predicate Regular(fired: seq<Expiry>, t: Timer, first: Duration, period: Duration) {
    && (forall i :: 0 <= i < |fired| ==> OnGrid(fired[i].deadline, first, period) && fired[i].deadline <= fired[i].at)
    && (forall i :: 0 < i < |fired| ==> Follows(fired[i - 1], fired[i].deadline, period))
    && (t.deadline.Some? ==> OnGrid(t.deadline.value, first, period))
    && (t.deadline.Some? && |fired| > 0 ==> Follows(fired[|fired| - 1], t.deadline.value, period))
  }

  /** So their deadlines and instants interleave, strictly increasing. */
  lemma {:induction false} RegularIncreases(
    fired: seq<Expiry>, t: Timer, first: Duration, period: Duration, i: nat, j: nat)
    requires Regular(fired, t, first, period) && i < j < |fired|
    ensures fired[i].deadline <= fired[i].at < fired[j].deadline <= fired[j].at
  {
    assert Follows(fired[j - 1], fired[j].deadline, period);
    if i < j - 1 { RegularIncreases(fired, t, first, period, i, j - 1); }
  }

  lemma AdvanceStaysOnGrid(t: Timer, now: Duration, first: Duration)
    requires t.mode.Periodic? && t.period > 0 && t.Expired(now) && OnGrid(t.deadline.value, first, t.period)
    ensures var d := Advanced(t, now).deadline;
            d.Some? ==> OnGrid(d.value, first, t.period) && now < d.value && d.value - t.period <= now
  {
    MergeEqualsStepping(t.deadline.value, t.period, now);
    var k := StepPastIsLeast(t.deadline.value, t.period, now);
    var j: nat :| t.deadline.value == first + j * t.period;
    assert first + j * t.period + k * t.period == first + (j + k) * t.period;
    if k > 0 { assert (k - 1) * t.period + t.period == k * t.period; }
  }

  /** However late and irregular the polls, a periodic timer fires on the grid of its first deadline, never early,
      each time at the first grid point after the previous poll that fired: late dispatch causes no drift and no
      double firing. */
  lemma {:induction false} PeriodicKeepsTheGrid(t: Timer, polls: seq<Duration>)
    requires t.mode.Periodic? && t.period > 0 && t.deadline.Some?
    ensures var (fired, u) := Fired(t, polls);
            && u.mode == t.mode && u.period == t.period
            && Regular(fired, u, t.deadline.value, t.period)
  {
    var first := t.deadline.value;
    assert OnGrid(first, first, t.period) by { assert first == first + 0 * t.period; }
    if polls != [] {
      PeriodicKeepsTheGrid(t, polls[..|polls| - 1]);
      var (fired, u) := Fired(t, polls[..|polls| - 1]);
      var now := polls[|polls| - 1];
      if u.Expired(now) {
        AdvanceStaysOnGrid(u, now, first);
        RegularGrows(fired, u, now, Advanced(u, now), first, t.period);
      }
    }
  }

  lemma RegularGrows(fired: seq<Expiry>, t: Timer, now: Duration, u: Timer, first: Duration, period: Duration)
    requires Regular(fired, t, first, period) && t.Expired(now)
    requires u.deadline.Some? ==>
               && OnGrid(u.deadline.value, first, period)
               && Follows(Expiry(t.deadline.value, now), u.deadline.value, period)
    ensures Regular(fired + [Expiry(t.deadline.value, now)], u, first, period)
  {
  }

  /** Polling the object itself at any instants keeps the grid. */
  method PollAll(t: TimerState, polls: seq<Duration>) returns (fired: seq<Expiry>)
    requires t.Valid() && t.mode.Periodic? && t.deadline.Some?
    modifies t
    ensures (fired, t.View()) == Fired(old(t.View()), polls)
    ensures Regular(fired, t.View(), old(t.deadline).value, old(t.period))
  {
    fired := [];
    ghost var start := t.View();
    for i := 0 to |polls|
      invariant t.period == old(t.period) && (fired, t.View()) == Fired(start, polls[..i])
    {
      assert polls[..i + 1][..i] == polls[..i];
      var armed := t.deadline;
      var expired := t.AdvanceOnExpiry(polls[i]);
      if expired { fired := fired + [Expiry(armed.value, polls[i])]; }
    }
    assert polls[..|polls|] == polls;
    PeriodicKeepsTheGrid(start, polls);
  }

  /** A firing is never early, and merges exactly the grid points that passed: the poll at `now` fires
      the armed deadline if and only if it has been reached, and re-arms at the first grid point after
      `now` unless that is not representable. */
  lemma PollFiresWhenDue(t: Timer, now: Duration)
    requires t.mode.Periodic? && t.period > 0 && t.deadline.Some?
    ensures var (fired, u) := Fired(t, [now]);
            if t.deadline.value <= now then
              && fired == [Expiry(t.deadline.value, now)]
              && var next := StepPast(t.deadline.value, t.period, now);
                 u.deadline == (if next <= DURATION_MAX then Some(next) else None)
            else fired == [] && u == t
  {
    assert Fired(t, [now][..0]) == ([], t);
    MergeEqualsStepping(t.deadline.value, t.period, now);
  }
}
