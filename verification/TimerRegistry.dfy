/** The timer registry of the FreeRTOS service: its entries, its queries, and the object that holds it. */
module TimerRegistry {
  import opened Errors
  import opened Durations
  import opened TimerStates

  /** A registered timer.  A callback is named by the id it was registered under. */
  datatype Entry = Entry(id: nat, timer: Timer, callback: Option<nat>, deleted: bool) {
    predicate Live() { !deleted }
    /** Due, and holding its callback. */
    predicate Ready(now: Duration) { !deleted && callback.Some? && timer.Expired(now) }
    /** Ordered by deadline, then id. */
    predicate Precedes(other: Entry)
      requires timer.deadline.Some? && other.timer.deadline.Some?
    {
      timer.deadline.value < other.timer.deadline.value ||
      (timer.deadline == other.timer.deadline && id < other.id)
    }
  }

  datatype Registry = Registry(timers: seq<Entry>, nextId: nat, stop: bool)

  /** `retain(|e| !e.deleted)`. */
  function Retain(ts: seq<Entry>): (r: seq<Entry>)
    ensures forall e :: e in r <==> e in ts && e.Live()
  {
    if ts == [] then []
    else
      var last := ts[|ts| - 1];
      assert ts == ts[..|ts| - 1] + [last];
      Retain(ts[..|ts| - 1]) + if last.Live() then [last] else []
  }

  /** The live entry with this id. */
  function Find(ts: seq<Entry>, id: nat): (r: Option<nat>)
    ensures r.Some? ==> r.value < |ts| && ts[r.value].id == id && ts[r.value].Live()
    ensures r.None? ==> forall e :: e in ts && e.Live() ==> e.id != id
  {
    if ts == [] then None
    else
      var n := |ts| - 1;
      assert ts == ts[..n] + [ts[n]];
      var earlier := Find(ts[..n], id);
      if earlier.Some? then earlier
      else if ts[n].id == id && ts[n].Live() then Some(n) else None
  }

  ghost predicate IsBest(ts: seq<Entry>, now: Duration, best: Option<nat>) {
    match best
    case None => forall i :: 0 <= i < |ts| ==> !ts[i].Ready(now)
    case Some(b) =>
      && b < |ts| && ts[b].Ready(now)
      && forall i :: 0 <= i < |ts| && ts[i].Ready(now) ==> !ts[i].Precedes(ts[b])
  }

  /** The ready entry that is first by (deadline, id). */
  function Best(ts: seq<Entry>, now: Duration): (best: Option<nat>)
    ensures IsBest(ts, now, best)
  {
    if ts == [] then None
    else
      var n := |ts| - 1;
      var best := Best(ts[..n], now);
      if ts[n].Ready(now) && (best.None? || ts[n].Precedes(ts[best.value])) then Some(n) else best
  }

  ghost predicate IsEarliest(ts: seq<Entry>, d: Option<Duration>) {
    && (forall e :: e in ts && e.Live() && e.timer.deadline.Some? ==> d.Some? && d.value <= e.timer.deadline.value)
    && (d.Some? ==> exists e :: e in ts && e.Live() && e.timer.deadline == d)
  }

  /** The earliest deadline of a live entry. */
  function Earliest(ts: seq<Entry>): (d: Option<Duration>)
    ensures IsEarliest(ts, d)
  {
    if ts == [] then None
    else
      var n := |ts| - 1;
      assert ts == ts[..n] + [ts[n]];
      var d := Earliest(ts[..n]);
      if ts[n].deleted || ts[n].timer.deadline.None? then d
      else if d.None? || ts[n].timer.deadline.value < d.value then ts[n].timer.deadline
      else d
  }

  // ---------------------------------------------------------------------------
  // Critical sections
  // ---------------------------------------------------------------------------

  /** The operations of the timer API that run under the registry mutex; `reserved` says whether memory for
      one more entry could be had. */
  datatype Op =
    | Register(period: Duration, mode: Mode, reserved: bool)
    | Start(id: nat)
    | Reset(id: nat)
    | Stop(id: nat)
    | ChangePeriod(id: nat, period: Duration)
    | Deregister(id: nat)

  /** A section's effect: the registry, whether it posted the wake semaphore, its result, and the callback
      that it took out of an entry for its caller to drop. */
  datatype Effect = Effect(reg: Registry, signalled: bool, result: Result<nat>, taken: Option<nat>)

  function Replaced(r: Registry, i: nat, e: Entry): Registry
    requires i < |r.timers|
  {
    r.(timers := r.timers[i := e])
  }

  function Perform(r: Registry, op: Op, now: Duration): Effect {
    match op
    case Register(period, mode, reserved) =>
      if period == 0 then Effect(r, false, Err(InvalidParameter), None)
      else if !reserved then Effect(r, false, Err(OutOfMemory), None)
      else if r.nextId >= U64_MAX then Effect(r, false, Err(Overflow), None)
      else Effect(r.(timers := r.timers + [Entry(r.nextId, Timer(mode, period, None), Some(r.nextId), false)],
                     nextId := r.nextId + 1), true, Ok(r.nextId), None)
    case Start(id) => PerformStart(r, id, now)
    case Reset(id) => PerformStart(r, id, now)
    case Stop(id) =>
      (match Find(r.timers, id)
       case None => Effect(r, false, Err(NotFound), None)
       case Some(i) =>
         var e := r.timers[i];
         Effect(Replaced(r, i, e.(timer := Stopped(e.timer))), true, Ok(id), None))
    case ChangePeriod(id, period) =>
      (match Find(r.timers, id)
       case None => Effect(r, false, Err(NotFound), None)
       case Some(i) =>
         var e := r.timers[i];
         match Repaced(e.timer, period)
         case Err(error) => Effect(r, false, Err(error), None)
         case Ok(t) => Effect(Replaced(r, i, e.(timer := t)), false, Ok(id), None))
    case Deregister(id) =>
      (match Find(r.timers, id)
       case None => Effect(r, false, Err(NotFound), None)
       case Some(i) =>
         var e := r.timers[i];
         var gone := e.(deleted := true, timer := Stopped(e.timer), callback := None);
         Effect(Replaced(r, i, gone), true, Ok(id), e.callback))
  }

  function PerformStart(r: Registry, id: nat, now: Duration): Effect {
    match Find(r.timers, id)
    case None => Effect(r, false, Err(NotFound), None)
    case Some(i) =>
      var e := r.timers[i];
      match Started(e.timer, now)
      case Err(error) => Effect(r, false, Err(error), None)
      case Ok(t) => Effect(Replaced(r, i, e.(timer := t)), true, Ok(id), None)
  }

  datatype ServiceAction =
    | Dispatch(id: nat, callback: nat)
    | WaitUntil(deadline: Duration)
    | WaitForever
    | Rescan
    | Quit

  /** One scan of the worker. */
  function Scan(r: Registry, now: Duration): (Registry, ServiceAction) {
    var kept := r.(timers := Retain(r.timers));
    if r.stop then (kept, Quit)
    else
      match Best(kept.timers, now)
      case Some(i) =>
        var e := kept.timers[i];
        if e.timer.Expired(now)
        then (Replaced(kept, i, e.(timer := Advanced(e.timer, now), callback := None)),
              Dispatch(e.id, e.callback.value))
        else (kept, Rescan)
      case None =>
        (match Earliest(kept.timers)
         case Some(d) => (kept, WaitUntil(d))
         case None => (kept, WaitForever))
  }

  /** Give the callback back to its entry; false if the entry is gone and the callback is dropped. */
  function Restore(r: Registry, id: nat, callback: nat): (Registry, bool) {
    match Find(r.timers, id)
    case None => (r, false)
    case Some(i) =>
      if r.timers[i].callback.None? then (Replaced(r, i, r.timers[i].(callback := Some(callback))), true)
      else (r, false)
  }

  // ---------------------------------------------------------------------------
  // What the operations do, entry by entry
  // ---------------------------------------------------------------------------

  /** Entry `i` is the one live entry with this id. */
  predicate LiveAt(ts: seq<Entry>, i: nat, id: nat) {
    && i < |ts| && ts[i].Live() && ts[i].id == id
    && forall j :: 0 <= j < |ts| && j != i && ts[j].Live() ==> ts[j].id != id
  }

  /** `r'` is `r` but for entry `i`, which keeps its id and its deletion mark. */
  predicate OnlyEntry(r: Registry, r': Registry, i: nat) {
    && i < |r.timers| == |r'.timers| && r'.nextId == r.nextId && r'.stop == r.stop
    && r'.timers[i].id == r.timers[i].id
    && forall j :: 0 <= j < |r.timers| && j != i ==> r'.timers[j] == r.timers[j]
  }

  lemma FindIs(ts: seq<Entry>, i: nat, id: nat)
    requires LiveAt(ts, i, id)
    ensures Find(ts, id) == Some(i)
  {
    assert ts[i] in ts;
  }

  /** `start` and `reset` arm the timer one period from now, or overflow with nothing changed. */
  lemma StartArms(r: Registry, op: Op, now: Duration, i: nat)
    requires (op.Start? || op.Reset?) && LiveAt(r.timers, i, op.id)
    ensures var effect, e := Perform(r, op, now), r.timers[i];
            if now + e.timer.period <= DURATION_MAX then
              && effect.result == Ok(op.id) && effect.signalled && effect.taken.None?
              && OnlyEntry(r, effect.reg, i)
              && var e' := effect.reg.timers[i];
                 && e'.timer.deadline == Some(now + e.timer.period) && e'.timer.period == e.timer.period
                 && e'.timer.mode == e.timer.mode && e'.callback == e.callback && e'.Live()
            else effect.reg == r && effect.result == Err(Overflow) && !effect.signalled
  {
    FindIs(r.timers, i, op.id);
  }

  /** `stop` leaves no deadline. */
  lemma StopDisarms(r: Registry, id: nat, now: Duration, i: nat)
    requires LiveAt(r.timers, i, id)
    ensures var effect, e := Perform(r, Op.Stop(id), now), r.timers[i];
            && effect.result == Ok(id) && effect.signalled && OnlyEntry(r, effect.reg, i)
            && var e' := effect.reg.timers[i];
               && e'.timer.deadline.None? && e'.timer.period == e.timer.period && e'.timer.mode == e.timer.mode
               && e'.callback == e.callback && e'.Live()
  {
    FindIs(r.timers, i, id);
  }

  /** `change_period` keeps the deadline and refuses zero. */
  lemma ChangePeriodKeepsDeadline(r: Registry, id: nat, period: Duration, now: Duration, i: nat)
    requires LiveAt(r.timers, i, id)
    ensures var effect, e := Perform(r, Op.ChangePeriod(id, period), now), r.timers[i];
            if period == 0 then effect.reg == r && effect.result == Err(InvalidParameter)
            else
              && effect.result == Ok(id) && OnlyEntry(r, effect.reg, i)
              && var e' := effect.reg.timers[i];
                 && e'.timer.period == period && e'.timer.deadline == e.timer.deadline
                 && e'.timer.mode == e.timer.mode && e'.callback == e.callback && e'.Live()
  {
    FindIs(r.timers, i, id);
  }

  /** `deregister` marks the entry deleted and hands out the callback that was in it. */
  lemma DeregisterDeletes(r: Registry, id: nat, now: Duration, i: nat)
    requires LiveAt(r.timers, i, id)
    ensures var effect, e := Perform(r, Deregister(id), now), r.timers[i];
            && effect.result == Ok(id) && effect.signalled && effect.taken == e.callback
            && OnlyEntry(r, effect.reg, i)
            && var e' := effect.reg.timers[i]; !e'.Live() && e'.timer.deadline.None? && e'.callback.None?
  {
    FindIs(r.timers, i, id);
  }

  /** `register` appends one stopped timer with its callback, or is refused with nothing changed. */
  lemma RegisterAppends(r: Registry, period: Duration, mode: Mode, reserved: bool, now: Duration)
    ensures var effect := Perform(r, Register(period, mode, reserved), now);
            if period == 0 then effect.reg == r && effect.result == Err(InvalidParameter)
            else if !reserved then effect.reg == r && effect.result == Err(OutOfMemory)
            else if r.nextId + 1 > U64_MAX then effect.reg == r && effect.result == Err(Overflow)
            else
              && effect.result == Ok(r.nextId) && effect.signalled
              && effect.reg.nextId == r.nextId + 1 && effect.reg.stop == r.stop
              && |effect.reg.timers| == |r.timers| + 1 && r.timers <= effect.reg.timers
              && var e := effect.reg.timers[|r.timers|];
                 && e.id == r.nextId && e.Live() && e.callback == Some(r.nextId)
                 && e.timer.period == period && e.timer.mode == mode && e.timer.deadline.None?
  {
  }

  /** Every other operation answers `NotFound`, with nothing changed, exactly when no live entry has its id. */
  lemma NotFoundIffUnknown(r: Registry, op: Op, now: Duration)
    requires !op.Register?
    ensures var effect := Perform(r, op, now);
            && (effect.result == Err(NotFound) <==> forall e :: e in r.timers && e.Live() ==> e.id != op.id)
            && (effect.result == Err(NotFound) ==> effect.reg == r && !effect.signalled && effect.taken.None?)
  {
    if Find(r.timers, op.id).Some? {
      assert r.timers[Find(r.timers, op.id).value] in r.timers;
    }
  }

  // ---------------------------------------------------------------------------
  // The object
  // ---------------------------------------------------------------------------

  class TimerService {
    var timers: seq<Entry>
    var nextId: nat
    var stopRequested: bool
    /** The binary wake semaphore. */
    var wake: bool

    ghost function View(): Registry
      reads this
    {
      Registry(timers, nextId, stopRequested)
    }

    constructor ()
      ensures View() == Registry([], 1, false) && !wake
    {
      timers, nextId, stopRequested, wake := [], 1, false, false;
    }

    method FindLive(id: nat) returns (index: Option<nat>)
      ensures index == Find(timers, id)
    {
      for i := 0 to |timers|
        invariant Find(timers[..i], id).None?
      {
        assert timers[..i + 1][..i] == timers[..i];
        if timers[i].id == id && timers[i].Live() {
          FoundStays(timers, i + 1, id);
          return Some(i);
        }
      }
      assert timers[..|timers|] == timers;
      index := None;
    }

    /** `register`, `start`, `stop`, `reset`, `change_period` and `deregister` under the mutex. */
    method Section(op: Op, now: Duration) returns (result: Result<nat>, taken: Option<nat>)
      modifies this
      ensures var effect := Perform(old(View()), op, now);
              && View() == effect.reg && result == effect.result && taken == effect.taken
              && wake == (old(wake) || effect.signalled)
    {
      if op.Register? {
        if op.period == 0 { return Err(InvalidParameter), None; }
        if !op.reserved { return Err(OutOfMemory), None; }
        var id := nextId;
        if id >= U64_MAX { return Err(Overflow), None; }
        nextId := id + 1;
        timers := timers + [Entry(id, Timer(op.mode, op.period, None), Some(id), false)];
        wake := true;
        return Ok(id), None;
      }
      taken := None;
      var found := FindLive(op.id);
      if found.None? { return Err(NotFound), None; }
      var i := found.value;
      var e := timers[i];
      match op {
        case Start(_) =>
          match Started(e.timer, now) {
            case Err(error) => return Err(error), None;
            case Ok(t) => timers := timers[i := e.(timer := t)];
          }
        case Reset(_) =>
          match Started(e.timer, now) {
            case Err(error) => return Err(error), None;
            case Ok(t) => timers := timers[i := e.(timer := t)];
          }
        case Stop(_) => timers := timers[i := e.(timer := Stopped(e.timer))];
        case ChangePeriod(_, period) =>
          match Repaced(e.timer, period) {
            case Err(error) => return Err(error), None;
            case Ok(t) => timers := timers[i := e.(timer := t)]; return Ok(op.id), None;
          }
        case Deregister(_) =>
          taken := e.callback;
          timers := timers[i := e.(deleted := true, timer := Stopped(e.timer), callback := None)];
      }
      wake := true;
      result := Ok(op.id);
    }

    method PruneDeleted()
      modifies this`timers
      ensures timers == Retain(old(timers))
    {
      var kept := [];
      for i := 0 to |timers|
        invariant kept == Retain(timers[..i])
      {
        assert timers[..i + 1][..i] == timers[..i];
        if timers[i].Live() { kept := kept + [timers[i]]; }
      }
      assert timers[..|timers|] == timers;
      timers := kept;
    }

    method FirstExpired(now: Duration) returns (best: Option<nat>)
      ensures best == Best(timers, now)
    {
      best := None;
      for i := 0 to |timers|
        invariant best == Best(timers[..i], now)
      {
        assert timers[..i + 1][..i] == timers[..i];
        if timers[i].Ready(now) && (best.None? || timers[i].Precedes(timers[best.value])) { best := Some(i); }
      }
      assert timers[..|timers|] == timers;
    }

    method EarliestDeadline() returns (earliest: Option<Duration>)
      ensures earliest == Earliest(timers)
    {
      earliest := None;
      for i := 0 to |timers|
        invariant earliest == Earliest(timers[..i])
      {
        assert timers[..i + 1][..i] == timers[..i];
        if timers[i].Live() && timers[i].timer.deadline.Some? &&
           (earliest.None? || timers[i].timer.deadline.value < earliest.value)
        {
          earliest := timers[i].timer.deadline;
        }
      }
      assert timers[..|timers|] == timers;
    }

    /** The locked part of one iteration of the worker loop. */
    method ScanSection(now: Duration) returns (action: ServiceAction)
      modifies this`timers
      ensures (View(), action) == Scan(old(View()), now)
    {
      PruneDeleted();
      if stopRequested { return Quit; }
      var best := FirstExpired(now);
      if best.Some? {
        var e := timers[best.value];
        timers := timers[best.value := e.(timer := Advanced(e.timer, now), callback := None)];
        return Dispatch(e.id, e.callback.value);
      }
      var earliest := EarliestDeadline();
      action := if earliest.Some? then WaitUntil(earliest.value) else WaitForever;
    }

    /** The locked part of `dispatch_one` after the callback returned. */
    method RestoreSection(id: nat, callback: nat) returns (kept: bool)
      modifies this`timers
      ensures (View(), kept) == Restore(old(View()), id, callback)
    {
      var found := FindLive(id);
      if found.Some? && timers[found.value].callback.None? {
        timers := timers[found.value := timers[found.value].(callback := Some(callback))];
        return true;
      }
      kept := false;
    }

    /** Phase 1 of `shutdown`: refuse while timers live, else request the stop and wake the worker. */
    method RequestStop() returns (r: Result<()>)
      modifies this
      ensures timers == Retain(old(timers)) && nextId == old(nextId)
      ensures r.Ok? <==> forall e :: e in old(timers) ==> e.deleted
      ensures r.Ok? ==> stopRequested && wake
      ensures r.Err? ==> r.error == Busy && stopRequested == old(stopRequested) && wake == old(wake)
    {
      PruneDeleted();
      if timers != [] {
        assert timers[0] in timers;
        return Err(Busy);
      }
      stopRequested, wake := true, true;
      r := Ok(());
    }
  }

  lemma {:induction false} FoundStays(ts: seq<Entry>, n: nat, id: nat)
    requires n <= |ts| && Find(ts[..n], id).Some?
    ensures Find(ts, id) == Find(ts[..n], id)
    decreases |ts|
  {
    if n == |ts| {
      assert ts[..n] == ts;
    } else {
      var m := |ts| - 1;
      assert ts[..m][..n] == ts[..n];
      FoundStays(ts[..m], n, id);
    }
  }
}
