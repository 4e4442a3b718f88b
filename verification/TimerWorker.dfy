/**
 The FreeRTOS timer service as a transition system: one worker, any number of API callers, and a
 clock.  Callers and callbacks run registry sections at any time; the worker scans, sleeps on the
 binary wake semaphore, and runs callbacks outside the registry mutex.
 */
module TimerWorker {
  import opened Errors
  import opened Durations
  import opened TimeConvert
  import opened TimerStates
  import opened TimerRegistry
  import opened Counting

  datatype Worker =
    | Absent
    | Scanning
    | Running(id: nat, callback: nat)
    | SleepUntil(deadline: Duration)
    | SleepForever
    | Exited

  /** A dispatch: the timer, the deadline that expired, and when its callback was taken. */
  datatype Firing = Firing(id: nat, deadline: Duration, at: Duration)

  datatype State = State(
    reg: Registry, wake: bool, now: Duration, worker: Worker,
    dropped: set<nat>, deregistered: set<nat>, fired: seq<Firing>)

  datatype Action =
    | Tick(elapsed: Duration)
    | Api(op: Op)
    | RequestStop
    | CreateWorker
    | WorkerScan
    | WorkerTake
    | WorkerExpire
    | CallbackDone

  /** `start` and `reset` create the worker before they enter the registry. */
  predicate Enabled(s: State, a: Action) {
    match a
    case Tick(_) => true
    case Api(op) => op.Start? || op.Reset? ==> !s.worker.Absent?
    case RequestStop => true
    case CreateWorker => s.worker.Absent?
    case WorkerScan => s.worker.Scanning?
    case WorkerTake => (s.worker.SleepUntil? || s.worker.SleepForever?) && s.wake
    case WorkerExpire => s.worker.SleepUntil? && s.now >= s.worker.deadline
    case CallbackDone => s.worker.Running?
  }

  function Dropped(callback: Option<nat>): set<nat> { if callback.Some? then {callback.value} else {} }

  function ApiStep(s: State, op: Op): State {
    var effect := Perform(s.reg, op, s.now);
    var s' := s.(reg := effect.reg, wake := s.wake || effect.signalled);
    if op.Deregister? && effect.result.Ok? then
      s'.(deregistered := s.deregistered + {op.id}, dropped := s.dropped + Dropped(effect.taken))
    else s'
  }

  function StopStep(s: State): State {
    var kept := Retain(s.reg.timers);
    if kept != [] then s.(reg := s.reg.(timers := kept))
    else s.(reg := s.reg.(timers := kept, stop := true), wake := true)
  }

  function ScanStep(s: State): State {
    var (reg, action) := Scan(s.reg, s.now);
    match action
    case Dispatch(id, callback) =>
      var b := Best(Retain(s.reg.timers), s.now);
      s.(reg := reg, worker := Running(id, callback),
         fired := s.fired + [Firing(id, Retain(s.reg.timers)[b.value].timer.deadline.value, s.now)])
    case WaitUntil(d) => s.(reg := reg, worker := SleepUntil(d))
    case WaitForever => s.(reg := reg, worker := SleepForever)
    case Rescan => s.(reg := reg)
    case Quit => s.(reg := reg, worker := Exited)
  }

  function Next(s: State, a: Action): State
    requires Enabled(s, a)
  {
    match a
    case Tick(elapsed) => s.(now := SaturatingAdd(s.now, elapsed))
    case Api(op) => ApiStep(s, op)
    case RequestStop => StopStep(s)
    case CreateWorker => s.(worker := Scanning)
    case WorkerScan => ScanStep(s)
    case WorkerTake => s.(wake := false, worker := Scanning)
    case WorkerExpire => s.(worker := Scanning)
    case CallbackDone =>
      var (reg, restored) := Restore(s.reg, s.worker.id, s.worker.callback);
      s.(reg := reg, worker := Scanning,
         dropped := if restored then s.dropped else s.dropped + {s.worker.callback})
  }

  predicate Init(s: State) {
    && s.reg == Registry([], 1, false) && !s.wake && s.worker.Absent?
    && s.dropped == s.deregistered == {} && s.fired == []
  }

  predicate Run(states: seq<State>, actions: seq<Action>) {
    && |states| == |actions| + 1
    && Init(states[0])
    && forall i :: 0 <= i < |actions| ==>
      Enabled(states[i], actions[i]) && states[i + 1] == Next(states[i], actions[i])
  }

  // ---------------------------------------------------------------------------
  // The invariant
  // ---------------------------------------------------------------------------

  predicate InFlight(s: State, id: nat) { s.worker.Running? && s.worker.id == id }

  /** Each entry's id is its own, and a live entry holds its callback unless that is in flight. */
  predicate EntryOk(s: State, e: Entry) {
    && 0 < e.id < s.reg.nextId
    && e.timer.period > 0
    && (e.Live() <==> e.id !in s.deregistered)
    && (e.deleted ==> e.callback.None? && e.timer.deadline.None?)
    && (e.Live() ==> e.callback == if InFlight(s, e.id) then None else Some(e.id))
  }

  predicate UniqueIds(ts: seq<Entry>) {
    forall i, j :: 0 <= i < j < |ts| ==> ts[i].id != ts[j].id
  }

  predicate Entries(s: State) {
    && (forall e :: e in s.reg.timers ==> EntryOk(s, e))
    && UniqueIds(s.reg.timers)
    && (forall id :: 0 < id < s.reg.nextId && id !in s.deregistered ==> Find(s.reg.timers, id).Some?)
  }

  /** A callback is dropped exactly when its timer is deregistered and it is not in flight. */
  ghost predicate Callbacks(s: State) {
    && s.reg.nextId > 0
    && (s.worker.Running? ==> s.worker.callback == s.worker.id && 0 < s.worker.id < s.reg.nextId)
    && (forall id :: id in s.deregistered ==> 0 < id < s.reg.nextId)
    && (forall id :: id in s.dropped <==> id in s.deregistered && !InFlight(s, id))
  }

  /** Every live deadline is at or after `d`; with no `d`, there is none. */
  predicate NoneBefore(ts: seq<Entry>, d: Option<Duration>) {
    forall e :: e in ts && e.Live() && e.timer.deadline.Some? ==> d.Some? && d.value <= e.timer.deadline.value
  }

  /** A worker asleep without a wake token has nothing to do before it wakes. */
  predicate Rested(s: State) {
    && (s.worker.SleepUntil? && !s.wake ==> !s.reg.stop && NoneBefore(s.reg.timers, Some(s.worker.deadline)))
    && (s.worker.SleepForever? && !s.wake ==> !s.reg.stop && NoneBefore(s.reg.timers, None))
    && (s.worker.Absent? ==> NoneBefore(s.reg.timers, None))
    && (s.worker.Exited? ==> s.reg.stop)
  }

  ghost predicate Inv(s: State) {
    && Entries(s) && Callbacks(s) && Rested(s)
    && (forall i :: 0 <= i < |s.fired| ==> s.fired[i].deadline <= s.fired[i].at)
  }

  lemma {:induction false} RetainUnique(ts: seq<Entry>)
    requires UniqueIds(ts)
    ensures UniqueIds(Retain(ts))
  {
    if ts != [] {
      var n := |ts| - 1;
      RetainUnique(ts[..n]);
      var r := Retain(ts[..n]);
      forall i | 0 <= i < |r|
        ensures r[i].id != ts[n].id
      {
        assert r[i] in r && r[i] in ts[..n];
      }
    }
  }

  /** Dropping the deleted entries changes nothing that the invariant sees. */
  lemma RetainEntries(s: State)
    requires Entries(s)
    ensures Entries(s.(reg := s.reg.(timers := Retain(s.reg.timers))))
  {
    var kept := Retain(s.reg.timers);
    RetainUnique(s.reg.timers);
    forall id | 0 < id < s.reg.nextId && id !in s.deregistered
      ensures Find(kept, id).Some?
    {
      assert s.reg.timers[Find(s.reg.timers, id).value] in kept;
    }
  }

  lemma StopInv(s: State)
    requires Inv(s)
    ensures Inv(StopStep(s))
  {
    RetainEntries(s);
  }

  /** Replacing one entry by another with the same id and liveness keeps the table consistent. */
  lemma ReplaceEntries(s: State, s': State, i: nat)
    requires Entries(s) && i < |s.reg.timers| == |s'.reg.timers|
    requires s'.reg == Replaced(s.reg, i, s'.reg.timers[i]) && s'.reg.timers[i].id == s.reg.timers[i].id
    requires EntryOk(s', s'.reg.timers[i])
    requires forall id :: id != s.reg.timers[i].id ==>
               (id in s'.deregistered <==> id in s.deregistered) && (InFlight(s', id) <==> InFlight(s, id))
    ensures Entries(s')
  {
    var ts, ts' := s.reg.timers, s'.reg.timers;
    forall e | e in ts'
      ensures EntryOk(s', e)
    {
      var k :| 0 <= k < |ts'| && ts'[k] == e;
      if k != i { assert ts[k] in ts && EntryOk(s, ts[k]); }
    }
    forall id | 0 < id < s.reg.nextId && id !in s'.deregistered
      ensures Find(ts', id).Some?
    {
      if id == ts[i].id {
        assert ts'[i] in ts';
      } else {
        var k := Find(ts, id).value;
        assert ts'[k] == ts[k] && ts'[k] in ts';
      }
    }
  }

  lemma RegisterInv(s: State, period: Duration, mode: Mode, reserved: bool)
    requires Inv(s)
    ensures Inv(ApiStep(s, Register(period, mode, reserved)))
  {
    var s' := ApiStep(s, Register(period, mode, reserved));
    if period > 0 && reserved && s.reg.nextId < U64_MAX {
      var ts, ts' := s.reg.timers, s'.reg.timers;
      var e := ts'[|ts|];
      assert ts' == ts + [e] && e in ts';
      forall x | x in ts'
        ensures EntryOk(s', x) && (x in ts || x.timer.deadline.None?)
      {
        if x in ts { assert EntryOk(s, x); }
      }
      forall i | 0 <= i < |ts|
        ensures ts[i].id != e.id
      {
        assert ts[i] in ts;
      }
      forall id | 0 < id < s'.reg.nextId && id !in s'.deregistered
        ensures Find(ts', id).Some?
      {
        if id < s.reg.nextId { assert ts[Find(ts, id).value] in ts'; }
      }
    }
  }

  /** Replacing an entry by one whose deadline is no earlier keeps a sleeper rested. */
  lemma ReplaceRested(ts: seq<Entry>, i: nat, e: Entry, d: Option<Duration>)
    requires i < |ts| && NoneBefore(ts, d)
    requires e.timer.deadline.None? || (ts[i].Live() && e.timer.deadline == ts[i].timer.deadline)
    ensures NoneBefore(ts[i := e], d)
  {
    var ts' := ts[i := e];
    forall x | x in ts' && x.Live() && x.timer.deadline.Some?
      ensures d.Some? && d.value <= x.timer.deadline.value
    {
      var k :| 0 <= k < |ts'| && ts'[k] == x;
      assert ts[k] in ts;
    }
  }

  lemma UpdateInv(s: State, op: Op)
    requires Inv(s) && Enabled(s, Api(op)) && !op.Register?
    ensures Inv(ApiStep(s, op))
  {
    var found := Find(s.reg.timers, op.id);
    var s' := ApiStep(s, op);
    if found.Some? && s'.reg != s.reg {
      var i := found.value;
      var ts := s.reg.timers;
      assert ts[i] in ts && EntryOk(s, ts[i]);
      ReplaceEntries(s, s', i);
      if !s'.wake || s'.worker.Absent? {
        var e := s'.reg.timers[i];
        if s.worker.SleepUntil? { ReplaceRested(ts, i, e, Some(s.worker.deadline)); }
        if s.worker.SleepForever? || s.worker.Absent? { ReplaceRested(ts, i, e, None); }
      }
    }
  }

  lemma DispatchInv(s: State, i: nat)
    requires Inv(s) && s.worker.Scanning? && !s.reg.stop
    requires Best(Retain(s.reg.timers), s.now) == Some(i)
    ensures Inv(ScanStep(s))
  {
    RetainEntries(s);
    var kept := s.(reg := s.reg.(timers := Retain(s.reg.timers)));
    var e := kept.reg.timers[i];
    assert e in kept.reg.timers && EntryOk(kept, e);
    ReplaceEntries(kept, ScanStep(s), i);
  }

  lemma ScanInv(s: State)
    requires Inv(s) && s.worker.Scanning?
    ensures Inv(ScanStep(s))
  {
    var best := Best(Retain(s.reg.timers), s.now);
    if !s.reg.stop && best.Some? {
      DispatchInv(s, best.value);
    } else {
      RetainEntries(s);
      var kept := s.(reg := s.reg.(timers := Retain(s.reg.timers)));
      IdleWorker(kept, ScanStep(s).worker);
    }
  }

  lemma IdleWorker(s: State, w: Worker)
    requires Entries(s) && Callbacks(s) && s.worker.Scanning? && !w.Running?
    ensures Entries(s.(worker := w)) && Callbacks(s.(worker := w))
  {
    forall e | e in s.reg.timers
      ensures EntryOk(s.(worker := w), e)
    {
      assert EntryOk(s, e);
    }
  }

  lemma DoneInv(s: State)
    requires Inv(s) && s.worker.Running?
    ensures Inv(Next(s, CallbackDone))
  {
    var s' := Next(s, CallbackDone);
    var ts := s.reg.timers;
    match Find(ts, s.worker.id)
    case Some(i) =>
      assert ts[i] in ts && EntryOk(s, ts[i]);
      ReplaceEntries(s, s', i);
    case None =>
      forall e | e in ts
        ensures EntryOk(s', e)
      {
        assert EntryOk(s, e);
      }
  }

  /** Every step of the worker, of a caller and of the clock keeps the invariant. */
  lemma StepInv(s: State, a: Action)
    requires Inv(s) && Enabled(s, a)
    ensures Inv(Next(s, a))
  {
    match a
    case Api(op) =>
      if op.Register? { RegisterInv(s, op.period, op.mode, op.reserved); } else { UpdateInv(s, op); }
    case RequestStop => StopInv(s);
    case WorkerScan => ScanInv(s);
    case CallbackDone => DoneInv(s);
    case _ =>
  }

  // ---------------------------------------------------------------------------
  // Theorems over whole runs
  // ---------------------------------------------------------------------------

  lemma {:induction false} RunInv(states: seq<State>, actions: seq<Action>, i: nat)
    requires Run(states, actions) && i < |states|
    ensures Inv(states[i])
  {
    if i > 0 {
      RunInv(states, actions, i - 1);
      StepInv(states[i - 1], actions[i - 1]);
    }
  }

  /** The worker never oversleeps: asleep with an empty wake semaphore, it has no stop request and no
      live timer is due before the instant it sleeps until. */
  lemma NeverOversleeps(states: seq<State>, actions: seq<Action>, i: nat)
    requires Run(states, actions) && i < |states| && !states[i].wake
    ensures var s := states[i];
            && (s.worker.SleepUntil? ==> !s.reg.stop && NoneBefore(s.reg.timers, Some(s.worker.deadline)))
            && (s.worker.SleepForever? ==> !s.reg.stop && NoneBefore(s.reg.timers, None))
  {
    RunInv(states, actions, i);
  }

  predicate WorkerCanMove(s: State) {
    Enabled(s, WorkerScan) || Enabled(s, WorkerTake) || Enabled(s, WorkerExpire) || Enabled(s, CallbackDone)
  }

  predicate WorkPending(s: State) {
    s.reg.stop || exists e :: e in s.reg.timers && e.Live() && e.timer.Expired(s.now)
  }

  /** No lost wake-up: whenever a timer is due or a stop is requested, and the worker has not exited,
      the worker exists and can move (a stop without a worker needs none). */
  lemma PendingWorkIsSeen(states: seq<State>, actions: seq<Action>, i: nat)
    requires Run(states, actions) && i < |states| && WorkPending(states[i])
    ensures var s := states[i]; WorkerCanMove(s) || s.worker.Exited? || (s.worker.Absent? && s.reg.stop)
  {
    RunInv(states, actions, i);
  }

  /** Where the callback registered under `id` is: in its entry, in flight, or dropped. */
  predicate Stored(s: State, id: nat) {
    Find(s.reg.timers, id).Some? && s.reg.timers[Find(s.reg.timers, id).value].callback == Some(id)
  }

  /** Callback conservation: in every reachable state each registered callback is in exactly one
      place, and it is dropped only once its timer has been deregistered. */
  lemma CallbacksAreConserved(states: seq<State>, actions: seq<Action>, i: nat, id: nat)
    requires Run(states, actions) && i < |states| && 0 < id < states[i].reg.nextId
    ensures var s := states[i];
            && (Stored(s, id) || InFlight(s, id) || id in s.dropped)
            && !(Stored(s, id) && InFlight(s, id))
            && !(Stored(s, id) && id in s.dropped)
            && !(InFlight(s, id) && id in s.dropped)
            && (id in s.dropped ==> id in s.deregistered)
  {
    RunInv(states, actions, i);
    var s := states[i];
    var found := Find(s.reg.timers, id);
    if found.Some? { assert EntryOk(s, s.reg.timers[found.value]); }
  }

  predicate IsLiveDue(e: Entry, now: Duration) { e.Live() && e.timer.Expired(now) }

  /** `e` is the first live due entry, by (deadline, id). */
  ghost predicate IsFirstDue(e: Entry, ts: seq<Entry>, now: Duration) {
    && e in ts && IsLiveDue(e, now)
    && forall f :: f in ts && IsLiveDue(f, now) ==> !f.Precedes(e)
  }

  lemma BestIsFirstDue(s: State)
    requires Entries(s) && s.worker.Scanning?
    ensures var kept := Retain(s.reg.timers);
            match Best(kept, s.now)
            case None => forall e :: e in s.reg.timers ==> !IsLiveDue(e, s.now)
            case Some(b) => kept[b].callback == Some(kept[b].id) && IsFirstDue(kept[b], s.reg.timers, s.now)
  {
    var kept := Retain(s.reg.timers);
    forall e | e in s.reg.timers && IsLiveDue(e, s.now)
      ensures Best(kept, s.now).Some? && !e.Precedes(kept[Best(kept, s.now).value])
    {
      assert EntryOk(s, e) && e in kept;
      var k :| 0 <= k < |kept| && kept[k] == e;
      assert kept[k].Ready(s.now);
    }
    match Best(kept, s.now)
    case None =>
    case Some(b) => assert kept[b] in kept && EntryOk(s, kept[b]);
  }

  /** What a scan does in any reachable state unless asked to stop: it never rescans; it dispatches the first live due
      timer by (deadline, id) if there is one ... */
  lemma ScanServesFirstDue(states: seq<State>, actions: seq<Action>, i: nat)
    requires Run(states, actions) && i < |actions| && actions[i].WorkerScan? && !states[i].reg.stop
    ensures var s, s' := states[i], states[i + 1];
            if exists e :: e in s.reg.timers && IsLiveDue(e, s.now) then
              && s'.worker.Running? && s'.worker.callback == s'.worker.id
              && exists e :: IsFirstDue(e, s.reg.timers, s.now) && e.id == s'.worker.id
            else s'.worker.SleepUntil? || s'.worker.SleepForever?
  {
    RunInv(states, actions, i);
    BestIsFirstDue(states[i]);
  }

  /** ... and else it sleeps until the earliest deadline of a live timer, or forever if none is armed. */
  lemma ScanSleepsUntilEarliest(states: seq<State>, actions: seq<Action>, i: nat)
    requires Run(states, actions) && i < |actions| && actions[i].WorkerScan?
    ensures var s, s' := states[i], states[i + 1];
            && (s'.worker.SleepUntil? ==>
                  && s.now < s'.worker.deadline
                  && exists e :: e in s.reg.timers && e.Live() && e.timer.deadline == Some(s'.worker.deadline))
            && (s'.worker.SleepForever? ==> forall e :: e in s.reg.timers && e.Live() ==> e.timer.deadline.None?)
            && (s'.worker.SleepUntil? || s'.worker.SleepForever? ==> s'.reg.timers == Retain(s.reg.timers))
            && (s'.worker.Exited? <==> s.reg.stop)
  {
    RunInv(states, actions, i);
    var s := states[i];
    var kept := Retain(s.reg.timers);
    forall e | e in s.reg.timers && e.Live()
      ensures e in kept && (Best(kept, s.now).None? ==> !e.timer.Expired(s.now))
    {
      assert EntryOk(s, e) && e in kept;
      var k :| 0 <= k < |kept| && kept[k] == e;
      assert Best(kept, s.now).None? ==> !kept[k].Ready(s.now);
    }
  }

  /** A dispatched timer: its callback is out, a one-shot timer is stopped, and a periodic one is armed where adding
      its period again and again first passes now. */
  predicate Rearmed(e: Entry, x: Entry, now: Duration)
    requires e.timer.deadline.Some? && e.timer.period > 0
  {
    && x.id == e.id && x.Live() && x.callback.None?
    && x.timer.mode == e.timer.mode && x.timer.period == e.timer.period
    && x.timer.deadline == (
         if e.timer.mode.OneShot? then None
         else
           var next := StepPast(e.timer.deadline.value, e.timer.period, now);
           if next <= DURATION_MAX then Some(next) else None)
  }

  /** A dispatch takes the callback of the timer it serves, re-arms that timer, and leaves every other live entry
      as it was. */
  lemma DispatchRearms(states: seq<State>, actions: seq<Action>, i: nat, e: Entry)
    requires Run(states, actions) && i < |actions| && actions[i].WorkerScan? && states[i + 1].worker.Running?
    requires e in states[i].reg.timers && e.Live()
    ensures var s, s' := states[i], states[i + 1];
            if e.id == s'.worker.id then
              && e.timer.Expired(s.now) && e.timer.period > 0 && e.callback == Some(s'.worker.callback)
              && exists x :: x in s'.reg.timers && Rearmed(e, x, s.now)
            else e in s'.reg.timers
  {
    RunInv(states, actions, i);
    var s, s' := states[i], states[i + 1];
    var kept := Retain(s.reg.timers);
    var b := Best(kept, s.now).value;
    assert e in kept && kept[b] in kept;
    var k :| 0 <= k < |kept| && kept[k] == e;
    RetainUnique(s.reg.timers);
    if e.id == s'.worker.id {
      assert k == b && EntryOk(s, e);
      AdvanceStepsPast(e.timer, s.now);
      assert s'.reg.timers[b] in s'.reg.timers && Rearmed(e, s'.reg.timers[b], s.now);
    } else {
      assert s'.reg.timers[k] == e;
    }
  }

  /** No dispatch starts before its deadline. */
  lemma NoEarlyFiring(states: seq<State>, actions: seq<Action>, i: nat, k: nat)
    requires Run(states, actions) && i < |states| && k < |states[i].fired|
    ensures states[i].fired[k].deadline <= states[i].fired[k].at
  {
    RunInv(states, actions, i);
  }

  lemma StepFires(s: State, a: Action, id: nat)
    requires Inv(s) && Enabled(s, a) && id in s.deregistered
    ensures var s' := Next(s, a);
            id in s'.deregistered && s.fired <= s'.fired && Unserved(s, s', id)
  {
    if a.WorkerScan? {
      var kept := Retain(s.reg.timers);
      var b := Best(kept, s.now);
      if b.Some? { assert kept[b.value] in kept && EntryOk(s, kept[b.value]); }
    }
  }

  ghost predicate Unserved(s: State, s': State, id: nat) {
    forall k :: |s.fired| <= k < |s'.fired| ==> s'.fired[k].id != id
  }

  lemma {:induction false} FiredGrows(states: seq<State>, actions: seq<Action>, i: nat, j: nat)
    requires Run(states, actions) && i <= j < |states|
    ensures states[i].fired <= states[j].fired
  {
    if i < j { FiredGrows(states, actions, i, j - 1); }
  }

  lemma UnservedSplits(s: State, m: State, s': State, id: nat)
    requires s.fired <= m.fired <= s'.fired && Unserved(s, s', id)
    ensures Unserved(s, m, id) && Unserved(m, s', id)
  {
    forall k | |s.fired| <= k < |m.fired|
      ensures m.fired[k].id != id
    {
      assert m.fired[k] == s'.fired[k];
    }
  }

  lemma UnservedJoins(s: State, m: State, s': State, id: nat)
    requires s.fired <= m.fired <= s'.fired && Unserved(s, m, id) && Unserved(m, s', id)
    ensures Unserved(s, s', id)
  {
    forall k | |s.fired| <= k < |s'.fired|
      ensures s'.fired[k].id != id
    {
      if k < |m.fired| { assert m.fired[k] == s'.fired[k]; }
    }
  }

  /** Once a deregistration has committed, its timer is never dispatched again. */
  lemma {:induction false} NoDispatchAfterDeregister(
    states: seq<State>, actions: seq<Action>, i: nat, j: nat, id: nat)
    requires Run(states, actions) && i <= j < |states| && id in states[i].deregistered
    ensures id in states[j].deregistered && states[i].fired <= states[j].fired
    ensures Unserved(states[i], states[j], id)
    decreases j - i
  {
    FiredGrows(states, actions, i, j);
    if i < j {
      RunInv(states, actions, i);
      StepFires(states[i], actions[i], id);
      FiredGrows(states, actions, i, i + 1);
      FiredGrows(states, actions, i + 1, j);
      NoDispatchAfterDeregister(states, actions, i + 1, j, id);
      UnservedJoins(states[i], states[i + 1], states[j], id);
    }
  }

  // ---------------------------------------------------------------------------
  // No starvation
  // ---------------------------------------------------------------------------

  predicate IsDue(e: Entry, id: nat, d: Duration) {
    e.Live() && e.id == id && e.timer.deadline == Some(d) && e.callback.Some?
  }

  ghost predicate HasDue(ts: seq<Entry>, id: nat, d: Duration) { exists e :: e in ts && IsDue(e, id, d) }

  /** Timer `id` is live and has been due since `d`, with its callback in its entry. */
  ghost predicate Awaits(s: State, id: nat, d: Duration) { d <= s.now && HasDue(s.reg.timers, id, d) }

  /** Live entries that come before deadline `d` and identity `id`. */
  function Before(d: Duration, id: nat): Entry -> bool {
    (e: Entry) =>
      e.Live() && e.timer.deadline.Some? &&
      (e.timer.deadline.value < d || (e.timer.deadline.value == d && e.id < id))
  }

  function Ahead(s: State, id: nat, d: Duration): nat { Count(s.reg.timers, Before(d, id)) }

  predicate Touches(a: Action, id: nat) { a.Api? && !a.op.Register? && a.op.id == id }

  lemma {:induction false} RetainKeepsCount(ts: seq<Entry>, f: Entry -> bool)
    requires forall e: Entry :: f(e) ==> e.Live()
    ensures Count(Retain(ts), f) == Count(ts, f)
  {
    if ts != [] {
      var n := |ts| - 1;
      RetainKeepsCount(ts[..n], f);
      if ts[n].Live() {
        CountAppend(Retain(ts[..n]), ts[n], f);
      } else {
        assert Retain(ts) == Retain(ts[..n]) + [] == Retain(ts[..n]);
      }
    }
  }

  lemma RetainKeepsAwaiting(ts: seq<Entry>, id: nat, d: Duration)
    requires HasDue(ts, id, d)
    ensures HasDue(Retain(ts), id, d) && Retain(ts) != []
    ensures Count(Retain(ts), Before(d, id)) == Count(ts, Before(d, id))
  {
    RetainKeepsCount(ts, Before(d, id));
    var e :| e in ts && IsDue(e, id, d);
    assert e in Retain(ts);
  }

  /** Replacing another timer's entry shifts the number ahead by what that entry contributes. */
  lemma ReplaceKeepsAwaiting(ts: seq<Entry>, i: nat, x: Entry, id: nat, d: Duration)
    requires HasDue(ts, id, d) && i < |ts| && ts[i].id != id
    ensures HasDue(ts[i := x], id, d)
    ensures Count(ts[i := x], Before(d, id)) ==
            Count(ts, Before(d, id)) - B(Before(d, id)(ts[i])) + B(Before(d, id)(x))
  {
    CountUpdate(ts, i, x, Before(d, id));
    var e :| e in ts && IsDue(e, id, d);
    var k :| 0 <= k < |ts| && ts[k] == e;
    assert ts[i := x][k] == e;
  }

  /** A start or reset re-arms after now, which is at or after `d`. */
  lemma UpdateKeepsAwaiting(s: State, op: Op, id: nat, d: Duration)
    requires Inv(s) && Awaits(s, id, d) && !op.Register? && op.id != id
    ensures Awaits(ApiStep(s, op), id, d) && Ahead(ApiStep(s, op), id, d) <= Ahead(s, id, d)
  {
    var s', ts := ApiStep(s, op), s.reg.timers;
    var found := Find(ts, op.id);
    if found.Some? && s'.reg != s.reg {
      assert ts[found.value] in ts && EntryOk(s, ts[found.value]);
      ReplaceKeepsAwaiting(ts, found.value, s'.reg.timers[found.value], id, d);
    }
  }

  lemma RegisterKeepsAwaiting(s: State, op: Op, id: nat, d: Duration)
    requires Awaits(s, id, d) && op.Register?
    ensures Awaits(ApiStep(s, op), id, d) && Ahead(ApiStep(s, op), id, d) == Ahead(s, id, d)
  {
    var s', ts := ApiStep(s, op), s.reg.timers;
    if s'.reg != s.reg {
      CountAppend(ts, s'.reg.timers[|ts|], Before(d, id));
      var e :| e in ts && IsDue(e, id, d);
      assert e in s'.reg.timers;
    }
  }

  /** A dispatch of another timer serves one that comes before, and re-arms it after now. */
  lemma DispatchOvertakes(ts: seq<Entry>, now: Duration, id: nat, d: Duration, i: nat)
    requires HasDue(ts, id, d) && d <= now && Best(ts, now) == Some(i) && ts[i].id != id
    ensures var x := ts[i].(timer := Advanced(ts[i].timer, now), callback := None);
            && HasDue(ts[i := x], id, d)
            && Count(ts[i := x], Before(d, id)) + 1 == Count(ts, Before(d, id))
  {
    var b := ts[i];
    var e :| e in ts && IsDue(e, id, d);
    var k :| 0 <= k < |ts| && ts[k] == e;
    assert ts[k].Ready(now) && !ts[k].Precedes(b);
    AdvancedIsNotExpired(b.timer, now);
    ReplaceKeepsAwaiting(ts, i, b.(timer := Advanced(b.timer, now), callback := None), id, d);
  }

  /** The scan of a worker not asked to stop dispatches timer `id`, or one ahead of it. */
  lemma ScanKeepsAwaiting(s: State, id: nat, d: Duration)
    requires s.worker.Scanning? && Awaits(s, id, d) && !s.reg.stop
    ensures var s' := ScanStep(s);
            && s'.worker.Running? && |s'.fired| == |s.fired| + 1 && s'.fired[|s.fired|].id == s'.worker.id
            && (s'.worker.id != id ==> Awaits(s', id, d) && Ahead(s', id, d) + 1 == Ahead(s, id, d))
  {
    var kept := Retain(s.reg.timers);
    RetainKeepsAwaiting(s.reg.timers, id, d);
    var e :| e in kept && IsDue(e, id, d);
    var k :| 0 <= k < |kept| && kept[k] == e;
    assert kept[k].Ready(s.now);
    var i := Best(kept, s.now).value;
    if kept[i].id != id { DispatchOvertakes(kept, s.now, id, d, i); }
  }

  lemma DoneKeepsAwaiting(s: State, id: nat, d: Duration)
    requires Inv(s) && Awaits(s, id, d) && Enabled(s, CallbackDone)
    ensures Awaits(Next(s, CallbackDone), id, d) && Ahead(Next(s, CallbackDone), id, d) == Ahead(s, id, d)
  {
    var s', ts := Next(s, CallbackDone), s.reg.timers;
    var found := Find(ts, s.worker.id);
    var e :| e in ts && IsDue(e, id, d);
    assert EntryOk(s, e);
    if found.Some? && s'.reg != s.reg {
      ReplaceKeepsAwaiting(ts, found.value, s'.reg.timers[found.value], id, d);
    }
  }

  /** One step while timer `id` waits, untouched: either it is dispatched, or it still waits, and a dispatch of
      another timer leaves one fewer ahead of it. */
  lemma AwaitingStep(s: State, a: Action, id: nat, d: Duration)
    requires Inv(s) && Enabled(s, a) && Awaits(s, id, d) && !Touches(a, id)
    ensures var s' := Next(s, a);
            && |s.fired| <= |s'.fired|
            && (|| (|s'.fired| == |s.fired| + 1 && s'.fired[|s.fired|].id == id)
                || (Awaits(s', id, d) && |s'.fired| - |s.fired| + Ahead(s', id, d) <= Ahead(s, id, d)))
  {
    RetainKeepsAwaiting(s.reg.timers, id, d);
    match a {
      case Api(op) =>
        if op.Register? { RegisterKeepsAwaiting(s, op, id, d); } else { UpdateKeepsAwaiting(s, op, id, d); }
      case WorkerScan =>
        if !s.reg.stop { ScanKeepsAwaiting(s, id, d); }
      case RequestStop =>
      case CallbackDone => DoneKeepsAwaiting(s, id, d);
      case Tick(_) =>
      case CreateWorker =>
      case WorkerTake =>
      case WorkerExpire =>
    }
  }

  /** No starvation: a due timer that nobody touches is overtaken by at most as many dispatches as there were
      live timers before it when it fell due, whatever is registered, started or restarted meanwhile ... */
  lemma {:induction false} DueTimerIsNotStarved(
    states: seq<State>, actions: seq<Action>, first: nat, last: nat, id: nat, d: Duration)
    requires Run(states, actions) && first <= last < |states| && Awaits(states[first], id, d)
    requires forall j :: first <= j < last ==> !Touches(actions[j], id)
    requires Unserved(states[first], states[last], id)
    ensures Awaits(states[last], id, d)
    ensures |states[last].fired| - |states[first].fired| + Ahead(states[last], id, d) <= Ahead(states[first], id, d)
    decreases last - first
  {
    if first < last {
      var s, m := states[first], states[first + 1];
      FiredGrows(states, actions, first, first + 1);
      FiredGrows(states, actions, first + 1, last);
      UnservedSplits(s, m, states[last], id);
      RunInv(states, actions, first);
      AwaitingStep(s, actions[first], id, d);
      DueTimerIsNotStarved(states, actions, first + 1, last, id, d);
    }
  }

  /** ... and with none before it, the next scan dispatches it. */
  lemma FrontTimerIsNext(states: seq<State>, actions: seq<Action>, i: nat, id: nat, d: Duration)
    requires Run(states, actions) && i < |actions| && actions[i].WorkerScan? && !states[i].reg.stop
    requires Awaits(states[i], id, d) && Ahead(states[i], id, d) == 0
    ensures states[i + 1].worker.Running? && states[i + 1].worker.id == id
  {
    RunInv(states, actions, i);
    ScanKeepsAwaiting(states[i], id, d);
  }

  // ---------------------------------------------------------------------------
  // From a start to its dispatch
  // ---------------------------------------------------------------------------

  predicate IsArmed(e: Entry, id: nat, d: Duration) { e.Live() && e.id == id && e.timer.deadline == Some(d) }

  ghost predicate Armed(s: State, id: nat, d: Duration) { exists e :: e in s.reg.timers && IsArmed(e, id, d) }

  lemma ReplaceKeepsArmed(ts: seq<Entry>, i: nat, x: Entry, id: nat, d: Duration)
    requires i < |ts| && (exists e :: e in ts && IsArmed(e, id, d))
    requires ts[i].id != id || IsArmed(x, id, d)
    ensures exists e :: e in ts[i := x] && IsArmed(e, id, d)
  {
    var e :| e in ts && IsArmed(e, id, d);
    var k :| 0 <= k < |ts| && ts[k] == e;
    var e' := ts[i := x][k];
    assert e' in ts[i := x] && IsArmed(e', id, d);
  }

  lemma ApiKeepsArmed(s: State, op: Op, id: nat, d: Duration)
    requires Armed(s, id, d) && !Touches(Api(op), id)
    ensures Armed(ApiStep(s, op), id, d)
  {
    var s', ts := ApiStep(s, op), s.reg.timers;
    if op.Register? {
      var e :| e in ts && IsArmed(e, id, d);
      assert s'.reg != s.reg ==> e in s'.reg.timers;
    } else {
      var found := Find(ts, op.id);
      if found.Some? && s'.reg != s.reg { ReplaceKeepsArmed(ts, found.value, s'.reg.timers[found.value], id, d); }
    }
  }

  lemma RetainKeepsArmed(s: State, id: nat, d: Duration)
    requires Armed(s, id, d)
    ensures exists e :: e in Retain(s.reg.timers) && IsArmed(e, id, d)
  {
    var e :| e in s.reg.timers && IsArmed(e, id, d);
    assert e in Retain(s.reg.timers);
  }

  /** Only a dispatch of the timer itself disarms it, if nobody touches it. */
  lemma ArmedStep(s: State, a: Action, id: nat, d: Duration)
    requires Inv(s) && Enabled(s, a) && Armed(s, id, d) && !Touches(a, id)
    ensures var s' := Next(s, a);
            && (s'.fired == s.fired || exists f :: s'.fired == s.fired + [f])
            && (Armed(s', id, d) || (|s'.fired| == |s.fired| + 1 && s'.fired[|s.fired|].id == id))
  {
    var s' := Next(s, a);
    RetainKeepsArmed(s, id, d);
    match a {
      case Api(op) => ApiKeepsArmed(s, op, id, d);
      case WorkerScan => ScanKeepsArmed(s, id, d);
      case CallbackDone =>
        var found := Find(s.reg.timers, s.worker.id);
        if found.Some? && s'.reg != s.reg {
          CallbackKeepsArmed(s.reg.timers, found.value, s.worker.callback, id, d);
        }
      case RequestStop =>
      case Tick(_) =>
      case CreateWorker =>
      case WorkerTake =>
      case WorkerExpire =>
    }
  }

  lemma ScanKeepsArmed(s: State, id: nat, d: Duration)
    requires s.worker.Scanning? && Armed(s, id, d)
    ensures var s' := ScanStep(s);
            && (s'.fired == s.fired || exists f :: s'.fired == s.fired + [f])
            && (Armed(s', id, d) || (|s'.fired| == |s.fired| + 1 && s'.fired[|s.fired|].id == id))
  {
    var kept := Retain(s.reg.timers);
    RetainKeepsArmed(s, id, d);
    var best := Best(kept, s.now);
    if !s.reg.stop && best.Some? && kept[best.value].id != id {
      ReplaceKeepsArmed(kept, best.value, ScanStep(s).reg.timers[best.value], id, d);
    }
  }

  lemma CallbackKeepsArmed(ts: seq<Entry>, i: nat, callback: nat, id: nat, d: Duration)
    requires i < |ts| && (exists e :: e in ts && IsArmed(e, id, d))
    ensures exists e :: e in ts[i := ts[i].(callback := Some(callback))] && IsArmed(e, id, d)
  {
    var e :| e in ts && IsArmed(e, id, d);
    var k :| 0 <= k < |ts| && ts[k] == e;
    var ts' := ts[i := ts[i].(callback := Some(callback))];
    assert ts'[k] in ts' && IsArmed(ts'[k], id, d);
  }

  /** A start or reset arms a live timer one period after now. */
  lemma StartTakesEffect(states: seq<State>, actions: seq<Action>, i: nat, e: Entry)
    requires Run(states, actions) && i < |actions| && actions[i].Api? && (actions[i].op.Start? || actions[i].op.Reset?)
    requires e in states[i].reg.timers && e.Live() && e.id == actions[i].op.id
    requires states[i].now + e.timer.period <= DURATION_MAX
    ensures Armed(states[i + 1], e.id, states[i].now + e.timer.period)
    ensures states[i + 1].now == states[i].now && states[i + 1].fired == states[i].fired
  {
    RunInv(states, actions, i);
    var s, op := states[i], actions[i].op;
    var k :| 0 <= k < |s.reg.timers| && s.reg.timers[k] == e;
    assert LiveAt(s.reg.timers, k, e.id);
    StartArms(s.reg, op, s.now, k);
    var ts' := states[i + 1].reg.timers;
    assert ts'[k] in ts' && IsArmed(ts'[k], e.id, s.now + e.timer.period);
  }

  /** An armed timer that nobody touches stays armed until it is dispatched, and from its deadline on it awaits
      its dispatch, unless its callback is still running. */
  lemma {:induction false} ArmedUntilServed(
    states: seq<State>, actions: seq<Action>, first: nat, last: nat, id: nat, d: Duration)
    requires Run(states, actions) && first <= last < |states| && Armed(states[first], id, d)
    requires forall j :: first <= j < last ==> !Touches(actions[j], id)
    requires Unserved(states[first], states[last], id)
    ensures Armed(states[last], id, d)
    ensures d <= states[last].now && !InFlight(states[last], id) ==> Awaits(states[last], id, d)
    decreases last - first
  {
    if first < last {
      var s, m := states[first], states[first + 1];
      FiredGrows(states, actions, first, first + 1);
      FiredGrows(states, actions, first + 1, last);
      UnservedSplits(s, m, states[last], id);
      RunInv(states, actions, first);
      ArmedStep(s, actions[first], id, d);
      ArmedUntilServed(states, actions, first + 1, last, id, d);
    } else {
      RunInv(states, actions, last);
      ArmedIsAwaiting(states[last], id, d);
    }
  }

  lemma ArmedIsAwaiting(s: State, id: nat, d: Duration)
    requires Inv(s) && Armed(s, id, d)
    ensures d <= s.now && !InFlight(s, id) ==> Awaits(s, id, d)
  {
    var e :| e in s.reg.timers && IsArmed(e, id, d);
    assert EntryOk(s, e);
    if !InFlight(s, id) { assert IsDue(e, id, d); }
  }

  /** From start to due: a timer started at one step and then left alone awaits its dispatch at every later state
      one period on, until it is dispatched. */
  lemma StartedTimerFallsDue(states: seq<State>, actions: seq<Action>, i: nat, last: nat, e: Entry)
    requires Run(states, actions) && i < last < |states|
    requires actions[i].Api? && (actions[i].op.Start? || actions[i].op.Reset?)
    requires e in states[i].reg.timers && e.Live() && e.id == actions[i].op.id
    requires states[i].now + e.timer.period <= DURATION_MAX
    requires forall j :: i < j < last ==> !Touches(actions[j], e.id)
    requires Unserved(states[i], states[last], e.id)
    ensures var d := states[i].now + e.timer.period;
            && Armed(states[last], e.id, d)
            && (d <= states[last].now && !InFlight(states[last], e.id) ==> Awaits(states[last], e.id, d))
  {
    StartTakesEffect(states, actions, i, e);
    ArmedUntilServed(states, actions, i + 1, last, e.id, states[i].now + e.timer.period);
  }

  /** What the remaining steps do: time passes, the worker is created or woken and scans again, a callback that has
      run goes back to its live entry, and a stop is requested exactly if no timer is live. */
  lemma StepsTakeEffect(states: seq<State>, actions: seq<Action>, i: nat)
    requires Run(states, actions) && i < |actions|
    ensures var a, s, s' := actions[i], states[i], states[i + 1];
            && (a.Tick? ==>
                  s' == s.(now := if s.now + a.elapsed <= DURATION_MAX then s.now + a.elapsed else DURATION_MAX))
            && (a.CreateWorker? || a.WorkerExpire? ==> s' == s.(worker := Scanning))
            && (a.WorkerTake? ==> s' == s.(worker := Scanning, wake := false))
            && (a.RequestStop? ==>
                  if exists e :: e in s.reg.timers && e.Live() then s'.reg.stop == s.reg.stop && s'.wake == s.wake
                  else s'.reg.stop && s'.wake)
            && (a.CallbackDone? ==>
                  && s'.worker.Scanning?
                  && (forall e :: e in s.reg.timers && e.Live() && e.id == s.worker.id ==>
                        e.(callback := Some(s.worker.callback)) in s'.reg.timers))
  {
    var a, s, s' := actions[i], states[i], states[i + 1];
    RunInv(states, actions, i);
    if a.RequestStop? {
      var kept := Retain(s.reg.timers);
      if kept != [] { assert kept[0] in kept; }
    }
    if a.CallbackDone? {
      forall e | e in s.reg.timers && e.Live() && e.id == s.worker.id
        ensures e.(callback := Some(s.worker.callback)) in s'.reg.timers
      {
        var k :| 0 <= k < |s.reg.timers| && s.reg.timers[k] == e;
        assert LiveAt(s.reg.timers, k, e.id) && EntryOk(s, e);
        FindIs(s.reg.timers, k, e.id);
        assert s'.reg.timers[k] == e.(callback := Some(s.worker.callback));
      }
    }
  }
}
