/**
 The FreeRTOS runtime: the lifecycle, the timer service slot, the service in it, and the objects that
 hold leases, composed.  Any number of threads initialise and shut the runtime down, any number of
 objects come and go, and any number of timer API calls are under way.

 The lifecycle appears as the atomic operations it was proved to implement.  Taking the service
 out of the slot and entering its registry are separate steps, as are the phases of a shutdown.
 */
module RuntimeComposition {
  import opened Errors
  import opened Durations
  import opened Counting
  import opened Lifecycle
  import TimerStates
  import opened TimerRegistry
  import TimerWorker

  datatype Slot = Stopped | Running | Stopping

  /** Why a transition was abandoned. */
  datatype Refusal = NoMemory | SchedulerNotReady | SelfShutdown | LiveTimers | WrongSlot

  /** A thread inside `initialize` or `shutdown`. */
  datatype Thread =
    | Rest
    | InitBegun
    | InitReady
    | InitFailed(why: Refusal)
    | ShutBegun
    | ShutAsked
    | ShutFailed(why: Refusal)
    | ShutWait(hasWorker: bool)
    | ShutDrained
    | ShutDone
    | Crashed
  {
    predicate Initialising() { InitBegun? || InitReady? || InitFailed? }
    predicate Stopping() { ShutBegun? || ShutAsked? || ShutFailed? || ShutWait? || ShutDrained? || ShutDone? }
    /** What the slot holds while a thread is here. */
    function SlotThen(): Slot {
      if InitReady? || ShutBegun? || ShutAsked? || ShutFailed? then Slot.Running
      else if ShutWait? || ShutDrained? then Slot.Stopping
      else Slot.Stopped
    }
  }

  /** An object that holds a lease from creation to the end of its drop. */
  datatype Object =
    | Gone
    | Plain
    | NewTimer
    | NewTimerExtracted(generation: nat)
    | LiveTimer(id: nat)
    | DropTimer(id: nat)
    | DropTimerExtracted(id: nat, generation: nat)
    | Deregistered
    | DropCrashed
  {
    predicate HasLease() { !Gone? }
    predicate OwnsTimer() { LiveTimer? || DropTimer? || DropTimerExtracted? }
  }

  /** A call of `start`, `stop`, `reset` or `change_period` on a live timer object. */
  datatype Call =
    | NoCall
    | Ensuring(target: nat, op: Op)
    | Extracting(target: nat, op: Op)
    | Entering(target: nat, op: Op, generation: nat)
    | Answered(result: Result<nat>)
  {
    predicate On(o: nat) { (Ensuring? || Extracting? || Entering?) && target == o }
  }

  datatype State = State(
    life: Atomic, maxCount: nat, slot: Slot, generation: nat, svc: TimerWorker.State,
    threads: seq<Thread>, objects: seq<Object>, calls: seq<Call>)

  datatype Action =
    | BeginInitialize(t: nat)
    | StartService(t: nat, memory: bool)
    | FinishInitialize(t: nat)
    | BeginShutdown(t: nat)
    | Preflight(t: nat, scheduler: bool)
    | Phase1(t: nat, isSelf: bool)
    | Phase2(t: nat)
    | Phase3(t: nat)
    | FinishShutdown(t: nat)
    | Acquire(o: nat, timer: bool)
    | ExtractForNew(o: nat)
    | RegisterNew(o: nat, period: Duration, mode: TimerStates.Mode, reserved: bool)
    | BeginDrop(o: nat)
    | ExtractForDrop(o: nat)
    | DeregisterDropped(o: nat)
    | Release(o: nat)
    | BeginCall(c: nat, o: nat, op: Op)
    | EnsureWorker(c: nat, scheduler: bool, memory: bool)
    | ExtractForCall(c: nat)
    | EnterRegistry(c: nat)
    | Work(a: TimerWorker.Action)

  predicate OpFor(op: Op, id: nat) {
    && (op.Start? || op.Reset? || op.Stop? || op.ChangePeriod?)
    && op.id == id
  }

  predicate EnabledThread(s: State, a: Action)
    requires a.BeginInitialize? || a.StartService? || a.FinishInitialize? || a.BeginShutdown? || a.Preflight? ||
             a.Phase1? || a.Phase2? || a.Phase3? || a.FinishShutdown?
  {
    a.t < |s.threads| &&
    var at := s.threads[a.t];
    match a
    case BeginInitialize(_) => at.Rest?
    case StartService(_, _) => at.InitBegun?
    case FinishInitialize(_) => at.InitReady? || at.InitFailed?
    case BeginShutdown(_) => at.Rest?
    case Preflight(_, _) => at.ShutBegun?
    case Phase1(_, _) => at.ShutAsked?
    case Phase2(_) => at.ShutWait? && (at.hasWorker ==> s.svc.worker.Exited?)
    case Phase3(_) => at.ShutDrained?
    case FinishShutdown(_) => at.ShutDone? || at.ShutFailed?
  }

  predicate Enabled(s: State, a: Action) {
    match a
    case Acquire(o, _) => o < |s.objects| && s.objects[o].Gone?
    case ExtractForNew(o) => o < |s.objects| && s.objects[o].NewTimer?
    case RegisterNew(o, _, _, _) => o < |s.objects| && s.objects[o].NewTimerExtracted?
    case BeginDrop(o) =>
      && o < |s.objects|
      && (s.objects[o].Plain? || s.objects[o].LiveTimer?)
      && forall c :: 0 <= c < |s.calls| ==> !s.calls[c].On(o)
    case ExtractForDrop(o) => o < |s.objects| && s.objects[o].DropTimer?
    case DeregisterDropped(o) => o < |s.objects| && s.objects[o].DropTimerExtracted?
    case Release(o) => o < |s.objects| && s.objects[o].Deregistered?
    case BeginCall(c, o, op) =>
      && c < |s.calls| && (s.calls[c].NoCall? || s.calls[c].Answered?)
      && o < |s.objects| && s.objects[o].LiveTimer? && OpFor(op, s.objects[o].id)
    case EnsureWorker(c, _, _) => c < |s.calls| && s.calls[c].Ensuring?
    case ExtractForCall(c) => c < |s.calls| && s.calls[c].Extracting?
    case EnterRegistry(c) => c < |s.calls| && s.calls[c].Entering?
    case Work(w) =>
      && !s.slot.Stopped? && TimerWorker.Enabled(s.svc, w)
      && (w.Tick? || w.WorkerScan? || w.WorkerTake? || w.WorkerExpire? || w.CallbackDone?)
    case _ => EnabledThread(s, a)
  }

  function WithThread(s: State, t: nat, at: Thread): State
    requires t < |s.threads|
  {
    s.(threads := s.threads[t := at])
  }

  function WithObject(s: State, o: nat, obj: Object): State
    requires o < |s.objects|
  {
    s.(objects := s.objects[o := obj])
  }

  function WithCall(s: State, c: nat, call: Call): State
    requires c < |s.calls|
  {
    s.(calls := s.calls[c := call])
  }

  /** A service just created; the clock goes on. */
  function FreshService(now: Duration): TimerWorker.State {
    TimerWorker.State(Registry([], 1, false), false, now, TimerWorker.Absent, {}, {}, [])
  }

  function NextThread(s: State, a: Action): State
    requires a.BeginInitialize? || a.StartService? || a.FinishInitialize? || a.BeginShutdown? || a.Preflight? ||
             a.Phase1? || a.Phase2? || a.Phase3? || a.FinishShutdown?
    requires EnabledThread(s, a)
  {
    var at := s.threads[a.t];
    match a
    case BeginInitialize(t) =>
      if s.life.Is(Uninitialized) then WithThread(s, t, InitBegun).(life := Atomic(Initializing, 0)) else s
    case StartService(t, memory) =>
      if !s.slot.Stopped? then WithThread(s, t, InitFailed(WrongSlot))
      else if !memory then WithThread(s, t, InitFailed(NoMemory))
      else
        WithThread(s, t, InitReady).(
          slot := Slot.Running, generation := s.generation + 1, svc := FreshService(s.svc.now))
    case FinishInitialize(t) =>
      if !s.life.Is(Initializing) then WithThread(s, t, Crashed)
      else WithThread(s, t, Rest).(life := Atomic(if at.InitReady? then RuntimeState.Running else Uninitialized, 0))
    case BeginShutdown(t) =>
      if s.life.Is(RuntimeState.Running) then WithThread(s, t, ShutBegun).(life := Atomic(ShuttingDown, 0)) else s
    case Preflight(t, scheduler) =>
      if s.slot.Stopping? then WithThread(s, t, ShutFailed(WrongSlot))
      else if s.slot.Running? && !s.svc.worker.Absent? && !scheduler
      then WithThread(s, t, ShutFailed(SchedulerNotReady))
      else WithThread(s, t, ShutAsked)
    case Phase1(t, isSelf) =>
      if !s.slot.Running? then WithThread(s, t, ShutFailed(WrongSlot))
      else if isSelf && !s.svc.worker.Absent? then WithThread(s, t, ShutFailed(SelfShutdown))
      else
        var svc := TimerWorker.StopStep(s.svc);
        if svc.reg.timers != [] then WithThread(s, t, ShutFailed(LiveTimers)).(svc := svc)
        else WithThread(s, t, ShutWait(!s.svc.worker.Absent?)).(svc := svc, slot := Slot.Stopping)
    case Phase2(t) => WithThread(s, t, ShutDrained)
    case Phase3(t) =>
      if s.slot.Stopping? then WithThread(s, t, ShutDone).(slot := Slot.Stopped) else WithThread(s, t, Crashed)
    case FinishShutdown(t) =>
      if !s.life.Is(ShuttingDown) then WithThread(s, t, Crashed)
      else WithThread(s, t, Rest).(life := Atomic(if at.ShutDone? then Uninitialized else RuntimeState.Running, 0))
  }

  /** A registry section entered with a service taken from the slot earlier.  If that service is not
      the one in the slot any more, the section cannot be seen by the current one. */
  function Section(s: State, generation: nat, op: Op): (TimerWorker.State, Result<nat>) {
    if generation == s.generation
    then (TimerWorker.ApiStep(s.svc, op), Perform(s.svc.reg, op, s.svc.now).result)
    else (s.svc, Err(Internal))
  }

  function Next(s: State, a: Action): State
    requires Enabled(s, a)
  {
    match a
    case Acquire(o, timer) =>
      if s.life.state.Running? && s.life.count < s.maxCount
      then WithObject(s, o, if timer then NewTimer else Plain).(life := Atomic(RuntimeState.Running, s.life.count + 1))
      else s
    case ExtractForNew(o) =>
      WithObject(s, o, if s.slot.Running? then NewTimerExtracted(s.generation) else Deregistered)
    case RegisterNew(o, period, mode, reserved) =>
      var (svc, result) := Section(s, s.objects[o].generation, Register(period, mode, reserved));
      WithObject(s, o, if result.Ok? then LiveTimer(result.value) else Deregistered).(svc := svc)
    case BeginDrop(o) =>
      WithObject(s, o, if s.objects[o].Plain? then Deregistered else DropTimer(s.objects[o].id))
    case ExtractForDrop(o) =>
      WithObject(s, o, if s.slot.Running? then DropTimerExtracted(s.objects[o].id, s.generation) else DropCrashed)
    case DeregisterDropped(o) =>
      var (svc, result) := Section(s, s.objects[o].generation, Deregister(s.objects[o].id));
      WithObject(s, o, if result.Ok? then Deregistered else DropCrashed).(svc := svc)
    case Release(o) =>
      if s.life.state.Running? && s.life.count > 0
      then WithObject(s, o, Gone).(life := Atomic(RuntimeState.Running, s.life.count - 1))
      else WithObject(s, o, DropCrashed)
    case BeginCall(c, o, op) =>
      WithCall(s, c, if op.Start? || op.Reset? then Ensuring(o, op) else Extracting(o, op))
    case EnsureWorker(c, scheduler, memory) =>
      var call := s.calls[c];
      if !s.slot.Running? then WithCall(s, c, Answered(Err(if s.slot.Stopped? then NotInitialized else Busy)))
      else if !scheduler then WithCall(s, c, Answered(Err(Busy)))
      else if !s.svc.worker.Absent? then WithCall(s, c, Extracting(call.target, call.op))
      else if !memory then WithCall(s, c, Answered(Err(OutOfMemory)))
      else WithCall(s, c, Extracting(call.target, call.op)).(svc := s.svc.(worker := TimerWorker.Scanning))
    case ExtractForCall(c) =>
      var call := s.calls[c];
      WithCall(s, c, if s.slot.Running? then Entering(call.target, call.op, s.generation)
                  else Answered(Err(if s.slot.Stopped? then NotInitialized else Busy)))
    case EnterRegistry(c) =>
      var (svc, result) := Section(s, s.calls[c].generation, s.calls[c].op);
      WithCall(s, c, Answered(result)).(svc := svc)
    case Work(w) => s.(svc := TimerWorker.Next(s.svc, w))
    case _ => NextThread(s, a)
  }

  predicate Init(s: State) {
    && s.life.Is(Uninitialized) && s.slot.Stopped?
    && (forall t :: 0 <= t < |s.threads| ==> s.threads[t].Rest?)
    && (forall o :: 0 <= o < |s.objects| ==> s.objects[o].Gone?)
    && (forall c :: 0 <= c < |s.calls| ==> s.calls[c].NoCall?)
  }

  predicate Run(states: seq<State>, actions: seq<Action>) {
    && |states| == |actions| + 1
    && Init(states[0])
    && forall i :: 0 <= i < |actions| ==>
      Enabled(states[i], actions[i]) && states[i + 1] == Next(states[i], actions[i])
  }

  // ---------------------------------------------------------------------------
  // The invariant
  // ---------------------------------------------------------------------------

  function Initialisers(): Thread -> bool { (t: Thread) => t.Initialising() }
  function Stoppers(): Thread -> bool { (t: Thread) => t.Stopping() }
  function Leaseholders(): Object -> bool { (o: Object) => o.HasLease() }
  function Owners(): Object -> bool { (o: Object) => o.OwnsTimer() }
  function LiveEntries(): Entry -> bool { (e: Entry) => e.Live() }

  predicate InTransition(t: Thread) { t.Initialising() || t.Stopping() }

  predicate LifeOk(s: State) {
    && s.life.count == Count(s.objects, Leaseholders())
    && (s.life.count > 0 ==> s.life.state.Running?)
    && Count(s.threads, Initialisers()) == B(s.life.state.Initializing?)
    && Count(s.threads, Stoppers()) == B(s.life.state.ShuttingDown?)
  }

  /** The slot follows the lifecycle, and inside a transition the thread that makes it. */
  predicate SlotOk(s: State) {
    && (s.life.state.Uninitialized? ==> s.slot.Stopped?)
    && (s.life.state.Running? ==> s.slot.Running?)
    && (forall t :: 0 <= t < |s.threads| && InTransition(s.threads[t]) ==> s.slot == s.threads[t].SlotThen())
  }

  /** No thread crashed, and a transition fails only for reasons outside the runtime. */
  predicate ThreadOk(s: State, at: Thread) {
    && !at.Crashed?
    && (at.InitFailed? ==> at.why.NoMemory?)
    && (at.ShutFailed? ==> at.why.SchedulerNotReady? || at.why.SelfShutdown?)
    && (at.ShutWait? ==> at.hasWorker == !s.svc.worker.Absent?)
  }

  predicate ThreadsOk(s: State) { forall t :: 0 <= t < |s.threads| ==> ThreadOk(s, s.threads[t]) }

  /** The service keeps its own invariant and stops only when the slot says so; its live entries are
      as many as the objects that own a timer. */
  ghost predicate SvcOk(s: State) {
    && (!s.slot.Stopped? ==> TimerWorker.Inv(s.svc) && (s.svc.reg.stop <==> s.slot.Stopping?))
    && (if s.slot.Stopped? then 0 else Count(s.svc.reg.timers, LiveEntries())) == Count(s.objects, Owners())
  }

  predicate ObjectOk(s: State, obj: Object) {
    && !obj.DropCrashed?
    && (obj.NewTimerExtracted? || obj.DropTimerExtracted? ==> obj.generation == s.generation)
    && (obj.OwnsTimer() ==> 0 < obj.id < s.svc.reg.nextId && obj.id !in s.svc.deregistered)
  }

  predicate ObjectsOk(s: State) {
    && (forall o :: 0 <= o < |s.objects| ==> ObjectOk(s, s.objects[o]))
    && (forall o, p :: 0 <= o < p < |s.objects| && s.objects[o].OwnsTimer() && s.objects[p].OwnsTimer() ==>
          s.objects[o].id != s.objects[p].id)
  }

  predicate CallOk(s: State, call: Call) {
    call.Ensuring? || call.Extracting? || call.Entering? ==>
      && call.target < |s.objects| && s.objects[call.target].LiveTimer?
      && OpFor(call.op, s.objects[call.target].id)
      && (call.Entering? ==> call.generation == s.generation)
      && (!call.Ensuring? && (call.op.Start? || call.op.Reset?) ==> !s.svc.worker.Absent?)
  }

  predicate CallsOk(s: State) { forall c :: 0 <= c < |s.calls| ==> CallOk(s, s.calls[c]) }

  ghost predicate Inv(s: State) {
    LifeOk(s) && SlotOk(s) && ThreadsOk(s) && SvcOk(s) && ObjectsOk(s) && CallsOk(s)
  }

  lemma InitInv(s: State)
    requires Init(s)
    ensures Inv(s)
  {
    CountBound(s.objects, Leaseholders());
    CountBound(s.objects, Owners());
    CountBound(s.threads, Initialisers());
    CountBound(s.threads, Stoppers());
  }

  // ---------------------------------------------------------------------------
  // Consequences of the invariant
  // ---------------------------------------------------------------------------

  /** A lease keeps the runtime and the service running and every transition out. */
  lemma LeaseProtects(s: State, o: nat)
    requires LifeOk(s) && SlotOk(s) && o < |s.objects| && s.objects[o].HasLease()
    ensures s.life.count > 0 && s.life.state.Running? && s.slot.Running?
    ensures forall t :: 0 <= t < |s.threads| ==> !InTransition(s.threads[t])
  {
    CountAtLeast(s.objects, o, Leaseholders());
    forall t | 0 <= t < |s.threads|
      ensures !InTransition(s.threads[t])
    {
      CountAtLeast(s.threads, t, Initialisers());
      CountAtLeast(s.threads, t, Stoppers());
    }
  }

  /** Without leases there are no objects, so no timer entries and no calls either. */
  lemma NoLeaseNoObject(s: State)
    requires Inv(s) && s.life.count == 0
    ensures forall o :: 0 <= o < |s.objects| ==> s.objects[o].Gone?
    ensures Count(s.objects, Owners()) == 0
    ensures forall c :: 0 <= c < |s.calls| ==> s.calls[c].NoCall? || s.calls[c].Answered?
  {
    forall o | 0 <= o < |s.objects|
      ensures s.objects[o].Gone?
    {
      CountAtLeast(s.objects, o, Leaseholders());
    }
    CountBound(s.objects, Owners());
    forall c | 0 <= c < |s.calls|
      ensures s.calls[c].NoCall? || s.calls[c].Answered?
    {
      assert CallOk(s, s.calls[c]);
    }
  }

  /** A thread inside a transition is the only one, and the state is that transition's. */
  lemma TransitionIsAlone(s: State, t: nat)
    requires LifeOk(s) && t < |s.threads| && InTransition(s.threads[t])
    ensures s.life.count == 0
    ensures s.threads[t].Initialising() ==> s.life.state.Initializing?
    ensures s.threads[t].Stopping() ==> s.life.state.ShuttingDown?
    ensures forall u :: 0 <= u < |s.threads| && u != t ==> !InTransition(s.threads[u])
  {
    CountAtLeast(s.threads, t, Initialisers());
    CountAtLeast(s.threads, t, Stoppers());
    forall u | 0 <= u < |s.threads| && u != t
      ensures !InTransition(s.threads[u])
    {
      CountAtLeast(s.threads, u, Initialisers());
      CountAtLeast(s.threads, u, Stoppers());
      if s.threads[u].Initialising() && s.threads[t].Initialising() { CountUnique(s.threads, t, u, Initialisers()); }
      if s.threads[u].Stopping() && s.threads[t].Stopping() { CountUnique(s.threads, t, u, Stoppers()); }
    }
  }

  /** Outside transitions no thread is in one. */
  lemma NoTransition(s: State)
    requires LifeOk(s) && (s.life.state.Uninitialized? || s.life.state.Running?)
    ensures forall t :: 0 <= t < |s.threads| ==> !InTransition(s.threads[t])
  {
    forall t | 0 <= t < |s.threads|
      ensures !InTransition(s.threads[t])
    {
      CountAtLeast(s.threads, t, Initialisers());
      CountAtLeast(s.threads, t, Stoppers());
    }
  }

  lemma {:induction false} RetainCounts(ts: seq<Entry>)
    ensures |Retain(ts)| == Count(ts, LiveEntries()) == Count(Retain(ts), LiveEntries())
  {
    if ts != [] {
      var n := |ts| - 1;
      RetainCounts(ts[..n]);
      var r := Retain(ts[..n]);
      CountAppend(ts[..n], ts[n], LiveEntries());
      assert ts == ts[..n] + [ts[n]];
      if ts[n].Live() {
        CountAppend(r, ts[n], LiveEntries());
      } else {
        assert Retain(ts) == r + [];
        assert r + [] == r;
      }
    }
  }

  /** With no owner left, the live-timer refusal of phase 1 cannot be taken. */
  lemma NothingToRetain(s: State)
    requires Inv(s) && s.life.count == 0 && !s.slot.Stopped?
    ensures Retain(s.svc.reg.timers) == []
  {
    NoLeaseNoObject(s);
    RetainCounts(s.svc.reg.timers);
  }

  // ---------------------------------------------------------------------------
  // Threads
  // ---------------------------------------------------------------------------

  predicate IsThreadAction(a: Action) {
    a.BeginInitialize? || a.StartService? || a.FinishInitialize? || a.BeginShutdown? || a.Preflight? ||
    a.Phase1? || a.Phase2? || a.Phase3? || a.FinishShutdown?
  }

  /** When thread `t` makes a transition step, the guard counts are its own. */
  lemma OnlyThread(s: State, t: nat)
    requires LifeOk(s) && t < |s.threads|
    requires InTransition(s.threads[t]) || s.life.state.Uninitialized? || s.life.state.Running?
    ensures Count(s.threads, Initialisers()) == B(s.threads[t].Initialising())
    ensures Count(s.threads, Stoppers()) == B(s.threads[t].Stopping())
    ensures forall u :: 0 <= u < |s.threads| && u != t ==> !InTransition(s.threads[u])
  {
    if InTransition(s.threads[t]) { TransitionIsAlone(s, t); } else { NoTransition(s); }
  }

  /** A step of the one thread in transition, described by where it leads. */
  lemma Transit(s: State, s': State, t: nat)
    requires LifeOk(s) && ThreadsOk(s) && t < |s.threads|
    requires InTransition(s.threads[t]) || s.life.state.Uninitialized? || s.life.state.Running?
    requires s.life.count == 0 && s'.life.count == 0 && s'.objects == s.objects
    requires |s'.threads| == |s.threads| && s'.threads == s.threads[t := s'.threads[t]]
    requires s'.threads[t].Initialising() <==> s'.life.state.Initializing?
    requires s'.threads[t].Stopping() <==> s'.life.state.ShuttingDown?
    requires s'.slot == if InTransition(s'.threads[t]) then s'.threads[t].SlotThen()
                        else if s'.life.state.Running? then Slot.Running else Slot.Stopped
    requires ThreadOk(s', s'.threads[t])
    ensures LifeOk(s') && SlotOk(s') && ThreadsOk(s')
  {
    OnlyThread(s, t);
    CountUpdate(s.threads, t, s'.threads[t], Initialisers());
    CountUpdate(s.threads, t, s'.threads[t], Stoppers());
    forall u | 0 <= u < |s'.threads|
      ensures ThreadOk(s', s'.threads[u])
    {
      if u != t { assert ThreadOk(s, s.threads[u]); }
    }
  }

  /** With no object and no call around, only the service itself has to be right. */
  lemma Deserted(s: State, s': State)
    requires Inv(s) && s.life.count == 0 && s'.objects == s.objects && s'.calls == s.calls
    requires !s'.slot.Stopped? ==> TimerWorker.Inv(s'.svc) && (s'.svc.reg.stop <==> s'.slot.Stopping?)
    requires !s'.slot.Stopped? ==> Count(s'.svc.reg.timers, LiveEntries()) == 0
    ensures SvcOk(s') && ObjectsOk(s') && CallsOk(s')
  {
    NoLeaseNoObject(s);
  }

  lemma TransitionStep(s: State, s': State, t: nat)
    requires Inv(s) && t < |s.threads|
    requires InTransition(s.threads[t]) || s.life.state.Uninitialized? || s.life.state.Running?
    requires s.life.count == 0 && s'.life.count == 0 && s'.objects == s.objects && s'.calls == s.calls
    requires |s'.threads| == |s.threads| && s'.threads == s.threads[t := s'.threads[t]]
    requires s'.threads[t].Initialising() <==> s'.life.state.Initializing?
    requires s'.threads[t].Stopping() <==> s'.life.state.ShuttingDown?
    requires s'.slot == if InTransition(s'.threads[t]) then s'.threads[t].SlotThen()
                        else if s'.life.state.Running? then Slot.Running else Slot.Stopped
    requires ThreadOk(s', s'.threads[t])
    requires !s'.slot.Stopped? ==> TimerWorker.Inv(s'.svc) && (s'.svc.reg.stop <==> s'.slot.Stopping?)
    requires !s'.slot.Stopped? ==> Count(s'.svc.reg.timers, LiveEntries()) == 0
    ensures Inv(s')
  {
    Transit(s, s', t);
    Deserted(s, s');
  }

  lemma BeginInitializeInv(s: State, a: Action)
    requires Inv(s) && Enabled(s, a) && a.BeginInitialize?
    ensures Inv(Next(s, a))
  {
    var t, s' := a.t, Next(s, a);
    if s' != s {
      NoLeaseNoObject(s);
      TransitionStep(s, s', t);
    }
  }

  lemma StartServiceInv(s: State, a: Action)
    requires Inv(s) && Enabled(s, a) && a.StartService?
    ensures Inv(Next(s, a))
  {
    var t, s' := a.t, Next(s, a);
    TransitionIsAlone(s, t);
    assert ThreadOk(s, s.threads[t]);
    NoLeaseNoObject(s);
    TransitionStep(s, s', t);
  }

  lemma FinishInitializeInv(s: State, a: Action)
    requires Inv(s) && Enabled(s, a) && a.FinishInitialize?
    ensures Inv(Next(s, a))
  {
    var t, s' := a.t, Next(s, a);
    TransitionIsAlone(s, t);
    assert ThreadOk(s, s.threads[t]);
    NoLeaseNoObject(s);
    TransitionStep(s, s', t);
  }

  lemma BeginShutdownInv(s: State, a: Action)
    requires Inv(s) && Enabled(s, a) && a.BeginShutdown?
    ensures Inv(Next(s, a))
  {
    var t, s' := a.t, Next(s, a);
    if s' != s {
      NoLeaseNoObject(s);
      TransitionStep(s, s', t);
    }
  }

  lemma PreflightInv(s: State, a: Action)
    requires Inv(s) && Enabled(s, a) && a.Preflight?
    ensures Inv(Next(s, a))
  {
    var t, s' := a.t, Next(s, a);
    TransitionIsAlone(s, t);
    assert ThreadOk(s, s.threads[t]);
    NoLeaseNoObject(s);
    TransitionStep(s, s', t);
  }

  lemma Phase1Inv(s: State, a: Action)
    requires Inv(s) && Enabled(s, a) && a.Phase1?
    ensures Inv(Next(s, a))
  {
    var t, s' := a.t, Next(s, a);
    TransitionIsAlone(s, t);
    NoLeaseNoObject(s);
    NothingToRetain(s);
    RetainCounts(s.svc.reg.timers);
    TimerWorker.StopInv(s.svc);
    TransitionStep(s, s', t);
  }

  lemma Phase2Inv(s: State, a: Action)
    requires Inv(s) && Enabled(s, a) && a.Phase2?
    ensures Inv(Next(s, a))
  {
    var t, s' := a.t, Next(s, a);
    TransitionIsAlone(s, t);
    assert ThreadOk(s, s.threads[t]);
    NoLeaseNoObject(s);
    TransitionStep(s, s', t);
  }

  lemma Phase3Inv(s: State, a: Action)
    requires Inv(s) && Enabled(s, a) && a.Phase3?
    ensures Inv(Next(s, a))
  {
    var t, s' := a.t, Next(s, a);
    TransitionIsAlone(s, t);
    assert ThreadOk(s, s.threads[t]);
    NoLeaseNoObject(s);
    TransitionStep(s, s', t);
  }

  lemma FinishShutdownInv(s: State, a: Action)
    requires Inv(s) && Enabled(s, a) && a.FinishShutdown?
    ensures Inv(Next(s, a))
  {
    var t, s' := a.t, Next(s, a);
    TransitionIsAlone(s, t);
    assert ThreadOk(s, s.threads[t]);
    NoLeaseNoObject(s);
    TransitionStep(s, s', t);
  }

  // ---------------------------------------------------------------------------
  // Objects
  // ---------------------------------------------------------------------------

  /** How a service step may look to the objects: ids only grow, and at most `gone` is deregistered. */
  predicate SvcExtends(svc: TimerWorker.State, svc': TimerWorker.State, gone: Option<nat>) {
    && svc.reg.nextId <= svc'.reg.nextId
    && (forall id :: id in svc'.deregistered ==> id in svc.deregistered || gone == Some(id))
    && svc'.reg.stop == svc.reg.stop
    && (svc'.worker.Absent? ==> svc.worker.Absent?)
  }

  /** A step of one object while the runtime is running. */
  lemma ObjectStep(s: State, s': State, o: nat, gone: Option<nat>)
    requires Inv(s) && s.life.state.Running? && s'.life.state.Running? && o < |s.objects|
    requires s'.threads == s.threads && s'.calls == s.calls && s'.slot == s.slot && s'.generation == s.generation
    requires |s'.objects| == |s.objects| && s'.objects == s.objects[o := s'.objects[o]]
    requires s'.life.count == s.life.count - B(s.objects[o].HasLease()) + B(s'.objects[o].HasLease())
    requires TimerWorker.Inv(s'.svc) && SvcExtends(s.svc, s'.svc, gone)
    requires gone.Some? ==> s.objects[o].OwnsTimer() && s.objects[o].id == gone.value && !s'.objects[o].OwnsTimer()
    requires Count(s'.svc.reg.timers, LiveEntries()) ==
             Count(s.svc.reg.timers, LiveEntries()) - B(s.objects[o].OwnsTimer()) + B(s'.objects[o].OwnsTimer())
    requires ObjectOk(s', s'.objects[o])
    requires s'.objects[o].OwnsTimer() && !(s.objects[o].OwnsTimer() && s.objects[o].id == s'.objects[o].id) ==>
               s'.objects[o].id >= s.svc.reg.nextId
    requires forall c :: 0 <= c < |s.calls| ==> !s.calls[c].On(o)
    ensures Inv(s')
  {
    NoTransition(s);
    CountUpdate(s.objects, o, s'.objects[o], Leaseholders());
    CountUpdate(s.objects, o, s'.objects[o], Owners());
    forall p | 0 <= p < |s'.objects|
      ensures ObjectOk(s', s'.objects[p])
    {
      assert ObjectOk(s, s.objects[p]);
    }
    forall c | 0 <= c < |s'.calls|
      ensures CallOk(s', s'.calls[c])
    {
      assert CallOk(s, s.calls[c]) && !s.calls[c].On(o);
    }
    forall u | 0 <= u < |s'.threads|
      ensures ThreadOk(s', s'.threads[u])
    {
      assert ThreadOk(s, s.threads[u]);
    }
  }

  /** No call is under way on an object that is not live. */
  lemma NoCallOn(s: State, o: nat)
    requires CallsOk(s) && o < |s.objects| && !s.objects[o].LiveTimer?
    ensures forall c :: 0 <= c < |s.calls| ==> !s.calls[c].On(o)
  {
    forall c | 0 <= c < |s.calls|
      ensures !s.calls[c].On(o)
    {
      assert CallOk(s, s.calls[c]);
    }
  }

  lemma LeaseCountInv(s: State, a: Action)
    requires Inv(s) && Enabled(s, a) && (a.Acquire? || a.Release?)
    ensures Inv(Next(s, a))
  {
    var s' := Next(s, a);
    if a.Release? { LeaseProtects(s, a.o); }
    NoCallOn(s, a.o);
    if s' != s { ObjectStep(s, s', a.o, None); }
  }

  lemma PlainObjectInv(s: State, a: Action)
    requires Inv(s) && Enabled(s, a) && (a.ExtractForNew? || a.BeginDrop? || a.ExtractForDrop?)
    ensures Inv(Next(s, a))
  {
    var s' := Next(s, a);
    LeaseProtects(s, a.o);
    assert ObjectOk(s, s.objects[a.o]);
    if !a.BeginDrop? { NoCallOn(s, a.o); }
    ObjectStep(s, s', a.o, None);
  }

  lemma RegisterNewInv(s: State, a: Action)
    requires Inv(s) && Enabled(s, a) && a.RegisterNew?
    ensures Inv(Next(s, a))
  {
    var s' := Next(s, a);
    LeaseProtects(s, a.o);
    NoCallOn(s, a.o);
    assert ObjectOk(s, s.objects[a.o]);
    TimerWorker.RegisterInv(s.svc, a.period, a.mode, a.reserved);
    if s'.svc != s.svc {
      var ts' := s'.svc.reg.timers;
      CountAppend(s.svc.reg.timers, ts'[|ts'| - 1], LiveEntries());
    }
    ObjectStep(s, s', a.o, None);
  }

  lemma DeregisterInv(s: State, a: Action)
    requires Inv(s) && Enabled(s, a) && a.DeregisterDropped?
    ensures Inv(Next(s, a)) && Next(s, a).objects[a.o].Deregistered?
  {
    var s' := Next(s, a);
    var obj := s.objects[a.o];
    LeaseProtects(s, a.o);
    NoCallOn(s, a.o);
    assert ObjectOk(s, obj);
    TimerWorker.UpdateInv(s.svc, Deregister(obj.id));
    var i := Find(s.svc.reg.timers, obj.id).value;
    CountUpdate(s.svc.reg.timers, i, s'.svc.reg.timers[i], LiveEntries());
    ObjectStep(s, s', a.o, Some(obj.id));
  }

  // ---------------------------------------------------------------------------
  // Calls and the worker
  // ---------------------------------------------------------------------------

  /** A service step that neither adds nor removes a timer. */
  lemma ServiceStep(s: State, s': State)
    requires Inv(s) && s' == s.(svc := s'.svc) && !s.slot.Stopped?
    requires TimerWorker.Inv(s'.svc) && SvcExtends(s.svc, s'.svc, None)
    requires s.slot.Running? || s'.svc.worker.Absent? == s.svc.worker.Absent?
    requires Count(s'.svc.reg.timers, LiveEntries()) == Count(s.svc.reg.timers, LiveEntries())
    ensures Inv(s')
  {
    forall p | 0 <= p < |s'.objects|
      ensures ObjectOk(s', s'.objects[p])
    {
      assert ObjectOk(s, s.objects[p]);
    }
    forall c | 0 <= c < |s'.calls|
      ensures CallOk(s', s'.calls[c])
    {
      assert CallOk(s, s.calls[c]);
    }
    forall u | 0 <= u < |s'.threads|
      ensures ThreadOk(s', s'.threads[u])
    {
      assert ThreadOk(s, s.threads[u]);
    }
  }

  lemma CallStep(s: State, c: nat, call: Call)
    requires Inv(s) && c < |s.calls| && CallOk(s, call)
    ensures Inv(WithCall(s, c, call))
  {
    var s' := WithCall(s, c, call);
    forall d | 0 <= d < |s'.calls|
      ensures CallOk(s', s'.calls[d])
    {
      if d != c { assert CallOk(s, s.calls[d]); }
    }
  }

  lemma {:induction false} SectionCounts(s: TimerWorker.State, op: Op)
    requires !op.Register? && !op.Deregister?
    ensures Count(TimerWorker.ApiStep(s, op).reg.timers, LiveEntries()) == Count(s.reg.timers, LiveEntries())
  {
    var found := Find(s.reg.timers, op.id);
    if found.Some? {
      var i := found.value;
      CountUpdate(s.reg.timers, i, TimerWorker.ApiStep(s, op).reg.timers[i], LiveEntries());
    }
  }

  lemma EnsureWorkerInv(s: State, a: Action)
    requires Inv(s) && Enabled(s, a) && a.EnsureWorker?
    ensures Inv(Next(s, a))
  {
    var s' := Next(s, a);
    var mid := s.(svc := s'.svc);
    assert CallOk(s, s.calls[a.c]);
    if s'.svc != s.svc {
      TimerWorker.StepInv(s.svc, TimerWorker.CreateWorker);
      ServiceStep(s, mid);
    }
    CallStep(mid, a.c, s'.calls[a.c]);
  }

  lemma CallInv(s: State, a: Action)
    requires Inv(s) && Enabled(s, a) && (a.BeginCall? || a.ExtractForCall? || a.EnsureWorker?)
    ensures Inv(Next(s, a))
  {
    if a.EnsureWorker? {
      EnsureWorkerInv(s, a);
    } else {
      assert CallOk(s, s.calls[a.c]);
      CallStep(s, a.c, Next(s, a).calls[a.c]);
    }
  }

  /** A call enters the registry of the running service and finds its timer there. */
  lemma EnterInv(s: State, c: nat)
    requires Inv(s) && Enabled(s, EnterRegistry(c))
    ensures Inv(Next(s, EnterRegistry(c)))
    ensures Next(s, EnterRegistry(c)).calls[c].result != Err(NotFound)
    ensures s.slot.Running? && s.calls[c].generation == s.generation
  {
    var s', call := Next(s, EnterRegistry(c)), s.calls[c];
    assert CallOk(s, call);
    LeaseProtects(s, call.target);
    assert ObjectOk(s, s.objects[call.target]);
    TimerWorker.UpdateInv(s.svc, call.op);
    SectionCounts(s.svc, call.op);
    var mid := s.(svc := s'.svc);
    ServiceStep(s, mid);
    CallStep(mid, c, s'.calls[c]);
  }

  lemma ScanCounts(s: TimerWorker.State)
    requires s.worker.Scanning?
    ensures Count(TimerWorker.ScanStep(s).reg.timers, LiveEntries()) == Count(s.reg.timers, LiveEntries())
  {
    RetainCounts(s.reg.timers);
    var kept := Retain(s.reg.timers);
    var best := Best(kept, s.now);
    if !s.reg.stop && best.Some? {
      var i := best.value;
      CountUpdate(kept, i, TimerWorker.ScanStep(s).reg.timers[i], LiveEntries());
    }
  }

  lemma RestoreCounts(s: TimerWorker.State)
    requires s.worker.Running?
    ensures Count(TimerWorker.Next(s, TimerWorker.CallbackDone).reg.timers, LiveEntries()) ==
            Count(s.reg.timers, LiveEntries())
  {
    var found := Find(s.reg.timers, s.worker.id);
    if found.Some? {
      var i := found.value;
      CountUpdate(s.reg.timers, i, s.reg.timers[i].(callback := Some(s.worker.callback)), LiveEntries());
    }
  }

  /** What a step of the worker or the clock leaves alone. */
  lemma WorkExtends(svc: TimerWorker.State, w: TimerWorker.Action)
    requires TimerWorker.Enabled(svc, w)
    requires w.Tick? || w.WorkerScan? || w.WorkerTake? || w.WorkerExpire? || w.CallbackDone?
    ensures var svc' := TimerWorker.Next(svc, w);
            && SvcExtends(svc, svc', None) && svc'.worker.Absent? == svc.worker.Absent?
            && Count(svc'.reg.timers, LiveEntries()) == Count(svc.reg.timers, LiveEntries())
  {
    match w {
      case WorkerScan => ScanExtends(svc);
      case CallbackDone => RestoreCounts(svc);
      case Tick(_) =>
      case WorkerTake =>
      case WorkerExpire =>
    }
  }

  lemma ScanExtends(svc: TimerWorker.State)
    requires svc.worker.Scanning?
    ensures var svc' := TimerWorker.ScanStep(svc);
            && SvcExtends(svc, svc', None) && !svc'.worker.Absent?
            && Count(svc'.reg.timers, LiveEntries()) == Count(svc.reg.timers, LiveEntries())
  {
    ScanCounts(svc);
  }

  lemma WorkInv(s: State, w: TimerWorker.Action)
    requires Inv(s) && Enabled(s, Work(w))
    ensures Inv(Next(s, Work(w)))
  {
    TimerWorker.StepInv(s.svc, w);
    WorkExtends(s.svc, w);
    ServiceStep(s, Next(s, Work(w)));
  }

  lemma ThreadInv(s: State, a: Action)
    requires Inv(s) && Enabled(s, a) && IsThreadAction(a)
    ensures Inv(Next(s, a))
  {
    match a {
      case BeginInitialize(_) => BeginInitializeInv(s, a);
      case StartService(_, _) => StartServiceInv(s, a);
      case FinishInitialize(_) => FinishInitializeInv(s, a);
      case BeginShutdown(_) => BeginShutdownInv(s, a);
      case Preflight(_, _) => PreflightInv(s, a);
      case Phase1(_, _) => Phase1Inv(s, a);
      case Phase2(_) => Phase2Inv(s, a);
      case Phase3(_) => Phase3Inv(s, a);
      case FinishShutdown(_) => FinishShutdownInv(s, a);
    }
  }

  predicate IsObjectAction(a: Action) {
    a.Acquire? || a.ExtractForNew? || a.RegisterNew? || a.BeginDrop? || a.ExtractForDrop? ||
    a.DeregisterDropped? || a.Release?
  }

  lemma ObjectInv(s: State, a: Action)
    requires Inv(s) && Enabled(s, a) && IsObjectAction(a)
    ensures Inv(Next(s, a))
  {
    if a.RegisterNew? { RegisterNewInv(s, a); }
    else if a.DeregisterDropped? { DeregisterInv(s, a); }
    else if a.Acquire? || a.Release? { LeaseCountInv(s, a); }
    else { PlainObjectInv(s, a); }
  }

  lemma CallOrWorkInv(s: State, a: Action)
    requires Inv(s) && Enabled(s, a) && !IsThreadAction(a) && !IsObjectAction(a)
    ensures Inv(Next(s, a))
  {
    if a.EnterRegistry? { EnterInv(s, a.c); }
    else if a.Work? { WorkInv(s, a.a); }
    else { CallInv(s, a); }
  }

  /** Every step of every thread, object, call and of the worker keeps the invariant. */
  lemma StepInv(s: State, a: Action)
    requires Inv(s) && Enabled(s, a)
    ensures Inv(Next(s, a))
  {
    if IsThreadAction(a) { ThreadInv(s, a); }
    else if IsObjectAction(a) { ObjectInv(s, a); }
    else { CallOrWorkInv(s, a); }
  }

  // ---------------------------------------------------------------------------
  // Theorems over whole runs
  // ---------------------------------------------------------------------------

  lemma {:induction false} RunInv(states: seq<State>, actions: seq<Action>, i: nat)
    requires Run(states, actions) && i < |states|
    ensures Inv(states[i])
  {
    if i == 0 {
      InitInv(states[0]);
    } else {
      RunInv(states, actions, i - 1);
      StepInv(states[i - 1], actions[i - 1]);
    }
  }

  /** While a service exists, its live timers are the timers owned by objects, and no more than the
      outstanding leases. */
  lemma TimersNeedLeases(states: seq<State>, actions: seq<Action>, i: nat)
    requires Run(states, actions) && i < |states| && !states[i].slot.Stopped?
    ensures var s := states[i];
            && Count(s.svc.reg.timers, LiveEntries()) == Count(s.objects, Owners())
            && Count(s.svc.reg.timers, LiveEntries()) <= s.life.count
  {
    RunInv(states, actions, i);
    var objects := states[i].objects;
    if objects != [] { CountWithin(objects, 0, Owners(), Leaseholders()); }
  }

  /** Once the lifecycle has admitted a shutdown, phase 1 is refused only by the scheduler or to the
      worker itself, never because of a live timer or a slot in the wrong state. */
  lemma ShutdownMeetsNoTimer(states: seq<State>, actions: seq<Action>, i: nat)
    requires Run(states, actions) && i < |actions| && actions[i].Phase1? && !actions[i].isSelf
    ensures states[i].slot.Running? && states[i].life.Is(ShuttingDown)
    ensures states[i + 1].slot.Stopping? && states[i + 1].threads[actions[i].t].ShutWait?
  {
    RunInv(states, actions, i);
    var s, t := states[i], actions[i].t;
    TransitionIsAlone(s, t);
    NothingToRetain(s);
  }

  /** A shutdown is all or nothing: it ends with runtime and service both stopped, or both running. */
  lemma ShutdownIsAtomic(states: seq<State>, actions: seq<Action>, i: nat)
    requires Run(states, actions) && i < |actions| && actions[i].FinishShutdown?
    ensures var s, s' := states[i], states[i + 1];
            if s.threads[actions[i].t].ShutDone?
            then s'.life.Is(Uninitialized) && s'.slot.Stopped?
            else s'.life.Is(RuntimeState.Running) && s'.slot.Running? && !s'.svc.reg.stop
  {
    RunInv(states, actions, i);
    RunInv(states, actions, i + 1);
    TransitionIsAlone(states[i], actions[i].t);
  }

  /** So is an initialisation, and it always finds the slot empty. */
  lemma InitialiseIsAtomic(states: seq<State>, actions: seq<Action>, i: nat)
    requires Run(states, actions) && i < |actions|
    ensures actions[i].StartService? ==> states[i].slot.Stopped?
    ensures actions[i].FinishInitialize? ==>
              var s' := states[i + 1];
              if states[i].threads[actions[i].t].InitReady?
              then s'.life.Is(RuntimeState.Running) && s'.slot.Running?
              else s'.life.Is(Uninitialized) && s'.slot.Stopped?
  {
    RunInv(states, actions, i);
    RunInv(states, actions, i + 1);
    if actions[i].StartService? || actions[i].FinishInitialize? { TransitionIsAlone(states[i], actions[i].t); }
  }

  /** No assertion fails: not the slot check of phase 3, not a commit or rollback, not the
      deregistration in a timer's drop, not a lease drop. */
  lemma NothingCrashes(states: seq<State>, actions: seq<Action>, i: nat)
    requires Run(states, actions) && i < |states|
    ensures forall t :: 0 <= t < |states[i].threads| ==> !states[i].threads[t].Crashed?
    ensures forall o :: 0 <= o < |states[i].objects| ==> !states[i].objects[o].DropCrashed?
  {
    RunInv(states, actions, i);
    var s := states[i];
    forall t | 0 <= t < |s.threads|
      ensures !s.threads[t].Crashed?
    {
      assert ThreadOk(s, s.threads[t]);
    }
    forall o | 0 <= o < |s.objects|
      ensures !s.objects[o].DropCrashed?
    {
      assert ObjectOk(s, s.objects[o]);
    }
  }

  /** However long ago a call took the service out of the slot, it enters the registry of the running
      service and finds its timer. */
  lemma CallsReachTheirTimer(states: seq<State>, actions: seq<Action>, i: nat)
    requires Run(states, actions) && i < |actions| && actions[i].EnterRegistry?
    ensures states[i].slot.Running? && states[i].calls[actions[i].c].generation == states[i].generation
    ensures states[i + 1].calls[actions[i].c].result != Err(NotFound)
  {
    RunInv(states, actions, i);
    EnterInv(states[i], actions[i].c);
  }

  /** A shutdown that waits for the worker is never stuck: the worker can move or has completed ... */
  lemma ShutdownCanFinish(states: seq<State>, actions: seq<Action>, i: nat, t: nat)
    requires Run(states, actions) && i < |states| && t < |states[i].threads| && states[i].threads[t].ShutWait?
    ensures Enabled(states[i], Phase2(t)) || TimerWorker.WorkerCanMove(states[i].svc)
  {
    var s := states[i];
    RunInv(states, actions, i);
    assert ThreadOk(s, s.threads[t]);
  }

  predicate MovesWorker(a: Action) {
    a.Work? && (a.a.WorkerScan? || a.a.WorkerTake? || a.a.WorkerExpire? || a.a.CallbackDone?)
  }

  /** The steps a worker that was asked to stop still has ahead: finish the callback or wake up, and quit. */
  function StepsToQuit(w: TimerWorker.Worker): nat {
    match w
    case Absent => 0
    case Exited => 0
    case Scanning => 1
    case Running(_, _) => 2
    case SleepUntil(_) => 2
    case SleepForever => 2
  }

  predicate AwaitsWorker(s: State, t: nat) { t < |s.threads| && s.threads[t].ShutWait? }

  /** A worker asked to stop comes closer to quitting with each move. */
  lemma StoppedWorkerDescends(svc: TimerWorker.State, w: TimerWorker.Action)
    requires svc.reg.stop && TimerWorker.Enabled(svc, w) && MovesWorker(Work(w))
    ensures StepsToQuit(TimerWorker.Next(svc, w).worker) < StepsToQuit(svc.worker)
  {
  }

  lemma WaitingStep(s: State, a: Action, t: nat)
    requires Inv(s) && Enabled(s, a) && AwaitsWorker(s, t) && AwaitsWorker(Next(s, a), t)
    ensures StepsToQuit(Next(s, a).svc.worker) + B(MovesWorker(a)) <= StepsToQuit(s.svc.worker)
  {
    TransitionIsAlone(s, t);
    if MovesWorker(a) {
      StoppedWorkerDescends(s.svc, a.a);
    } else {
      OthersLeaveWorker(s, a, t);
    }
  }

  lemma OthersLeaveWorker(s: State, a: Action, t: nat)
    requires Inv(s) && Enabled(s, a) && AwaitsWorker(s, t) && AwaitsWorker(Next(s, a), t) && !MovesWorker(a)
    ensures Next(s, a).svc.worker == s.svc.worker
  {
    TransitionIsAlone(s, t);
  }

  function WorkerMoves(actions: seq<Action>, first: nat, last: nat): nat
    requires first <= last <= |actions|
    decreases last - first
  {
    if first == last then 0 else B(MovesWorker(actions[first])) + WorkerMoves(actions, first + 1, last)
  }

  /** ... and while it waits, the worker makes at most two moves, whatever callbacks it was running and
      whatever other threads try; when none is left, phase 2 ends. */
  lemma {:induction false} ShutdownNeedsTwoMoves(
    states: seq<State>, actions: seq<Action>, first: nat, last: nat, t: nat)
    requires Run(states, actions) && first <= last < |states|
    requires forall j :: first <= j <= last ==> AwaitsWorker(states[j], t)
    ensures WorkerMoves(actions, first, last) + StepsToQuit(states[last].svc.worker) <=
            StepsToQuit(states[first].svc.worker) <= 2
    ensures StepsToQuit(states[last].svc.worker) == 0 ==> Enabled(states[last], Phase2(t))
    decreases last - first
  {
    if first < last {
      RunInv(states, actions, first);
      assert AwaitsWorker(states[first], t) && AwaitsWorker(states[first + 1], t);
      WaitingStep(states[first], actions[first], t);
      ShutdownNeedsTwoMoves(states, actions, first + 1, last, t);
    } else {
      RunInv(states, actions, last);
      assert ThreadOk(states[last], states[last].threads[t]);
    }
  }

  // ---------------------------------------------------------------------------
  // What each step does
  // ---------------------------------------------------------------------------

  /** A transition is admitted, and a lease granted, exactly in the lifecycle state that allows it; a refused
      attempt changes nothing. */
  lemma AdmissionIsExact(states: seq<State>, actions: seq<Action>, i: nat)
    requires Run(states, actions) && i < |actions|
    ensures var a, s, s' := actions[i], states[i], states[i + 1];
            && (a.BeginInitialize? ==>
                  if s.life.state.Uninitialized?
                  then s'.threads[a.t].InitBegun? && s'.life.Is(Initializing)
                  else s' == s)
            && (a.BeginShutdown? ==>
                  if s.life.state.Running? && s.life.count == 0
                  then s'.threads[a.t].ShutBegun? && s'.life.Is(ShuttingDown)
                  else s' == s)
            && (a.Acquire? ==>
                  if s.life.state.Running? && s.life.count < s.maxCount
                  then
                    && (if a.timer then s'.objects[a.o].NewTimer? else s'.objects[a.o].Plain?)
                    && s'.life.state.Running? && s'.life.count == s.life.count + 1
                  else s' == s)
  {
    RunInv(states, actions, i);
  }

  /** Inside a transition a step fails only for its own outside reason: no memory, a worker without a running
      scheduler, or a worker that shuts itself down. */
  lemma TransitionStepsAreExact(states: seq<State>, actions: seq<Action>, i: nat)
    requires Run(states, actions) && i < |actions| && IsThreadAction(actions[i])
    ensures var a, s, s' := actions[i], states[i], states[i + 1];
            var at := s'.threads[a.t];
            && (a.StartService? ==> if a.memory then at.InitReady? && s'.slot.Running? else at == InitFailed(NoMemory))
            && (a.Preflight? ==>
                  if !s.svc.worker.Absent? && !a.scheduler then at == ShutFailed(SchedulerNotReady) else at.ShutAsked?)
            && (a.Phase1? ==>
                  if !s.svc.worker.Absent? && a.isSelf then at == ShutFailed(SelfShutdown)
                  else at == ShutWait(!s.svc.worker.Absent?) && s'.slot.Stopping? && s'.svc.reg.stop && s'.svc.wake)
            && (a.Phase2? ==> at.ShutDrained?)
            && (a.Phase3? ==> at.ShutDone? && s'.slot.Stopped?)
            && (a.FinishInitialize? || a.FinishShutdown? ==> at.Rest?)
  {
    var s, a := states[i], actions[i];
    RunInv(states, actions, i);
    if InTransition(s.threads[a.t]) {
      TransitionIsAlone(s, a.t);
      assert ThreadOk(s, s.threads[a.t]);
    }
    if a.Phase1? { NothingToRetain(s); }
  }

  predicate ActsFor(a: Action, t: nat) { IsThreadAction(a) && a.t == t }

  lemma ThreadFrame(s: State, a: Action, t: nat)
    requires Enabled(s, a) && !ActsFor(a, t) && t < |s.threads|
    ensures |Next(s, a).threads| == |s.threads| && Next(s, a).threads[t] == s.threads[t]
  {
  }

  /** A thread's place in a transition is its own. */
  lemma {:induction false} ThreadStays(states: seq<State>, actions: seq<Action>, first: nat, last: nat, t: nat)
    requires Run(states, actions) && first <= last < |states| && t < |states[first].threads|
    requires forall j :: first <= j < last ==> !ActsFor(actions[j], t)
    ensures t < |states[last].threads| && states[last].threads[t] == states[first].threads[t]
    decreases last - first
  {
    if first < last {
      ThreadFrame(states[first], actions[first], t);
      ThreadStays(states, actions, first + 1, last, t);
    }
  }

  /** Steps of thread `t` at the indices `at`, in this order, and none of its others in between. */
  ghost predicate TakesInTurn(actions: seq<Action>, t: nat, at: seq<nat>, steps: seq<Action>) {
    && |at| == |steps|
    && (forall k :: 0 <= k < |at| ==> at[k] < |actions| && actions[at[k]] == steps[k])
    && (forall k :: 0 < k < |at| ==>
          at[k - 1] < at[k] && forall j :: at[k - 1] < j < at[k] ==> !ActsFor(actions[j], t))
  }

  lemma StaysBetween(states: seq<State>, actions: seq<Action>, t: nat, at: seq<nat>, steps: seq<Action>, k: nat)
    requires Run(states, actions) && TakesInTurn(actions, t, at, steps) && 0 < k < |at|
    requires t < |states[at[k - 1] + 1].threads|
    ensures t < |states[at[k]].threads| && states[at[k]].threads[t] == states[at[k - 1] + 1].threads[t]
  {
    ThreadStays(states, actions, at[k - 1] + 1, at[k], t);
  }

  /** A shutdown that was admitted, by a thread other than the worker and under a running scheduler, goes through its
      phases and succeeds, whatever other threads, objects and the worker do in between. */
  lemma ShutdownSucceeds(states: seq<State>, actions: seq<Action>, t: nat, at: seq<nat>)
    requires Run(states, actions)
    requires TakesInTurn(actions, t, at, [BeginShutdown(t), Preflight(t, true), Phase1(t, false), Phase2(t), Phase3(t),
                                          FinishShutdown(t)])
    ensures states[at[5] + 1].life.Is(Uninitialized) && states[at[5] + 1].slot.Stopped?
    ensures states[at[5] + 1].threads[t].Rest?
  {
    var steps := [BeginShutdown(t), Preflight(t, true), Phase1(t, false), Phase2(t), Phase3(t), FinishShutdown(t)];
    assert actions[at[4]] == steps[4] && actions[at[5]] == steps[5];
    TransitionStepsAreExact(states, actions, at[4]);
    StaysBetween(states, actions, t, at, steps, 5);
    TransitionStepsAreExact(states, actions, at[5]);
    ShutdownIsAtomic(states, actions, at[5]);
  }

  /** After each of those steps the next one is enabled, phase 2 once the worker has quit. */
  lemma ShutdownIsNeverStuck(states: seq<State>, actions: seq<Action>, i: nat, t: nat)
    requires Run(states, actions) && i < |states| && t < |states[i].threads| && states[i].threads[t].Stopping()
    ensures var s := states[i];
            match s.threads[t]
            case ShutBegun => forall up :: Enabled(s, Preflight(t, up))
            case ShutAsked => forall self :: Enabled(s, Phase1(t, self))
            case ShutWait(_) => Enabled(s, Phase2(t)) <==> StepsToQuit(s.svc.worker) == 0
            case ShutDrained => Enabled(s, Phase3(t))
            case _ => Enabled(s, FinishShutdown(t))
  {
    RunInv(states, actions, i);
    assert ThreadOk(states[i], states[i].threads[t]);
  }

  /** An initialisation that was admitted and finds memory succeeds. */
  lemma InitialiseSucceeds(states: seq<State>, actions: seq<Action>, t: nat, at: seq<nat>)
    requires Run(states, actions)
    requires TakesInTurn(actions, t, at, [BeginInitialize(t), StartService(t, true), FinishInitialize(t)])
    ensures states[at[2] + 1].life.Is(RuntimeState.Running) && states[at[2] + 1].slot.Running?
    ensures states[at[2] + 1].threads[t].Rest?
  {
    var steps := [BeginInitialize(t), StartService(t, true), FinishInitialize(t)];
    assert actions[at[1]] == steps[1] && actions[at[2]] == steps[2];
    TransitionStepsAreExact(states, actions, at[1]);
    StaysBetween(states, actions, t, at, steps, 2);
    TransitionStepsAreExact(states, actions, at[2]);
    InitialiseIsAtomic(states, actions, at[2]);
  }

  /** An object that holds a lease always finds the service: a new timer is registered unless the registry refuses it,
      a dropped one is deregistered, and its lease is given back after that. */
  lemma ObjectStepsAreExact(states: seq<State>, actions: seq<Action>, i: nat)
    requires Run(states, actions) && i < |actions| && IsObjectAction(actions[i])
    ensures var a, s, s' := actions[i], states[i], states[i + 1];
            var obj, obj' := s.objects[a.o], s'.objects[a.o];
            && (a.ExtractForNew? ==> obj' == NewTimerExtracted(s.generation))
            && (a.RegisterNew? ==>
                  var r := Perform(s.svc.reg, Register(a.period, a.mode, a.reserved), s.svc.now);
                  && s'.svc.reg == r.reg
                  && obj' == if r.result.Ok? then LiveTimer(r.result.value) else Deregistered)
            && (a.BeginDrop? ==> obj' == if obj.Plain? then Deregistered else DropTimer(obj.id))
            && (a.ExtractForDrop? ==> obj' == DropTimerExtracted(obj.id, s.generation))
            && (a.DeregisterDropped? ==> obj'.Deregistered? && obj.id in s'.svc.deregistered)
            && (a.Release? ==> obj'.Gone? && s.life.count == s'.life.count + 1)
  {
    var s, a := states[i], actions[i];
    RunInv(states, actions, i);
    if s.objects[a.o].HasLease() {
      LeaseProtects(s, a.o);
      assert ObjectOk(s, s.objects[a.o]);
    }
    if a.DeregisterDropped? { DeregisterInv(s, a); }
  }

  /** A call on a live timer creates the worker if it must, and performs its operation on the running service. */
  lemma CallStepsAreExact(states: seq<State>, actions: seq<Action>, i: nat)
    requires Run(states, actions) && i < |actions|
    ensures var a, s, s' := actions[i], states[i], states[i + 1];
            && (a.BeginCall? ==>
                  s'.calls[a.c] == if a.op.Start? || a.op.Reset? then Ensuring(a.o, a.op) else Extracting(a.o, a.op))
            && (a.EnsureWorker? ==>
                  var call := s.calls[a.c];
                  if !a.scheduler then s'.calls[a.c] == Answered(Err(Busy)) && s'.svc == s.svc
                  else if s.svc.worker.Absent? && !a.memory then s'.calls[a.c] == Answered(Err(OutOfMemory))
                  else s'.calls[a.c] == Extracting(call.target, call.op) && !s'.svc.worker.Absent?)
            && (a.ExtractForCall? ==>
                  s'.calls[a.c] == Entering(s.calls[a.c].target, s.calls[a.c].op, s.generation))
            && (a.EnterRegistry? ==>
                  var r := Perform(s.svc.reg, s.calls[a.c].op, s.svc.now);
                  s'.svc.reg == r.reg && s'.calls[a.c] == Answered(r.result))
  {
    var s, a := states[i], actions[i];
    RunInv(states, actions, i);
    if a.EnsureWorker? || a.ExtractForCall? || a.EnterRegistry? {
      assert CallOk(s, s.calls[a.c]);
      LeaseProtects(s, s.calls[a.c].target);
    }
  }
}
