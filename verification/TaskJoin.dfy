/**
 Joining a POSIX task from any number of threads.  `pthread_join` may be called once, while the OSAL lets
 every holder of the handle join: a completion state, a mutex and a condition variable arbitrate.

 Every critical section is one step; the native join runs outside the mutex and is a step of its own, and
 so is the broadcast that the finished task sends after it released the mutex.
 */
module TaskJoin {
  import opened Errors
  import opened Counting

  type ExitCode = int
  const SUCCESS: ExitCode := 0

  datatype Phase = Running | Finished(code: ExitCode) | Joining(code: ExitCode) | Joined(code: ExitCode)

  /** The stored native thread: joinable, already joined, or removed. */
  datatype Thread = Live | Spent | Absent

  // ---------------------------------------------------------------------------
  // Critical sections
  // ---------------------------------------------------------------------------

  datatype Verdict = Answers(result: Result<ExitCode>) | Claims | Waits

  /** A `NoWait` join: it reports a finished task without joining it. */
  function Poll(p: Phase): Result<ExitCode> {
    match p
    case Joined(code) => Ok(code)
    case Finished(code) => Ok(code)
    case Joining(_) => Err(Timeout)
    case Running => Err(Timeout)
  }

  /** A blocking join's look at the phase: the first to see Finished claims the native join. */
  function Look(p: Phase): (Phase, Verdict) {
    match p
    case Joined(code) => (p, Answers(Ok(code)))
    case Finished(code) => (Joining(code), Claims)
    case Joining(_) => (p, Waits)
    case Running => (p, Waits)
  }

  /** The native join; `rc` is how `pthread_join` answers, if it is called. */
  function NativeJoin(t: Thread, rc: bool): (Thread, bool) {
    match t
    case Live => if rc then (Spent, true) else (Live, false)
    case Spent => (Spent, false)
    case Absent => (Absent, true)
  }

  function CodeOf(p: Phase): ExitCode { if p.Running? then SUCCESS else p.code }

  /** After the native join: record it, or hand the task back to the other joiners. */
  function Settle(p: Phase, ok: bool): (Phase, Result<ExitCode>) {
    if ok then (Joined(CodeOf(p)), Ok(CodeOf(p))) else (Finished(CodeOf(p)), Err(Internal))
  }

  // ---------------------------------------------------------------------------
  // The transition system
  // ---------------------------------------------------------------------------

  datatype Kind = NoWait | Timed | Forever

  /** Where a joiner is.  `woken` distinguishes a return from the condition variable. */
  datatype Pc =
    | Idle
    | Looking(kind: Kind, woken: bool)
    | Asleep(kind: Kind)
    | InNative
    | AfterNative(ok: bool)

  /** The task's own thread: running, with its completion published but not broadcast, or exited. */
  datatype Task = Executing | Published | Exited

  datatype State = State(
    phase: Phase, thread: Thread, task: Task, code: ExitCode, joiners: seq<Pc>,
    reaped: nat, replies: seq<Result<ExitCode>>)

  datatype Action =
    | Call(i: nat, kind: Kind, refusal: Option<Error>)
    | Examine(i: nat)
    | WakeSpuriously(i: nat)
    | Abandon(i: nat, error: Error)
    | Native(i: nat, rc: bool)
    | Conclude(i: nat)
    | Publish(code: ExitCode)
    | Broadcast

  function Woken(p: Pc): Pc { if p.Asleep? then Looking(p.kind, true) else p }

  function WakeAll(js: seq<Pc>): (r: seq<Pc>)
    ensures |r| == |js| && forall i :: 0 <= i < |js| ==> r[i] == Woken(js[i])
  {
    if js == [] then [] else WakeAll(js[..|js| - 1]) + [Woken(js[|js| - 1])]
  }

  predicate At(s: State, i: nat) { i < |s.joiners| }

  /** `pthread_join` succeeds only after the thread exited. */
  predicate Enabled(s: State, a: Action) {
    match a
    case Call(i, _, _) => At(s, i) && s.joiners[i].Idle?
    case Examine(i) => At(s, i) && s.joiners[i].Looking?
    case WakeSpuriously(i) => At(s, i) && s.joiners[i].Asleep?
    case Abandon(i, error) =>
      At(s, i) && (s.joiners[i] == Asleep(Timed) || s.joiners[i] == Looking(Timed, true))
    case Native(i, rc) => At(s, i) && s.joiners[i].InNative? && (s.thread.Live? && rc ==> s.task.Exited?)
    case Conclude(i) => At(s, i) && s.joiners[i].AfterNative?
    case Publish(_) => s.task.Executing?
    case Broadcast => s.task.Published?
  }

  function Move(s: State, i: nat, p: Pc): State
    requires At(s, i)
  {
    s.(joiners := s.joiners[i := p])
  }

  function Return(s: State, i: nat, r: Result<ExitCode>): State
    requires At(s, i)
  {
    Move(s, i, Idle).(replies := s.replies + [r])
  }

  function Examined(s: State, i: nat): State
    requires At(s, i) && s.joiners[i].Looking?
  {
    var kind := s.joiners[i].kind;
    if kind.NoWait? then Return(s, i, Poll(s.phase))
    else
      var (phase, v) := Look(s.phase);
      match v
      case Answers(r) => Return(s, i, r)
      case Claims => Move(s, i, InNative).(phase := phase)
      case Waits => Move(s, i, Asleep(kind))
  }

  function Tried(s: State, i: nat, rc: bool): State
    requires At(s, i)
  {
    var (thread, ok) := NativeJoin(s.thread, rc);
    Move(s, i, AfterNative(ok)).(thread := thread, reaped := s.reaped + B(s.thread.Live? && ok))
  }

  function Concluded(s: State, i: nat): State
    requires At(s, i) && s.joiners[i].AfterNative?
  {
    var ok := s.joiners[i].ok;
    var (phase, r) := Settle(s.phase, ok);
    var t := Return(s, i, r).(phase := phase, thread := if ok then Absent else s.thread);
    t.(joiners := WakeAll(t.joiners))
  }

  function Next(s: State, a: Action): State
    requires Enabled(s, a)
  {
    match a
    case Call(i, kind, refusal) =>
      if refusal.Some? then Return(s, i, Err(refusal.value)) else Move(s, i, Looking(kind, false))
    case Examine(i) => Examined(s, i)
    case WakeSpuriously(i) => Move(s, i, Looking(s.joiners[i].kind, true))
    case Abandon(i, error) => Return(s, i, Err(error))
    case Native(i, rc) => Tried(s, i, rc)
    case Conclude(i) => Concluded(s, i)
    case Publish(code) => s.(phase := Finished(code), task := Published, code := code)
    case Broadcast => s.(task := Exited, joiners := WakeAll(s.joiners))
  }

  predicate Init(s: State) {
    && s.phase.Running? && s.thread.Live? && s.task.Executing? && s.reaped == 0 && s.replies == []
    && forall i :: 0 <= i < |s.joiners| ==> s.joiners[i].Idle?
  }

  predicate Run(states: seq<State>, actions: seq<Action>) {
    && |states| == |actions| + 1
    && Init(states[0])
    && forall i :: 0 <= i < |actions| ==>
      Enabled(states[i], actions[i]) && states[i + 1] == Next(states[i], actions[i])
  }

  // ---------------------------------------------------------------------------
  // The invariant
  // ---------------------------------------------------------------------------

  function Natives(): Pc -> bool { (p: Pc) => p.InNative? || p.AfterNative? }
  function Successes(): Pc -> bool { (p: Pc) => p == AfterNative(true) }
  function Failures(): Pc -> bool { (p: Pc) => p == AfterNative(false) }

  predicate Phases(s: State) {
    && (s.task.Executing? <==> s.phase.Running?)
    && (s.phase.Joined? <==> s.thread.Absent?)
    && (!s.thread.Live? ==> s.task.Exited?)
    && s.reaped == B(!s.thread.Live?)
    && (!s.phase.Running? ==> s.phase.code == s.code)
  }

  predicate Owners(s: State) {
    && Count(s.joiners, Natives()) == B(s.phase.Joining?)
    && Count(s.joiners, Successes()) == B(s.thread.Spent?)
  }

  predicate Sleepers(s: State) {
    forall i :: 0 <= i < |s.joiners| && s.joiners[i].Asleep? ==> !s.task.Exited? || s.phase.Joining?
  }

  predicate Codes(s: State) {
    forall i :: 0 <= i < |s.replies| && s.replies[i].Ok? ==>
      !s.task.Executing? && s.replies[i].value == s.code
  }

  predicate Inv(s: State) { Phases(s) && Owners(s) && Sleepers(s) && Codes(s) }

  lemma {:induction false} WakeAllCounts(js: seq<Pc>, f: Pc -> bool)
    requires forall p: Pc :: p.Asleep? || p.Looking? ==> !f(p)
    ensures Count(WakeAll(js), f) == Count(js, f)
  {
    if js != [] {
      var n := |js| - 1;
      WakeAllCounts(js[..n], f);
      assert WakeAll(js)[..n] == WakeAll(js[..n]);
    }
  }

  lemma Recount(js: seq<Pc>, i: nat, p: Pc)
    requires i < |js|
    ensures Count(js[i := p], Natives()) == Count(js, Natives()) - B(Natives()(js[i])) + B(Natives()(p))
    ensures Count(js[i := p], Successes()) == Count(js, Successes()) - B(Successes()(js[i])) + B(Successes()(p))
    ensures B(Natives()(js[i])) <= Count(js, Natives()) && B(Successes()(js[i])) <= Count(js, Successes())
  {
    CountUpdate(js, i, p, Natives());
    CountUpdate(js, i, p, Successes());
  }

  lemma Rewake(js: seq<Pc>)
    ensures Count(WakeAll(js), Natives()) == Count(js, Natives())
    ensures Count(WakeAll(js), Successes()) == Count(js, Successes())
  {
    WakeAllCounts(js, Natives());
    WakeAllCounts(js, Successes());
  }

  /** A success is one of the natives. */
  lemma SuccessIsNative(js: seq<Pc>, i: nat)
    requires i < |js|
    ensures Count(js, Successes()) + B(js[i].InNative? || js[i] == AfterNative(false)) <= Count(js, Natives())
  {
    CountWithin(js, i, Successes(), Natives());
  }

  lemma MoveInv(s: State, i: nat, p: Pc)
    requires Inv(s) && At(s, i) && !Natives()(s.joiners[i]) && (p.Idle? || p.Looking?)
    ensures Inv(Move(s, i, p))
  {
    Recount(s.joiners, i, p);
  }

  lemma RefuseInv(s: State, i: nat, error: Error)
    requires Inv(s) && At(s, i) && !Natives()(s.joiners[i])
    ensures Inv(Return(s, i, Err(error)))
  {
    MoveInv(s, i, Idle);
  }

  lemma TaskInv(s: State, a: Action)
    requires Inv(s) && Enabled(s, a) && (a.Publish? || a.Broadcast?)
    ensures Inv(Next(s, a))
  {
    Rewake(s.joiners);
  }

  lemma ExamineInv(s: State, i: nat)
    requires Inv(s) && At(s, i) && s.joiners[i].Looking?
    ensures Inv(Examined(s, i))
  {
    Recount(s.joiners, i, Examined(s, i).joiners[i]);
  }

  lemma NativeInv(s: State, i: nat, rc: bool)
    requires Inv(s) && Enabled(s, Native(i, rc))
    ensures Inv(Tried(s, i, rc))
  {
    Recount(s.joiners, i, Tried(s, i, rc).joiners[i]);
    SuccessIsNative(s.joiners, i);
  }

  lemma ConcludeInv(s: State, i: nat)
    requires Inv(s) && At(s, i) && s.joiners[i].AfterNative?
    ensures Inv(Concluded(s, i))
  {
    Recount(s.joiners, i, Idle);
    SuccessIsNative(s.joiners, i);
    Rewake(s.joiners[i := Idle]);
  }

  /** Every step of every joiner and of the task keeps the invariant. */
  lemma StepInv(s: State, a: Action)
    requires Inv(s) && Enabled(s, a)
    ensures Inv(Next(s, a))
  {
    match a {
      case Call(i, kind, refusal) =>
        if refusal.Some? { RefuseInv(s, i, refusal.value); } else { MoveInv(s, i, Looking(kind, false)); }
      case Examine(i) => ExamineInv(s, i);
      case WakeSpuriously(i) => MoveInv(s, i, Looking(s.joiners[i].kind, true));
      case Abandon(i, error) => RefuseInv(s, i, error);
      case Native(i, rc) => NativeInv(s, i, rc);
      case Conclude(i) => ConcludeInv(s, i);
      case Publish(_) => TaskInv(s, a);
      case Broadcast => TaskInv(s, a);
    }
  }

  lemma {:induction false} RunInv(states: seq<State>, actions: seq<Action>, i: nat)
    requires Run(states, actions) && i < |states|
    ensures Inv(states[i])
  {
    if i == 0 {
      CountBound(states[0].joiners, Natives());
      CountBound(states[0].joiners, Successes());
    } else {
      RunInv(states, actions, i - 1);
      StepInv(states[i - 1], actions[i - 1]);
    }
  }

  // ---------------------------------------------------------------------------
  // What joiners may rely on
  // ---------------------------------------------------------------------------

  /** At most one joiner is past the claim and before its conclusion, so the stored thread has one user
      although it is used outside the mutex. */
  lemma NativeJoinIsExclusive(states: seq<State>, actions: seq<Action>, n: nat, i: nat, j: nat)
    requires Run(states, actions) && n < |states|
    requires i < |states[n].joiners| && j < |states[n].joiners|
    requires Natives()(states[n].joiners[i]) && Natives()(states[n].joiners[j])
    ensures i == j
  {
    RunInv(states, actions, n);
    CountUnique(states[n].joiners, i, j, Natives());
  }

  /** The native join succeeds at most once, and is only ever called on a thread not yet joined: its arms
      for a joined and for a removed thread are dead. */
  lemma NativeJoinHappensOnce(states: seq<State>, actions: seq<Action>, n: nat, i: nat)
    requires Run(states, actions) && n < |states|
    ensures states[n].reaped <= 1 && (states[n].phase.Joined? ==> states[n].reaped == 1)
    ensures i < |states[n].joiners| && states[n].joiners[i].InNative? ==>
              states[n].thread.Live? && states[n].reaped == 0
  {
    RunInv(states, actions, n);
    if i < |states[n].joiners| && states[n].joiners[i].InNative? {
      SuccessIsNative(states[n].joiners, i);
      CountBound(states[n].joiners, Natives());
      CountAtLeast(states[n].joiners, i, Natives());
    }
  }

  /** All successful joins, polls included, report the code that the task published, at whatever points of
      a run they return. */
  lemma ExitCodesAgree(states: seq<State>, actions: seq<Action>, n: nat, a: nat, b: nat)
    requires Run(states, actions) && n < |states|
    requires a < |states[n].replies| && b < |states[n].replies|
    requires states[n].replies[a].Ok? && states[n].replies[b].Ok?
    ensures states[n].replies[a] == states[n].replies[b] == Ok(states[n].code)
    ensures !states[n].phase.Running? && states[n].phase.code == states[n].code
  {
    RunInv(states, actions, n);
  }

  /** No lost wakeup: a joiner sleeps unsignalled only while the task runs, its broadcast is still to come, or
      some joiner is in the native join and will broadcast. */
  lemma NoJoinerIsForgotten(states: seq<State>, actions: seq<Action>, n: nat, i: nat)
    returns (owner: nat)
    requires Run(states, actions) && n < |states|
    requires i < |states[n].joiners| && states[n].joiners[i].Asleep?
    ensures var s := states[n];
            s.task.Executing? || s.task.Published? || (owner < |s.joiners| && Natives()(s.joiners[owner]))
  {
    RunInv(states, actions, n);
    owner := 0;
    if states[n].task.Exited? { owner := CountWitness(states[n].joiners, Natives()); }
  }

  /** What a returning or waiting joiner gets: a poll answers the published code once the task has finished, and else
      a timeout; a blocking look returns exactly when the task was joined, with that code, claims the native join
      exactly when the task has finished unjoined, and else sleeps. */
  lemma LooksAreAnswered(states: seq<State>, actions: seq<Action>, n: nat)
    requires Run(states, actions) && n < |actions| && actions[n].Examine?
    ensures var i, s, s' := actions[n].i, states[n], states[n + 1];
            var kind, pc' := s.joiners[i].kind, s'.joiners[i];
            if kind.NoWait? then
              && pc'.Idle? && s'.phase == s.phase
              && s'.replies == s.replies + [if s.phase.Finished? || s.phase.Joined? then Ok(s.code) else Err(Timeout)]
            else if s.phase.Joined? then pc'.Idle? && s'.replies == s.replies + [Ok(s.code)] && s'.phase == s.phase
            else
              && s'.replies == s.replies
              && if s.phase.Finished? then pc'.InNative? && s'.phase == Joining(s.code)
                 else pc' == Asleep(kind) && s'.phase == s.phase
  {
    RunInv(states, actions, n);
  }

  /** After the native join: success answers the published code, leaves the task joined and the thread removed; failure
      answers an error and hands the task back; both wake every sleeper. */
  lemma NativeJoinsAreAnswered(states: seq<State>, actions: seq<Action>, n: nat)
    requires Run(states, actions) && n < |actions| && actions[n].Conclude?
    ensures var i, s, s' := actions[n].i, states[n], states[n + 1];
            && s'.joiners[i].Idle? && (forall j :: 0 <= j < |s'.joiners| ==> !s'.joiners[j].Asleep?)
            && |s'.replies| == |s.replies| + 1 && s.replies <= s'.replies
            && if s.joiners[i].ok
               then s'.replies[|s.replies|] == Ok(s.code) && s'.phase == Joined(s.code) && s'.thread.Absent?
               else s'.replies[|s.replies|].Err? && s'.phase == Finished(s.code) && s'.thread == s.thread
  {
    RunInv(states, actions, n);
    Recount(states[n].joiners, actions[n].i, Idle);
  }

  /** What the other steps do: a call looks unless refused, a native join reports what `pthread_join` answered, a
      sleeper wakes or gives up with its error, and the task publishes its code and then wakes everybody. */
  lemma StepsTakeEffect(states: seq<State>, actions: seq<Action>, n: nat)
    requires Run(states, actions) && n < |actions|
    ensures var a, s, s' := actions[n], states[n], states[n + 1];
            && (a.Call? ==>
                  if a.refusal.Some? then s'.joiners[a.i].Idle? && s'.replies == s.replies + [Err(a.refusal.value)]
                  else s'.joiners[a.i] == Looking(a.kind, false) && s'.replies == s.replies)
            && (a.WakeSpuriously? ==> s'.joiners[a.i] == Looking(s.joiners[a.i].kind, true))
            && (a.Abandon? ==> s'.joiners[a.i].Idle? && s'.replies == s.replies + [Err(a.error)])
            && (a.Native? ==> s'.joiners[a.i] == AfterNative(a.rc) && s'.reaped == s.reaped + B(a.rc))
            && (a.Publish? ==> s'.phase == Finished(a.code) && s'.code == a.code && s'.task.Published?)
            && (a.Broadcast? ==> s'.task.Exited? && forall j :: 0 <= j < |s'.joiners| ==> !s'.joiners[j].Asleep?)
  {
    RunInv(states, actions, n);
    if actions[n].Native? { NativeJoinHappensOnce(states, actions, n, actions[n].i); }
  }

  // ---------------------------------------------------------------------------
  // Every joiner returns
  // ---------------------------------------------------------------------------

  /** Steps that neither start a join nor fail one. */
  predicate Regular(a: Action) { a.Examine? || a.Conclude? || (a.Native? && a.rc) }

  function Weight(joined: bool): Pc -> nat {
    (p: Pc) =>
      match p
      case Idle => 0
      case Looking(_, _) => if joined then 1 else 3
      case Asleep(_) => 2
      case InNative => 2
      case AfterNative(_) => 1
  }

  /** The steps that the joiners still have ahead; a native join that has already failed costs a round. */
  function Ahead(s: State): nat {
    Sum(s.joiners, Weight(s.phase.Joined?)) + if Count(s.joiners, Failures()) > 0 then |s.joiners| + 1 else 0
  }

  lemma {:induction false} WakingCosts(js: seq<Pc>, joined: bool)
    ensures Sum(WakeAll(js), Weight(joined)) <= Sum(js, Weight(false)) + if joined then 0 else |js|
  {
    if js != [] {
      var n := |js| - 1;
      WakingCosts(js[..n], joined);
      assert WakeAll(js)[..n] == WakeAll(js[..n]);
    }
  }

  /** Once the task has exited, every regular step brings the joiners closer to their return. */
  lemma RegularStepDescends(s: State, a: Action)
    requires Inv(s) && s.task.Exited? && Enabled(s, a) && Regular(a)
    ensures Ahead(Next(s, a)) < Ahead(s) && Next(s, a).task.Exited?
  {
    var s' := Next(s, a);
    var i, js := a.i, s.joiners;
    if a.Conclude? {
      ConcludeDescends(s, i);
    } else {
      SumUpdate(js, i, s'.joiners[i], Weight(s.phase.Joined?));
      CountUpdate(js, i, s'.joiners[i], Failures());
      Recount(js, i, s'.joiners[i]);
      if a.Native? {
        SuccessIsNative(js, i);
        CountBound(js, Natives());
      }
    }
  }

  /** The table after a conclusion: the joiner has returned and the sleepers are awake. */
  lemma ConcludeCosts(js: seq<Pc>, i: nat)
    requires i < |js| && js[i].AfterNative? && Count(js, Natives()) == 1
    ensures var woken := WakeAll(js[i := Idle]);
            && Count(woken, Failures()) == 0 && |woken| == |js|
            && Sum(woken, Weight(js[i].ok)) + 1 <= Sum(js, Weight(false)) + if js[i].ok then 0 else |js|
    ensures js[i] == AfterNative(false) ==> Count(js, Failures()) > 0
  {
    var idle := js[i := Idle];
    CountUpdate(js, i, Idle, Natives());
    CountUpdate(js, i, Idle, Failures());
    SumUpdate(js, i, Idle, Weight(false));
    WakeAllCounts(idle, Failures());
    WakingCosts(idle, js[i].ok);
    FailureIsNative(idle, i);
  }

  lemma ConcludedIs(s: State, i: nat)
    requires At(s, i) && s.joiners[i].AfterNative?
    ensures Concluded(s, i).joiners == WakeAll(s.joiners[i := Idle])
    ensures Concluded(s, i).phase.Joined? == s.joiners[i].ok
  {
  }

  lemma ConcludeDescends(s: State, i: nat)
    requires Owners(s) && At(s, i) && s.joiners[i].AfterNative?
    ensures Ahead(Concluded(s, i)) < Ahead(s)
  {
    CountAtLeast(s.joiners, i, Natives());
    ConcludeCosts(s.joiners, i);
    ConcludedIs(s, i);
  }

  lemma FailureIsNative(js: seq<Pc>, i: nat)
    requires i < |js|
    ensures Count(js, Failures()) + B(js[i] == AfterNative(true)) <= Count(js, Natives())
  {
    CountWithin(js, i, Failures(), Natives());
  }

  /** Once the task has exited and native joins succeed, a joiner that has not returned can always take a
      regular step ... */
  lemma JoinersCanProgress(states: seq<State>, actions: seq<Action>, n: nat, i: nat) returns (a: Action)
    requires Run(states, actions) && n < |states| && states[n].task.Exited?
    requires i < |states[n].joiners| && !states[n].joiners[i].Idle?
    ensures Regular(a) && Enabled(states[n], a)
  {
    RunInv(states, actions, n);
    var s := states[n];
    var j := i;
    if s.joiners[i].Asleep? { j := CountWitness(s.joiners, Natives()); }
    match s.joiners[j] {
      case Looking(_, _) => a := Examine(j);
      case InNative => a := Native(j, true);
      case AfterNative(_) => a := Conclude(j);
    }
  }

  /** ... and only boundedly many regular steps fit in a row: all joiners return, none waits forever. */
  lemma {:induction false} JoinersFinish(states: seq<State>, actions: seq<Action>, first: nat, last: nat)
    requires Run(states, actions) && first <= last < |states| && states[first].task.Exited?
    requires forall n :: first <= n < last ==> Regular(actions[n])
    ensures last - first + Ahead(states[last]) <= Ahead(states[first]) <= 4 * |states[first].joiners| + 1
    decreases last - first
  {
    SumBound(states[first].joiners, Weight(states[first].phase.Joined?));
    if first < last {
      RunInv(states, actions, first);
      RegularStepDescends(states[first], actions[first]);
      JoinersFinish(states, actions, first + 1, last);
    }
  }
}
