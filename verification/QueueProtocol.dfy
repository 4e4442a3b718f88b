/**
 The FreeRTOS blocking queue as a transition system over any number of tasks.

 One native mutex protects the buffer, the waiter counts and the wake credits;
 two counting semaphores carry wake tokens.  A task registers under the mutex,
 blocks on a semaphore without it, and reconciles under the mutex again.  Each
 critical section is one step, because it touches a semaphore at most once; the
 broadcast of `close` posts many tokens, so every one of its posts is a step of
 its own, taken while the closer holds the mutex.
 */
module QueueProtocol {
  import opened Errors
  import opened Counting

  type Message = seq<bv8>

  datatype Dir = Sending | Receiving

  /** The four kinds of `WaitBudget`; only a finite one can time out. */
  datatype Budget = NoWait | Zero | Finite | Forever

  datatype Request = Send(msg: Message) | Recv

  function DirOf(r: Request): Dir { if r.Send? then Sending else Receiving }

  datatype Reply = Done | Got(msg: Message) | Failed(error: Error)

  /** One direction: registered waiters, unconfirmed credits, semaphore tokens. */
  datatype Channel = Channel(waiters: nat, credits: nat, tokens: nat)

  datatype Queue = Queue(
    buf: seq<Message>, capacity: nat, closed: bool, wakeMax: nat,
    senders: Channel, receivers: Channel)
  {
    function Chan(d: Dir): Channel { if d.Sending? then senders else receivers }

    function With(d: Dir, c: Channel): Queue {
      if d.Sending? then this.(senders := c) else this.(receivers := c)
    }
  }

  // ---------------------------------------------------------------------------
  // Critical sections
  // ---------------------------------------------------------------------------

  /** How a pass through the head of the `send` or `recv` loop ends. */
  datatype Outcome = Panics | Returns(q: Queue, reply: Reply) | Registers(q: Queue)

  /** How the reconciliation after a wait ends. */
  datatype Settled = SettlePanics | Rechecks(q: Queue) | GivesUp(q: Queue, reply: Reply)

  /** `signal_one_*`: post one token if some waiter has no credit yet; `None` is a panic. */
  function SignalOne(c: Channel, wakeMax: nat): Option<Channel> {
    if c.waiters <= c.credits then Some(c)
    else if c.tokens >= wakeMax || c.credits >= U32_MAX then None
    else Some(c.(tokens := c.tokens + 1, credits := c.credits + 1))
  }

  /** Register one more waiter; `None` is the overflow panic. */
  function Register(c: Channel): Option<Channel> {
    if c.waiters >= U32_MAX then None else Some(c.(waiters := c.waiters + 1))
  }

  /** What a full (or empty) queue means for each budget; `refusal` is a failed preflight. */
  function Wait(q: Queue, d: Dir, budget: Budget, refusal: Option<Error>): Outcome {
    match budget
    case NoWait => Returns(q, Failed(if d.Sending? then QueueFull else QueueEmpty))
    case Zero => Returns(q, Failed(Timeout))
    case _ =>
      if refusal.Some? then Returns(q, Failed(refusal.value))
      else match Register(q.Chan(d))
           case None => Panics
           case Some(c) => Registers(q.With(d, c))
  }

  function SendSection(q: Queue, msg: Message, budget: Budget, refusal: Option<Error>): Outcome {
    if q.closed then Returns(q, Failed(QueueClosed))
    else if |q.buf| < q.capacity then
      match SignalOne(q.receivers, q.wakeMax)
      case None => Panics
      case Some(c) => Returns(q.(buf := q.buf + [msg], receivers := c), Done)
    else Wait(q, Sending, budget, refusal)
  }

  function RecvSection(q: Queue, budget: Budget, refusal: Option<Error>): Outcome {
    if q.buf != [] then
      match SignalOne(q.senders, q.wakeMax)
      case None => Panics
      case Some(c) => Returns(q.(buf := q.buf[1..], senders := c), Got(q.buf[0]))
    else if q.closed then Returns(q, Failed(QueueClosed))
    else Wait(q, Receiving, budget, refusal)
  }

  /** Confirm a consumed token: one credit and one waiter less; `None` is a panic. */
  function Confirm(c: Channel): Option<Channel> {
    if c.credits == 0 || c.waiters == 0 then None
    else Some(c.(credits := c.credits - 1, waiters := c.waiters - 1))
  }

  function SettleTaken(q: Queue, d: Dir): Settled {
    match Confirm(q.Chan(d))
    case None => SettlePanics
    case Some(c) => Rechecks(q.With(d, c))
  }

  /** After a timeout: look once more for a token that raced in, else give up. */
  function SettleTimeout(q: Queue, d: Dir): Settled {
    var c := q.Chan(d);
    if c.tokens > 0 then SettleTaken(q.With(d, c.(tokens := c.tokens - 1)), d)
    else if c.waiters == 0 then SettlePanics
    else
      var q' := q.With(d, c.(waiters := c.waiters - 1));
      GivesUp(q', Failed(if q.closed && (d.Sending? || q.buf == []) then QueueClosed else Timeout))
  }

  // ---------------------------------------------------------------------------
  // Tasks and steps
  // ---------------------------------------------------------------------------

  datatype Pc =
    | Idle
    | Checking(req: Request, budget: Budget, woken: bool)
    | Blocked(req: Request, budget: Budget)
    | Took(req: Request, budget: Budget)
    | TimedOut(req: Request, budget: Budget)
    | Closing
    | Posting(dir: Dir, posted: nat, allOk: bool)
    | Returned(call: Option<Request>, reply: Reply)
    | Panicked
  {
    /** Registered in direction `d` and not yet unregistered. */
    predicate Waits(d: Dir) { (Blocked? || Took? || TimedOut?) && DirOf(req) == d }
    /** Consumed a token without having confirmed it. */
    predicate Holds(d: Dir) { Took? && DirOf(req) == d }
    /** Unregistered on a token and about to look at the queue again. */
    predicate Rechecking(d: Dir) { Checking? && woken && DirOf(req) == d }
  }

  /** The head of the `send`/`recv` loop: the queue and the task after the section. */
  function EnterSection(q: Queue, pc: Pc, refusal: Option<Error>): (Queue, Pc)
    requires pc.Checking?
  {
    var out := if pc.req.Send? then SendSection(q, pc.req.msg, pc.budget, refusal)
               else RecvSection(q, pc.budget, refusal);
    match out
    case Panics => (q, Panicked)
    case Registers(q') => (q', Blocked(pc.req, pc.budget))
    case Returns(q', reply) => (q', Returned(Some(pc.req), reply))
  }

  /** Reconciliation under the mutex after a wait. */
  function SettleSection(q: Queue, pc: Pc): (Queue, Pc)
    requires pc.Took? || pc.TimedOut?
  {
    var d := DirOf(pc.req);
    match (if pc.Took? then SettleTaken(q, d) else SettleTimeout(q, d))
    case SettlePanics => (q, Panicked)
    case Rechecks(q') => (q', Checking(pc.req, pc.budget, true))
    case GivesUp(q', reply) => (q', Returned(Some(pc.req), reply))
  }

  /** The semaphore take of a blocked task, outside the mutex. */
  function TakeSection(q: Queue, pc: Pc): (Queue, Pc)
    requires pc.Blocked? && q.Chan(DirOf(pc.req)).tokens > 0
  {
    var d := DirOf(pc.req);
    var c := q.Chan(d);
    (q.With(d, c.(tokens := c.tokens - 1)), Took(pc.req, pc.budget))
  }

  /** One iteration of `broadcast_wake`, or what follows the end of its loop. */
  function PostSection(q: Queue, pc: Pc): (Queue, Pc)
    requires pc.Posting?
  {
    var c := q.Chan(pc.dir);
    if c.waiters < c.credits then (q, Panicked)
    else if pc.posted < c.waiters - c.credits then
      if c.tokens < q.wakeMax
      then (q.With(pc.dir, c.(tokens := c.tokens + 1)), pc.(posted := pc.posted + 1))
      else (q, pc.(posted := pc.posted + 1, allOk := false))
    else
      (q.With(pc.dir, c.(credits := c.waiters)),
       if pc.dir.Sending? then Posting(Receiving, 0, pc.allOk)
       else if pc.allOk then Returned(None, Done) else Panicked)
  }

  /** The whole system.  `sent` and `received` record the buffer operations in commit order. */
  datatype State = State(
    q: Queue, holder: Option<nat>, pcs: seq<Pc>,
    sent: seq<Message>, received: seq<Message>)

  datatype Action =
    | Call(t: nat, req: Request, budget: Budget)
    | CallClose(t: nat)
    | Enter(t: nat, refusal: Option<Error>)
    | Take(t: nat)
    | Expire(t: nat)
    | Settle(t: nat)
    | Post(t: nat)

  /** Task `t` leaves the queue and its own program counter as `step` says. */
  function Moved(s: State, t: nat, step: (Queue, Pc)): State
    requires t < |s.pcs|
  {
    s.(q := step.0, pcs := s.pcs[t := step.1])
  }

  /** The section, and the record of the message it moved. */
  function EnterStep(s: State, t: nat, pc: Pc, refusal: Option<Error>): State
    requires pc.Checking? && t < |s.pcs|
  {
    var step := EnterSection(s.q, pc, refusal);
    var s' := Moved(s, t, step);
    if step.1.Returned? && step.1.reply.Done? && pc.req.Send? then s'.(sent := s.sent + [pc.req.msg])
    else if step.1.Returned? && step.1.reply.Got? then s'.(received := s.received + [step.1.reply.msg])
    else s'
  }

  /** `close`: mark the buffer closed and start the broadcast, or return if already closed. */
  function CloseStep(s: State, t: nat): State
    requires t < |s.pcs|
  {
    if s.q.closed then Moved(s, t, (s.q, Returned(None, Done)))
    else Moved(s, t, (s.q.(closed := true), Posting(Sending, 0, true))).(holder := Some(t))
  }

  /** The mutex is released when the second broadcast is over. */
  function PostStep(s: State, t: nat, pc: Pc): State
    requires pc.Posting? && t < |s.pcs|
  {
    var step := PostSection(s.q, pc);
    if step.1.Returned? then Moved(s, t, step).(holder := None) else Moved(s, t, step)
  }

  predicate Resting(pc: Pc) { pc.Idle? || pc.Returned? }

  /** The guard of each action.  Only `Take` and `Expire` may run while the mutex is held. */
  predicate Enabled(s: State, a: Action) {
    && a.t < |s.pcs|
    && var pc := s.pcs[a.t];
    match a
    case Call(_, _, _) => Resting(pc)
    case CallClose(_) => Resting(pc)
    case Enter(_, _) => (pc.Checking? || pc.Closing?) && s.holder.None?
    case Take(_) => pc.Blocked? && s.q.Chan(DirOf(pc.req)).tokens > 0
    case Expire(_) => pc.Blocked? && pc.budget.Finite?
    case Settle(_) => (pc.Took? || pc.TimedOut?) && s.holder.None?
    case Post(_) => pc.Posting? && s.holder == Some(a.t)
  }

  function Next(s: State, a: Action): State
    requires Enabled(s, a)
  {
    var pc := s.pcs[a.t];
    match a
    case Call(t, req, budget) => Moved(s, t, (s.q, Checking(req, budget, false)))
    case CallClose(t) => Moved(s, t, (s.q, Closing))
    case Enter(t, refusal) => if pc.Closing? then CloseStep(s, t) else EnterStep(s, t, pc, refusal)
    case Take(t) => Moved(s, t, TakeSection(s.q, pc))
    case Expire(t) => Moved(s, t, (s.q, TimedOut(pc.req, pc.budget)))
    case Settle(t) => Moved(s, t, SettleSection(s.q, pc))
    case Post(t) => PostStep(s, t, pc)
  }

  predicate Init(s: State) {
    && s.q.buf == [] && s.q.capacity > 0 && !s.q.closed
    && s.q.senders == s.q.receivers == Channel(0, 0, 0)
    && |s.pcs| <= s.q.wakeMax <= U32_MAX
    && s.holder.None? && s.sent == s.received == []
    && forall t :: 0 <= t < |s.pcs| ==> s.pcs[t].Idle?
  }

  /** A finite run from an initial state. */
  predicate Run(states: seq<State>, actions: seq<Action>) {
    && |states| == |actions| + 1
    && Init(states[0])
    && forall i :: 0 <= i < |actions| ==>
      Enabled(states[i], actions[i]) && states[i + 1] == Next(states[i], actions[i])
  }

  // ---------------------------------------------------------------------------
  // Counting tasks by program counter
  // ---------------------------------------------------------------------------

  function Waits(d: Dir): Pc -> bool { (pc: Pc) => pc.Waits(d) }
  function Holds(d: Dir): Pc -> bool { (pc: Pc) => pc.Holds(d) }
  function Rechecking(d: Dir): Pc -> bool { (pc: Pc) => pc.Rechecking(d) }

  /** How many tasks wait, hold an unconfirmed token, and are about to re-check. */
  datatype Tally = Tally(waiting: int, holding: int, retrying: int)

  function TallyOf(pcs: seq<Pc>, d: Dir): Tally {
    Tally(Count(pcs, Waits(d)), Count(pcs, Holds(d)), Count(pcs, Rechecking(d)))
  }

  function Shift(n: Tally, before: Pc, after: Pc, d: Dir): Tally {
    Tally(n.waiting - B(before.Waits(d)) + B(after.Waits(d)),
          n.holding - B(before.Holds(d)) + B(after.Holds(d)),
          n.retrying - B(before.Rechecking(d)) + B(after.Rechecking(d)))
  }

  /** `n` can be the tally of at most `limit` tasks, one of which is at `pc`. */
  predicate Fits(n: Tally, pc: Pc, d: Dir, limit: nat) {
    && 0 <= n.holding <= n.waiting <= limit && 0 <= n.retrying
    && (if pc.Waits(d) then n.waiting > 0 else n.waiting < limit)
    && (if pc.Holds(d) then n.holding > 0 else pc.Waits(d) ==> n.holding < n.waiting)
    && (pc.Rechecking(d) ==> n.retrying > 0)
  }

  /** Moving one task shifts each count by exactly what that task contributes. */
  lemma Recount(pcs: seq<Pc>, t: nat, pc: Pc, d: Dir)
    requires t < |pcs|
    ensures TallyOf(pcs[t := pc], d) == Shift(TallyOf(pcs, d), pcs[t], pc, d)
    ensures Fits(TallyOf(pcs, d), pcs[t], d, |pcs|)
  {
    CountUpdate(pcs, t, pc, Waits(d));
    CountUpdate(pcs, t, pc, Holds(d));
    CountUpdate(pcs, t, pc, Rechecking(d));
    CountWithin(pcs, t, Holds(d), Waits(d));
  }

  // ---------------------------------------------------------------------------
  // The invariant of one direction
  // ---------------------------------------------------------------------------

  /** Credits are exactly the tokens in the semaphore and those taken but unconfirmed.
      `posted` counts tokens of a running broadcast, whose credits are written at its end. */
  predicate Conserved(c: Channel, n: Tally, posted: nat) {
    && c.waiters == n.waiting
    && c.credits + posted == c.tokens + n.holding
    && c.credits + posted <= c.waiters
  }

  /** Messages to receive, or slots to fill. */
  function Supply(q: Queue, d: Dir): int {
    if d.Receiving? then |q.buf| else q.capacity - |q.buf|
  }

  /** While a waiter has no credit, all supply is claimed by credits and re-checking tasks. */
  predicate NoneStranded(q: Queue, d: Dir, n: Tally) {
    q.Chan(d).waiters > q.Chan(d).credits && (d.Receiving? || !q.closed) ==>
      Supply(q, d) <= q.Chan(d).credits + n.retrying
  }

  predicate Level(q: Queue, d: Dir, n: Tally, posted: nat, committed: bool) {
    && Conserved(q.Chan(d), n, posted)
    && NoneStranded(q, d, n)
    && (committed ==> q.Chan(d).credits == q.Chan(d).waiters)
  }

  predicate Sized(q: Queue) { |q.buf| <= q.capacity && q.capacity > 0 && q.wakeMax <= U32_MAX }

  /** A wake token is only posted for a waiter that has none, so the semaphore has room. */
  lemma SignalFits(c: Channel, n: Tally, wakeMax: nat)
    requires Conserved(c, n, 0) && 0 <= n.holding && n.waiting <= wakeMax <= U32_MAX
    ensures SignalOne(c, wakeMax).Some?
  {
  }

  lemma SendLevel(q: Queue, pc: Pc, refusal: Option<Error>, d: Dir, n: Tally)
    requires pc.Checking? && pc.req.Send? && Sized(q)
    requires Level(q, d, n, 0, q.closed) && Fits(n, pc, d, q.wakeMax)
    requires SignalOne(q.receivers, q.wakeMax).Some?
    ensures var (q', pc') := EnterSection(q, pc, refusal);
            Level(q', d, Shift(n, pc, pc', d), 0, q'.closed) && Sized(q')
  {
  }

  lemma RecvLevel(q: Queue, pc: Pc, refusal: Option<Error>, d: Dir, n: Tally)
    requires pc.Checking? && pc.req.Recv? && Sized(q)
    requires Level(q, d, n, 0, q.closed) && Fits(n, pc, d, q.wakeMax)
    requires SignalOne(q.senders, q.wakeMax).Some?
    ensures var (q', pc') := EnterSection(q, pc, refusal);
            Level(q', d, Shift(n, pc, pc', d), 0, q'.closed) && Sized(q')
  {
  }

  lemma TakenLevel(q: Queue, pc: Pc, d: Dir, n: Tally)
    requires pc.Took? && Sized(q)
    requires Level(q, d, n, 0, q.closed) && Fits(n, pc, d, q.wakeMax)
    ensures var (q', pc') := SettleSection(q, pc);
            Level(q', d, Shift(n, pc, pc', d), 0, q'.closed) && (pc.Waits(d) ==> pc'.Checking?)
  {
  }

  lemma TimeoutLevel(q: Queue, pc: Pc, d: Dir, n: Tally)
    requires pc.TimedOut? && Sized(q)
    requires Level(q, d, n, 0, q.closed) && Fits(n, pc, d, q.wakeMax)
    ensures var (q', pc') := SettleSection(q, pc);
            Level(q', d, Shift(n, pc, pc', d), 0, q'.closed) && (pc.Waits(d) ==> !pc'.Panicked?)
  {
  }

  /** Takes and expiries run with or without a broadcast in progress. */
  lemma TakeLevel(q: Queue, pc: Pc, d: Dir, n: Tally, posted: nat, committed: bool)
    requires pc.Blocked? && q.Chan(DirOf(pc.req)).tokens > 0
    requires Level(q, d, n, posted, committed)
    ensures var (q', pc') := TakeSection(q, pc);
            Level(q', d, Shift(n, pc, pc', d), posted, committed)
  {
  }

  function PostedBy(pc: Pc, d: Dir): nat { if pc.Posting? && pc.dir == d then pc.posted else 0 }

  lemma PostLevel(q: Queue, pc: Pc, d: Dir, n: Tally)
    requires pc.Posting? && pc.allOk && q.closed && Sized(q)
    requires Level(q, d, n, PostedBy(pc, d), false) && Fits(n, pc, d, q.wakeMax)
    requires pc.dir.Receiving? ==> q.senders.credits == q.senders.waiters
    ensures var (q', pc') := PostSection(q, pc);
            && Level(q', d, n, PostedBy(pc', d), pc'.Returned?)
            && (d == pc.dir ==> !pc'.Panicked? && (pc'.Posting? ==> pc'.allOk))
            && (d == pc.dir && !pc'.Posting? ==> q'.Chan(d).credits == q'.Chan(d).waiters)
  {
  }

  // ---------------------------------------------------------------------------
  // The invariant of the whole system
  // ---------------------------------------------------------------------------

  function Posted(s: State, d: Dir): nat {
    if s.holder.Some? && s.holder.value < |s.pcs| then PostedBy(s.pcs[s.holder.value], d) else 0
  }

  /** The broadcast of `close` is over. */
  predicate CloseCommitted(s: State) { s.q.closed && s.holder.None? }

  predicate Balanced(s: State, d: Dir) {
    Level(s.q, d, TallyOf(s.pcs, d), Posted(s, d), CloseCommitted(s))
  }

  /** A broadcast is in progress exactly while its task holds the mutex. */
  predicate HolderPosts(s: State) {
    && (s.holder.Some? ==>
          && s.q.closed
          && s.holder.value < |s.pcs|
          && var pc := s.pcs[s.holder.value];
          && pc.Posting? && pc.allOk
          && (pc.dir.Receiving? ==> s.q.senders.credits == s.q.senders.waiters))
    && (forall t :: 0 <= t < |s.pcs| && s.pcs[t].Posting? ==> s.holder == Some(t))
  }

  predicate NoPanic(s: State) { forall t :: 0 <= t < |s.pcs| ==> !s.pcs[t].Panicked? }

  predicate Inv(s: State) {
    && Balanced(s, Sending) && Balanced(s, Receiving)
    && Sized(s.q) && |s.pcs| <= s.q.wakeMax
    && HolderPosts(s) && NoPanic(s)
    && s.sent == s.received + s.q.buf
  }

  lemma InitInv(s: State)
    requires Init(s)
    ensures Inv(s)
  {
    forall d: Dir
      ensures TallyOf(s.pcs, d).waiting == TallyOf(s.pcs, d).holding == 0
    {
      CountBound(s.pcs, Waits(d));
      CountBound(s.pcs, Holds(d));
    }
  }

  /** What a section moves: one message in at the tail, one out at the head, or nothing. */
  predicate Transfers(q: Queue, q': Queue, pc: Pc, pc': Pc) {
    && q'.closed == q.closed && q'.wakeMax == q.wakeMax && q'.capacity == q.capacity
    && !pc'.Panicked? && !pc'.Posting?
    && (if pc'.Returned? && pc'.reply.Done? then pc.Checking? && pc.req.Send? && q'.buf == q.buf + [pc.req.msg]
        else if pc'.Returned? && pc'.reply.Got? then q.buf == [pc'.reply.msg] + q'.buf
        else q'.buf == q.buf)
  }

  lemma EnterTransfers(q: Queue, pc: Pc, refusal: Option<Error>)
    requires pc.Checking? && Register(q.Chan(DirOf(pc.req))).Some?
    requires SignalOne(q.senders, q.wakeMax).Some? && SignalOne(q.receivers, q.wakeMax).Some?
    ensures var (q', pc') := EnterSection(q, pc, refusal); Transfers(q, q', pc, pc')
  {
  }

  lemma EnterLevel(q: Queue, pc: Pc, refusal: Option<Error>, d: Dir, n: Tally)
    requires pc.Checking? && Sized(q)
    requires Level(q, d, n, 0, q.closed) && Fits(n, pc, d, q.wakeMax)
    requires SignalOne(q.senders, q.wakeMax).Some? && SignalOne(q.receivers, q.wakeMax).Some?
    ensures var (q', pc') := EnterSection(q, pc, refusal);
            Level(q', d, Shift(n, pc, pc', d), 0, q'.closed) && Sized(q')
  {
    if pc.req.Send? { SendLevel(q, pc, refusal, d, n); } else { RecvLevel(q, pc, refusal, d, n); }
  }

  /** Without a broadcast in progress, a task's move is balanced if the section's numbers are. */
  lemma MoveBalanced(s: State, s': State, t: nat, pc': Pc, d: Dir)
    requires t < |s.pcs| && s'.pcs == s.pcs[t := pc'] && s'.holder.None?
    requires Level(s'.q, d, Shift(TallyOf(s.pcs, d), s.pcs[t], pc', d), 0, s'.q.closed)
    ensures Balanced(s', d)
  {
    Recount(s.pcs, t, pc', d);
  }

  lemma EnterBalanced(s: State, t: nat, refusal: Option<Error>, d: Dir)
    requires Inv(s) && Enabled(s, Enter(t, refusal)) && s.pcs[t].Checking?
    requires SignalOne(s.q.senders, s.q.wakeMax).Some? && SignalOne(s.q.receivers, s.q.wakeMax).Some?
    ensures var s' := Next(s, Enter(t, refusal)); Balanced(s', d) && Sized(s'.q)
  {
    var s', pc' := Next(s, Enter(t, refusal)), EnterSection(s.q, s.pcs[t], refusal).1;
    Recount(s.pcs, t, pc', d);
    EnterLevel(s.q, s.pcs[t], refusal, d, TallyOf(s.pcs, d));
    MoveBalanced(s, s', t, pc', d);
  }

  /** In a state that satisfies the invariant, neither signalling nor registering panics. */
  lemma NoSectionPanics(s: State, t: nat, d: Dir)
    requires Inv(s) && t < |s.pcs| && s.holder.None?
    ensures SignalOne(s.q.Chan(d), s.q.wakeMax).Some?
    ensures s.pcs[t].Checking? ==> Register(s.q.Chan(d)).Some?
  {
    Recount(s.pcs, t, Idle, d);
    SignalFits(s.q.Chan(d), TallyOf(s.pcs, d), s.q.wakeMax);
  }

  lemma EnterInv(s: State, t: nat, refusal: Option<Error>)
    requires Inv(s) && Enabled(s, Enter(t, refusal)) && s.pcs[t].Checking?
    ensures Inv(Next(s, Enter(t, refusal)))
  {
    var pc := s.pcs[t];
    NoSectionPanics(s, t, Sending);
    NoSectionPanics(s, t, Receiving);
    EnterBalanced(s, t, refusal, Sending);
    EnterBalanced(s, t, refusal, Receiving);
    EnterTransfers(s.q, pc, refusal);
    EnterHistory(s, t, refusal);
  }

  lemma EnterHistory(s: State, t: nat, refusal: Option<Error>)
    requires Enabled(s, Enter(t, refusal)) && s.pcs[t].Checking? && s.sent == s.received + s.q.buf
    requires var (q', pc') := EnterSection(s.q, s.pcs[t], refusal); Transfers(s.q, q', s.pcs[t], pc')
    ensures var s' := Next(s, Enter(t, refusal)); s'.sent == s'.received + s'.q.buf
  {
    var (q', pc') := EnterSection(s.q, s.pcs[t], refusal);
    if pc'.Returned? && pc'.reply.Got? {
      assert s.received + s.q.buf == (s.received + [pc'.reply.msg]) + q'.buf;
    }
  }

  lemma SettleBalanced(s: State, t: nat, d: Dir)
    requires Inv(s) && Enabled(s, Settle(t))
    ensures var s' := Next(s, Settle(t));
            Balanced(s', d) && (s.pcs[t].Waits(d) ==> !s'.pcs[t].Panicked?)
  {
    Recount(s.pcs, t, Next(s, Settle(t)).pcs[t], d);
    if s.pcs[t].Took? {
      TakenLevel(s.q, s.pcs[t], d, TallyOf(s.pcs, d));
    } else {
      TimeoutLevel(s.q, s.pcs[t], d, TallyOf(s.pcs, d));
    }
  }

  lemma SettleInv(s: State, t: nat)
    requires Inv(s) && Enabled(s, Settle(t))
    ensures Inv(Next(s, Settle(t)))
  {
    SettleBalanced(s, t, Sending);
    SettleBalanced(s, t, Receiving);
  }

  lemma PostBalanced(s: State, t: nat, d: Dir)
    requires Inv(s) && Enabled(s, Post(t))
    ensures var s' := Next(s, Post(t));
            && Balanced(s', d)
            && (d == s.pcs[t].dir ==> !s'.pcs[t].Panicked? && (s'.pcs[t].Posting? ==> s'.pcs[t].allOk))
  {
    Recount(s.pcs, t, Next(s, Post(t)).pcs[t], d);
    PostLevel(s.q, s.pcs[t], d, TallyOf(s.pcs, d));
  }

  lemma PostHolds(s: State, t: nat)
    requires HolderPosts(s) && NoPanic(s) && Enabled(s, Post(t))
    requires var pc' := PostSection(s.q, s.pcs[t]).1; !pc'.Panicked? && (pc'.Posting? ==> pc'.allOk)
    ensures HolderPosts(Next(s, Post(t))) && NoPanic(Next(s, Post(t)))
  {
  }

  lemma PostInv(s: State, t: nat)
    requires Inv(s) && Enabled(s, Post(t))
    ensures Inv(Next(s, Post(t)))
  {
    PostBalanced(s, t, Sending);
    PostBalanced(s, t, Receiving);
    PostHolds(s, t);
  }

  lemma TakeInv(s: State, t: nat)
    requires Inv(s) && Enabled(s, Take(t))
    ensures Inv(Next(s, Take(t)))
  {
    var pc, pc' := s.pcs[t], Next(s, Take(t)).pcs[t];
    Recount(s.pcs, t, pc', Sending);
    Recount(s.pcs, t, pc', Receiving);
    TakeLevel(s.q, pc, Sending, TallyOf(s.pcs, Sending), Posted(s, Sending), CloseCommitted(s));
    TakeLevel(s.q, pc, Receiving, TallyOf(s.pcs, Receiving), Posted(s, Receiving), CloseCommitted(s));
  }

  lemma CloseInv(s: State, t: nat, refusal: Option<Error>)
    requires Inv(s) && Enabled(s, Enter(t, refusal)) && s.pcs[t].Closing?
    ensures Inv(Next(s, Enter(t, refusal)))
  {
    var pc' := Next(s, Enter(t, refusal)).pcs[t];
    Recount(s.pcs, t, pc', Sending);
    Recount(s.pcs, t, pc', Receiving);
  }

  lemma QuietBalanced(s: State, a: Action, d: Dir)
    requires Inv(s) && Enabled(s, a) && (a.Call? || a.CallClose? || a.Expire?)
    ensures Balanced(Next(s, a), d)
  {
    Recount(s.pcs, a.t, Next(s, a).pcs[a.t], d);
  }

  lemma QuietInv(s: State, a: Action)
    requires Inv(s) && Enabled(s, a) && (a.Call? || a.CallClose? || a.Expire?)
    ensures Inv(Next(s, a))
  {
    QuietBalanced(s, a, Sending);
    QuietBalanced(s, a, Receiving);
  }

  /** Every step of every task keeps the invariant. */
  lemma StepInv(s: State, a: Action)
    requires Inv(s) && Enabled(s, a)
    ensures Inv(Next(s, a))
  {
    match a
    case Enter(t, refusal) =>
      if s.pcs[t].Checking? { EnterInv(s, t, refusal); } else { CloseInv(s, t, refusal); }
    case Settle(t) => SettleInv(s, t);
    case Post(t) => PostInv(s, t);
    case Take(t) => TakeInv(s, t);
    case _ => QuietInv(s, a);
  }

  // ---------------------------------------------------------------------------
  // Theorems over whole runs
  // ---------------------------------------------------------------------------

  lemma {:induction false} RunInv(states: seq<State>, actions: seq<Action>, i: nat)
    requires Run(states, actions) && i < |states|
    ensures Inv(states[i])
  {
    if i == 0 {
      InitInv(states[0]);
    } else {
      RunInv(states, actions, i - 1);
      StepInv(states[i - 1], actions[i - 1]);
    }
  }

  /** In every reachable state and direction: waiters are the registered tasks, every credit is a
      token still in the semaphore or one a task consumed but has not confirmed (tokens that a running
      broadcast has posted count as credits before they are booked), credits never exceed waiters, and
      no task has hit a panic. */
  lemma TokensAreConserved(states: seq<State>, actions: seq<Action>, i: nat, d: Dir)
    requires Run(states, actions) && i < |states|
    ensures var s := states[i]; var c := s.q.Chan(d);
            && c.waiters == Count(s.pcs, Waits(d))
            && c.credits + Posted(s, d) == c.tokens + Count(s.pcs, Holds(d))
            && (s.holder.None? ==> Posted(s, d) == 0)
            && c.credits + Posted(s, d) <= c.waiters && c.tokens <= c.waiters <= s.q.wakeMax
            && NoPanic(s)
  {
    RunInv(states, actions, i);
    if |states[i].pcs| > 0 { Recount(states[i].pcs, 0, Idle, d); }
  }

  /** Some task of direction `d` other than a sleeping one will look at the queue. */
  predicate Claimed(s: State, d: Dir) {
    Supply(s.q, d) <= s.q.Chan(d).tokens + Count(s.pcs, Holds(d)) + Count(s.pcs, Rechecking(d))
  }

  /** No lost wake-up: while a task is registered without a credit, every buffered message (or, before
      close, every free slot) is matched by a token, a consumed token or a re-checking task. */
  lemma NoStrandedWaiter(states: seq<State>, actions: seq<Action>, i: nat, d: Dir)
    requires Run(states, actions) && i < |states|
    requires var c := states[i].q.Chan(d); c.waiters > c.credits
    requires d.Receiving? || !states[i].q.closed
    ensures Supply(states[i].q, d) <= states[i].q.Chan(d).credits + Count(states[i].pcs, Rechecking(d))
    ensures Claimed(states[i], d)
  {
    RunInv(states, actions, i);
  }

  /** A blocked task whose request could be served, or whose queue is closed, is never left without a
      token while all its peers sleep too. */
  lemma BlockedCanProgress(states: seq<State>, actions: seq<Action>, i: nat, t: nat)
    requires Run(states, actions) && i < |states|
    requires t < |states[i].pcs| && states[i].pcs[t].Blocked? && states[i].holder.None?
    requires var s := states[i]; s.q.closed || Supply(s.q, DirOf(s.pcs[t].req)) > 0
    ensures var s := states[i]; var d := DirOf(s.pcs[t].req);
            || Enabled(s, Take(t))
            || (exists u :: 0 <= u < |s.pcs| && (s.pcs[u].Holds(d) || s.pcs[u].Rechecking(d)))
  {
    var s := states[i];
    var d := DirOf(s.pcs[t].req);
    RunInv(states, actions, i);
    Recount(s.pcs, t, Idle, d);
    if s.q.Chan(d).tokens == 0 {
      if Count(s.pcs, Holds(d)) > 0 {
        var u := CountWitness(s.pcs, Holds(d));
      } else {
        var u := CountWitness(s.pcs, Rechecking(d));
      }
    }
  }

  /** A task gives up with `Timeout` only while the queue is open, and only when everything it could
      have had is claimed by other tasks that are awake. */
  lemma TimeoutAbandonsNothing(states: seq<State>, actions: seq<Action>, i: nat)
    requires Run(states, actions) && i < |actions| && actions[i].Settle?
    requires var pc' := states[i + 1].pcs[actions[i].t]; pc'.Returned? && pc'.reply == Failed(Timeout)
    ensures var s := states[i]; var d := DirOf(s.pcs[actions[i].t].req);
            && !s.q.closed
            && s.q.Chan(d).tokens == 0
            && Supply(s.q, d) <= Count(s.pcs, Holds(d)) + Count(s.pcs, Rechecking(d))
  {
    var s, t := states[i], actions[i].t;
    RunInv(states, actions, i);
    Recount(s.pcs, t, Idle, DirOf(s.pcs[t].req));
  }

  /** The reply a call may get from a queue whose close has been committed. */
  predicate AfterClose(pc: Pc) {
    pc.Returned? ==>
      match pc.call
      case None => pc.reply.Done?
      case Some(Send(_)) => pc.reply == Failed(QueueClosed)
      case Some(Recv) => pc.reply.Got? || pc.reply == Failed(QueueClosed)
  }

  /** A committed close stays committed. */
  lemma {:induction false} CloseIsStable(states: seq<State>, actions: seq<Action>, i: nat, j: nat)
    requires Run(states, actions) && i <= j < |states| && CloseCommitted(states[i])
    ensures CloseCommitted(states[j])
  {
    if i < j {
      CloseIsStable(states, actions, i, j - 1);
      RunInv(states, actions, j - 1);
    }
  }

  /** Close is decisive: from its commit on, every registered waiter has a credit, a waiter whose wait
      timed out still finds a token, no task blocks any more, and every call that ends is answered
      `QueueClosed`, or with a buffered message if it is a receive. */
  lemma CloseIsDecisive(states: seq<State>, actions: seq<Action>, i: nat, j: nat)
    requires Run(states, actions) && i <= j < |actions| && CloseCommitted(states[i])
    ensures var s, s', t := states[j], states[j + 1], actions[j].t;
            && s.q.senders.credits == s.q.senders.waiters
            && s.q.receivers.credits == s.q.receivers.waiters
            && (s.pcs[t].TimedOut? ==> s.q.Chan(DirOf(s.pcs[t].req)).tokens > 0)
            && !s'.pcs[t].Blocked?
            && AfterClose(s'.pcs[t])
  {
    CloseIsStable(states, actions, i, j);
    RunInv(states, actions, j);
    var s, t := states[j], actions[j].t;
    if s.pcs[t].TimedOut? { Recount(s.pcs, t, Idle, DirOf(s.pcs[t].req)); }
    if actions[j].Enter? && s.pcs[t].Checking? {
      NoSectionPanics(s, t, Sending);
      NoSectionPanics(s, t, Receiving);
    }
  }

  /** From its commit on, close has left one token for each task that is blocked or whose wait timed out. */
  lemma ClosedTokensSuffice(states: seq<State>, actions: seq<Action>, i: nat, j: nat, t: nat)
    requires Run(states, actions) && i <= j < |states| && CloseCommitted(states[i]) && t < |states[j].pcs|
    ensures forall d :: states[j].q.Chan(d).tokens ==
                        Count(states[j].pcs, Waits(d)) - Count(states[j].pcs, Holds(d))
    ensures var s := states[j];
            s.pcs[t].Blocked? || s.pcs[t].TimedOut? ==> s.q.Chan(DirOf(s.pcs[t].req)).tokens > 0
  {
    CloseIsStable(states, actions, i, j);
    RunInv(states, actions, j);
    forall d
      ensures states[j].q.Chan(d).tokens == Count(states[j].pcs, Waits(d)) - Count(states[j].pcs, Holds(d))
      ensures Fits(TallyOf(states[j].pcs, d), states[j].pcs[t], d, |states[j].pcs|)
    {
      Recount(states[j].pcs, t, Idle, d);
    }
  }

  /** The steps a task still has ahead of it once the queue is closed. */
  function Weight(): Pc -> nat {
    (pc: Pc) =>
      if pc.Blocked? then 3 else if pc.Took? || pc.TimedOut? then 2
      else if pc.Checking? || pc.Closing? then 1 else 0
  }

  function Ahead(s: State): nat { Sum(s.pcs, Weight()) }

  predicate StartsCall(a: Action) { a.Call? || a.CallClose? }

  /** After a committed close every unfinished task can itself take a step ... */
  lemma ClosedTasksCanStep(states: seq<State>, actions: seq<Action>, i: nat, j: nat, t: nat) returns (a: Action)
    requires Run(states, actions) && i <= j < |states| && CloseCommitted(states[i])
    requires t < |states[j].pcs| && !Resting(states[j].pcs[t])
    ensures Enabled(states[j], a) && a.t == t && !StartsCall(a)
  {
    CloseIsStable(states, actions, i, j);
    RunInv(states, actions, j);
    ClosedTokensSuffice(states, actions, i, j, t);
    match states[j].pcs[t] {
      case Checking(_, _, _) => a := Enter(t, None);
      case Closing => a := Enter(t, None);
      case Blocked(_, _) => a := Take(t);
      case Took(_, _) => a := Settle(t);
      case TimedOut(_, _) => a := Settle(t);
    }
  }

  /** ... which brings it closer to its return ... */
  lemma ClosedStepDescends(states: seq<State>, actions: seq<Action>, i: nat, j: nat)
    requires Run(states, actions) && i <= j < |actions| && CloseCommitted(states[i]) && !StartsCall(actions[j])
    ensures Ahead(states[j + 1]) < Ahead(states[j])
  {
    var s, s', t := states[j], states[j + 1], actions[j].t;
    CloseIsStable(states, actions, i, j);
    CloseIsDecisive(states, actions, i, j);
    RunInv(states, actions, j);
    ClosedTaskAdvances(s, actions[j]);
    SumUpdate(s.pcs, t, s'.pcs[t], Weight());
  }

  lemma ClosedTaskAdvances(s: State, a: Action)
    requires Inv(s) && Enabled(s, a) && CloseCommitted(s) && !StartsCall(a)
    requires s.pcs[a.t].TimedOut? ==> s.q.Chan(DirOf(s.pcs[a.t].req)).tokens > 0
    requires !Next(s, a).pcs[a.t].Blocked?
    ensures Next(s, a).pcs == s.pcs[a.t := Next(s, a).pcs[a.t]]
    ensures Weight()(Next(s, a).pcs[a.t]) < Weight()(s.pcs[a.t])
  {
  }

  /** ... so without new calls, at most three steps per task remain until all of them have returned. */
  lemma {:induction false} ClosedTasksFinish(states: seq<State>, actions: seq<Action>, i: nat, first: nat, last: nat)
    requires Run(states, actions) && i <= first <= last < |states| && CloseCommitted(states[i])
    requires forall j :: first <= j < last ==> !StartsCall(actions[j])
    ensures last - first + Ahead(states[last]) <= Ahead(states[first]) <= 3 * |states[first].pcs|
    decreases last - first
  {
    SumBound(states[first].pcs, Weight());
    if first < last {
      ClosedStepDescends(states, actions, i, first);
      ClosedTasksFinish(states, actions, i, first + 1, last);
    }
  }

  /** The message accepted by this step: its task's `send` returned success. */
  function SentBy(a: Action, s': State): seq<Message>
    requires a.t < |s'.pcs|
  {
    var pc := s'.pcs[a.t];
    if a.Enter? && pc.Returned? && pc.call.Some? && pc.call.value.Send? && pc.reply.Done?
    then [pc.call.value.msg] else []
  }

  /** The message handed out by this step to its task's `recv`. */
  function ReceivedBy(a: Action, s': State): seq<Message>
    requires a.t < |s'.pcs|
  {
    var pc := s'.pcs[a.t];
    if a.Enter? && pc.Returned? && pc.reply.Got? then [pc.reply.msg] else []
  }

  /** The messages whose `send` returned success, in the order of the returns. */
  function SentIn(states: seq<State>, actions: seq<Action>): seq<Message>
    requires Run(states, actions)
  {
    var n := |actions|;
    if n == 0 then []
    else SentIn(states[..n], actions[..n - 1]) + SentBy(actions[n - 1], states[n])
  }

  /** The messages handed to `recv` calls, in the order of the returns. */
  function ReceivedIn(states: seq<State>, actions: seq<Action>): seq<Message>
    requires Run(states, actions)
  {
    var n := |actions|;
    if n == 0 then []
    else ReceivedIn(states[..n], actions[..n - 1]) + ReceivedBy(actions[n - 1], states[n])
  }

  lemma StepRecords(s: State, a: Action)
    requires Inv(s) && Enabled(s, a)
    ensures Next(s, a).sent == s.sent + SentBy(a, Next(s, a))
    ensures Next(s, a).received == s.received + ReceivedBy(a, Next(s, a))
  {
    if a.Enter? && s.pcs[a.t].Checking? {
      NoSectionPanics(s, a.t, Sending);
      NoSectionPanics(s, a.t, Receiving);
      EnterTransfers(s.q, s.pcs[a.t], a.refusal);
    }
  }

  lemma PrefixIsRun(states: seq<State>, actions: seq<Action>)
    requires Run(states, actions) && |actions| > 0
    ensures Run(states[..|actions|], actions[..|actions| - 1])
  {
  }

  lemma {:induction false} HistoryIsTrue(states: seq<State>, actions: seq<Action>)
    requires Run(states, actions)
    ensures SentIn(states, actions) == states[|actions|].sent
    ensures ReceivedIn(states, actions) == states[|actions|].received
  {
    var n := |actions|;
    if n > 0 {
      PrefixIsRun(states, actions);
      HistoryIsTrue(states[..n], actions[..n - 1]);
      RunInv(states, actions, n - 1);
      StepRecords(states[n - 1], actions[n - 1]);
    }
  }

  /** First in, first out across all tasks: what was sent is what was received followed by what is
      still buffered. */
  lemma {:induction false} QueueIsFifo(states: seq<State>, actions: seq<Action>)
    requires Run(states, actions)
    ensures SentIn(states, actions) == ReceivedIn(states, actions) + states[|actions|].q.buf
  {
    HistoryIsTrue(states, actions);
    RunInv(states, actions, |actions|);
  }
}
