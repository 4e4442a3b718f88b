/**
 The runtime lifecycle: four states and an object count in one atomic word, driven by
 compare-and-swap loops of any number of concurrent actors.

 An actor performs one operation at a time and owns at most one guard or lease, so a thread with
 several leases is several actors.  Loads and swaps are separate steps, a weak swap may fail
 spuriously, and what an actor loaded may be stale when it swaps.
 */
module Lifecycle {
  import opened Errors
  import opened Bits
  import opened Counting

  datatype RuntimeState = Uninitialized | Initializing | Running | ShuttingDown

  const STATE_BITS: nat := 2

  // ---------------------------------------------------------------------------
  // Word encoding
  // ---------------------------------------------------------------------------

  function Tag(s: RuntimeState): nat {
    match s
    case Uninitialized => 0
    case Initializing => 1
    case Running => 2
    case ShuttingDown => 3
  }

  function Encode(s: RuntimeState, count: nat): nat { Or(count * Pow2(STATE_BITS), Tag(s)) }

  function DecodeState(word: nat): RuntimeState {
    var tag := word % Pow2(STATE_BITS);
    if tag == 0 then Uninitialized else if tag == 1 then Initializing
    else if tag == 2 then Running else ShuttingDown
  }

  function DecodeCount(word: nat): nat { word / Pow2(STATE_BITS) }

  lemma EncodeIsSum(s: RuntimeState, count: nat)
    ensures Pow2(STATE_BITS) == 4
    ensures Encode(s, count) == 4 * count + Tag(s)
  {
    assert Pow2(1) == 2;
    OrOfDisjoint(count, Tag(s), STATE_BITS);
  }

  /** The packing loses nothing: decoding inverts encoding, and every word is an encoding. */
  lemma WordRoundTrip(s: RuntimeState, count: nat, word: nat)
    ensures DecodeState(Encode(s, count)) == s && DecodeCount(Encode(s, count)) == count
    ensures Encode(DecodeState(word), DecodeCount(word)) == word
  {
    EncodeIsSum(s, count);
    EncodeIsSum(DecodeState(word), DecodeCount(word));
  }

  // ---------------------------------------------------------------------------
  // Actors and steps
  // ---------------------------------------------------------------------------

  datatype Pc =
    | Idle
    | InitSwap
    | InitGuard
    | ShutLoad
    | ShutLoaded(seen: nat)
    | ShutGuard
    | AcquireLoad
    | AcquireLoaded(seen: nat)
    | Leased
    | DropLoad
    | DropLoaded(seen: nat)
    | Failed(error: Error)
    | Panicked
  {
    predicate Resting() { Idle? || Failed? }
    predicate Answers(e: Error) { Failed? && error == e }
    predicate OwnsLease() { Leased? || DropLoad? || DropLoaded? }
  }

  datatype State = State(word: nat, maxCount: nat, pcs: seq<Pc>)

  datatype Call = Initialize | Shutdown | Acquire

  datatype Action =
    | Begin(t: nat, call: Call)
    | Load(t: nat)
    | Swap(t: nat, spurious: bool)
    | Commit(t: nat)
    | Rollback(t: nat)
    | DropLease(t: nat)

  predicate EnabledAt(pc: Pc, a: Action) {
    match a
    case Begin(_, _) => pc.Resting()
    case Load(_) => pc.ShutLoad? || pc.AcquireLoad? || pc.DropLoad?
    case Swap(_, spurious) => (pc.InitSwap? && !spurious) || pc.ShutLoaded? || pc.AcquireLoaded? || pc.DropLoaded?
    case Commit(_) => pc.InitGuard? || pc.ShutGuard?
    case Rollback(_) => pc.InitGuard? || pc.ShutGuard?
    case DropLease(_) => pc.Leased?
  }

  function LoadStep(word: nat, maxCount: nat, pc: Pc): Pc
    requires pc.ShutLoad? || pc.AcquireLoad? || pc.DropLoad?
  {
    var state, count := DecodeState(word), DecodeCount(word);
    match pc
    case ShutLoad =>
      if state.Uninitialized? then Failed(NotInitialized)
      else if state.Initializing? || state.ShuttingDown? then Failed(Busy)
      else if count != 0 then Failed(Busy)
      else ShutLoaded(word)
    case AcquireLoad =>
      if !state.Running? then Failed(NotInitialized)
      else if count >= maxCount then Failed(Overflow)
      else AcquireLoaded(word)
    case DropLoad =>
      if !state.Running? || count == 0 then Panicked else DropLoaded(word)
  }

  function SwapStep(word: nat, pc: Pc, spurious: bool): (nat, Pc)
    requires pc.InitSwap? || pc.ShutLoaded? || pc.AcquireLoaded? || pc.DropLoaded?
  {
    match pc
    case InitSwap =>
      if word == Encode(Uninitialized, 0) then (Encode(Initializing, 0), InitGuard)
      else (word, Failed(match DecodeState(word)
                         case Uninitialized => AlreadyInitialized
                         case Running => AlreadyInitialized
                         case _ => Busy))
    case ShutLoaded(seen) =>
      if spurious || word != seen then (word, ShutLoad) else (Encode(ShuttingDown, 0), ShutGuard)
    case AcquireLoaded(seen) =>
      if spurious || word != seen then (word, AcquireLoad) else (Encode(Running, DecodeCount(seen) + 1), Leased)
    case DropLoaded(seen) =>
      if DecodeCount(seen) == 0 then (word, Panicked)
      else if spurious || word != seen then (word, DropLoad)
      else (Encode(Running, DecodeCount(seen) - 1), Idle)
  }

  /** Commit and rollback are strong swaps whose failure is an assertion failure. */
  function FinishStep(word: nat, pc: Pc, commit: bool): (nat, Pc)
    requires pc.InitGuard? || pc.ShutGuard?
  {
    var from := if pc.InitGuard? then Initializing else ShuttingDown;
    var to := if pc.InitGuard? == commit then Running else Uninitialized;
    if word == Encode(from, 0) then (Encode(to, 0), Idle) else (word, Panicked)
  }

  predicate Enabled(s: State, a: Action) { a.t < |s.pcs| && EnabledAt(s.pcs[a.t], a) }

  function StepOf(s: State, a: Action): (nat, Pc)
    requires Enabled(s, a)
  {
    var pc := s.pcs[a.t];
    match a
    case Begin(_, call) =>
      (s.word, match call case Initialize => InitSwap case Shutdown => ShutLoad case Acquire => AcquireLoad)
    case Load(_) => (s.word, LoadStep(s.word, s.maxCount, pc))
    case Swap(_, spurious) => SwapStep(s.word, pc, spurious)
    case Commit(_) => FinishStep(s.word, pc, true)
    case Rollback(_) => FinishStep(s.word, pc, false)
    case DropLease(_) => (s.word, DropLoad)
  }

  function Next(s: State, a: Action): State
    requires Enabled(s, a)
  {
    var (word, pc) := StepOf(s, a);
    s.(word := word, pcs := s.pcs[a.t := pc])
  }

  predicate Init(s: State) { s.word == 0 && forall t :: 0 <= t < |s.pcs| ==> s.pcs[t].Idle? }

  predicate Run(states: seq<State>, actions: seq<Action>) {
    && |states| == |actions| + 1
    && Init(states[0])
    && forall i :: 0 <= i < |actions| ==>
      Enabled(states[i], actions[i]) && states[i + 1] == Next(states[i], actions[i])
  }

  // ---------------------------------------------------------------------------
  // The atomic lifecycle
  // ---------------------------------------------------------------------------

  /** The lifecycle a caller may reason with: a state and a count, changed atomically. */
  datatype Atomic = Atomic(state: RuntimeState, count: nat) {
    /** In this state, with no object alive. */
    predicate Is(s: RuntimeState) { state == s && count == 0 }
  }

  function View(word: nat): Atomic { Atomic(DecodeState(word), DecodeCount(word)) }

  /** One atomic operation with the answer its actor gets; every other step changes nothing. */
  predicate AtomicStep(x: Atomic, y: Atomic, a: Action, pc: Pc, pc': Pc, maxCount: nat) {
    match pc
    case InitSwap =>
      if pc'.InitGuard? then x.Is(Uninitialized) && y.Is(Initializing)
      else y == x && pc'.Answers(if x.state.Running? then AlreadyInitialized else Busy) && !x.state.Uninitialized?
    case ShutLoad =>
      && y == x
      && if x.Is(Running) then pc'.ShutLoaded?
         else pc'.Answers(if x.state.Uninitialized? then NotInitialized else Busy)
    case ShutLoaded(_) =>
      if pc'.ShutGuard? then x.Is(Running) && y.Is(ShuttingDown) else y == x && pc'.ShutLoad?
    case AcquireLoad =>
      && y == x
      && if x.state.Running? && x.count < maxCount then pc'.AcquireLoaded?
         else pc'.Answers(if x.state.Running? then Overflow else NotInitialized)
    case AcquireLoaded(_) =>
      if pc'.Leased? then x.state.Running? && y.state.Running? && y.count == x.count + 1 <= maxCount
      else y == x && pc'.AcquireLoad?
    case DropLoad => y == x && pc'.DropLoaded?
    case DropLoaded(_) =>
      if pc'.Idle? then x.state.Running? && y.state.Running? && x.count == y.count + 1
      else y == x && pc'.DropLoad?
    case InitGuard => pc'.Idle? && x.Is(Initializing) && y.Is(if a.Commit? then Running else Uninitialized)
    case ShutGuard => pc'.Idle? && x.Is(ShuttingDown) && y.Is(if a.Commit? then Uninitialized else Running)
    case Leased => y == x && pc'.DropLoad?
    case _ => y == x && (pc'.InitSwap? || pc'.ShutLoad? || pc'.AcquireLoad?)
  }

  // ---------------------------------------------------------------------------
  // The invariant
  // ---------------------------------------------------------------------------

  function Leases(): Pc -> bool { (pc: Pc) => pc.OwnsLease() }
  function InitGuards(): Pc -> bool { (pc: Pc) => pc.InitGuard? }
  function ShutGuards(): Pc -> bool { (pc: Pc) => pc.ShutGuard? }

  datatype Tally = Tally(leases: int, inits: int, shuts: int)

  function TallyOf(pcs: seq<Pc>): Tally {
    Tally(Count(pcs, Leases()), Count(pcs, InitGuards()), Count(pcs, ShutGuards()))
  }

  function Shift(n: Tally, before: Pc, after: Pc): Tally {
    Tally(n.leases - (if before.OwnsLease() then 1 else 0) + (if after.OwnsLease() then 1 else 0),
          n.inits - (if before.InitGuard? then 1 else 0) + (if after.InitGuard? then 1 else 0),
          n.shuts - (if before.ShutGuard? then 1 else 0) + (if after.ShutGuard? then 1 else 0))
  }

  /** The word says how many leases and guards exist. */
  predicate Counts(x: Atomic, n: Tally) {
    && x.count == n.leases
    && n.inits == B(x.state.Initializing?)
    && n.shuts == B(x.state.ShuttingDown?)
    && (x.count > 0 ==> x.state.Running?)
  }

  /** What an actor loaded passed the checks it made, stale or not. */
  predicate SeenOk(pc: Pc, maxCount: nat) {
    match pc
    case ShutLoaded(seen) => View(seen).Is(Running)
    case AcquireLoaded(seen) => View(seen).state.Running? && View(seen).count < maxCount
    case DropLoaded(seen) => View(seen).state.Running? && View(seen).count > 0
    case Panicked => false
    case _ => true
  }

  predicate Inv(s: State) {
    && Counts(View(s.word), TallyOf(s.pcs))
    && View(s.word).count <= s.maxCount
    && forall t :: 0 <= t < |s.pcs| ==> SeenOk(s.pcs[t], s.maxCount)
  }

  predicate Fits(n: Tally, pc: Pc) {
    n.leases >= B(pc.OwnsLease()) && n.inits >= B(pc.InitGuard?) && n.shuts >= B(pc.ShutGuard?)
  }

  lemma LoadIsAtomic(word: nat, maxCount: nat, a: Action, pc: Pc, n: Tally)
    requires pc.ShutLoad? || pc.AcquireLoad? || pc.DropLoad?
    requires Counts(View(word), n) && Fits(n, pc)
    ensures var pc' := LoadStep(word, maxCount, pc);
            AtomicStep(View(word), View(word), a, pc, pc', maxCount) && SeenOk(pc', maxCount)
  {
  }

  lemma SwapIsAtomic(word: nat, maxCount: nat, a: Action, pc: Pc, spurious: bool)
    requires pc.InitSwap? || pc.ShutLoaded? || pc.AcquireLoaded? || pc.DropLoaded?
    requires SeenOk(pc, maxCount) && (View(word).state.Uninitialized? ==> View(word).count == 0)
    ensures var (word', pc') := SwapStep(word, pc, spurious);
            AtomicStep(View(word), View(word'), a, pc, pc', maxCount) && SeenOk(pc', maxCount)
  {
    match pc
    case InitSwap => WordRoundTrip(Uninitialized, 0, word); WordRoundTrip(Initializing, 0, 0);
    case ShutLoaded(seen) => WordRoundTrip(ShuttingDown, 0, 0);
    case AcquireLoaded(seen) => WordRoundTrip(Running, DecodeCount(seen) + 1, 0);
    case DropLoaded(seen) => WordRoundTrip(Running, DecodeCount(seen) - 1, 0);
  }

  lemma FinishIsAtomic(word: nat, maxCount: nat, a: Action, pc: Pc, n: Tally)
    requires pc.InitGuard? || pc.ShutGuard?
    requires Counts(View(word), n) && Fits(n, pc)
    ensures var (word', pc') := FinishStep(word, pc, a.Commit?);
            AtomicStep(View(word), View(word'), a, pc, pc', maxCount) && SeenOk(pc', maxCount)
  {
    WordRoundTrip(Uninitialized, 0, word);
    WordRoundTrip(Running, 0, word);
  }

  lemma StepIsAtomic(s: State, a: Action)
    requires Inv(s) && Enabled(s, a)
    ensures AtomicStep(View(s.word), View(Next(s, a).word), a, s.pcs[a.t], Next(s, a).pcs[a.t], s.maxCount)
    ensures SeenOk(Next(s, a).pcs[a.t], s.maxCount)
  {
    var pc := s.pcs[a.t];
    Recount(s.pcs, a.t, Idle);
    match a
    case Load(_) => LoadIsAtomic(s.word, s.maxCount, a, pc, TallyOf(s.pcs));
    case Swap(_, spurious) => SwapIsAtomic(s.word, s.maxCount, a, pc, spurious);
    case Commit(_) => FinishIsAtomic(s.word, s.maxCount, a, pc, TallyOf(s.pcs));
    case Rollback(_) => FinishIsAtomic(s.word, s.maxCount, a, pc, TallyOf(s.pcs));
    case _ =>
  }

  /** An atomic operation moves the counts as it moves the word. */
  lemma AtomicKeepsCounts(x: Atomic, y: Atomic, a: Action, pc: Pc, pc': Pc, maxCount: nat, n: Tally)
    requires AtomicStep(x, y, a, pc, pc', maxCount) && Counts(x, n)
    ensures Counts(y, Shift(n, pc, pc'))
  {
  }

  lemma Recount(pcs: seq<Pc>, t: nat, pc: Pc)
    requires t < |pcs|
    ensures TallyOf(pcs[t := pc]) == Shift(TallyOf(pcs), pcs[t], pc)
    ensures Fits(TallyOf(pcs), pcs[t])
  {
    CountUpdate(pcs, t, pc, Leases());
    CountUpdate(pcs, t, pc, InitGuards());
    CountUpdate(pcs, t, pc, ShutGuards());
  }

  lemma StepInv(s: State, a: Action)
    requires Inv(s) && Enabled(s, a)
    ensures Inv(Next(s, a))
  {
    var s' := Next(s, a);
    Recount(s.pcs, a.t, s'.pcs[a.t]);
    StepIsAtomic(s, a);
    AtomicKeepsCounts(View(s.word), View(s'.word), a, s.pcs[a.t], s'.pcs[a.t], s.maxCount, TallyOf(s.pcs));
  }

  lemma {:induction false} RunInv(states: seq<State>, actions: seq<Action>, i: nat)
    requires Run(states, actions) && i < |states|
    ensures Inv(states[i])
  {
    if i == 0 {
      CountBound(states[0].pcs, Leases());
      CountBound(states[0].pcs, InitGuards());
      CountBound(states[0].pcs, ShutGuards());
    } else {
      RunInv(states, actions, i - 1);
      StepInv(states[i - 1], actions[i - 1]);
    }
  }

  // ---------------------------------------------------------------------------
  // Theorems over whole runs
  // ---------------------------------------------------------------------------

  /** Under every interleaving: the count is the number of live leases and is positive only while
      Running; a transition guard exists, exactly one, if and only if the state is Initializing or
      ShuttingDown; and no assertion of commit, rollback or lease drop has failed. */
  lemma LifecycleIsSafe(states: seq<State>, actions: seq<Action>, i: nat)
    requires Run(states, actions) && i < |states|
    ensures var s := states[i]; var state := DecodeState(s.word);
            && DecodeCount(s.word) == Count(s.pcs, Leases()) <= s.maxCount
            && (DecodeCount(s.word) > 0 ==> state.Running?)
            && Count(s.pcs, InitGuards()) == B(state.Initializing?)
            && Count(s.pcs, ShutGuards()) == B(state.ShuttingDown?)
            && forall t :: 0 <= t < |s.pcs| ==> !s.pcs[t].Panicked?
  {
    RunInv(states, actions, i);
  }

  /** No two actors own a transition guard at once, of either kind. */
  lemma GuardIsExclusive(states: seq<State>, actions: seq<Action>, i: nat, t: nat, u: nat)
    requires Run(states, actions) && i < |states| && t < |states[i].pcs| && u < |states[i].pcs|
    requires states[i].pcs[t].InitGuard? || states[i].pcs[t].ShutGuard?
    requires states[i].pcs[u].InitGuard? || states[i].pcs[u].ShutGuard?
    ensures t == u
  {
    var pcs := states[i].pcs;
    RunInv(states, actions, i);
    Recount(pcs, t, Idle);
    Recount(pcs, u, Idle);
    if pcs[t].InitGuard? { CountUnique(pcs, t, u, InitGuards()); } else { CountUnique(pcs, t, u, ShutGuards()); }
  }

  /** `begin_initialize` never takes the arm for a failed swap that still reads Uninitialized. */
  lemma UninitializedArmIsDead(states: seq<State>, actions: seq<Action>, i: nat)
    requires Run(states, actions) && i < |states| && states[i].word != Encode(Uninitialized, 0)
    ensures !DecodeState(states[i].word).Uninitialized?
  {
    RunInv(states, actions, i);
    WordRoundTrip(Uninitialized, 0, states[i].word);
  }

  /** The swap loops refine atomic operations: every step of a run is one atomic operation, answered
      as that operation would answer, or changes nothing. */
  lemma RefinesAtomic(states: seq<State>, actions: seq<Action>, i: nat)
    requires Run(states, actions) && i < |actions|
    ensures var s, s', t := states[i], states[i + 1], actions[i].t;
            AtomicStep(View(s.word), View(s'.word), actions[i], s.pcs[t], s'.pcs[t], s.maxCount)
  {
    RunInv(states, actions, i);
    StepIsAtomic(states[i], actions[i]);
  }

  /** Each call starts at its own first step, and a swap succeeds unless it fails spuriously or the word has changed
      since it was loaded. */
  lemma UndisturbedSwapsSucceed(states: seq<State>, actions: seq<Action>, i: nat)
    requires Run(states, actions) && i < |actions|
    ensures var a, s := actions[i], states[i];
            var pc, pc' := s.pcs[a.t], states[i + 1].pcs[a.t];
            && (a.Begin? ==>
                  && (a.call.Initialize? ==> pc'.InitSwap?) && (a.call.Shutdown? ==> pc'.ShutLoad?)
                  && (a.call.Acquire? ==> pc'.AcquireLoad?))
            && (a.Load? && (pc'.ShutLoaded? || pc'.AcquireLoaded? || pc'.DropLoaded?) ==> pc'.seen == s.word)
            && (a.Swap? ==>
                  match pc
                  case InitSwap => pc'.InitGuard? <==> View(s.word).state.Uninitialized?
                  case ShutLoaded(seen) => if !a.spurious && s.word == seen then pc'.ShutGuard? else pc'.ShutLoad?
                  case AcquireLoaded(seen) => if !a.spurious && s.word == seen then pc'.Leased? else pc'.AcquireLoad?
                  case DropLoaded(seen) => if !a.spurious && s.word == seen then pc'.Idle? else pc'.DropLoad?
                  case _ => true)
  {
    RefinesAtomic(states, actions, i);
    RunInv(states, actions, i);
    assert SeenOk(states[i].pcs[actions[i].t], states[i].maxCount);
    if states[i].word != Encode(Uninitialized, 0) { UninitializedArmIsDead(states, actions, i); }
  }
}
