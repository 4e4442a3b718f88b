/**
 The mock backend's virtual clock and timer registry, and the dispatch loop that runs expired
 callbacks one at a time while virtual time stands still.
 */
module MockTime {
  import opened Errors
  import opened Durations
  import opened Counting
  import opened TimeConvert
  import opened TimerStates

  datatype Key = Key(epoch: nat, id: nat)

  /** A registered timer.  `held` says whether the entry holds its callback, and `owns` lists the timers
      whose last handle that callback has captured: dropping the callback releases them. */
  datatype Entry = Entry(key: Key, timer: Timer, held: bool, order: nat, owns: seq<Key>) {
    predicate Ready(now: Duration) { held && timer.Expired(now) }
    predicate Precedes(other: Entry)
      requires timer.deadline.Some? && other.timer.deadline.Some?
    {
      timer.deadline.value < other.timer.deadline.value ||
      (timer.deadline == other.timer.deadline && order < other.order)
    }
  }

  datatype Runtime = Runtime(now: Duration, epoch: nat, nextId: nat, nextOrder: nat, timers: seq<Entry>)

  /** What a callback may do while it runs.  A new callback captures the handles `owns`; `Keep` and `Give`
      move a last handle into and out of the running callback; `Drop` releases one; `Reset` restarts the
      virtual clock and detaches every timer. */
  datatype Op =
    | Register(period: Duration, mode: Mode, owns: seq<Key>)
    | Start(key: Key)
    | Stop(key: Key)
    | Reset(key: Key)
    | ChangePeriod(key: Key, period: Duration)
    | Keep(key: Key)
    | Give(key: Key)
    | Drop(key: Key)
    | ResetClock

  // ---------------------------------------------------------------------------
  // Operations on values
  // ---------------------------------------------------------------------------

  function Find(ts: seq<Entry>, key: Key): (r: Option<nat>)
    ensures r.Some? ==> r.value < |ts| && ts[r.value].key == key
    ensures r.None? ==> forall e :: e in ts ==> e.key != key
  {
    if ts == [] then None
    else
      var n := |ts| - 1;
      assert ts == ts[..n] + [ts[n]];
      var earlier := Find(ts[..n], key);
      if earlier.Some? then earlier else if ts[n].key == key then Some(n) else None
  }

  /** `swap_remove`: the last entry takes the removed one's place. */
  function SwapRemove(ts: seq<Entry>, i: nat): seq<Entry>
    requires i < |ts|
  {
    ts[i := ts[|ts| - 1]][..|ts| - 1]
  }

  /** Releasing last handles: each removes its timer's entry and, outside the lock, drops the callback that
      the entry held, which releases the handles captured there. */
  function Released(ts: seq<Entry>, handles: seq<Key>): seq<Entry>
    decreases |ts|, |handles|
  {
    if handles == [] then ts
    else
      match Find(ts, handles[0])
      case None => Released(ts, handles[1..])
      case Some(i) =>
        Released(SwapRemove(ts, i), (if ts[i].held then ts[i].owns else []) + handles[1..])
  }

  /** A timer after an operation on it; a refused operation leaves it alone. */
  function Altered(t: Timer, op: Op, now: Duration): Timer {
    match op
    case Start(_) => (match Started(t, now) case Ok(u) => u case Err(_) => t)
    case Reset(_) => (match Started(t, now) case Ok(u) => u case Err(_) => t)
    case Stop(_) => Stopped(t)
    case ChangePeriod(_, period) => (match Repaced(t, period) case Ok(u) => u case Err(_) => t)
    case _ => t
  }

  predicate Alters(op: Op) { op.Start? || op.Reset? || op.Stop? || op.ChangePeriod? }

  /** The registry after an operation.  A refused registration drops the new callback. */
  function Perform(r: Runtime, op: Op): Runtime {
    if op.Register? then
      if op.period == 0 then r.(timers := Released(r.timers, op.owns))
      else r.(nextId := r.nextId + 1, nextOrder := r.nextOrder + 1,
              timers := r.timers + [NewEntry(r, op)])
    else if op.Drop? then r.(timers := Released(r.timers, [op.key]))
    else if op.ResetClock? then Runtime(0, r.epoch + 1, 1, 0, [])
    else if !Alters(op) then r
    else
      match Find(r.timers, op.key)
      case None => r
      case Some(i) => r.(timers := r.timers[i := r.timers[i].(timer := Altered(r.timers[i].timer, op, r.now))])
  }

  function NewEntry(r: Runtime, op: Op): Entry
    requires op.Register?
  {
    Entry(Key(r.epoch, r.nextId), Timer(op.mode, op.period, None), true, r.nextOrder, op.owns)
  }

  function PerformAll(r: Runtime, ops: seq<Op>): Runtime {
    if ops == [] then r else Perform(PerformAll(r, ops[..|ops| - 1]), ops[|ops| - 1])
  }

  function Without(keys: seq<Key>, gone: seq<Key>): seq<Key> {
    if keys == [] then []
    else if keys[0] in gone then Without(keys[1..], gone) else [keys[0]] + Without(keys[1..], gone)
  }

  /** The last handles that the running callback holds after an operation. */
  function Carry(owns: seq<Key>, op: Op): seq<Key> {
    match op
    case Register(_, _, moved) => Without(owns, moved)
    case Keep(key) => owns + [key]
    case Give(key) => Without(owns, [key])
    case Drop(key) => Without(owns, [key])
    case _ => owns
  }

  function CarryAll(owns: seq<Key>, ops: seq<Op>): seq<Key> {
    if ops == [] then owns else Carry(CarryAll(owns, ops[..|ops| - 1]), ops[|ops| - 1])
  }

  ghost predicate IsBest(ts: seq<Entry>, now: Duration, best: Option<nat>) {
    match best
    case None => forall i :: 0 <= i < |ts| ==> !ts[i].Ready(now)
    case Some(b) =>
      && b < |ts| && ts[b].Ready(now)
      && forall i :: 0 <= i < |ts| && ts[i].Ready(now) ==> !ts[i].Precedes(ts[b])
  }

  /** The ready entry that is first by (deadline, creation order). */
  function Best(ts: seq<Entry>, now: Duration): (best: Option<nat>)
    ensures IsBest(ts, now, best)
  {
    if ts == [] then None
    else
      var n := |ts| - 1;
      var best := Best(ts[..n], now);
      if ts[n].Ready(now) && (best.None? || ts[n].Precedes(ts[best.value])) then Some(n) else best
  }

  /** The runtime after the best entry's callback was taken, and with it the handles it owns. */
  function Taken(r: Runtime, i: nat): Runtime
    requires i < |r.timers| && r.timers[i].timer.Expired(r.now)
  {
    var e := r.timers[i];
    r.(timers := r.timers[i := e.(timer := Advanced(e.timer, r.now), held := false, owns := [])])
  }

  function PutBack(r: Runtime, i: nat, owns: seq<Key>): Runtime
    requires i < |r.timers|
  {
    r.(timers := r.timers[i := r.timers[i].(held := true, owns := owns)])
  }

  predicate Vacant(r: Runtime, key: Key) {
    Find(r.timers, key).Some? && !r.timers[Find(r.timers, key).value].held
  }

  /** `restore_callback`.  Without a vacant entry the callback is dropped while the registry lock is held; if
      it owns a last handle, the release takes that lock again and never gets it: `None`. */
  function Restored(r: Runtime, key: Key, owns: seq<Key>): Option<Runtime> {
    if Vacant(r, key) then Some(PutBack(r, Find(r.timers, key).value, owns))
    else if owns == [] then Some(r)
    else None
  }

  /** What restoring would do if it dropped the callback after unlocking. */
  function Settled(r: Runtime, key: Key, owns: seq<Key>): Runtime {
    if Vacant(r, key) then PutBack(r, Find(r.timers, key).value, owns)
    else r.(timers := Released(r.timers, owns))
  }

  // ---------------------------------------------------------------------------
  // The registry during a dispatch
  // ---------------------------------------------------------------------------

  function Due(now: Duration): Entry -> bool { (e: Entry) => e.timer.Expired(now) }

  /** Keys of this epoch, distinct; distinct creation orders; positive periods; and every callback in its
      entry but the one in flight, whose timer is not due. */
  predicate Table(r: Runtime, inFlight: Option<Key>) {
    && (forall i :: 0 <= i < |r.timers| ==>
          var e := r.timers[i];
          && e.timer.period > 0
          && (e.held <==> inFlight != Some(e.key))
          && (!e.held ==> !e.timer.Expired(r.now))
          && e.order < r.nextOrder
          && e.key.epoch == r.epoch && e.key.id < r.nextId)
    && (forall i, j :: 0 <= i < j < |r.timers| ==>
          r.timers[i].key != r.timers[j].key && r.timers[i].order != r.timers[j].order)
    && (inFlight.Some? ==> Issued(r, inFlight.value))
  }

  /** A key that this runtime has handed out, in this epoch or an earlier one. */
  predicate Issued(r: Runtime, key: Key) {
    key.epoch <= r.epoch && (key.epoch == r.epoch ==> key.id < r.nextId)
  }

  lemma {:induction false} SwapRemoveCounts(ts: seq<Entry>, i: nat, f: Entry -> bool)
    requires i < |ts|
    ensures Count(SwapRemove(ts, i), f) == Count(ts, f) - B(f(ts[i]))
  {
    CountUpdate(ts, i, ts[|ts| - 1], f);
  }

  /** Altering a timer never makes it due. */
  lemma AlteredIsNotDue(t: Timer, op: Op, now: Duration)
    requires t.period > 0
    ensures Altered(t, op, now).Expired(now) ==> t.Expired(now)
    ensures Altered(t, op, now).period > 0
  {
  }

  lemma RemoveKeepsTable(r: Runtime, i: nat, inFlight: Option<Key>)
    requires Table(r, inFlight) && i < |r.timers|
    ensures Table(r.(timers := SwapRemove(r.timers, i)), inFlight)
  {
  }

  lemma AlterKeepsTable(r: Runtime, i: nat, t: Timer, inFlight: Option<Key>)
    requires Table(r, inFlight) && i < |r.timers| && t.period > 0
    requires t.Expired(r.now) ==> r.timers[i].timer.Expired(r.now)
    ensures Table(r.(timers := r.timers[i := r.timers[i].(timer := t)]), inFlight)
  {
  }

  /** However far a release cascades, it only removes entries. */
  lemma {:induction false} ReleaseKeeps(r: Runtime, handles: seq<Key>, inFlight: Option<Key>)
    requires Table(r, inFlight)
    ensures var r' := r.(timers := Released(r.timers, handles));
            Table(r', inFlight) && Count(r'.timers, Due(r.now)) <= Count(r.timers, Due(r.now))
    decreases |r.timers|, |handles|
  {
    if handles != [] {
      match Find(r.timers, handles[0])
      case None => ReleaseKeeps(r, handles[1..], inFlight);
      case Some(i) =>
        var rest := r.(timers := SwapRemove(r.timers, i));
        RemoveKeepsTable(r, i, inFlight);
        SwapRemoveCounts(r.timers, i, Due(r.now));
        ReleaseKeeps(rest, (if r.timers[i].held then r.timers[i].owns else []) + handles[1..], inFlight);
    }
  }

  lemma AppendKeepsTable(r: Runtime, r': Runtime, e: Entry, inFlight: Option<Key>)
    requires Table(r, inFlight)
    requires r' == r.(nextId := r.nextId + 1, nextOrder := r.nextOrder + 1, timers := r.timers + [e])
    requires e.key == Key(r.epoch, r.nextId) && e.order == r.nextOrder && e.held && e.timer.period > 0
    ensures Table(r', inFlight)
  {
  }

  lemma RegisterKeeps(r: Runtime, op: Op, inFlight: Option<Key>)
    requires Table(r, inFlight) && op.Register? && op.period > 0
    ensures Table(Perform(r, op), inFlight)
    ensures Count(Perform(r, op).timers, Due(r.now)) == Count(r.timers, Due(r.now))
  {
    AppendKeepsTable(r, Perform(r, op), NewEntry(r, op), inFlight);
    CountAppend(r.timers, NewEntry(r, op), Due(r.now));
  }

  lemma AlterKeeps(r: Runtime, op: Op, inFlight: Option<Key>)
    requires Table(r, inFlight) && Alters(op)
    ensures var r' := Perform(r, op);
            && Table(r', inFlight) && r'.now == r.now
            && Count(r'.timers, Due(r.now)) <= Count(r.timers, Due(r.now))
  {
    var found := Find(r.timers, op.key);
    if found.Some? {
      var i := found.value;
      var t := Altered(r.timers[i].timer, op, r.now);
      AlteredIsNotDue(r.timers[i].timer, op, r.now);
      AlterKeepsTable(r, i, t, inFlight);
      CountUpdate(r.timers, i, r.timers[i].(timer := t), Due(r.now));
    }
  }

  /** No operation of a callback makes a timer due, and each keeps the registry consistent. */
  lemma PerformKeeps(r: Runtime, op: Op, inFlight: Option<Key>)
    requires Table(r, inFlight)
    ensures var r' := Perform(r, op);
            && Table(r', inFlight) && (!op.ResetClock? ==> r'.now == r.now)
            && r'.epoch == r.epoch + B(op.ResetClock?)
            && Count(r'.timers, Due(r'.now)) <= Count(r.timers, Due(r.now))
  {
    if op.Register? && op.period > 0 {
      RegisterKeeps(r, op, inFlight);
    } else if op.Register? {
      ReleaseKeeps(r, op.owns, inFlight);
    } else if op.Drop? {
      ReleaseKeeps(r, [op.key], inFlight);
    } else if Alters(op) {
      AlterKeeps(r, op, inFlight);
    }
  }

  lemma {:induction false} PerformAllKeeps(r: Runtime, ops: seq<Op>, inFlight: Option<Key>)
    requires Table(r, inFlight)
    ensures var r' := PerformAll(r, ops);
            && Table(r', inFlight) && (ResetClock !in ops ==> r'.now == r.now)
            && r'.epoch >= r.epoch + B(ResetClock in ops)
            && Count(r'.timers, Due(r'.now)) <= Count(r.timers, Due(r.now))
  {
    if ops != [] {
      var n := |ops| - 1;
      assert ops == ops[..n] + [ops[n]];
      PerformAllKeeps(r, ops[..n], inFlight);
      PerformKeeps(PerformAll(r, ops[..n]), ops[n], inFlight);
    }
  }

  /** Epochs isolate: once the clock was reset, whatever is done with a key from before the reset leaves every
      timer alone, however much happens in between. */
  lemma StaleKeysReachNothing(r: Runtime, ops: seq<Op>, op: Op, inFlight: Option<Key>)
    requires Table(r, inFlight) && ResetClock in ops
    requires (Alters(op) || op.Drop?) && Issued(r, op.key)
    ensures Perform(PerformAll(r, ops), op) == PerformAll(r, ops)
  {
    PerformAllKeeps(r, ops, inFlight);
    var ts := PerformAll(r, ops).timers;
    var found := Find(ts, op.key);
    assert found.None?;
    assert [op.key][1..] == [];
    assert Released(ts, []) == ts;
  }

  /** Taking a due timer's callback makes one due timer fewer. */
  lemma TakeKeeps(r: Runtime, i: nat)
    requires Table(r, None) && i < |r.timers| && r.timers[i].timer.Expired(r.now)
    ensures Table(Taken(r, i), Some(r.timers[i].key))
    ensures Count(Taken(r, i).timers, Due(r.now)) == Count(r.timers, Due(r.now)) - 1
  {
    AdvancedIsNotExpired(r.timers[i].timer, r.now);
    CountUpdate(r.timers, i, Taken(r, i).timers[i], Due(r.now));
  }

  lemma PutBackKeeps(r: Runtime, key: Key, owns: seq<Key>)
    requires Table(r, Some(key)) && Vacant(r, key)
    ensures var r' := PutBack(r, Find(r.timers, key).value, owns);
            Table(r', None) && Count(r'.timers, Due(r.now)) == Count(r.timers, Due(r.now))
  {
    var i := Find(r.timers, key).value;
    CountUpdate(r.timers, i, r.timers[i].(held := true, owns := owns), Due(r.now));
  }

  lemma SettleKeeps(r: Runtime, key: Key, owns: seq<Key>)
    requires Table(r, Some(key))
    ensures var r' := Settled(r, key, owns);
            && Table(r', None) && r'.now == r.now
            && Count(r'.timers, Due(r.now)) <= Count(r.timers, Due(r.now))
  {
    if Vacant(r, key) {
      PutBackKeeps(r, key, owns);
    } else {
      forall i | 0 <= i < |r.timers|
        ensures r.timers[i].held
      {
        assert r.timers[i] in r.timers;
      }
      assert Table(r, None);
      ReleaseKeeps(r, owns, None);
    }
  }

  // ---------------------------------------------------------------------------
  // One turn of the dispatch loop
  // ---------------------------------------------------------------------------

  /** The registry when the callback of entry `i` returns, having done `ops`. */
  function Worked(r: Runtime, i: nat, ops: seq<Op>): Runtime
    requires i < |r.timers| && r.timers[i].timer.Expired(r.now)
  {
    PerformAll(Taken(r, i), ops)
  }

  /** Take, run the callback, restore. */
  function Dispatched(r: Runtime, i: nat, ops: seq<Op>): Option<Runtime>
    requires i < |r.timers| && r.timers[i].timer.Expired(r.now)
  {
    Restored(Worked(r, i, ops), r.timers[i].key, CarryAll(r.timers[i].owns, ops))
  }

  /** The same turn if a callback without an entry were dropped after unlocking. */
  function DispatchedIdeally(r: Runtime, i: nat, ops: seq<Op>): Runtime
    requires i < |r.timers| && r.timers[i].timer.Expired(r.now)
  {
    Settled(Worked(r, i, ops), r.timers[i].key, CarryAll(r.timers[i].owns, ops))
  }

  /** When the callback returns, its own timer is gone and it still owns a last handle. */
  predicate Orphaned(r: Runtime, i: nat, ops: seq<Op>)
    requires i < |r.timers| && r.timers[i].timer.Expired(r.now)
  {
    Find(Worked(r, i, ops).timers, r.timers[i].key).None? && CarryAll(r.timers[i].owns, ops) != []
  }

  /** Whatever the callback does, one turn leaves fewer timers due; and it hangs exactly for an orphaned
      callback. */
  lemma DispatchKeeps(r: Runtime, i: nat, ops: seq<Op>)
    requires Table(r, None) && i < |r.timers| && r.timers[i].timer.Expired(r.now)
    ensures var r' := DispatchedIdeally(r, i, ops);
            && Table(r', None) && (ResetClock !in ops ==> r'.now == r.now)
            && Count(r'.timers, Due(r'.now)) < Count(r.timers, Due(r.now))
            && Dispatched(r, i, ops) == if Orphaned(r, i, ops) then None else Some(r')
  {
    var key, owns := r.timers[i].key, CarryAll(r.timers[i].owns, ops);
    TakeKeeps(r, i);
    PerformAllKeeps(Taken(r, i), ops, Some(key));
    SettleKeeps(Worked(r, i, ops), key, owns);
    RestoreHangsForOrphans(Worked(r, i, ops), key, owns);
  }

  lemma RestoreHangsForOrphans(r: Runtime, key: Key, owns: seq<Key>)
    requires Table(r, Some(key))
    ensures Restored(r, key, owns) ==
            if Find(r.timers, key).None? && owns != [] then None else Some(Settled(r, key, owns))
  {
    assert Vacant(r, key) <==> Find(r.timers, key).Some?;
    assert Released(r.timers, []) == r.timers;
  }

  // ---------------------------------------------------------------------------
  // The dispatch loop
  // ---------------------------------------------------------------------------

  function Later(r: Runtime, d: Duration): Runtime { r.(now := SaturatingAdd(r.now, d)) }

  datatype Outcome = Outcome(hung: bool, rt: Runtime, fired: seq<Entry>)

  /** `advance_and_dispatch` at frozen time; `behaviour(n)` lists what the `n`th callback to run does. */
  function Loop(r: Runtime, behaviour: nat -> seq<Op>, n: nat): Outcome
    requires Table(r, None)
    decreases Count(r.timers, Due(r.now))
  {
    match Best(r.timers, r.now)
    case None => Outcome(false, r, [])
    case Some(i) =>
      DispatchKeeps(r, i, behaviour(n));
      match Dispatched(r, i, behaviour(n))
      case None => Outcome(true, Worked(r, i, behaviour(n)), [r.timers[i]])
      case Some(r') =>
        var rest := Loop(r', behaviour, n + 1);
        rest.(fired := [r.timers[i]] + rest.fired)
  }

  function After(fired: seq<Entry>, o: Outcome): Outcome { o.(fired := fired + o.fired) }

  lemma AfterOneMore(fired: seq<Entry>, e: Entry, o: Outcome)
    ensures After(fired, After([e], o)) == After(fired + [e], o)
  {
    assert fired + ([e] + o.fired) == (fired + [e]) + o.fired;
  }

  /** The loop as its first turn and the rest. */
  lemma LoopUnfolds(r: Runtime, behaviour: nat -> seq<Op>, n: nat, i: nat)
    requires Table(r, None) && Best(r.timers, r.now) == Some(i)
    ensures match Dispatched(r, i, behaviour(n))
            case None => Loop(r, behaviour, n) == Outcome(true, Worked(r, i, behaviour(n)), [r.timers[i]])
            case Some(r') =>
              && Table(r', None) && Count(r'.timers, Due(r'.now)) < Count(r.timers, Due(r.now))
              && Loop(r, behaviour, n) == After([r.timers[i]], Loop(r', behaviour, n + 1))
  {
    DispatchKeeps(r, i, behaviour(n));
  }

  /** A dispatch of the ideal loop: the entry served and whether its callback was orphaned. */
  datatype Turn = Turn(entry: Entry, orphaned: bool)

  function IdealTurns(r: Runtime, behaviour: nat -> seq<Op>, n: nat): seq<Turn>
    requires Table(r, None)
    decreases Count(r.timers, Due(r.now))
  {
    match Best(r.timers, r.now)
    case None => []
    case Some(i) =>
      DispatchKeeps(r, i, behaviour(n));
      [Turn(r.timers[i], Orphaned(r, i, behaviour(n)))] +
      IdealTurns(DispatchedIdeally(r, i, behaviour(n)), behaviour, n + 1)
  }

  predicate AnyOrphaned(turns: seq<Turn>) { exists k :: 0 <= k < |turns| && turns[k].orphaned }

  function Served(turns: seq<Turn>): seq<Entry> {
    if turns == [] then [] else [turns[0].entry] + Served(turns[1..])
  }

  lemma AnyOrphanedHead(t: Turn, rest: seq<Turn>)
    ensures AnyOrphaned([t] + rest) <==> t.orphaned || AnyOrphaned(rest)
  {
    var turns := [t] + rest;
    if t.orphaned { assert turns[0].orphaned; }
    if AnyOrphaned(rest) {
      var k :| 0 <= k < |rest| && rest[k].orphaned;
      assert turns[k + 1].orphaned;
    }
  }

  /** The loop hangs if and only if, in the loop that unlocks before it drops, some callback ends without its
      timer while it owns the last handle of a timer; otherwise the two loops serve the same entries. */
  lemma {:induction false} LoopHangsIffOrphaned(r: Runtime, behaviour: nat -> seq<Op>, n: nat)
    requires Table(r, None)
    ensures Loop(r, behaviour, n).hung <==> AnyOrphaned(IdealTurns(r, behaviour, n))
    ensures !Loop(r, behaviour, n).hung ==> Loop(r, behaviour, n).fired == Served(IdealTurns(r, behaviour, n))
    decreases Count(r.timers, Due(r.now))
  {
    match Best(r.timers, r.now)
    case None =>
    case Some(i) =>
      var ops := behaviour(n);
      DispatchKeeps(r, i, ops);
      var rest := IdealTurns(DispatchedIdeally(r, i, ops), behaviour, n + 1);
      var turn := Turn(r.timers[i], Orphaned(r, i, ops));
      AnyOrphanedHead(turn, rest);
      assert ([turn] + rest)[1..] == rest;
      if !turn.orphaned { LoopHangsIffOrphaned(DispatchedIdeally(r, i, ops), behaviour, n + 1); }
  }

  /** It runs at most as many callbacks as timers were due; and if it does not hang, it leaves no timer due and
      every callback in its entry. */
  lemma {:induction false} LoopIsComplete(r: Runtime, behaviour: nat -> seq<Op>, n: nat)
    requires Table(r, None)
    ensures var o := Loop(r, behaviour, n);
            && |o.fired| <= Count(r.timers, Due(r.now))
            && (!o.hung ==> Table(o.rt, None) && forall i :: 0 <= i < |o.rt.timers| ==>
                  !o.rt.timers[i].timer.Expired(o.rt.now))
            && ((forall k :: ResetClock !in behaviour(k)) ==> o.rt.now == r.now)
    decreases Count(r.timers, Due(r.now))
  {
    match Best(r.timers, r.now)
    case None =>
    case Some(i) =>
      var ops := behaviour(n);
      DispatchKeeps(r, i, ops);
      if Orphaned(r, i, ops) {
        TakeKeeps(r, i);
        PerformAllKeeps(Taken(r, i), ops, Some(r.timers[i].key));
      } else {
        LoopIsComplete(DispatchedIdeally(r, i, ops), behaviour, n + 1);
      }
  }

  // ---------------------------------------------------------------------------
  // A dispatch that hangs
  // ---------------------------------------------------------------------------

  const TimerB := Key(1, 1)
  const TimerA := Key(1, 2)

  /** B, then A whose callback has captured B's only handle; A is started and falls due. */
  function Entangled(): Runtime {
    Runtime(5, 1, 3, 2,
            [Entry(TimerB, Timer(OneShot, 5, None), true, 0, []),
             Entry(TimerA, Timer(OneShot, 5, Some(5)), true, 1, [TimerB])])
  }

  /** The public operations reach that registry. */
  lemma EntangledIsReachable()
    ensures PerformAll(Runtime(0, 1, 1, 0, []),
                       [Register(5, OneShot, []), Register(5, OneShot, [TimerB]), Op.Start(TimerA)]).(now := 5) ==
            Entangled()
  {
    var r0 := Runtime(0, 1, 1, 0, []);
    var b, a, start := Register(5, OneShot, []), Register(5, OneShot, [TimerB]), Op.Start(TimerA);
    var r1 := Perform(r0, b);
    var r2 := Perform(r1, a);
    assert [b, a, start][..2] == [b, a] && [b, a][..1] == [b] && [b][..0] == [];
    assert PerformAll(r0, [b]) == r1 && PerformAll(r0, [b, a]) == r2;
    assert r2.timers[1] in r2.timers;
    assert Find(r2.timers, TimerA) == Some(1);
    assert Perform(r2, start).(now := 5).timers == Entangled().timers;
  }

  /** There, a callback of A that releases A's own last handle hangs the dispatch. */
  lemma OrphanHangs()
    ensures Table(Entangled(), None)
    ensures Loop(Entangled(), n => [Drop(TimerA)], 0).hung
  {
    var r, ops := Entangled(), [Drop(TimerA)];
    assert Best(r.timers[..1], r.now).None?;
    assert Best(r.timers, r.now) == Some(1);
    var t := Taken(r, 1);
    assert t.timers[1] in t.timers;
    assert Find(t.timers, TimerA) == Some(1);
    assert ops[..0] == [];
    assert PerformAll(t, ops[..0]) == t;
    var gone := SwapRemove(t.timers, 1);
    assert Released(t.timers, [TimerA]) == Released(gone, []) by { assert [] + [TimerA][1..] == []; }
    assert Worked(r, 1, ops).timers == gone;
    assert CarryAll([TimerB], ops[..0]) == [TimerB];
    assert Without([TimerB], [TimerA]) == [TimerB] by { assert [TimerB] + Without([], [TimerA]) == [TimerB]; }
    assert CarryAll([TimerB], ops) == [TimerB];
    DispatchKeeps(r, 1, ops);
  }

  // ---------------------------------------------------------------------------
  // Callbacks that own nothing
  // ---------------------------------------------------------------------------

  predicate Unowning(ops: seq<Op>) {
    forall k :: 0 <= k < |ops| ==> !ops[k].Keep? && (ops[k].Register? ==> ops[k].owns == [])
  }

  predicate Unowned(ts: seq<Entry>) { forall i :: 0 <= i < |ts| ==> ts[i].owns == [] }

  lemma {:induction false} ReleasedUnowned(ts: seq<Entry>, handles: seq<Key>)
    requires Unowned(ts)
    ensures Unowned(Released(ts, handles))
    decreases |ts|, |handles|
  {
    if handles != [] {
      match Find(ts, handles[0])
      case None => ReleasedUnowned(ts, handles[1..]);
      case Some(i) =>
        ReleasedUnowned(SwapRemove(ts, i), (if ts[i].held then ts[i].owns else []) + handles[1..]);
    }
  }

  lemma {:induction false} WorkedUnowned(r: Runtime, ops: seq<Op>)
    requires Unowned(r.timers) && Unowning(ops)
    ensures Unowned(PerformAll(r, ops).timers) && CarryAll([], ops) == []
  {
    if ops != [] {
      var n := |ops| - 1;
      WorkedUnowned(r, ops[..n]);
      var mid, op := PerformAll(r, ops[..n]), ops[n];
      if op.Register? { ReleasedUnowned(mid.timers, op.owns); }
      if op.Drop? { ReleasedUnowned(mid.timers, [op.key]); }
    }
  }

  /** Callbacks that capture no timer handle never hang the loop, whatever else they do. */
  lemma {:induction false} UnownedNeverHangs(r: Runtime, behaviour: nat -> seq<Op>, n: nat)
    requires Table(r, None) && Unowned(r.timers) && forall k :: Unowning(behaviour(k))
    ensures !Loop(r, behaviour, n).hung
    decreases Count(r.timers, Due(r.now))
  {
    match Best(r.timers, r.now)
    case None =>
    case Some(i) =>
      var ops := behaviour(n);
      DispatchKeeps(r, i, ops);
      WorkedUnowned(Taken(r, i), ops);
      ReleasedUnowned(Worked(r, i, ops).timers, []);
      UnownedNeverHangs(DispatchedIdeally(r, i, ops), behaviour, n + 1);
  }

  // ---------------------------------------------------------------------------
  // Callbacks that leave timers alone
  // ---------------------------------------------------------------------------

  predicate Comes(a: Entry, b: Entry) {
    a.timer.deadline.Some? && b.timer.deadline.Some? && a.Precedes(b)
  }

  /** `x` is `e` after its timer expired once at `now`. */
  predicate ServedOnce(e: Entry, x: Entry, now: Duration) {
    e.timer.Expired(now) && x == e.(timer := Advanced(e.timer, now))
  }

  /** `fired` lists due entries of `r0` in order, each once; the due entries of `r` are the rest of
      them, and come later. */
  ghost predicate Progress(r0: Runtime, r: Runtime, fired: seq<Entry>) {
    && r.now == r0.now && |r.timers| == |r0.timers|
    && (forall i :: 0 <= i < |r.timers| ==>
          r.timers[i].key == r0.timers[i].key && r.timers[i].order == r0.timers[i].order)
    && (forall i :: 0 <= i < |r.timers| && r.timers[i].timer.Expired(r.now) ==> r.timers[i] == r0.timers[i])
    && (forall i :: 0 <= i < |r.timers| && r0.timers[i].timer.Expired(r.now) ==>
          r.timers[i] == r0.timers[i] || r0.timers[i] in fired)
    && (forall i :: 0 <= i < |r.timers| ==> r.timers[i] == r0.timers[i] || ServedOnce(r0.timers[i], r.timers[i], r.now))
    && (forall f :: f in fired ==> f in r0.timers && f.timer.Expired(r.now))
    && (forall a, b :: 0 <= a < b < |fired| ==> Comes(fired[a], fired[b]))
    && (forall a, i :: 0 <= a < |fired| && 0 <= i < |r.timers| && r.timers[i].timer.Expired(r.now) ==>
          Comes(fired[a], r.timers[i]))
  }

  /** Exactly the due entries of `r0`, in strictly increasing (deadline, creation order). */
  ghost predicate InOrder(r0: Runtime, fired: seq<Entry>) {
    && (forall e :: e in fired <==> e in r0.timers && e.timer.Expired(r0.now))
    && (forall a, b :: 0 <= a < b < |fired| ==> Comes(fired[a], fired[b]))
  }

  /** The due entries have been served once, and the others are as they were. */
  predicate AllServed(r0: Runtime, r: Runtime) {
    && |r.timers| == |r0.timers| && r.now == r0.now
    && forall i :: 0 <= i < |r.timers| ==>
         if r0.timers[i].timer.Expired(r0.now) then ServedOnce(r0.timers[i], r.timers[i], r0.now)
         else r.timers[i] == r0.timers[i]
  }

  /** A turn whose callback does nothing only advances the timer. */
  function Quieted(r: Runtime, i: nat): Runtime
    requires i < |r.timers| && r.timers[i].timer.Expired(r.now)
  {
    r.(timers := r.timers[i := r.timers[i].(timer := Advanced(r.timers[i].timer, r.now))])
  }

  lemma QuietDispatch(r: Runtime, i: nat)
    requires Table(r, None) && i < |r.timers| && r.timers[i].timer.Expired(r.now)
    ensures Dispatched(r, i, []) == Some(Quieted(r, i))
  {
    var t := Taken(r, i);
    var key := r.timers[i].key;
    assert Find(t.timers, key) == Some(i) by {
      assert t.timers[i] in t.timers;
    }
    assert PutBack(t, i, r.timers[i].owns).timers == Quieted(r, i).timers;
  }

  lemma QuietStep(r0: Runtime, r: Runtime, fired: seq<Entry>, i: nat)
    requires Progress(r0, r, fired) && Table(r, None)
    requires Best(r.timers, r.now) == Some(i)
    ensures Progress(r0, Quieted(r, i), fired + [r.timers[i]])
  {
    var e := r.timers[i];
    var r' := Quieted(r, i);
    AdvancedIsNotExpired(e.timer, r.now);
    forall j | 0 <= j < |r'.timers| && r'.timers[j].timer.Expired(r.now)
      ensures j != i && Comes(e, r'.timers[j])
    {
      assert r.timers[j].Ready(r.now) && !r.timers[j].Precedes(e) && r.timers[j].order != e.order;
    }
    assert forall f :: f in fired + [e] <==> f in fired || f == e;
  }

  lemma QuietEnd(r0: Runtime, r: Runtime, fired: seq<Entry>)
    requires Progress(r0, r, fired)
    requires forall i :: 0 <= i < |r.timers| ==> !r.timers[i].timer.Expired(r.now)
    ensures InOrder(r0, fired) && AllServed(r0, r)
  {
    forall e | e in r0.timers && e.timer.Expired(r0.now)
      ensures e in fired
    {
      var i :| 0 <= i < |r0.timers| && r0.timers[i] == e;
    }
  }

  /** A quiet loop that has fired `fired` and then ends with `o`. */
  ghost predicate QuietResult(r0: Runtime, fired: seq<Entry>, o: Outcome) {
    !o.hung && InOrder(r0, fired + o.fired) && AllServed(r0, o.rt)
  }

  lemma QuietResultShifts(r0: Runtime, fired: seq<Entry>, e: Entry, o: Outcome)
    requires QuietResult(r0, fired + [e], o)
    ensures QuietResult(r0, fired, After([e], o))
  {
    AfterOneMore(fired, e, o);
  }

  lemma QuietTurn(r: Runtime, behaviour: nat -> seq<Op>, n: nat, i: nat)
    requires Table(r, None) && Best(r.timers, r.now) == Some(i) && behaviour(n) == []
    ensures var r' := Quieted(r, i);
            && Table(r', None) && Count(r'.timers, Due(r'.now)) < Count(r.timers, Due(r.now))
            && Loop(r, behaviour, n) == After([r.timers[i]], Loop(r', behaviour, n + 1))
  {
    LoopUnfolds(r, behaviour, n, i);
    QuietDispatch(r, i);
  }

  lemma {:induction false} QuietLoop(r0: Runtime, r: Runtime, fired: seq<Entry>, behaviour: nat -> seq<Op>, n: nat)
    requires Progress(r0, r, fired) && Table(r, None) && forall k :: behaviour(k) == []
    ensures QuietResult(r0, fired, Loop(r, behaviour, n))
    decreases Count(r.timers, Due(r.now))
  {
    match Best(r.timers, r.now)
    case None =>
      QuietEnd(r0, r, fired);
      assert fired + [] == fired;
    case Some(i) =>
      QuietTurn(r, behaviour, n, i);
      QuietStep(r0, r, fired, i);
      QuietLoop(r0, Quieted(r, i), fired + [r.timers[i]], behaviour, n + 1);
      QuietResultShifts(r0, fired, r.timers[i], Loop(Quieted(r, i), behaviour, n + 1));
  }

  /** Entry `x` is what a dispatch loop at `now` leaves of `e`: untouched if it was not due; else a one-shot timer is
      stopped and a periodic one armed where adding its period again and again first passes `now`. */
  predicate LeftBy(e: Entry, x: Entry, now: Duration)
    requires e.timer.period > 0
  {
    && x.key == e.key && x.order == e.order && x.held == e.held && x.owns == e.owns
    && x.timer.mode == e.timer.mode && x.timer.period == e.timer.period
    && x.timer.deadline == (
         if e.timer.deadline.None? || e.timer.deadline.value > now then e.timer.deadline
         else if e.timer.mode.OneShot? then None
         else
           var next := StepPast(e.timer.deadline.value, e.timer.period, now);
           if next <= DURATION_MAX then Some(next) else None)
  }

  /** Callbacks that leave timers alone never hang the loop; the timers that were due fire once each, in (deadline,
      creation order), and are stopped or armed anew; the others stay as they were. */
  lemma QuietLoopServesInOrder(r: Runtime, behaviour: nat -> seq<Op>)
    requires Table(r, None) && forall k :: behaviour(k) == []
    ensures var o := Loop(r, behaviour, 0);
            && !o.hung && InOrder(r, o.fired) && o.rt.now == r.now && |o.rt.timers| == |r.timers|
            && forall i :: 0 <= i < |r.timers| ==> LeftBy(r.timers[i], o.rt.timers[i], r.now)
  {
    var o := Loop(r, behaviour, 0);
    QuietLoop(r, r, [], behaviour, 0);
    assert [] + o.fired == o.fired;
    forall i | 0 <= i < |r.timers|
      ensures LeftBy(r.timers[i], o.rt.timers[i], r.now)
    {
      if r.timers[i].timer.Expired(r.now) { AdvanceStepsPast(r.timers[i].timer, r.now); }
    }
  }

  // ---------------------------------------------------------------------------
  // What the operations do, entry by entry
  // ---------------------------------------------------------------------------

  /** Starting or resetting arms the timer one period from now unless that overflows; stopping disarms it; a new period
      keeps the deadline.  Nothing else changes; an unknown key changes nothing. */
  lemma AlterationsAreExact(r: Runtime, op: Op, i: nat, inFlight: Option<Key>)
    requires Table(r, inFlight) && Alters(op)
    ensures (forall j :: 0 <= j < |r.timers| ==> r.timers[j].key != op.key) ==> Perform(r, op) == r
    ensures i < |r.timers| && r.timers[i].key == op.key ==>
              var r' := Perform(r, op);
              && r' == r.(timers := r'.timers) && |r'.timers| == |r.timers|
              && (forall j :: 0 <= j < |r.timers| && j != i ==> r'.timers[j] == r.timers[j])
              && var t, t' := r.timers[i].timer, r'.timers[i].timer;
                 && r'.timers[i] == r.timers[i].(timer := t') && t'.mode == t.mode
                 && t'.period == (if op.ChangePeriod? && op.period > 0 then op.period else t.period)
                 && t'.deadline == (
                      if op.Stop? then None
                      else if (op.Start? || op.Reset?) && r.now + t.period <= DURATION_MAX then Some(r.now + t.period)
                      else t.deadline)
  {
    var found := Find(r.timers, op.key);
    if i < |r.timers| && r.timers[i].key == op.key {
      assert r.timers[i] in r.timers;
      assert found == Some(i);
    }
  }

  /** A registration appends one stopped timer with the next key of this epoch and its callback. */
  lemma RegistrationAppends(r: Runtime, period: Duration, mode: Mode, owns: seq<Key>)
    requires period > 0
    ensures var r' := Perform(r, Register(period, mode, owns));
            && |r'.timers| == |r.timers| + 1 && r.timers <= r'.timers
            && r'.now == r.now && r'.epoch == r.epoch && r'.nextId == r.nextId + 1 && r'.nextOrder == r.nextOrder + 1
            && var e := r'.timers[|r.timers|];
               && e.key.epoch == r.epoch && e.key.id == r.nextId && e.order == r.nextOrder && e.held && e.owns == owns
               && e.timer.period == period && e.timer.mode == mode && e.timer.deadline.None?
  {
  }

  /** Resetting the clock restarts virtual time and the counters in a new epoch without timers. */
  lemma ResetRestarts(r: Runtime)
    ensures var r' := Perform(r, ResetClock);
            && r'.now == 0 && r'.timers == [] && r'.nextId == 1 && r'.nextOrder == 0
            && forall key :: Issued(r, key) ==> key.epoch != r'.epoch
  {
  }

  lemma {:induction false} WithoutIsExact(keys: seq<Key>, gone: seq<Key>, k: Key)
    ensures k in Without(keys, gone) <==> k in keys && k !in gone
  {
    if keys != [] {
      assert keys == [keys[0]] + keys[1..];
      WithoutIsExact(keys[1..], gone, k);
    }
  }

  /** The handles a running callback owns: those it keeps come in, and those it gives away, drops or lets a new
      callback capture go out. */
  lemma CarryIsExact(owns: seq<Key>, op: Op, k: Key)
    ensures k in Carry(owns, op) <==>
            || (op.Keep? && op.key == k)
            || (k in owns && !((op.Give? || op.Drop?) && op.key == k) && !(op.Register? && k in op.owns))
  {
    if op.Register? { WithoutIsExact(owns, op.owns, k); }
    if op.Give? || op.Drop? { WithoutIsExact(owns, [op.key], k); }
  }

  lemma SwapRemoveMembers(ts: seq<Entry>, i: nat, e: Entry)
    requires i < |ts| && forall j, k :: 0 <= j < k < |ts| ==> ts[j].key != ts[k].key
    ensures e in SwapRemove(ts, i) <==> e in ts && e.key != ts[i].key
  {
    var rest := SwapRemove(ts, i);
    if e in ts && e.key != ts[i].key {
      var j :| 0 <= j < |ts| && ts[j] == e;
      assert rest[if j == |ts| - 1 then i else j] == e;
    }
    if e in rest {
      var j :| 0 <= j < |rest| && rest[j] == e;
      assert e == ts[if j == i then |ts| - 1 else j];
    }
  }

  /** Dropping a timer's last handle removes that timer; keeping or giving away a handle changes no timer. */
  lemma DropRemoves(r: Runtime, key: Key, inFlight: Option<Key>, e: Entry)
    requires Table(r, inFlight)
    ensures e in Perform(r, Drop(key)).timers ==> e in r.timers && e.key != key
    ensures e in r.timers && e.key != key && (forall x :: x in r.timers ==> e.key !in x.owns) ==>
              e in Perform(r, Drop(key)).timers
    ensures Perform(r, Keep(key)) == r && Perform(r, Give(key)) == r
  {
    ReleaseIsExact(r, [key], inFlight, e);
  }

  /** A release removes every timer whose handle it drops, adds none, and spares a timer whose handle is neither dropped
      nor owned by any callback. */
  lemma {:induction false} ReleaseIsExact(r: Runtime, handles: seq<Key>, inFlight: Option<Key>, e: Entry)
    requires Table(r, inFlight)
    ensures var ts := Released(r.timers, handles);
            && (e in ts ==> e in r.timers && e.key !in handles)
            && (e in r.timers && e.key !in handles && (forall x :: x in r.timers ==> e.key !in x.owns) ==> e in ts)
    decreases |r.timers|, |handles|
  {
    if handles != [] {
      assert handles == [handles[0]] + handles[1..];
      match Find(r.timers, handles[0])
      case None => ReleaseIsExact(r, handles[1..], inFlight, e);
      case Some(i) =>
        var rest := r.(timers := SwapRemove(r.timers, i));
        RemoveKeepsTable(r, i, inFlight);
        SwapRemoveMembers(r.timers, i, e);
        forall x | x in rest.timers
          ensures x in r.timers
        {
          SwapRemoveMembers(r.timers, i, x);
        }
        assert r.timers[i] in r.timers;
        ReleaseIsExact(rest, (if r.timers[i].held then r.timers[i].owns else []) + handles[1..], inFlight, e);
    }
  }

  // ---------------------------------------------------------------------------
  // The object and its dispatch loop
  // ---------------------------------------------------------------------------

  class MockTimeRuntime {
    var now: Duration
    var epoch: nat
    var nextId: nat
    var nextOrder: nat
    var timers: seq<Entry>

    ghost function View(): Runtime
      reads this
    {
      Runtime(now, epoch, nextId, nextOrder, timers)
    }

    constructor ()
      ensures View() == Runtime(0, 1, 1, 0, []) && Table(View(), None)
    {
      now, epoch, nextId, nextOrder, timers := 0, 1, 1, 0, [];
    }

    method AdvanceTime(d: Duration)
      modifies this`now
      ensures now == if old(now) + d <= DURATION_MAX then old(now) + d else DURATION_MAX
      ensures View() == old(View()).(now := now)
    {
      now := SaturatingAdd(now, d);
    }

    method FindKey(key: Key) returns (index: Option<nat>)
      ensures index == Find(timers, key)
    {
      for i := 0 to |timers|
        invariant Find(timers[..i], key).None?
      {
        assert timers[..i + 1][..i] == timers[..i];
        if timers[i].key == key {
          FoundStays(timers, i + 1, key);
          return Some(i);
        }
      }
      assert timers[..|timers|] == timers;
      index := None;
    }

    /** `deregister_timer` for a handle, and for those that its callback releases in turn. */
    method Release(handles: seq<Key>)
      modifies this`timers
      ensures timers == Released(old(timers), handles)
    {
      var pending := handles;
      while pending != []
        invariant Released(timers, pending) == Released(old(timers), handles)
        decreases |timers|, |pending|
      {
        var found := FindKey(pending[0]);
        pending := pending[1..];
        if found.Some? {
          var e := timers[found.value];
          timers := timers[found.value := timers[|timers| - 1]][..|timers| - 1];
          if e.held { pending := e.owns + pending; } else { assert [] + pending == pending; }
        }
      }
    }

    /** `register_timer`, `start_timer`, `stop_timer`, `reset_timer`, `change_period`, the drop of a last
        handle, and the reset of the clock. */
    method Operate(op: Op)
      modifies this
      ensures View() == Perform(old(View()), op)
    {
      match op {
        case Register(period, mode, owns) =>
          if period == 0 {
            Release(owns);
          } else {
            timers := timers + [Entry(Key(epoch, nextId), Timer(mode, period, None), true, nextOrder, owns)];
            nextId := nextId + 1;
            nextOrder := nextOrder + 1;
          }
        case Drop(key) => Release([key]);
        case ResetClock => now, epoch, nextId, nextOrder, timers := 0, epoch + 1, 1, 0, [];
        case Keep(_) =>
        case Give(_) =>
        case Start(key) => AlterTimer(key, op);
        case Stop(key) => AlterTimer(key, op);
        case Reset(key) => AlterTimer(key, op);
        case ChangePeriod(key, _) => AlterTimer(key, op);
      }
    }

    method AlterTimer(key: Key, op: Op)
      requires Alters(op) && op.key == key
      modifies this`timers
      ensures View() == Perform(old(View()), op)
    {
      var found := FindKey(key);
      if found.Some? {
        var e := timers[found.value];
        timers := timers[found.value := e.(timer := Altered(e.timer, op, now))];
      }
    }

    /** The scan for the earliest due timer, whose callback is taken. */
    method TakeNextExpired() returns (taken: Option<Entry>)
      modifies this`timers
      ensures match Best(old(timers), now)
              case None => taken.None? && View() == old(View())
              case Some(i) => taken == Some(old(timers)[i]) && View() == Taken(old(View()), i)
    {
      var best: Option<nat> := None;
      for i := 0 to |timers|
        invariant best == Best(timers[..i], now)
      {
        assert timers[..i + 1][..i] == timers[..i];
        if timers[i].Ready(now) && (best.None? || timers[i].Precedes(timers[best.value])) { best := Some(i); }
      }
      assert timers[..|timers|] == timers;
      if best.None? { return None; }
      var e := timers[best.value];
      timers := timers[best.value := e.(timer := Advanced(e.timer, now), held := false, owns := [])];
      taken := Some(e);
    }

    /** `restore_callback` of a callback that owns the last handles `owns`; false if it never returns. */
    method RestoreCallback(key: Key, owns: seq<Key>) returns (returned: bool)
      modifies this`timers
      ensures returned <==> Restored(old(View()), key, owns).Some?
      ensures View() == if returned then Restored(old(View()), key, owns).value else old(View())
    {
      var found := FindKey(key);
      if found.Some? && !timers[found.value].held {
        timers := timers[found.value := timers[found.value].(held := true, owns := owns)];
        return true;
      }
      returned := owns == [];
    }

    /** A callback at work: what it does to the registry, and the last handles it is left with. */
    method RunCallback(ops: seq<Op>, owned: seq<Key>) returns (owns: seq<Key>)
      modifies this
      ensures View() == PerformAll(old(View()), ops) && owns == CarryAll(owned, ops)
    {
      owns := owned;
      for i := 0 to |ops|
        invariant View() == PerformAll(old(View()), ops[..i]) && owns == CarryAll(owned, ops[..i])
      {
        Operate(ops[i]);
        owns := Carry(owns, ops[i]);
        assert ops[..i + 1][..i] == ops[..i];
      }
      assert ops[..|ops|] == ops;
    }
  }

  lemma {:induction false} FoundStays(ts: seq<Entry>, n: nat, key: Key)
    requires n <= |ts| && Find(ts[..n], key).Some?
    ensures Find(ts, key) == Find(ts[..n], key)
    decreases |ts|
  {
    if n == |ts| {
      assert ts[..n] == ts;
    } else {
      var m := |ts| - 1;
      assert ts[..m][..n] == ts[..n];
      FoundStays(ts[..m], n, key);
    }
  }

  /** The loop of `advance_and_dispatch`. */
  method DispatchExpired(rt: MockTimeRuntime, behaviour: nat -> seq<Op>) returns (hung: bool, fired: seq<Entry>)
    requires Table(rt.View(), None)
    modifies rt
    ensures Outcome(hung, rt.View(), fired) == Loop(old(rt.View()), behaviour, 0)
  {
    fired := [];
    ghost var r0 := rt.View();
    while true
      invariant Table(rt.View(), None)
      invariant Loop(r0, behaviour, 0) == After(fired, Loop(rt.View(), behaviour, |fired|))
      decreases Count(rt.timers, Due(rt.now))
    {
      ghost var r := rt.View();
      var taken := rt.TakeNextExpired();
      if taken.None? {
        assert fired + [] == fired;
        return false, fired;
      }
      LoopUnfolds(r, behaviour, |fired|, Best(r.timers, r.now).value);
      var owns := rt.RunCallback(behaviour(|fired|), taken.value.owns);
      var returned := rt.RestoreCallback(taken.value.key, owns);
      if !returned { return true, fired + [taken.value]; }
      AfterOneMore(fired, taken.value, Loop(rt.View(), behaviour, |fired| + 1));
      fired := fired + [taken.value];
    }
  }

  /** Exactly the timers with a deadline at or before `now` fired, once each, by (deadline, creation order). */
  ghost predicate FiredDue(timers: seq<Entry>, now: Duration, fired: seq<Entry>) {
    && (forall e :: e in fired <==> e in timers && e.timer.deadline.Some? && e.timer.deadline.value <= now)
    && (forall a, b :: 0 <= a < b < |fired| ==>
          var d, d' := fired[a].timer.deadline, fired[b].timer.deadline;
          d.Some? && d'.Some? && (d.value < d'.value || (d.value == d'.value && fired[a].order < fired[b].order)))
  }

  lemma QuietLoopFiresDue(r: Runtime, behaviour: nat -> seq<Op>)
    requires Table(r, None) && forall k :: behaviour(k) == []
    ensures !Loop(r, behaviour, 0).hung && Loop(r, behaviour, 0).rt.now == r.now
    ensures FiredDue(r.timers, r.now, Loop(r, behaviour, 0).fired)
  {
    QuietLoopServesInOrder(r, behaviour);
    var fired := Loop(r, behaviour, 0).fired;
    forall a, b | 0 <= a < b < |fired|
      ensures var d, d' := fired[a].timer.deadline, fired[b].timer.deadline;
              d.Some? && d'.Some? && (d.value < d'.value || (d.value == d'.value && fired[a].order < fired[b].order))
    {
      assert Comes(fired[a], fired[b]);
    }
  }

  /** `advance_and_dispatch`.  Whatever the callbacks do, it runs at most as many of them as timers were due.  It
      hangs exactly if some callback ends without its own timer while it owns a timer's last handle; else it
      leaves none due and every callback restored.  Unless a callback resets the clock, it moves it by `d`, or to the
      end of time; and if callbacks leave timers alone, exactly the timers due by then fire. */
  method AdvanceAndDispatch(rt: MockTimeRuntime, d: Duration, behaviour: nat -> seq<Op>)
    returns (hung: bool, fired: seq<Entry>)
    requires Table(rt.View(), None)
    modifies rt
    ensures Table(Later(old(rt.View()), d), None)
    ensures Outcome(hung, rt.View(), fired) == Loop(Later(old(rt.View()), d), behaviour, 0)
    ensures hung <==> AnyOrphaned(IdealTurns(Later(old(rt.View()), d), behaviour, 0))
    ensures |fired| <= Count(old(rt.timers), Due(SaturatingAdd(old(rt.now), d)))
    ensures !hung ==> Table(rt.View(), None)
    ensures !hung ==> forall i :: 0 <= i < |rt.timers| ==> !rt.timers[i].timer.Expired(rt.now)
    ensures (forall n :: ResetClock !in behaviour(n)) ==>
              rt.now == if old(rt.now) + d <= DURATION_MAX then old(rt.now) + d else DURATION_MAX
    ensures (forall n :: behaviour(n) == []) ==> !hung && FiredDue(old(rt.timers), rt.now, fired)
  {
    rt.AdvanceTime(d);
    LoopHangsIffOrphaned(rt.View(), behaviour, 0);
    LoopIsComplete(rt.View(), behaviour, 0);
    if forall n :: behaviour(n) == [] { QuietLoopFiresDue(rt.View(), behaviour); }
    hung, fired := DispatchExpired(rt, behaviour);
  }
}
