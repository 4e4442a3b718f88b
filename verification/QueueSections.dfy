/**
 The queue object itself: a `ByteQueue`, four counters and two wake semaphores, updated in place.
 Each critical section is proved to do what the corresponding step of `QueueProtocol` does, so the
 theorems over runs of the protocol speak about this code.
 */
module QueueSections {
  import opened Errors
  import opened QueueProtocol
  import ByteQueues

  /** How a critical section ends for the task that ran it. */
  datatype Exit = Panic | Return(reply: Reply) | Block | Retry

  /** `exit` and the queue state `q'` are what the protocol's `out` prescribes. */
  ghost predicate Performs(out: Outcome, exit: Exit, q': Queue) {
    match out
    case Panics => exit.Panic?
    case Returns(q, reply) => exit == Return(reply) && q' == q
    case Registers(q) => exit.Block? && q' == q
  }

  ghost predicate Settles(out: Settled, exit: Exit, q': Queue) {
    match out
    case SettlePanics => exit.Panic?
    case Rechecks(q) => exit.Retry? && q' == q
    case GivesUp(q, reply) => exit == Return(reply) && q' == q
  }

  /** How a task without room or message ends its section: by its budget, or blocked as a new waiter. */
  predicate MayWait(budget: Budget, refusal: Option<Error>, exit: Exit, none: Error) {
    match budget
    case NoWait => exit == Return(Failed(none))
    case Zero => exit == Return(Failed(Timeout))
    case _ => if refusal.Some? then exit == Return(Failed(refusal.value)) else exit.Block? || exit.Panic?
  }

  /** `k` consecutive iterations of the broadcast, as protocol steps. */
  ghost function Posts(q: Queue, pc: Pc, k: nat): (Queue, Pc)
    requires pc.Posting?
  {
    if k == 0 then (q, pc)
    else
      var (q', pc') := Posts(q, pc, k - 1);
      if pc'.Posting? then PostSection(q', pc') else (q', pc')
  }

  function Missing(c: Channel): nat { if c.credits <= c.waiters then c.waiters - c.credits else 0 }

  /** The whole broadcast of `close`, as protocol steps without interference. */
  ghost function Broadcast(q: Queue): (Queue, Pc) {
    var (q', pc') := Posts(q, Posting(Sending, 0, true), Missing(q.senders) + 1);
    if pc'.Posting? then Posts(q', pc', Missing(q.receivers) + 1) else (q', pc')
  }

  lemma {:induction false} PanicIsFinal(q: Queue, pc: Pc, k: nat)
    requires pc.Posting? && k > 0 && q.Chan(pc.dir).waiters < q.Chan(pc.dir).credits
    ensures Posts(q, pc, k).1.Panicked?
  {
    if k > 1 { PanicIsFinal(q, pc, k - 1); }
  }

  class FreeRtosQueue {
    const buffer: ByteQueues.ByteQueue
    const wakeMax: nat
    var senderWaiters: nat
    var receiverWaiters: nat
    var senderCredits: nat
    var receiverCredits: nat
    /** Counts of the native wake semaphores. */
    var senderTokens: nat
    var receiverTokens: nat

    ghost predicate Valid()
      reads this, buffer
    {
      buffer.Valid()
    }

    ghost function View(): Queue
      reads this, buffer, buffer.storage
      requires Valid()
    {
      var fifo := buffer.View();
      Queue(fifo.msgs, fifo.capacity, fifo.closed, wakeMax,
            Channel(senderWaiters, senderCredits, senderTokens),
            Channel(receiverWaiters, receiverCredits, receiverTokens))
    }

    constructor (buffer: ByteQueues.ByteQueue, wakeMax: nat)
      requires buffer.Valid() && buffer.View().msgs == [] && !buffer.closed
      ensures Valid() && this.buffer == buffer
      ensures View() == Queue([], buffer.capacity, false, wakeMax, Channel(0, 0, 0), Channel(0, 0, 0))
    {
      this.buffer, this.wakeMax := buffer, wakeMax;
      senderWaiters, receiverWaiters := 0, 0;
      senderCredits, receiverCredits := 0, 0;
      senderTokens, receiverTokens := 0, 0;
    }

    method SignalOneReceiver() returns (ok: bool)
      requires Valid()
      modifies this`receiverTokens, this`receiverCredits
      ensures match SignalOne(old(View()).receivers, wakeMax)
              case None => !ok
              case Some(c) => ok && View() == old(View()).(receivers := c)
    {
      if receiverWaiters > receiverCredits {
        if receiverTokens >= wakeMax || receiverCredits >= U32_MAX { return false; }
        receiverTokens := receiverTokens + 1;
        receiverCredits := receiverCredits + 1;
      }
      ok := true;
    }

    method SignalOneSender() returns (ok: bool)
      requires Valid()
      modifies this`senderTokens, this`senderCredits
      ensures match SignalOne(old(View()).senders, wakeMax)
              case None => !ok
              case Some(c) => ok && View() == old(View()).(senders := c)
    {
      if senderWaiters > senderCredits {
        if senderTokens >= wakeMax || senderCredits >= U32_MAX { return false; }
        senderTokens := senderTokens + 1;
        senderCredits := senderCredits + 1;
      }
      ok := true;
    }

    /** The head of the `send` loop; `refusal` is the error of a failed `prepare_blocking`. */
    method SendHead(msg: Message, budget: Budget, refusal: Option<Error>) returns (exit: Exit)
      requires Valid() && |msg| == buffer.messageSize
      modifies this, buffer, buffer.storage
      ensures Valid()
      ensures Performs(SendSection(old(View()), msg, budget, refusal), exit, View())
      ensures var q := old(View());
              if q.closed then exit == Return(Failed(QueueClosed))
              else if |q.buf| < q.capacity then exit.Panic? || (exit == Return(Done) && View().buf == q.buf + [msg])
              else MayWait(budget, refusal, exit, QueueFull)
      ensures exit.Block? ==> senderWaiters == old(senderWaiters) + 1
      ensures exit.Panic? ==>
                old(senderWaiters >= U32_MAX || receiverTokens >= wakeMax || receiverCredits >= U32_MAX)
    {
      if buffer.closed { return Return(Failed(QueueClosed)); }
      var answer := buffer.TrySend(msg);
      if answer.Sent? {
        var ok := SignalOneReceiver();
        return if ok then Return(Done) else Panic;
      }
      match budget {
        case NoWait => return Return(Failed(QueueFull));
        case Zero => return Return(Failed(Timeout));
        case _ =>
          if refusal.Some? { return Return(Failed(refusal.value)); }
          if senderWaiters >= U32_MAX { return Panic; }
          senderWaiters := senderWaiters + 1;
          exit := Block;
      }
    }

    /** The head of the `recv` loop; on success `out` holds the message. */
    method RecvHead(out: array<bv8>, budget: Budget, refusal: Option<Error>) returns (exit: Exit)
      requires Valid() && out.Length == buffer.messageSize && out != buffer.storage
      modifies this, buffer, out
      ensures Valid()
      ensures Performs(RecvSection(old(View()), budget, refusal), exit, View())
      ensures var q := old(View());
              if q.buf != [] then exit.Panic? || (exit == Return(Got(q.buf[0])) && q.buf == [q.buf[0]] + View().buf)
              else if q.closed then exit == Return(Failed(QueueClosed))
              else MayWait(budget, refusal, exit, QueueEmpty)
      ensures exit.Block? ==> receiverWaiters == old(receiverWaiters) + 1
      ensures exit.Panic? ==>
                old(receiverWaiters >= U32_MAX || senderTokens >= wakeMax || senderCredits >= U32_MAX)
      ensures exit.Return? && exit.reply.Got? ==> out[..] == exit.reply.msg
      ensures !(exit.Return? && exit.reply.Got?) && !exit.Panic? ==> unchanged(out)
    {
      var answer := buffer.TryRecv(out);
      if answer.Received? {
        var ok := SignalOneSender();
        return if ok then Return(Got(answer.msg)) else Panic;
      }
      if buffer.closed { return Return(Failed(QueueClosed)); }
      match budget {
        case NoWait => return Return(Failed(QueueEmpty));
        case Zero => return Return(Failed(Timeout));
        case _ =>
          if refusal.Some? { return Return(Failed(refusal.value)); }
          if receiverWaiters >= U32_MAX { return Panic; }
          receiverWaiters := receiverWaiters + 1;
          exit := Block;
      }
    }

    /** After `send` re-acquired the mutex: `took` says whether its wait consumed a token. */
    method SettleSender(took: bool) returns (exit: Exit)
      requires Valid()
      modifies this`senderTokens, this`senderCredits, this`senderWaiters
      ensures Settles(if took then SettleTaken(old(View()), Sending)
                      else SettleTimeout(old(View()), Sending), exit, View())
    {
      var raced := !took && senderTokens > 0;
      if raced { senderTokens := senderTokens - 1; }
      if took || raced {
        if senderCredits == 0 || senderWaiters == 0 { return Panic; }
        senderCredits := senderCredits - 1;
        senderWaiters := senderWaiters - 1;
        return Retry;
      }
      if senderWaiters == 0 { return Panic; }
      senderWaiters := senderWaiters - 1;
      exit := Return(Failed(if buffer.closed then QueueClosed else Timeout));
    }

    /** After `recv` re-acquired the mutex. */
    method SettleReceiver(took: bool) returns (exit: Exit)
      requires Valid()
      modifies this`receiverTokens, this`receiverCredits, this`receiverWaiters
      ensures Settles(if took then SettleTaken(old(View()), Receiving)
                      else SettleTimeout(old(View()), Receiving), exit, View())
    {
      var raced := !took && receiverTokens > 0;
      if raced { receiverTokens := receiverTokens - 1; }
      if took || raced {
        if receiverCredits == 0 || receiverWaiters == 0 { return Panic; }
        receiverCredits := receiverCredits - 1;
        receiverWaiters := receiverWaiters - 1;
        return Retry;
      }
      if receiverWaiters == 0 { return Panic; }
      receiverWaiters := receiverWaiters - 1;
      exit := Return(Failed(if buffer.closed && buffer.len == 0 then QueueClosed else Timeout));
    }

    /** `broadcast_wake` towards the senders: the loop is the protocol's sequence of posts. */
    method BroadcastSenders() returns (allOk: bool)
      requires Valid() && senderCredits <= senderWaiters
      modifies this`senderTokens, this`senderCredits
      ensures (View(), Posting(Receiving, 0, allOk)) ==
              Posts(old(View()), Posting(Sending, 0, true), old(senderWaiters - senderCredits) + 1)
    {
      var missing := senderWaiters - senderCredits;
      allOk := true;
      for i := 0 to missing
        invariant senderCredits == old(senderCredits)
        invariant (View(), Posting(Sending, i, allOk)) ==
                  Posts(old(View()), Posting(Sending, 0, true), i)
      {
        if senderTokens < wakeMax { senderTokens := senderTokens + 1; } else { allOk := false; }
      }
      senderCredits := senderWaiters;
    }

    /** `broadcast_wake` towards the receivers, continuing with the senders' verdict. */
    method BroadcastReceivers(sendersOk: bool) returns (allOk: bool)
      requires Valid() && receiverCredits <= receiverWaiters
      modifies this`receiverTokens, this`receiverCredits
      ensures (View(), if allOk then Returned(None, Done) else Panicked) ==
              Posts(old(View()), Posting(Receiving, 0, sendersOk), old(receiverWaiters - receiverCredits) + 1)
    {
      var missing := receiverWaiters - receiverCredits;
      allOk := sendersOk;
      for i := 0 to missing
        invariant receiverCredits == old(receiverCredits)
        invariant (View(), Posting(Receiving, i, allOk)) ==
                  Posts(old(View()), Posting(Receiving, 0, sendersOk), i)
      {
        if receiverTokens < wakeMax { receiverTokens := receiverTokens + 1; } else { allOk := false; }
      }
      receiverCredits := receiverWaiters;
    }

    /** `close`: idempotent; otherwise mark the buffer closed and wake everybody. */
    method Close() returns (exit: Exit)
      requires Valid()
      modifies this, buffer
      ensures Valid()
      ensures old(View()).closed ==> exit == Return(Done) && View() == old(View())
      ensures !old(View()).closed ==>
                var (q, pc) := Broadcast(old(View()).(closed := true));
                if pc.Panicked? then exit.Panic? else exit == Return(Done) && View() == q
    {
      if buffer.closed { return Return(Done); }
      buffer.Close();
      ghost var q := View();
      if senderCredits > senderWaiters {
        PanicIsFinal(q, Posting(Sending, 0, true), Missing(q.senders) + 1);
        return Panic;
      }
      var sendersOk := BroadcastSenders();
      if receiverCredits > receiverWaiters {
        PanicIsFinal(View(), Posting(Receiving, 0, sendersOk), Missing(q.receivers) + 1);
        return Panic;
      }
      var allOk := BroadcastReceivers(sendersOk);
      exit := if allOk then Return(Done) else Panic;
    }
  }
}
