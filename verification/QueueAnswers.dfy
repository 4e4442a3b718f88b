/**
 What the queue answers: the effect of every step of `QueueProtocol`, over runs and in terms of the fields
 alone, and how a close comes to its end.
 */
module QueueAnswers {
  import opened Errors
  import opened Counting
  import opened QueueProtocol

  // ---------------------------------------------------------------------------
  // What each call is answered
  // ---------------------------------------------------------------------------

  /** One waiter without a credit is given one, with a token; nobody else is. */
  predicate OneWoken(c: Channel, c': Channel) {
    && c'.waiters == c.waiters
    && c'.credits == (if c.waiters > c.credits then c.credits + 1 else c.credits)
    && c'.tokens == (if c.waiters > c.credits then c.tokens + 1 else c.tokens)
  }

  predicate OneMoreWaiter(c: Channel, c': Channel) { c' == Channel(c.waiters + 1, c.credits, c.tokens) }

  /** What a task gets that finds no room, or no message: an error by its budget, or sleep as a waiter. */
  predicate Declined(pc: Pc, pc': Pc, refusal: Option<Error>, none: Error)
    requires pc.Checking?
  {
    if pc.budget.NoWait? then pc' == Returned(Some(pc.req), Failed(none))
    else if pc.budget.Zero? then pc' == Returned(Some(pc.req), Failed(Timeout))
    else if refusal.Some? then pc' == Returned(Some(pc.req), Failed(refusal.value))
    else pc' == Blocked(pc.req, pc.budget)
  }

  /** `send`: closed is closed; with room the message goes to the tail and one receiver is woken; on a full queue
      the budget decides, and a task that may wait becomes one more waiter and sleeps. */
  lemma SendIsAnswered(states: seq<State>, actions: seq<Action>, i: nat)
    requires Run(states, actions) && i < |actions| && actions[i].Enter?
    requires var pc := states[i].pcs[actions[i].t]; pc.Checking? && pc.req.Send?
    ensures var t, q, q' := actions[i].t, states[i].q, states[i + 1].q;
            var pc, pc' := states[i].pcs[t], states[i + 1].pcs[t];
            if q.closed then pc' == Returned(Some(pc.req), Failed(QueueClosed)) && q' == q
            else if |q.buf| < q.capacity then
              && pc' == Returned(Some(pc.req), Done) && q'.buf == q.buf + [pc.req.msg] && !q'.closed
              && OneWoken(q.receivers, q'.receivers) && q'.senders == q.senders
            else
              && Declined(pc, pc', actions[i].refusal, QueueFull)
              && q'.buf == q.buf && !q'.closed && q'.receivers == q.receivers
              && if pc'.Blocked? then OneMoreWaiter(q.senders, q'.senders) else q'.senders == q.senders
  {
    var t := actions[i].t;
    RunInv(states, actions, i);
    NoSectionPanics(states[i], t, Sending);
    NoSectionPanics(states[i], t, Receiving);
  }

  /** `recv`: a buffered message is taken from the head, closed or not, and one sender is woken; an empty queue
      answers closed, or declines by the budget. */
  lemma RecvIsAnswered(states: seq<State>, actions: seq<Action>, i: nat)
    requires Run(states, actions) && i < |actions| && actions[i].Enter?
    requires var pc := states[i].pcs[actions[i].t]; pc.Checking? && pc.req.Recv?
    ensures var t, q, q' := actions[i].t, states[i].q, states[i + 1].q;
            var pc, pc' := states[i].pcs[t], states[i + 1].pcs[t];
            if q.buf != [] then
              && pc' == Returned(Some(pc.req), Got(q.buf[0])) && q.buf == [q.buf[0]] + q'.buf
              && q'.closed == q.closed && OneWoken(q.senders, q'.senders) && q'.receivers == q.receivers
            else if q.closed then pc' == Returned(Some(pc.req), Failed(QueueClosed)) && q' == q
            else
              && Declined(pc, pc', actions[i].refusal, QueueEmpty)
              && q'.buf == q.buf && !q'.closed && q'.senders == q.senders
              && if pc'.Blocked? then OneMoreWaiter(q.receivers, q'.receivers) else q'.receivers == q.receivers
  {
    var t := actions[i].t;
    RunInv(states, actions, i);
    NoSectionPanics(states[i], t, Sending);
    NoSectionPanics(states[i], t, Receiving);
  }

  /** A taken token, or one found after the timeout, sends the task back to look at the queue, one waiter and one
      credit fewer; with none it unregisters and gives up. */
  predicate SettledAs(q: Queue, q': Queue, pc: Pc, pc': Pc)
    requires pc.Took? || pc.TimedOut?
  {
    var d := DirOf(pc.req);
    var c, c' := q.Chan(d), q'.Chan(d);
    && q'.buf == q.buf && q'.closed == q.closed && c.waiters == c'.waiters + 1
    && (if d.Sending? then q'.receivers == q.receivers else q'.senders == q.senders)
    && if pc.Took? || c.tokens > 0 then
         && pc' == Checking(pc.req, pc.budget, true)
         && c.credits == c'.credits + 1 && c.tokens == c'.tokens + B(pc.TimedOut?)
       else
         && c'.credits == c.credits && c'.tokens == c.tokens
         && pc' == Returned(Some(pc.req), Failed(if q.closed && (d.Sending? || q.buf == []) then QueueClosed
                                                 else Timeout))
  }

  lemma SettleSettles(q: Queue, pc: Pc)
    requires (pc.Took? || pc.TimedOut?) && !SettleSection(q, pc).1.Panicked?
    ensures SettledAs(q, SettleSection(q, pc).0, pc, SettleSection(q, pc).1)
  {
  }

  /** So ends every wait of every run. */
  lemma WaitIsSettled(states: seq<State>, actions: seq<Action>, i: nat)
    requires Run(states, actions) && i < |actions| && actions[i].Settle?
    ensures var t := actions[i].t;
            SettledAs(states[i].q, states[i + 1].q, states[i].pcs[t], states[i + 1].pcs[t])
  {
    RunInv(states, actions, i + 1);
    assert !states[i + 1].pcs[actions[i].t].Panicked?;
    SettleSettles(states[i].q, states[i].pcs[actions[i].t]);
  }

  /** Outside the mutex: a call starts, a blocked task takes a token, or its finite wait ends. */
  lemma UnlockedStepsAreLocal(states: seq<State>, actions: seq<Action>, i: nat)
    requires Run(states, actions) && i < |actions|
    requires actions[i].Call? || actions[i].CallClose? || actions[i].Take? || actions[i].Expire?
    ensures var a, s, s' := actions[i], states[i], states[i + 1];
            var pc, pc' := s.pcs[a.t], s'.pcs[a.t];
            && s'.pcs == s.pcs[a.t := pc'] && s'.holder == s.holder
            && (a.Call? ==> pc' == Checking(a.req, a.budget, false) && s'.q == s.q)
            && (a.CallClose? ==> pc' == Closing && s'.q == s.q)
            && (a.Expire? ==> pc' == TimedOut(pc.req, pc.budget) && s'.q == s.q)
            && (a.Take? ==>
                  && pc' == Took(pc.req, pc.budget) && s'.q.buf == s.q.buf && s'.q.closed == s.q.closed
                  && forall d ::
                       var c := s.q.Chan(d);
                       s'.q.Chan(d) == if d == DirOf(pc.req) then c.(tokens := c.tokens - 1) else c)
  {
  }

  /** An expired wait was finite, and a registered task may wait. */
  predicate BudgetOk(pc: Pc) {
    && (pc.TimedOut? ==> pc.budget.Finite?)
    && (pc.Blocked? || pc.Took? ==> pc.budget.Finite? || pc.budget.Forever?)
  }

  lemma BudgetStep(s: State, a: Action)
    requires Inv(s) && Enabled(s, a) && BudgetOk(s.pcs[a.t])
    ensures Next(s, a).pcs == s.pcs[a.t := Next(s, a).pcs[a.t]] && BudgetOk(Next(s, a).pcs[a.t])
  {
  }

  lemma {:induction false} BudgetsAreKept(states: seq<State>, actions: seq<Action>, i: nat, t: nat)
    requires Run(states, actions) && i < |states| && t < |states[i].pcs|
    ensures BudgetOk(states[i].pcs[t])
  {
    if i > 0 {
      var s, a := states[i - 1], actions[i - 1];
      RunInv(states, actions, i - 1);
      BudgetsAreKept(states, actions, i - 1, a.t);
      BudgetStep(s, a);
      BudgetsAreKept(states, actions, i - 1, t);
    }
  }

  /** A call that may wait forever ends with what it asked for, closed, or the error that forbids it to block:
      never with a timeout, a full or an empty queue. */
  lemma ForeverIsPatient(states: seq<State>, actions: seq<Action>, i: nat)
    requires Run(states, actions) && i < |actions|
    requires actions[i].Enter? || actions[i].Settle?
    requires var pc := states[i].pcs[actions[i].t]; !pc.Closing? && pc.budget.Forever?
    requires states[i + 1].pcs[actions[i].t].Returned?
    ensures var reply := states[i + 1].pcs[actions[i].t].reply;
            reply.Failed? ==>
              reply.error == QueueClosed || (actions[i].Enter? && actions[i].refusal == Some(reply.error))
  {
    BudgetsAreKept(states, actions, i, actions[i].t);
    if actions[i].Settle? {
      WaitIsSettled(states, actions, i);
    } else if states[i].pcs[actions[i].t].req.Send? {
      SendIsAnswered(states, actions, i);
    } else {
      RecvIsAnswered(states, actions, i);
    }
  }

  // ---------------------------------------------------------------------------
  // What close does
  // ---------------------------------------------------------------------------

  /** `close` closes an open queue and starts its broadcast; on a closed one it returns.  Either way, when the
      call returns, the close is committed. */
  lemma CloseTakesEffect(states: seq<State>, actions: seq<Action>, i: nat)
    requires Run(states, actions) && i < |actions|
    ensures var a, s, s' := actions[i], states[i], states[i + 1];
            && (a.Enter? && s.pcs[a.t].Closing? ==>
                  if s.q.closed then s'.pcs[a.t] == Returned(None, Done) && s'.q == s.q && s'.holder.None?
                  else
                    && s'.pcs[a.t] == Posting(Sending, 0, true)
                    && s'.q == s.q.(closed := true) && s'.holder == Some(a.t))
            && ((a.Enter? && s.pcs[a.t].Closing?) || a.Post? ==>
                  s'.pcs[a.t].Returned? ==> s'.pcs[a.t].reply.Done? && CloseCommitted(s'))
  {
    RunInv(states, actions, i);
    RunInv(states, actions, i + 1);
    if actions[i].Post? { PostInv(states[i], actions[i].t); }
  }

  /** The posts a broadcast at `pc` has ahead: one per waiter without a credit, and the end of each direction. */
  function PostsAhead(q: Queue, pc: Pc): int {
    match pc
    case Posting(Sending, posted, _) =>
      (q.senders.waiters - q.senders.credits - posted + 1) + (q.receivers.waiters - q.receivers.credits + 1)
    case Posting(Receiving, posted, _) => q.receivers.waiters - q.receivers.credits - posted + 1
    case _ => 0
  }

  function PostsLeft(s: State): int {
    if s.holder.Some? && s.holder.value < |s.pcs| then PostsAhead(s.q, s.pcs[s.holder.value]) else 0
  }

  lemma PostDescends(q: Queue, pc: Pc)
    requires pc.Posting? && q.senders.credits <= q.senders.waiters && q.receivers.credits <= q.receivers.waiters
    requires pc.posted <= q.Chan(pc.dir).waiters - q.Chan(pc.dir).credits
    requires !PostSection(q, pc).1.Panicked?
    ensures var (q', pc') := PostSection(q, pc);
            && 0 < PostsAhead(q, pc) && PostsAhead(q', pc') == PostsAhead(q, pc) - 1
            && (pc'.Returned? <==> PostsAhead(q', pc') == 0)
  {
  }

  /** A running broadcast can always go on ... */
  lemma BroadcastGoesOn(s: State)
    requires Inv(s) && s.holder.Some?
    ensures var pc := s.pcs[s.holder.value];
            && pc.Posting? && Enabled(s, Post(s.holder.value)) && 0 < PostsLeft(s)
            && s.q.senders.credits <= s.q.senders.waiters && s.q.receivers.credits <= s.q.receivers.waiters
            && pc.posted <= s.q.Chan(pc.dir).waiters - s.q.Chan(pc.dir).credits
  {
  }

  /** ... comes one post closer to its end with each, is held up by nobody, and ends with the close committed. */
  lemma BroadcastEnds(states: seq<State>, actions: seq<Action>, i: nat)
    requires Run(states, actions) && i < |actions| && states[i].holder.Some?
    ensures var s, s', a := states[i], states[i + 1], actions[i];
            && Enabled(s, Post(s.holder.value)) && 0 < PostsLeft(s)
            && PostsLeft(s') == PostsLeft(s) - B(a.Post?)
            && (s'.holder.None? <==> PostsLeft(s') == 0) && (s'.holder.None? ==> CloseCommitted(s'))
  {
    var s, a := states[i], actions[i];
    RunInv(states, actions, i);
    BroadcastGoesOn(s);
    if a.Post? {
      PostInv(s, a.t);
      PostDescends(s.q, s.pcs[a.t]);
    } else {
      OthersLeaveBroadcast(s, a);
    }
  }

  lemma OthersLeaveBroadcast(s: State, a: Action)
    requires Inv(s) && s.holder.Some? && Enabled(s, a) && !a.Post?
    ensures Next(s, a).holder == s.holder && PostsLeft(Next(s, a)) == PostsLeft(s)
  {
    assert s.pcs[s.holder.value].Posting?;
  }
}
