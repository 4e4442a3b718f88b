/**
 `ByteQueue`: a byte ring buffer of fixed-size messages with close-drain semantics,
 proved to be a bounded FIFO of messages.
 */
module ByteQueues {
  import opened Errors

  type Message = seq<bv8>

  // ---------------------------------------------------------------------------
  // What the buffer stands for
  // ---------------------------------------------------------------------------

  /** A bounded FIFO of messages of one size. */
  datatype Fifo = Fifo(msgs: seq<Message>, capacity: nat, size: nat, closed: bool)

  datatype Op = Send(msg: Message) | Recv(room: nat) | Close

  datatype Answer = Sent | Received(msg: Message) | Closed | Refused(error: Error)

  /** The FIFO after one operation, and the operation's answer. */
  function Apply(f: Fifo, op: Op): (Fifo, Answer) {
    match op
    case Send(m) =>
      if |m| != f.size then (f, Refused(InvalidMessageSize))
      else if f.closed then (f, Refused(QueueClosed))
      else if |f.msgs| == f.capacity then (f, Refused(QueueFull))
      else (f.(msgs := f.msgs + [m]), Sent)
    case Recv(room) =>
      if room != f.size then (f, Refused(InvalidMessageSize))
      else if f.msgs == [] then (f, Refused(if f.closed then QueueClosed else QueueEmpty))
      else (f.(msgs := f.msgs[1..]), Received(f.msgs[0]))
    case Close => (f.(closed := true), Closed)
  }

  /** When each operation succeeds, and which error it gets otherwise, the message size first. */
  lemma AnswersAreExact(f: Fifo, op: Op)
    ensures var (g, a) := Apply(f, op);
            match op
            case Send(m) =>
              && (a.Sent? <==> |m| == f.size && !f.closed && |f.msgs| != f.capacity)
              && (a.Sent? ==> g.msgs == f.msgs + [m] && g == f.(msgs := g.msgs))
              && (!a.Sent? ==> g == f && a == Refused(if |m| != f.size then InvalidMessageSize
                                                      else if f.closed then QueueClosed else QueueFull))
            case Recv(room) =>
              && (a.Received? <==> room == f.size && |f.msgs| > 0)
              && (a.Received? ==> f.msgs == [a.msg] + g.msgs && g == f.(msgs := g.msgs))
              && (!a.Received? ==> g == f && a == Refused(if room != f.size then InvalidMessageSize
                                                          else if f.closed then QueueClosed else QueueEmpty))
            case Close => a.Closed? && g.closed && g.msgs == f.msgs && g.capacity == f.capacity && g.size == f.size
  {
  }

  function Replayed(f: Fifo, ops: seq<Op>): (Fifo, seq<Answer>) {
    if ops == [] then (f, [])
    else
      var (g, answers) := Replayed(f, ops[..|ops| - 1]);
      var (h, a) := Apply(g, ops[|ops| - 1]);
      (h, answers + [a])
  }

  /** The messages that were accepted, and the messages that were delivered. */
  function Accepted(ops: seq<Op>, answers: seq<Answer>): seq<Message>
    requires |ops| == |answers|
  {
    if ops == [] then []
    else
      var n := |ops| - 1;
      Accepted(ops[..n], answers[..n]) + AcceptedBy(ops[n], answers[n])
  }

  function Delivered(answers: seq<Answer>): seq<Message> {
    if answers == [] then []
    else
      var n := |answers| - 1;
      Delivered(answers[..n]) + DeliveredBy(answers[n])
  }

  lemma {:induction false} ReplayBasics(f: Fifo, ops: seq<Op>)
    requires |f.msgs| <= f.capacity
    ensures var (g, answers) := Replayed(f, ops);
            && |answers| == |ops|
            && |g.msgs| <= g.capacity == f.capacity
            && (f.closed ==> g.closed)
  {
    if ops != [] { ReplayBasics(f, ops[..|ops| - 1]); }
  }

  function AcceptedBy(op: Op, a: Answer): seq<Message> { if op.Send? && a.Sent? then [op.msg] else [] }

  function DeliveredBy(a: Answer): seq<Message> { if a.Received? then [a.msg] else [] }

  /** One operation keeps the balance of what went in and what came out. */
  lemma ApplyConserves(start: seq<Message>, accepted: seq<Message>, delivered: seq<Message>, g: Fifo, op: Op)
    requires start + accepted == delivered + g.msgs
    ensures var (h, a) := Apply(g, op);
            start + (accepted + AcceptedBy(op, a)) == (delivered + DeliveredBy(a)) + h.msgs
  {
    var (h, a) := Apply(g, op);
    assert accepted + [] == accepted && delivered + [] == delivered;
    if a.Sent? {
      assert start + (accepted + [op.msg]) == (start + accepted) + [op.msg];
    } else if a.Received? {
      assert g.msgs == [a.msg] + h.msgs;
    }
  }

  /** Conservation: what went in is what came out followed by what is left. */
  lemma {:induction false} FifoConserves(f: Fifo, ops: seq<Op>)
    requires |f.msgs| <= f.capacity
    ensures |Replayed(f, ops).1| == |ops|
    ensures var (g, answers) := Replayed(f, ops);
            f.msgs + Accepted(ops, answers) == Delivered(answers) + g.msgs
  {
    ReplayBasics(f, ops);
    if ops != [] {
      var n := |ops| - 1;
      FifoConserves(f, ops[..n]);
      var (g, answers) := Replayed(f, ops[..n]);
      assert Replayed(f, ops).1[..n] == answers;
      ApplyConserves(f.msgs, Accepted(ops[..n], answers), Delivered(answers), g, ops[n]);
    }
  }

  /** Nothing is accepted by a closed queue, whatever follows, so what it delivers is what it held, in order. */
  lemma {:induction false} ClosedAcceptsNothing(f: Fifo, ops: seq<Op>)
    requires f.closed && |f.msgs| <= f.capacity
    ensures |Replayed(f, ops).1| == |ops|
    ensures Accepted(ops, Replayed(f, ops).1) == []
    ensures Delivered(Replayed(f, ops).1) <= f.msgs
  {
    ReplayBasics(f, ops);
    if ops != [] {
      var n := |ops| - 1;
      ReplayBasics(f, ops[..n]);
      ClosedAcceptsNothing(f, ops[..n]);
      var (g, answers) := Replayed(f, ops[..n]);
      assert Replayed(f, ops).1[..n] == answers;
    }
    FifoConserves(f, ops);
    assert f.msgs + [] == f.msgs;
  }

  // ---------------------------------------------------------------------------
  // Ring arithmetic
  // ---------------------------------------------------------------------------

  /** The cell `i` places after `head`. */
  function Slot(head: nat, i: nat, cap: nat): (slot: nat)
    requires cap > 0
    ensures slot < cap
    ensures head < cap && i <= cap ==> slot == if head + i < cap then head + i else head + i - cap
  {
    Wraps(head + i, cap);
    (head + i) % cap
  }

  lemma Wraps(x: nat, cap: nat)
    requires cap > 0
    ensures x < 2 * cap ==> x % cap == if x < cap then x else x - cap
  {
    if cap <= x < 2 * cap {
      assert x == cap * 1 + (x - cap);
      assert x % cap == (x - cap) % cap;
    }
  }

  lemma CellFits(slot: nat, cap: nat, size: nat)
    requires slot < cap
    ensures slot * size + size <= cap * size
  {
    assert (slot + 1) * size <= cap * size;
  }

  /** Two different cells do not share a byte. */
  lemma CellsApart(a: nat, b: nat, size: nat)
    requires a != b
    ensures a * size + size <= b * size || b * size + size <= a * size
  {
    if a < b { CellFits(a, b, size); } else { CellFits(b, a, size); }
  }

  /** The bytes of one message cell. */
  function Cell(bytes: seq<bv8>, cap: nat, size: nat, slot: nat): Message
    requires |bytes| == cap * size && slot < cap
  {
    CellFits(slot, cap, size);
    bytes[slot * size..slot * size + size]
  }

  /** The messages of a ring of `len` cells that starts at `head`. */
  function Window(bytes: seq<bv8>, cap: nat, size: nat, head: nat, len: nat): (w: seq<Message>)
    requires |bytes| == cap * size && cap > 0
    ensures |w| == len
  {
    seq(len, i requires 0 <= i < len => Cell(bytes, cap, size, Slot(head, i, cap)))
  }

  /** Writing the cell after the last one appends a message. */
  lemma WindowAppends(old_: seq<bv8>, new_: seq<bv8>, cap: nat, size: nat, head: nat, len: nat, m: Message)
    requires |old_| == |new_| == cap * size && head < cap && len < cap
    requires Cell(new_, cap, size, Slot(head, len, cap)) == m
    requires forall slot: nat :: slot < cap && slot != Slot(head, len, cap) ==>
               Cell(new_, cap, size, slot) == Cell(old_, cap, size, slot)
    ensures Window(new_, cap, size, head, len + 1) == Window(old_, cap, size, head, len) + [m]
  {
    var w, w' := Window(old_, cap, size, head, len), Window(new_, cap, size, head, len + 1);
    forall i: nat | i < len
      ensures w'[i] == w[i]
    {
      assert Slot(head, i, cap) != Slot(head, len, cap);
    }
  }

  /** Moving the head on drops the first message. */
  lemma WindowDrops(bytes: seq<bv8>, cap: nat, size: nat, head: nat, len: nat)
    requires |bytes| == cap * size && head < cap && 0 < len <= cap
    ensures Window(bytes, cap, size, Slot(head, 1, cap), len - 1) == Window(bytes, cap, size, head, len)[1..]
    ensures Window(bytes, cap, size, head, len)[0] == Cell(bytes, cap, size, head)
    ensures Slot(Slot(head, 1, cap), len - 1, cap) == Slot(head, len, cap)
  {
    var w, w' := Window(bytes, cap, size, head, len), Window(bytes, cap, size, Slot(head, 1, cap), len - 1);
    forall i: nat | i < len - 1
      ensures w'[i] == w[i + 1]
    {
      assert Slot(Slot(head, 1, cap), i, cap) == Slot(head, i + 1, cap);
    }
  }

  /** Writing one cell leaves the others alone. */
  lemma OneCellWritten(old_: seq<bv8>, new_: seq<bv8>, cap: nat, size: nat, target: nat, m: Message)
    requires |old_| == |new_| == cap * size && target < cap && |m| == size
    requires target * size + size <= cap * size
    requires forall k :: 0 <= k < cap * size ==>
               new_[k] == if target * size <= k < target * size + size then m[k - target * size] else old_[k]
    ensures Cell(new_, cap, size, target) == m
    ensures forall slot: nat :: slot < cap && slot != target ==>
               Cell(new_, cap, size, slot) == Cell(old_, cap, size, slot)
  {
    forall slot: nat | slot < cap && slot != target
      ensures Cell(new_, cap, size, slot) == Cell(old_, cap, size, slot)
    {
      CellsApart(slot, target, size);
      CellFits(slot, cap, size);
    }
  }

  // ---------------------------------------------------------------------------
  // The ring buffer
  // ---------------------------------------------------------------------------

  class ByteQueue {
    const storage: array<bv8>
    const capacity: nat
    const messageSize: nat
    var head: nat
    var tail: nat
    var len: nat
    var closed: bool

    ghost predicate Valid()
      reads this
    {
      && capacity > 0 && messageSize > 0
      && storage.Length == capacity * messageSize
      && head < capacity && len <= capacity
      && tail == Slot(head, len, capacity)
    }

    /** The FIFO this buffer stands for. */
    ghost function View(): Fifo
      reads this, storage
      requires Valid()
    {
      Fifo(Window(storage[..], capacity, messageSize, head, len), capacity, messageSize, closed)
    }

    constructor (capacity: nat, messageSize: nat)
      requires capacity > 0 && messageSize > 0
      ensures Valid() && fresh(storage)
      ensures View() == Fifo([], capacity, messageSize, false)
    {
      this.capacity, this.messageSize := capacity, messageSize;
      storage := new bv8[capacity * messageSize](_ => 0);
      head, tail, len, closed := 0, 0, 0, false;
    }

    method TrySend(message: seq<bv8>) returns (answer: Answer)
      requires Valid()
      modifies this, storage
      ensures Valid()
      ensures (View(), answer) == Apply(old(View()), Send(message))
      ensures answer.Refused? ==> unchanged(this) && unchanged(storage)
    {
      if |message| != messageSize { return Refused(InvalidMessageSize); }
      if closed { return Refused(QueueClosed); }
      if len == capacity { return Refused(QueueFull); }
      var offset := tail * messageSize;
      CellFits(tail, capacity, messageSize);
      ghost var before := storage[..];
      forall k | 0 <= k < messageSize {
        storage[offset + k] := message[k];
      }
      OneCellWritten(before, storage[..], capacity, messageSize, tail, message);
      WindowAppends(before, storage[..], capacity, messageSize, head, len, message);
      Wraps(tail + 1, capacity);
      tail := (tail + 1) % capacity;
      len := len + 1;
      answer := Sent;
    }

    /** `out` receives the message bytes; it is untouched by a refusal. */
    method TryRecv(out: array<bv8>) returns (answer: Answer)
      requires Valid() && out != storage
      modifies this, out
      ensures Valid()
      ensures (View(), answer) == Apply(old(View()), Recv(out.Length))
      ensures answer.Received? ==> out[..] == answer.msg
      ensures answer.Refused? ==> unchanged(this) && unchanged(out)
    {
      if out.Length != messageSize { return Refused(InvalidMessageSize); }
      if len == 0 { return Refused(if closed then QueueClosed else QueueEmpty); }
      var offset := head * messageSize;
      CellFits(head, capacity, messageSize);
      WindowDrops(storage[..], capacity, messageSize, head, len);
      ghost var bytes := storage[..];
      forall k | 0 <= k < messageSize {
        out[k] := storage[offset + k];
      }
      assert storage[..] == bytes;
      assert out[..] == Cell(storage[..], capacity, messageSize, head);
      assert (head + 1) % capacity == Slot(head, 1, capacity);
      head := (head + 1) % capacity;
      len := len - 1;
      answer := Received(out[..]);
    }

    method Close()
      requires Valid()
      modifies this`closed
      ensures Valid()
      ensures View() == old(View()).(closed := true)
    {
      closed := true;
    }
  }

  /** `ByteQueue::new`.  `maxSize` is the largest `usize`; `reserved` says whether memory was found. */
  method NewByteQueue(capacity: nat, messageSize: nat, maxSize: nat, reserved: bool)
    returns (r: Result<ByteQueue>)
    ensures r.Err? && r.error == InvalidParameter <==> capacity == 0 || messageSize == 0
    ensures r.Err? && r.error == Overflow <==>
              capacity > 0 && messageSize > 0 && capacity * messageSize > maxSize
    ensures r.Ok? <==> capacity > 0 && messageSize > 0 && capacity * messageSize <= maxSize && reserved
    ensures r.Ok? ==> fresh(r.value) && fresh(r.value.storage) && r.value.Valid()
    ensures r.Ok? ==> r.value.View() == Fifo([], capacity, messageSize, false)
  {
    if capacity == 0 || messageSize == 0 { return Err(InvalidParameter); }
    if capacity * messageSize > maxSize { return Err(Overflow); }
    if !reserved { return Err(OutOfMemory); }
    var q := new ByteQueue(capacity, messageSize);
    r := Ok(q);
  }

  /** Refinement for every sequence of operations: the ring buffer answers as the FIFO does and ends
      up standing for the same messages. */
  method Replay(q: ByteQueue, ops: seq<Op>) returns (answers: seq<Answer>)
    requires q.Valid()
    modifies q, q.storage
    ensures q.Valid()
    ensures (q.View(), answers) == Replayed(old(q.View()), ops)
  {
    answers := [];
    for i := 0 to |ops|
      invariant q.Valid()
      invariant (q.View(), answers) == Replayed(old(q.View()), ops[..i])
    {
      var answer;
      match ops[i] {
        case Send(m) => answer := q.TrySend(m);
        case Recv(room) =>
          var out := new bv8[room];
          answer := q.TryRecv(out);
        case Close => q.Close(); answer := Closed;
      }
      answers := answers + [answer];
      assert ops[..i + 1][..i] == ops[..i];
    }
    assert ops[..|ops|] == ops;
  }
}
