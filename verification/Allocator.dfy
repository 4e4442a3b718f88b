/**
 The global allocator on top of the FreeRTOS heap: it over-allocates, aligns the user pointer inside the
 raw block, and keeps the raw address in a header right below the user pointer, where `dealloc` finds it.
 */
module Allocator {
  import opened Bits

  type Byte = b: nat | b < 256

  /** Size and alignment of a request; an alignment is a power of two. */
  datatype Layout = Layout(size: nat, alignExp: nat) {
    function Align(): nat { Pow2(alignExp) }
  }

  /** A pointer has 2^`wordExp` bytes, which is also the header's size and alignment. */
  function Word(wordExp: nat): nat { Pow2(wordExp) }

  function Space(wordExp: nat): nat { Pow2(8 * Word(wordExp)) }

  // ---------------------------------------------------------------------------
  // Memory
  // ---------------------------------------------------------------------------

  type Memory = map<nat, Byte>

  function Load(m: Memory, at: nat): Byte { if at in m then m[at] else 0 }

  /** The `n`-byte little-endian word at an address. */
  function LoadWord(m: Memory, at: nat, n: nat): nat
    decreases n
  {
    if n == 0 then 0 else Load(m, at) + 256 * LoadWord(m, at + 1, n - 1)
  }

  function StoreWord(m: Memory, at: nat, n: nat, v: nat): Memory
    decreases n
  {
    if n == 0 then m else StoreWord(m, at + 1, n - 1, v / 256)[at := v % 256]
  }

  lemma {:induction false} StoreIsLocal(m: Memory, at: nat, n: nat, v: nat, a: nat)
    requires a < at || a >= at + n
    ensures Load(StoreWord(m, at, n, v), a) == Load(m, a)
    decreases n
  {
    if n > 0 { StoreIsLocal(m, at + 1, n - 1, v / 256, a); }
  }

  /** A word depends on its own bytes only. */
  lemma {:induction false} LoadFrame(m: Memory, m': Memory, at: nat, n: nat)
    requires forall a :: at <= a < at + n ==> Load(m, a) == Load(m', a)
    ensures LoadWord(m, at, n) == LoadWord(m', at, n)
    decreases n
  {
    if n > 0 { LoadFrame(m, m', at + 1, n - 1); }
  }

  /** What is stored is read back, if it fits the word. */
  lemma {:induction false} LoadStored(m: Memory, at: nat, n: nat, v: nat)
    requires v < Pow2(8 * n)
    ensures LoadWord(StoreWord(m, at, n, v), at, n) == v
    decreases n
  {
    if n > 0 {
      var rest := StoreWord(m, at + 1, n - 1, v / 256);
      ByteMore(n - 1);
      LoadStored(m, at + 1, n - 1, v / 256);
      LoadFrame(rest[at := v % 256], rest, at + 1, n - 1);
    }
  }

  lemma ByteMore(n: nat)
    ensures Pow2(8 * (n + 1)) == 256 * Pow2(8 * n)
  {
    var k := 8 * n;
    assert Pow2(k + 2) == 4 * Pow2(k);
    assert Pow2(k + 4) == 16 * Pow2(k);
    assert Pow2(k + 6) == 64 * Pow2(k);
  }

  // ---------------------------------------------------------------------------
  // Address arithmetic
  // ---------------------------------------------------------------------------

  function EffectiveExp(l: Layout, wordExp: nat): nat {
    if l.alignExp > wordExp then l.alignExp else wordExp
  }

  /** Header, payload and the worst padding. */
  function Total(l: Layout, wordExp: nat): nat {
    l.size + Word(wordExp) + (Pow2(EffectiveExp(l, wordExp)) - 1)
  }

  /** Distance to the next multiple of `align`. */
  function AlignOffset(address: nat, align: nat): nat
    requires align > 0
  {
    (align - address % align) % align
  }

  function UserOf(raw: nat, l: Layout, wordExp: nat): nat {
    raw + Word(wordExp) + AlignOffset(raw + Word(wordExp), Pow2(EffectiveExp(l, wordExp)))
  }

  /** `a` is `n` added up some number of times. */
  predicate Multiple(a: nat, n: nat) { a == 0 || (0 < n <= a && Multiple(a - n, n)) }

  lemma {:induction false} MultipleIsModulo(a: nat, n: nat)
    requires n > 0
    ensures Multiple(a, n) <==> a % n == 0
  {
    if 0 < a < n {
      RemainderIs(a, 0, a, n);
    } else if a >= n {
      MultipleIsModulo(a - n, n);
      var q, r := (a - n) / n, (a - n) % n;
      assert a - n == q * n + r;
      RemainderIs(a, q + 1, r, n);
    }
  }

  lemma ProductMono(a: nat, b: nat, n: nat)
    requires a <= b
    ensures a * n <= b * n
  {
  }

  /** A remainder is determined by any quotient that leaves less than the divisor. */
  lemma RemainderIs(a: nat, q: nat, r: nat, n: nat)
    requires r < n && a == q * n + r
    ensures a % n == r
  {
    var p := a / n;
    assert a == p * n + a % n;
    if q < p { ProductMono(q + 1, p, n); }
    if p < q { ProductMono(p + 1, q, n); }
  }

  lemma AlignOffsetAligns(address: nat, align: nat)
    requires align > 0
    ensures AlignOffset(address, align) < align
    ensures (address + AlignOffset(address, align)) % align == 0
  {
    var q, r := address / align, address % align;
    assert address == q * align + r;
    if r == 0 {
      RemainderIs(align, 1, 0, align);
    } else {
      RemainderIs(align - r, 0, align - r, align);
      RemainderIs(address + (align - r), q + 1, 0, align);
    }
  }

  /** No multiple is passed over. */
  lemma AlignOffsetIsLeast(address: nat, align: nat, a: nat)
    requires align > 0 && address <= a < address + AlignOffset(address, align)
    ensures a % align != 0
  {
    AlignOffsetAligns(address, align);
    var q, r := address / align, address % align;
    assert address == q * align + r;
    if r == 0 {
      RemainderIs(align, 1, 0, align);
    } else {
      RemainderIs(align - r, 0, align - r, align);
      RemainderIs(a, q, r + (a - address), align);
    }
  }

  lemma OneLess(address: nat, n: nat)
    requires n > 0 && address >= n && address % n == 0
    ensures (address - n) % n == 0
  {
    var q := address / n;
    assert address == q * n;
    if q == 0 { assert false; }
    RemainderIs(address - n, q - 1, 0, n);
  }

  /** A multiple of a power of two is a multiple of the smaller ones. */
  lemma {:induction false} CoarserAligned(address: nat, small: nat, large: nat)
    requires small <= large && address % Pow2(large) == 0
    ensures address % Pow2(small) == 0
    decreases large
  {
    if small < large {
      var p, q := Pow2(large - 1), address / Pow2(large);
      assert address == q * (2 * p) == (2 * q) * p;
      RemainderIs(address, 2 * q, 0, p);
      CoarserAligned(address, small, large - 1);
    }
  }

  // ---------------------------------------------------------------------------
  // The state machine
  // ---------------------------------------------------------------------------

  /** A live allocation: its raw block and what was asked for. */
  datatype Block = Block(raw: nat, total: nat, layout: Layout)

  /** The bytes, the native heap's outstanding blocks by base and length, and the user pointers that
      were handed out and not yet released. */
  datatype State = State(wordExp: nat, mem: Memory, heap: map<nat, nat>, live: map<nat, Block>)

  datatype Action =
    | Alloc(layout: Layout, raw: nat)
    | Dealloc(pointer: nat)
    | Store(address: nat, value: Byte)

  predicate Apart(a: nat, n: nat, b: nat, m: nat) { a + n <= b || b + m <= a }

  /** What the native heap promises of a block it hands out. */
  predicate Fresh(s: State, raw: nat, total: nat) {
    && 0 < raw && raw + total <= Space(s.wordExp)
    && forall r :: r in s.heap ==> Apart(raw, total, r, s.heap[r])
  }

  /** A byte of a live user block, or of no live raw block: header and padding belong to the allocator. */
  predicate Writable(s: State, address: nat) {
    forall u :: u in s.live ==>
      var b := s.live[u];
      u <= address < u + b.layout.size || address < b.raw || address >= b.raw + b.total
  }

  /** Whether `alloc` asks the native heap at all. */
  predicate Asks(s: State, l: Layout) { l.size > 0 && Total(l, s.wordExp) < Space(s.wordExp) }

  /** `raw` is the native heap's answer, 0 for null.  Callers release what they were given, or null; users
      write inside their blocks, and anything else outside the raw blocks. */
  predicate Enabled(s: State, a: Action) {
    match a
    case Alloc(l, raw) => raw == 0 || !Asks(s, l) || Fresh(s, raw, Total(l, s.wordExp))
    case Dealloc(p) => p == 0 || p in s.live
    case Store(address, _) => Writable(s, address)
  }

  /** A raw block taken from the native heap, its header written below the user pointer. */
  function Inserted(s: State, user: nat, b: Block): State
    requires user >= Word(s.wordExp)
  {
    s.(mem := StoreWord(s.mem, user - Word(s.wordExp), Word(s.wordExp), b.raw),
       heap := s.heap[b.raw := b.total],
       live := s.live[user := b])
  }

  /** A raw block given back to the native heap. */
  function Removed(s: State, user: nat, raw: nat): State {
    s.(heap := s.heap - {raw}, live := s.live - {user})
  }

  function Allocated(s: State, l: Layout, raw: nat): (State, nat) {
    if !Asks(s, l) || raw == 0 then (s, 0)
    else
      var user := UserOf(raw, l, s.wordExp);
      (Inserted(s, user, Block(raw, Total(l, s.wordExp), l)), user)
  }

  /** The base address that `dealloc` reads from the header. */
  function RawOf(s: State, pointer: nat): nat
    requires pointer >= Word(s.wordExp)
  {
    LoadWord(s.mem, pointer - Word(s.wordExp), Word(s.wordExp))
  }

  /** `dealloc`: what it hands back to the native heap is whatever the header says. */
  function Deallocated(s: State, pointer: nat): State {
    if pointer < Word(s.wordExp) then s else Removed(s, pointer, RawOf(s, pointer))
  }

  function Stored(s: State, at: nat, value: Byte): State { s.(mem := s.mem[at := value]) }

  function Next(s: State, a: Action): State {
    match a
    case Alloc(l, raw) => Allocated(s, l, raw).0
    case Dealloc(p) => Deallocated(s, p)
    case Store(address, value) => Stored(s, address, value)
  }

  predicate Init(s: State) { s.heap == map[] && s.live == map[] }

  predicate Run(states: seq<State>, actions: seq<Action>) {
    && |states| == |actions| + 1
    && Init(states[0])
    && forall i :: 0 <= i < |actions| ==>
      Enabled(states[i], actions[i]) && states[i + 1] == Next(states[i], actions[i])
  }

  // ---------------------------------------------------------------------------
  // The invariant
  // ---------------------------------------------------------------------------

  /** The user block lies with its header inside its raw block. */
  predicate Placed(user: nat, b: Block, word: nat) {
    b.raw > 0 && b.raw + word <= user && user + b.layout.size <= b.raw + b.total
  }

  /** User pointer and header are aligned as their types demand. */
  predicate Aligned(user: nat, b: Block, wordExp: nat) {
    && Multiple(user, b.layout.Align())
    && user >= Word(wordExp) && Multiple(user - Word(wordExp), Word(wordExp))
  }

  predicate Places(live: map<nat, Block>, w: nat) {
    forall u :: u in live ==> Placed(u, live[u], w)
  }

  predicate Alignments(live: map<nat, Block>, wordExp: nat) {
    forall u :: u in live ==> Aligned(u, live[u], wordExp)
  }

  /** Raw blocks do not overlap. */
  predicate Disjoint(heap: map<nat, nat>) {
    && (forall r :: r in heap ==> heap[r] > 0)
    && (forall r, t :: r in heap && t in heap && r != t ==> Apart(r, heap[r], t, heap[t]))
  }

  /** Every live pointer has a raw block of its own. */
  predicate Backed(live: map<nat, Block>, heap: map<nat, nat>) {
    && (forall u :: u in live ==> live[u].raw in heap && heap[live[u].raw] == live[u].total)
    && (forall u, v :: u in live && v in live && live[u].raw == live[v].raw ==> u == v)
  }

  /** Every raw block belongs to a live pointer: nothing leaks. */
  ghost predicate Owned(live: map<nat, Block>, heap: map<nat, nat>) {
    forall r :: r in heap ==> exists u :: u in live && live[u].raw == r
  }

  /** The header below every live pointer holds the base of its raw block. */
  predicate Headers(live: map<nat, Block>, mem: Memory, w: nat) {
    forall u :: u in live && u >= w ==> LoadWord(mem, u - w, w) == live[u].raw
  }

  predicate Core(s: State) {
    && Places(s.live, Word(s.wordExp)) && Disjoint(s.heap) && Backed(s.live, s.heap)
    && Headers(s.live, s.mem, Word(s.wordExp))
  }

  ghost predicate Inv(s: State) {
    Core(s) && Alignments(s.live, s.wordExp) && Owned(s.live, s.heap)
  }

  lemma UserIsPlaced(raw: nat, l: Layout, wordExp: nat)
    requires raw > 0
    ensures var b := Block(raw, Total(l, wordExp), l);
            Placed(UserOf(raw, l, wordExp), b, Word(wordExp)) && Aligned(UserOf(raw, l, wordExp), b, wordExp)
  {
    var w, e := Word(wordExp), EffectiveExp(l, wordExp);
    var user := UserOf(raw, l, wordExp);
    AlignOffsetAligns(raw + w, Pow2(e));
    CoarserAligned(user, l.alignExp, e);
    CoarserAligned(user, wordExp, e);
    OneLess(user, w);
    MultipleIsModulo(user, l.Align());
    MultipleIsModulo(user - w, w);
  }

  /** Bytes that change outside every header leave the headers readable. */
  lemma HeadersFrame(live: map<nat, Block>, m: Memory, m': Memory, w: nat)
    requires Headers(live, m, w)
    requires forall u, a: nat :: u in live && u - w <= a < u ==> Load(m', a) == Load(m, a)
    ensures Headers(live, m', w)
  {
    forall u | u in live && u >= w
      ensures LoadWord(m', u - w, w) == live[u].raw
    {
      LoadFrame(m, m', u - w, w);
    }
  }

  /** Users may write all of their blocks. */
  lemma OwnBytesAreWritable(s: State, p: nat, offset: nat)
    requires Core(s) && p in s.live && offset < s.live[p].layout.size
    ensures Writable(s, p + offset)
  {
    forall u | u in s.live && u != p
      ensures p + offset < s.live[u].raw || p + offset >= s.live[u].raw + s.live[u].total
    {
      assert Apart(s.live[u].raw, s.live[u].total, s.live[p].raw, s.live[p].total);
    }
  }

  lemma StoreHeaders(s: State, address: nat, value: Byte)
    requires Places(s.live, Word(s.wordExp)) && Headers(s.live, s.mem, Word(s.wordExp)) && Writable(s, address)
    ensures Headers(s.live, s.mem[address := value], Word(s.wordExp))
  {
    HeadersFrame(s.live, s.mem, s.mem[address := value], Word(s.wordExp));
  }

  lemma StoreInv(s: State, address: nat, value: Byte)
    requires Inv(s) && Writable(s, address)
    ensures Inv(Stored(s, address, value))
  {
    StoreHeaders(s, address, value);
  }

  lemma InsertBacked(live: map<nat, Block>, heap: map<nat, nat>, user: nat, b: Block, w: nat)
    requires Places(live, w) && Disjoint(heap) && Backed(live, heap)
    requires Placed(user, b, w) && b.layout.size > 0 && w > 0
    requires forall r :: r in heap ==> Apart(b.raw, b.total, r, heap[r])
    ensures user !in live && b.raw !in heap
    ensures Disjoint(heap[b.raw := b.total]) && Backed(live[user := b], heap[b.raw := b.total])
  {
  }

  lemma InsertOwned(live: map<nat, Block>, heap: map<nat, nat>, user: nat, b: Block)
    requires Owned(live, heap) && user !in live
    ensures Owned(live[user := b], heap[b.raw := b.total])
  {
    var live', heap' := live[user := b], heap[b.raw := b.total];
    forall r | r in heap'
      ensures exists u :: u in live' && live'[u].raw == r
    {
      if r == b.raw {
        assert user in live';
      } else {
        var u :| u in live && live[u].raw == r;
        assert u in live';
      }
    }
  }

  lemma InsertFrame(live: map<nat, Block>, heap: map<nat, nat>, m: Memory, user: nat, b: Block, w: nat)
    requires Places(live, w) && Backed(live, heap) && Placed(user, b, w)
    requires forall r :: r in heap ==> Apart(b.raw, b.total, r, heap[r])
    ensures forall u, a: nat :: u in live && u - w <= a < u ==>
              Load(StoreWord(m, user - w, w, b.raw), a) == Load(m, a)
  {
    forall u, a: nat | u in live && u - w <= a < u
      ensures Load(StoreWord(m, user - w, w, b.raw), a) == Load(m, a)
    {
      assert live[u].raw in heap;
      StoreIsLocal(m, user - w, w, b.raw, a);
    }
  }

  lemma InsertHeaders(live: map<nat, Block>, heap: map<nat, nat>, m: Memory, user: nat, b: Block, w: nat)
    requires Places(live, w) && Backed(live, heap) && Headers(live, m, w) && user !in live
    requires Placed(user, b, w) && b.raw < Pow2(8 * w)
    requires forall r :: r in heap ==> Apart(b.raw, b.total, r, heap[r])
    ensures Headers(live[user := b], StoreWord(m, user - w, w, b.raw), w)
  {
    InsertFrame(live, heap, m, user, b, w);
    LoadStored(m, user - w, w, b.raw);
    HeadersFrame(live, m, StoreWord(m, user - w, w, b.raw), w);
  }

  lemma InsertCore(s: State, user: nat, b: Block)
    requires Core(s) && Placed(user, b, Word(s.wordExp)) && b.layout.size > 0 && Fresh(s, b.raw, b.total)
    ensures Core(Inserted(s, user, b)) && user !in s.live
  {
    InsertBacked(s.live, s.heap, user, b, Word(s.wordExp));
    InsertHeaders(s.live, s.heap, s.mem, user, b, Word(s.wordExp));
  }

  lemma AllocInv(s: State, l: Layout, raw: nat)
    requires Inv(s) && Enabled(s, Alloc(l, raw))
    ensures Inv(Allocated(s, l, raw).0)
  {
    if !Asks(s, l) || raw == 0 { return; }
    var user, b := UserOf(raw, l, s.wordExp), Block(raw, Total(l, s.wordExp), l);
    UserIsPlaced(raw, l, s.wordExp);
    InsertCore(s, user, b);
    InsertOwned(s.live, s.heap, user, b);
  }

  lemma RemoveBacked(live: map<nat, Block>, heap: map<nat, nat>, p: nat)
    requires Disjoint(heap) && Backed(live, heap) && p in live
    ensures Disjoint(heap - {live[p].raw}) && Backed(live - {p}, heap - {live[p].raw})
  {
  }

  lemma RemoveOwned(live: map<nat, Block>, heap: map<nat, nat>, p: nat)
    requires Owned(live, heap) && p in live
    ensures Owned(live - {p}, heap - {live[p].raw})
  {
    var live', heap' := live - {p}, heap - {live[p].raw};
    forall r | r in heap'
      ensures exists u :: u in live' && live'[u].raw == r
    {
      var u :| u in live && live[u].raw == r;
      assert u in live';
    }
  }

  /** `dealloc` reads the base of the pointer's own raw block. */
  lemma DeallocCore(s: State, p: nat)
    requires Core(s) && p in s.live
    ensures p >= Word(s.wordExp) && RawOf(s, p) == s.live[p].raw
    ensures Core(Deallocated(s, p))
  {
    assert Placed(p, s.live[p], Word(s.wordExp));
    RemoveBacked(s.live, s.heap, p);
  }

  lemma DeallocInv(s: State, p: nat)
    requires Inv(s) && (p == 0 || p in s.live)
    ensures Inv(Deallocated(s, p))
  {
    if p !in s.live { return; }
    DeallocCore(s, p);
    RemoveOwned(s.live, s.heap, p);
  }

  /** Every allocation, release and write keeps the invariant. */
  lemma StepInv(s: State, a: Action)
    requires Inv(s) && Enabled(s, a)
    ensures Inv(Next(s, a))
  {
    match a {
      case Alloc(l, raw) => AllocInv(s, l, raw);
      case Dealloc(p) => DeallocInv(s, p);
      case Store(address, value) => StoreInv(s, address, value);
    }
  }

  lemma {:induction false} RunInv(states: seq<State>, actions: seq<Action>, i: nat)
    requires Run(states, actions) && i < |states|
    ensures Inv(states[i])
  {
    if i > 0 {
      RunInv(states, actions, i - 1);
      StepInv(states[i - 1], actions[i - 1]);
    }
  }

  // ---------------------------------------------------------------------------
  // What users may rely on
  // ---------------------------------------------------------------------------

  /** Aligned as asked, with an aligned header, both inside the pointer's own raw block. */
  predicate WellPlaced(u: nat, b: Block, w: nat) {
    && b.raw + w <= u && u + b.layout.size <= b.raw + b.total
    && u % b.layout.Align() == 0 && w > 0 && (u - w) % w == 0
  }

  lemma WellPlacedIf(u: nat, b: Block, wordExp: nat)
    requires Placed(u, b, Word(wordExp)) && Aligned(u, b, wordExp)
    ensures WellPlaced(u, b, Word(wordExp))
  {
    MultipleIsModulo(u, b.layout.Align());
    MultipleIsModulo(u - Word(wordExp), Word(wordExp));
  }

  /** In every run each user pointer is aligned as asked, its header is aligned, and header and user block
      lie inside the pointer's own raw block. */
  lemma BlocksAreWellPlaced(states: seq<State>, actions: seq<Action>, i: nat, u: nat)
    requires Run(states, actions) && i < |states| && u in states[i].live
    ensures WellPlaced(u, states[i].live[u], Word(states[i].wordExp))
  {
    RunInv(states, actions, i);
    WellPlacedIf(u, states[i].live[u], states[i].wordExp);
  }

  /** The headers and blocks of two live pointers never share a byte. */
  lemma BlocksAreDisjoint(states: seq<State>, actions: seq<Action>, i: nat, u: nat, v: nat)
    requires Run(states, actions) && i < |states|
    requires u in states[i].live && v in states[i].live && u != v
    ensures var s := states[i];
            var w := Word(s.wordExp);
            u >= w && v >= w && Apart(u - w, w + s.live[u].layout.size, v - w, w + s.live[v].layout.size)
  {
    RunInv(states, actions, i);
    CoreIsDisjoint(states[i], u, v);
  }

  lemma CoreIsDisjoint(s: State, u: nat, v: nat)
    requires Core(s) && u in s.live && v in s.live && u != v
    ensures var w := Word(s.wordExp);
            u >= w && v >= w && Apart(u - w, w + s.live[u].layout.size, v - w, w + s.live[v].layout.size)
  {
    assert Placed(u, s.live[u], Word(s.wordExp)) && Placed(v, s.live[v], Word(s.wordExp));
    assert Apart(s.live[u].raw, s.live[u].total, s.live[v].raw, s.live[v].total);
  }

  /** Whatever was allocated, released and written in between, `dealloc` gives the native heap exactly the
      base address of the pointer's raw block, which the heap has outstanding. */
  lemma DeallocRecoversBase(states: seq<State>, actions: seq<Action>, i: nat, u: nat)
    requires Run(states, actions) && i < |states| && u in states[i].live
    ensures var s := states[i];
            u >= Word(s.wordExp) && RawOf(s, u) == s.live[u].raw && s.live[u].raw in s.heap
  {
    RunInv(states, actions, i);
    DeallocCore(states[i], u);
  }

  /** Raw blocks and live pointers correspond: once all pointers are released, the native heap has every
      block back. */
  lemma NothingLeaks(states: seq<State>, actions: seq<Action>, i: nat)
    requires Run(states, actions) && i < |states|
    ensures var s := states[i];
            && (forall r :: r in s.heap ==> exists u :: u in s.live && s.live[u].raw == r)
            && (s.live == map[] ==> s.heap == map[])
  {
    RunInv(states, actions, i);
  }

  /** The bytes `alloc` asks the native heap for. */
  function Needed(l: Layout, wordExp: nat): nat {
    l.size + Word(wordExp) + (if l.Align() > Word(wordExp) then l.Align() else Word(wordExp)) - 1
  }

  /** What `alloc` returns: null exactly for an empty layout, a size beyond the address space or an exhausted heap, and
      then nothing changes; else a new live pointer, the least one above the header that is aligned for the layout
      and for the header. */
  lemma AllocReturns(s: State, l: Layout, raw: nat)
    requires Inv(s) && Enabled(s, Alloc(l, raw))
    ensures var (s', user) := Allocated(s, l, raw);
            && (user == 0 <==> l.size == 0 || Needed(l, s.wordExp) >= Space(s.wordExp) || raw == 0)
            && (user == 0 ==> s' == s)
            && (user != 0 ==>
                  && user !in s.live && s'.live == s.live[user := Block(raw, Needed(l, s.wordExp), l)]
                  && raw !in s.heap && s'.heap == s.heap[raw := Needed(l, s.wordExp)]
                  && LeastAligned(user, raw + Word(s.wordExp), l, s.wordExp))
  {
    EffectiveAlign(l, s.wordExp);
    assert Needed(l, s.wordExp) == Total(l, s.wordExp);
    if Asks(s, l) && raw > 0 {
      UserIsPlaced(raw, l, s.wordExp);
      InsertCore(s, UserOf(raw, l, s.wordExp), Block(raw, Total(l, s.wordExp), l));
      UserIsLeast(raw, l, s.wordExp);
    }
  }

  ghost predicate LeastAligned(user: nat, from: nat, l: Layout, wordExp: nat) {
    && from <= user && user % l.Align() == 0 && user % Word(wordExp) == 0
    && forall a :: from <= a < user ==> a % l.Align() != 0 || a % Word(wordExp) != 0
  }

  lemma UserIsLeast(raw: nat, l: Layout, wordExp: nat)
    ensures LeastAligned(UserOf(raw, l, wordExp), raw + Word(wordExp), l, wordExp)
  {
    var from, e := raw + Word(wordExp), EffectiveExp(l, wordExp);
    var user := UserOf(raw, l, wordExp);
    AlignOffsetAligns(from, Pow2(e));
    CoarserAligned(user, l.alignExp, e);
    CoarserAligned(user, wordExp, e);
    forall a | from <= a < user
      ensures a % l.Align() != 0 || a % Word(wordExp) != 0
    {
      AlignOffsetIsLeast(from, Pow2(e), a);
    }
  }

  /** What `dealloc` does: exactly the pointer and its own raw block are gone; null changes nothing. */
  lemma DeallocReleases(s: State, p: nat)
    requires Inv(s) && Enabled(s, Dealloc(p))
    ensures var s' := Deallocated(s, p);
            if p == 0 then s' == s
            else s'.live == s.live - {p} && s'.heap == s.heap - {s.live[p].raw} && s'.mem == s.mem
  {
    if p in s.live { DeallocCore(s, p); }
  }

  // ---------------------------------------------------------------------------
  // The allocator over its memory
  // ---------------------------------------------------------------------------

  class FreeRtosAllocator {
    const wordExp: nat
    var mem: Memory
    var heap: map<nat, nat>
    ghost var live: map<nat, Block>

    ghost function View(): State
      reads this
    {
      State(wordExp, mem, heap, live)
    }

    constructor (wordExp: nat, mem: Memory)
      ensures Init(View()) && Inv(View()) && this.wordExp == wordExp && this.mem == mem
    {
      this.wordExp, this.mem, heap, live := wordExp, mem, map[], map[];
    }

    /** `alloc`; `raw` answers for the native heap, which is asked at most once. */
    method Alloc(l: Layout, raw: nat) returns (user: nat)
      modifies this
      ensures (View(), user) == Allocated(old(View()), l, raw)
    {
      if l.size == 0 { return 0; }
      var space := Space(wordExp);
      var headerSize := Word(wordExp);
      var align := if l.Align() > headerSize then l.Align() else headerSize;
      EffectiveAlign(l, wordExp);
      if l.size + headerSize >= space { return 0; }
      var total := l.size + headerSize + (align - 1);
      if total >= space { return 0; }
      if raw == 0 { return 0; }
      heap := heap[raw := total];
      var candidate := raw + headerSize;
      var offset := AlignOffset(candidate, align);
      AlignOffsetAligns(candidate, align);
      if offset == space - 1 { assert false; }
      user := candidate + offset;
      mem := StoreWord(mem, user - headerSize, headerSize, raw);
      live := live[user := Block(raw, total, l)];
      assert user == UserOf(raw, l, wordExp);
      assert View() == Inserted(old(View()), user, Block(raw, total, l));
    }

    /** `dealloc`: frees what the header names. */
    method Dealloc(pointer: nat)
      requires pointer == 0 || pointer >= Word(wordExp)
      modifies this
      ensures View() == Deallocated(old(View()), pointer)
    {
      if pointer == 0 { return; }
      var headerSize := Word(wordExp);
      var raw := LoadWord(mem, pointer - headerSize, headerSize);
      heap := heap - {raw};
      live := live - {pointer};
    }
  }

  lemma {:induction false} Pow2Monotone(a: nat, b: nat)
    requires a <= b
    ensures Pow2(a) <= Pow2(b)
    decreases b
  {
    if a < b { Pow2Monotone(a, b - 1); }
  }

  /** The larger of two powers of two is that of the larger exponent. */
  lemma EffectiveAlign(l: Layout, wordExp: nat)
    ensures Pow2(EffectiveExp(l, wordExp)) ==
            if l.Align() > Word(wordExp) then l.Align() else Word(wordExp)
  {
    if l.alignExp <= wordExp { Pow2Monotone(l.alignExp, wordExp); } else { Pow2Monotone(wordExp, l.alignExp); }
  }
}
