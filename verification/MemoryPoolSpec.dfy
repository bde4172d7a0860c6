/** The fixed-size memory pool on values: what each call does to a pool and to memory.
    Memory is word addressed, and the free list and the block list are threaded through it. */
module MemoryPoolSpec {
  import opened Options

  const BLOCK_SIZE: nat := 4096
  const HEADER: nat := 8
  const LIMIT: nat := 0x1_0000_0000_0000_0000

  /** Words at 8-byte aligned addresses; 0 is the null pointer. */
  type Words = map<nat, nat>

  function Read(m: Words, a: nat): nat {
    if a in m then m[a] else 0
  }

  /** The fields of a pool, then, as ghosts, its blocks (newest first), the slots handed out, and those on the free
      list. */
  datatype Pool = Pool(
    slotSize: nat, currentBlock: nat, currentSlot: nat, lastSlot: nat, freeSlot: nat,
    blocks: seq<nat>, live: set<nat>, free: seq<nat>)

  /** padPointer, in 64-bit wrap-around arithmetic. */
  function Pad(p: nat, align: nat): nat
    requires align > 0
  {
    ((align - p) % LIMIT) % align
  }

  function Init(size: nat): Pool {
    Pool(size, 0, 0, 0, 0, [], {}, [])
  }

  /** Slot pointers move in steps of 8 bytes. */
  function Advance(p: nat, slotSize: nat): nat {
    p + slotSize / 8 * 8
  }

  /** The first slot of block b, behind the header and the padding. */
  function First(b: nat, slotSize: nat): nat
    requires slotSize > 0
  {
    b + HEADER + Pad(b + HEADER, slotSize)
  }

  /** The pool with the new block b, whose slots start at first. */
  function WithBlock(p: Pool, m: Words, b: nat, first: nat): (r: (Pool, Words, nat))
    requires p.slotSize <= BLOCK_SIZE
  {
    (p.(currentBlock := b, currentSlot := Advance(first, p.slotSize), lastSlot := b + BLOCK_SIZE - p.slotSize + 1,
        blocks := [b] + p.blocks, live := p.live + {first}),
     m[b := p.currentBlock], first)
  }

  function AllocateBlock(p: Pool, m: Words, b: nat): (r: (Pool, Words, nat))
    requires p.slotSize > 0 && p.slotSize <= BLOCK_SIZE
  {
    WithBlock(p, m, b, First(b, p.slotSize))
  }

  function NoFreeSolve(p: Pool, m: Words, b: nat): (r: (Pool, Words, nat))
    requires p.slotSize > 0 && p.slotSize <= BLOCK_SIZE
  {
    if p.currentSlot >= p.lastSlot then AllocateBlock(p, m, b)
    else (p.(currentSlot := Advance(p.currentSlot, p.slotSize), live := p.live + {p.currentSlot}), m, p.currentSlot)
  }

  /** b is the block operator new would give. */
  function Allocate(p: Pool, m: Words, b: nat): (r: (Pool, Words, nat))
    requires p.slotSize > 0 && p.slotSize <= BLOCK_SIZE
  {
    if p.freeSlot != 0 then
      (p.(freeSlot := Read(m, p.freeSlot), live := p.live + {p.freeSlot},
          free := if p.free == [] then [] else p.free[1..]),
       m, p.freeSlot)
    else NoFreeSolve(p, m, b)
  }

  function Deallocate(p: Pool, m: Words, s: nat): (r: (Pool, Words)) {
    if s == 0 then (p, m)
    else (p.(freeSlot := s, live := p.live - {s}, free := [s] + p.free), m[s := p.freeSlot])
  }

  // ---------------------------------------------------------------- invariant

  ghost predicate Apart(a: nat, b: nat, size: nat) {
    a + size <= b || b + size <= a
  }

  ghost predicate Inside(s: nat, size: nat, b: nat) {
    b + HEADER <= s && s + size <= b + BLOCK_SIZE
  }

  ghost predicate BlockOk(b: nat) {
    0 < b && b % 8 == 0 && b + BLOCK_SIZE < LIMIT
  }

  ghost predicate BlocksApart(blocks: seq<nat>) {
    forall i, j :: 0 <= i < j < |blocks| ==> Apart(blocks[i], blocks[j], BLOCK_SIZE)
  }

  ghost predicate Carved(p: Pool, s: nat) {
    s in p.live || s in p.free
  }

  /** s is a slot of some block, past its header and outside the tail still to be carved. */
  ghost predicate SlotOk(p: Pool, s: nat) {
    && s % 8 == 0
    && (exists i :: 0 <= i < |p.blocks| && Inside(s, p.slotSize, p.blocks[i]))
    && (p.blocks != [] ==> Apart2(s, p.slotSize, p.currentSlot, p.blocks[0] + BLOCK_SIZE))
  }

  /** The slot is not in the stretch from lo to hi. */
  ghost predicate Apart2(s: nat, size: nat, lo: nat, hi: nat) {
    s + size <= lo || hi <= s
  }

  ghost predicate SizeOk(size: nat) {
    8 <= size <= 512 && size % 8 == 0
  }

  ghost predicate BlocksOk(p: Pool) {
    && SizeOk(p.slotSize) && BlocksApart(p.blocks) && (forall i :: 0 <= i < |p.blocks| ==> BlockOk(p.blocks[i]))
    && p.currentBlock == (if p.blocks == [] then 0 else p.blocks[0])
    && (if p.blocks == [] then p.currentSlot == p.lastSlot == 0
        else p.lastSlot == p.blocks[0] + BLOCK_SIZE - p.slotSize + 1 && p.currentSlot % 8 == 0
             && p.blocks[0] + HEADER <= p.currentSlot <= p.blocks[0] + BLOCK_SIZE)
  }

  ghost predicate Distinct(c: seq<nat>) {
    forall i, j :: 0 <= i < j < |c| ==> c[i] != c[j]
  }

  /** Slots are either live or free, and any two are apart. */
  ghost predicate SlotsOk(p: Pool) {
    && Distinct(p.free) && (forall s :: s in p.free ==> s !in p.live)
    && (forall s {:trigger SlotOk(p, s)} :: Carved(p, s) ==> SlotOk(p, s))
    && (forall s, t {:trigger Apart(s, t, p.slotSize)} ::
          Carved(p, s) && Carved(p, t) && s != t ==> Apart(s, t, p.slotSize))
  }

  /** The word at c[i] is the next element of c, or null. */
  ghost predicate Links(m: Words, c: seq<nat>, i: nat) {
    i < |c| && Read(m, c[i]) == if i + 1 < |c| then c[i + 1] else 0
  }

  /** c is a list threaded through memory from head, ended by null. */
  ghost predicate Threaded(m: Words, head: nat, c: seq<nat>) {
    && head == (if c == [] then 0 else c[0])
    && (forall i: nat {:trigger Links(m, c, i)} :: i < |c| ==> Links(m, c, i))
  }

  ghost predicate Ok(p: Pool, m: Words) {
    BlocksOk(p) && SlotsOk(p) && Threaded(m, p.freeSlot, p.free) && Threaded(m, p.currentBlock, p.blocks)
  }

  /** What is asked of a block from operator new. */
  ghost predicate Supplied(p: Pool, b: nat) {
    BlockOk(b) && forall i :: 0 <= i < |p.blocks| ==> Apart(b, p.blocks[i], BLOCK_SIZE)
  }

  // ---------------------------------------------------------------- padding

  lemma Scale(a: int, d: int)
    requires a > 0
    ensures d >= 1 ==> a * d >= a
    ensures d <= -1 ==> a * d <= -a
  {
  }

  lemma ModUnique(size: nat, q: int, r: nat)
    requires r < size
    ensures (size * q + r) % size == r
  {
    var x := size * q + r;
    Scale(size, x / size - q);
    assert size * (x / size - q) == r - x % size;
  }

  lemma Regroup(t: nat, q: int)
    ensures (8 * t) * q == 8 * (t * q)
  {
  }

  lemma MultipleOfEight(x: int, s: nat)
    requires x % 8 == 0 && SizeOk(s)
    ensures (x % s) % 8 == 0
  {
    var q, t, y := x / s, s / 8, x / 8;
    Regroup(t, q);
    assert s == 8 * t && x == 8 * y;
    assert x % s == x - s * q == 8 * (y - t * q) + 0;
    ModUnique(8, y - t * q, 0);
  }

  /** Padding is less than a slot and a multiple of 8, so the first slot of an aligned block is 8-byte aligned. */
  lemma PadOk(p: nat, size: nat)
    requires SizeOk(size) && p % 8 == 0 && p < LIMIT
    ensures Pad(p, size) < size && Pad(p, size) % 8 == 0
  {
    var d := (size - p) % LIMIT;
    assert d % 8 == 0;
    MultipleOfEight(d, size);
  }

  /** The first slot is aligned to the slot size exactly when no wrap-around happens or the slot size divides 2^64. */
  lemma PadAligns(p: nat, size: nat)
    requires SizeOk(size) && p < LIMIT
    ensures (p + Pad(p, size)) % size == 0 <==> p <= size || LIMIT % size == 0
  {
    var d := if p <= size then size - p else size - p + LIMIT;
    assert (size - p) % LIMIT == d;
    var q := d / size;
    assert Pad(p, size) == d - size * q;
    if p <= size {
      assert p + Pad(p, size) == size * (1 - q);
      Divides(size, 1 - q, 0);
    } else {
      assert p + Pad(p, size) == size * (1 - q) + LIMIT;
      Divides(size, 1 - q, LIMIT);
    }
  }

  lemma Divides(size: nat, k: int, r: nat)
    requires size > 0
    ensures (size * k + r) % size == r % size
  {
    var q := r / size;
    assert size * k + r == size * (k + q) + r % size;
    ModUnique(size, k + q, r % size);
  }

  // ---------------------------------------------------------------- each call keeps the invariant

  /** An address in a slot is no block's address. */
  lemma SlotNoBlock(p: Pool, s: nat, a: nat)
    requires BlocksOk(p) && SlotOk(p, s) && s <= a < s + p.slotSize
    ensures a !in p.blocks
  {
    var i :| 0 <= i < |p.blocks| && Inside(s, p.slotSize, p.blocks[i]);
    forall j | 0 <= j < |p.blocks| ensures a != p.blocks[j] {
      if j < i { assert Apart(p.blocks[j], p.blocks[i], BLOCK_SIZE); }
      if i < j { assert Apart(p.blocks[i], p.blocks[j], BLOCK_SIZE); }
    }
  }

  /** Writing inside a live slot touches neither list. */
  lemma LiveAddress(p: Pool, s: nat, a: nat)
    requires BlocksOk(p) && SlotsOk(p) && s in p.live && s <= a < s + p.slotSize
    ensures a !in p.blocks && a !in p.free
  {
    assert Carved(p, s) && SlotOk(p, s);
    SlotNoBlock(p, s, a);
    assert a in p.free ==> Carved(p, a) && Apart(s, a, p.slotSize);
  }

  lemma StillThreaded(m: Words, head: nat, c: seq<nat>, a: nat, v: nat)
    requires Threaded(m, head, c) && a !in c
    ensures Threaded(m[a := v], head, c)
  {
    var m' := m[a := v];
    forall i: nat {:trigger Links(m', c, i)} | i < |c| ensures Links(m', c, i) { assert Links(m, c, i); }
  }

  lemma WriteKeeps(p: Pool, m: Words, a: nat, v: nat)
    requires Ok(p, m) && a !in p.blocks && a !in p.free
    ensures Ok(p, m[a := v])
  {
    StillThreaded(m, p.freeSlot, p.free, a, v);
    StillThreaded(m, p.currentBlock, p.blocks, a, v);
  }

  lemma PushThreaded(m: Words, head: nat, c: seq<nat>, s: nat)
    requires Threaded(m, head, c) && s !in c
    ensures Threaded(m[s := head], s, [s] + c)
  {
    StillThreaded(m, head, c, s, head);
    var d, m' := [s] + c, m[s := head];
    forall i: nat {:trigger Links(m', d, i)} | i < |d| ensures Links(m', d, i) {
      if i > 0 { assert Links(m', c, i - 1); }
    }
  }

  lemma PopThreaded(m: Words, head: nat, c: seq<nat>)
    requires Threaded(m, head, c) && c != []
    ensures Threaded(m, Read(m, head), c[1..])
  {
    var d := c[1..];
    assert Links(m, c, 0);
    forall i: nat | i < |d| ensures Links(m, d, i) { assert Links(m, c, i + 1); }
  }

  lemma InitOk(size: nat)
    requires SizeOk(size)
    ensures Ok(Init(size), map[])
  {
  }

  lemma FreeOk(p: Pool, m: Words, s: nat)
    requires Ok(p, m) && (s == 0 || s in p.live)
    ensures var r := Deallocate(p, m, s); Ok(r.0, r.1)
  {
    if s != 0 {
      var r := Deallocate(p, m, s);
      LiveAddress(p, s, s);
      forall t: nat | Carved(r.0, t) ensures SlotOk(r.0, t) {
        assert Carved(p, t) && SlotOk(p, t);
      }
      forall t: nat, u: nat | Carved(r.0, t) && Carved(r.0, u) && t != u ensures Apart(t, u, p.slotSize) {
        assert Carved(p, t) && Carved(p, u);
      }
      StillThreaded(m, p.freeSlot, p.free, s, p.freeSlot);
      StillThreaded(m, p.currentBlock, p.blocks, s, p.freeSlot);
      PushThreaded(m, p.freeSlot, p.free, s);
    }
  }

  lemma TailOf(c: seq<nat>)
    requires Distinct(c) && c != []
    ensures Distinct(c[1..]) && forall s :: s in c[1..] <==> s in c && s != c[0]
  {
    assert forall i :: 0 <= i < |c| - 1 ==> c[1..][i] == c[i + 1];
    forall s | s in c && s != c[0] ensures s in c[1..] {
      var i :| 0 <= i < |c| && c[i] == s;
      assert c[1..][i - 1] == s;
    }
  }

  lemma ReuseOk(p: Pool, m: Words, b: nat)
    requires Ok(p, m) && p.freeSlot != 0
    ensures var r := Allocate(p, m, b); Ok(r.0, r.1) && r.2 == p.free[0]
  {
    var r := Allocate(p, m, b);
    PopThreaded(m, p.freeSlot, p.free);
    TailOf(p.free);
    forall t: nat | Carved(r.0, t) ensures SlotOk(r.0, t) {
      assert Carved(p, t) && SlotOk(p, t);
    }
    forall t: nat, u: nat | Carved(r.0, t) && Carved(r.0, u) && t != u ensures Apart(t, u, p.slotSize) {
      assert Carved(p, t) && Carved(p, u);
    }
  }

  lemma AdvanceIs(s: nat, slotSize: nat)
    requires slotSize % 8 == 0
    ensures Advance(s, slotSize) == s + slotSize
  {
  }

  /** Taking the next slot of the tail. */
  lemma CarveOk(p: Pool, m: Words, b: nat)
    requires Ok(p, m) && p.currentSlot < p.lastSlot
    ensures var r := NoFreeSolve(p, m, b); Ok(r.0, r.1)
  {
    var r, s := NoFreeSolve(p, m, b), p.currentSlot;
    AdvanceIs(s, p.slotSize);
    assert Inside(s, p.slotSize, p.blocks[0]);
    forall t: nat | Carved(p, t) ensures SlotOk(r.0, t) && t != s && Apart(s, t, p.slotSize) {
      assert SlotOk(p, t);
    }
    Joined(p, r.0, s);
  }

  /** Slots of the old blocks are apart from the new block. */
  lemma SlotOffBlock(p: Pool, s: nat, b: nat)
    requires BlocksOk(p) && SlotOk(p, s) && Supplied(p, b)
    ensures s + p.slotSize <= b || b + BLOCK_SIZE <= s
  {
    var i :| 0 <= i < |p.blocks| && Inside(s, p.slotSize, p.blocks[i]);
    assert Apart(b, p.blocks[i], BLOCK_SIZE);
  }

  /** What the first slot of a block must satisfy. */
  ghost predicate Starts(b: nat, size: nat, first: nat) {
    first % 8 == 0 && Inside(first, size, b)
  }

  lemma PaddedStarts(b: nat, size: nat, pad: nat)
    requires SizeOk(size) && BlockOk(b) && pad < size && pad % 8 == 0
    ensures Starts(b, size, b + HEADER + pad)
  {
  }

  lemma FirstStarts(b: nat, size: nat)
    requires SizeOk(size) && BlockOk(b)
    ensures Starts(b, size, First(b, size))
  {
    PadOk(b + HEADER, size);
    PaddedStarts(b, size, Pad(b + HEADER, size));
  }

  /** The first slot of a new block lies in it, and what is left of the block is the new tail. */
  lemma FirstSlot(p: Pool, m: Words, b: nat, first: nat)
    requires BlocksOk(p) && Supplied(p, b) && Starts(b, p.slotSize, first)
    ensures var r := WithBlock(p, m, b, first); BlocksOk(r.0) && SlotOk(r.0, first)
  {
    var r := WithBlock(p, m, b, first);
    assert Advance(first, p.slotSize) == first + p.slotSize;
    assert Inside(first, p.slotSize, r.0.blocks[0]);
  }

  /** The slots there were stay slots, apart from the new block. */
  lemma OldSlot(p: Pool, m: Words, b: nat, first: nat, t: nat)
    requires BlocksOk(p) && Supplied(p, b) && Starts(b, p.slotSize, first) && SlotOk(p, t)
    ensures var r := WithBlock(p, m, b, first); SlotOk(r.0, t) && t != first && Apart(first, t, p.slotSize)
  {
    var r := WithBlock(p, m, b, first);
    SlotOffBlock(p, t, b);
    var i :| 0 <= i < |p.blocks| && Inside(t, p.slotSize, p.blocks[i]);
    assert r.0.blocks[i + 1] == p.blocks[i];
    assert Advance(first, p.slotSize) == first + p.slotSize;
  }

  lemma SlotsAfter(p: Pool, m: Words, b: nat, first: nat)
    requires BlocksOk(p) && SlotsOk(p) && Supplied(p, b) && Starts(b, p.slotSize, first)
    ensures var r := WithBlock(p, m, b, first); BlocksOk(r.0) && SlotsOk(r.0)
  {
    var r := WithBlock(p, m, b, first);
    FirstSlot(p, m, b, first);
    forall t: nat | Carved(p, t) ensures SlotOk(r.0, t) && t != first && Apart(first, t, p.slotSize) {
      assert SlotOk(p, t);
      OldSlot(p, m, b, first, t);
    }
    Joined(p, r.0, first);
  }

  /** A slot that is apart from all the others may join them. */
  lemma Joined(p: Pool, p': Pool, s: nat)
    requires SlotsOk(p) && p'.live == p.live + {s} && p'.free == p.free && p'.slotSize == p.slotSize && SlotOk(p', s)
    requires forall t: nat {:trigger SlotOk(p', t)} ::
               Carved(p, t) ==> SlotOk(p', t) && t != s && Apart(s, t, p.slotSize)
    ensures SlotsOk(p')
  {
    forall t: nat | Carved(p', t) ensures SlotOk(p', t) {
      if t != s { assert Carved(p, t); }
    }
    forall t: nat, u: nat | Carved(p', t) && Carved(p', u) && t != u ensures Apart(t, u, p.slotSize) {
      assert SlotOk(p', t) && SlotOk(p', u);
    }
    forall t: nat | t in p.free ensures t != s { assert Carved(p, t) && SlotOk(p', t); }
  }

  /** A new block is linked in front of the others, and the free list is not touched. */
  lemma BlockThreaded(p: Pool, m: Words, b: nat, first: nat)
    requires Ok(p, m) && Supplied(p, b)
    ensures var r := WithBlock(p, m, b, first);
            Threaded(r.1, r.0.freeSlot, r.0.free) && Threaded(r.1, r.0.currentBlock, r.0.blocks)
  {
    forall i | 0 <= i < |p.free| ensures p.free[i] != b {
      assert Carved(p, p.free[i]) && SlotOk(p, p.free[i]);
      SlotOffBlock(p, p.free[i], b);
    }
    forall i | 0 <= i < |p.blocks| ensures p.blocks[i] != b {
      assert Apart(b, p.blocks[i], BLOCK_SIZE);
    }
    StillThreaded(m, p.freeSlot, p.free, b, p.currentBlock);
    PushThreaded(m, p.currentBlock, p.blocks, b);
  }

  lemma AllocateOk(p: Pool, m: Words, b: nat)
    requires Ok(p, m) && (p.freeSlot == 0 && p.currentSlot >= p.lastSlot ==> Supplied(p, b))
    ensures var r := Allocate(p, m, b); Ok(r.0, r.1) && r.2 in r.0.live && r.2 != 0
  {
    if p.freeSlot != 0 {
      ReuseOk(p, m, b);
    } else if p.currentSlot < p.lastSlot {
      CarveOk(p, m, b);
    } else {
      FirstStarts(b, p.slotSize);
      SlotsAfter(p, m, b, First(b, p.slotSize));
      BlockThreaded(p, m, b, First(b, p.slotSize));
    }
  }

  /** Reuse is last in, first out: the next allocation takes back the slot just freed and nothing else has changed. */
  lemma FreeThenAllocate(p: Pool, m: Words, s: nat, b: nat)
    requires Ok(p, m) && s in p.live
    ensures var f := Deallocate(p, m, s);
            Allocate(f.0, f.1, b) == (p, f.1, s)
  {
    assert Carved(p, s) && SlotOk(p, s);
    assert s != 0;
    assert p.live - {s} + {s} == p.live;
    assert ([s] + p.free)[1..] == p.free;
  }

  /** The slot handed out was not live before. */
  lemma NewSlot(p: Pool, m: Words, b: nat)
    requires Ok(p, m) && (p.freeSlot == 0 && p.currentSlot >= p.lastSlot ==> Supplied(p, b))
    ensures Allocate(p, m, b).2 !in p.live
  {
    var s := Allocate(p, m, b).2;
    if p.freeSlot != 0 {
      assert s in p.free;
    } else if s in p.live {
      assert Carved(p, s) && SlotOk(p, s);
      if p.currentSlot >= p.lastSlot {
        FirstStarts(b, p.slotSize);
        SlotOffBlock(p, s, b);
      }
    }
  }

  // ---------------------------------------------------------------- the 64 pools

  datatype Heap = Heap(pools: seq<Pool>, words: Words)

  const POOLS: nat := 64
  const MAX_SIZE: nat := 512

  function InitHeap(): Heap {
    Heap(seq(POOLS, (i: nat) => Init((i + 1) * 8)), map[])
  }

  /** The pool for a size: the size divided by 8, rounded up, less one. */
  function Index(size: nat): nat
    requires 0 < size
  {
    (size + 7) / 8 - 1
  }

  /** For every size the pools serve, the pool's slots are the size rounded up to a multiple of 8. */
  lemma IndexOk(size: nat)
    requires 0 < size <= MAX_SIZE
    ensures Index(size) < POOLS
    ensures var slot := (Index(size) + 1) * 8; size <= slot < size + 8 && slot % 8 == 0 && SizeOk(slot)
  {
  }

  function UseMemory(h: Heap, size: nat, b: nat): (r: (Heap, nat))
    requires HeapOk(h)
  {
    if size == 0 then (h, 0)
    else if size > MAX_SIZE then (h, b)
    else
      var i := Index(size);
      var r := Allocate(h.pools[i], h.words, b);
      (Heap(h.pools[i := r.0], r.1), r.2)
  }

  function FreeMemory(h: Heap, size: nat, s: nat): (r: Heap)
    requires HeapOk(h) && (s != 0 ==> size > 0)
  {
    if s == 0 || size > MAX_SIZE then h
    else
      var i := Index(size);
      var r := Deallocate(h.pools[i], h.words, s);
      Heap(h.pools[i := r.0], r.1)
  }

  ghost predicate PoolsApart(p: Pool, q: Pool) {
    forall b, c :: b in p.blocks && c in q.blocks ==> Apart(b, c, BLOCK_SIZE)
  }

  ghost predicate HeapOk(h: Heap) {
    && |h.pools| == POOLS
    && (forall i :: 0 <= i < POOLS ==> Ok(h.pools[i], h.words) && h.pools[i].slotSize == (i + 1) * 8)
    && (forall i, j {:trigger PoolsApart(h.pools[i], h.pools[j])} ::
          0 <= i < POOLS && 0 <= j < POOLS && i != j ==> PoolsApart(h.pools[i], h.pools[j]))
  }

  /** A block from operator new lies in nobody's block. */
  ghost predicate NewBlock(h: Heap, b: nat) {
    BlockOk(b) && forall i :: 0 <= i < |h.pools| ==> Supplied(h.pools[i], b)
  }

  /** A slot is apart from a block that is apart from all blocks of the pool. */
  lemma SlotAway(q: Pool, s: nat, b: nat)
    requires BlocksOk(q) && SlotsOk(q) && Carved(q, s) && forall c :: c in q.blocks ==> Apart(b, c, BLOCK_SIZE)
    ensures s + q.slotSize <= b || b + BLOCK_SIZE <= s
  {
    var c := HomeBlock(q, s);
    assert Apart(b, c, BLOCK_SIZE);
  }

  /** A write inside a block that is apart from all blocks of a pool does not concern the pool. */
  lemma Elsewhere(q: Pool, m: Words, b: nat, a: nat, v: nat)
    requires Ok(q, m) && b <= a < b + BLOCK_SIZE && forall c :: c in q.blocks ==> Apart(b, c, BLOCK_SIZE)
    ensures Ok(q, m[a := v])
  {
    assert forall c :: c in q.blocks ==> Apart(b, c, BLOCK_SIZE) && c != a;
    forall s: nat | s in q.free ensures s != a {
      assert Carved(q, s);
      SlotAway(q, s, b);
    }
    WriteKeeps(q, m, a, v);
  }

  /** A live slot lies in a block of its pool. */
  lemma HomeBlock(p: Pool, s: nat) returns (b: nat)
    requires BlocksOk(p) && SlotsOk(p) && Carved(p, s)
    ensures b in p.blocks && Inside(s, p.slotSize, b)
  {
    assert SlotOk(p, s);
    var i :| 0 <= i < |p.blocks| && Inside(s, p.slotSize, p.blocks[i]);
    b := p.blocks[i];
  }

  ghost predicate NeedsBlock(h: Heap, size: nat)
    requires HeapOk(h)
  {
    0 < size <= MAX_SIZE && var p := h.pools[Index(size)]; p.freeSlot == 0 && p.currentSlot >= p.lastSlot
  }

  /** Replacing pool i and the words keeps the heap in order if each pool is. */
  lemma HeapWith(h: Heap, i: nat, p': Pool, m': Words)
    requires HeapOk(h) && i < POOLS && Ok(p', m') && p'.slotSize == h.pools[i].slotSize
    requires forall j :: 0 <= j < POOLS && j != i ==> Ok(h.pools[j], m')
    requires forall j {:trigger h.pools[j]} ::
               0 <= j < POOLS && j != i ==> PoolsApart(p', h.pools[j]) && PoolsApart(h.pools[j], p')
    ensures HeapOk(Heap(h.pools[i := p'], m'))
  {
    var h' := Heap(h.pools[i := p'], m');
    forall j, k {:trigger PoolsApart(h'.pools[j], h'.pools[k])} | 0 <= j < POOLS && 0 <= k < POOLS && j != k
      ensures PoolsApart(h'.pools[j], h'.pools[k])
    {
      if j != i && k != i { assert PoolsApart(h.pools[j], h.pools[k]); }
    }
  }

  lemma UseOk(h: Heap, size: nat, b: nat)
    requires HeapOk(h) && (NeedsBlock(h, size) ==> NewBlock(h, b))
    ensures HeapOk(UseMemory(h, size, b).0)
  {
    if 0 < size <= MAX_SIZE {
      var i := Index(size);
      var p := h.pools[i];
      var r := Allocate(p, h.words, b);
      AllocateOk(p, h.words, b);
      forall j | 0 <= j < POOLS && j != i
        ensures Ok(h.pools[j], r.1) && PoolsApart(r.0, h.pools[j]) && PoolsApart(h.pools[j], r.0)
      {
        assert PoolsApart(p, h.pools[j]) && PoolsApart(h.pools[j], p);
        if NeedsBlock(h, size) {
          assert Supplied(h.pools[j], b);
          Elsewhere(h.pools[j], h.words, b, b, p.currentBlock);
        }
      }
      HeapWith(h, i, r.0, r.1);
    }
  }

  /** What useMemory answers: null for no bytes and operator new's block for more than 512, with nothing changed; else a
      slot of the pool of that size which was not live, which is live now, as what was live before and nothing else is;
      and the block is taken only if it is needed. */
  lemma UseAnswers(h: Heap, size: nat, b: nat)
    requires HeapOk(h) && (NeedsBlock(h, size) ==> NewBlock(h, b))
    ensures var (h', p) := UseMemory(h, size, b);
            (size == 0 ==> p == 0 && h' == h) && (size > 512 ==> p == b && h' == h)
            && (0 < size <= 512 ==>
                  var i := (size + 7) / 8 - 1;
                  p != 0 && p !in h.pools[i].live && |h'.pools| == |h.pools|
                    && h'.pools[i].live == h.pools[i].live + {p}
                  && h'.pools[i].blocks == (if NeedsBlock(h, size) then [b] else []) + h.pools[i].blocks
                  && forall j :: 0 <= j < |h.pools| && j != i ==> h'.pools[j] == h.pools[j])
  {
    if 0 < size <= MAX_SIZE {
      AllocateOk(h.pools[Index(size)], h.words, b);
      NewSlot(h.pools[Index(size)], h.words, b);
    }
  }

  /** What freeMemory does: nothing to null and, but for operator delete, to more than 512 bytes; else the slot, and no
      other, is live no longer. */
  lemma FreeReleases(h: Heap, size: nat, s: nat)
    requires HeapOk(h) && (s == 0 || MAX_SIZE < size || (0 < size && s in h.pools[Index(size)].live))
    ensures var h' := FreeMemory(h, size, s);
            (s == 0 || size > 512 ==> h' == h)
            && (s != 0 && size <= 512 ==>
                  var i := (size + 7) / 8 - 1;
                  |h'.pools| == |h.pools| && h'.pools[i].live == h.pools[i].live - {s}
                  && h'.pools[i].free == [s] + h.pools[i].free
                  && forall j :: 0 <= j < |h.pools| && j != i ==> h'.pools[j] == h.pools[j])
  {
  }

  /** freeMemory of a live slot, with the size it was asked for, keeps everything in order. */
  lemma FreeMemoryOk(h: Heap, size: nat, s: nat)
    requires HeapOk(h) && (s == 0 || MAX_SIZE < size || (0 < size && s in h.pools[Index(size)].live))
    ensures HeapOk(FreeMemory(h, size, s))
  {
    if s != 0 && size <= MAX_SIZE {
      var i := Index(size);
      var p := h.pools[i];
      var r := Deallocate(p, h.words, s);
      FreeOk(p, h.words, s);
      assert Carved(p, s);
      var b := HomeBlock(p, s);
      forall j | 0 <= j < POOLS && j != i
        ensures Ok(h.pools[j], r.1) && PoolsApart(r.0, h.pools[j]) && PoolsApart(h.pools[j], r.0)
      {
        assert PoolsApart(p, h.pools[j]) && PoolsApart(h.pools[j], p);
        Elsewhere(h.pools[j], h.words, b, s, p.freeSlot);
      }
      HeapWith(h, i, r.0, r.1);
    }
  }

  /** A client that writes inside a slot it holds. */
  function ClientWrite(h: Heap, a: nat, v: nat): Heap {
    h.(words := h.words[a := v])
  }

  ghost predicate InLive(h: Heap, i: nat, s: nat, a: nat) {
    i < |h.pools| && s in h.pools[i].live && s <= a < s + h.pools[i].slotSize
  }

  lemma ClientWriteOk(h: Heap, i: nat, s: nat, a: nat, v: nat)
    requires HeapOk(h) && InLive(h, i, s, a)
    ensures HeapOk(ClientWrite(h, a, v))
  {
    var p, m' := h.pools[i], h.words[a := v];
    LiveAddress(p, s, a);
    WriteKeeps(p, h.words, a, v);
    assert Carved(p, s);
    var b := HomeBlock(p, s);
    forall j | 0 <= j < POOLS && j != i
      ensures Ok(h.pools[j], m') && PoolsApart(p, h.pools[j]) && PoolsApart(h.pools[j], p)
    {
      assert PoolsApart(p, h.pools[j]) && PoolsApart(h.pools[j], p);
      Elsewhere(h.pools[j], h.words, b, a, v);
    }
    assert h.pools[i := p] == h.pools;
    HeapWith(h, i, p, m');
  }

  lemma InitHeapOk()
    ensures HeapOk(InitHeap())
  {
    var h := InitHeap();
    forall i | 0 <= i < POOLS ensures Ok(h.pools[i], h.words) && h.pools[i].slotSize == (i + 1) * 8 {
      InitOk((i + 1) * 8);
    }
  }

  // ---------------------------------------------------------------- runs

  datatype Action =
    | Use(size: nat, block: nat)
    | Free(size: nat, slot: nat)
    | Write(pool: nat, slot: nat, address: nat, value: nat)

  /** Operator new supplies blocks that are its own; clients free what they hold, with the size they asked for, and
      write where they hold. */
  ghost predicate Allowed(h: Heap, a: Action)
    requires HeapOk(h)
  {
    match a
    case Use(size, b) => NeedsBlock(h, size) ==> NewBlock(h, b)
    case Free(size, s) => s == 0 || MAX_SIZE < size || (0 < size && s in h.pools[Index(size)].live)
    case Write(i, s, a, v) => InLive(h, i, s, a)
  }

  ghost function Step(h: Heap, a: Action): (h': Heap)
    requires HeapOk(h) && Allowed(h, a)
    ensures HeapOk(h')
  {
    match a
    case Use(size, b) => UseOk(h, size, b); UseMemory(h, size, b).0
    case Free(size, s) => FreeMemoryOk(h, size, s); FreeMemory(h, size, s)
    case Write(i, s, a, v) => ClientWriteOk(h, i, s, a, v); ClientWrite(h, a, v)
  }

  /** The heap after initMemoryPool and a run of calls and writes; None if one of them was not allowed. */
  ghost function Run(run: seq<Action>): (h: Option<Heap>)
    ensures h.Some? ==> HeapOk(h.value)
  {
    if run == [] then
      InitHeapOk();
      Some(InitHeap())
    else
      var h := Run(run[..|run| - 1]);
      if h.Some? && Allowed(h.value, run[|run| - 1]) then Some(Step(h.value, run[|run| - 1])) else None
  }

  /** Every slot handed out and not taken back, in every reachable heap, lies inside one block past its header, is
      8-byte aligned, and is apart from every other live slot of any pool. */
  lemma LiveSlotsApart(run: seq<Action>, i: nat, s: nat, j: nat, t: nat)
    requires Run(run).Some? && i < POOLS && j < POOLS
    requires s in Run(run).value.pools[i].live && t in Run(run).value.pools[j].live && (i, s) != (j, t)
    ensures var p, q := Run(run).value.pools[i], Run(run).value.pools[j];
            s % 8 == 0 && (exists b :: b in p.blocks && Inside(s, p.slotSize, b))
            && (s + p.slotSize <= t || t + q.slotSize <= s)
  {
    var p, q := Run(run).value.pools[i], Run(run).value.pools[j];
    assert Carved(p, s) && SlotOk(p, s) && Carved(q, t);
    var b := HomeBlock(p, s);
    if i == j {
      assert Apart(s, t, p.slotSize);
    } else {
      assert PoolsApart(p, q);
      SlotAway(q, t, b);
    }
  }

  /** ... and apart from every slot on a free list and from every tail still to be carved, of any pool. */
  lemma LiveApartFromFree(run: seq<Action>, i: nat, s: nat, j: nat)
    requires Run(run).Some? && i < POOLS && j < POOLS && s in Run(run).value.pools[i].live
    ensures var p, q := Run(run).value.pools[i], Run(run).value.pools[j];
            (forall t :: t in q.free ==> s + p.slotSize <= t || t + q.slotSize <= s)
            && (q.blocks != [] ==> s + p.slotSize <= q.currentSlot || q.blocks[0] + BLOCK_SIZE <= s)
  {
    var p, q := Run(run).value.pools[i], Run(run).value.pools[j];
    assert Carved(p, s) && SlotOk(p, s);
    var b := HomeBlock(p, s);
    if i != j {
      assert PoolsApart(p, q);
      if q.blocks != [] { assert Apart(b, q.blocks[0], BLOCK_SIZE); }
    }
    forall t: nat | t in q.free ensures s + p.slotSize <= t || t + q.slotSize <= s {
      assert Carved(q, t);
      if i == j { assert Apart(s, t, p.slotSize); } else { SlotAway(q, t, b); }
    }
  }

  /** The slots of pool i answered by useMemory and not given back since. */
  ghost function Held(run: seq<Action>, i: nat): set<nat>
    requires Run(run).Some?
  {
    if run == [] then {}
    else
      var earlier, s := run[..|run| - 1], Held(run[..|run| - 1], i);
      match run[|run| - 1]
      case Use(size, b) =>
        if 0 < size <= 512 && (size + 7) / 8 - 1 == i then s + {UseMemory(Run(earlier).value, size, b).1} else s
      case Free(size, slot) => if slot != 0 && 0 < size <= 512 && (size + 7) / 8 - 1 == i then s - {slot} else s
      case Write(_, _, _, _) => s
  }

  lemma StepHeld(h: Heap, a: Action, i: nat)
    requires HeapOk(h) && Allowed(h, a) && i < POOLS
    ensures Step(h, a).pools[i].live
            == match a
               case Use(size, b) =>
                 if 0 < size <= 512 && (size + 7) / 8 - 1 == i then h.pools[i].live + {UseMemory(h, size, b).1}
                 else h.pools[i].live
               case Free(size, slot) =>
                 if slot != 0 && 0 < size <= 512 && (size + 7) / 8 - 1 == i then h.pools[i].live - {slot}
                 else h.pools[i].live
               case Write(_, _, _, _) => h.pools[i].live
  {
    match a
    case Use(size, b) => UseAnswers(h, size, b);
    case Free(size, slot) => FreeReleases(h, size, slot);
    case Write(_, _, _, _) =>
  }

  /** In every run the live slots are exactly those: so what the other lemmas say of live slots is said of
      the answers. */
  lemma {:induction false} LiveIsHeld(run: seq<Action>, i: nat)
    requires Run(run).Some? && i < POOLS
    ensures Run(run).value.pools[i].live == Held(run, i)
  {
    if run != [] {
      LiveIsHeld(run[..|run| - 1], i);
      StepHeld(Run(run[..|run| - 1]).value, run[|run| - 1], i);
    }
  }

  /** The slots of pool i freed and not reused, last freed first, read off the calls alone. */
  function Stack(run: seq<Action>, i: nat): seq<nat> {
    if run == [] then []
    else
      var s := Stack(run[..|run| - 1], i);
      match run[|run| - 1]
      case Use(size, _) => if 0 < size <= MAX_SIZE && Index(size) == i && s != [] then s[1..] else s
      case Free(size, slot) => if slot != 0 && 0 < size <= MAX_SIZE && Index(size) == i then [slot] + s else s
      case Write(_, _, _, _) => s
  }

  lemma HeadNull(p: Pool, m: Words)
    requires Ok(p, m)
    ensures p.freeSlot == 0 <==> p.free == []
  {
    if p.free != [] {
      assert Carved(p, p.free[0]) && SlotOk(p, p.free[0]);
    }
  }

  /** Whatever clients write, each free list is threaded through memory over exactly the slots freed and not reused,
      last freed first, without repetition, and ends in null; none of them is live. */
  lemma {:induction false} FreeListsAreStacks(run: seq<Action>, i: nat)
    requires Run(run).Some? && i < POOLS
    ensures var h := Run(run).value;
            Threaded(h.words, h.pools[i].freeSlot, Stack(run, i)) && Distinct(Stack(run, i))
            && Stack(run, i) == h.pools[i].free && forall s :: s in Stack(run, i) ==> s !in h.pools[i].live
  {
    if run == [] {
    } else {
      var before := run[..|run| - 1];
      FreeListsAreStacks(before, i);
      HeadNull(Run(before).value.pools[i], Run(before).value.words);
    }
  }

  /** A pool with freed slots answers with the one freed last. */
  lemma ReuseIsLifo(run: seq<Action>, size: nat, b: nat)
    requires Run(run).Some? && 0 < size <= MAX_SIZE && Stack(run, Index(size)) != []
    ensures UseMemory(Run(run).value, size, b).1 == Stack(run, Index(size))[0]
  {
    var i := Index(size);
    FreeListsAreStacks(run, i);
    HeadNull(Run(run).value.pools[i], Run(run).value.words);
  }

  // ---------------------------------------------------------------- slots aligned to their size

  /** Every slot carved, and the next one, is a multiple of the slot size. */
  ghost predicate Aligned(p: Pool)
    requires p.slotSize > 0
  {
    (forall s: nat {:trigger Carved(p, s)} :: Carved(p, s) ==> s % p.slotSize == 0) && p.currentSlot % p.slotSize == 0
  }

  lemma NextAligned(s: nat, size: nat)
    requires SizeOk(size) && s % size == 0
    ensures Advance(s, size) % size == 0
  {
    Divides(size, 1, s);
    assert Advance(s, size) == size * 1 + s;
  }

  lemma FirstAligned(b: nat, size: nat)
    requires SizeOk(size) && BlockOk(b) && LIMIT % size == 0
    ensures First(b, size) % size == 0
  {
    PadAligns(b + HEADER, size);
  }

  lemma AllocateAligned(p: Pool, m: Words, b: nat)
    requires Ok(p, m) && Aligned(p) && LIMIT % p.slotSize == 0
    requires p.freeSlot == 0 && p.currentSlot >= p.lastSlot ==> Supplied(p, b)
    ensures Aligned(Allocate(p, m, b).0)
  {
    var r := Allocate(p, m, b);
    var first := First(b, p.slotSize);
    HeadNull(p, m);
    if p.freeSlot == 0 {
      if p.currentSlot >= p.lastSlot {
        FirstAligned(b, p.slotSize);
        NextAligned(first, p.slotSize);
      } else {
        NextAligned(p.currentSlot, p.slotSize);
      }
    }
    forall s: nat | Carved(r.0, s) ensures s % p.slotSize == 0 {
      if s != r.2 {
        assert Carved(p, s);
      } else if p.freeSlot != 0 || p.currentSlot < p.lastSlot {
        assert s == p.currentSlot || Carved(p, s);
      }
    }
  }

  /** Where the slot size divides 2^64, that is for 8, 16, ..., 512, every slot is aligned to its size. */
  lemma {:induction false} SlotsAlignedToSize(run: seq<Action>, i: nat)
    requires Run(run).Some? && i < POOLS && LIMIT % ((i + 1) * 8) == 0
    ensures Aligned(Run(run).value.pools[i])
  {
    if run != [] {
      var before, a := run[..|run| - 1], run[|run| - 1];
      SlotsAlignedToSize(before, i);
      var h := Run(before).value;
      match a
      case Use(size, b) =>
        if 0 < size <= MAX_SIZE && Index(size) == i { AllocateAligned(h.pools[i], h.words, b); }
      case Free(size, s) =>
        if s != 0 && 0 < size <= MAX_SIZE && Index(size) == i {
          forall t: nat | Carved(Run(run).value.pools[i], t) ensures t % ((i + 1) * 8) == 0 {
            assert Carved(h.pools[i], t);
          }
        }
      case Write(_, _, _, _) =>
    }
  }

  /** Powers of two divide 2^64; 24 does not, and the first slot of a block at 4096 is then off by 16. */
  lemma WrapAround()
    ensures forall s :: s in {8, 16, 32, 64, 128, 256, 512} ==> LIMIT % s == 0
    ensures LIMIT % 24 == 16
    ensures (4096 + HEADER + Pad(4096 + HEADER, 24)) % 24 == 16
  {
  }
}
