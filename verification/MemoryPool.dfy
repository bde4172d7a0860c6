/** The memory pool as it is built: cursors into blocks, and two lists kept in the memory handed out.
    Each call is proved to do what `MemoryPoolSpec` says; operator new is a parameter, the block it gives. */
module MemoryPool {
  import opened MemoryPoolSpec

  class Memory {
    var words: Words

    constructor ()
      ensures words == map[]
    {
      words := map[];
    }

    function Load(a: nat): nat
      reads this
    {
      Read(words, a)
    }

    method Store(a: nat, v: nat)
      modifies this
      ensures words == old(words)[a := v]
    {
      words := words[a := v];
    }
  }

  class MemoryPool {
    var slotSize: nat
    var currentBlock: nat
    var currentSlot: nat
    var lastSlot: nat
    var freeSlot: nat
    const memory: Memory
    ghost var blocks: seq<nat>
    ghost var live: set<nat>
    ghost var free: seq<nat>

    ghost function Value(): Pool
      reads this
    {
      Pool(slotSize, currentBlock, currentSlot, lastSlot, freeSlot, blocks, live, free)
    }

    ghost predicate Valid()
      reads this, memory
    {
      Ok(Value(), memory.words)
    }

    constructor (memory: Memory)
      ensures this.memory == memory
    {
      this.memory := memory;
    }

    method Init(size: nat)
      requires size > 0
      modifies this
      ensures Value() == MemoryPoolSpec.Init(size)
    {
      slotSize := size;
      currentBlock, currentSlot, lastSlot, freeSlot := 0, 0, 0, 0;
      blocks, live, free := [], {}, [];
    }

    static method PadPointer(p: nat, align: nat) returns (pad: nat)
      requires 0 < align < LIMIT && p < LIMIT
      ensures pad == Pad(p, align)
    {
      pad := (if align >= p then align - p else align - p + LIMIT) % align;
    }

    method AllocateBlock(newBlock: nat) returns (useSlot: nat)
      requires SizeOk(slotSize) && BlockOk(newBlock)
      modifies this, memory
      ensures (Value(), memory.words, useSlot)
              == MemoryPoolSpec.AllocateBlock(old(Value()), old(memory.words), newBlock)
    {
      var body := newBlock + 8;
      var bodyPadding := PadPointer(body, slotSize);
      memory.Store(newBlock, currentBlock);
      currentBlock := newBlock;
      currentSlot := body + bodyPadding;
      lastSlot := newBlock + 4096 - slotSize + 1;
      useSlot := currentSlot;
      currentSlot := currentSlot + slotSize / 8 * 8;
      blocks, live := [newBlock] + blocks, live + {useSlot};
    }

    method NoFreeSolve(newBlock: nat) returns (useSlot: nat)
      requires SizeOk(slotSize) && (currentSlot >= lastSlot ==> BlockOk(newBlock))
      modifies this, memory
      ensures (Value(), memory.words, useSlot) == MemoryPoolSpec.NoFreeSolve(old(Value()), old(memory.words), newBlock)
    {
      if currentSlot >= lastSlot {
        useSlot := AllocateBlock(newBlock);
        return;
      }
      useSlot := currentSlot;
      currentSlot := currentSlot + slotSize / 8 * 8;
      live := live + {useSlot};
    }

    /** Takes the slot freed last, or else the next of the newest block, or else the first of a new one. */
    method Allocate(newBlock: nat) returns (slot: nat)
      requires Valid() && (freeSlot == 0 && currentSlot >= lastSlot ==> Supplied(Value(), newBlock))
      modifies this, memory
      ensures Valid()
              && (Value(), memory.words, slot) == MemoryPoolSpec.Allocate(old(Value()), old(memory.words), newBlock)
      ensures slot != 0 && slot !in old(live) && live == old(live) + {slot}
    {
      AllocateOk(Value(), memory.words, newBlock);
      NewSlot(Value(), memory.words, newBlock);
      if freeSlot != 0 {
        slot := freeSlot;
        freeSlot := memory.Load(freeSlot);
        live, free := live + {slot}, if free == [] then [] else free[1..];
      } else {
        slot := NoFreeSolve(newBlock);
      }
    }

    method DeAllocate(p: nat)
      requires Valid() && (p == 0 || p in live)
      modifies this, memory
      ensures Valid() && (Value(), memory.words) == Deallocate(old(Value()), old(memory.words), p)
    {
      FreeOk(Value(), memory.words, p);
      if p != 0 {
        memory.Store(p, freeSlot);
        freeSlot := p;
        live, free := live - {p}, [p] + free;
      }
    }

    /** The destructor follows the links in the blocks' headers; it gives back every block, newest first. */
    method Destroy() returns (freed: seq<nat>)
      requires Valid()
      ensures freed == blocks
    {
      freed := [];
      var cur := currentBlock;
      while cur != 0
        invariant freed <= blocks
        invariant cur == if |freed| < |blocks| then blocks[|freed|] else 0
        decreases |blocks| - |freed|
      {
        assert Links(memory.words, blocks, |freed|);
        var next := memory.Load(cur);
        freed := freed + [cur];
        cur := next;
      }
      assert forall i :: 0 <= i < |blocks| ==> BlockOk(blocks[i]);
    }
  }

  /** The 64 pools, which share memory. */
  class MemoryPools {
    const memory: Memory
    const pools: seq<MemoryPool>

    ghost function View(): Heap
      reads pools, memory
    {
      Heap(seq(|pools|, i requires 0 <= i < |pools| reads pools => pools[i].Value()), memory.words)
    }

    ghost predicate Valid()
      reads pools, memory
    {
      && |pools| == POOLS && (forall i, j :: 0 <= i < j < POOLS ==> pools[i] != pools[j])
      && (forall i :: 0 <= i < POOLS ==> pools[i].memory == memory)
      && HeapOk(View())
    }

    /** initMemoryPool: slots of 8, 16, ..., 512 bytes. */
    constructor ()
      ensures Valid() && View() == InitHeap() && fresh(memory) && fresh(pools)
    {
      var m := new Memory();
      var ps: seq<MemoryPool> := [];
      var i := 0;
      while i < 64
        invariant 0 <= i <= 64 && |ps| == i && m.words == map[] && fresh(m) && fresh(ps)
        invariant forall j, k :: 0 <= j < k < i ==> ps[j] != ps[k]
        invariant forall j :: 0 <= j < i ==> ps[j].memory == m && ps[j].Value() == Init((j + 1) * 8)
      {
        var p := new MemoryPool(m);
        p.Init((i + 1) * 8);
        ps := ps + [p];
        i := i + 1;
      }
      memory, pools := m, ps;
      new;
      InitHeapOk();
      assert View() == InitHeap();
    }

    method UseMemory(size: nat, newBlock: nat) returns (p: nat)
      requires Valid() && (NeedsBlock(View(), size) ==> NewBlock(View(), newBlock))
      modifies pools, memory
      ensures Valid() && (View(), p) == MemoryPoolSpec.UseMemory(old(View()), size, newBlock)
      ensures size == 0 ==> p == 0 && View() == old(View())
      ensures size > 512 ==> p == newBlock && View() == old(View())
      ensures 0 < size <= 512 ==> var pool := pools[(size + 7) / 8 - 1];
                                  p != 0 && p !in old(pool.live) && pool.live == old(pool.live) + {p}
    {
      if size == 0 {
        return 0;
      }
      if size > 512 {
        return newBlock;
      }
      p := TakeSlot(size, newBlock);
    }

    method TakeSlot(size: nat, newBlock: nat) returns (p: nat)
      requires Valid() && 0 < size <= 512 && (NeedsBlock(View(), size) ==> NewBlock(View(), newBlock))
      modifies pools, memory
      ensures Valid() && View() == MemoryPoolSpec.UseMemory(old(View()), size, newBlock).0
      ensures p == MemoryPoolSpec.UseMemory(old(View()), size, newBlock).1
      ensures var pool := pools[(size + 7) / 8 - 1];
              p != 0 && p !in old(pool.live) && pool.live == old(pool.live) + {p}
    {
      UseOk(View(), size, newBlock);
      var i := (size + 7) / 8 - 1;
      ghost var h := View();
      p := pools[i].Allocate(newBlock);
      assert View().pools == h.pools[i := pools[i].Value()];
    }

    method FreeMemory(size: nat, p: nat)
      requires Valid() && Allowed(View(), Free(size, p))
      modifies pools, memory
      ensures Valid() && View() == MemoryPoolSpec.FreeMemory(old(View()), size, p)
      ensures p == 0 || size > 512 ==> View() == old(View())
      ensures p != 0 && size <= 512 ==> var pool := pools[(size + 7) / 8 - 1];
                                        pool.live == old(pool.live) - {p} && pool.freeSlot == p
    {
      FreeMemoryOk(View(), size, p);
      if p == 0 || size > 512 {
        return;
      }
      var i := (size + 7) / 8 - 1;
      ghost var h := View();
      pools[i].DeAllocate(p);
      assert View().pools == h.pools[i := pools[i].Value()];
    }
  }
}
