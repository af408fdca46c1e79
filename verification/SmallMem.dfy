/** rt_smem_*: the heap this firmware uses. The region is an array of bytes with
    its headers in band; pointers handed out are payload offsets. */
module SmallMemory {
  import opened Bytes
  import opened Payloads
  import opened Words
  import opened SmallHeap

  // The payload size a request is rounded up to.
  function Request(n: nat): nat {
    if Align(n) < MIN_SIZE then MIN_SIZE else Align(n)
  }

  // A free block with room for `size` payload bytes.
  predicate Roomy(b: Block, size: nat) {
    !b.used && b.size >= HEADER + size
  }

  // Block k is the first with room.
  predicate FirstFit(bs: seq<Block>, k: nat, size: nat) {
    k < |bs| && Roomy(bs[k], size) && forall i :: 0 <= i < k ==> !Roomy(bs[i], size)
  }

  predicate NoneFits(bs: seq<Block>, size: nat) {
    forall i :: 0 <= i < |bs| ==> !Roomy(bs[i], size)
  }

  // The count has grown by the footprint of the payload at q.
  ghost predicate Counted(live: map<nat, seq<byte>>, q: nat, before: nat, after: nat) {
    q in live && after == before + HEADER + |live[q]|
  }

  // The payload at q is the first block with room. What is left over is a free block
  // behind it if it can hold a header and MIN_SIZE bytes, and comes with it if not.
  ghost predicate Placed(before: seq<Block>, after: seq<Block>, q: nat, size: nat) {
    exists k: nat :: FirstFit(before, k, size) && q == before[k].Payload() && TakenAt(before, after, k, size)
  }

  ghost predicate TakenAt(before: seq<Block>, after: seq<Block>, k: nat, size: nat)
    requires k < |before|
  {
    var b := before[k];
    var all := HEADER + size;
    after == before[..k]
             + (if b.size - all >= HEADER + MIN_SIZE then [Block(b.off, all, true), Block(b.off + all, b.size - all, false)] else [b.(used := true)])
             + before[k + 1..]
  }

  lemma OneFirstFit(bs: seq<Block>, size: nat, k: nat)
    requires FirstFit(bs, k, size)
    ensures forall j: nat :: FirstFit(bs, j, size) ==> j == k
  {}

  lemma TakenIs(bs: seq<Block>, k: nat, size: nat)
    requires k < |bs| && bs[k].size >= HEADER + size
    ensures TakenAt(bs, Taken(bs, k, size), k, size)
    ensures var s := Taken(bs, k, size)[k].size - HEADER;
            && size <= s < size + HEADER + MIN_SIZE
            && s == if bs[k].size - HEADER - size >= HEADER + MIN_SIZE then size else bs[k].size - HEADER
  {
    SplittedAt(bs, k, HEADER + size);
  }

  // A request is rounded up to the next word, and to the least payload there is.
  lemma RequestIs(n: nat, m: nat)
    ensures n <= Request(n) && MIN_SIZE <= Request(n) && Request(n) % 4 == 0
    ensures n <= m && MIN_SIZE <= m && m % 4 == 0 ==> Request(n) <= m
  {}

  // What rt_smem_realloc does to the live payload at p, for an aligned new size.
  ghost predicate Resized(before: map<nat, seq<byte>>, after: map<nat, seq<byte>>, p: nat, n: nat, r: Option<nat>, noneFits: bool)
    requires p in before
  {
    var old0 := before[p];
    if n == |old0| then r == Some(p) && after == before
    else if n + HEADER + MIN_SIZE < |old0| then r == Some(p) && after == before[p := old0[..n]]
    else if noneFits then r == None && after == before
    else r.Some? && Moved(before, after, p, r.value, if |old0| < n then |old0| else n, n)
  }

  // What it does to the counters: nothing; or less is used; or, for a moment, both
  // the old and the new block are.
  ghost predicate Metered(before: map<nat, seq<byte>>, after: map<nat, seq<byte>>, p: nat, n: nat, r: Option<nat>, a: Meter, b: Meter)
    requires p in before
  {
    var len := |before[p]|;
    if r == None || n == len then b == a
    else if n + HEADER + MIN_SIZE < len then b == Meter(a.used - (len - n), a.max)
    else
      && r.value in after
      && var size := |after[r.value]|;
         Request(n) <= size < Request(n) + HEADER + MIN_SIZE
         && b == Meter(a.used + size - len, Larger(a.max, a.used + HEADER + size))
  }

  // Asking for less fails exactly if the saving is too small for a block of its
  // own and no free block has room for the whole.
  lemma ShrinkFails(before: map<nat, seq<byte>>, after: map<nat, seq<byte>>, p: nat, n: nat, r: Option<nat>, noneFits: bool)
    requires p in before && n < |before[p]| && Resized(before, after, p, n, r, noneFits)
    ensures r == None <==> n + HEADER + MIN_SIZE >= |before[p]| && noneFits
    ensures r == None ==> after == before
  {}

  class SmallMem {
    const pool: Pool
    const heap: array<byte>
    var lfree: nat
    var used: nat
    var max: nat
    ghost var blocks: seq<Block>

    // The blocks tile the region, agree with their headers, and are counted.
    ghost predicate Shape()
      reads this, heap
    {
      && heap.Length == pool.size + 2 * HEADER
      && Heap(pool, heap[..], blocks)
      && used == UsedSum(blocks) <= max
    }

    ghost predicate LowestFree()
      reads this
    {
      lfree == OffsetAt(pool, blocks, FirstFree(blocks))
    }

    // Between calls no two neighbours are free and lfree is the lowest free block.
    ghost predicate Valid()
      reads this, heap
    {
      Shape() && Coalesced(blocks) && LowestFree()
    }

    // The live payloads and their bytes.
    ghost function Live(): map<nat, seq<byte>>
      requires Shape()
      reads this, heap
    {
      HeapFits(pool, heap[..], blocks);
      Store(heap[..], blocks)
    }

    ghost function Meters(): Meter
      reads this
    {
      Meter(used, max)
    }

    // rt_smem_init: one free block between the start and the end sentinel.
    constructor (pool: Pool)
      requires pool.Valid()
      ensures Valid() && fresh(heap) && this.pool == pool
      ensures Live() == map[] && used == 0 && max == 0 && blocks == [Block(0, pool.End(), false)]
    {
      this.pool := pool;
      heap := new byte[pool.size + 2 * HEADER];
      lfree, used, max := 0, 0, 0;
      blocks := [Block(0, pool.End(), false)];
      new;
      hide Put, Word, Heap, InitBytes;
      InitHeap(pool, heap[..]);
      Format();
      HeapFits(pool, heap[..], blocks);
      StoreNone(heap[..], blocks[0]);
      SumAround(blocks, 0);
    }

    method Format()
      requires heap.Length == pool.size + 2 * HEADER
      modifies heap
      ensures heap[..] == InitBytes(pool, old(heap[..]))
    {
      hide Put, Word;
      var e := pool.size + HEADER;
      StoreWord(0, pool.Tag(false));
      StoreWord(4, e);
      StoreWord(8, 0);
      StoreWord(e, pool.Tag(true));
      StoreWord(e + 4, e);
      StoreWord(e + 8, e);
    }

    method StoreWord(a: nat, v: nat)
      requires a + 4 <= heap.Length
      modifies heap
      ensures heap[..] == Put(old(heap[..]), a, v)
    {
      heap[a] := LowByte(v);
      heap[a + 1] := LowByte(v / 0x100);
      heap[a + 2] := LowByte(v / 0x1_0000);
      heap[a + 3] := LowByte(v / 0x100_0000);
    }

    // MEM_ISUSED.
    method IsUsed(a: nat) returns (r: bool)
      requires a + 4 <= heap.Length
      ensures r == (Word(heap[..], a) % 2 == 1)
    {
      r := Word(heap[..], a) % 2 == 1;
    }

    // The writes that break block i at ptr2.
    method Split(ptr: nat, ptr2: nat, ghost i: nat)
      requires heap.Length == pool.size + 2 * HEADER && Heap(pool, heap[..], blocks)
      requires i < |blocks| && blocks[i].off == ptr
      requires ptr + HEADER <= ptr2 && ptr2 + HEADER <= blocks[i].Stop() && ptr2 % 4 == 0
      modifies heap, `blocks
      ensures Heap(pool, heap[..], blocks)
      ensures blocks == Splitted(old(blocks), i, ptr2 - ptr)
      ensures Untouched(old(heap[..]), heap[..], blocks)
    {
      hide Put, Word, Heap, Untouched, Splitted;
      ghost var m := heap[..];
      ReadHeader(pool, m, blocks, i);
      SplitBlock(pool, m, blocks, i, ptr2 - ptr);
      var next := Word(heap[..], ptr + 4);
      StoreWord(ptr2, pool.Tag(false));
      StoreWord(ptr2 + 4, next);
      StoreWord(ptr2 + 8, ptr);
      StoreWord(ptr + 4, ptr2);
      if next != pool.size + HEADER {
        StoreWord(next + 8, ptr2);
      }
      blocks := Splitted(blocks, i, ptr2 - ptr);
    }

    // The writes that absorb the free block i + 1 into the free block i.
    method Merge(ptr: nat, nptr: nat, ghost i: nat)
      requires Shape() && i + 1 < |blocks| && !blocks[i].used && !blocks[i + 1].used
      requires blocks[i].off == ptr && blocks[i + 1].off == nptr
      modifies heap, `blocks
      ensures Shape() && blocks == Merged(old(blocks), i)
      ensures Live() == old(Live())
    {
      hide Put, Word, Heap, Untouched, Merged, Store, UsedSum;
      ghost var m := heap[..];
      ReadHeader(pool, m, blocks, i);
      ReadHeader(pool, m, blocks, i + 1);
      MergeBlocks(pool, m, blocks, i);
      MergeStore(pool, m, blocks, i);
      var next := Word(heap[..], nptr + 4);
      StoreWord(nptr, 0);
      StoreWord(ptr + 4, next);
      StoreWord(next + 8, ptr);
      blocks := Merged(blocks, i);
      StoreSame(m, heap[..], blocks);
    }

    // if (m->lfree == from) m->lfree = to
    method Redirect(from: nat, to: nat)
      modifies `lfree
      ensures lfree == if old(lfree) == from then to else old(lfree)
    {
      if lfree == from {
        lfree := to;
      }
    }

    // plug_holes: block i has just become free; merge it with a free follower
    // and then with a free predecessor.
    method PlugHoles(mem: nat, ghost i: nat)
      requires Shape() && LowestFree()
      requires i < |blocks| && blocks[i].off == mem && !blocks[i].used
      requires CoalescedBut(blocks, i)
      modifies heap, `blocks, `lfree
      ensures Valid() && Live() == old(Live())
    {
      hide Heap, Merged, UsedSum, Store, FirstFree, Word, CoalescedBut, Coalesced;
      PlugForward(mem, i);
      PlugBackward(mem, i);
    }

    method PlugForward(mem: nat, ghost i: nat)
      requires Shape() && LowestFree()
      requires i < |blocks| && blocks[i].off == mem && !blocks[i].used
      requires CoalescedBut(blocks, i)
      modifies heap, `blocks, `lfree
      ensures Shape() && LowestFree() && Live() == old(Live())
      ensures i < |blocks| && blocks[i].off == mem && !blocks[i].used
      ensures forall j :: 0 <= j < |blocks| - 1 && j + 1 != i ==> blocks[j].used || blocks[j + 1].used
    {
      hide Heap, Merged, UsedSum, Store, FirstFree, Word;
      ReadHeader(pool, heap[..], blocks, i);
      ReadEnd(pool, heap[..], blocks);
      if i + 1 < |blocks| {
        ReadHeader(pool, heap[..], blocks, i + 1);
      }
      var nmem := Word(heap[..], mem + 4);
      var nused := IsUsed(nmem);
      if mem != nmem && !nused && nmem != pool.size + HEADER {
        HeapTiles(pool, heap[..], blocks);
        MergeFirstFree(pool, blocks, i);
        MergedAt(blocks, i);
        Redirect(nmem, mem);
        Merge(mem, nmem, i);
      }
    }

    method PlugBackward(mem: nat, ghost i: nat)
      requires Shape() && LowestFree()
      requires i < |blocks| && blocks[i].off == mem && !blocks[i].used
      requires forall j :: 0 <= j < |blocks| - 1 && j + 1 != i ==> blocks[j].used || blocks[j + 1].used
      modifies heap, `blocks, `lfree
      ensures Valid() && Live() == old(Live())
    {
      hide Heap, Merged, UsedSum, Store, FirstFree, Word;
      ReadHeader(pool, heap[..], blocks, i);
      if i > 0 {
        ReadHeader(pool, heap[..], blocks, i - 1);
      }
      var pmem := Word(heap[..], mem + 8);
      var pused := IsUsed(pmem);
      if pmem != mem && !pused {
        HeapTiles(pool, heap[..], blocks);
        MergeFirstFree(pool, blocks, i - 1);
        MergedAt(blocks, i - 1);
        Redirect(mem, pmem);
        Merge(pmem, mem, i - 1);
      }
    }

    // rt_smem_free.
    method Free(rmem: Option<nat>)
      requires Valid() && (rmem.Some? ==> rmem.value in Live())
      modifies this, heap
      ensures Valid() && max == old(max)
      ensures rmem == None ==> Live() == old(Live()) && used == old(used)
      ensures rmem.Some? ==> Live() == old(Live()) - {rmem.value}
      ensures rmem.Some? ==> used == old(used) - HEADER - |old(Live())[rmem.value]|
    {
      hide Heap, Store, UsedSum, FirstFree, Put, Word, CoalescedBut, Coalesced;
      if rmem.Some? {
        var mem := rmem.value - HEADER;
        HeapFits(pool, heap[..], blocks);
        ghost var i := IndexOf(pool, heap[..], blocks, rmem.value);
        assert |Live()[rmem.value]| == blocks[i].size - HEADER;
        FreeBlock(mem, i);
        PlugHoles(mem, i);
      }
    }

    // Block i loses its mark; lfree and the count follow.
    method FreeBlock(mem: nat, ghost i: nat)
      requires Valid() && i < |blocks| && blocks[i].used && blocks[i].off == mem
      modifies this, heap
      ensures Shape() && LowestFree() && max == old(max)
      ensures blocks == old(blocks)[i := old(blocks)[i].(used := false)]
      ensures Live() == old(Live()) - {mem + HEADER}
      ensures used == old(used) - blocks[i].size
      ensures CoalescedBut(blocks, i)
    {
      hide Heap, Store, UsedSum, FirstFree, Put, Word;
      ghost var m, bs := heap[..], blocks;
      ReadHeader(pool, m, blocks, i);
      MarkBlock(pool, m, blocks, i, false);
      MarkStore(pool, m, blocks, i, false);
      FreedFirstFree(pool, m, blocks, i);
      StoreWord(mem, pool.Tag(false));
      blocks := blocks[i := blocks[i].(used := false)];
      if mem < lfree {
        lfree := mem;
      }
      ReadHeader(pool, heap[..], blocks, i);
      used := used - (Word(heap[..], mem + 4) - mem);
      MarkUntouched(pool, m, bs, i, false);
      StoreSame(m, heap[..], blocks);
    }

    // The search loop: the first block with room, walking the next fields from
    // lfree. It stops where the rest of the region is smaller than the request.
    method Search(size: nat) returns (ptr: nat, found: bool, ghost k: nat)
      requires Valid() && size <= pool.size
      ensures found <==> !NoneFits(blocks, size)
      ensures found ==> FirstFit(blocks, k, size) && ptr == blocks[k].off
    {
      hide Heap, Word, UsedSum;
      ptr, found, k := lfree, false, FirstFree(blocks);
      while ptr <= pool.size - size
        invariant k <= |blocks| && ptr == OffsetAt(pool, blocks, k)
        invariant forall i :: 0 <= i < k ==> !Roomy(blocks[i], size)
        decreases |blocks| - k
      {
        ReadHeader(pool, heap[..], blocks, k);
        var isUsed := IsUsed(ptr);
        var next := Word(heap[..], ptr + 4);
        if !isUsed && next - (ptr + HEADER) >= size {
          assert Roomy(blocks[k], size);
          found := true;
          return;
        }
        ptr, k := next, k + 1;
      }
      forall i | k <= i < |blocks| ensures !Roomy(blocks[i], size) {
        HeapTiles(pool, heap[..], blocks);
        NoRoomBehind(pool, blocks, k, i, size);
      }
    }

    // Cutting a free block in two is invisible to the clients and the counters.
    method SplitFree(ptr: nat, ptr2: nat, ghost k: nat)
      requires Shape() && k < |blocks| && blocks[k].off == ptr && !blocks[k].used
      requires ptr + HEADER <= ptr2 && ptr2 + HEADER <= blocks[k].Stop() && ptr2 % 4 == 0
      modifies heap, `blocks
      ensures Shape() && Live() == old(Live())
      ensures blocks == Splitted(old(blocks), k, ptr2 - ptr)
    {
      hide Heap, Word, Store, UsedSum, Splitted, Untouched;
      ghost var m := heap[..];
      ReadHeader(pool, m, blocks, k);
      SplitStore(pool, m, blocks, k, ptr2 - ptr);
      Split(ptr, ptr2, k);
      StoreSame(m, heap[..], blocks);
    }

    method MarkUsed(ptr: nat, ghost k: nat)
      requires Shape() && k < |blocks| && blocks[k].off == ptr && !blocks[k].used
      modifies heap, `blocks, `used, `max
      ensures Shape()
      ensures blocks == old(blocks)[k := old(blocks)[k].(used := true)]
      ensures ptr + HEADER !in old(Live()) && ptr + HEADER in Live()
      ensures Live() == old(Live())[ptr + HEADER := Live()[ptr + HEADER]]
      ensures |Live()[ptr + HEADER]| == blocks[k].size - HEADER
      ensures used == old(used) + blocks[k].size && max == Larger(old(max), used)
    {
      hide Heap, Word, Put, Store, UsedSum, Untouched;
      ghost var m, bs := heap[..], blocks;
      ReadHeader(pool, m, blocks, k);
      MarkBlock(pool, m, blocks, k, true);
      MarkStore(pool, m, blocks, k, true);
      MarkUntouched(pool, m, blocks, k, true);
      used := used + (Word(heap[..], ptr + 4) - ptr);
      if max < used {
        max := used;
      }
      StoreWord(ptr, pool.Tag(true));
      blocks := blocks[k := blocks[k].(used := true)];
      StoreSame(m, heap[..], blocks);
    }

    // If the lowest free block has just been taken, walk on to the next free one.
    method AdvanceLowest(mem: nat, ghost k: nat)
      requires Shape() && k < |blocks| && blocks[k].off == mem && blocks[k].used
      requires if lfree == mem then forall i :: 0 <= i < k ==> blocks[i].used else LowestFree()
      modifies `lfree
      ensures LowestFree()
    {
      hide Heap, Word, Store, UsedSum, FirstFree;
      if mem == lfree {
        ghost var j := k;
        ReadHeader(pool, heap[..], blocks, k);
        var isUsed := IsUsed(lfree);
        while isUsed && lfree != pool.size + HEADER
          invariant k <= j <= |blocks| && lfree == OffsetAt(pool, blocks, j) && lfree + 4 <= heap.Length
          invariant isUsed == (Word(heap[..], lfree) % 2 == 1)
          invariant forall i :: 0 <= i < j ==> blocks[i].used
          decreases |blocks| - j
        {
          ReadHeader(pool, heap[..], blocks, j);
          lfree, j := Word(heap[..], lfree + 4), j + 1;
          if j < |blocks| {
            ReadHeader(pool, heap[..], blocks, j);
          }
          isUsed := IsUsed(lfree);
        }
        if j < |blocks| {
          ReadHeader(pool, heap[..], blocks, j);
        }
        FirstFreeIs(blocks, j);
      }
    }

    // Cuts what is left over off the block found at ptr, if it is enough for another.
    method Carve(ptr: nat, size: nat, ghost k: nat)
      requires Shape() && k < |blocks| && Roomy(blocks[k], size) && ptr == blocks[k].off && size % 4 == 0
      modifies heap, `blocks
      ensures Shape() && Live() == old(Live()) && blocks == Carved(old(blocks), k, size)
      ensures blocks[k].off == ptr && !blocks[k].used && blocks[k].size >= HEADER + size
    {
      hide Heap, Word, Store, UsedSum, Untouched, Splitted;
      ReadHeader(pool, heap[..], blocks, k);
      SplittedAt(blocks, k, HEADER + size);
      if Word(heap[..], ptr + 4) - (ptr + HEADER) >= size + HEADER + MIN_SIZE {
        SplitFree(ptr, ptr + HEADER + size, k);
      }
    }

    // The branch of rt_smem_alloc for the block found at ptr.
    method Take(ptr: nat, size: nat, ghost k: nat)
      requires Valid() && k < |blocks| && Roomy(blocks[k], size) && ptr == blocks[k].off && size % 4 == 0
      modifies this, heap
      ensures Valid() && blocks == Taken(old(blocks), k, size)
      ensures ptr + HEADER !in old(Live()) && ptr + HEADER in Live()
      ensures Live() == old(Live())[ptr + HEADER := Live()[ptr + HEADER]]
      ensures |Live()[ptr + HEADER]| == if old(blocks)[k].size - HEADER - size >= HEADER + MIN_SIZE then size else old(blocks)[k].size - HEADER
      ensures size <= |Live()[ptr + HEADER]| < size + HEADER + MIN_SIZE
      ensures used == old(used) + HEADER + |Live()[ptr + HEADER]| && max == Larger(old(max), used)
    {
      hide Heap, Word, Put, Store, UsedSum, Untouched, Splitted, FirstFree, Coalesced, Carved;
      TakenCoalesced(blocks, k, size);
      TakenIs(blocks, k, size);
      HeapTiles(pool, heap[..], blocks);
      LowestIs(pool, blocks, k);
      hide Tiles;
      Carve(ptr, size, k);
      MarkUsed(ptr, k);
      AdvanceLowest(ptr, k);
    }

    // rt_smem_alloc. Null exactly when the request is empty or no free block
    // anywhere has room for it; otherwise the first such block is handed out.
    method Alloc(n: nat) returns (q: Option<nat>)
      requires Valid() && n + 3 < WORD
      modifies this, heap
      ensures Valid()
      ensures q == None <==> n == 0 || NoneFits(old(blocks), Request(n))
      ensures q == None ==> Live() == old(Live()) && blocks == old(blocks) && used == old(used) && max == old(max)
      ensures q.Some? ==> Granted(old(Live()), Live(), q.value, Request(n))
      ensures q.Some? ==> Counted(Live(), q.value, old(used), used) && max == Larger(old(max), used)
      ensures q.Some? ==> Placed(old(blocks), blocks, q.value, Request(n))
      // no more than what was asked for, but for a rest too small to be a block
      ensures q.Some? ==> Request(n) <= |Live()[q.value]| < Request(n) + HEADER + MIN_SIZE
      ensures forall k: nat :: q.Some? && FirstFit(old(blocks), k, Request(n)) ==>
                |Live()[q.value]| == if old(blocks)[k].size - HEADER - Request(n) >= HEADER + MIN_SIZE then Request(n) else old(blocks)[k].size - HEADER
    {
      hide Heap, Store, UsedSum, FirstFree, Coalesced;
      if n == 0 {
        return None;
      }
      var size := Align(n);
      if size < MIN_SIZE {
        size := MIN_SIZE;
      }
      if size > pool.size {
        forall i | 0 <= i < |blocks| ensures !Roomy(blocks[i], size) {
          HeapFits(pool, heap[..], blocks);
          ReadHeader(pool, heap[..], blocks, i);
          HeapTiles(pool, heap[..], blocks);
          TilesBelow(pool, blocks, i);
        }
        return None;
      }
      var ptr, found;
      ghost var k;
      ptr, found, k := Search(size);
      if found {
        TakenIs(blocks, k, size);
        Take(ptr, size, k);
        q := Some(ptr + HEADER);
        OneFirstFit(old(blocks), size, k);
      } else {
        q := None;
      }
    }

    // rt_memcpy into the region.
    method CopyIn(q: nat, data: seq<byte>)
      requires q + |data| <= heap.Length
      modifies heap
      ensures forall k :: 0 <= k < heap.Length ==> heap[k] == if q <= k < q + |data| then data[k - q] else old(heap[k])
    {
      for k := 0 to |data|
        invariant forall j :: 0 <= j < heap.Length ==> heap[j] == if q <= j < q + k then data[j - q] else old(heap[j])
      {
        heap[q + k] := data[k];
      }
    }

    // Bytes written by the owner of the payload at q, or by rt_memcpy on its behalf.
    method WriteBytes(q: nat, at: nat, data: seq<byte>)
      requires Valid() && q in Live() && at + |data| <= |Live()[q]|
      modifies heap
      ensures Valid()
      ensures Live() == old(Live())[q := Spliced(old(Live())[q], at, data)]
    {
      hide Heap, Store, UsedSum, FirstFree, Coalesced;
      ghost var m := heap[..];
      HeapFits(pool, m, blocks);
      ghost var i := IndexOf(pool, m, blocks, q);
      ReadHeader(pool, m, blocks, i);
      CopyIn(q + at, data);
      PayloadWritten(pool, m, heap[..], blocks, i);
      assert heap[..][q..blocks[i].Stop()] == Spliced(m[q..blocks[i].Stop()], at, data);
    }

    // The shrinking branch: the payload keeps its first n bytes, the rest becomes a free block.
    method Shrink(p: nat, n: nat, ghost i: nat)
      requires Valid() && i < |blocks| && blocks[i].used && blocks[i].Payload() == p
      requires n % 4 == 0 && n + HEADER + MIN_SIZE < blocks[i].size - HEADER
      modifies this, heap
      ensures Valid() && max == old(max) && used == old(used) - (old(blocks)[i].size - HEADER - n)
      ensures p in old(Live()) && n <= |old(Live())[p]| && Live() == old(Live())[p := old(Live())[p][..n]]
    {
      hide Heap, Word, Store, UsedSum, FirstFree, Coalesced, CoalescedBut;
      var ptr2 := ShrinkBlock(p, n, i);
      PlugHoles(ptr2, i + 1);
    }

    method ShrinkBlock(p: nat, n: nat, ghost i: nat) returns (ptr2: nat)
      requires Valid() && i < |blocks| && blocks[i].used && blocks[i].Payload() == p
      requires n % 4 == 0 && n + HEADER + MIN_SIZE < blocks[i].size - HEADER
      modifies this, heap
      ensures Shape() && LowestFree() && CoalescedBut(blocks, i + 1)
      ensures i + 1 < |blocks| && blocks[i + 1].off == ptr2 && !blocks[i + 1].used
      ensures max == old(max) && used == old(used) - (old(blocks)[i].size - HEADER - n)
      ensures p in old(Live()) && n <= |old(Live())[p]| && Live() == old(Live())[p := old(Live())[p][..n]]
    {
      hide Heap, Word, Store, UsedSum, FirstFree, Coalesced, CoalescedBut, Splitted;
      ghost var m := heap[..];
      var ptr := p - HEADER;
      ReadHeader(pool, m, blocks, i);
      ShrinkSummary(pool, m, blocks, i, n);
      var size := Word(heap[..], ptr + 4) - ptr - HEADER;
      used := used - (size - n);
      ptr2 := ptr + HEADER + n;
      SplitLive(ptr, ptr2, i);
      if ptr2 < lfree {
        lfree := ptr2;
      }
    }

    // Cutting a live block in two shortens its payload.
    method SplitLive(ptr: nat, ptr2: nat, ghost i: nat)
      requires heap.Length == pool.size + 2 * HEADER && Heap(pool, heap[..], blocks)
      requires i < |blocks| && blocks[i].used && blocks[i].off == ptr
      requires ptr + HEADER <= ptr2 && ptr2 + HEADER <= blocks[i].Stop() && ptr2 % 4 == 0
      modifies heap, `blocks
      ensures Heap(pool, heap[..], blocks) && blocks == Splitted(old(blocks), i, ptr2 - ptr)
      ensures Fits(heap[..], blocks) && Fits(old(heap[..]), old(blocks))
      ensures Store(heap[..], blocks) == Store(old(heap[..]), old(blocks))[ptr + HEADER := old(heap[ptr + HEADER..ptr2])]
    {
      hide Heap, Word, Store, Splitted, Untouched;
      ghost var m := heap[..];
      ReadHeader(pool, m, blocks, i);
      SplitStore(pool, m, blocks, i, ptr2 - ptr);
      Split(ptr, ptr2, i);
      StoreSame(m, heap[..], blocks);
    }

    // rt_smem_realloc.
    method Realloc(rmem: Option<nat>, newsize: nat) returns (r: Option<nat>)
      requires Valid() && newsize + 3 < WORD && (rmem.Some? ==> rmem.value in Live())
      modifies this, heap
      ensures Valid()
      // more than the whole region
      ensures Align(newsize) > pool.size ==> r == None && Live() == old(Live()) && Meters() == old(Meters())
      // nothing: free
      ensures newsize == 0 ==> r == None && Live() == if rmem.Some? then old(Live()) - {rmem.value} else old(Live())
      ensures newsize == 0 ==> Meters() == Meter(old(used) - if rmem.Some? then HEADER + |old(Live())[rmem.value]| else 0, old(max))
      // from nothing: alloc
      ensures newsize > 0 && Align(newsize) <= pool.size && rmem == None ==>
                if NoneFits(old(blocks), Request(newsize)) then r == None && Live() == old(Live()) && Meters() == old(Meters())
                else r.Some? && Granted(old(Live()), Live(), r.value, Request(newsize))
      ensures newsize > 0 && Align(newsize) <= pool.size && rmem == None && r.Some? ==>
                && Counted(Live(), r.value, old(used), used) && max == Larger(old(max), used)
                && Request(newsize) <= |Live()[r.value]| < Request(newsize) + HEADER + MIN_SIZE
      // from one size to another
      ensures newsize > 0 && Align(newsize) <= pool.size && rmem.Some? ==>
                && Resized(old(Live()), Live(), rmem.value, Align(newsize), r, NoneFits(old(blocks), Request(newsize)))
                && Metered(old(Live()), Live(), rmem.value, Align(newsize), r, old(Meters()), Meters())
    {
      hide Heap, Word, Store, UsedSum, FirstFree, Coalesced, Placed, NoneFits, Metered, Resized;
      var n := Align(newsize);
      if n > pool.size {
        return None;
      } else if n == 0 {
        Free(rmem);
        return None;
      }
      if rmem == None {
        r := Alloc(n);
        return;
      }
      r := Resize(rmem.value, n);
    }

    method Resize(p: nat, n: nat) returns (r: Option<nat>)
      requires Valid() && p in Live() && 0 < n && n % 4 == 0 && n + 3 < WORD
      modifies this, heap
      ensures Valid()
      ensures Resized(old(Live()), Live(), p, n, r, NoneFits(old(blocks), Request(n)))
      ensures Metered(old(Live()), Live(), p, n, r, old(Meters()), Meters())
    {
      hide Heap, Word, Store, UsedSum, FirstFree, Coalesced, Placed, NoneFits, Moved;
      HeapFits(pool, heap[..], blocks);
      ghost var i := IndexOf(pool, heap[..], blocks, p);
      ReadHeader(pool, heap[..], blocks, i);
      var ptr := p - HEADER;
      var size := Word(heap[..], ptr + 4) - ptr - HEADER;
      assert |Live()[p]| == size;
      if size == n {
        return Some(p);
      }
      if n + HEADER + MIN_SIZE < size {
        Shrink(p, n, i);
        return Some(p);
      }
      r := Move(p, n, size);
    }

    // The expanding branch: a new payload, a copy, and the old payload freed.
    method Move(p: nat, n: nat, size: nat) returns (r: Option<nat>)
      requires Valid() && p in Live() && |Live()[p]| == size && 0 < n && n % 4 == 0 && n + 3 < WORD
      modifies this, heap
      ensures Valid()
      ensures r == None <==> NoneFits(old(blocks), Request(n))
      ensures r == None ==> Live() == old(Live()) && Meters() == old(Meters())
      ensures r.Some? ==> Moved(old(Live()), Live(), p, r.value, if size < n then size else n, n)
      ensures r.Some? ==> r.value in Live() && Request(n) <= |Live()[r.value]| < Request(n) + HEADER + MIN_SIZE
      ensures r.Some? ==>
                && r.value in Live()
                && Meters() == Meter(old(used) + |Live()[r.value]| - size, Larger(old(max), old(used) + HEADER + |Live()[r.value]|))
    {
      hide Heap, Word, Store, UsedSum, FirstFree, Coalesced, Placed, NoneFits;
      ghost var before := Live();
      r := Alloc(n);
      if r.Some? {
        var len := if size < n then size else n;
        HeapFits(pool, heap[..], blocks);
        ghost var i := IndexOf(pool, heap[..], blocks, p);
        ReadHeader(pool, heap[..], blocks, i);
        var data := heap[p..p + len];
        SliceOfSlice(heap[..], p, blocks[i].Stop(), 0, len);
        assert data == before[p][..len];
        WriteBytes(r.value, 0, data);
        Free(Some(p));
      }
    }
  }

  // On a heap that one payload fills, asking for a little less of it is refused.
  method ShrinkRefused(id: nat, size: nat, newsize: nat) returns (h: SmallMem, p: nat, r: Option<nat>)
    requires Pool(id, size).Valid() && MIN_SIZE <= size && size % 4 == 0 && size + 3 < WORD
    requires 0 < newsize && size - HEADER - MIN_SIZE <= Align(newsize) < size
    ensures fresh(h) && h.Valid() && r == None
    ensures p in h.Live() && |h.Live()[p]| == size && newsize < |h.Live()[p]|
  {
    hide Heap, Store, UsedSum, FirstFree, Coalesced, Resized, Metered;
    h := new SmallMem(Pool(id, size));
    assert Request(size) == size;
    OneBlock(size);
    var q := h.Alloc(size);
    p := q.value;
    ghost var before, i := h.Live(), 0;
    HeapFits(h.pool, h.heap[..], h.blocks);
    i := IndexOf(h.pool, h.heap[..], h.blocks, p);
    r := h.Realloc(Some(p), newsize);
    ShrinkFails(before, h.Live(), p, Align(newsize), r, true);
  }

  // A region of one block has room for a payload as large, and then for nothing.
  lemma OneBlock(size: nat)
    requires size >= MIN_SIZE
    ensures var free, taken := [Block(0, HEADER + size, false)], [Block(0, HEADER + size, true)];
            && !NoneFits(free, size) && (forall n :: NoneFits(taken, n))
            && forall after, q :: Placed(free, after, q, size) ==> after == taken && q == HEADER
  {
    var free := [Block(0, HEADER + size, false)];
    assert Roomy(free[0], size);
    assert Taken(free, 0, size) == [Block(0, HEADER + size, true)];
  }

  // The placement arithmetic of rt_smem_init: the memory object, then the
  // region, inside `size` bytes at `begin`. Null when they do not fit.
  method Init(begin: nat, size: nat, objectSize: nat) returns (h: SmallMem?)
    requires 0 < begin && begin + size < WORD && begin + 3 + objectSize + 3 < WORD && objectSize % 4 == 0
    ensures h != null <==> (begin + size) / 4 * 4 >= Align(begin) + objectSize + 2 * HEADER
    ensures h != null ==> h.Valid() && h.Live() == map[] && fresh(h) && fresh(h.heap)
    ensures h != null ==> h.pool.id >= begin && h.pool.id + objectSize + h.heap.Length <= begin + size
    // the first word that is whole, and all the words there are
    ensures h != null ==> h.pool.id < begin + 4 && begin + size < h.pool.id + objectSize + h.heap.Length + 4
  {
    hide Heap, Store, UsedSum, FirstFree, Coalesced;
    var smallMem := Align(begin);
    var startAddr := smallMem + objectSize;
    var beginAlign := Align(startAddr);
    var endAlign := (begin + size) / 4 * 4;
    assert beginAlign == startAddr;
    if endAlign > 2 * HEADER && endAlign - 2 * HEADER >= startAddr {
      h := new SmallMem(Pool(smallMem, endAlign - beginAlign - 2 * HEADER));
    } else {
      h := null;
    }
  }
}
