/** rt_memheap_*: a pool of blocks in a circular address-ordered list, the free
    ones also in a list of their own. The semaphore around each call is left out:
    calls do not overlap. */
module MemHeaps {
  import opened Bytes
  import opened Lists
  import opened Rings
  import opened MemHeapLayout
  import opened MemHeapSteps
  import opened Payloads

  function Request(n: nat): nat {
    if Align(n) < MIN_ALLOC then MIN_ALLOC else Align(n)
  }

  // The next word, and the least payload there is.
  lemma RequestIs(n: nat, m: nat)
    ensures n <= Request(n) && MIN_ALLOC <= Request(n) && Request(n) % 4 == 0
    ensures n <= m && MIN_ALLOC <= m && m % 4 == 0 ==> Request(n) <= m
  {}

  // The free list holds exactly the free-marked blocks.
  ghost predicate Matches(blocks: seq<Addr>, frees: seq<Addr>, used: set<Addr>) {
    forall x :: x in frees <==> x in blocks && x !in used
  }

  // No free block has room for `size` bytes.
  ghost predicate NoneFits(blocks: seq<Addr>, used: set<Addr>, size: nat) {
    forall k :: 0 <= k < |blocks| - 1 && blocks[k] !in used ==> Payload(blocks, k) < size
  }

  // rt_memheap_alloc gives nothing for `size` bytes.
  ghost predicate Refused(blocks: seq<Addr>, used: set<Addr>, available: int, size: nat) {
    size >= available || NoneFits(blocks, used, size)
  }

  // MEMITEM_SIZE: the payload bytes of the block at x.
  function SizeIn(next: map<Addr, Addr>, x: Addr): int
    requires x in next
  {
    next[x] - x - HEADER
  }

  // Whether what is left of a free block becomes one of its own when size bytes of
  // it are taken, and what they cost.
  predicate Splits(freeSize: int, size: nat) {
    freeSize >= size + HEADER + MIN_ALLOC
  }

  function Cost(freeSize: int, size: nat): int {
    if Splits(freeSize, size) then size + HEADER else freeSize
  }

  // The headers that vanish when the block at x is freed: its own if the block before
  // it is free, and that of the block behind it if that one is.
  function Joined(next: map<Addr, Addr>, prev: map<Addr, Addr>, used: set<Addr>, x: Addr): nat {
    (if x in prev && prev[x] !in used then HEADER else 0) + (if x in next && next[x] !in used then HEADER else 0)
  }

  // The same after block h has been taken, told from the state before: a rest of h
  // that is split off is free, h itself is not.
  function JoinedWithout(next: map<Addr, Addr>, prev: map<Addr, Addr>, used: set<Addr>, h: Addr, split: bool, x: Addr): nat {
    (if x in prev && (if prev[x] == h then split else prev[x] !in used) then HEADER else 0)
    + (if x in next && next[x] != h && next[x] !in used then HEADER else 0)
  }

  // The free block behind the payload at p has room for it to grow to `size` bytes.
  ghost predicate RoomBehind(next: map<Addr, Addr>, used: set<Addr>, p: Addr, size: nat) {
    && p >= HEADER && p - HEADER in next && next[p - HEADER] in next && next[p - HEADER] !in used
    && SizeIn(next, next[p - HEADER]) + SizeIn(next, p - HEADER) > size + MIN_ALLOC
  }

  function Charged(m: Meter, bytes: int): Meter {
    Meter(m.used + bytes, Larger(m.max, m.used + bytes))
  }

  // What resizing the payload at p from len to size bytes does to the counters, given
  // how the blocks were linked before: nothing; or the end goes back, less a header
  // if it stands alone; or the growth is charged; or, for a moment, both the old and
  // the new block are.
  ghost predicate Metered(l: Links, used: set<Addr>, p: Addr, len: nat, size: nat, r: Option<Addr>, a: Meter, b: Meter) {
    if r == None || size <= len <= size + HEADER + MIN_ALLOC then b == a
    else if size < len then
      p >= HEADER && p - HEADER in l.next && b == Meter(a.used - (len - size) + (if l.next[p - HEADER] in used then HEADER else 0), a.max)
    else if RoomBehind(l.next, used, p, size) then b == Charged(a, size - len)
    else Swapped(l, used, p, r.value, len, size, a, b)
  }

  // The payload of len bytes at p has given way to one at q for size bytes.
  ghost predicate Swapped(l: Links, used: set<Addr>, p: Addr, q: Addr, len: nat, size: nat, a: Meter, b: Meter) {
    && p >= HEADER && q >= HEADER && q - HEADER in l.next
    && var free := SizeIn(l.next, q - HEADER);
       var cost := Cost(free, size);
       b.max == Larger(a.max, a.used + cost)
       && b.used == a.used + cost - len - JoinedWithout(l.next, l.prev, used, q - HEADER, Splits(free, size), p - HEADER)
  }

  class MemHeap {
    const poolSize: nat
    const HEAD: Addr := poolSize   // &heap->free_header, which is outside the pool
    var next: map<Addr, Addr>
    var prev: map<Addr, Addr>
    var nextFree: map<Addr, Addr>
    var prevFree: map<Addr, Addr>
    var used: set<Addr>          // the headers whose magic says USED
    var available: int
    var maxUsed: int
    var data: seq<byte>          // the pool, of which only payload bytes matter here
    ghost var blocks: seq<Addr>
    ghost var frees: seq<Addr>

    ghost function BlockLinks(): Links
      reads this
    {
      Links(next, prev)
    }

    ghost function FreeLinks(): Links
      reads this
    {
      Links(nextFree, prevFree)
    }

    // Both lists are well linked.
    ghost predicate Linked()
      reads this
    {
      Circle(BlockLinks(), blocks) && Circle(FreeLinks(), [HEAD] + frees)
    }

    ghost function Now(): Pool
      reads this
    {
      Pool(blocks, used, poolSize, data)
    }

    ghost predicate Valid()
      reads this
    {
      && Linked() && PoolOk(Now()) && Matches(blocks, frees, used)
      && available == FreeSum(blocks, used) && poolSize - available <= maxUsed
    }

    // The live payloads and their bytes.
    ghost function Live(): map<Addr, seq<byte>>
      requires PoolOk(Now())
      reads this
    {
      LiveOf(Now())
    }

    function SizeOf(x: Addr): int
      requires x in next
      reads `next
    {
      SizeIn(next, x)
    }

    ghost function Meters(): Meter
      reads this
    {
      Meter(poolSize - available, maxUsed)
    }

    // Block h is the first on the free list with room for `size` bytes.
    ghost predicate FirstRoomy(h: Addr, size: nat)
      reads this
    {
      exists j :: 0 <= j < |frees| && frees[j] == h && RoomyAt(j, size) && forall i :: 0 <= i < j ==> !RoomyAt(i, size)
    }

    ghost predicate RoomyAt(j: nat, size: nat)
      reads this
    {
      j < |frees| && frees[j] in next && SizeOf(frees[j]) >= size
    }

    // ---------- the pieces of wiring the calls are made of ----------

    // A new header behind h on the block list.
    method InsertBlock(h: Addr, new_: Addr, ghost k: nat)
      requires Circle(BlockLinks(), blocks) && k < |blocks| && blocks[k] == h && new_ !in blocks
      modifies `next, `prev, `blocks
      ensures Circle(BlockLinks(), blocks) && blocks == InsertAt(old(blocks), k + 1, new_)
      ensures h in old(next) && BlockLinks() == Inserted(old(BlockLinks()), h, new_)
    {
      InsertKeeps(BlockLinks(), blocks, k, new_);
      assert Wired(BlockLinks(), blocks, k);
      ghost var was := BlockLinks();
      hide Circle;
      prev := prev[new_ := h];
      next := next[new_ := next[h]];
      prev := prev[next[h] := new_];
      next := next[h := new_];
      assert BlockLinks() == Inserted(was, h, new_);
      blocks := InsertAt(blocks, k + 1, new_);
    }

    // A header leaves the block list.
    method UnlinkBlock(x: Addr, ghost k: nat)
      requires Circle(BlockLinks(), blocks) && k < |blocks| && blocks[k] == x && |blocks| > 1
      modifies `next, `prev, `blocks
      ensures Circle(BlockLinks(), blocks) && blocks == RemoveAt(old(blocks), k)
      ensures x in prev && x in old(prev) && prev[x] == old(prev)[x]
    {
      RemoveKeeps(BlockLinks(), blocks, k);
      OnItsOwn(blocks, k, BlockLinks());
      hide Circle;
      prev := prev[next[x] := prev[x]];
      next := next[prev[x] := next[x]];
      blocks := RemoveAt(blocks, k);
    }

    // A header goes to the front of the free list.
    method PushFree(x: Addr)
      requires Circle(FreeLinks(), [HEAD] + frees) && x !in frees && x != HEAD
      modifies `nextFree, `prevFree, `frees
      ensures Circle(FreeLinks(), [HEAD] + frees) && frees == [x] + old(frees)
    {
      ghost var s := [HEAD] + frees;
      InsertKeeps(FreeLinks(), s, 0, x);
      assert Wired(FreeLinks(), s, 0);
      assert InsertAt(s, 1, x) == [HEAD] + ([x] + frees);
      ghost var was := FreeLinks();
      hide Circle;
      nextFree := nextFree[x := nextFree[HEAD]];
      prevFree := prevFree[x := HEAD];
      prevFree := prevFree[nextFree[HEAD] := x];
      nextFree := nextFree[HEAD := x];
      assert FreeLinks() == Inserted(was, HEAD, x);
      frees := [x] + frees;
    }

    // A header leaves the free list.
    method UnlinkFree(x: Addr)
      requires Circle(FreeLinks(), [HEAD] + frees) && x in frees
      modifies `nextFree, `prevFree, `frees
      ensures Circle(FreeLinks(), [HEAD] + frees)
      ensures forall y :: y in frees <==> y in old(frees) && y != x
      ensures frees == Without(old(frees), x)
    {
      ghost var j :| 0 <= j < |frees| && frees[j] == x;
      ghost var s := [HEAD] + frees;
      assert s[j + 1] == x;
      RemoveKeeps(FreeLinks(), s, j + 1);
      OnItsOwn(s, j + 1, FreeLinks());
      assert RemoveAt(s, j + 1) == [HEAD] + RemoveAt(frees, j);
      UniqueTail(HEAD, frees);
      RemoveAtElements(frees, j);
      RemoveIsWithout(frees, j);
      hide Circle, RemoveAt;
      prevFree := prevFree[nextFree[x] := prevFree[x]];
      nextFree := nextFree[prevFree[x] := nextFree[x]];
      frees := RemoveAt(frees, j);
    }
  
    // _remove_next_ptr: a free header leaves both lists.
    method RemoveNext(x: Addr, ghost k: nat)
      requires Linked() && k < |blocks| && blocks[k] == x && |blocks| > 1 && x in frees
      modifies `next, `prev, `nextFree, `prevFree, `blocks, `frees
      ensures Linked() && blocks == RemoveAt(old(blocks), k)
      ensures forall y :: y in frees <==> y in old(frees) && y != x
      ensures frees == Without(old(frees), x)
      ensures forall y :: y in blocks <==> y in old(blocks) && y != x
    {
      assert Unique(blocks);
      RemoveAtElements(blocks, k);
      hide Circle, Unique, RemoveAt;
      UnlinkFree(x);
      UnlinkBlock(x, k);
    }

    // ---------- allocation ----------

    ghost predicate Refuses(size: nat)
      reads this
    {
      Refused(blocks, used, available, size)
    }

    // The walk along the free list.
    method Search(size: nat) returns (h: Addr, freeSize: int)
      requires Valid() && size > 0
      ensures freeSize >= size <==> !NoneFits(blocks, used, size)
      ensures freeSize >= size ==> FirstRoomy(h, size) && h in frees && h in next && freeSize == SizeOf(h)
    {
      hide PoolOk;
      ghost var s, j := [HEAD] + frees, 0;
      FreeNodes(BlockLinks(), FreeLinks(), Now(), frees);
      assert Wired(FreeLinks(), s, 0);
      hide Circle;
      h, freeSize := nextFree[HEAD], 0;
      while h != HEAD && freeSize < size
        invariant j <= |frees| && h == (if j < |frees| then frees[j] else HEAD)
        invariant forall i :: 0 <= i < j ==> !RoomyAt(i, size)
        invariant freeSize >= size ==> RoomyAt(j, size) && freeSize == SizeOf(h)
        decreases |frees| - j, size - freeSize
      {
        assert h in frees;
        freeSize := SizeOf(h);
        if freeSize < size {
          assert Wired(FreeLinks(), s, j + 1) && s[j + 1] == h;
          h := nextFree[h];
          j := j + 1;
        }
      }
      if freeSize < size {
        SearchedAll(frees, size);
      } else {
        ghost var k := IndexOf(h);
      }
    }

    // A free block sits somewhere before the last.
    lemma IndexOf(h: Addr) returns (k: nat)
      requires Circle(BlockLinks(), blocks) && PoolOk(Now()) && Matches(blocks, frees, used) && h in frees
      ensures k < |blocks| - 1 && blocks[k] == h && h !in used
      ensures h in next && next[h] == blocks[k + 1] && SizeOf(h) == Payload(blocks, k)
    {
      k :| 0 <= k < |blocks| && blocks[k] == h;
      assert Wired(BlockLinks(), blocks, k);
    }

    lemma SearchedAll(list: seq<Addr>, size: nat)
      requires Circle(BlockLinks(), blocks) && Matches(blocks, frees, used) && list == frees
      requires forall i :: 0 <= i < |frees| ==> !RoomyAt(i, size)
      ensures NoneFits(blocks, used, size)
    {
      forall k | 0 <= k < |blocks| - 1 && blocks[k] !in used ensures Payload(blocks, k) < size {
        assert blocks[k] in frees;
        var i :| 0 <= i < |frees| && frees[i] == blocks[k];
        assert !RoomyAt(i, size) && Wired(BlockLinks(), blocks, k);
      }
    }
  
    // The high-water mark follows the bytes in use.
    method Charge(bytes: int)
      modifies `available, `maxUsed
      ensures available == old(available) - bytes && maxUsed == Larger(old(maxUsed), poolSize - available)
    {
      available := available - bytes;
      if poolSize - available > maxUsed {
        maxUsed := poolSize - available;
      }
    }

    // The payload at p is new, `size` bytes long, and nothing else has changed.
    twostate predicate Gave(p: Addr, size: nat)
      requires old(PoolOk(Now())) && PoolOk(Now())
      reads this
    {
      p !in old(Live()) && p in Live() && Live() == old(Live())[p := Live()[p]] && |Live()[p]| == size
    }

    // The free list after block `gone`, if it is free, has left it and a header, if there
    // is one, has been put in front.
    twostate predicate Refreed(front: seq<Addr>, gone: Addr)
      reads this
    {
      frees == front + if gone in old(used) then old(frees) else Without(old(frees), gone)
    }

    // Block h has been taken: whole, or its front, with a new header behind it.
    twostate predicate Taken(h: Addr, size: nat)
      reads this
    {
      && h in old(next)
      && if Splits(old(SizeOf(h)), size) then
           var n := h + size + HEADER;
           && n !in old(blocks) && BlockLinks() == Inserted(old(BlockLinks()), h, n) && used == old(used) + {h} - {n}
           && frees == [n] + Without(old(frees), h)
         else BlockLinks() == old(BlockLinks()) && used == old(used) + {h} && frees == Without(old(frees), h)
    }

    // The headers of a split: new_ behind h on the block list and in its place on
    // the free list.
    method SplitHeaders(h: Addr, new_: Addr, ghost k: nat)
      requires Linked() && Matches(blocks, frees, used) && h in frees && k < |blocks| && blocks[k] == h
      requires new_ !in blocks && new_ != HEAD
      modifies `next, `prev, `nextFree, `prevFree, `used, `blocks, `frees
      ensures Linked() && Matches(blocks, frees, used)
      ensures blocks == InsertAt(old(blocks), k + 1, new_) && used == old(used) + {h} - {new_}
      ensures h in old(next) && BlockLinks() == Inserted(old(BlockLinks()), h, new_)
      ensures frees == [new_] + Without(old(frees), h)
    {
      hide Circle, Without;
      InsertAtElements(blocks, k + 1, new_);
      used := used - {new_};
      InsertBlock(h, new_, k);
      UnlinkFree(h);
      PushFree(new_);
      used := used + {h};
    }

    // The front of free block h is taken, the rest becomes a free block.
    method TakeSplit(h: Addr, size: nat)
      requires Valid() && h in frees && h in next && SizeOf(h) >= size + HEADER + MIN_ALLOC && size % 4 == 0
      modifies this
      ensures Valid() && Gave(h + HEADER, size) && Taken(h, size)
      ensures available == old(available) - size - HEADER && maxUsed == Larger(old(maxUsed), poolSize - available)
    {
      hide Circle, LiveOf, FreeSum, Layout;
      ghost var k := IndexOf(h);
      ghost var was, a, b := Now(), blocks[..k], blocks[k + 1..];
      var new_ := h + size + HEADER;
      Around(blocks, k, new_);
      Between(Now(), k, new_);
      hide PoolOk, Matches, InsertAt;
      SplitHeaders(h, new_, k);
      Charge(size + HEADER);
      SplitTaken(was, Now(), a, h, b, new_);
    }

    // Free block h is taken whole.
    method TakeWhole(h: Addr, freeSize: nat)
      requires Valid() && h in frees && h in next && freeSize == SizeOf(h)
      modifies this
      ensures Valid() && Gave(h + HEADER, freeSize) && BlockLinks() == old(BlockLinks()) && used == old(used) + {h} && frees == Without(old(frees), h)
      ensures available == old(available) - freeSize && maxUsed == Larger(old(maxUsed), poolSize - available)
    {
      hide Circle, LiveOf, FreeSum, Layout;
      ghost var k := IndexOf(h);
      ghost var was, a, b := Now(), blocks[..k], blocks[k + 1..];
      Around(blocks, k, h);
      hide PoolOk;
      Charge(freeSize);
      UnlinkFree(h);
      used := used + {h};
      assert Matches(blocks, frees, used);
      hide Matches;
      WholeTaken(was, Now(), a, h, b);
    }

    // rt_memheap_alloc.
    method Alloc(n: nat) returns (p: Option<Addr>)
      requires Valid()
      modifies this
      ensures Valid()
      ensures p == None <==> old(Refuses(Request(n)))
      ensures p == None ==> Live() == old(Live()) && available == old(available) && maxUsed == old(maxUsed)
      ensures p == None ==> blocks == old(blocks) && used == old(used) && BlockLinks() == old(BlockLinks())
      ensures p.Some? ==> Granted(old(Live()), Live(), p.value, Request(n)) && p.value % 4 == 0
      ensures p.Some? ==> p.value >= HEADER && old(FirstRoomy(p.value - HEADER, Request(n)))
      ensures p.Some? ==> p.value - HEADER in old(next) && Meters() == Charged(old(Meters()), Cost(old(SizeOf(p.value - HEADER)), Request(n)))
      ensures p.Some? ==> p.value - HEADER in old(frees) && Taken(p.value - HEADER, Request(n))
      // just what was asked for if the block had a header and MIN_ALLOC bytes to spare,
      // the whole of it otherwise
      ensures p.Some? ==>
                var room := old(SizeOf(p.value - HEADER));
                if room - Request(n) >= HEADER + MIN_ALLOC then |Live()[p.value]| == Request(n) && available == old(available) - Request(n) - HEADER
                else |Live()[p.value]| == room && available == old(available) - room
    {
      hide Circle, LiveOf, FreeSum, PoolOk, Matches;
      var size := Align(n);
      if size < MIN_ALLOC {
        size := MIN_ALLOC;
      }
      if size < available {
        var h, freeSize := Search(size);
        if freeSize >= size {
          HeaderAligned(h);
          if freeSize >= size + HEADER + MIN_ALLOC {
            TakeSplit(h, size);
          } else {
            TakeWhole(h, freeSize);
          }
          return Some(h + HEADER);
        }
      }
      p := None;
    }

    lemma HeaderAligned(h: Addr)
      requires PoolOk(Now()) && Matches(blocks, frees, used) && h in frees
      ensures h % 4 == 0
    {
      var k :| 0 <= k < |blocks| && blocks[k] == h;
    }
  
    // ---------- release ----------

    // A live payload belongs to a used block before the last.
    lemma IndexOfLive(p: Addr) returns (k: nat)
      requires Circle(BlockLinks(), blocks) && PoolOk(Now()) && p in Live()
      ensures k < |blocks| - 1 && blocks[k] in used && blocks[k] + HEADER == p
      ensures blocks[k] in next && blocks[k] in prev && next[blocks[k]] == blocks[k + 1] && prev[blocks[k]] == Pred(blocks, k)
      ensures SizeOf(blocks[k]) == Payload(blocks, k)
    {
      StoredKeys(blocks, used, data, p);
      k :| 0 <= k < |blocks| - 1 && blocks[k] in used && blocks[k] + HEADER == p;
      assert Wired(BlockLinks(), blocks, k);
    }

    // The free list is right but for block h, if that is still to be put there.
    ghost predicate Pending(h: Addr, insert: bool)
      reads this
    {
      forall y :: y in frees <==> y in blocks && y !in used && !(insert && y == h)
    }

    // Block header, just freed, joins a free block before it.
    method MergeLeft(header: Addr, ghost a: seq<Addr>, ghost left: seq<Addr>, ghost rest: seq<Addr>) returns (h: Addr, insert: bool)
      requires Linked() && Pending(header, true) && blocks == a + left + [header] + rest && rest != [] && rest[|rest| - 1] in used
      requires FreeLeft(a, left, used)
      modifies `next, `prev, `blocks, `available
      ensures Linked() && Pending(h, insert) && insert == (left == [])
      ensures h == (left + [header])[0] && blocks == a + [h] + rest && available == old(available) + |left| * HEADER
    {
      ghost var k := |a| + |left|;
      BeforeIs(a, left, header, rest);
      assert Wired(BlockLinks(), blocks, k);
      RemoveAtElements(blocks, k);
      assert Unique(blocks);
      hide Circle, Unique, RemoveAt;
      h, insert := header, true;
      if prev[header] !in used {
        available := available + HEADER;
        UnlinkBlock(header, k);
        h := prev[header];
        insert := false;
      }
    }

    // Block h, free now, swallows a free block behind it.
    method MergeRight(h: Addr, insert: bool, ghost a: seq<Addr>, ghost right: seq<Addr>, ghost b: seq<Addr>)
      requires Linked() && Pending(h, insert) && blocks == a + [h] + (right + b)
      requires FreeRight(right, b, used)
      modifies `next, `prev, `nextFree, `prevFree, `blocks, `frees, `available
      ensures Linked() && Pending(h, insert)
      ensures blocks == a + [h] + b && available == old(available) + |right| * HEADER
      ensures frees == if right != [] then Without(old(frees), right[0]) else old(frees)
    {
      BehindIs(a, h, right, b);
      assert Wired(BlockLinks(), blocks, |a|);
      Neighbours(blocks, |a|, |a| + 1);
      hide Circle, Unique, RemoveAt;
      var behind := next[h];
      if behind !in used {
        available := available + HEADER;
        RemoveNext(behind, |a| + 1);
      }
    }

    // Block header, just freed, joins its free neighbours or the free list.
    method Rejoin(header: Addr, ghost a: seq<Addr>, ghost left: seq<Addr>, ghost right: seq<Addr>, ghost b: seq<Addr>)
      requires Linked() && Pending(header, true) && blocks == a + left + [header] + (right + b) && b != []
      requires FreeLeft(a, left, used) && FreeRight(right, b, used) && (right + b)[|right + b| - 1] in used
      requires header !in used && header !in frees && header != HEAD
      modifies `next, `prev, `nextFree, `prevFree, `blocks, `frees, `available
      ensures Linked() && Matches(blocks, frees, used)
      ensures blocks == a + [(left + [header])[0]] + b && available == old(available) + |left| * HEADER + |right| * HEADER
      ensures frees == (if left == [] then [header] else []) + if right != [] then Without(old(frees), right[0]) else old(frees)
    {
      hide Circle, FreeLeft, FreeRight, Without;
      var h, insert := MergeLeft(header, a, left, right + b);
      MergeRight(h, insert, a, right, b);
      if insert {
        PushFree(h);
      }
    }

    // The block of a live payload, and the blocks before and behind it.
    lemma AroundLive(p: Addr) returns (a: seq<Addr>, left: seq<Addr>, right: seq<Addr>, b: seq<Addr>)
      requires Valid() && p in Live()
      ensures p >= HEADER && p - HEADER in next && p - HEADER in prev && p - HEADER in used
      ensures blocks == a + left + [p - HEADER] + (right + b) && |left| <= 1 && |right| <= 1 && b != []
      ensures FreeLeft(a, left, used - {p - HEADER}) && FreeRight(right, b, used - {p - HEADER})
      ensures (forall x :: x in left + right ==> x !in used) && (left == [] && a != [] ==> a[|a| - 1] in used) && (right == [] ==> b[0] in used)
      ensures (right + b)[|right + b| - 1] in used - {p - HEADER}
      ensures SizeOf(p - HEADER) == |Live()[p]| == (right + b)[0] - p
      ensures Joined(next, prev, used, p - HEADER) == |left| * HEADER + |right| * HEADER
      ensures (prev[p - HEADER] in used <==> left == []) && (next[p - HEADER] in used <==> right == [])
      ensures right != [] ==> next[p - HEADER] == right[0]
      ensures p - HEADER !in frees && p - HEADER != HEAD && (left != [] ==> left[0] in frees)
    {
      var k := IndexOfLive(p);
      PayloadAt(Now(), p, k);
      a, left, right, b := Surroundings(Now(), k);
      SidesJoin(BlockLinks(), blocks, used, a, left, p - HEADER, right, b);
      assert left != [] ==> left[0] in blocks;
    }

    // rt_memheap_free of a live payload.
    method Release(p: Addr)
      requires Valid() && p in Live()
      modifies this
      ensures Valid() && Live() == old(Live()) - {p} && maxUsed == old(maxUsed) && data == old(data)
      ensures p >= HEADER && available == old(available) + |old(Live())[p]| + Joined(old(next), old(prev), old(used), p - HEADER)
      // in front of the free list, unless the block before it is free
      ensures p - HEADER in old(next) && p - HEADER in old(prev)
      ensures Refreed(if old(prev)[p - HEADER] in old(used) then [p - HEADER] else [], old(next)[p - HEADER])
    {
      hide Circle, LiveOf, FreeSum, Layout, Joined, Without, PoolOk, FreeLeft, FreeRight;
      ghost var was := Now();
      ghost var a, left, right, b := AroundLive(p);
      var header := p - HEADER;
      used := used - {header};
      available := available + SizeOf(header);
      Rejoin(header, a, left, right, b);
      Regrouped(a, left, header, right, b);
      Freed(was, Now(), a, left, header, right, b);
    }
  
    // ---------- resizing ----------

    // The payload at p is now `size` bytes long, as before up to the shorter length.
    twostate predicate Kept(p: Addr, size: nat)
      requires old(PoolOk(Now())) && PoolOk(Now())
      reads this
    {
      && p in old(Live()) && p in Live() && Live() == old(Live())[p := Live()[p]] && |Live()[p]| == size
      && var n := if size < |old(Live())[p]| then size else |old(Live())[p]|;
         Live()[p][..n] == old(Live())[p][..n]
    }

    // The header behind used block k moves to new_; it stays on the free list, in front.
    method MoveHeader(header: Addr, behind: Addr, new_: Addr, ghost k: nat)
      requires Linked() && Matches(blocks, frees, used) && k + 1 < |blocks| && blocks[k] == header && blocks[k + 1] == behind
      requires header in used && behind !in used && new_ !in RemoveAt(blocks, k + 1) && new_ != HEAD
      modifies `next, `prev, `nextFree, `prevFree, `used, `blocks, `frees
      ensures Linked() && Matches(blocks, frees, used)
      ensures blocks == InsertAt(RemoveAt(old(blocks), k + 1), k + 1, new_) && used == old(used) - {new_}
      ensures frees == [new_] + Without(old(frees), behind)
    {
      RemoveAtElements(blocks, k + 1);
      assert RemoveAt(blocks, k + 1)[k] == header;
      InsertAtElements(RemoveAt(blocks, k + 1), k + 1, new_);
      hide Circle, Unique, InsertAt, RemoveAt;
      RemoveNext(behind, k + 1);
      used := used - {new_};
      InsertBlock(header, new_, k);
      PushFree(new_);
    }

    // The part of rt_memheap_realloc that grows a block into the free one behind it.
    method GrowInPlace(p: Addr, size: nat)
      requires Valid() && p in Live() && p >= HEADER && p - HEADER in next && next[p - HEADER] in next && next[p - HEADER] !in used
      requires SizeOf(p - HEADER) < size && SizeOf(next[p - HEADER]) + SizeOf(p - HEADER) > size + MIN_ALLOC && size % 4 == 0
      modifies this
      ensures Valid() && Kept(p, size) && data == old(data)
      ensures Meters() == Charged(old(Meters()), size - |old(Live())[p]|)
      ensures Refreed([p + size], old(next)[p - HEADER])
    {
      hide Circle, LiveOf, FreeSum, Layout, PoolOk, Matches, InsertAt, RemoveAt, Without;
      ghost var k := IndexOfLive(p);
      ghost var was, a, b := Now(), blocks[..k], blocks[k + 2..];
      PayloadAt(was, p, k);
      var header, new_ := p - HEADER, p + size;
      var behind := next[header];
      FreeBehind(was, BlockLinks(), k);
      AroundTwo(blocks, k, new_);
      BetweenTwo(was, k, new_);
      Charge(size - SizeOf(header));
      MoveHeader(header, behind, new_, k);
      BoundaryMoved(was, Now(), a, header, behind, b, new_);
      SliceOfSlice(data, p, new_, 0, behind - p);
    }
  
    // The header of the end cut off used block k: it swallows a free block behind
    // it, and the bytes on the free list are counted.
    method CutHeader(header: Addr, new_: Addr, ghost k: nat)
      requires Linked() && Matches(blocks, frees, used) && k + 1 < |blocks| && blocks[k] == header && header in used
      requires new_ !in blocks && new_ != HEAD && blocks[|blocks| - 1] in used && header < new_
      requires blocks[k + 1] !in used ==> k + 2 < |blocks|
      modifies `next, `prev, `nextFree, `prevFree, `used, `blocks, `frees, `available
      ensures Linked() && Matches(blocks, frees, used) && used == old(used) - {new_}
      ensures old(blocks)[k + 1] in old(used) ==>
                blocks == InsertAt(old(blocks), k + 1, new_) && available == old(available) + old(blocks)[k + 1] - new_ - HEADER
      ensures old(blocks)[k + 1] !in old(used) ==>
                blocks == InsertAt(RemoveAt(old(blocks), k + 1), k + 1, new_) && available == old(available) + old(blocks)[k + 1] - new_
      ensures frees == [new_] + if old(blocks)[k + 1] in old(used) then old(frees) else Without(old(frees), old(blocks)[k + 1])
    {
      InsertThenRemove(blocks, k, new_);
      hide Circle, InsertAt, RemoveAt;
      AddHeader(header, new_, k);
      Absorb(new_, k + 1);
      NextIs(BlockLinks(), blocks, k + 1);
      PushFree(new_);
      available := available + SizeOf(new_);
    }

    method AddHeader(header: Addr, new_: Addr, ghost k: nat)
      requires Linked() && Matches(blocks, frees, used) && k < |blocks| && blocks[k] == header && new_ !in blocks
      modifies `next, `prev, `used, `blocks
      ensures Linked() && Pending(new_, true) && blocks == InsertAt(old(blocks), k + 1, new_) && used == old(used) - {new_}
    {
      InsertAtElements(blocks, k + 1, new_);
      hide Circle, InsertAt;
      used := used - {new_};
      InsertBlock(header, new_, k);
    }

    // A free block behind block new_ is taken off both lists and out of the count.
    method Absorb(new_: Addr, ghost k: nat)
      requires Linked() && Pending(new_, true) && k + 1 < |blocks| && blocks[k] == new_ && new_ !in used
      requires blocks[k + 1] !in used ==> k + 2 < |blocks|
      modifies `next, `prev, `nextFree, `prevFree, `blocks, `frees, `available
      ensures Linked() && Pending(new_, true)
      ensures old(blocks)[k + 1] in used ==> blocks == old(blocks) && available == old(available) && frees == old(frees)
      ensures old(blocks)[k + 1] !in used ==> frees == Without(old(frees), old(blocks)[k + 1])
      ensures old(blocks)[k + 1] !in used ==> blocks == RemoveAt(old(blocks), k + 1) && available == old(available) - Payload(old(blocks), k + 1)
    {
      NextIs(BlockLinks(), blocks, k);
      NextIs(BlockLinks(), blocks, k + 1);
      assert Unique(blocks);
      Neighbours(blocks, k, k + 1);
      hide Circle, RemoveAt, Unique;
      if next[new_] !in used {
        var freePtr := next[new_];
        available := available - SizeOf(freePtr);
        RemoveNext(freePtr, k + 1);
      }
    }
  
    // The part of rt_memheap_realloc that cuts the end off a block.
    method Shrink(p: Addr, size: nat)
      requires Valid() && p in Live() && size + HEADER + MIN_ALLOC < |Live()[p]| && size % 4 == 0
      modifies this
      ensures Valid() && Kept(p, size) && data == old(data) && maxUsed == old(maxUsed)
      ensures p - HEADER in old(next)
      ensures available == old(available) + |old(Live())[p]| - size - if old(next)[p - HEADER] in old(used) then HEADER else 0
      ensures Refreed([p + size], old(next)[p - HEADER])
    {
      hide Circle, LiveOf, FreeSum, Layout;
      ghost var k := IndexOfLive(p);
      ghost var was, bs := Now(), blocks;
      PayloadAt(was, p, k);
      var header, new_ := p - HEADER, p + size;
      Between(was, k, new_);
      Ends(was, k);
      hide PoolOk, Matches, InsertAt, RemoveAt;
      CutHeader(header, new_, k);
      CutPool(was, Now(), k, new_);
      SliceOfSlice(data, p, bs[k + 1], 0, size);
    }

    // The caller, or rt_memcpy, writes into a live payload.
    method Write(p: Addr, at: nat, bytes: seq<byte>)
      requires Valid() && p in Live() && at + |bytes| <= |Live()[p]|
      modifies `data
      ensures Valid() && Live() == old(Live())[p := Spliced(old(Live())[p], at, bytes)]
    {
      hide Circle, LiveOf, FreeSum, Layout, Matches;
      ghost var k := IndexOfLive(p);
      ghost var was := Now();
      PayloadAt(was, p, k);
      Around(blocks, k, p);
      Ends(was, k);
      hide PoolOk, InsertAt;
      data := data[..p + at] + bytes + data[p + at + |bytes|..];
      Written(was, data, blocks[..k], blocks[k], blocks[k + 1..]);
      assert data[p..blocks[k + 1]] == Spliced(was.data[p..blocks[k + 1]], at, bytes);
    }

    // The part of rt_memheap_realloc that finds a new place.
    method Move(p: Addr, size: nat) returns (r: Option<Addr>)
      requires Valid() && p in Live() && |Live()[p]| < size && size % 4 == 0 && size >= MIN_ALLOC
      modifies this
      ensures Valid() && (r == None <==> old(Refuses(size)))
      ensures r == None ==> Live() == old(Live()) && Meters() == old(Meters())
      ensures r.Some? ==> Moved(old(Live()), Live(), p, r.value, |old(Live())[p]|, size)
      ensures r.Some? ==> size <= |Live()[r.value]| < size + HEADER + MIN_ALLOC
      ensures r.Some? ==> Swapped(old(BlockLinks()), old(used), p, r.value, |old(Live())[p]|, size, old(Meters()), Meters())
    {
      hide Circle, LiveOf, FreeSum, Layout, Matches, PoolOk, NoneFits, Joined, JoinedWithout, Without;
      ghost var len := |Live()[p]|;
      ghost var x := IndexOfLive(p);
      ghost var l, bs, marks := BlockLinks(), blocks, used;
      r := Alloc(size);
      if r.Some? {
        var q := r.value;
        ghost var split := Splits(SizeIn(l.next, q - HEADER), size);
        FreeBlocks(bs, old(frees), marks, q - HEADER);
        JoinedAfterTaking(l, BlockLinks(), bs, marks, used, x, q - HEADER, q + size, split);
        ghost var k := IndexOfLive(p);
        PayloadAt(Now(), p, k);
        var oldSize := next[p - HEADER] - p;
        var bytes := data[p..p + oldSize];
        Write(q, 0, bytes);
        Release(p);
      }
    }
  
    // rt_memheap_free.
    method Free(p: Option<Addr>)
      requires Valid() && (p.Some? ==> p.value in Live())
      modifies this
      ensures Valid() && Live() == if p.Some? then old(Live()) - {p.value} else old(Live())
      ensures maxUsed == old(maxUsed) && (p == None ==> available == old(available))
      ensures p.Some? ==>
                && p.value >= HEADER
                && available == old(available) + |old(Live())[p.value]| + Joined(old(next), old(prev), old(used), p.value - HEADER)
                && p.value - HEADER in old(next) && p.value - HEADER in old(prev)
                && Refreed(if old(prev)[p.value - HEADER] in old(used) then [p.value - HEADER] else [], old(next)[p.value - HEADER])
    {
      if p.Some? {
        Release(p.value);
      }
    }

    // What rt_memheap_realloc does to the live payload at p, for `size` bytes: kept
    // in place if it is about as long, or can be cut, or can grow; moved otherwise.
    twostate predicate Resized(p: Addr, size: nat, new r: Option<Addr>)
      requires old(PoolOk(Now())) && PoolOk(Now()) && p in old(Live())
      reads this
    {
      var len := |old(Live())[p]|;
      if size <= len <= size + HEADER + MIN_ALLOC then r == Some(p) && Live() == old(Live())
      else if size < len || RoomBehind(old(next), old(used), p, size) then r == Some(p) && Kept(p, size)
      else if old(Refuses(size)) then r == None && Live() == old(Live())
      else r.Some? && Moved(old(Live()), Live(), p, r.value, len, size) && |Live()[r.value]| < size + HEADER + MIN_ALLOC
    }

    // rt_memheap_realloc.
    method Realloc(p: Option<Addr>, n: nat) returns (r: Option<Addr>)
      requires Valid() && (p.Some? ==> p.value in Live())
      modifies this
      ensures Valid()
      // nothing: free
      ensures n == 0 ==> r == None && Live() == if p.Some? then old(Live()) - {p.value} else old(Live())
      ensures n == 0 ==> maxUsed == old(maxUsed) && (p == None ==> available == old(available))
      ensures n == 0 && p.Some? ==>
                && p.value >= HEADER
                && available == old(available) + |old(Live())[p.value]| + Joined(old(next), old(prev), old(used), p.value - HEADER)
      // from nothing: alloc
      ensures n > 0 && p == None ==> (r == None <==> old(Refuses(Request(n))))
      ensures n > 0 && p == None && r == None ==> Live() == old(Live()) && Meters() == old(Meters())
      ensures n > 0 && p == None && r.Some? ==>
                Granted(old(Live()), Live(), r.value, Request(n)) && |Live()[r.value]| < Request(n) + HEADER + MIN_ALLOC
      ensures n > 0 && p == None && r.Some? ==>
                && r.value >= HEADER && r.value - HEADER in old(next)
                && Meters() == Charged(old(Meters()), Cost(old(SizeOf(r.value - HEADER)), Request(n)))
      // from one size to another
      ensures n > 0 && p.Some? ==> Resized(p.value, Request(n), r)
      ensures n > 0 && p.Some? ==> Metered(old(BlockLinks()), old(used), p.value, |old(Live())[p.value]|, Request(n), r, old(Meters()), Meters())
    {
      hide Circle, LiveOf, FreeSum, Layout, Matches, PoolOk, NoneFits, Metered;
      if n == 0 {
        Free(p);
        return None;
      }
      var size := Align(n);
      if size < MIN_ALLOC {
        size := MIN_ALLOC;
      }
      if p == None {
        r := Alloc(size);
      } else {
        r := Resize(p.value, size);
      }
    }

    method Resize(p: Addr, size: nat) returns (r: Option<Addr>)
      requires Valid() && p in Live() && size % 4 == 0 && size >= MIN_ALLOC
      modifies this
      ensures Valid() && Resized(p, size, r)
      ensures Metered(old(BlockLinks()), old(used), p, |old(Live())[p]|, size, r, old(Meters()), Meters())
    {
      hide Circle, LiveOf, FreeSum, Layout, Matches, NoneFits, Swapped, Moved;
      ghost var k := IndexOfLive(p);
      PayloadAt(Now(), p, k);
      BehindLinked(k);
      hide PoolOk;
      var header := p - HEADER;
      var oldSize := SizeOf(header);
      if size > oldSize {
        var behind := next[header];
        assert behind > header;
        if behind !in used && SizeOf(behind) + oldSize > size + MIN_ALLOC {
          GrowInPlace(p, size);
          return Some(p);
        }
        r := Move(p, size);
      } else if size + HEADER + MIN_ALLOC >= oldSize {
        r := Some(p);
      } else {
        Shrink(p, size);
        r := Some(p);
      }
    }

    lemma BehindLinked(k: nat)
      requires Circle(BlockLinks(), blocks) && k + 1 < |blocks|
      ensures blocks[k + 1] in next
    {
      NextIs(BlockLinks(), blocks, k + 1);
    }

    // rt_memheap_init: one free block that fills the pool, and the tail.
    constructor (size: nat)
      requires size / 4 * 4 >= 2 * HEADER
      ensures Valid() && poolSize == size / 4 * 4 && Live() == map[]
      ensures available == poolSize - 2 * HEADER && maxUsed == 2 * HEADER
      ensures blocks == [0, poolSize - HEADER] && used == {poolSize - HEADER}
    {
      var total := size / 4 * 4;
      var tail, head := total - HEADER, total;
      poolSize := total;
      available := total - 2 * HEADER;
      maxUsed := 2 * HEADER;
      used := {tail};
      next, prev := map[0 := tail, tail := 0], map[0 := tail, tail := 0];
      nextFree, prevFree := map[head := 0, 0 := head], map[head := 0, 0 := head];
      data := seq(total, _ => 0);
      blocks, frees := [0, tail], [0];
      new;
      InitOk(BlockLinks(), FreeLinks(), Now(), tail);
    }
  }

  lemma InitOk(bl: Links, fl: Links, h: Pool, tail: Addr)
    requires h.size % 4 == 0 && h.size == tail + HEADER && tail >= HEADER && |h.data| == h.size
    requires h.blocks == [0, tail] && h.used == {tail}
    requires bl == Links(map[0 := tail, tail := 0], map[0 := tail, tail := 0])
    requires fl == Links(map[h.size := 0, 0 := h.size], map[h.size := 0, 0 := h.size])
    ensures Circle(bl, h.blocks) && Circle(fl, [h.size] + [0])
    ensures PoolOk(h) && Matches(h.blocks, [0], h.used) && LiveOf(h) == map[] && FreeSum(h.blocks, h.used) == tail - HEADER
  {
    assert Wired(bl, h.blocks, 0) && Wired(bl, h.blocks, 1);
    assert Wired(fl, [h.size] + [0], 0) && Wired(fl, [h.size] + [0], 1);
    assert h.blocks == [0] + [tail];
    One(0, tail, h.used, h.data);
  }

  // The comparison with the count is strict: a request some block could meet is
  // refused exactly if that block is all there is and fits to the byte.
  lemma OnlyTheExactFitIsRefused(h: MemHeap, size: nat)
    requires h.Valid() && !NoneFits(h.blocks, h.used, size)
    ensures h.Refuses(size) <==> h.available == size
  {
    var bs := h.blocks;
    var k :| 0 <= k < |bs| - 1 && bs[k] !in h.used && Payload(bs, k) >= size;
    FreeSumBounds(bs, h.used, k);
  }

  // On a fresh heap the block that has room is the whole of it, and a request for
  // all of it is refused.
  method AskFresh(size: nat, n: nat) returns (h: MemHeap, p: Option<Addr>)
    requires size / 4 * 4 >= 2 * HEADER
    ensures fresh(h) && h.Valid() && h.poolSize == size / 4 * 4
    ensures p == None <==> Request(n) >= h.poolSize - 2 * HEADER
    ensures p == None ==> (!NoneFits(h.blocks, h.used, Request(n)) <==> Request(n) == h.poolSize - 2 * HEADER)
  {
    hide Circle, LiveOf, FreeSum, PoolOk, NoneFits;
    h := new MemHeap(size);
    OneBlock(h.blocks, h.used, h.poolSize - HEADER, Request(n));
    hide Request;
    p := h.Alloc(n);
  }

  lemma OneBlock(bs: seq<Addr>, used: set<Addr>, tail: Addr, size: nat)
    requires bs == [0, tail] && used == {tail} && tail >= HEADER
    ensures NoneFits(bs, used, size) <==> size > tail - HEADER
  {
    assert bs[0] !in used && Payload(bs, 0) == tail - HEADER;
  }

  // The pool before and after the end of used block k has been cut off.
  lemma CutPool(h: Pool, h': Pool, k: nat, x: Addr)
    requires PoolOk(h) && k + 1 < |h.blocks| && h.blocks[k] in h.used && x % 4 == 0
    requires h.blocks[k] + HEADER <= x && x + HEADER <= h.blocks[k + 1]
    requires var bs := if h.blocks[k + 1] in h.used then h.blocks else RemoveAt(h.blocks, k + 1);
             h' == h.(blocks := InsertAt(bs, k + 1, x), used := h.used - {x})
    ensures PoolOk(h') && 0 <= h.blocks[k] + HEADER <= x <= |h.data|
    ensures FreeSum(h'.blocks, h'.used) == FreeSum(h.blocks, h.used) + h.blocks[k + 1] - x - if h.blocks[k + 1] in h.used then HEADER else 0
    ensures var p := h.blocks[k] + HEADER;
            p in LiveOf(h) && LiveOf(h') == LiveOf(h)[p := h.data[p..x]]
  {
    if h.blocks[k + 1] in h.used {
      CutAlone(h, h', k, x);
    } else {
      CutAndMerged(h, h', k, x);
    }
    hide PoolOk, LiveOf, FreeSum, InsertAt, RemoveAt;
  }

  lemma CutAlone(h: Pool, h': Pool, k: nat, x: Addr)
    requires PoolOk(h) && k + 1 < |h.blocks| && h.blocks[k] in h.used && x % 4 == 0
    requires h.blocks[k] + HEADER <= x && x + HEADER <= h.blocks[k + 1] && h.blocks[k + 1] in h.used
    requires h' == h.(blocks := InsertAt(h.blocks, k + 1, x), used := h.used - {x})
    ensures PoolOk(h') && 0 <= h.blocks[k] + HEADER <= x <= |h.data|
    ensures FreeSum(h'.blocks, h'.used) == FreeSum(h.blocks, h.used) + h.blocks[k + 1] - x - HEADER
    ensures h.blocks[k] + HEADER in LiveOf(h) && LiveOf(h') == LiveOf(h)[h.blocks[k] + HEADER := h.data[h.blocks[k] + HEADER..x]]
  {
    var a, q, b := h.blocks[..k], h.blocks[k], h.blocks[k + 1..];
    Around(h.blocks, k, x);
    assert b != [] && b[0] == h.blocks[k + 1];
    hide PoolOk, LiveOf, FreeSum, InsertAt;
    SplitOff(h, h', a, q, b, x);
  }

  lemma CutAndMerged(h: Pool, h': Pool, k: nat, x: Addr)
    requires PoolOk(h) && k + 1 < |h.blocks| && h.blocks[k] in h.used && x % 4 == 0
    requires h.blocks[k] + HEADER <= x && x + HEADER <= h.blocks[k + 1] && h.blocks[k + 1] !in h.used
    requires h' == h.(blocks := InsertAt(RemoveAt(h.blocks, k + 1), k + 1, x), used := h.used - {x})
    ensures PoolOk(h') && 0 <= h.blocks[k] + HEADER <= x <= |h.data|
    ensures FreeSum(h'.blocks, h'.used) == FreeSum(h.blocks, h.used) + h.blocks[k + 1] - x
    ensures h.blocks[k] + HEADER in LiveOf(h) && LiveOf(h') == LiveOf(h)[h.blocks[k] + HEADER := h.data[h.blocks[k] + HEADER..x]]
  {
    hide PoolOk, LiveOf, FreeSum, InsertAt, RemoveAt;
    Ends(h, k);
    var a, q, f, b := h.blocks[..k], h.blocks[k], h.blocks[k + 1], h.blocks[k + 2..];
    AroundTwo(h.blocks, k, x);
    BoundaryMoved(h, h', a, q, f, b, x);
  }

  // A live payload lies between its header and the next.
  lemma PayloadAt(h: Pool, p: Addr, k: nat)
    requires PoolOk(h) && p in LiveOf(h) && k + 1 < |h.blocks| && h.blocks[k] in h.used && h.blocks[k] + HEADER == p
    ensures p <= h.blocks[k + 1] <= |h.data| && LiveOf(h)[p] == h.data[p..h.blocks[k + 1]]
  {
    LayoutFits(h.blocks, h.used, h.size, h.data);
    StoredAt(h.blocks, h.used, h.data, k);
  }

  lemma Ends(h: Pool, k: nat)
    requires PoolOk(h) && k + 1 < |h.blocks|
    ensures h.blocks[|h.blocks| - 1] in h.used && h.blocks[k + 1..][0] == h.blocks[k + 1]
    ensures h.blocks[k + 1] !in h.used ==> k + 2 < |h.blocks| && h.blocks[k + 1] + HEADER <= h.blocks[k + 2] && h.blocks[k + 2..][0] == h.blocks[k + 2]
    ensures h.blocks[k] % 4 == 0 && h.blocks[k + 1] < h.size
  {
    assert k + 1 < |h.blocks| - 1 ==> h.blocks[k + 1] + HEADER <= h.blocks[|h.blocks| - 1];
  }

  lemma NextIs(l: Links, s: seq<Addr>, i: nat)
    requires Circle(l, s) && i < |s|
    ensures s[i] in l.next && l.next[s[i]] == Succ(s, i)
  {
    assert Wired(l, s, i);
  }

  // Inserting behind block k and dropping what was behind it commute.
  lemma InsertThenRemove(bs: seq<Addr>, k: nat, x: Addr)
    requires k + 1 < |bs|
    ensures var r := InsertAt(bs, k + 1, x);
            && r[k] == bs[k] && r[k + 1] == x && r[k + 2] == bs[k + 1] && (k + 2 < |bs| ==> r[k + 3] == bs[k + 2])
            && RemoveAt(r, k + 2) == InsertAt(RemoveAt(bs, k + 1), k + 1, x)
            && RemoveAt(r, k + 2)[k + 1] == x && (k + 2 < |bs| ==> RemoveAt(r, k + 2)[k + 2] == bs[k + 2])
  {}

  // A free block is not the last.
  lemma FreeBehind(h: Pool, l: Links, k: nat)
    requires PoolOk(h) && Circle(l, h.blocks) && k + 1 < |h.blocks| && h.blocks[k + 1] !in h.used
    ensures k + 2 < |h.blocks| && h.blocks[k + 1] in l.next && l.next[h.blocks[k + 1]] == h.blocks[k + 2]
    ensures h.blocks[k] % 4 == 0 && h.blocks[k] + HEADER <= h.blocks[k + 1] && h.blocks[k + 2] < h.size
  {
    assert Wired(l, h.blocks, k + 1);
    assert k + 2 < |h.blocks| - 1 ==> h.blocks[k + 2] + HEADER <= h.blocks[|h.blocks| - 1];
  }

  lemma AroundTwo(bs: seq<Addr>, k: nat, x: Addr)
    requires k + 1 < |bs|
    ensures bs == bs[..k] + [bs[k], bs[k + 1]] + bs[k + 2..]
    ensures InsertAt(RemoveAt(bs, k + 1), k + 1, x) == bs[..k] + [bs[k], x] + bs[k + 2..]
  {}

  // Only the header between them lies between blocks k and k + 2.
  lemma BetweenTwo(h: Pool, k: nat, x: Addr)
    requires PoolOk(h) && k + 2 < |h.blocks| && h.blocks[k] < x < h.blocks[k + 2]
    ensures x !in RemoveAt(h.blocks, k + 1)
  {
    var bs, r := h.blocks, RemoveAt(h.blocks, k + 1);
    RemoveAtElements(bs, k + 1);
    forall j | 0 <= j < |r| ensures r[j] != x {
      if j <= k {
        assert r[j] == bs[j] && (j < k ==> bs[j] + HEADER <= bs[k]);
      } else {
        assert r[j] == bs[j + 1] && (j > k + 1 ==> bs[k + 2] + HEADER <= bs[j + 1]);
      }
    }
  }

  // The free block, if any, that ends the blocks before some block, and the one
  // that begins those behind it.
  ghost predicate FreeLeft(a: seq<Addr>, left: seq<Addr>, used: set<Addr>) {
    && |left| <= 1 && (forall x :: x in left ==> x !in used)
    && (left == [] && a != [] ==> a[|a| - 1] in used)
  }

  ghost predicate FreeRight(right: seq<Addr>, b: seq<Addr>, used: set<Addr>) {
    && |right| <= 1 && (forall x :: x in right ==> x !in used)
    && b != [] && b[|b| - 1] in used && (right == [] ==> b[0] in used)
  }

  lemma BeforeIs(a: seq<Addr>, left: seq<Addr>, q: Addr, rest: seq<Addr>)
    requires |left| <= 1 && rest != []
    ensures var bs, k := a + left + [q] + rest, |a| + |left|;
            && bs[k] == q && Pred(bs, k) == (if left != [] then left[0] else if a != [] then a[|a| - 1] else rest[|rest| - 1])
            && (left != [] ==> RemoveAt(bs, k) == a + [left[0]] + rest)
            && (left == [] ==> bs == a + [q] + rest)
  {}

  lemma BehindIs(a: seq<Addr>, h: Addr, right: seq<Addr>, b: seq<Addr>)
    requires |right| <= 1 && b != []
    ensures var bs := a + [h] + (right + b);
            && bs[|a|] == h && Succ(bs, |a|) == bs[|a| + 1] == (if right != [] then right[0] else b[0])
            && (right != [] ==> RemoveAt(bs, |a| + 1) == a + [h] + b)
            && (right == [] ==> bs == a + [h] + b)
  {}

  // The links tell which sides of a used block are free.
  lemma SidesJoin(l: Links, bs: seq<Addr>, used: set<Addr>, a: seq<Addr>, left: seq<Addr>, q: Addr, right: seq<Addr>, b: seq<Addr>)
    requires Circle(l, bs) && bs == a + left + [q] + (right + b) && FreeLeft(a, left, used) && FreeRight(right, b, used)
    ensures Joined(l.next, l.prev, used, q) == |left| * HEADER + |right| * HEADER
    ensures q in l.next && q in l.prev && (l.prev[q] in used <==> left == []) && (l.next[q] in used <==> right == [])
    ensures right != [] ==> l.next[q] == right[0]
  {
    var k := |a| + |left|;
    BeforeIs(a, left, q, right + b);
    BehindIs(a + left, q, right, b);
    assert Wired(l, bs, k);
    assert (right + b)[|right + b| - 1] == b[|b| - 1];
    hide Circle, Wired, RemoveAt;
  }

  lemma FreeBlocks(bs: seq<Addr>, frees: seq<Addr>, used: set<Addr>, h: Addr)
    requires Matches(bs, frees, used) && h in frees
    ensures h in bs && h !in used
  {}

  // What taking block h means for the neighbours of block k.
  lemma JoinedAfterTaking(l: Links, l': Links, bs: seq<Addr>, used: set<Addr>, used': set<Addr>, k: nat, h: Addr, n: Addr, split: bool)
    requires Circle(l, bs) && k < |bs| && bs[k] in used && h in bs && h !in used && h in l.next
    requires if split then n !in bs && l' == Inserted(l, h, n) && used' == used + {h} - {n} else l' == l && used' == used + {h}
    ensures Joined(l'.next, l'.prev, used', bs[k]) == JoinedWithout(l.next, l.prev, used, h, split, bs[k])
  {
    var j :| 0 <= j < |bs| && bs[j] == h;
    var x := bs[k];
    assert Wired(l, bs, j) && Wired(l, bs, k);
    assert Succ(bs, k) in bs && Pred(bs, k) in bs;
    BothWays(bs, j, k);
    hide Circle, Unique, Succ, Pred;
  }

  // One follows the other exactly if the other precedes the one.
  lemma BothWays(s: seq<Addr>, j: nat, k: nat)
    requires Unique(s) && j < |s| && k < |s|
    ensures Succ(s, j) == s[k] <==> Pred(s, k) == s[j]
  {
    Neighbours(s, j, k);
    Neighbours(s, k, j);
  }

  lemma Regrouped(a: seq<Addr>, left: seq<Addr>, q: Addr, right: seq<Addr>, b: seq<Addr>)
    ensures a + left + [q] + (right + b) == a + (left + [q] + right) + b
    ensures (left + [q])[0] == (left + [q] + right)[0]
    ensures forall x :: x in left + right ==> x in left || x in right
  {}

  lemma LeftSide(bs: seq<Addr>, k: nat, used: set<Addr>) returns (a: seq<Addr>, left: seq<Addr>)
    requires k < |bs|
    ensures a + left == bs[..k] && FreeLeft(a, left, used)
  {
    if k > 0 && bs[k - 1] !in used {
      a, left := bs[..k - 1], [bs[k - 1]];
    } else {
      a, left := bs[..k], [];
    }
  }

  lemma RightSide(bs: seq<Addr>, k: nat, used: set<Addr>) returns (right: seq<Addr>, b: seq<Addr>)
    requires k + 1 < |bs| && bs[|bs| - 1] in used
    ensures right + b == bs[k + 1..] && FreeRight(right, b, used)
  {
    if bs[k + 1] !in used {
      right, b := [bs[k + 1]], bs[k + 2..];
    } else {
      right, b := [], bs[k + 1..];
    }
  }

  // The blocks around used block k, and that marking it free does not concern them.
  lemma Surroundings(h: Pool, k: nat) returns (a: seq<Addr>, left: seq<Addr>, right: seq<Addr>, b: seq<Addr>)
    requires PoolOk(h) && k + 1 < |h.blocks| && h.blocks[k] in h.used
    ensures h.blocks == a + left + [h.blocks[k]] + (right + b) && |left| <= 1 && |right| <= 1
    ensures FreeLeft(a, left, h.used) && FreeRight(right, b, h.used)
    ensures FreeLeft(a, left, h.used - {h.blocks[k]}) && FreeRight(right, b, h.used - {h.blocks[k]})
    ensures (right + b)[0] == h.blocks[k + 1] && (right + b)[|right + b| - 1] == b[|b| - 1]
    ensures h.blocks[k] < h.size && h.blocks[k] + HEADER <= h.blocks[k + 1]
  {
    var bs, q := h.blocks, h.blocks[k];
    a, left := LeftSide(bs, k, h.used);
    right, b := RightSide(bs, k, h.used);
    Elsewhere(bs, k);
    assert bs[|bs| - 1] == h.size - HEADER;
    hide Rising, NoFreePair, FreeLeft, FreeRight;
    StillSides(a, left, right, b, h.used, q);
  }

  lemma Elsewhere(bs: seq<Addr>, k: nat)
    requires Rising(bs) && k + 1 < |bs|
    ensures bs[k] !in bs[..k] && bs[k] !in bs[k + 1..]
    ensures bs == bs[..k] + [bs[k]] + bs[k + 1..] && bs[k + 1..][0] == bs[k + 1]
    ensures bs[k] + HEADER <= bs[k + 1] && bs[k] + HEADER <= bs[|bs| - 1]
  {}

  lemma StillSides(a: seq<Addr>, left: seq<Addr>, right: seq<Addr>, b: seq<Addr>, used: set<Addr>, q: Addr)
    requires FreeLeft(a, left, used) && FreeRight(right, b, used) && q !in a + left && q !in right + b
    ensures FreeLeft(a, left, used - {q}) && FreeRight(right, b, used - {q})
    ensures (right + b)[|right + b| - 1] == b[|b| - 1]
  {
    assert a != [] ==> a[|a| - 1] in a + left;
    assert b[|b| - 1] in right + b && b[0] in right + b;
  }

  lemma Around(bs: seq<Addr>, k: nat, x: Addr)
    requires k < |bs|
    ensures bs == bs[..k] + [bs[k]] + bs[k + 1..]
    ensures InsertAt(bs, k + 1, x) == bs[..k] + [bs[k], x] + bs[k + 1..]
    ensures forall y :: y in InsertAt(bs, k + 1, x) <==> y == x || y in bs
  {
    InsertAtElements(bs, k + 1, x);
  }

  // No header lies strictly between two neighbours.
  lemma Between(h: Pool, k: nat, x: Addr)
    requires PoolOk(h) && k + 1 < |h.blocks| && h.blocks[k] < x < h.blocks[k + 1]
    ensures x !in h.blocks && h.blocks[k + 1] < h.size
    ensures h.blocks[k] % 4 == 0 && h.blocks[k + 1] % 4 == 0
  {
    forall j | 0 <= j < |h.blocks| ensures h.blocks[j] != x {
      assert j < k ==> h.blocks[j] + HEADER <= h.blocks[k];
      assert j > k + 1 ==> h.blocks[k + 1] + HEADER <= h.blocks[j];
    }
    assert k + 1 < |h.blocks| - 1 ==> h.blocks[k + 1] + HEADER <= h.blocks[|h.blocks| - 1];
  }

  // Free blocks are real blocks, not the last, and not the head of the free list.
  lemma FreeNodes(bl: Links, fl: Links, h: Pool, frees: seq<Addr>)
    requires Circle(bl, h.blocks) && Circle(fl, [h.size] + frees) && PoolOk(h) && Matches(h.blocks, frees, h.used)
    ensures forall x :: x in frees ==> x in bl.next && x in fl.next && x != h.size
  {
    forall x | x in frees ensures x in bl.next && x in fl.next && x != h.size {
      var j :| 0 <= j < |frees| && frees[j] == x;
      assert Wired(fl, [h.size] + frees, j + 1) && ([h.size] + frees)[j + 1] == x;
      var k :| 0 <= k < |h.blocks| && h.blocks[k] == x;
      assert Wired(bl, h.blocks, k);
      assert ([h.size] + frees)[0] == h.size;
    }
  }

  lemma RemoveIsWithout(s: seq<Addr>, j: nat)
    requires Unique(s) && j < |s|
    ensures RemoveAt(s, j) == Without(s, s[j])
  {
    assert s == s[..j] + [s[j]] + s[j + 1..];
    WithoutBetween(s[..j], s[j], s[j + 1..]);
  }

  lemma UniqueTail(h: Addr, s: seq<Addr>)
    requires Unique([h] + s)
    ensures Unique(s)
  {
    assert forall i :: 0 <= i < |s| ==> ([h] + s)[i + 1] == s[i];
  }
}
