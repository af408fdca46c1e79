/** The small memory manager as a block list laid over the bytes of its region:
    what the in-band headers say, and how splitting, merging and marking change
    them. Offsets count from heap_ptr. */
module SmallHeap {
  import opened Bytes
  import opened Words

  const HEADER := 12    // SIZEOF_STRUCT_MEM: pool_ptr, next, prev
  const MIN_SIZE := 12

  // The address of the memory object and the usable size of its region.
  datatype Pool = Pool(id: nat, size: nat) {
    predicate Valid() {
      0 < id && id % 4 == 0 && id + 1 < WORD && size % 4 == 0 && size + 2 * HEADER < WORD
    }
    function End(): nat { size + HEADER }
    function Tag(used: bool): nat { if used then id + 1 else id }
  }

  // A block and its footprint, header included.
  datatype Block = Block(off: nat, size: nat, used: bool) {
    function Payload(): nat { off + HEADER }
    function Stop(): nat { off + size }
  }

  function PrevOf(bs: seq<Block>, i: nat): nat
    requires i < |bs|
  {
    if i == 0 then 0 else bs[i - 1].off
  }

  // Where the follower of block i starts; the last is followed by the sentinel.
  function NextOf(p: Pool, bs: seq<Block>, i: nat): nat
    requires i < |bs|
  {
    if i + 1 < |bs| then bs[i + 1].off else p.End()
  }

  ghost predicate Tile(p: Pool, bs: seq<Block>, i: nat)
    requires i < |bs|
  {
    bs[i].size >= HEADER && bs[i].off % 4 == 0 && bs[i].size % 4 == 0 && bs[i].Stop() == NextOf(p, bs, i)
  }

  // Blocks tile the region from 0 to the end sentinel.
  ghost predicate Tiles(p: Pool, bs: seq<Block>) {
    bs != [] && bs[0].off == 0 && forall i :: 0 <= i < |bs| ==> Tile(p, bs, i)
  }

  ghost predicate Header(p: Pool, m: seq<byte>, b: Block, prev: nat)
    requires b.off + HEADER <= |m|
  {
    && Word(m, b.off) == p.Tag(b.used)
    && Word(m, b.off + 4) == b.Stop()
    && Word(m, b.off + 8) == prev
  }

  // The headers agree with the list.
  ghost predicate Headers(p: Pool, m: seq<byte>, bs: seq<Block>) {
    forall i :: 0 <= i < |bs| ==> bs[i].off + HEADER <= |m| && Header(p, m, bs[i], PrevOf(bs, i))
  }

  // The end sentinel is used and points to itself; its prev field is not kept
  // up and nothing reads it.
  ghost predicate EndMark(p: Pool, m: seq<byte>)
    requires p.End() + 8 <= |m|
  {
    Word(m, p.End()) == p.Tag(true) && Word(m, p.End() + 4) == p.End()
  }

  ghost predicate Heap(p: Pool, m: seq<byte>, bs: seq<Block>) {
    && p.Valid() && |m| == p.size + 2 * HEADER
    && Tiles(p, bs) && Headers(p, m, bs) && EndMark(p, m)
  }

  ghost predicate Coalesced(bs: seq<Block>) {
    forall i :: 0 <= i < |bs| - 1 ==> bs[i].used || bs[i + 1].used
  }

  // Coalesced, except that block i may have a free neighbour.
  ghost predicate CoalescedBut(bs: seq<Block>, i: nat) {
    forall j :: 0 <= j < |bs| - 1 && j != i && j + 1 != i ==> bs[j].used || bs[j + 1].used
  }

  lemma {:induction false} TilesOrdered(p: Pool, bs: seq<Block>, i: nat, j: nat)
    requires Tiles(p, bs) && i < j < |bs|
    ensures bs[i].Stop() <= bs[j].off
    decreases j
  {
    assert Tile(p, bs, j - 1);
    if i + 1 < j {
      assert Tile(p, bs, i);
      TilesOrdered(p, bs, i, j - 1);
    }
  }

  lemma {:induction false} TilesBelow(p: Pool, bs: seq<Block>, i: nat)
    requires Tiles(p, bs) && i < |bs|
    ensures bs[i].off + HEADER <= bs[i].Stop() <= p.End()
    ensures if i + 1 < |bs| then bs[i].Stop() + HEADER <= p.End() else bs[i].Stop() == p.End()
  {
    assert Tile(p, bs, i) && Tile(p, bs, |bs| - 1);
    if i + 1 < |bs| {
      TilesOrdered(p, bs, i, |bs| - 1);
    }
  }

  // ---------- what the clients see ----------

  ghost predicate Fits(m: seq<byte>, bs: seq<Block>) {
    forall i :: 0 <= i < |bs| ==> bs[i].Payload() <= bs[i].Stop() <= |m|
  }

  // Live payloads by their offset.
  ghost function Store(m: seq<byte>, bs: seq<Block>): map<nat, seq<byte>>
    requires Fits(m, bs)
  {
    if bs == [] then map[]
    else
      var b := bs[|bs| - 1];
      var rest := Store(m, bs[..|bs| - 1]);
      if b.used then rest[b.Payload() := m[b.Payload()..b.Stop()]] else rest
  }

  lemma {:induction false} StoreAppend(m: seq<byte>, a: seq<Block>, b: seq<Block>)
    requires Fits(m, a) && Fits(m, b)
    ensures Fits(m, a + b)
    ensures Store(m, a + b) == Store(m, a) + Store(m, b)
    decreases b
  {
    if b == [] {
      assert a + b == a;
    } else {
      var init, last := b[..|b| - 1], b[|b| - 1];
      assert (a + b)[..|a + b| - 1] == a + init && (a + b)[|a + b| - 1] == last;
      StoreAppend(m, a, init);
      PutLast(Store(m, a), Store(m, init), last.Payload(), m[last.Payload()..last.Stop()]);
    }
  }

  lemma PutLast<T>(a: map<nat, T>, b: map<nat, T>, k: nat, v: T)
    ensures (a + b)[k := v] == a + b[k := v]
  {}

  // The live payloads are the same bytes in both memories.
  ghost predicate Untouched(m: seq<byte>, m': seq<byte>, bs: seq<Block>) {
    && |m'| == |m|
    && forall i, k :: 0 <= i < |bs| && bs[i].used && bs[i].Payload() <= k < bs[i].Stop() && k < |m| ==> m'[k] == m[k]
  }

  lemma {:induction false} StoreSame(m: seq<byte>, m': seq<byte>, bs: seq<Block>)
    requires Fits(m, bs) && Untouched(m, m', bs)
    ensures Store(m', bs) == Store(m, bs)
    decreases bs
  {
    if bs != [] {
      var b := bs[|bs| - 1];
      assert b.used ==> m'[b.Payload()..b.Stop()] == m[b.Payload()..b.Stop()];
      StoreSame(m, m', bs[..|bs| - 1]);
    }
  }

  lemma StoreOne(m: seq<byte>, b: Block)
    requires b.Payload() <= b.Stop() <= |m|
    ensures Fits(m, [b])
    ensures Store(m, [b]) == if b.used then map[b.Payload() := m[b.Payload()..b.Stop()]] else map[]
  {
    assert [b][..0] == [];
    assert [b][|[b]| - 1] == b;
    assert Store(m, []) == map[];
  }

  lemma {:induction false} StoreKeys(m: seq<byte>, bs: seq<Block>, p: nat)
    requires Fits(m, bs)
    ensures p in Store(m, bs) <==> exists i :: 0 <= i < |bs| && bs[i].used && bs[i].Payload() == p
    decreases bs
  {
    if bs != [] {
      var n := |bs| - 1;
      StoreKeys(m, bs[..n], p);
      if p in Store(m, bs[..n]) {
        var i :| 0 <= i < n && bs[..n][i].used && bs[..n][i].Payload() == p;
        assert bs[i].used && bs[i].Payload() == p;
      }
      if exists i :: 0 <= i < |bs| && bs[i].used && bs[i].Payload() == p {
        var i :| 0 <= i < |bs| && bs[i].used && bs[i].Payload() == p;
        if i < n {
          assert bs[..n][i].used && bs[..n][i].Payload() == p;
        }
      }
    }
  }

  // ---------- accounting ----------

  function UsedSum(bs: seq<Block>): nat {
    if bs == [] then 0 else (if bs[0].used then bs[0].size else 0) + UsedSum(bs[1..])
  }

  lemma {:induction false} UsedSumAppend(a: seq<Block>, b: seq<Block>)
    ensures UsedSum(a + b) == UsedSum(a) + UsedSum(b)
    decreases a
  {
    if a == [] {
      assert a + b == b;
    } else {
      assert (a + b)[1..] == a[1..] + b;
      UsedSumAppend(a[1..], b);
    }
  }

  // Index of the first free block, or the number of blocks.
  function FirstFree(bs: seq<Block>): (k: nat)
    ensures k <= |bs|
    ensures forall i :: 0 <= i < k ==> bs[i].used
    ensures k < |bs| ==> !bs[k].used
  {
    if bs == [] || !bs[0].used then 0 else 1 + FirstFree(bs[1..])
  }

  lemma {:induction false} FirstFreeIs(bs: seq<Block>, k: nat)
    requires k <= |bs|
    requires forall i :: 0 <= i < k ==> bs[i].used
    requires k < |bs| ==> !bs[k].used
    ensures FirstFree(bs) == k
  {
    if k > 0 {
      FirstFreeIs(bs[1..], k - 1);
    }
  }

  function OffsetAt(p: Pool, bs: seq<Block>, k: nat): nat {
    if k < |bs| then bs[k].off else p.End()
  }

  // ---------- the three ways headers are rewritten ----------

  // A header survives a word stored outside it.
  lemma HeaderKept(p: Pool, m: seq<byte>, b: Block, prev: nat, a: nat, v: nat)
    requires b.off + HEADER <= |m| && a + 4 <= |m|
    requires Header(p, m, b, prev)
    requires b.off + HEADER <= a || a + 4 <= b.off
    ensures Header(p, Put(m, a, v), b, prev)
  {
    hide Put, Word;
    PutWord(m, a, v);
  }

  // Headers of different blocks, and of the sentinel, do not overlap.
  lemma Apart(p: Pool, bs: seq<Block>, i: nat, j: nat)
    requires Tiles(p, bs) && i < |bs| && j < |bs| && i != j
    ensures bs[i].off + HEADER <= bs[j].off || bs[j].off + HEADER <= bs[i].off
  {
    assert Tile(p, bs, i) && Tile(p, bs, j);
    if i < j {
      TilesOrdered(p, bs, i, j);
    } else {
      TilesOrdered(p, bs, j, i);
    }
  }

  lemma MarkTiles(p: Pool, bs: seq<Block>, i: nat, used: bool)
    requires Tiles(p, bs) && i < |bs|
    ensures Tiles(p, bs[i := bs[i].(used := used)])
  {
    var bs' := bs[i := bs[i].(used := used)];
    forall j | 0 <= j < |bs'| ensures Tile(p, bs', j) {
      assert Tile(p, bs, j);
    }
  }

  lemma EndMarkKept(p: Pool, m: seq<byte>, a: nat, v: nat)
    requires p.End() + 8 <= |m| && EndMark(p, m)
    requires a + 4 <= p.End() || (p.End() + 8 <= a && a + 4 <= |m|)
    ensures EndMark(p, Put(m, a, v))
  {
    hide Put, Word;
    PutWord(m, a, v);
  }

  // The headers after word v has been stored at the start of block i's.
  lemma MarkedHeader(p: Pool, m: seq<byte>, bs: seq<Block>, i: nat, used: bool, j: nat)
    requires Tiles(p, bs) && Headers(p, m, bs) && i < |bs| && j < |bs| && bs[i].off + HEADER <= |m| && p.Valid()
    ensures var bs' := bs[i := bs[i].(used := used)];
            bs'[j].off + HEADER <= |m| && Header(p, Put(m, bs[i].off, p.Tag(used)), bs'[j], PrevOf(bs', j))
  {
    var a, v := bs[i].off, p.Tag(used);
    var bs' := bs[i := bs[i].(used := used)];
    assert PrevOf(bs', j) == PrevOf(bs, j);
    assert Header(p, m, bs[j], PrevOf(bs, j));
    hide Put, Word, Tiles, Headers, PrevOf;
    if j != i {
      Apart(p, bs, i, j);
      hide Header;
      HeaderKept(p, m, bs[j], PrevOf(bs, j), a, v);
    } else {
      PutWord(m, a, v);
    }
  }

  // MEM_USED / MEM_FREED on block i.
  lemma MarkBlock(p: Pool, m: seq<byte>, bs: seq<Block>, i: nat, used: bool)
    requires Heap(p, m, bs) && i < |bs| && bs[i].off + 4 <= |m|
    ensures Heap(p, Put(m, bs[i].off, p.Tag(used)), bs[i := bs[i].(used := used)])
  {
    hide Put, Word, Tiles, EndMark, Header, PrevOf;
    var a, v := bs[i].off, p.Tag(used);
    var m', bs' := Put(m, a, v), bs[i := bs[i].(used := used)];
    MarkTiles(p, bs, i, used);
    TilesBelow(p, bs, i);
    EndMarkKept(p, m, a, v);
    forall j | 0 <= j < |bs'| ensures bs'[j].off + HEADER <= |m'| && Header(p, m', bs'[j], PrevOf(bs', j)) {
      MarkedHeader(p, m, bs, i, used, j);
    }
  }

  // Breaking a block at ptr2: the new header, the old block's next, and the
  // follower's prev unless that is the sentinel.
  ghost function SplitBytes(p: Pool, m: seq<byte>, ptr: nat, ptr2: nat, next: nat): (m': seq<byte>)
    requires ptr + HEADER <= ptr2 && ptr2 + HEADER <= next && next + HEADER <= |m|
    ensures |m'| == |m|
  {
    var m4 := Put(Put(Put(Put(m, ptr2, p.Tag(false)), ptr2 + 4, next), ptr2 + 8, ptr), ptr + 4, ptr2);
    if next != p.End() then Put(m4, next + 8, ptr2) else m4
  }

  // Absorbing the block at nptr, whose follower starts at next.
  ghost function MergeBytes(m: seq<byte>, ptr: nat, nptr: nat, next: nat): (m': seq<byte>)
    requires ptr + HEADER <= nptr && nptr + HEADER <= next && next + HEADER <= |m|
    ensures |m'| == |m|
  {
    Put(Put(Put(m, nptr, 0), ptr + 4, next), next + 8, ptr)
  }

  lemma SplitBytesFacts(p: Pool, m: seq<byte>, ptr: nat, ptr2: nat, next: nat)
    requires ptr + HEADER <= ptr2 && ptr2 + HEADER <= next && next + HEADER <= |m| < WORD && p.Valid()
    ensures var m' := SplitBytes(p, m, ptr, ptr2, next);
            && Word(m', ptr2) == p.Tag(false) && Word(m', ptr2 + 4) == next && Word(m', ptr2 + 8) == ptr
            && Word(m', ptr) == Word(m, ptr) && Word(m', ptr + 4) == ptr2 && Word(m', ptr + 8) == Word(m, ptr + 8)
            && Word(m', next) == Word(m, next) && Word(m', next + 4) == Word(m, next + 4)
            && (next != p.End() ==> Word(m', next + 8) == ptr2)
    ensures forall k :: 0 <= k < |m| && !(ptr + 4 <= k < ptr + 8) && !(ptr2 <= k < ptr2 + HEADER) && !(next + 8 <= k < next + HEADER)
              ==> SplitBytes(p, m, ptr, ptr2, next)[k] == m[k]
  {
    hide Put, Word;
    var m1 := Put(m, ptr2, p.Tag(false));
    PutWord(m, ptr2, p.Tag(false));
    var m2 := Put(m1, ptr2 + 4, next);
    PutWord(m1, ptr2 + 4, next);
    var m3 := Put(m2, ptr2 + 8, ptr);
    PutWord(m2, ptr2 + 8, ptr);
    var m4 := Put(m3, ptr + 4, ptr2);
    PutWord(m3, ptr + 4, ptr2);
    PutWord(m4, next + 8, ptr2);
  }

  lemma MergeBytesFacts(m: seq<byte>, ptr: nat, nptr: nat, next: nat)
    requires ptr + HEADER <= nptr && nptr + HEADER <= next && next + HEADER <= |m| < WORD
    ensures var m' := MergeBytes(m, ptr, nptr, next);
            && Word(m', ptr) == Word(m, ptr) && Word(m', ptr + 4) == next && Word(m', ptr + 8) == Word(m, ptr + 8)
            && Word(m', next) == Word(m, next) && Word(m', next + 4) == Word(m, next + 4) && Word(m', next + 8) == ptr
    ensures forall k :: 0 <= k < |m| && !(ptr + 4 <= k < ptr + 8) && !(nptr <= k < nptr + HEADER) && !(next + 8 <= k < next + HEADER)
              ==> MergeBytes(m, ptr, nptr, next)[k] == m[k]
  {
    hide Put, Word;
    var m1 := Put(m, nptr, 0);
    PutWord(m, nptr, 0);
    var m2 := Put(m1, ptr + 4, next);
    PutWord(m1, ptr + 4, next);
    PutWord(m2, next + 8, ptr);
  }

  lemma HeaderSameBytes(p: Pool, m: seq<byte>, m': seq<byte>, b: Block, prev: nat)
    requires b.off + HEADER <= |m| && |m'| == |m| && Header(p, m, b, prev)
    requires forall k :: b.off <= k < b.off + HEADER ==> m'[k] == m[k]
    ensures Header(p, m', b, prev)
  {
    hide Word;
    WordSame(m, m', b.off);
    WordSame(m, m', b.off + 4);
    WordSame(m, m', b.off + 8);
  }

  function Splitted(bs: seq<Block>, i: nat, s: nat): seq<Block>
    requires i < |bs| && s <= bs[i].size
  {
    var b := bs[i];
    bs[..i] + [Block(b.off, s, b.used), Block(b.off + s, b.size - s, false)] + bs[i + 1..]
  }

  function Merged(bs: seq<Block>, i: nat): seq<Block>
    requires i + 1 < |bs|
  {
    bs[..i] + [bs[i].(size := bs[i].size + bs[i + 1].size)] + bs[i + 2..]
  }

  lemma SplittedAt(bs: seq<Block>, i: nat, s: nat)
    requires i < |bs| && s <= bs[i].size
    ensures |Splitted(bs, i, s)| == |bs| + 1
    ensures forall j :: 0 <= j < i ==> Splitted(bs, i, s)[j] == bs[j]
    ensures Splitted(bs, i, s)[i] == bs[i].(size := s)
    ensures Splitted(bs, i, s)[i + 1] == Block(bs[i].off + s, bs[i].size - s, false)
    ensures forall j :: i + 2 <= j <= |bs| ==> Splitted(bs, i, s)[j] == bs[j - 1]
  {}

  lemma MergedAt(bs: seq<Block>, i: nat)
    requires i + 1 < |bs|
    ensures |Merged(bs, i)| == |bs| - 1
    ensures forall j :: 0 <= j < i ==> Merged(bs, i)[j] == bs[j]
    ensures Merged(bs, i)[i] == bs[i].(size := bs[i].size + bs[i + 1].size)
    ensures forall j :: i + 1 <= j < |bs| - 1 ==> Merged(bs, i)[j] == bs[j + 1]
  {}

  lemma SplitTiles(p: Pool, bs: seq<Block>, i: nat, s: nat)
    requires Tiles(p, bs) && i < |bs| && HEADER <= s && s + HEADER <= bs[i].size && s % 4 == 0
    ensures Tiles(p, Splitted(bs, i, s))
  {
    hide Splitted;
    var bs' := Splitted(bs, i, s);
    SplittedAt(bs, i, s);
    forall j | 0 <= j < |bs'| ensures Tile(p, bs', j) {
      assert Tile(p, bs, if j <= i then j else j - 1);
    }
  }

  lemma MergeTiles(p: Pool, bs: seq<Block>, i: nat)
    requires Tiles(p, bs) && i + 1 < |bs|
    ensures Tiles(p, Merged(bs, i))
  {
    hide Merged;
    var bs' := Merged(bs, i);
    MergedAt(bs, i);
    assert Tile(p, bs, i) && Tile(p, bs, i + 1);
    forall j | 0 <= j < |bs'| ensures Tile(p, bs', j) {
      assert Tile(p, bs, if j < i then j else j + 1);
    }
  }

  // What a split needs to know about where it happens.
  lemma Neighbours(p: Pool, bs: seq<Block>, i: nat, j: nat)
    requires Tiles(p, bs) && i < |bs| && j < |bs| && i != j
    ensures bs[j].off + HEADER <= bs[j].Stop()
    ensures j < i ==> bs[j].Stop() <= bs[i].off
    ensures i < j ==> bs[i].Stop() <= bs[j].off
    ensures i + 1 < j ==> bs[i].Stop() + HEADER <= bs[j].off
    ensures i + 1 == j ==> bs[i].Stop() == bs[j].off
  {
    assert Tile(p, bs, i) && Tile(p, bs, j);
    if j < i {
      TilesOrdered(p, bs, j, i);
    } else if j > i + 1 {
      assert Tile(p, bs, i + 1);
      TilesOrdered(p, bs, i + 1, j);
    }
  }

  // The header of a block that is neither block i nor its follower survives any
  // change confined to block i and the follower's header.
  lemma FarHeaderKept(p: Pool, m: seq<byte>, m': seq<byte>, bs: seq<Block>, i: nat, j: nat)
    requires Heap(p, m, bs) && i < |bs| && j < |bs| && (j < i || j > i + 1) && |m'| == |m|
    requires forall k :: 0 <= k < |m| && (k < bs[i].off || bs[i].Stop() + HEADER <= k) ==> m'[k] == m[k]
    ensures bs[j].off + HEADER <= |m'| && Header(p, m', bs[j], PrevOf(bs, j))
  {
    hide Word, Tiles;
    Neighbours(p, bs, i, j);
    assert Header(p, m, bs[j], PrevOf(bs, j));
    HeaderSameBytes(p, m, m', bs[j], PrevOf(bs, j));
  }

  // The three headers a split writes or changes.
  lemma SplitNearHeaders(p: Pool, m: seq<byte>, bs: seq<Block>, i: nat, s: nat)
    requires Heap(p, m, bs) && i < |bs| && HEADER <= s && s + HEADER <= bs[i].size && bs[i].Stop() + HEADER <= |m|
    ensures var m' := SplitBytes(p, m, bs[i].off, bs[i].off + s, bs[i].Stop());
            && Header(p, m', bs[i].(size := s), PrevOf(bs, i))
            && Header(p, m', Block(bs[i].off + s, bs[i].size - s, false), bs[i].off)
            && (i + 1 < |bs| ==> bs[i + 1].off == bs[i].Stop() && Header(p, m', bs[i + 1], bs[i].off + s))
  {
    hide SplitBytes, Word, Tiles;
    SplitBytesFacts(p, m, bs[i].off, bs[i].off + s, bs[i].Stop());
    assert Header(p, m, bs[i], PrevOf(bs, i));
    if i + 1 < |bs| {
      Neighbours(p, bs, i, i + 1);
      TilesBelow(p, bs, i + 1);
      assert Header(p, m, bs[i + 1], PrevOf(bs, i + 1));
    }
  }

  lemma SplitHeader(p: Pool, m: seq<byte>, bs: seq<Block>, i: nat, s: nat, j: nat, m': seq<byte>, bs': seq<Block>)
    requires Heap(p, m, bs) && i < |bs| && HEADER <= s && s + HEADER <= bs[i].size && bs[i].Stop() + HEADER <= |m|
    requires m' == SplitBytes(p, m, bs[i].off, bs[i].off + s, bs[i].Stop()) && bs' == Splitted(bs, i, s)
    requires j < |bs'|
    ensures bs'[j].off + HEADER <= |m'| && Header(p, m', bs'[j], PrevOf(bs', j))
  {
    hide Splitted, SplitBytes, Header, Tiles, Headers, EndMark;
    SplittedAt(bs, i, s);
    SplitBytesFacts(p, m, bs[i].off, bs[i].off + s, bs[i].Stop());
    if j < i {
      FarHeaderKept(p, m, m', bs, i, j);
    } else if j > i + 2 {
      FarHeaderKept(p, m, m', bs, i, j - 1);
    } else {
      SplitNearHeaders(p, m, bs, i, s);
    }
  }

  lemma SplitPayloads(p: Pool, m: seq<byte>, bs: seq<Block>, i: nat, s: nat)
    requires Heap(p, m, bs) && i < |bs| && HEADER <= s && s + HEADER <= bs[i].size && bs[i].Stop() + HEADER <= |m|
    ensures Untouched(m, SplitBytes(p, m, bs[i].off, bs[i].off + s, bs[i].Stop()), Splitted(bs, i, s))
  {
    hide Splitted, SplitBytes, Word, Tiles, Headers, EndMark;
    var bs' := Splitted(bs, i, s);
    SplittedAt(bs, i, s);
    SplitBytesFacts(p, m, bs[i].off, bs[i].off + s, bs[i].Stop());
    forall j, k | 0 <= j < |bs'| && bs'[j].used && bs'[j].Payload() <= k < bs'[j].Stop() && k < |m|
      ensures SplitBytes(p, m, bs[i].off, bs[i].off + s, bs[i].Stop())[k] == m[k]
    {
      if j < i {
        Neighbours(p, bs, i, j);
      } else if j > i + 1 {
        Neighbours(p, bs, i, j - 1);
      }
    }
  }

  // Block i broken after its first s bytes. No byte of a live payload changes.
  lemma SplitBlock(p: Pool, m: seq<byte>, bs: seq<Block>, i: nat, s: nat)
    requires Heap(p, m, bs) && i < |bs| && HEADER <= s && s + HEADER <= bs[i].size && s % 4 == 0
    ensures bs[i].Stop() + HEADER <= |m|
    ensures Heap(p, SplitBytes(p, m, bs[i].off, bs[i].off + s, bs[i].Stop()), Splitted(bs, i, s))
    ensures Untouched(m, SplitBytes(p, m, bs[i].off, bs[i].off + s, bs[i].Stop()), Splitted(bs, i, s))
  {
    hide Splitted, SplitBytes, Word, Tiles, Header, Untouched;
    TilesBelow(p, bs, i);
    var m', bs' := SplitBytes(p, m, bs[i].off, bs[i].off + s, bs[i].Stop()), Splitted(bs, i, s);
    SplitTiles(p, bs, i, s);
    forall j | 0 <= j < |bs'| ensures bs'[j].off + HEADER <= |m'| && Header(p, m', bs'[j], PrevOf(bs', j)) {
      SplitHeader(p, m, bs, i, s, j, m', bs');
    }
    SplitPayloads(p, m, bs, i, s);
    SplitBytesFacts(p, m, bs[i].off, bs[i].off + s, bs[i].Stop());
    EndMarkSame(p, m, m');
  }

  lemma EndMarkSame(p: Pool, m: seq<byte>, m': seq<byte>)
    requires p.End() + 8 <= |m| == |m'| && EndMark(p, m)
    requires forall k :: p.End() <= k < p.End() + 8 ==> m'[k] == m[k]
    ensures EndMark(p, m')
  {
    hide Word;
    WordSame(m, m', p.End());
    WordSame(m, m', p.End() + 4);
  }

  // The change is confined to two neighbours and the header behind them.
  lemma MergeFarHeaderKept(p: Pool, m: seq<byte>, m': seq<byte>, bs: seq<Block>, i: nat, j: nat)
    requires Heap(p, m, bs) && i + 1 < |bs| && j < |bs| && (j < i || j > i + 2) && |m'| == |m|
    requires forall k :: 0 <= k < |m| && (k < bs[i].off || bs[i + 1].Stop() + HEADER <= k) ==> m'[k] == m[k]
    ensures bs[j].off + HEADER <= |m'| && Header(p, m', bs[j], PrevOf(bs, j))
  {
    hide Word, Tiles;
    Neighbours(p, bs, i, j);
    Neighbours(p, bs, i + 1, j);
    assert Header(p, m, bs[j], PrevOf(bs, j));
    HeaderSameBytes(p, m, m', bs[j], PrevOf(bs, j));
  }

  // The two headers a merge changes.
  lemma MergeNearHeaders(p: Pool, m: seq<byte>, bs: seq<Block>, i: nat)
    requires Heap(p, m, bs) && i + 1 < |bs| && bs[i].off + HEADER <= bs[i + 1].off && bs[i + 1].off + HEADER <= bs[i + 1].Stop()
    requires bs[i + 1].Stop() + HEADER <= |m|
    ensures var m' := MergeBytes(m, bs[i].off, bs[i + 1].off, bs[i + 1].Stop());
            && Header(p, m', bs[i].(size := bs[i].size + bs[i + 1].size), PrevOf(bs, i))
            && (i + 2 < |bs| ==> bs[i + 2].off == bs[i + 1].Stop() && Header(p, m', bs[i + 2], bs[i].off))
  {
    hide MergeBytes, Word, Tiles;
    MergeBytesFacts(m, bs[i].off, bs[i + 1].off, bs[i + 1].Stop());
    Neighbours(p, bs, i, i + 1);
    assert Header(p, m, bs[i], PrevOf(bs, i));
    if i + 2 < |bs| {
      Neighbours(p, bs, i + 1, i + 2);
      assert Header(p, m, bs[i + 2], PrevOf(bs, i + 2));
    }
  }

  lemma MergeHeader(p: Pool, m: seq<byte>, bs: seq<Block>, i: nat, j: nat, m': seq<byte>, bs': seq<Block>)
    requires Heap(p, m, bs) && i + 1 < |bs| && bs[i].off + HEADER <= bs[i + 1].off && bs[i + 1].off + HEADER <= bs[i + 1].Stop()
    requires bs[i + 1].Stop() + HEADER <= |m|
    requires m' == MergeBytes(m, bs[i].off, bs[i + 1].off, bs[i + 1].Stop()) && bs' == Merged(bs, i)
    requires j < |bs'|
    ensures bs'[j].off + HEADER <= |m'| && Header(p, m', bs'[j], PrevOf(bs', j))
  {
    hide Merged, MergeBytes, Header, Tiles, Headers, EndMark;
    MergedAt(bs, i);
    MergeBytesFacts(m, bs[i].off, bs[i + 1].off, bs[i + 1].Stop());
    if j < i {
      MergeFarHeaderKept(p, m, m', bs, i, j);
    } else if j > i + 1 {
      MergeFarHeaderKept(p, m, m', bs, i, j + 1);
    } else {
      MergeNearHeaders(p, m, bs, i);
    }
  }

  lemma MergePayloads(p: Pool, m: seq<byte>, bs: seq<Block>, i: nat)
    requires Heap(p, m, bs) && i + 1 < |bs| && bs[i].off + HEADER <= bs[i + 1].off && bs[i + 1].off + HEADER <= bs[i + 1].Stop()
    requires bs[i + 1].Stop() + HEADER <= |m| && !bs[i].used && !bs[i + 1].used
    ensures Untouched(m, MergeBytes(m, bs[i].off, bs[i + 1].off, bs[i + 1].Stop()), Merged(bs, i))
  {
    hide Merged, MergeBytes, Word, Tiles, Headers, EndMark;
    var bs' := Merged(bs, i);
    MergedAt(bs, i);
    MergeBytesFacts(m, bs[i].off, bs[i + 1].off, bs[i + 1].Stop());
    forall j, k | 0 <= j < |bs'| && bs'[j].used && bs'[j].Payload() <= k < bs'[j].Stop() && k < |m|
      ensures MergeBytes(m, bs[i].off, bs[i + 1].off, bs[i + 1].Stop())[k] == m[k]
    {
      if j < i {
        Neighbours(p, bs, i, j);
      } else {
        Neighbours(p, bs, i, j + 1);
        Neighbours(p, bs, i + 1, j + 1);
      }
    }
  }

  // Two free neighbours made one. No byte of a live payload changes.
  lemma MergeBlocks(p: Pool, m: seq<byte>, bs: seq<Block>, i: nat)
    requires Heap(p, m, bs) && i + 1 < |bs| && !bs[i].used && !bs[i + 1].used
    ensures bs[i].off + HEADER <= bs[i + 1].off && bs[i + 1].off + HEADER <= bs[i + 1].Stop() && bs[i + 1].Stop() + HEADER <= |m|
    ensures Heap(p, MergeBytes(m, bs[i].off, bs[i + 1].off, bs[i + 1].Stop()), Merged(bs, i))
    ensures Untouched(m, MergeBytes(m, bs[i].off, bs[i + 1].off, bs[i + 1].Stop()), Merged(bs, i))
  {
    hide Merged, MergeBytes, Word, Tiles, Header, Untouched;
    TilesBelow(p, bs, i);
    TilesBelow(p, bs, i + 1);
    Neighbours(p, bs, i, i + 1);
    var m', bs' := MergeBytes(m, bs[i].off, bs[i + 1].off, bs[i + 1].Stop()), Merged(bs, i);
    MergeTiles(p, bs, i);
    forall j | 0 <= j < |bs'| ensures bs'[j].off + HEADER <= |m'| && Header(p, m', bs'[j], PrevOf(bs', j)) {
      MergeHeader(p, m, bs, i, j, m', bs');
    }
    MergePayloads(p, m, bs, i);
    MergeBytesFacts(m, bs[i].off, bs[i + 1].off, bs[i + 1].Stop());
    EndMarkSame(p, m, m');
  }

  // ---------- the same three steps seen by the clients and the counters ----------

  lemma HeapFits(p: Pool, m: seq<byte>, bs: seq<Block>)
    requires Heap(p, m, bs)
    ensures Fits(m, bs)
  {
    forall i | 0 <= i < |bs| ensures bs[i].Payload() <= bs[i].Stop() <= |m| {
      TilesBelow(p, bs, i);
    }
  }

  // Block i in the middle of the list, for each of the summaries.
  lemma Around(m: seq<byte>, bs: seq<Block>, i: nat)
    requires Fits(m, bs) && i < |bs|
    ensures Fits(m, bs[..i]) && Fits(m, [bs[i]]) && Fits(m, bs[i + 1..])
    ensures Store(m, bs) == Store(m, bs[..i]) + Store(m, [bs[i]]) + Store(m, bs[i + 1..])
  {
    hide Store;
    StoreAppend(m, bs[..i], [bs[i]]);
    StoreAppend(m, bs[..i] + [bs[i]], bs[i + 1..]);
    assert bs == bs[..i] + [bs[i]] + bs[i + 1..];
  }

  lemma UsedSumOne(b: Block)
    ensures UsedSum([b]) == if b.used then b.size else 0
  {
    assert [b][1..] == [];
  }

  lemma SumAround(bs: seq<Block>, i: nat)
    requires i < |bs|
    ensures UsedSum(bs) == UsedSum(bs[..i]) + (if bs[i].used then bs[i].size else 0) + UsedSum(bs[i + 1..])
  {
    hide UsedSum;
    assert bs == bs[..i] + ([bs[i]] + bs[i + 1..]);
    UsedSumAppend(bs[..i], [bs[i]] + bs[i + 1..]);
    UsedSumAppend([bs[i]], bs[i + 1..]);
    UsedSumOne(bs[i]);
  }

  // No other live block starts where block i does.
  lemma KeyElsewhere(p: Pool, m: seq<byte>, bs: seq<Block>, i: nat)
    requires Heap(p, m, bs) && i < |bs|
    ensures Fits(m, bs[..i]) && Fits(m, bs[i + 1..])
    ensures bs[i].Payload() !in Store(m, bs[..i]) && bs[i].Payload() !in Store(m, bs[i + 1..])
  {
    hide Store;
    HeapFits(p, m, bs);
    var q := bs[i].Payload();
    StoreKeys(m, bs[..i], q);
    StoreKeys(m, bs[i + 1..], q);
    forall j | 0 <= j < |bs| && j != i ensures bs[j].Payload() != q {
      Apart(p, bs, i, j);
    }
    assert forall j :: 0 <= j < i ==> bs[..i][j] == bs[j];
    assert forall j {:trigger bs[i + 1..][j]} :: 0 <= j < |bs| - i - 1 ==> bs[i + 1..][j] == bs[j + i + 1];
  }

  // Marking a free block used adds its payload; marking a used block free removes it.
  lemma MarkStore(p: Pool, m: seq<byte>, bs: seq<Block>, i: nat, used: bool)
    requires Heap(p, m, bs) && i < |bs| && bs[i].used != used
    ensures Fits(m, bs) && Fits(m, bs[i := bs[i].(used := used)])
    ensures var q, s := bs[i].Payload(), Store(m, bs);
            Store(m, bs[i := bs[i].(used := used)]) == if used then s[q := m[q..bs[i].Stop()]] else s - {q}
    ensures bs[i].Payload() in Store(m, bs) <==> !used
    ensures !used ==> Store(m, bs)[bs[i].Payload()] == m[bs[i].Payload()..bs[i].Stop()]
    ensures UsedSum(bs[i := bs[i].(used := used)]) == if used then UsedSum(bs) + bs[i].size else UsedSum(bs) - bs[i].size
  {
    hide Store, UsedSum, Heap;
    var bs' := bs[i := bs[i].(used := used)];
    HeapFits(p, m, bs);
    Around(m, bs, i);
    assert bs'[..i] == bs[..i] && bs'[i + 1..] == bs[i + 1..] && bs'[i] == bs[i].(used := used);
    Around(m, bs', i);
    StoreOne(m, bs[i]);
    StoreOne(m, bs'[i]);
    KeyElsewhere(p, m, bs, i);
    SumAround(bs, i);
    SumAround(bs', i);
  }

  // Splitting cuts a live payload short; splitting a free block changes nothing.
  lemma SplitStore(p: Pool, m: seq<byte>, bs: seq<Block>, i: nat, s: nat)
    requires Heap(p, m, bs) && i < |bs| && HEADER <= s && s + HEADER <= bs[i].size
    ensures Fits(m, bs) && Fits(m, Splitted(bs, i, s))
    ensures var q := bs[i].Payload();
            Store(m, Splitted(bs, i, s)) == if bs[i].used then Store(m, bs)[q := m[q..bs[i].off + s]] else Store(m, bs)
    ensures bs[i].used ==> bs[i].Payload() in Store(m, bs) && Store(m, bs)[bs[i].Payload()] == m[bs[i].Payload()..bs[i].Stop()]
    ensures UsedSum(Splitted(bs, i, s)) == UsedSum(bs) - if bs[i].used then bs[i].size - s else 0
  {
    hide Store, UsedSum, Heap;
    var b, bs' := bs[i], Splitted(bs, i, s);
    HeapFits(p, m, bs);
    Around(m, bs, i);
    SumAround(bs, i);
    var tail := bs'[i + 1..];
    assert bs'[..i] == bs[..i] && tail[1..] == bs[i + 1..] && bs'[i] == b.(size := s);
    assert tail[..0] == [] && tail[0] == Block(b.off + s, b.size - s, false);
    KeyElsewhere(p, m, bs, i);
    SplitPiecesFit(p, m, bs, i, s);
    Around(m, bs', i);
    Around(m, tail, 0);
    StoreOne(m, b);
    StoreOne(m, bs'[i]);
    StoreNone(m, tail[0]);
    SumAround(bs', i);
    SumAround(tail, 0);
  }

  lemma SplitPiecesFit(p: Pool, m: seq<byte>, bs: seq<Block>, i: nat, s: nat)
    requires Fits(m, bs) && i < |bs| && HEADER <= s && (s + HEADER <= bs[i].size)
    ensures Fits(m, Splitted(bs, i, s))
  {
    SplittedAt(bs, i, s);
  }

  lemma StoreNone(m: seq<byte>, b: Block)
    requires Fits(m, [b]) && !b.used
    ensures Store(m, []) == map[] && Store(m, [b]) == map[] && UsedSum([]) == 0
  {
    assert [b][..0] == [];
  }

  // Merging two free blocks changes nothing a client or a counter can see.
  lemma MergeStore(p: Pool, m: seq<byte>, bs: seq<Block>, i: nat)
    requires Heap(p, m, bs) && i + 1 < |bs| && !bs[i].used && !bs[i + 1].used
    ensures Fits(m, bs) && Fits(m, Merged(bs, i))
    ensures Store(m, Merged(bs, i)) == Store(m, bs)
    ensures UsedSum(Merged(bs, i)) == UsedSum(bs)
  {
    hide Store, UsedSum, Heap;
    var bs', tail := Merged(bs, i), bs[i + 1..];
    HeapFits(p, m, bs);
    MergeFits(p, m, bs, i);
    assert bs'[..i] == bs[..i] && bs'[i + 1..] == tail[1..] && tail[..0] == [] && tail[0] == bs[i + 1];
    Around(m, bs, i);
    Around(m, tail, 0);
    Around(m, bs', i);
    StoreNone(m, bs[i]);
    StoreNone(m, tail[0]);
    StoreNone(m, bs'[i]);
    SumAround(bs, i);
    SumAround(tail, 0);
    SumAround(bs', i);
  }

  lemma MergeFits(p: Pool, m: seq<byte>, bs: seq<Block>, i: nat)
    requires Heap(p, m, bs) && i + 1 < |bs|
    ensures Fits(m, Merged(bs, i))
  {
    HeapFits(p, m, bs);
    MergedAt(bs, i);
    Neighbours(p, bs, i, i + 1);
    hide Merged;
    var bs' := Merged(bs, i);
    forall j | 0 <= j < |bs'| ensures bs'[j].Payload() <= bs'[j].Stop() <= |m| {
      assert bs[i].Payload() <= bs[i].Stop() && bs[i + 1].Payload() <= bs[i + 1].Stop() <= |m|;
    }
  }

  // Live payloads lie inside the region and do not overlap each other or any header.
  lemma LiveDisjoint(p: Pool, m: seq<byte>, bs: seq<Block>, q: nat, r: nat)
    requires Heap(p, m, bs) && Fits(m, bs)
    requires q in Store(m, bs) && r in Store(m, bs) && q < r
    ensures HEADER <= q && q % 4 == 0 && q + |Store(m, bs)[q]| + HEADER <= r && r + |Store(m, bs)[r]| <= p.End()
  {
    hide Store, Headers, EndMark, Fits;
    var i := IndexOf(p, m, bs, q);
    var j := IndexOf(p, m, bs, r);
    if j < i {
      Neighbours(p, bs, i, j);
    } else if i < j {
      Neighbours(p, bs, i, j);
    }
    TilesBelow(p, bs, j);
    assert Tile(p, bs, i);
  }

  // The block behind a live payload.
  lemma IndexOf(p: Pool, m: seq<byte>, bs: seq<Block>, q: nat) returns (i: nat)
    requires Heap(p, m, bs) && Fits(m, bs) && q in Store(m, bs)
    ensures i < |bs| && bs[i].used && bs[i].Payload() == q
    ensures Store(m, bs)[q] == m[q..bs[i].Stop()]
  {
    hide Store, Heap;
    StoreKeys(m, bs, q);
    i :| 0 <= i < |bs| && bs[i].used && bs[i].Payload() == q;
    Around(m, bs, i);
    StoreOne(m, bs[i]);
    KeyElsewhere(p, m, bs, i);
  }

  lemma PayloadHeaders(p: Pool, m: seq<byte>, m': seq<byte>, bs: seq<Block>, i: nat)
    requires Heap(p, m, bs) && i < |bs| && |m'| == |m|
    requires forall k :: 0 <= k < |m| && (k < bs[i].Payload() || bs[i].Stop() <= k) ==> m'[k] == m[k]
    ensures Heap(p, m', bs)
  {
    hide Header, Word, Tiles;
    TilesBelow(p, bs, i);
    EndMarkSame(p, m, m');
    forall j | 0 <= j < |bs| ensures bs[j].off + HEADER <= |m'| && Header(p, m', bs[j], PrevOf(bs, j)) {
      if j != i {
        Neighbours(p, bs, i, j);
      }
      HeaderSameBytes(p, m, m', bs[j], PrevOf(bs, j));
    }
  }

  // Bytes written inside one live payload leave every header and every other payload alone.
  lemma PayloadWritten(p: Pool, m: seq<byte>, m': seq<byte>, bs: seq<Block>, i: nat)
    requires Heap(p, m, bs) && i < |bs| && bs[i].used && |m'| == |m|
    requires forall k :: 0 <= k < |m| && (k < bs[i].Payload() || bs[i].Stop() <= k) ==> m'[k] == m[k]
    ensures Heap(p, m', bs) && Fits(m, bs) && Fits(m', bs)
    ensures Store(m', bs) == Store(m, bs)[bs[i].Payload() := m'[bs[i].Payload()..bs[i].Stop()]]
  {
    hide Store, Headers, EndMark, Tiles;
    PayloadHeaders(p, m, m', bs, i);
    HeapFits(p, m, bs);
    forall j, k | 0 <= j < |bs| && j != i && bs[j].Payload() <= k < bs[j].Stop() ensures 0 <= k < |m| && m'[k] == m[k] {
      Neighbours(p, bs, i, j);
    }
    Around(m, bs, i);
    Around(m', bs, i);
    StoreSame(m, m', bs[..i]);
    StoreSame(m, m', bs[i + 1..]);
    StoreOne(m, bs[i]);
    StoreOne(m', bs[i]);
    KeyElsewhere(p, m, bs, i);
  }

  lemma HeapTiles(p: Pool, m: seq<byte>, bs: seq<Block>)
    requires Heap(p, m, bs)
    ensures Tiles(p, bs)
  {}

  lemma TagParity(p: Pool, used: bool)
    requires p.Valid()
    ensures p.Tag(used) % 2 == 1 <==> used
  {
    var half := p.id / 4 * 2;
    assert p.id == 2 * half;
    EvenOdd(half);
  }

  lemma EvenOdd(n: nat)
    ensures 2 * n % 2 == 0 && (2 * n + 1) % 2 == 1
  {}

  // What the code reads from the header of block i.
  lemma ReadHeader(p: Pool, m: seq<byte>, bs: seq<Block>, i: nat)
    requires Heap(p, m, bs) && i < |bs|
    ensures bs[i].off + HEADER <= p.End() < |m| == p.End() + HEADER
    ensures Word(m, bs[i].off) % 2 == 1 <==> bs[i].used
    ensures Word(m, bs[i].off + 4) == bs[i].Stop() == NextOf(p, bs, i)
    ensures Word(m, bs[i].off + 8) == PrevOf(bs, i)
    ensures bs[i].size >= HEADER && bs[i].off % 4 == 0 && bs[i].size % 4 == 0
    ensures i == 0 ==> bs[i].off == 0
  {
    assert Header(p, m, bs[i], PrevOf(bs, i)) && Tile(p, bs, i);
    hide Word, Heap, Tiles, Headers, EndMark;
    TilesBelow(p, bs, i);
    TagParity(p, bs[i].used);
  }

  lemma ReadEnd(p: Pool, m: seq<byte>, bs: seq<Block>)
    requires Heap(p, m, bs)
    ensures p.End() + 4 <= |m| && Word(m, p.End()) % 2 == 1
  {
    hide Word, Tiles, Headers;
    TagParity(p, true);
  }

  // Merging keeps the lowest free block, provided the pair is not below it.
  lemma MergeFirstFree(p: Pool, bs: seq<Block>, i: nat)
    requires Tiles(p, bs) && i + 1 < |bs| && !bs[i].used && !bs[i + 1].used
    ensures OffsetAt(p, Merged(bs, i), FirstFree(Merged(bs, i))) == OffsetAt(p, bs, FirstFree(bs))
    ensures OffsetAt(p, bs, FirstFree(bs)) <= bs[i].off < bs[i + 1].off
  {
    hide Merged;
    MergedAt(bs, i);
    var k := FirstFree(bs);
    Neighbours(p, bs, i, i + 1);
    if k != i {
      Neighbours(p, bs, i, k);
    }
    assert Tile(p, bs, i);
    FirstFreeIs(Merged(bs, i), k);
  }

  lemma MarkUntouched(p: Pool, m: seq<byte>, bs: seq<Block>, i: nat, used: bool)
    requires Heap(p, m, bs) && i < |bs| && bs[i].off + 4 <= |m|
    ensures Untouched(m, Put(m, bs[i].off, p.Tag(used)), bs[i := bs[i].(used := used)])
  {
    hide Put, Word, Headers, EndMark, Tiles;
    var bs' := bs[i := bs[i].(used := used)];
    PutWord(m, bs[i].off, p.Tag(used));
    forall j, k | 0 <= j < |bs'| && bs'[j].used && bs'[j].Payload() <= k < bs'[j].Stop() && k < |m|
      ensures Put(m, bs[i].off, p.Tag(used))[k] == m[k]
    {
      if j != i {
        Neighbours(p, bs, i, j);
        Neighbours(p, bs, j, i);
      }
    }
  }

  // A newly freed block is the lowest free one exactly if it lies below the old one.
  lemma FreedFirstFree(p: Pool, m: seq<byte>, bs: seq<Block>, i: nat)
    requires Heap(p, m, bs) && i < |bs| && bs[i].used
    ensures var bs' := bs[i := bs[i].(used := false)];
            var lowest := OffsetAt(p, bs, FirstFree(bs));
            OffsetAt(p, bs', FirstFree(bs')) == if bs[i].off < lowest then bs[i].off else lowest
  {
    hide Headers, EndMark, Tiles;
    var bs', k := bs[i := bs[i].(used := false)], FirstFree(bs);
    TilesBelow(p, bs, i);
    if k < |bs| {
      Neighbours(p, bs, i, k);
      Neighbours(p, bs, k, i);
    }
    FirstFreeIs(bs', if i < k then i else k);
  }

  // Past the point where the search stops, nothing is large enough.
  lemma NoRoomBehind(p: Pool, bs: seq<Block>, k: nat, i: nat, size: nat)
    requires Tiles(p, bs) && k <= i < |bs| && size <= p.size
    requires OffsetAt(p, bs, k) > p.size - size
    ensures bs[i].size < HEADER + size
  {
    TilesBelow(p, bs, i);
    if k < i {
      Neighbours(p, bs, k, i);
    }
  }

  // Block k is split for `size` payload bytes if a header and MIN_SIZE bytes are
  // left over.
  function Carved(bs: seq<Block>, k: nat, size: nat): (r: seq<Block>)
    requires k < |bs| && bs[k].size >= HEADER + size
    ensures k < |r|
  {
    if bs[k].size >= HEADER + size + HEADER + MIN_SIZE then Splitted(bs, k, HEADER + size) else bs
  }

  // The list after block k has been taken for `size` payload bytes.
  function Taken(bs: seq<Block>, k: nat, size: nat): seq<Block>
    requires k < |bs| && bs[k].size >= HEADER + size
  {
    Carved(bs, k, size)[k := Carved(bs, k, size)[k].(used := true)]
  }

  // Only the block lfree points at can move it.
  lemma LowestIs(p: Pool, bs: seq<Block>, k: nat)
    requires Tiles(p, bs) && k < |bs| && !bs[k].used
    ensures FirstFree(bs) <= k
    ensures OffsetAt(p, bs, FirstFree(bs)) == bs[k].off ==> FirstFree(bs) == k
  {
    if FirstFree(bs) < k {
      Apart(p, bs, FirstFree(bs), k);
    }
  }

  lemma TakenCoalesced(bs: seq<Block>, k: nat, size: nat)
    requires k < |bs| && bs[k].size >= HEADER + size && !bs[k].used && Coalesced(bs)
    ensures Coalesced(Taken(bs, k, size))
    ensures FirstFree(bs) <= k
    ensures FirstFree(bs) < k ==> FirstFree(Taken(bs, k, size)) == FirstFree(bs)
    ensures FirstFree(bs) < k ==> Taken(bs, k, size)[FirstFree(bs)] == bs[FirstFree(bs)]
    ensures FirstFree(bs) == k ==> forall i :: 0 <= i < k ==> Taken(bs, k, size)[i].used
    ensures k < |Taken(bs, k, size)| && Taken(bs, k, size)[k].used && Taken(bs, k, size)[k].off == bs[k].off
    ensures Taken(bs, k, size)[k].size >= HEADER + size
  {
    hide Splitted;
    SplittedAt(bs, k, HEADER + size);
    var bs' := Taken(bs, k, size);
    if FirstFree(bs) < k {
      FirstFreeIs(bs', FirstFree(bs));
    }
    forall i | 0 <= i < |bs'| - 1 ensures bs'[i].used || bs'[i + 1].used {
      if i < |bs| - 1 {
        assert bs[i].used || bs[i + 1].used;
      }
      if 0 < i {
        assert bs[i - 1].used || bs[i].used;
      }
    }
  }

  // The free block a shrink leaves behind is the lowest exactly if it lies
  // below the old one; only it may have a free neighbour.
  lemma ShrunkFirstFree(p: Pool, m: seq<byte>, bs: seq<Block>, i: nat, s: nat)
    requires Heap(p, m, bs) && i < |bs| && bs[i].used && Coalesced(bs)
    requires HEADER <= s && s + HEADER <= bs[i].size
    ensures var bs' := Splitted(bs, i, s);
            var lowest := OffsetAt(p, bs, FirstFree(bs));
            && OffsetAt(p, bs', FirstFree(bs')) == (if bs[i].off + s < lowest then bs[i].off + s else lowest)
            && CoalescedBut(bs', i + 1)
  {
    hide Splitted, Tiles, Headers, EndMark;
    var bs', k := Splitted(bs, i, s), FirstFree(bs);
    SplittedAt(bs, i, s);
    TilesBelow(p, bs, i);
    if k < |bs| {
      Neighbours(p, bs, i, k);
    }
    FirstFreeIs(bs', if k < i then k else i + 1);
    forall j | 0 <= j < |bs'| - 1 && j != i + 1 && j + 1 != i + 1 ensures bs'[j].used || bs'[j + 1].used {
      if j < i {
        assert bs[j].used || bs[j + 1].used;
      } else {
        assert bs[j - 1].used || bs[j].used;
      }
    }
  }

  // The six words rt_smem_init writes.
  ghost function InitBytes(p: Pool, m: seq<byte>): (m': seq<byte>)
    requires |m| == p.size + 2 * HEADER
    ensures |m'| == |m|
  {
    var e := p.End();
    Put(Put(Put(Put(Put(Put(m, 0, p.Tag(false)), 4, e), 8, 0), e, p.Tag(true)), e + 4, e), e + 8, e)
  }

  lemma InitHeap(p: Pool, m: seq<byte>)
    requires p.Valid() && |m| == p.size + 2 * HEADER
    ensures Heap(p, InitBytes(p, m), [Block(0, p.End(), false)])
  {
    hide Put, Word;
    var e := p.End();
    var m1 := Put(m, 0, p.Tag(false));
    PutWord(m, 0, p.Tag(false));
    var m2 := Put(m1, 4, e);
    PutWord(m1, 4, e);
    var m3 := Put(m2, 8, 0);
    PutWord(m2, 8, 0);
    var m4 := Put(m3, e, p.Tag(true));
    PutWord(m3, e, p.Tag(true));
    var m5 := Put(m4, e + 4, e);
    PutWord(m4, e + 4, e);
    PutWord(m5, e + 8, e);
    assert Tile(p, [Block(0, p.End(), false)], 0);
  }

  // Shrinking the live payload of block i to n bytes, all told.
  lemma ShrinkSummary(p: Pool, m: seq<byte>, bs: seq<Block>, i: nat, n: nat)
    requires Heap(p, m, bs) && i < |bs| && bs[i].used && Coalesced(bs)
    requires 2 * HEADER + n <= bs[i].size
    ensures var bs' := Splitted(bs, i, HEADER + n);
            var q, lowest := bs[i].Payload(), OffsetAt(p, bs, FirstFree(bs));
            && Fits(m, bs) && q in Store(m, bs) && n <= |Store(m, bs)[q]|
            && Store(m, bs)[q := m[q..q + n]] == Store(m, bs)[q := Store(m, bs)[q][..n]]
            && UsedSum(bs') == UsedSum(bs) - (bs[i].size - HEADER - n)
            && OffsetAt(p, bs', FirstFree(bs')) == (if q + n < lowest then q + n else lowest)
            && CoalescedBut(bs', i + 1)
            && i + 1 < |bs'| && bs'[i + 1].off == q + n && !bs'[i + 1].used
  {
    hide Store, UsedSum, Heap, Splitted, FirstFree, Coalesced, CoalescedBut;
    SplitStore(p, m, bs, i, HEADER + n);
    ShrunkFirstFree(p, m, bs, i, HEADER + n);
    SliceOfSlice(m, bs[i].Payload(), bs[i].Stop(), 0, n);
    SplittedAt(bs, i, HEADER + n);
  }
}
