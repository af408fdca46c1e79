/** What each kind of change to the block list does to the layout of a memheap, to
    its free bytes and to the live payloads. */
module MemHeapSteps {
  import opened Bytes
  import opened Rings
  import opened MemHeapLayout

  // The state of the pool as the properties see it.
  datatype Pool = Pool(blocks: seq<Addr>, used: set<Addr>, size: nat, data: seq<byte>)

  ghost predicate PoolOk(h: Pool) {
    Layout(h.blocks, h.used, h.size) && |h.data| == h.size
  }

  ghost function LiveOf(h: Pool): map<Addr, seq<byte>>
    requires PoolOk(h)
  {
    LayoutFits(h.blocks, h.used, h.size, h.data);
    Stored(h.blocks, h.used, h.data)
  }

  // The stretch m of blocks between a and b becomes m', and nothing else changes.
  ghost predicate Reworked(h: Pool, h': Pool, a: seq<Addr>, m: seq<Addr>, m': seq<Addr>, b: seq<Addr>) {
    && h.blocks == a + m + b && h' == h.(blocks := a + m' + b, used := h'.used)
    && Replaces(a, m, m', b, h.used, h'.used)
  }

  lemma StepOk(h: Pool, h': Pool, a: seq<Addr>, m: seq<Addr>, m': seq<Addr>, b: seq<Addr>)
    requires PoolOk(h) && Reworked(h, h', a, m, m', b)
    ensures PoolOk(h')
    ensures FreeSum(h'.blocks, h'.used) == FreeSum(h.blocks, h.used) - FreeSum(m + [b[0]], h.used) + FreeSum(m' + [b[0]], h'.used)
    ensures Fits(m + [b[0]], h.data) && Fits(m' + [b[0]], h.data) && Fits(a + [m[0]], h.data) && Fits(b, h.data)
    ensures LiveOf(h) == Others(a, m[0], b, h.used, h.data) + Stored(m + [b[0]], h.used, h.data)
    ensures LiveOf(h') == Others(a, m[0], b, h.used, h.data) + Stored(m' + [b[0]], h'.used, h.data)
    ensures forall p :: p in Others(a, m[0], b, h.used, h.data) ==> p < m[0] + HEADER || b[0] + HEADER <= p
  {
    Rework(a, m, m', b, h.used, h'.used, h.size);
    ReworkSum(a, m, m', b, h.used, h'.used);
    LayoutFits(h.blocks, h.used, h.size, h.data);
    LayoutFits(h'.blocks, h'.used, h.size, h.data);
    StoredAround(a, m, b, h.used, h.data);
    StoredAround(a, m', b, h'.used, h.data);
    OthersSame(a, m[0], b, h.used, h'.used, h.data);
    hide Stored, Fits, Rising, Layout, Others, FreeSum;
  }

  // ---------- short stretches ----------

  lemma One(h: Addr, e: Addr, used: set<Addr>, data: seq<byte>)
    requires Fits([h] + [e], data)
    ensures 0 <= h + HEADER <= e <= |data|
    ensures FreeSum([h] + [e], used) == if h in used then 0 else e - h - HEADER
    ensures Stored([h] + [e], used, data) == if h in used then map[h + HEADER := data[h + HEADER..e]] else map[]
  {
    var s := [h] + [e];
    assert s[0] == h && s[1] == e && s[1..] == [e];
  }

  lemma Two(h: Addr, x: Addr, e: Addr, used: set<Addr>, data: seq<byte>)
    requires Fits([h, x] + [e], data)
    ensures 0 <= h + HEADER <= x && x + HEADER <= e <= |data|
    ensures FreeSum([h, x] + [e], used) == (if h in used then 0 else x - h - HEADER) + if x in used then 0 else e - x - HEADER
    ensures h in used && x !in used ==> Stored([h, x] + [e], used, data) == map[h + HEADER := data[h + HEADER..x]]
    ensures h !in used && x in used ==> Stored([h, x] + [e], used, data) == map[x + HEADER := data[x + HEADER..e]]
  {
    var s := [h, x] + [e];
    assert s[0] == h && s[1] == x && s[2] == e && s[1..] == [x] + [e];
    One(x, e, used, data);
  }

  lemma Three(p: Addr, h: Addr, f: Addr, e: Addr, used: set<Addr>, data: seq<byte>)
    requires Fits([p, h, f] + [e], data) && p !in used && h in used && f !in used
    ensures 0 <= p && p + HEADER <= h && h + HEADER <= f && f + HEADER <= e <= |data|
    ensures FreeSum([p, h, f] + [e], used) == (h - p - HEADER) + (e - f - HEADER)
    ensures Stored([p, h, f] + [e], used, data) == map[h + HEADER := data[h + HEADER..f]]
  {
    var s := [p, h, f] + [e];
    assert s[0] == p && s[1] == h && s[2] == f && s[3] == e && s[1..] == [h, f] + [e];
    Two(h, f, e, used, data);
  }

  // ---------- the neighbours of a stretch ----------

  lemma Bounds(a: seq<Addr>, m: seq<Addr>, b: seq<Addr>)
    requires Rising(a + m + b) && m != [] && b != []
    ensures Rising(m + [b[0]])
    ensures forall x :: x in a ==> x + HEADER <= m[0]
    ensures forall x :: x in b ==> b[0] <= x
    ensures forall x :: x in m ==> m[0] <= x && x + HEADER <= b[0]
  {
    assert a + m + b == a + (m + b);
    RisingParts(a, m + b);
    RisingParts(m, b);
    assert m[0] in m + b && b[0] in b;
  }

  // Next to a free block is a used one.
  lemma NextToFree(a: seq<Addr>, m: seq<Addr>, b: seq<Addr>, used: set<Addr>)
    requires NoFreePair(a + m + b, used) && m != [] && b != []
    ensures a != [] && m[0] !in used ==> a[|a| - 1] in used
    ensures m[|m| - 1] !in used ==> b[0] in used
    ensures NoFreePair(m, used)
  {
    var s := a + m + b;
    assert a != [] ==> s[|a| - 1] == a[|a| - 1] && s[|a|] == m[0];
    assert s[|a| + |m| - 1] == m[|m| - 1] && s[|a| + |m|] == b[0];
    forall i | 0 <= i < |m| - 1 ensures m[i] in used || m[i + 1] in used {
      assert s[|a| + i] == m[i] && s[|a| + i + 1] == m[i + 1];
    }
  }

  // ---------- the changes ----------

  // A free block becomes a used one.
  lemma WholeTaken(h: Pool, h': Pool, a: seq<Addr>, q: Addr, b: seq<Addr>)
    requires PoolOk(h) && h.blocks == a + [q] + b && b != [] && q !in h.used
    requires h' == h.(used := h.used + {q})
    ensures PoolOk(h') && FreeSum(h'.blocks, h'.used) == FreeSum(h.blocks, h.used) - (b[0] - q - HEADER)
    ensures 0 <= q + HEADER <= b[0] <= |h.data|
    ensures q + HEADER !in LiveOf(h) && LiveOf(h') == LiveOf(h)[q + HEADER := h.data[q + HEADER..b[0]]]
  {
    NextToFree(a, [q], b, h.used);
    Bounds(a, [q], b);
    assert q in [q] && b[0] in b;
    assert Reworked(h, h', a, [q], [q], b);
    StepOk(h, h', a, [q], [q], b);
    One(q, b[0], h.used, h.data);
    One(q, b[0], h'.used, h.data);
    hide PoolOk, Stored, Fits, Rising, Layout, Others, FreeSum, Reworked, LiveOf;
    Added(Others(a, q, b, h.used, h.data), q + HEADER, h.data[q + HEADER..b[0]]);
  }

  lemma Added<V>(others: map<Addr, V>, p: Addr, v: V)
    requires p !in others
    ensures others + map[p := v] == (others + map[])[p := v]
    ensures others + map[] == (others + map[p := v]) - {p}
  {}

  lemma SplitReworks(h: Pool, h': Pool, a: seq<Addr>, q: Addr, b: seq<Addr>, x: Addr)
    requires PoolOk(h) && h.blocks == a + [q] + b && b != [] && x % 4 == 0 && q + HEADER <= x && x + HEADER <= b[0]
    requires q in h.used ==> b[0] in h.used
    requires h' == h.(blocks := a + [q, x] + b, used := h'.used) && forall y :: y in h'.used <==> (y in h.used || y == q) && y != x
    ensures Reworked(h, h', a, [q], [q, x], b)
  {
    NextToFree(a, [q], b, h.used);
    Bounds(a, [q], b);
    assert ([q] + [b[0]])[0] == q && ([q] + [b[0]])[1] == b[0];
    assert Rising([q, x] + [b[0]]);
  }

  // A free block becomes a used one and a smaller free one behind it.
  lemma SplitTaken(h: Pool, h': Pool, a: seq<Addr>, q: Addr, b: seq<Addr>, x: Addr)
    requires PoolOk(h) && h.blocks == a + [q] + b && b != [] && q !in h.used
    requires x % 4 == 0 && q + HEADER <= x && x + HEADER <= b[0]
    requires h' == h.(blocks := a + [q, x] + b, used := h.used + {q} - {x})
    ensures PoolOk(h') && FreeSum(h'.blocks, h'.used) == FreeSum(h.blocks, h.used) - (x - q)
    ensures 0 <= q + HEADER <= x <= |h.data|
    ensures q + HEADER !in LiveOf(h) && LiveOf(h') == LiveOf(h)[q + HEADER := h.data[q + HEADER..x]]
  {
    hide PoolOk, Stored, Fits, Rising, Layout, Others, FreeSum, Reworked, Replaces, LiveOf;
    SplitReworks(h, h', a, q, b, x);
    StepOk(h, h', a, [q], [q, x], b);
    One(q, b[0], h.used, h.data);
    Two(q, x, b[0], h'.used, h.data);
    Added(Others(a, q, b, h.used, h.data), q + HEADER, h.data[q + HEADER..x]);
  }

  // A used block gives up its end, which becomes a free block.
  lemma SplitOff(h: Pool, h': Pool, a: seq<Addr>, q: Addr, b: seq<Addr>, x: Addr)
    requires PoolOk(h) && h.blocks == a + [q] + b && b != [] && q in h.used && b[0] in h.used
    requires x % 4 == 0 && q + HEADER <= x && x + HEADER <= b[0]
    requires h' == h.(blocks := a + [q, x] + b, used := h.used - {x})
    ensures PoolOk(h') && FreeSum(h'.blocks, h'.used) == FreeSum(h.blocks, h.used) + (b[0] - x - HEADER)
    ensures 0 <= q + HEADER <= x <= |h.data|
    ensures q + HEADER in LiveOf(h) && LiveOf(h') == LiveOf(h)[q + HEADER := h.data[q + HEADER..x]]
  {
    SplitReworks(h, h', a, q, b, x);
    hide PoolOk, Stored, Fits, Rising, Layout, FreeSum, Reworked, Replaces, LiveOf;
    StepOk(h, h', a, [q], [q, x], b);
    One(q, b[0], h.used, h.data);
    Two(q, x, b[0], h'.used, h.data);
    StepPut(h, h', a, [q], [q, x], b, q + HEADER, h.data[q + HEADER..x]);
  }

  // A change that leaves one live payload in the stretch, where there was that one or none.
  lemma StepPut(h: Pool, h': Pool, a: seq<Addr>, m: seq<Addr>, m': seq<Addr>, b: seq<Addr>, p: Addr, v: seq<byte>)
    requires PoolOk(h) && Reworked(h, h', a, m, m', b) && m[0] + HEADER <= p <= b[0]
    requires Fits(m + [b[0]], h.data) && Fits(m' + [b[0]], h.data)
    requires Stored(m' + [b[0]], h'.used, h.data) == map[p := v] && Stored(m + [b[0]], h.used, h.data).Keys <= {p}
    ensures PoolOk(h') && LiveOf(h') == LiveOf(h)[p := v]
    ensures p in LiveOf(h) <==> p in Stored(m + [b[0]], h.used, h.data)
    ensures p in LiveOf(h) ==> LiveOf(h)[p] == Stored(m + [b[0]], h.used, h.data)[p]
  {
    StepOk(h, h', a, m, m', b);
    hide PoolOk, Stored, Fits, Reworked, LiveOf, Others;
    var others, was := Others(a, m[0], b, h.used, h.data), Stored(m + [b[0]], h.used, h.data);
    assert p !in others;
    PutInto(others, was, p, v);
  }

  lemma PutInto<V>(others: map<Addr, V>, was: map<Addr, V>, p: Addr, v: V)
    requires was.Keys <= {p}
    ensures others + map[p := v] == (others + was)[p := v]
  {}

  lemma Replaced<V>(others: map<Addr, V>, p: Addr, v: V, w: V)
    requires p !in others
    ensures others + map[p := w] == (others + map[p := v])[p := w]
  {}

  lemma MoveReworks(h: Pool, h': Pool, a: seq<Addr>, q: Addr, f: Addr, b: seq<Addr>, x: Addr)
    requires PoolOk(h) && h.blocks == a + [q, f] + b && b != [] && q in h.used && f !in h.used
    requires x % 4 == 0 && q + HEADER <= x && x + HEADER <= b[0]
    requires h' == h.(blocks := a + [q, x] + b, used := h.used - {x})
    ensures Reworked(h, h', a, [q, f], [q, x], b)
  {
    NextToFree(a, [q, f], b, h.used);
    Bounds(a, [q, f], b);
    MovedRises(q, f, x, b[0]);
    hide Rising, Layout;
  }

  // The boundary between a used block and the free one behind it moves.
  lemma BoundaryMoved(h: Pool, h': Pool, a: seq<Addr>, q: Addr, f: Addr, b: seq<Addr>, x: Addr)
    requires PoolOk(h) && h.blocks == a + [q, f] + b && b != [] && q in h.used && f !in h.used
    requires x % 4 == 0 && q + HEADER <= x && x + HEADER <= b[0]
    requires h' == h.(blocks := a + [q, x] + b, used := h.used - {x})
    ensures PoolOk(h') && FreeSum(h'.blocks, h'.used) == FreeSum(h.blocks, h.used) - (x - f)
    ensures 0 <= q + HEADER <= x <= |h.data| && q + HEADER <= f <= |h.data|
    ensures q + HEADER in LiveOf(h) && LiveOf(h)[q + HEADER] == h.data[q + HEADER..f]
    ensures LiveOf(h') == LiveOf(h)[q + HEADER := h.data[q + HEADER..x]]
  {
    hide PoolOk, Stored, Fits, Rising, Layout, Others, FreeSum, Reworked, Replaces, LiveOf;
    MoveReworks(h, h', a, q, f, b, x);
    StepOk(h, h', a, [q, f], [q, x], b);
    Two(q, f, b[0], h.used, h.data);
    Two(q, x, b[0], h'.used, h.data);
    Replaced(Others(a, q, b, h.used, h.data), q + HEADER, h.data[q + HEADER..f], h.data[q + HEADER..x]);
  }

  lemma MovedRises(q: Addr, f: Addr, x: Addr, e: Addr)
    requires Rising([q, f] + [e]) && x % 4 == 0 && q + HEADER <= x && x + HEADER <= e
    ensures Rising([q, x] + [e])
  {
    var s, r := [q, f] + [e], [q, x] + [e];
    assert s[0] == q && s[1] == f && s[2] == e;
    assert forall i :: 0 <= i < |r| ==> r[i] == if i == 0 then q else if i == 1 then x else e;
  }

  // A used block is freed, together with the free blocks right before and right
  // behind it.
  lemma Freed(h: Pool, h': Pool, a: seq<Addr>, left: seq<Addr>, q: Addr, right: seq<Addr>, b: seq<Addr>)
    requires PoolOk(h) && h.blocks == a + (left + [q] + right) + b && b != [] && q in h.used
    requires |left| <= 1 && |right| <= 1 && (forall x :: x in left + right ==> x !in h.used)
    requires (left == [] && a != [] ==> a[|a| - 1] in h.used) && (right == [] ==> b[0] in h.used)
    requires h' == h.(blocks := a + [(left + [q] + right)[0]] + b, used := h.used - {q})
    ensures PoolOk(h')
    ensures FreeSum(h'.blocks, h'.used) == FreeSum(h.blocks, h.used) + ((right + b)[0] - q - HEADER) + |left| * HEADER + |right| * HEADER
    ensures q + HEADER in LiveOf(h) && LiveOf(h') == LiveOf(h) - {q + HEADER}
  {
    hide PoolOk, Stored, Fits, Rising, Layout, Others, FreeSum, Reworked, Replaces, LiveOf;
    var m := left + [q] + right;
    FreeReworks(h, h', a, left, q, right, b);
    StepOk(h, h', a, m, [m[0]], b);
    FreedStretch(left, q, right, b[0], h.used, h.data);
    StretchShape(left, q, right, b[0], h.used);
    FirstOf(left, q, right, b);
    assert m[0] !in h'.used;
    One(m[0], b[0], h'.used, h.data);
    Added(Others(a, m[0], b, h.used, h.data), q + HEADER, h.data[q + HEADER..(right + b)[0]]);
  }

  lemma FirstOf(left: seq<Addr>, q: Addr, right: seq<Addr>, b: seq<Addr>)
    requires b != []
    ensures (left + [q] + right)[0] == (left + [q])[0] && (right + [b[0]])[0] == (right + b)[0]
  {}

  lemma FreeReworks(h: Pool, h': Pool, a: seq<Addr>, left: seq<Addr>, q: Addr, right: seq<Addr>, b: seq<Addr>)
    requires PoolOk(h) && h.blocks == a + (left + [q] + right) + b && b != [] && q in h.used
    requires |left| <= 1 && |right| <= 1 && (forall x :: x in left + right ==> x !in h.used)
    requires (left == [] && a != [] ==> a[|a| - 1] in h.used) && (right == [] ==> b[0] in h.used)
    requires h' == h.(blocks := a + [(left + [q] + right)[0]] + b, used := h.used - {q})
    ensures Reworked(h, h', a, left + [q] + right, [(left + [q] + right)[0]], b)
  {
    var m := left + [q] + right;
    NextToFree(a, m, b, h.used);
    Bounds(a, m, b);
    FirstRises(m, b[0]);
    StillMarked(a, m, b, h.used, q);
    StretchShape(left, q, right, b[0], h.used);
    assert right != [] ==> m[|m| - 1] == right[0];
    hide Rising, Layout;
  }

  lemma FirstRises(m: seq<Addr>, e: Addr)
    requires Rising(m + [e]) && m != []
    ensures Rising([m[0]] + [e])
  {
    assert (m + [e])[0] == m[0] && (m + [e])[|m|] == e;
    assert ([m[0]] + [e])[0] == m[0] && ([m[0]] + [e])[1] == e;
  }

  lemma StillMarked(a: seq<Addr>, m: seq<Addr>, b: seq<Addr>, used: set<Addr>, q: Addr)
    requires Rising(a + m + b) && m != [] && b != [] && q in m
    ensures forall x :: x in a || x in b ==> (x in used <==> x in used - {q})
    ensures m[0] == q || q !in {m[0]}
  {
    Bounds(a, m, b);
  }

  lemma FreedStretch(left: seq<Addr>, q: Addr, right: seq<Addr>, e: Addr, used: set<Addr>, data: seq<byte>)
    requires |left| <= 1 && |right| <= 1 && q in used && (forall x :: x in left + right ==> x !in used)
    requires Fits(left + [q] + right + [e], data)
    ensures var end := (right + [e])[0];
            && 0 <= q + HEADER <= end <= |data| && end <= e
            && Stored(left + [q] + right + [e], used, data) == map[q + HEADER := data[q + HEADER..end]]
            && FreeSum(left + [q] + right + [e], used) + (end - q - HEADER) + |left| * HEADER + |right| * HEADER == e - (left + [q])[0] - HEADER
    ensures (left + [q])[0] <= q
  {
    hide Stored, Fits, FreeSum;
    StretchShape(left, q, right, e, used);
    if left == [] && right == [] {
      One(q, e, used, data);
    } else if left == [] {
      Two(q, right[0], e, used, data);
    } else if right == [] {
      Two(left[0], q, e, used, data);
    } else {
      Three(left[0], q, right[0], e, used, data);
    }
  }

  lemma StretchShape(left: seq<Addr>, q: Addr, right: seq<Addr>, e: Addr, used: set<Addr>)
    requires |left| <= 1 && |right| <= 1 && (forall x :: x in left + right ==> x !in used)
    ensures var s := left + [q] + right + [e];
            s == if left == [] && right == [] then [q] + [e] else if left == [] then [q, right[0]] + [e]
                 else if right == [] then [left[0], q] + [e] else [left[0], q, right[0]] + [e]
    ensures (left + [q])[0] == if left == [] then q else left[0]
    ensures (right + [e])[0] == if right == [] then e else right[0]
    ensures (left != [] ==> left[0] !in used) && (right != [] ==> right[0] !in used)
  {
    assert left != [] ==> left == [left[0]] && left[0] in left + right;
    assert right != [] ==> right == [right[0]] && right[0] in left + right;
  }

  // Bytes of one live payload are overwritten.
  lemma Written(h: Pool, data: seq<byte>, a: seq<Addr>, q: Addr, b: seq<Addr>)
    requires PoolOk(h) && h.blocks == a + [q] + b && b != [] && q in h.used
    requires |data| == |h.data| && forall i :: 0 <= i < |data| && !(q + HEADER <= i < b[0]) ==> data[i] == h.data[i]
    ensures PoolOk(h.(data := data)) && 0 <= q + HEADER <= b[0] <= |data|
    ensures q + HEADER in LiveOf(h) && LiveOf(h)[q + HEADER] == h.data[q + HEADER..b[0]]
    ensures LiveOf(h.(data := data)) == LiveOf(h)[q + HEADER := data[q + HEADER..b[0]]]
  {
    var h' := h.(data := data);
    LayoutFits(h.blocks, h.used, h.size, h.data);
    LayoutFits(h.blocks, h.used, h.size, data);
    StoredAround(a, [q], b, h.used, h.data);
    StoredAround(a, [q], b, h.used, data);
    OthersUntouched(h, data, a, q, b);
    hide PoolOk, Stored, Fits, Rising, Layout, Others;
    One(q, b[0], h.used, h.data);
    One(q, b[0], h.used, data);
    PutInto(Others(a, q, b, h.used, h.data), map[q + HEADER := h.data[q + HEADER..b[0]]], q + HEADER, data[q + HEADER..b[0]]);
  }

  lemma OthersUntouched(h: Pool, data: seq<byte>, a: seq<Addr>, q: Addr, b: seq<Addr>)
    requires Fits(a + [q], h.data) && Fits(b, h.data) && Fits(a + [q], data) && Fits(b, data) && b != []
    requires |data| == |h.data| && forall i :: 0 <= i < |data| && !(q + HEADER <= i < b[0]) ==> data[i] == h.data[i]
    ensures Others(a, q, b, h.used, h.data) == Others(a, q, b, h.used, data)
  {
    forall i | 0 <= i < |a + [q]| - 1 && (a + [q])[i] in h.used ensures SameSlice(h.data, data, (a + [q])[i] + HEADER, (a + [q])[i + 1]) {
      SliceBelow(a + [q], h.data, i);
    }
    forall i | 0 <= i < |b| - 1 && b[i] in h.used ensures SameSlice(h.data, data, b[i] + HEADER, b[i + 1]) {
      SliceBelow(b, h.data, i);
    }
    StoredSame(a + [q], h.used, h.used, h.data, data);
    StoredSame(b, h.used, h.used, h.data, data);
  }

  lemma SliceBelow(bs: seq<Addr>, data: seq<byte>, i: nat)
    requires Fits(bs, data) && i + 1 < |bs|
    ensures 0 <= bs[0] <= bs[i] && bs[i] + HEADER <= bs[i + 1] <= bs[|bs| - 1] <= |data|
  {}

  // The block of a live payload.
  lemma BlockOf(h: Pool, p: Addr) returns (i: nat)
    requires PoolOk(h) && p in LiveOf(h)
    ensures i + 1 < |h.blocks| && h.blocks[i] + HEADER == p && p <= h.blocks[i + 1] < h.size && |LiveOf(h)[p]| == h.blocks[i + 1] - p
  {
    StoredKeys(h.blocks, h.used, h.data, p);
    i :| 0 <= i < |h.blocks| - 1 && h.blocks[i] in h.used && h.blocks[i] + HEADER == p;
    StoredAt(h.blocks, h.used, h.data, i);
    SliceBelow(h.blocks, h.data, i);
  }

  // Live payloads do not overlap, and there is a header between any two.
  lemma LiveApart(h: Pool, p: Addr, q: Addr)
    requires PoolOk(h) && p in LiveOf(h) && q in LiveOf(h) && p < q
    ensures p + |LiveOf(h)[p]| + HEADER <= q && q + |LiveOf(h)[q]| <= h.size
  {
    var i := BlockOf(h, p);
    var j := BlockOf(h, q);
    hide LiveOf, Stored;
    Ordered(h.blocks, i, j);
  }

  lemma Ordered(bs: seq<Addr>, i: nat, j: nat)
    requires Rising(bs) && i < |bs| && j < |bs| && bs[i] < bs[j]
    ensures i + 1 < |bs| && bs[i + 1] <= bs[j]
  {
    assert forall a :: 0 <= a < i ==> bs[a] + HEADER <= bs[i];
    assert forall a :: 0 <= a < j ==> bs[a] + HEADER <= bs[j];
  }
}
