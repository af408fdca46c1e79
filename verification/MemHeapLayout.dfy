/** How the blocks of a memheap fill its pool: headers in address order, the last
    one a used block without payload. Addresses are offsets in the pool. */
module MemHeapLayout {
  import opened Bytes
  import opened Rings

  const HEADER := 24      // RT_MEMHEAP_SIZE: magic, pool_ptr and four links
  const MIN_ALLOC := 12   // RT_MEMHEAP_MINIALLOC

  // Each header lies past the one before it, on a word boundary.
  ghost predicate Rising(bs: seq<Addr>) {
    && (forall i :: 0 <= i < |bs| ==> bs[i] % 4 == 0)
    && forall i, j :: 0 <= i < j < |bs| ==> bs[i] + HEADER <= bs[j]
  }

  ghost predicate NoFreePair(bs: seq<Addr>, used: set<Addr>) {
    forall i :: 0 <= i < |bs| - 1 ==> bs[i] in used || bs[i + 1] in used
  }

  ghost predicate Layout(bs: seq<Addr>, used: set<Addr>, pool: nat) {
    && |bs| >= 2 && Rising(bs) && NoFreePair(bs, used)
    && bs[0] == 0 && bs[|bs| - 1] == pool - HEADER && bs[|bs| - 1] in used
  }

  function Payload(bs: seq<Addr>, k: nat): int
    requires k + 1 < |bs|
  {
    bs[k + 1] - bs[k] - HEADER
  }

  // The payload bytes of the free blocks; the last header only ends the one before.
  function FreeSum(bs: seq<Addr>, used: set<Addr>): int {
    if |bs| < 2 then 0 else (if bs[0] in used then 0 else Payload(bs, 0)) + FreeSum(bs[1..], used)
  }

  // In order, and within the pool.
  ghost predicate Fits(bs: seq<Addr>, data: seq<byte>) {
    Rising(bs) && (bs != [] ==> 0 <= bs[0] && bs[|bs| - 1] <= |data|)
  }

  // The live payloads and their bytes, by the address handed out.
  ghost function Stored(bs: seq<Addr>, used: set<Addr>, data: seq<byte>): map<Addr, seq<byte>>
    requires Fits(bs, data)
  {
    if |bs| < 2 then map[]
    else
      var rest := Stored(bs[1..], used, data);
      if bs[0] in used then rest[bs[0] + HEADER := data[bs[0] + HEADER..bs[1]]] else rest
  }

  // ---------- cutting the block list ----------

  lemma RisingParts(a: seq<Addr>, b: seq<Addr>)
    requires Rising(a + b)
    ensures Rising(a) && Rising(b)
    ensures forall x, y :: x in a && y in b ==> x + HEADER <= y
    ensures b != [] ==> Rising(a + [b[0]])
  {
    var s := a + b;
    assert forall i :: 0 <= i < |a| ==> s[i] == a[i];
    assert forall i :: 0 <= i < |b| ==> s[|a| + i] == b[i];
    forall x, y | x in a && y in b ensures x + HEADER <= y {
      var i :| 0 <= i < |a| && a[i] == x;
      var j :| 0 <= j < |b| && b[j] == y;
      assert s[i] + HEADER <= s[|a| + j];
    }
  }

  lemma RisingJoin(a: seq<Addr>, b: seq<Addr>)
    requires Rising(a) && Rising(b)
    requires forall x, y :: x in a && y in b ==> x + HEADER <= y
    ensures Rising(a + b)
  {
    var s := a + b;
    forall i, j | 0 <= i < j < |s| ensures s[i] + HEADER <= s[j] {
      if i < |a| <= j {
        assert s[i] in a && s[j] in b;
      }
    }
  }

  lemma {:induction false} FreeSumJoin(a: seq<Addr>, b: seq<Addr>, used: set<Addr>)
    requires b != []
    ensures FreeSum(a + b, used) == FreeSum(a + [b[0]], used) + FreeSum(b, used)
  {
    if a == [] {
      assert a + b == b && a + [b[0]] == [b[0]];
    } else {
      FreeSumJoin(a[1..], b, used);
      assert (a + b)[1..] == a[1..] + b && (a + [b[0]])[1..] == a[1..] + [b[0]];
    }
  }

  lemma {:induction false} FreeSumSame(bs: seq<Addr>, used: set<Addr>, used': set<Addr>)
    requires forall i :: 0 <= i < |bs| - 1 ==> (bs[i] in used <==> bs[i] in used')
    ensures FreeSum(bs, used) == FreeSum(bs, used')
  {
    if |bs| >= 2 {
      FreeSumSame(bs[1..], used, used');
    }
  }

  lemma {:induction false} FreeSumBounds(bs: seq<Addr>, used: set<Addr>, k: nat)
    requires Rising(bs) && k + 1 < |bs|
    ensures FreeSum(bs, used) >= 0 && (bs[k] !in used ==> FreeSum(bs, used) >= Payload(bs, k))
    decreases |bs|
  {
    FreeSumNatural(bs[1..], used);
    if k > 0 {
      FreeSumBounds(bs[1..], used, k - 1);
    }
  }

  lemma {:induction false} FreeSumNatural(bs: seq<Addr>, used: set<Addr>)
    requires Rising(bs)
    ensures FreeSum(bs, used) >= 0
  {
    if |bs| >= 2 {
      FreeSumNatural(bs[1..], used);
    }
  }

  lemma {:induction false} StoredKeys(bs: seq<Addr>, used: set<Addr>, data: seq<byte>, p: Addr)
    requires Fits(bs, data)
    ensures p in Stored(bs, used, data) <==> exists i :: 0 <= i < |bs| - 1 && bs[i] in used && bs[i] + HEADER == p
    ensures p in Stored(bs, used, data) ==> bs[0] + HEADER <= p <= bs[|bs| - 1]
  {
    if |bs| >= 2 {
      StoredKeys(bs[1..], used, data, p);
      assert forall i :: 0 <= i < |bs[1..]| ==> bs[1..][i] == bs[i + 1];
    }
  }

  lemma StoredAt(bs: seq<Addr>, used: set<Addr>, data: seq<byte>, k: nat)
    requires Fits(bs, data) && k + 1 < |bs| && bs[k] in used
    ensures bs[k] + HEADER in Stored(bs, used, data) && Stored(bs, used, data)[bs[k] + HEADER] == data[bs[k] + HEADER..bs[k + 1]]
    decreases |bs|
  {
    if k > 0 {
      assert bs[0] + HEADER <= bs[k];
      StoredAt(bs[1..], used, data, k - 1);
    }
  }

  lemma {:induction false} StoredJoin(a: seq<Addr>, b: seq<Addr>, used: set<Addr>, data: seq<byte>)
    requires Fits(a + b, data) && b != []
    ensures Fits(a + [b[0]], data) && Fits(b, data)
    ensures Stored(a + b, used, data) == Stored(a + [b[0]], used, data) + Stored(b, used, data)
    decreases |a|
  {
    hide Stored, Fits, Rising;
    FitsParts(a, b, data);
    if a == [] {
      assert a + b == b && a + [b[0]] == [b[0]];
      StoredNothing(b[0], b, used, data);
    } else {
      var x, y := a[1..] + b, a[1..] + [b[0]];
      assert a + b == [a[0]] + x && a + [b[0]] == [a[0]] + y;
      FitsParts([a[0]], x, data);
      StoredJoin(a[1..], b, used, data);
      FirstKey(a, b, used, data);
      StoredJoinStep(a[0], x, y, b, used, data);
    }
  }

  lemma PutBefore<K, V>(x: map<K, V>, y: map<K, V>, b: map<K, V>, k: K, v: V)
    requires x == y + b && k !in b
    ensures x[k := v] == y[k := v] + b
  {}

  lemma StoredNothing(h: Addr, b: seq<Addr>, used: set<Addr>, data: seq<byte>)
    requires Fits([h], data) && Fits(b, data)
    ensures Stored(b, used, data) == Stored([h], used, data) + Stored(b, used, data)
  {}

  lemma StoredJoinStep(h: Addr, x: seq<Addr>, y: seq<Addr>, b: seq<Addr>, used: set<Addr>, data: seq<byte>)
    requires Fits([h] + x, data) && Fits([h] + y, data) && Fits(x, data) && Fits(y, data) && Fits(b, data)
    requires x != [] && y != [] && x[0] == y[0] && h + HEADER !in Stored(b, used, data)
    requires Stored(x, used, data) == Stored(y, used, data) + Stored(b, used, data)
    ensures Stored([h] + x, used, data) == Stored([h] + y, used, data) + Stored(b, used, data)
  {
    hide Stored, Fits, Rising;
    StoredUnfolds([h] + x, used, data);
    StoredUnfolds([h] + y, used, data);
    assert ([h] + x)[1..] == x && ([h] + y)[1..] == y;
    if h in used {
      PutBefore(Stored(x, used, data), Stored(y, used, data), Stored(b, used, data), h + HEADER, data[h + HEADER..x[0]]);
    }
  }

  lemma StoredUnfolds(bs: seq<Addr>, used: set<Addr>, data: seq<byte>)
    requires Fits(bs, data) && |bs| >= 2
    ensures Fits(bs[1..], data) && 0 <= bs[0] + HEADER <= bs[1] <= |data|
    ensures var rest := Stored(bs[1..], used, data);
            Stored(bs, used, data) == if bs[0] in used then rest[bs[0] + HEADER := data[bs[0] + HEADER..bs[1]]] else rest
  {}

  lemma FirstKey(a: seq<Addr>, b: seq<Addr>, used: set<Addr>, data: seq<byte>)
    requires Fits(a + b, data) && a != [] && b != [] && Fits(b, data)
    ensures a[0] + HEADER !in Stored(b, used, data)
  {
    StoredKeys(b, used, data, a[0] + HEADER);
    assert (a + b)[0] + HEADER <= (a + b)[|a|] == b[0];
  }

  lemma FitsParts(a: seq<Addr>, b: seq<Addr>, data: seq<byte>)
    requires Fits(a + b, data) && b != []
    ensures Fits(a + [b[0]], data) && Fits(b, data)
  {
    RisingParts(a, b);
    var s := a + b;
    assert s[|a|] == b[0] && s[|s| - 1] == b[|b| - 1];
    assert a != [] ==> s[0] == a[0];
    assert s[0] <= s[|a|] <= s[|s| - 1];
  }

  // Other marks elsewhere and other bytes outside the live payloads do not matter.
  ghost predicate SameInside(bs: seq<Addr>, used: set<Addr>, data: seq<byte>, data': seq<byte>)
    requires Fits(bs, data)
  {
    |data'| == |data| && forall i :: 0 <= i < |bs| - 1 && bs[i] in used ==> SameSlice(data, data', bs[i] + HEADER, bs[i + 1])
  }

  ghost predicate SameSlice(data: seq<byte>, data': seq<byte>, i: int, j: int) {
    0 <= i <= j <= |data| == |data'| && data[i..j] == data'[i..j]
  }

  lemma {:induction false} StoredSame(bs: seq<Addr>, used: set<Addr>, used': set<Addr>, data: seq<byte>, data': seq<byte>)
    requires Fits(bs, data) && SameInside(bs, used, data, data')
    requires forall i :: 0 <= i < |bs| - 1 ==> (bs[i] in used <==> bs[i] in used')
    ensures Stored(bs, used, data) == Stored(bs, used', data')
  {
    if |bs| >= 2 {
      StoredUnfolds(bs, used, data);
      StoredUnfolds(bs, used', data');
      InsideRest(bs, used, data, data');
      StoredSame(bs[1..], used, used', data, data');
      assert bs[0] in used ==> SameSlice(data, data', bs[0] + HEADER, bs[1]);
      hide Stored, Fits, Rising, SameInside;
    }
  }

  lemma InsideRest(bs: seq<Addr>, used: set<Addr>, data: seq<byte>, data': seq<byte>)
    requires Fits(bs, data) && |bs| >= 2 && SameInside(bs, used, data, data')
    ensures Fits(bs[1..], data) && SameInside(bs[1..], used, data, data')
  {
    forall i | 0 <= i < |bs[1..]| - 1 && bs[1..][i] in used ensures SameSlice(data, data', bs[1..][i] + HEADER, bs[1..][i + 1]) {
      assert bs[1 + i] in used;
    }
  }

  // ---------- replacing some neighbouring blocks by others ----------

  // The blocks m, between a and b, become the blocks m' with the same extent.
  ghost predicate Replaces(a: seq<Addr>, m: seq<Addr>, m': seq<Addr>, b: seq<Addr>, used: set<Addr>, used': set<Addr>) {
    && m != [] && m' != [] && b != [] && m'[0] == m[0]
    && Rising(m' + [b[0]]) && NoFreePair(m', used')
    && (a != [] ==> a[|a| - 1] in used || m'[0] in used')
    && (m'[|m'| - 1] in used' || b[0] in used)
    && (forall x :: x in a || x in b ==> (x in used <==> x in used'))
  }

  lemma ReplacedRising(a: seq<Addr>, m: seq<Addr>, m': seq<Addr>, b: seq<Addr>)
    requires Rising(a + m + b) && m != [] && m' != [] && b != [] && m'[0] == m[0] && Rising(m' + [b[0]])
    ensures Rising(a + m' + b)
  {
    assert a + m + b == a + (m + b) == (a + m) + b;
    RisingParts(a, m + b);
    RisingParts(a + m, b);
    RisingParts(m', [b[0]]);
    assert (m + b)[0] == m[0];
    forall x, y | x in a && y in m' ensures x + HEADER <= y {
      var j :| 0 <= j < |m'| && m'[j] == y;
      assert m'[0] <= m'[j];
      assert m[0] in m + b;
    }
    forall x, y | x in m' && y in b ensures x + HEADER <= y {
      var j :| 0 <= j < |b| && b[j] == y;
      assert b[0] <= b[j] && b[0] in [b[0]];
    }
    RisingJoin(a, m');
    forall x, y | x in a + m' && y in b ensures x + HEADER <= y {
      assert y in m + b;
    }
    RisingJoin(a + m', b);
  }

  lemma ReplacedPairs(a: seq<Addr>, m: seq<Addr>, m': seq<Addr>, b: seq<Addr>, used: set<Addr>, used': set<Addr>)
    requires NoFreePair(a + m + b, used) && Replaces(a, m, m', b, used, used')
    ensures NoFreePair(a + m' + b, used')
  {
    var s, r := a + m + b, a + m' + b;
    forall i | 0 <= i < |r| - 1 ensures r[i] in used' || r[i + 1] in used' {
      if i + 1 < |a| {
        assert r[i] == s[i] == a[i] && r[i + 1] == s[i + 1] == a[i + 1];
      } else if i >= |a| + |m'| {
        var k := i - |m'| + |m|;
        assert r[i] == s[k] == b[i - |a| - |m'|] && r[i + 1] == s[k + 1] == b[i + 1 - |a| - |m'|];
      } else if |a| <= i && i + 1 < |a| + |m'| {
        assert r[i] == m'[i - |a|] && r[i + 1] == m'[i + 1 - |a|];
      } else if i + 1 == |a| {
        assert r[i] == a[|a| - 1] && r[i + 1] == m'[0];
      } else {
        assert r[i] == m'[|m'| - 1] && r[i + 1] == b[0];
      }
    }
  }

  lemma Rework(a: seq<Addr>, m: seq<Addr>, m': seq<Addr>, b: seq<Addr>, used: set<Addr>, used': set<Addr>, pool: nat)
    requires Layout(a + m + b, used, pool) && Replaces(a, m, m', b, used, used')
    ensures Layout(a + m' + b, used', pool)
  {
    ReplacedRising(a, m, m', b);
    ReplacedPairs(a, m, m', b, used, used');
    var s, r := a + m + b, a + m' + b;
    assert r[|r| - 1] == b[|b| - 1] == s[|s| - 1];
    assert r[0] == s[0];
    hide Rising, NoFreePair;
  }

  lemma FreeSumAround(a: seq<Addr>, m: seq<Addr>, b: seq<Addr>, used: set<Addr>)
    requires m != [] && b != []
    ensures FreeSum(a + m + b, used) == FreeSum(a + [m[0]], used) + FreeSum(m + [b[0]], used) + FreeSum(b, used)
  {
    assert a + m + b == a + (m + b);
    FreeSumJoin(a, m + b, used);
    FreeSumJoin(m, b, used);
  }

  lemma ReworkSum(a: seq<Addr>, m: seq<Addr>, m': seq<Addr>, b: seq<Addr>, used: set<Addr>, used': set<Addr>)
    requires Replaces(a, m, m', b, used, used')
    ensures FreeSum(a + m' + b, used') == FreeSum(a + m + b, used) - FreeSum(m + [b[0]], used) + FreeSum(m' + [b[0]], used')
  {
    FreeSumAround(a, m, b, used);
    FreeSumAround(a, m', b, used');
    MarksSame(a, m[0], used, used');
    MarksSame(b[..|b| - 1], b[|b| - 1], used, used');
    assert b[..|b| - 1] + [b[|b| - 1]] == b;
    FreeSumSame(a + [m[0]], used, used');
    FreeSumSame(b, used, used');
  }

  lemma MarksSame(a: seq<Addr>, h: Addr, used: set<Addr>, used': set<Addr>)
    requires forall x :: x in a ==> (x in used <==> x in used')
    ensures forall i :: 0 <= i < |a + [h]| - 1 ==> ((a + [h])[i] in used <==> (a + [h])[i] in used')
  {
    assert forall i :: 0 <= i < |a| ==> (a + [h])[i] == a[i] && a[i] in a;
  }

  // The live payloads of the other blocks.
  ghost function Others(a: seq<Addr>, h: Addr, b: seq<Addr>, used: set<Addr>, data: seq<byte>): map<Addr, seq<byte>>
    requires Fits(a + [h], data) && Fits(b, data)
  {
    Stored(a + [h], used, data) + Stored(b, used, data)
  }

  lemma StoredAround(a: seq<Addr>, m: seq<Addr>, b: seq<Addr>, used: set<Addr>, data: seq<byte>)
    requires Fits(a + m + b, data) && m != [] && b != []
    ensures Fits(a + [m[0]], data) && Fits(m + [b[0]], data) && Fits(b, data)
    ensures Stored(a + m + b, used, data) == Others(a, m[0], b, used, data) + Stored(m + [b[0]], used, data)
    ensures forall p :: p in Others(a, m[0], b, used, data) ==> p < m[0] + HEADER || b[0] + HEADER <= p
  {
    assert a + m + b == a + (m + b);
    StoredJoin(a, m + b, used, data);
    StoredJoin(m, b, used, data);
    FitsApart(m, b, data);
    KeysIn(a + [m[0]], used, data);
    KeysIn(b, used, data);
    KeysIn(m + [b[0]], used, data);
    assert (m + [b[0]])[0] == m[0] == (a + [m[0]])[|a|];
    hide Stored, Fits, Rising;
    ShuffleUnion(Stored(a + [m[0]], used, data), Stored(m + [b[0]], used, data), Stored(b, used, data), m[0], b[0]);
  }

  lemma FitsApart(m: seq<Addr>, b: seq<Addr>, data: seq<byte>)
    requires Fits(m + b, data) && m != [] && b != []
    ensures m[0] + HEADER <= b[0]
  {
    assert (m + b)[0] == m[0] && (m + b)[|m|] == b[0];
  }

  lemma KeysIn(bs: seq<Addr>, used: set<Addr>, data: seq<byte>)
    requires Fits(bs, data)
    ensures forall p :: p in Stored(bs, used, data) ==> bs != [] && bs[0] + HEADER <= p <= bs[|bs| - 1]
  {
    forall p | p in Stored(bs, used, data) ensures bs != [] && bs[0] + HEADER <= p <= bs[|bs| - 1] {
      StoredKeys(bs, used, data, p);
    }
  }

  lemma ShuffleUnion<V>(x: map<Addr, V>, y: map<Addr, V>, z: map<Addr, V>, h: Addr, e: Addr)
    requires h + HEADER <= e
    requires (forall p :: p in x ==> p <= h) && (forall p :: p in y ==> h + HEADER <= p <= e) && forall p :: p in z ==> e + HEADER <= p
    ensures x + (y + z) == (x + z) + y
    ensures forall p :: p in x + z ==> p < h + HEADER || e + HEADER <= p
  {
    var l, r := x + (y + z), (x + z) + y;
    assert l.Keys == r.Keys;
    assert forall p :: p in l ==> l[p] == r[p];
  }

  lemma OthersSame(a: seq<Addr>, h: Addr, b: seq<Addr>, used: set<Addr>, used': set<Addr>, data: seq<byte>)
    requires Fits(a + [h], data) && Fits(b, data)
    requires forall x :: x in a || x in b ==> (x in used <==> x in used')
    ensures Others(a, h, b, used, data) == Others(a, h, b, used', data)
  {
    NothingMoves(a + [h], used, data);
    NothingMoves(b, used, data);
    StoredSame(a + [h], used, used', data, data);
    StoredSame(b, used, used', data, data);
  }

  lemma NothingMoves(bs: seq<Addr>, used: set<Addr>, data: seq<byte>)
    requires Fits(bs, data)
    ensures SameInside(bs, used, data, data)
  {
    forall i | 0 <= i < |bs| - 1 && bs[i] in used ensures SameSlice(data, data, bs[i] + HEADER, bs[i + 1]) {
      assert bs[i] + HEADER <= bs[i + 1];
      assert bs[0] <= bs[i] && bs[i + 1] <= bs[|bs| - 1];
    }
  }

  lemma LayoutFits(bs: seq<Addr>, used: set<Addr>, pool: nat, data: seq<byte>)
    requires Layout(bs, used, pool) && pool <= |data|
    ensures Fits(bs, data)
  {}
}
