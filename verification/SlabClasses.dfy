/** zoneindex and the layout of a zone: which chunk size a request gets, and where
    the chunks of a zone lie. */
module SlabClasses {
  const ZONES := 72               // RT_SLAB_NZONES
  const ZONE_HEADER := 36         // sizeof(struct rt_slab_zone)
  const PAGE := 4096
  const MIN_ZONE_SIZE := 32768
  const MAX_ZONE_SIZE := 131072
  const CHUNK_LIMIT := 16384      // ZALLOC_ZONE_LIMIT

  function RoundUp(n: nat, m: nat): nat
    requires m > 0
  {
    (n + m - 1) / m * m
  }

  // The two results of zoneindex, for a request below 16384 bytes.
  function ZoneIndex(n: nat): int
  {
    if n < 128 then RoundUp(n, 8) / 8 - 1
    else if n < 256 then RoundUp(n, 16) / 16 + 7
    else if n < 512 then RoundUp(n, 32) / 32 + 15
    else if n < 1024 then RoundUp(n, 64) / 64 + 23
    else if n < 2048 then RoundUp(n, 128) / 128 + 31
    else if n < 4096 then RoundUp(n, 256) / 256 + 39
    else if n < 8192 then RoundUp(n, 512) / 512 + 47
    else RoundUp(n, 1024) / 1024 + 55
  }

  function ChunkSize(n: nat): nat {
    if n < 128 then RoundUp(n, 8)
    else if n < 256 then RoundUp(n, 16)
    else if n < 512 then RoundUp(n, 32)
    else if n < 1024 then RoundUp(n, 64)
    else if n < 2048 then RoundUp(n, 128)
    else if n < 4096 then RoundUp(n, 256)
    else if n < 8192 then RoundUp(n, 512)
    else RoundUp(n, 1024)
  }

  // The documented table: sixteen classes 8 bytes apart, then eight to each doubling.
  function ClassSize(i: nat): nat {
    if i < 16 then 8 * (i + 1)
    else if i < 24 then 16 * (i - 7)
    else if i < 32 then 32 * (i - 15)
    else if i < 40 then 64 * (i - 23)
    else if i < 48 then 128 * (i - 31)
    else if i < 56 then 256 * (i - 39)
    else if i < 64 then 512 * (i - 47)
    else 1024 * (i - 55)
  }

  lemma ClassesRise(i: nat, j: nat)
    requires i < j < ZONES
    ensures ClassSize(i) < ClassSize(j)
  {}

  // A request goes to the smallest class that holds it, and the index names the
  // class that the rounded size belongs to.
  lemma SmallestClass(n: nat)
    requires 0 < n < CHUNK_LIMIT
    ensures 0 <= ZoneIndex(n) < ZONES && ChunkSize(n) == ClassSize(ZoneIndex(n))
    ensures n <= ChunkSize(n) && (ZoneIndex(n) > 0 ==> ClassSize(ZoneIndex(n) - 1) < n)
  {
    hide ZoneIndex, ChunkSize, ClassSize;
    if n < 256 {
      SmallestBelow256(n);
    } else if n < 1024 {
      SmallestBelow1024(n);
    } else if n < 2048 {
      SmallestBelow2048(n);
    } else if n < 4096 {
      SmallestBelow4096(n);
    } else if n < 8192 {
      SmallestBelow8192(n);
    } else {
      SmallestAbove(n);
    }
  }

  lemma SmallestBelow256(n: nat)
    requires 0 < n < 256
    ensures 0 <= ZoneIndex(n) < ZONES && ChunkSize(n) == ClassSize(ZoneIndex(n))
    ensures n <= ChunkSize(n) && (ZoneIndex(n) > 0 ==> ClassSize(ZoneIndex(n) - 1) < n)
  {}

  lemma SmallestBelow1024(n: nat)
    requires 256 <= n < 1024
    ensures 0 <= ZoneIndex(n) < ZONES && ChunkSize(n) == ClassSize(ZoneIndex(n))
    ensures n <= ChunkSize(n) && (ZoneIndex(n) > 0 ==> ClassSize(ZoneIndex(n) - 1) < n)
  {}

  lemma SmallestBelow2048(n: nat)
    requires 1024 <= n < 2048
    ensures 0 <= ZoneIndex(n) < ZONES && ChunkSize(n) == ClassSize(ZoneIndex(n))
    ensures n <= ChunkSize(n) && (ZoneIndex(n) > 0 ==> ClassSize(ZoneIndex(n) - 1) < n)
  {}

  lemma SmallestBelow4096(n: nat)
    requires 2048 <= n < 4096
    ensures 0 <= ZoneIndex(n) < ZONES && ChunkSize(n) == ClassSize(ZoneIndex(n))
    ensures n <= ChunkSize(n) && (ZoneIndex(n) > 0 ==> ClassSize(ZoneIndex(n) - 1) < n)
  {}

  lemma SmallestBelow8192(n: nat)
    requires 4096 <= n < 8192
    ensures 0 <= ZoneIndex(n) < ZONES && ChunkSize(n) == ClassSize(ZoneIndex(n))
    ensures n <= ChunkSize(n) && (ZoneIndex(n) > 0 ==> ClassSize(ZoneIndex(n) - 1) < n)
  {}

  lemma SmallestAbove(n: nat)
    requires 8192 <= n < CHUNK_LIMIT
    ensures 0 <= ZoneIndex(n) < ZONES && ChunkSize(n) == ClassSize(ZoneIndex(n))
    ensures n <= ChunkSize(n) && (ZoneIndex(n) > 0 ==> ClassSize(ZoneIndex(n) - 1) < n)
  {}

  // So two requests share a zone exactly if they are rounded to the same size, and
  // larger requests never get smaller classes.
  lemma OneSizePerIndex(n: nat, m: nat)
    requires 0 < n < CHUNK_LIMIT && 0 < m < CHUNK_LIMIT
    ensures ZoneIndex(n) == ZoneIndex(m) <==> ChunkSize(n) == ChunkSize(m)
    ensures n <= m ==> ZoneIndex(n) <= ZoneIndex(m)
  {
    SmallestClass(n);
    SmallestClass(m);
    var i: nat, j: nat := ZoneIndex(n), ZoneIndex(m);
    hide ZoneIndex, ChunkSize, ClassSize;
    if i < j {
      ClassesRise(i, j);
    } else if j < i {
      ClassesRise(j, i);
      if j < i - 1 {
        ClassesRise(j, i - 1);
      }
    }
  }

  predicate PowerOfTwo(n: nat) {
    n == 1 || (n > 1 && n % 2 == 0 && PowerOfTwo(n / 2))
  }

  // Where the chunks of a zone begin, from its header.
  function Offset(size: nat): nat
    requires size > 0
  {
    if PowerOfTwo(size) then RoundUp(ZONE_HEADER, size) else RoundUp(ZONE_HEADER, 8)
  }

  // The limit below which requests go to zones.
  function ZoneLimit(zoneSize: nat): nat {
    if zoneSize / 4 > CHUNK_LIMIT then CHUNK_LIMIT else zoneSize / 4
  }

  // A zone has room for at least two chunks, so it can be on a list after the first
  // has been handed out.
  lemma TwoChunksFit(zoneSize: nat, n: nat)
    requires zoneSize >= MIN_ZONE_SIZE && 0 < n < ZoneLimit(zoneSize)
    ensures ChunkSize(n) > 0 && Offset(ChunkSize(n)) >= ZONE_HEADER
    ensures Offset(ChunkSize(n)) + 2 * ChunkSize(n) <= zoneSize
  {
    SmallestClass(n);
    var size := ChunkSize(n);
    assert size <= 8192 || (size <= 16384 && zoneSize / 4 > 8192);
    RoundUpBounds(ZONE_HEADER, size);
    hide ZoneIndex, ChunkSize, ClassSize, RoundUp;
    RoundUpBounds(ZONE_HEADER, 8);
  }

  lemma RoundUpBounds(n: nat, m: nat)
    requires m > 0
    ensures n <= RoundUp(n, m) < n + m && RoundUp(n, m) % m == 0
  {
    var q := (n + m - 1) / m;
    assert n + m - 1 == m * q + (n + m - 1) % m;
    ModTimes(0, q, m);
  }

  lemma {:induction false} ModTimes(z: nat, k: nat, m: nat)
    requires m > 0
    ensures (z + k * m) % m == z % m
  {
    if k > 0 {
      ModTimes(z, k - 1, m);
      assert z + k * m == (z + (k - 1) * m) + m;
      AddOnce(z + (k - 1) * m, m);
    }
  }

  lemma AddOnce(x: nat, m: nat)
    requires m > 0
    ensures (x + m) % m == x % m
  {
    var q, r := x / m, x % m;
    assert x == m * q + r;
    Times(m, q);
    SameRemainder(m, q + 1, r, (x + m) / m, (x + m) % m);
  }

  lemma Times(m: nat, q: nat)
    ensures m * (q + 1) == m * q + m
  {}

  lemma AtLeast(m: nat, a: nat, b: nat)
    requires a < b
    ensures m * b >= m * a + m
  {
    Times(m, b - 1);
    Monotone(m, a, b - 1);
  }

  lemma Monotone(m: nat, a: nat, b: nat)
    requires a <= b
    ensures m * a <= m * b
  {}

  // Quotient and remainder are determined.
  lemma SameRemainder(m: nat, q: nat, r: nat, q': nat, r': nat)
    requires r < m && r' < m && m * q + r == m * q' + r'
    ensures r == r'
  {
    if q < q' {
      AtLeast(m, q, q');
    } else if q' < q {
      AtLeast(m, q', q);
    }
  }

  // The zone size of a heap of limSize bytes: 32 KiB up to 64 MiB, 64 KiB up to
  // 128 MiB, 128 KiB above.
  function ZoneSizeOf(limSize: nat): nat {
    if limSize / 1024 <= 2 * MIN_ZONE_SIZE then MIN_ZONE_SIZE
    else if limSize / 1024 <= MAX_ZONE_SIZE then 2 * MIN_ZONE_SIZE
    else MAX_ZONE_SIZE
  }

  // The loop of rt_slab_init that picks it.
  method ZoneSizeFor(limSize: nat) returns (zoneSize: nat)
    ensures zoneSize == ZoneSizeOf(limSize)
  {
    zoneSize := MIN_ZONE_SIZE;
    while zoneSize < MAX_ZONE_SIZE && 2 * zoneSize < limSize / 1024
      invariant zoneSize in {MIN_ZONE_SIZE, 2 * MIN_ZONE_SIZE, MAX_ZONE_SIZE}
      invariant zoneSize > MIN_ZONE_SIZE ==> zoneSize < limSize / 1024
      decreases MAX_ZONE_SIZE - zoneSize
    {
      zoneSize := 2 * zoneSize;
    }
  }

  // ---------- alignment ----------

  predicate Aligned(x: nat, n: nat) {
    n > 0 && x % n == 0
  }

  // A chunk of a power of two is aligned to its size exactly if its zone is.
  lemma PowersAlignedWithZone(z: nat, size: nat, i: nat)
    requires size > 0 && PowerOfTwo(size)
    ensures (z + Offset(size) + i * size) % size == 0 <==> z % size == 0
  {
    RoundUpBounds(ZONE_HEADER, size);
    var k := Offset(size) / size;
    assert Offset(size) == k * size;
    assert z + Offset(size) + i * size == z + (k + i) * size;
    ModTimes(z, k + i, size);
  }

  // The powers of two below the chunk limit.
  lemma {:induction false} Powers(n: nat)
    requires PowerOfTwo(n) && n < CHUNK_LIMIT
    ensures n in {1, 2, 4} || n in {8, 16, 32, 64, 128, 256, 512, 1024, 2048, 4096} || n == 8192
  {
    if n > 1 {
      Powers(n / 2);
    }
  }

  // All but the smallest are chunk sizes.
  lemma PowerChunks(n: nat)
    requires n in {1, 2, 4} || n in {8, 16, 32, 64, 128, 256, 512, 1024, 2048, 4096} || n == 8192
    ensures ChunkSize(n) == if n < 8 then 8 else n
  {}

  lemma PowersDividePage(n: nat)
    requires n in {8, 16, 32, 64, 128, 256, 512, 1024, 2048, 4096}
    ensures PAGE % n == 0
  {}

  lemma PowersOf8()
    ensures PowerOfTwo(8) && PowerOfTwo(8192)
  {
    assert PowerOfTwo(8) && PowerOfTwo(64) && PowerOfTwo(512) && PowerOfTwo(4096);
  }

  // Chunk i of a zone of chunks of one size.
  function ChunkAt(page: nat, size: nat, i: nat): nat
    requires size > 0
  {
    page * PAGE + Offset(size) + i * size
  }

  lemma AlignedWithPage(page: nat, size: nat, i: nat)
    requires size > 0 && PowerOfTwo(size)
    ensures Aligned(ChunkAt(page, size, i), size) <==> Aligned(page * PAGE, size)
  {
    PowersAlignedWithZone(page * PAGE, size, i);
  }

  // Zones are page-aligned, so a chunk for a power of two is aligned up to the page
  // size, and beyond it exactly if the zone is.
  lemma ChunkAligned(page: nat, n: nat, size: nat, i: nat)
    requires PowerOfTwo(n) && 0 < n < CHUNK_LIMIT && size == ChunkSize(n)
    ensures size > 0
    ensures n <= PAGE ==> Aligned(ChunkAt(page, size, i), n)
    ensures n > PAGE ==> (Aligned(ChunkAt(page, size, i), n) <==> Aligned(page * PAGE, n))
  {
    hide ChunkSize, PowerOfTwo, ChunkAt, Aligned;
    Powers(n);
    PowerChunks(n);
    if n < 8 {
      SmallAligned(page, n, i);
    } else {
      AlignedWithPage(page, n, i);
      if n <= PAGE {
        MiddleAligned(page, n);
      }
    }
  }

  lemma MiddleAligned(page: nat, n: nat)
    requires n in {8, 16, 32, 64, 128, 256, 512, 1024, 2048, 4096}
    ensures Aligned(page * PAGE, n)
  {
    PowersDividePage(n);
    PageMultiple(page, n);
  }

  lemma SmallAligned(page: nat, n: nat, i: nat)
    requires n in {1, 2, 4}
    ensures Aligned(ChunkAt(page, 8, i), n)
  {
    PowersOf8();
    AlignedWithPage(page, 8, i);
    MiddleAligned(page, 8);
    hide ChunkAt;
    Coarser(ChunkAt(page, 8, i), n);
  }

  // Multiples of 8 are multiples of 1, 2 and 4.
  lemma Coarser(x: nat, n: nat)
    requires x % 8 == 0 && n in {1, 2, 4}
    ensures x % n == 0
  {
    if n == 1 {
      assert x % 1 == 0;
    } else if n == 2 {
      assert x % 2 == 0;
    } else {
      assert x % 4 == 0;
    }
  }

  lemma {:induction false} PageMultiple(page: nat, size: nat)
    requires size > 0 && PAGE % size == 0
    ensures Aligned(page * PAGE, size)
  {
    var k := PAGE / size;
    assert PAGE == k * size;
    Regroup(page, k, size);
    ModTimes(0, page * k, size);
  }

  lemma Regroup(a: nat, b: nat, c: nat)
    ensures a * (b * c) == (a * b) * c
  {}

  // So 8 KB chunks are aligned exactly in zones at even pages.
  lemma EvenPagesAligned(page: nat, i: nat)
    ensures PowerOfTwo(8192)
    ensures Aligned(page * PAGE, 8192) <==> page % 2 == 0
    ensures Aligned(ChunkAt(page, 8192, i), 8192) <==> page % 2 == 0
  {
    hide ChunkAt, Aligned, PowerOfTwo;
    PowersOf8();
    AlignedWithPage(page, 8192, i);
    PageParity(page);
  }

  lemma PageParity(page: nat)
    ensures Aligned(page * PAGE, 8192) <==> page % 2 == 0
  {}
}
