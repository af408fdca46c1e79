/** Zones of equal chunks, the list of zones with room for each size, and the few
    empty zones kept in reserve. */
module SlabZones {
  import opened Lists
  import opened SlabClasses

  // A zone header. `free` numbers the chunks on its free list.
  datatype Zone = Zone(index: nat, size: nat, nmax: nat, nfree: nat, base: nat, uindex: nat, free: seq<nat>)

  function Chunk(z: Zone, i: nat): nat {
    z.base + i * z.size
  }

  // Chunks up to uindex have been handed out at least once; those on the free list
  // have come back.
  ghost predicate Handed(z: Zone, i: nat) {
    i <= z.uindex && i !in z.free
  }

  // As many chunks of a class as the zone has room for.
  ghost predicate Shaped(index: nat, size: nat, nmax: nat, base: nat, page: nat, zoneSize: nat) {
    && index < ZONES && size == ClassSize(index)
    && size > 0 && base == page * PAGE + Offset(size)
    && page * PAGE + ZONE_HEADER <= base && base + nmax * size <= page * PAGE + zoneSize
    && page * PAGE + zoneSize < base + nmax * size + size
  }

  // nfree counts the chunks never used and those on the free list.
  ghost predicate ZoneOk(z: Zone, page: nat, zoneSize: nat) {
    && Shaped(z.index, z.size, z.nmax, z.base, page, zoneSize)
    && z.uindex < z.nmax && z.nfree == z.nmax - 1 - z.uindex + |z.free|
    && NoDup(z.free) && forall i :: i in z.free ==> i <= z.uindex
  }

  // A zone just taken for chunks of one size; its first chunk is handed out at once.
  function Fresh(page: nat, index: nat, size: nat, zoneSize: nat): Zone
    requires size > 0 && Offset(size) + size <= zoneSize
  {
    var nmax := (zoneSize - Offset(size)) / size;
    Zone(index, size, nmax, if nmax > 0 then nmax - 1 else 0, page * PAGE + Offset(size), 0, [])
  }

  // Which chunk a zone with room hands out next, and the zone afterwards.
  function Pick(z: Zone): nat {
    if z.uindex + 1 != z.nmax then z.uindex + 1 else if z.free != [] then z.free[0] else 0
  }

  function Picked(z: Zone): Zone
    requires z.nfree > 0
  {
    if z.uindex + 1 != z.nmax then z.(nfree := z.nfree - 1, uindex := z.uindex + 1)
    else z.(nfree := z.nfree - 1, free := if z.free != [] then z.free[1..] else [])
  }

  function Returned(z: Zone, i: nat): Zone {
    z.(nfree := z.nfree + 1, free := [i] + z.free)
  }

  lemma FreshOk(page: nat, index: nat, size: nat, zoneSize: nat)
    requires index < ZONES && size == ClassSize(index) > 0 && Offset(size) >= ZONE_HEADER && Offset(size) + 2 * size <= zoneSize
    ensures var z := Fresh(page, index, size, zoneSize);
            ZoneOk(z, page, zoneSize) && z.nfree == z.nmax - 1 > 0 && forall i :: Handed(z, i) <==> i == 0
  {
    hide ClassSize, Offset;
    Shares(zoneSize - Offset(size), size);
  }

  lemma Shares(room: nat, size: nat)
    requires size > 0 && room >= 2 * size
    ensures room / size >= 2 && room / size * size <= room < room / size * size + size
  {}

  // A zone goes on meeting requests until it has handed out as many chunks as it has
  // room for, each of them once.
  ghost function PickedTimes(z: Zone, k: nat): (y: Zone)
    requires k <= z.nfree
    ensures y.nfree == z.nfree - k && y.index == z.index && y.base == z.base && y.size == z.size
    decreases k
  {
    if k == 0 then z else Picked(PickedTimes(z, k - 1))
  }

  lemma MeetsAsManyAsFit(page: nat, index: nat, size: nat, zoneSize: nat, k: nat)
    requires index < ZONES && size == ClassSize(index) > 0 && Offset(size) >= ZONE_HEADER && Offset(size) + 2 * size <= zoneSize
    requires Offset(size) + (k + 1) * size <= zoneSize
    ensures var z := Fresh(page, index, size, zoneSize);
            k <= z.nfree && ZoneOk(PickedTimes(z, k), page, zoneSize) && forall i: nat :: Handed(PickedTimes(z, k), i) <==> i <= k
    ensures k > 0 ==> Pick(PickedTimes(Fresh(page, index, size, zoneSize), k - 1)) == k
  {
    var z := Fresh(page, index, size, zoneSize);
    hide ClassSize, Offset, Fresh;
    FreshOk(page, index, size, zoneSize);
    FitsBelow(page, z, zoneSize, k + 1);
    PicksInTurn(z, page, zoneSize, k);
    if k > 0 {
      PicksInTurn(z, page, zoneSize, k - 1);
    }
  }

  lemma FitsBelow(page: nat, z: Zone, zoneSize: nat, k: nat)
    requires ZoneOk(z, page, zoneSize) && Offset(z.size) + k * z.size <= zoneSize
    ensures k <= z.nmax
  {
    hide ClassSize, Offset;
    if k > z.nmax {
      AtLeast(z.size, z.nmax + 1, k);
      Commute(z.size, k);
      Commute(z.size, z.nmax + 1);
      Commute(z.size, z.nmax);
      Times(z.size, z.nmax);
    }
  }

  // A class with one zone that has room lists just that.
  lemma OnlyListed(zones: map<nat, Zone>, lists: seq<seq<nat>>, reserve: seq<nat>, k: nat, b: nat)
    requires ListsOk(zones, lists, reserve) && k < ZONES && zones.Keys == {b} && HasRoom(zones, k, b)
    ensures |lists| == ZONES && lists[k] == [b] && AnyRoom(zones, k)
  {
    assert b in lists[k];
    forall i | 0 <= i < |lists[k]| ensures lists[k][i] == b {
      assert lists[k][i] in lists[k];
    }
    OnlyMember(lists[k], b);
  }

  lemma {:induction false} PicksInTurn(z: Zone, page: nat, zoneSize: nat, k: nat)
    requires ZoneOk(z, page, zoneSize) && z.free == [] && z.uindex == 0 && k <= z.nfree
    ensures var y := PickedTimes(z, k);
            ZoneOk(y, page, zoneSize) && y.free == [] && y.uindex == k && y.nmax == z.nmax && forall i: nat :: Handed(y, i) <==> i <= k
    decreases k
  {
    hide ClassSize;
    if k > 0 {
      PicksInTurn(z, page, zoneSize, k - 1);
      PickOk(PickedTimes(z, k - 1), page, zoneSize);
    }
  }

  lemma SizeIs(z: Zone, page: nat, zoneSize: nat)
    requires ZoneOk(z, page, zoneSize)
    ensures z.index < ZONES && z.size == ClassSize(z.index) > 0
  {}

  // The pop after the never-used chunks have run out never finds an empty list, and
  // the chunk handed out is one that nobody has.
  lemma PickOk(z: Zone, page: nat, zoneSize: nat)
    requires ZoneOk(z, page, zoneSize) && z.nfree > 0
    ensures z.uindex + 1 == z.nmax ==> z.free != []
    ensures Picked(z).index == z.index && Picked(z).size == z.size == ClassSize(z.index) && Picked(z).base == z.base
    ensures ZoneOk(Picked(z), page, zoneSize) && !Handed(z, Pick(z)) && Pick(z) < z.nmax
    ensures forall i :: Handed(Picked(z), i) <==> Handed(z, i) || i == Pick(z)
  {
    SizeIs(z, page, zoneSize);
    hide ClassSize, Shaped;
    if z.free != [] {
      assert z.free[0] in z.free && z.free == [z.free[0]] + z.free[1..];
      assert forall i :: 0 <= i < |z.free[1..]| ==> z.free[1..][i] == z.free[i + 1];
      assert forall i :: i in z.free[1..] ==> i in z.free;
    }
  }

  // A chunk that has never been used goes before any that has come back, and of those
  // the last one first.
  lemma PickOrder(z: Zone, page: nat, zoneSize: nat, i: nat)
    requires ZoneOk(z, page, zoneSize)
    ensures z.nfree > |z.free| ==> Pick(z) == z.uindex + 1 && forall j: nat :: Handed(z, j) || j in z.free ==> j < Pick(z)
    ensures z.nfree == |z.free| ==> Pick(Returned(z, i)) == i && Picked(Returned(z, i)) == z
  {
    hide ClassSize, Shaped;
  }

  lemma ReturnOk(z: Zone, page: nat, zoneSize: nat, i: nat)
    requires ZoneOk(z, page, zoneSize) && Handed(z, i)
    ensures ZoneOk(Returned(z, i), page, zoneSize)
    ensures forall j :: Handed(Returned(z, i), j) <==> Handed(z, j) && j != i
  {
    hide ClassSize, Shaped;
    FewerThan(z.free, z.uindex + 1, i);
  }

  // Distinct numbers below n, one of them missing, are fewer than n.
  lemma FewerThan(s: seq<nat>, n: nat, missing: nat)
    requires NoDup(s) && (forall x :: x in s ==> x < n) && missing < n && missing !in s
    ensures |s| < n
  {
    AtMost(s + [missing], n);
  }

  lemma {:induction false} AtMost(s: seq<nat>, n: nat)
    requires NoDup(s) && forall x :: x in s ==> x < n
    ensures |s| <= n
    decreases n
  {
    if s != [] {
      assert s[0] in s;
      WithoutMembers(s, n - 1);
      WithoutLength(s, n - 1);
      hide NoDup, Without;
      AtMost(Without(s, n - 1), n - 1);
    }
  }

  lemma {:induction false} WithoutLength(s: seq<nat>, t: nat)
    ensures |s| <= |Without(s, t)| + 1
  {
    if s != [] && s[0] != t {
      WithoutLength(s[1..], t);
    }
  }

  // A zone that counts all its chunks as free has none handed out.
  lemma AllFree(z: Zone, page: nat, zoneSize: nat)
    requires ZoneOk(z, page, zoneSize)
    ensures z.nfree <= z.nmax && (z.nfree == z.nmax ==> forall i :: !Handed(z, i))
  {
    AtMost(z.free, z.uindex + 1);
    if z.nfree == z.nmax {
      forall i ensures !Handed(z, i) {
        if Handed(z, i) {
          FewerThan(z.free, z.uindex + 1, i);
        }
      }
    }
  }

  // Chunks lie behind the header, inside the zone, and do not overlap.
  lemma ChunkInZone(z: Zone, page: nat, zoneSize: nat, i: nat)
    requires ZoneOk(z, page, zoneSize) && i < z.nmax
    ensures page * PAGE + ZONE_HEADER <= Chunk(z, i) && Chunk(z, i) + z.size <= page * PAGE + zoneSize
  {
    hide ClassSize;
    Monotone(z.size, i + 1, z.nmax);
    Times(z.size, i);
    Commute(i + 1, z.size);
    Commute(z.nmax, z.size);
    Commute(i, z.size);
  }

  lemma Commute(a: nat, b: nat)
    ensures a * b == b * a
  {}

  lemma ChunksApart(z: Zone, i: nat, j: nat)
    requires i < j
    ensures Chunk(z, i) + z.size <= Chunk(z, j)
  {
    AtLeast(z.size, i, j);
    Commute(i, z.size);
    Commute(j, z.size);
  }

  // ---------- the lists of zones ----------

  ghost predicate HasRoom(zones: map<nat, Zone>, k: int, z: nat) {
    z in zones && zones[z].index == k && zones[z].nfree > 0
  }

  ghost predicate AnyRoom(zones: map<nat, Zone>, k: int) {
    exists z :: HasRoom(zones, k, z)
  }

  ghost predicate OtherRoom(zones: map<nat, Zone>, k: int, z: nat) {
    exists y :: y != z && HasRoom(zones, k, y)
  }

  // A zone in use is on the list of its class exactly while it has room; the zones
  // in reserve are not in use.
  ghost predicate ListsOk(zones: map<nat, Zone>, lists: seq<seq<nat>>, reserve: seq<nat>) {
    && |lists| == ZONES
    && (forall k :: 0 <= k < ZONES ==> NoDup(lists[k]))
    && (forall k, z :: 0 <= k < ZONES ==> (z in lists[k] <==> HasRoom(zones, k, z)))
    && NoDup(reserve) && forall z :: z in reserve ==> z !in zones
  }

  ghost predicate ZonesOk(zones: map<nat, Zone>, zoneSize: nat) {
    forall z :: z in zones ==> ZoneOk(zones[z], z, zoneSize)
  }

  lemma TailMembers(s: seq<nat>)
    requires s != [] && NoDup(s)
    ensures NoDup(s[1..]) && forall x :: x in s[1..] <==> x in s && x != s[0]
  {
    assert s == [s[0]] + s[1..];
    assert forall i :: 0 <= i < |s[1..]| ==> s[1..][i] == s[i + 1];
  }

  lemma FrontMembers(s: seq<nat>, x: nat)
    requires NoDup(s) && x !in s
    ensures NoDup([x] + s) && forall y :: y in [x] + s <==> y in s || y == x
  {}

  // A zone joins the list of its class at the front; the first zone, or a given one,
  // leaves it.
  function Listed(lists: seq<seq<nat>>, k: nat, z: nat): seq<seq<nat>> {
    if k < |lists| then lists[k := [z] + lists[k]] else lists
  }

  function FirstOff(lists: seq<seq<nat>>, k: nat): seq<seq<nat>> {
    if k < |lists| && lists[k] != [] then lists[k := lists[k][1..]] else lists
  }

  function Unlisted(lists: seq<seq<nat>>, k: nat, z: nat): seq<seq<nat>> {
    if k < |lists| then lists[k := Without(lists[k], z)] else lists
  }

  lemma PickedLists(zones: map<nat, Zone>, lists: seq<seq<nat>>, reserve: seq<nat>, k: nat)
    requires ListsOk(zones, lists, reserve) && k < ZONES && lists[k] != []
    ensures var z := lists[k][0];
            HasRoom(zones, k, z)
            && ListsOk(zones[z := Picked(zones[z])], if zones[z].nfree == 1 then lists[k := lists[k][1..]] else lists, reserve)
  {
    assert lists[k][0] in lists[k];
    TailMembers(lists[k]);
    hide NoDup, Pick;
  }

  lemma FreshLists(zones: map<nat, Zone>, lists: seq<seq<nat>>, reserve: seq<nat>, z: nat, x: Zone)
    requires ListsOk(zones, lists, reserve) && z !in zones && z !in reserve && x.index < ZONES && x.nfree > 0
    ensures |lists| == ZONES && z !in lists[x.index]
    ensures ListsOk(zones[z := x], lists[x.index := [z] + lists[x.index]], reserve)
  {
    assert !HasRoom(zones, x.index, z);
    FrontMembers(lists[x.index], z);
    hide NoDup;
  }

  lemma ReturnedLists(zones: map<nat, Zone>, lists: seq<seq<nat>>, reserve: seq<nat>, z: nat, i: nat)
    requires ListsOk(zones, lists, reserve) && z in zones && zones[z].index < ZONES
    ensures var k := zones[z].index;
            ListsOk(zones[z := Returned(zones[z], i)], if zones[z].nfree == 0 then lists[k := [z] + lists[k]] else lists, reserve)
  {
    var k := zones[z].index;
    if zones[z].nfree == 0 {
      assert !HasRoom(zones, k, z);
      FrontMembers(lists[k], z);
    }
    hide NoDup;
  }

  // An empty zone goes to the reserve.
  lemma RetiredLists(zones: map<nat, Zone>, lists: seq<seq<nat>>, reserve: seq<nat>, k: nat, z: nat)
    requires ListsOk(zones, lists, reserve) && k < ZONES && HasRoom(zones, k, z)
    ensures ListsOk(zones - {z}, lists[k := Without(lists[k], z)], [z] + reserve)
  {
    WithoutMembers(lists[k], z);
    FrontMembers(reserve, z);
    hide NoDup, Without;
  }

  lemma ExactQuotient(i: nat, size: nat)
    requires size > 0
    ensures i * size / size == i
  {
    SameQuotient(size, i * size / size, i * size % size, i);
  }

  lemma SameQuotient(m: nat, q: nat, r: nat, q': nat)
    requires m > 0 && r < m && m * q + r == m * q'
    ensures q == q'
  {
    if q < q' {
      AtLeast(m, q, q');
    } else if q' < q {
      AtLeast(m, q', q);
    }
  }

  // Zones in use do not move, and their chunks stay where they are.
  ghost predicate SamePlaces(before: map<nat, Zone>, after: map<nat, Zone>) {
    forall z :: z in before && z in after ==> after[z].base == before[z].base && after[z].size == before[z].size
  }

  lemma ListCount(zones: map<nat, Zone>, lists: seq<seq<nat>>, reserve: seq<nat>)
    requires ListsOk(zones, lists, reserve)
    ensures |lists| == ZONES
  {}

  lemma ChunkNumber(z: Zone, page: nat, zoneSize: nat, i: nat)
    requires ZoneOk(z, page, zoneSize)
    ensures z.size > 0 && z.index < ZONES && Chunk(z, i) >= z.base && (Chunk(z, i) - z.base) / z.size == i
  {
    assert z.size == ClassSize(z.index) > 0;
    hide ClassSize;
    ExactQuotient(i, z.size);
  }

  // The first zone of the reserve leaves it.
  lemma FromReserve(zones: map<nat, Zone>, lists: seq<seq<nat>>, reserve: seq<nat>)
    requires ListsOk(zones, lists, reserve) && reserve != []
    ensures reserve[0] !in zones && reserve[0] !in reserve[1..] && ListsOk(zones, lists, reserve[1..])
    ensures forall z :: z in reserve <==> z == reserve[0] || z in reserve[1..]
  {
    assert reserve[0] in reserve;
    TailMembers(reserve);
  }

  // A class has a zone with room exactly if its list is not empty.
  lemma RoomListed(zones: map<nat, Zone>, lists: seq<seq<nat>>, reserve: seq<nat>, k: nat)
    requires ListsOk(zones, lists, reserve) && k < ZONES
    ensures |lists| == ZONES
    ensures lists[k] != [] <==> AnyRoom(zones, k)
  {
    if lists[k] != [] {
      assert lists[k][0] in lists[k];
    }
  }

  // And another than z exactly if z is not all of it.
  lemma OthersListed(zones: map<nat, Zone>, lists: seq<seq<nat>>, reserve: seq<nat>, k: nat, z: nat)
    requires ListsOk(zones, lists, reserve) && k < ZONES && HasRoom(zones, k, z)
    ensures |lists| == ZONES
    ensures lists[k] != [z] <==> OtherRoom(zones, k, z)
  {
    var l := lists[k];
    assert z in l;
    assert |l| == 1 ==> l == [l[0]];
    if |l| > 1 {
      assert l[0] in l && l[1] in l;
    }
  }

  // What happens to z does not concern the others.
  lemma OthersSame(zones: map<nat, Zone>, zones': map<nat, Zone>, k: int, z: nat)
    requires z in zones && z in zones' && zones' == zones[z := zones'[z]]
    ensures OtherRoom(zones', k, z) <==> OtherRoom(zones, k, z)
  {
    if y :| y != z && HasRoom(zones, k, y) {
      assert HasRoom(zones', k, y);
    }
    if y :| y != z && HasRoom(zones', k, y) {
      assert HasRoom(zones, k, y);
    }
  }

  // Where chunk i of a zone is.
  lemma ChunkIs(z: Zone, page: nat, zoneSize: nat, i: nat)
    requires ZoneOk(z, page, zoneSize)
    ensures z.size > 0 && Chunk(z, i) == ChunkAt(page, z.size, i)
  {
    hide ClassSize, Offset;
  }
}
