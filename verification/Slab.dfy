/** rt_slab_init, rt_slab_alloc and rt_slab_free: small requests are met with chunks
    of zones, large ones with pages, and the page usage table tells a release which
    of the two a pointer is. */
module Slabs {
  import opened Bytes
  import opened Lists
  import opened Payloads
  import opened SlabClasses
  import opened SlabPages
  import opened SlabZones

  const RESERVE := 2   // ZONE_RELEASE_THRESH
  const USAGE_SIZE := 4   // sizeof(struct rt_slab_memusage)

  // An entry of the page usage table: a page of a zone, by its distance from the
  // first, or the first page of a large allocation.
  datatype Usage = Spare | Small(off: nat) | Large(count: nat)

  // What a client can hold: chunk i of zone z, or the pages from b on.
  datatype Held = ChunkOf(z: nat, i: nat) | PagesFrom(b: nat)

  // The pages a request needs when it is too large for a zone.
  function PagesFor(n: nat): nat {
    RoundUp(n, PAGE) / PAGE
  }

  // ---------- what the allocator keeps ----------

  // The zones by first page, zone_array, zone_free, the page list, large allocations
  // and their pages, and the counters.
  datatype Books = Books(zones: map<nat, Zone>, lists: seq<seq<nat>>, reserve: seq<nat>, runs: seq<Run>, large: map<nat, nat>, used: int, max: int)

  // A request that will not be refused.
  ghost predicate Meets(zoneSize: nat, a: Books, n: nat) {
    && n > 0
    && if n >= ZoneLimit(zoneSize) then LongRun(a.runs, PagesFor(n))
       else AnyRoom(a.zones, ZoneIndex(n)) || a.reserve != [] || LongRun(a.runs, zoneSize / PAGE)
  }

  // The page a request is met from: the first zone on the list of its class, if
  // there is one, else the newest in reserve, else the front of the first run that
  // is long enough.
  ghost function Serving(zoneSize: nat, a: Books, n: nat): nat {
    if n >= ZoneLimit(zoneSize) then FirstFit(a.runs, PagesFor(n))
    else if Roomy(a, n) then a.lists[ZoneIndex(n)][0]
    else if a.reserve != [] then a.reserve[0]
    else FirstFit(a.runs, zoneSize / PAGE)
  }

  ghost predicate Roomy(a: Books, n: nat) {
    0 <= ZoneIndex(n) < |a.lists| && a.lists[ZoneIndex(n)] != []
  }

  // How much a request gets.
  function ServedSize(zoneSize: nat, n: nat): nat {
    if n < ZoneLimit(zoneSize) then ChunkSize(n) else RoundUp(n, PAGE)
  }

  ghost predicate Counted(a: Books, b: Books, bytes: nat) {
    b.used == a.used + bytes && b.max == Larger(a.max, b.used)
  }

  // Pages for a large request.
  ghost predicate PagesTaken(a: Books, b: Books, p: nat, n: nat) {
    b.zones == a.zones && b.lists == a.lists && b.reserve == a.reserve && b.large == a.large[p := n] && Took(a.runs, b.runs, Run(p, n))
  }

  // A chunk of the first zone on list k, which leaves it with its last chunk.
  ghost predicate ChunkTaken(a: Books, b: Books, z: nat, k: nat) {
    && z in a.zones && a.zones[z].nfree > 0 && b.zones == a.zones[z := Picked(a.zones[z])]
    && b.lists == (if a.zones[z].nfree == 1 then FirstOff(a.lists, k) else a.lists)
    && b.reserve == a.reserve && b.runs == a.runs && b.large == a.large
  }

  // A zone from the reserve or the page list is set up for chunks of one size.
  ghost predicate ZoneMade(zoneSize: nat, a: Books, b: Books, z: nat, k: nat, size: nat) {
    && size > 0 && Offset(size) + size <= zoneSize
    && b.zones == a.zones[z := Fresh(z, k, size, zoneSize)] && b.lists == Listed(a.lists, k, z) && b.large == a.large
    && if a.reserve != [] then b.reserve == a.reserve[1..] && b.runs == a.runs
       else b.reserve == [] && Took(a.runs, b.runs, Run(z, zoneSize / PAGE))
  }

  // Request n is met with h.
  ghost predicate Grown(zoneSize: nat, a: Books, n: nat, h: Held, b: Books) {
    var z := Serving(zoneSize, a, n);
    && Counted(a, b, ServedSize(zoneSize, n))
    && if n >= ZoneLimit(zoneSize) then h == PagesFrom(z) && PagesTaken(a, b, z, PagesFor(n))
       else
         && ZoneIndex(n) >= 0
         && if Roomy(a, n) then z in a.zones && h == ChunkOf(z, Pick(a.zones[z])) && ChunkTaken(a, b, z, ZoneIndex(n))
            else h == ChunkOf(z, 0) && ZoneMade(zoneSize, a, b, z, ZoneIndex(n), ChunkSize(n))
  }

  // The zone has one chunk out, and another zone of its class has room.
  ghost predicate Retires(a: Books, z: nat) {
    z in a.zones && a.zones[z].nfree + 1 == a.zones[z].nmax && OtherRoom(a.zones, a.zones[z].index, z)
  }

  // A zone that had no room is listed again with the chunk that comes back.
  function Relisted(zones: map<nat, Zone>, lists: seq<seq<nat>>, z: nat): seq<seq<nat>>
    requires z in zones
  {
    if zones[z].nfree == 0 then Listed(lists, zones[z].index, z) else lists
  }

  // A chunk goes to its zone; a zone with nothing left out goes to the reserve, or to
  // the page list, unless it is the last of its class with room.
  ghost predicate ChunkBack(zoneSize: nat, a: Books, z: nat, i: nat, b: Books) {
    && z in a.zones && b.large == a.large
    && if !Retires(a, z) then
         b.zones == a.zones[z := Returned(a.zones[z], i)] && b.lists == Relisted(a.zones, a.lists, z) && b.reserve == a.reserve && b.runs == a.runs
       else
         && b.zones == a.zones - {z} && b.lists == Unlisted(Relisted(a.zones, a.lists, z), a.zones[z].index, z)
         && if |a.reserve| < RESERVE then b.reserve == [z] + a.reserve && b.runs == a.runs
            else b.reserve == a.reserve && Gave(a.runs, b.runs, Run(z, zoneSize / PAGE))
  }

  ghost predicate PagesBack(a: Books, p: nat, b: Books) {
    && p in a.large && b.large == a.large - {p} && b.zones == a.zones && b.lists == a.lists && b.reserve == a.reserve
    && Gave(a.runs, b.runs, Run(p, a.large[p]))
  }

  // What has been handed out and not come back, where it is and how large.
  ghost predicate IsLive(zones: map<nat, Zone>, large: map<nat, nat>, h: Held) {
    match h
    case ChunkOf(z, i) => z in zones && Handed(zones[z], i)
    case PagesFrom(b) => b in large
  }

  ghost function Place(zones: map<nat, Zone>, large: map<nat, nat>, h: Held): nat
    requires IsLive(zones, large, h)
  {
    match h case ChunkOf(z, i) => Chunk(zones[z], i) case PagesFrom(b) => b * PAGE
  }

  ghost function Extent(zones: map<nat, Zone>, large: map<nat, nat>, h: Held): nat
    requires IsLive(zones, large, h)
  {
    match h case ChunkOf(z, _) => zones[z].size case PagesFrom(b) => large[b] * PAGE
  }

  // h comes back.
  ghost predicate Shrunk(zoneSize: nat, a: Books, h: Held, b: Books) {
    && IsLive(a.zones, a.large, h) && b.used == a.used - Extent(a.zones, a.large, h) && b.max == a.max
    && match h case ChunkOf(z, i) => ChunkBack(zoneSize, a, z, i, b) case PagesFrom(p) => PagesBack(a, p, b)
  }

  // ---------- parcels of pages ----------

  // Every parcel, from its first page on, has been taken from the page list.
  ghost predicate PagesOk(region: Run, free: seq<Run>, out: seq<Run>, parcels: map<nat, nat>) {
    Shared(region, free, out) && forall b :: b in parcels ==> Run(b, parcels[b]) in out
  }

  // Pages b to b + n - 1 are clear of every other parcel.
  ghost predicate ClearOf(parcels: map<nat, nat>, b: nat, n: nat) {
    forall c :: c in parcels && c != b ==> parcels[c] > 0 && (c + parcels[c] <= b || b + n <= c)
  }

  lemma OneHolder(region: Run, free: seq<Run>, out: seq<Run>, i: nat, j: nat, p: nat)
    requires Shared(region, free, out) && i < |out| && j < |out| && i != j
    ensures !(out[i].Holds(p) && out[j].Holds(p))
  {
    if i < j {
      assert out[i].Holds(p) ==> !out[j].Holds(p);
    } else {
      assert out[j].Holds(p) ==> !out[i].Holds(p);
    }
  }

  lemma ParcelsApart(region: Run, free: seq<Run>, out: seq<Run>, parcels: map<nat, nat>, b: nat)
    requires PagesOk(region, free, out, parcels) && b in parcels
    ensures parcels[b] > 0 && ClearOf(parcels, b, parcels[b])
  {
    var i :| 0 <= i < |out| && out[i] == Run(b, parcels[b]);
    forall c | c in parcels && c != b ensures parcels[c] > 0 && (c + parcels[c] <= b || b + parcels[b] <= c) {
      var j :| 0 <= j < |out| && out[j] == Run(c, parcels[c]);
      assert out[i] in out && out[j] in out && out[i].Holds(b) && out[j].Holds(c);
      OneHolder(region, free, out, i, j, c);
      OneHolder(region, free, out, j, i, b);
    }
  }

  // Pages found free are clear of all parcels and can become one.
  lemma NewParcel(region: Run, before: seq<Run>, after: seq<Run>, out: seq<Run>, parcels: map<nat, nat>, b: nat, n: nat)
    requires PagesOk(region, before, out, parcels) && n > 0
    requires FirstLong(before, n, b) && Took(before, after, Run(b, n))
    ensures b !in parcels && ClearOf(parcels, b, n)
    ensures PagesOk(region, after, out + [Run(b, n)], parcels[b := n])
  {
    var r := Run(b, n);
    FirstLongFree(before, n, b);
    TakenShared(region, before, after, out, n, b);
    forall c | c in parcels ensures c != b && parcels[c] > 0 && (c + parcels[c] <= b || b + n <= c) {
      var x := Run(c, parcels[c]);
      assert x in out && x.len > 0;
      assert x.Holds(c) && r.Holds(b);
      assert r.Holds(c) ==> Free(before, c);
      assert x.Holds(b) ==> Free(out, b);
      assert Free(out, c);
    }
    hide Shared;
    assert forall x :: x in out ==> x in out + [r];
    assert r in out + [r];
  }

  lemma WhereParcel(region: Run, free: seq<Run>, out: seq<Run>, parcels: map<nat, nat>, b: nat) returns (k: nat)
    requires PagesOk(region, free, out, parcels) && b in parcels
    ensures k < |out| && out[k] == Run(b, parcels[b]) && Disjoint(free, out[k]) && out[k].len > 0
  {
    k :| 0 <= k < |out| && out[k] == Run(b, parcels[b]);
    OutDisjoint(region, free, out, k);
  }

  // A parcel goes back to the page list.
  lemma ParcelGone(region: Run, before: seq<Run>, after: seq<Run>, out: seq<Run>, parcels: map<nat, nat>, b: nat, k: nat)
    requires PagesOk(region, before, out, parcels) && b in parcels
    requires k < |out| && out[k] == Run(b, parcels[b]) && Gave(before, after, out[k])
    ensures PagesOk(region, after, Cut(out, k), parcels - {b})
  {
    GivenShared(region, before, after, out, k);
    hide Shared;
    forall c | c in parcels - {b} ensures Run(c, parcels[c]) in Cut(out, k) {
      var j :| 0 <= j < |out| && out[j] == Run(c, parcels[c]);
      assert j != k;
      assert Cut(out, k)[if j < k then j else j - 1] == out[j];
    }
  }

  // ---------- the page usage table ----------

  // What the table says of a parcel.
  ghost predicate Tells(usage: map<nat, Usage>, b: nat, n: nat, big: bool) {
    if big then b in usage && usage[b] == Large(n)
    else forall p :: b <= p < b + n ==> p in usage && usage[p] == Small(p - b)
  }

  ghost predicate Spares(usage: map<nat, Usage>, b: nat, n: nat) {
    forall p :: b <= p < b + n ==> p in usage && usage[p] == Spare
  }

  ghost predicate UsageOk(usage: map<nat, Usage>, parcels: map<nat, nat>, large: set<nat>) {
    forall b :: b in parcels ==> Tells(usage, b, parcels[b], b in large)
  }

  ghost predicate SameElsewhere(u: map<nat, Usage>, u': map<nat, Usage>, b: nat, n: nat) {
    forall p :: !(b <= p < b + n) && p in u ==> p in u' && u'[p] == u[p]
  }

  lemma TellsStill(u: map<nat, Usage>, u': map<nat, Usage>, b: nat, n: nat, c: nat, m: nat, big: bool)
    requires Tells(u, c, m, big) && SameElsewhere(u, u', b, n) && m > 0 && (c + m <= b || b + n <= c)
    ensures Tells(u', c, m, big)
  {}

  lemma UsageGrown(u: map<nat, Usage>, u': map<nat, Usage>, parcels: map<nat, nat>, large: set<nat>, b: nat, n: nat, big: bool)
    requires UsageOk(u, parcels, large) && b !in parcels && b !in large && ClearOf(parcels, b, n)
    requires SameElsewhere(u, u', b, n) && Tells(u', b, n, big)
    ensures UsageOk(u', parcels[b := n], if big then large + {b} else large)
  {
    hide Tells, SameElsewhere;
    forall c | c in parcels && c != b ensures Tells(u', c, parcels[c], c in large) {
      TellsStill(u, u', b, n, c, parcels[c], c in large);
    }
  }

  lemma UsageShrunk(u: map<nat, Usage>, u': map<nat, Usage>, parcels: map<nat, nat>, large: set<nat>, b: nat, n: nat)
    requires UsageOk(u, parcels, large) && ClearOf(parcels, b, n) && SameElsewhere(u, u', b, n)
    ensures UsageOk(u', parcels - {b}, large - {b})
  {
    hide Tells, SameElsewhere;
    forall c | c in parcels && c != b ensures Tells(u', c, parcels[c], c in large) {
      TellsStill(u, u', b, n, c, parcels[c], c in large);
    }
  }

  // ---------- zones and large allocations are different parcels ----------

  ghost predicate PartsOk(zones: map<nat, Zone>, reserve: seq<nat>, large: set<nat>, parcels: map<nat, nat>, zonePages: nat) {
    && (forall z :: z in zones || z in reserve ==> z in parcels && parcels[z] == zonePages && z !in large)
    && (forall b :: b in large ==> b in parcels)
  }

  lemma LargePart(zones: map<nat, Zone>, reserve: seq<nat>, large: map<nat, nat>, parcels: map<nat, nat>, zonePages: nat, b: nat, n: nat)
    requires PartsOk(zones, reserve, large.Keys, parcels, zonePages) && b !in parcels
    ensures PartsOk(zones, reserve, large[b := n].Keys, parcels[b := n], zonePages) && b !in large && SameSizes(large, large[b := n])
  {}

  lemma ZonePart(zones: map<nat, Zone>, reserve: seq<nat>, large: set<nat>, parcels: map<nat, nat>, zonePages: nat, z: nat, x: Zone)
    requires PartsOk(zones, reserve, large, parcels, zonePages) && z in parcels && parcels[z] == zonePages && z !in large && z !in zones
    ensures PartsOk(zones[z := x], reserve, large, parcels, zonePages) && SamePlaces(zones, zones[z := x])
  {}

  lemma RetiredPart(zones: map<nat, Zone>, reserve: seq<nat>, large: set<nat>, parcels: map<nat, nat>, zonePages: nat, z: nat)
    requires PartsOk(zones, reserve, large, parcels, zonePages) && z in zones && z !in reserve
    ensures PartsOk(zones - {z}, [z] + reserve, large, parcels, zonePages) && z in parcels && parcels[z] == zonePages
    ensures PartsOk(zones - {z}, reserve, large, parcels - {z}, zonePages) && z !in large
  {}

  // Large allocations do not change size.
  ghost predicate SameSizes(before: map<nat, nat>, after: map<nat, nat>) {
    forall b :: b in before && b in after ==> after[b] == before[b]
  }

  class Slab {
    const zoneSize: nat
    const region: Run
    const pages: PageList
    var zones: map<nat, Zone>       // by first page
    var lists: seq<seq<nat>>        // zone_array
    var reserve: seq<nat>           // zone_free
    var usage: map<nat, Usage>      // memusage, by page
    var used: int
    var max: int
    ghost var large: map<nat, nat>   // large allocations and their pages
    ghost var parcels: map<nat, nat>
    ghost var out: seq<Run>

    ghost function Now(): Books
      reads this, pages
    {
      Books(zones, lists, reserve, pages.runs, large, used, max)
    }

    ghost predicate BooksOk()
      reads this, pages
    {
      && pages.Valid() && PagesOk(region, pages.runs, out, parcels) && UsageOk(usage, parcels, large.Keys)
      && forall b :: b in large ==> b in parcels && parcels[b] == large[b]
    }

    ghost predicate ZonesRight()
      reads this
    {
      ListsOk(zones, lists, reserve) && ZonesOk(zones, zoneSize) && |reserve| <= RESERVE
    }

    ghost predicate Parts()
      reads this
    {
      PartsOk(zones, reserve, large.Keys, parcels, zoneSize / PAGE)
    }

    ghost predicate Valid()
      reads this, pages
    {
      zoneSize in {32768, 65536, 131072} && BooksOk() && ZonesRight() && Parts() && used <= max
    }

    ghost predicate Live(h: Held)
      reads this
    {
      IsLive(zones, large, h)
    }

    ghost function Start(h: Held): nat
    {
      match h case ChunkOf(z, _) => z case PagesFrom(b) => b
    }

    ghost function At(h: Held): nat
      requires Live(h)
      reads this
    {
      Place(zones, large, h)
    }

    ghost function Size(h: Held): nat
      requires Live(h)
      reads this
    {
      Extent(zones, large, h)
    }

    // Whatever a client goes on holding stays where it is.
    twostate predicate Undisturbed()
      reads this
    {
      SamePlaces(old(zones), zones) && SameSizes(old(large), large)
    }

    // A list of pages some of which may already be taken.
    constructor (zoneSize: nat, region: Run, pages: PageList, ghost taken: seq<Run>)
      requires zoneSize in {32768, 65536, 131072} && pages.Valid() && Shared(region, pages.runs, taken)
      ensures Valid() && zones == map[] && large == map[] && reserve == [] && used == max == 0
      ensures this.pages == pages && this.zoneSize == zoneSize && this.region == region
      ensures forall k :: 0 <= k < |lists| ==> lists[k] == []
    {
      hide Shared, Canonical;
      this.zoneSize, this.region, this.pages := zoneSize, region, pages;
      zones, lists, reserve, usage := map[], seq(ZONES, _ => []), [], map[];
      large, parcels, out := map[], map[], taken;
      used, max := 0, 0;
    }

    // ---------- pages ----------

    // The usage entries of a zone.
    method MarkZone(b: nat, n: nat, freed: bool)
      modifies `usage
      ensures SameElsewhere(old(usage), usage, b, n)
      ensures if freed then Spares(usage, b, n) else Tells(usage, b, n, false)
    {
      for i := 0 to n
        invariant SameElsewhere(old(usage), usage, b, n)
        invariant !freed ==> forall p :: b <= p < b + i ==> p in usage && usage[p] == Small(p - b)
        invariant freed ==> Spares(usage, b, i)
      {
        usage := usage[b + i := if freed then Spare else Small(i)];
      }
    }

    method TakePages(n: nat, big: bool) returns (b: Option<nat>)
      requires BooksOk() && n > 0
      modifies `usage, `large, `parcels, `out, pages
      ensures BooksOk()
      ensures b == None <==> !LongRun(old(pages.runs), n)
      ensures b == None ==> usage == old(usage) && parcels == old(parcels) && large == old(large) && out == old(out) && pages.runs == old(pages.runs)
      ensures b.Some? ==> FirstLong(old(pages.runs), n, b.value) && Took(old(pages.runs), pages.runs, Run(b.value, n))
      ensures b.Some? ==> b.value !in old(parcels) && parcels == old(parcels)[b.value := n]
      ensures b.Some? ==> large == if big then old(large)[b.value := n] else old(large)
    {
      hide Shared, Canonical, Chained, FirstLong, Took, UsageOk, PagesOk, ClearOf, Tells, SameElsewhere;
      ghost var runs, u := pages.runs, usage;
      b := pages.Alloc(n);
      if b.Some? {
        NewParcel(region, runs, pages.runs, out, parcels, b.value, n);
        if big {
          usage := usage[b.value := Large(n)];
          OneEntry(u, b.value, n);
        } else {
          MarkZone(b.value, n, false);
        }
        UsageGrown(u, usage, parcels, large.Keys, b.value, n, big);
        out := out + [Run(b.value, n)];
        parcels := parcels[b.value := n];
        if big {
          assert large[b.value := n].Keys == large.Keys + {b.value};
          large := large[b.value := n];
        }
      }
    }

    method GivePages(b: nat, n: nat, big: bool)
      requires BooksOk() && b in parcels && n == parcels[b]
      modifies `usage, `large, `parcels, `out, pages
      ensures BooksOk() && parcels == old(parcels) - {b} && large == old(large) - {b}
      ensures Gave(old(pages.runs), pages.runs, Run(b, n))
      ensures big ==> usage == old(usage)[b := Large(0)]
      ensures !big ==> SameElsewhere(old(usage), usage, b, n) && Spares(usage, b, n)
    {
      hide Shared, Canonical, Chained, Gave, UsageOk, PagesOk, ClearOf, Tells, SameElsewhere, Disjoint, Spares;
      ghost var runs, u := pages.runs, usage;
      ParcelsApart(region, runs, out, parcels, b);
      ghost var k := WhereParcel(region, runs, out, parcels, b);
      if big {
        usage := usage[b := Large(0)];
        OneEntryGone(u, b, n);
      } else {
        MarkZone(b, n, true);
      }
      pages.Release(b, n);
      ParcelGone(region, runs, pages.runs, out, parcels, b, k);
      UsageShrunk(u, usage, parcels, large.Keys, b, n);
      assert (large - {b}).Keys == large.Keys - {b};
      out := Cut(out, k);
      parcels, large := parcels - {b}, large - {b};
    }

    // ---------- allocation ----------

    // A request that will not be refused.
    ghost predicate Serves(n: nat)
      reads this, pages
    {
      Meets(zoneSize, Now(), n)
    }

    twostate predicate Nothing()
      reads this, pages
    {
      && zones == old(zones) && lists == old(lists) && reserve == old(reserve) && usage == old(usage) && large == old(large)
      && parcels == old(parcels) && pages.runs == old(pages.runs) && used == old(used) && max == old(max)
    }

    // h is new, and everything else held is as before.
    twostate predicate Gained(h: Held)
      reads this
    {
      !old(Live(h)) && Live(h) && (forall g :: Live(g) <==> old(Live(g)) || g == h) && Undisturbed()
    }

    // The part of rt_slab_alloc that takes a chunk from a zone with room.
    method TakeChunk(k: nat) returns (z: nat, i: nat)
      requires ZonesRight() && k < ZONES && lists[k] != []
      modifies `zones, `lists
      ensures ZonesRight() && zones.Keys == old(zones.Keys) && SamePlaces(old(zones), zones)
      // from the first zone on the list of the class, which leaves it when full
      ensures z == old(lists)[k][0] && z in old(zones) && i == Pick(old(zones)[z]) && ChunkTaken(old(Now()), Now(), z, k)
      ensures lists == if old(zones)[z].nfree == 1 then old(lists)[k := old(lists)[k][1..]] else old(lists)
      ensures z in zones && zones[z].index == k && zones[z].size == ClassSize(k)
      ensures !old(Live(ChunkOf(z, i))) && forall g :: Live(g) <==> old(Live(g)) || g == ChunkOf(z, i)
    {
      hide ClassSize, NoDup, Picked;
      PickedLists(zones, lists, reserve, k);
      z := lists[k][0];
      var x := zones[z];
      assert |lists| == ZONES;
      PickOk(x, z, zoneSize);
      hide ListsOk, ZoneOk, Handed;
      i := Pick(x);
      if x.nfree - 1 == 0 {
        lists := lists[k := lists[k][1..]];
      }
      zones := zones[z := Picked(x)];
    }

    // The pages of a new zone: the newest in reserve, or pages from the list.
    method ZonePages() returns (z: Option<nat>)
      requires Valid()
      modifies this, pages
      ensures Valid() && zones == old(zones) && lists == old(lists) && large == old(large) && used == old(used) && max == old(max)
      ensures z == None <==> old(reserve) == [] && !LongRun(old(pages.runs), zoneSize / PAGE)
      ensures z == None ==> Nothing()
      ensures z.Some? ==> z.value !in zones && z.value !in reserve && z.value !in large
      ensures z.Some? ==> z.value in parcels && parcels[z.value] == zoneSize / PAGE
      ensures z.Some? && old(reserve) != [] ==> z.value == old(reserve)[0] && reserve == old(reserve)[1..] && pages.runs == old(pages.runs)
      ensures z.Some? && old(reserve) == [] ==>
                && reserve == [] && FirstLong(old(pages.runs), zoneSize / PAGE, z.value)
                && Took(old(pages.runs), pages.runs, Run(z.value, zoneSize / PAGE))
    {
      hide PagesOk, UsageOk, Canonical, Chained, ListsOk, ZonesOk, FirstLong, Took;
      if reserve != [] {
        FromReserve(zones, lists, reserve);
        z := Some(reserve[0]);
        reserve := reserve[1..];
      } else {
        z := TakePages(zoneSize / PAGE, false);
      }
    }

    // The part of rt_slab_alloc that sets up a zone.
    method NewZone(k: nat, size: nat) returns (z: Option<nat>)
      requires Valid() && k < ZONES && lists[k] == [] && size == ClassSize(k) > 0
      requires Offset(size) >= ZONE_HEADER && Offset(size) + 2 * size <= zoneSize
      modifies this, pages
      ensures Valid() && large == old(large) && used == old(used) && max == old(max)
      ensures z == None <==> old(reserve) == [] && !LongRun(old(pages.runs), zoneSize / PAGE)
      ensures z == None ==> Nothing()
      ensures z.Some? ==> z.value in zones && zones[z.value].index == k && zones[z.value].size == size && Gained(ChunkOf(z.value, 0))
      ensures z.Some? ==> ZoneMade(zoneSize, old(Now()), Now(), z.value, k, size)
      ensures z.Some? && old(reserve) != [] ==> z.value == old(reserve)[0]
      ensures z.Some? && old(reserve) == [] ==> FirstLong(old(pages.runs), zoneSize / PAGE, z.value)
    {
      hide PartsOk, SamePlaces, PagesOk, UsageOk, Canonical, Chained, ListsOk, FirstLong, LongRun, ClassSize, Offset, Handed,
        ZoneOk, Took;
      z := ZonePages();
      if z.Some? {
        var x := Fresh(z.value, k, size, zoneSize);
        FreshOk(z.value, k, size, zoneSize);
        FreshLists(zones, lists, reserve, z.value, x);
        ZonePart(zones, reserve, large.Keys, parcels, zoneSize / PAGE, z.value, x);
        zones := zones[z.value := x];
        lists := lists[k := [z.value] + lists[k]];
      }
    }

    method Charge(bytes: nat)
      requires used <= max
      modifies `used, `max
      ensures used == old(used) + bytes && max == Larger(old(max), used)
    {
      used := used + bytes;
      if used > max {
        max := used;
      }
    }

    // A chunk of a zone with room, and its bytes counted.
    method FromZone(k: nat, size: nat) returns (p: nat, ghost h: Held)
      requires Valid() && k < ZONES && lists[k] != [] && size == ClassSize(k)
      modifies `zones, `lists, `used, `max
      ensures Valid() && Gained(h) && p == At(h) && Size(h) == size && Counted(old(Now()), Now(), size)
      ensures var z := old(lists)[k][0]; z in old(zones) && h == ChunkOf(z, Pick(old(zones)[z])) && ChunkTaken(old(Now()), Now(), z, k)
    {
      hide ClassSize, Handed, ListsOk, ZonesOk, PagesOk, UsageOk, Canonical, Chained, SamePlaces;
      var z, i := TakeChunk(k);
      h := ChunkOf(z, i);
      p := Chunk(zones[z], i);
      Charge(size);
    }

    // The first chunk of a new zone.
    method FromNewZone(k: nat, size: nat) returns (p: Option<nat>, ghost h: Held)
      requires Valid() && k < ZONES && lists[k] == [] && size == ClassSize(k) > 0
      requires Offset(size) >= ZONE_HEADER && Offset(size) + 2 * size <= zoneSize
      modifies this, pages
      ensures Valid() && (p == None <==> old(reserve) == [] && !LongRun(old(pages.runs), zoneSize / PAGE))
      ensures p == None ==> Nothing()
      ensures p.Some? ==> Gained(h) && p.value == At(h) && Size(h) == size && Counted(old(Now()), Now(), size)
      ensures p.Some? ==>
                var z := if old(reserve) != [] then old(reserve)[0] else FirstFit(old(pages.runs), zoneSize / PAGE);
                h == ChunkOf(z, 0) && ZoneMade(zoneSize, old(Now()), Now(), z, k, size)
    {
      hide ClassSize, Offset, Handed, ListsOk, ZonesOk, PagesOk, UsageOk, Canonical, Chained, FirstLong, LongRun, Took,
        FirstFit, SamePlaces, Fresh, Listed;
      h := PagesFrom(0);
      var z := NewZone(k, size);
      if z.Some? {
        FirstFits(old(reserve), old(pages.runs), zoneSize / PAGE, z.value);
        h := ChunkOf(z.value, 0);
        p := Some(Chunk(zones[z.value], 0));
        Charge(size);
      } else {
        p := None;
      }
    }

    // rt_slab_alloc of a request below the zone limit.
    method AllocChunk(n: nat) returns (p: Option<nat>, ghost h: Held)
      requires Valid() && 0 < n < ZoneLimit(zoneSize)
      modifies this, pages
      ensures Valid()
      ensures p.Some? <==> old(Serves(n))
      ensures p == None ==> Nothing()
      ensures p.Some? ==> h.ChunkOf? && Gained(h) && p.value == At(h) && Size(h) == ChunkSize(n)
      ensures p.Some? ==> Grown(zoneSize, old(Now()), n, h, Now())
    {
      hide ZoneIndex, ChunkSize, ClassSize, Offset, ListsOk, ZonesOk, BooksOk, Parts, AnyRoom, LongRun, FirstFit, Gained,
        ChunkTaken, ZoneMade;
      LimitIs(zoneSize);
      hide ZoneLimit;
      SmallestClass(n);
      TwoChunksFit(zoneSize, n);
      var k, size := ZoneIndex(n), ChunkSize(n);
      RoomListed(zones, lists, reserve, k);
      h := PagesFrom(0);
      if lists[k] != [] {
        var q;
        q, h := FromZone(k, size);
        p := Some(q);
      } else {
        p, h := FromNewZone(k, size);
      }
    }

    // rt_slab_alloc of a larger one.
    method AllocPages(n: nat) returns (p: Option<nat>, ghost h: Held)
      requires Valid() && n >= ZoneLimit(zoneSize)
      modifies this, pages
      ensures Valid()
      ensures p.Some? <==> old(Serves(n))
      ensures p == None ==> Nothing()
      ensures p.Some? ==> h.PagesFrom? && Gained(h) && p.value == At(h) && Size(h) == RoundUp(n, PAGE)
      ensures p.Some? ==> Grown(zoneSize, old(Now()), n, h, Now())
    {
      hide PartsOk, SamePlaces, SameSizes, FirstFit, PagesFor, RoundUp, ZoneLimit, Handed, ListsOk, ZonesOk, PagesOk,
        UsageOk, Canonical, Chained, FirstLong, Took, LongRun;
      LimitIs(zoneSize);
      PagesForIs(n, zoneSize);
      h := PagesFrom(0);
      var b := TakePages(PagesFor(n), true);
      if b.Some? {
        FirstFitIs(old(pages.runs), PagesFor(n), b.value);
        LargePart(zones, reserve, old(large), old(parcels), zoneSize / PAGE, b.value, PagesFor(n));
        NothingMoved(zones);
        h := PagesFrom(b.value);
        p := Some(b.value * PAGE);
        Charge(RoundUp(n, PAGE));
      } else {
        p := None;
      }
    }

    // rt_slab_alloc: null exactly if nothing is asked for or nothing is left, else
    // something that nobody has, large enough; and what becomes of the promise that
    // powers of two are aligned.
    method Alloc(n: nat) returns (p: Option<nat>, ghost h: Held)
      requires Valid()
      modifies this, pages
      ensures Valid()
      ensures p.Some? <==> old(Serves(n))
      ensures p == None ==> Nothing()
      ensures p.Some? ==> Gained(h) && p.value == At(h) && Start(h) == old(Serving(zoneSize, Now(), n))
      ensures p.Some? ==> n <= Size(h) == ServedSize(zoneSize, n) && Grown(zoneSize, old(Now()), n, h, Now())
      ensures p.Some? ==> used == old(used) + Size(h) && max == Larger(old(max), used)
      // chunks up to 8 or 16 KB, and whole pages from there on
      ensures p.Some? && n >= (if zoneSize == 32768 then 8192 else 16384) ==> h.PagesFrom? && Size(h) % 4096 == 0 && Size(h) < n + 4096
      ensures p.Some? && n < (if zoneSize == 32768 then 8192 else 16384) ==> h.ChunkOf? && Size(h) == ChunkSize(n)
      // powers of two: aligned up to the page size, and beyond it exactly if the page
      // that serves is
      ensures p.Some? && PowerOfTwo(n) && n <= PAGE ==> Aligned(p.value, n)
      ensures p.Some? && PowerOfTwo(n) && n > PAGE ==> (Aligned(p.value, n) <==> Aligned(old(Serving(zoneSize, Now(), n)) * PAGE, n))
    {
      hide PowerOfTwo, Aligned, ZoneIndex, ChunkSize, RoundUp, ZoneLimit, PagesFor, BooksOk, ZonesRight, Parts, FirstLong,
        LongRun, Undisturbed, Serving, Roomy;
      h := PagesFrom(0);
      LimitIs(zoneSize);
      if n == 0 {
        p := None;
      } else if n >= ZoneLimit(zoneSize) {
        p, h := AllocPages(n);
        RoundUpBounds(n, PAGE);
      } else {
        p, h := AllocChunk(n);
        RoomyClass(n);
        if p.Some? {
          ZoneOf(h.z);
          ChunkIs(zones[h.z], h.z, zoneSize, h.i);
          if PowerOfTwo(n) {
            ChunkAligned(h.z, n, zones[h.z].size, h.i);
          }
        }
      }
    }

    lemma NothingMoved(zones: map<nat, Zone>)
      ensures SamePlaces(zones, zones)
    {}

    lemma ZoneOf(z: nat)
      requires ZonesRight() && z in zones
      ensures ZoneOk(zones[z], z, zoneSize) && zones[z].index < ZONES
    {}

    // ---------- release ----------

    // h is gone, and everything else held is as before.
    twostate predicate Lost(h: Held)
      reads this
    {
      old(Live(h)) && (forall g :: Live(g) <==> old(Live(g)) && g != h) && Undisturbed()
    }

    // The chunk goes to the front of its zone's free list.
    method GiveBack(z: nat, ptr: nat, ghost i: nat)
      requires ZonesRight() && Live(ChunkOf(z, i)) && ptr == Chunk(zones[z], i)
      modifies `zones, `lists
      ensures ZonesRight() && zones == old(zones)[z := Returned(old(zones)[z], i)]
      ensures zones[z].index < ZONES && HasRoom(zones, zones[z].index, z)
      ensures lists == Relisted(old(zones), old(lists), z)
      ensures forall g :: Live(g) <==> old(Live(g)) && g != ChunkOf(z, i)
    {
      hide ClassSize, NoDup;
      var x := zones[z];
      ReturnOk(x, z, zoneSize, i);
      ReturnedLists(zones, lists, reserve, z, i);
      ChunkNumber(x, z, zoneSize, i);
      ListCount(zones, lists, reserve);
      hide ZoneOk, Handed, ListsOk;
      var c := (ptr - x.base) / x.size;
      zones := zones[z := x.(free := [c] + x.free, nfree := x.nfree + 1)];
      if x.nfree == 0 {
        lists := lists[x.index := [z] + lists[x.index]];
      }
    }

    // An empty zone that is not the last of its class goes to the reserve, and from
    // there, if the reserve has grown too long, to the page list.
    method Retire(z: nat)
      requires Valid() && z in zones && zones[z].nfree == zones[z].nmax > 0
      modifies this, pages
      ensures Valid() && zones == old(zones) - {z} && large == old(large) && used == old(used) && max == old(max)
      ensures forall g :: Live(g) <==> old(Live(g))
      ensures lists == Unlisted(old(lists), old(zones)[z].index, z)
      ensures if |old(reserve)| < RESERVE then reserve == [z] + old(reserve) && pages.runs == old(pages.runs)
              else reserve == old(reserve) && Gave(old(pages.runs), pages.runs, Run(z, zoneSize / PAGE))
      ensures if |old(reserve)| < RESERVE then usage == old(usage)
              else SameElsewhere(old(usage), usage, z, zoneSize / PAGE) && Spares(usage, z, zoneSize / PAGE)
    {
      hide PartsOk, PagesOk, UsageOk, Canonical, Chained, ClassSize, NoDup, Gave, ListsOk, ZoneOk, Handed, SameElsewhere, Spares;
      ZoneOf(z);
      AllFree(zones[z], z, zoneSize);
      var k := zones[z].index;
      RetiredLists(zones, lists, reserve, k, z);
      NotInReserve(zones, lists, reserve, z);
      RetiredPart(zones, reserve, large.Keys, parcels, zoneSize / PAGE, z);
      ListCount(zones, lists, reserve);
      lists := lists[k := Without(lists[k], z)];
      zones := zones - {z};
      reserve := [z] + reserve;
      if |reserve| > RESERVE {
        var page := reserve[0];
        FromReserve(zones, lists, reserve);
        reserve := reserve[1..];
        assert reserve == old(reserve);
        GivePages(page, zoneSize / PAGE, false);
        assert large == old(large);
      }
    }

    // rt_slab_free of chunk i of zone z.
    method FreeChunk(z: nat, ptr: nat, ghost i: nat)
      requires Valid() && Live(ChunkOf(z, i)) && ptr == Chunk(zones[z], i)
      modifies this, pages
      ensures Valid() && Lost(ChunkOf(z, i)) && Shrunk(zoneSize, old(Now()), ChunkOf(z, i), Now())
      ensures if !old(Retires(Now(), z)) || |old(reserve)| < RESERVE then usage == old(usage)
              else SameElsewhere(old(usage), usage, z, zoneSize / PAGE) && Spares(usage, z, zoneSize / PAGE)
    {
      hide SameElsewhere, Spares, PagesOk, UsageOk, Canonical, Chained, ListsOk, ZonesOk, Handed, Gave, Retires, Relisted, Listed, Unlisted,
        SamePlaces, Returned;
      ghost var a := Now();
      used := used - zones[z].size;
      GiveBack(z, ptr, i);
      var x := zones[z];
      ReturnedKeeps(a.zones, z, i);
      WhenRetired(a, zones, lists, z, i);
      if x.nfree == x.nmax && lists[x.index] != [z] {
        Retire(z);
      }
    }

    lemma ReturnedKeeps(zones: map<nat, Zone>, z: nat, i: nat)
      requires z in zones
      ensures SamePlaces(zones, zones[z := Returned(zones[z], i)]) && SamePlaces(zones, zones[z := Returned(zones[z], i)] - {z})
      ensures zones[z := Returned(zones[z], i)] - {z} == zones - {z}
    {}

    // The test in rt_slab_free.
    lemma WhenRetired(a: Books, zones: map<nat, Zone>, lists: seq<seq<nat>>, z: nat, i: nat)
      requires z in a.zones && zones == a.zones[z := Returned(a.zones[z], i)] && ListsOk(zones, lists, a.reserve)
      requires zones[z].index < ZONES && HasRoom(zones, zones[z].index, z)
      ensures zones[z].index < |lists| && zones[z].index == a.zones[z].index && zones[z].nmax == a.zones[z].nmax
      ensures Retires(a, z) <==> zones[z].nfree == zones[z].nmax && lists[zones[z].index] != [z]
    {
      hide ListsOk, OtherRoom;
      OthersSame(a.zones, zones, zones[z].index, z);
      OthersListed(zones, lists, a.reserve, zones[z].index, z);
    }

    method FreePages(b: nat, count: nat)
      requires Valid() && b in large && count == large[b]
      modifies this, pages
      ensures Valid() && Lost(PagesFrom(b)) && Shrunk(zoneSize, old(Now()), PagesFrom(b), Now())
      ensures usage == old(usage)[b := Large(0)]
    {
      hide PagesOk, UsageOk, Canonical, Chained, ListsOk, ZonesOk, Handed, Gave;
      used := used - count * PAGE;
      GivePages(b, count, true);
    }

    // The usage entry of the page a pointer is in tells what to release.
    lemma Locate(h: Held)
      requires Valid() && Live(h)
      ensures var page := At(h) / PAGE;
              && page in usage
              && match h
                 case ChunkOf(z, _) => usage[page].Small? && page - usage[page].off == z
                 case PagesFrom(b) => page == b && usage[page] == Large(large[b])
    {
      match h {
        case ChunkOf(z, i) =>
          ZoneOf(z);
          hide ListsOk, Canonical, Chained, PagesOk;
          PageOfChunk(zones[z], z, zoneSize, i);
          hide ZonesOk, ZoneOk, Handed;
          assert Tells(usage, z, zoneSize / PAGE, false);
        case PagesFrom(b) =>
          hide ListsOk, Canonical, Chained, PagesOk, ZonesOk;
          assert Tells(usage, b, parcels[b], true);
      }
    }

    lemma ZoneListed(h: Held)
      requires Valid() && Live(h)
      ensures h.ChunkOf? ==> h.z in zones && zones[h.z].index < |lists|
    {
      if h.ChunkOf? {
        ZoneOf(h.z);
      }
    }

    // rt_slab_free.
    method Free(p: Option<nat>, ghost h: Held)
      requires Valid() && (p.Some? ==> Live(h) && p.value == At(h))
      modifies this, pages
      ensures Valid()
      ensures p == None ==> Nothing()
      ensures p.Some? ==> Lost(h) && Shrunk(zoneSize, old(Now()), h, Now())
      // the table names the pages that go back no longer, and is the same otherwise
      ensures p.Some? && h.PagesFrom? ==> usage == old(usage)[h.b := Large(0)]
      ensures p.Some? && h.ChunkOf? && (!old(Retires(Now(), h.z)) || |old(reserve)| < RESERVE) ==> usage == old(usage)
      ensures p.Some? && h.ChunkOf? && old(Retires(Now(), h.z)) && |old(reserve)| >= RESERVE ==>
                SameElsewhere(old(usage), usage, h.z, zoneSize / PAGE) && Spares(usage, h.z, zoneSize / PAGE)
      // a zone that was full is listed again, first of all
      ensures p.Some? && h.ChunkOf? && !old(Retires(Now(), h.z)) && old(zones)[h.z].nfree == 0 ==>
                var k := old(zones)[h.z].index;
                k < |old(lists)| && lists == old(lists)[k := [h.z] + old(lists)[k]]
    {
      if p == None {
        return;
      }
      Locate(h);
      ZoneListed(h);
      hide PagesOk, UsageOk, Canonical, Chained, ListsOk, ZonesOk, Handed, Gave, Retires, SameElsewhere, Spares;
      var page := p.value / PAGE;
      match usage[page] {
        case Large(count) => FreePages(page, count);
        case Small(off) => FreeChunk(page - off, p.value, if h.ChunkOf? then h.i else 0);
        case Spare => assert false;
      }
    }
  }

  lemma NotInReserve(zones: map<nat, Zone>, lists: seq<seq<nat>>, reserve: seq<nat>, z: nat)
    requires ListsOk(zones, lists, reserve) && z in zones
    ensures z !in reserve
  {}

  lemma FirstFits(reserve: seq<nat>, runs: seq<Run>, n: nat, z: nat)
    requires reserve == [] ==> FirstLong(runs, n, z)
    ensures reserve == [] ==> FirstFit(runs, n) == z
  {
    if reserve == [] {
      FirstFitIs(runs, n, z);
    }
  }

  lemma OneEntry(u: map<nat, Usage>, b: nat, n: nat)
    requires n > 0
    ensures SameElsewhere(u, u[b := Large(n)], b, n) && Tells(u[b := Large(n)], b, n, true)
  {}

  lemma OneEntryGone(u: map<nat, Usage>, b: nat, n: nat)
    requires n > 0
    ensures SameElsewhere(u, u[b := Large(0)], b, n)
  {}

  lemma LimitIs(zoneSize: nat)
    requires zoneSize in {32768, 65536, 131072}
    ensures PAGE < ZoneLimit(zoneSize) <= CHUNK_LIMIT
    ensures ZoneLimit(zoneSize) == if zoneSize == 32768 then 8192 else 16384
  {}

  lemma RoomyClass(n: nat)
    requires 0 < n < CHUNK_LIMIT
    ensures n <= ChunkSize(n)
  {
    SmallestClass(n);
  }

  lemma PagesForIs(n: nat, zoneSize: nat)
    requires zoneSize in {32768, 65536, 131072} && n >= ZoneLimit(zoneSize)
    ensures PagesFor(n) > 0 && PagesFor(n) * PAGE == RoundUp(n, PAGE)
  {
    RoundUpBounds(n, PAGE);
  }

  // A chunk begins in one of the pages of its zone.
  lemma PageOfChunk(z: Zone, page: nat, zoneSize: nat, i: nat)
    requires ZoneOk(z, page, zoneSize) && Handed(z, i) && zoneSize in {32768, 65536, 131072}
    ensures page <= Chunk(z, i) / PAGE < page + zoneSize / PAGE
  {
    ChunkInZone(z, page, zoneSize, i);
    hide ZoneOk, Handed, Chunk;
  }

  // ---------- rt_slab_init ----------

  // The pages of the usage table.
  function TablePages(npages: nat): nat {
    PagesFor(npages * USAGE_SIZE)
  }

  // Four bytes a page, in whole pages.
  lemma TableHolds(npages: nat)
    ensures npages * 4 <= TablePages(npages) * 4096 < npages * 4 + 4096
  {
    RoundUpBounds(npages * USAGE_SIZE, PAGE);
  }

  lemma TableFits(npages: nat)
    requires npages > 0
    ensures 0 < TablePages(npages) <= npages
    ensures npages > 16384 ==> TablePages(npages) + 32 <= npages
  {}

  // What is left when the front of the only free run has been taken.
  lemma FrontGone(region: Run, after: seq<Run>, n: nat, b: nat)
    requires 0 < n <= region.len && Canonical(after)
    requires FirstLong([region], n, b) && Took([region], after, Run(b, n))
    ensures b == region.start
    ensures after == if n < region.len then [Run(region.start + n, region.len - n)] else []
  {
    var rest := if n < region.len then [Run(region.start + n, region.len - n)] else [];
    assert region in [region];
    forall p ensures Free(after, p) <==> Free(rest, p) {
      assert Free([region], p) <==> region.Holds(p);
      assert n < region.len ==> rest[0] in rest;
    }
    CanonicalIsUnique(after, rest);
  }

  // The region is one run of pages; the usage table takes the first of them.
  method Init(region: Run) returns (s: Slab)
    requires region.len > 0
    ensures fresh(s) && fresh(s.pages) && s.Valid() && s.zoneSize == ZoneSizeOf(region.len * PAGE)
    ensures s.zones == map[] && s.large == map[] && s.reserve == [] && s.used == s.max == 0
    ensures forall k :: 0 <= k < |s.lists| ==> s.lists[k] == []
    ensures var t := TablePages(region.len);
            0 < t <= region.len && s.pages.runs == if t < region.len then [Run(region.start + t, region.len - t)] else []
  {
    hide Shared, Canonical, Chained, FirstLong, Took, TablePages;
    TableFits(region.len);
    var pages := PageInit(region);
    var zoneSize := ZoneSizeFor(region.len * PAGE);
    var count := TablePages(region.len);
    ghost var runs := pages.runs;
    assert runs[0].len >= count;
    var table := pages.Alloc(count);
    TakenShared(region, runs, pages.runs, [], count, table.value);
    assert pages.Valid();
    FrontGone(region, pages.runs, count, table.value);
    assert [] + [Run(table.value, count)] == [Run(table.value, count)];
    s := new Slab(zoneSize, region, pages, [Run(table.value, count)]);
  }

  // On a fresh heap of any size the first request for 8 KB is aligned to 8 KB only
  // if the first page behind the table is even, whether it is met with a chunk or,
  // where zones are small, with pages.
  method AskFor8K(region: Run) returns (s: Slab, p: Option<nat>)
    requires TablePages(region.len) + 2 <= region.len
    ensures fresh(s) && s.Valid() && p.Some?
    ensures Aligned(p.value, 8192) <==> (region.start + TablePages(region.len)) % 2 == 0
  {
    hide Canonical, Chained, TablePages, PowerOfTwo, Aligned, ZoneLimit, ZoneSizeOf, ZoneIndex, ChunkSize, RoundUp, PagesFor,
      FirstLong, LongRun,
      ListsOk, ZonesOk, PagesOk, UsageOk, SamePlaces, SameSizes, FirstFit;
    TableFits(region.len);
    s := Init(region);
    var t := TablePages(region.len);
    ghost var h, b := PagesFrom(0), region.start + t;
    EvenPagesAligned(b, 0);
    FirstZone(s.zoneSize, region.len, t);
    OnlyRun(b, region.len - t, if 8192 >= ZoneLimit(s.zoneSize) then PagesFor(8192) else s.zoneSize / PAGE);
    p, h := s.Alloc(8192);
  }

  lemma OnlyRun(b: nat, len: nat, n: nat)
    requires n <= len
    ensures LongRun([Run(b, len)], n) && FirstFit([Run(b, len)], n) == b
  {
    assert [Run(b, len)][0].len >= n;
  }

  // There is room for the zone, or for the pages.
  lemma FirstZone(zoneSize: nat, len: nat, t: nat)
    requires zoneSize == ZoneSizeOf(len * PAGE) && t + 2 <= len && (len > 16384 ==> t + 32 <= len)
    ensures zoneSize in {32768, 65536, 131072}
    ensures if 8192 >= ZoneLimit(zoneSize) then PagesFor(8192) <= len - t else zoneSize / PAGE <= len - t
  {}

  // The only zone, of class k, has handed out i chunks behind its first.
  ghost predicate Turns(zones: map<nat, Zone>, b: nat, k: nat, size: nat, zoneSize: nat, i: nat) {
    && size > 0 && Offset(size) + size <= zoneSize && i <= Fresh(b, k, size, zoneSize).nfree
    && zones == map[b := PickedTimes(Fresh(b, k, size, zoneSize), i)]
  }

  // The first request of a fresh heap.
  method FirstChunk(s: Slab, ghost b: nat, n: nat) returns (p: nat)
    requires s.Valid() && 0 < n < ZoneLimit(s.zoneSize) && s.zones == map[] && s.reserve == []
    requires (forall j :: 0 <= j < |s.lists| ==> s.lists[j] == [])
    requires LongRun(s.pages.runs, s.zoneSize / PAGE) && FirstFit(s.pages.runs, s.zoneSize / PAGE) == b
    modifies s, s.pages
    ensures s.Valid() && ChunkSize(n) > 0 && p == ChunkAt(b, ChunkSize(n), 0)
    ensures ZoneIndex(n) >= 0 && Turns(s.zones, b, ZoneIndex(n), ChunkSize(n), s.zoneSize, 0)
  {
    hide Canonical, Chained, ZoneIndex, ChunkSize, ClassSize, Offset, PagesFor, FirstLong, LongRun, ListsOk, ZonesOk, PagesOk, UsageOk, SamePlaces,
      SameSizes, FirstFit, Took, Handed, ZoneOk, PowerOfTwo, Aligned, RoundUp;
    LimitIs(s.zoneSize);
    TwoChunksFit(s.zoneSize, n);
    SmallestClass(n);
    hide ZoneLimit;
    var q;
    ghost var h;
    q, h := s.Alloc(n);
    p := q.value;
    assert s.zones == map[b := Fresh(b, ZoneIndex(n), ChunkSize(n), s.zoneSize)];
  }

  // And one after i others.
  method NextChunk(s: Slab, ghost b: nat, n: nat, ghost i: nat) returns (p: nat)
    requires s.Valid() && 0 < n < ZoneLimit(s.zoneSize) && ZoneIndex(n) >= 0 && ChunkSize(n) > 0
    requires i > 0 && Turns(s.zones, b, ZoneIndex(n), ChunkSize(n), s.zoneSize, i - 1)
    requires Offset(ChunkSize(n)) + (i + 1) * ChunkSize(n) <= s.zoneSize
    modifies s, s.pages
    ensures s.Valid() && p == ChunkAt(b, ChunkSize(n), i)
    ensures Turns(s.zones, b, ZoneIndex(n), ChunkSize(n), s.zoneSize, i)
  {
    hide Canonical, Chained, ZoneIndex, ChunkSize, ClassSize, Offset, PagesFor, FirstLong, LongRun, ListsOk, ZonesOk, PagesOk, UsageOk, SamePlaces,
      SameSizes, FirstFit, Took, Handed, ZoneOk, PowerOfTwo, Aligned, RoundUp, Picked, Pick;
    LimitIs(s.zoneSize);
    TwoChunksFit(s.zoneSize, n);
    SmallestClass(n);
    hide ZoneLimit;
    ghost var k, size, z0 := ZoneIndex(n), ChunkSize(n), Fresh(b, ZoneIndex(n), ChunkSize(n), s.zoneSize);
    ghost var z := PickedTimes(z0, i - 1);
    MeetsAsManyAsFit(b, k, size, s.zoneSize, i);
    assert z0.index == k && z0.size == size && z0.base == b * PAGE + Offset(size);
    hide Fresh;
    OnlyListed(s.zones, s.lists, s.reserve, k, b);
    var q;
    ghost var h;
    q, h := s.Alloc(n);
    p := q.value;
    assert s.zones == map[b := Picked(z)] && Picked(z) == PickedTimes(z0, i);
  }

  // A fresh heap meets as many small requests of one size as a zone has room for from
  // one zone, one right behind the other.
  method FillZone(region: Run, n: nat, m: nat) returns (s: Slab, ps: seq<nat>)
    requires 0 < region.len && 0 < n < ZoneLimit(ZoneSizeOf(region.len * PAGE))
    requires TablePages(region.len) + ZoneSizeOf(region.len * PAGE) / PAGE <= region.len
    requires Offset(ChunkSize(n)) + m * ChunkSize(n) <= ZoneSizeOf(region.len * PAGE)
    ensures fresh(s) && s.Valid() && |ps| == m && ChunkSize(n) > 0
    ensures forall i :: 0 <= i < m ==> ps[i] == ChunkAt(region.start + TablePages(region.len), ChunkSize(n), i)
  {
    hide Canonical, Chained, TablePages, ZoneIndex, ChunkSize, ClassSize, Offset, FirstLong, LongRun, ListsOk, ZonesOk, PagesOk, UsageOk, FirstFit,
      ChunkAt, Turns;
    TableFits(region.len);
    s := Init(region);
    ps := [];
    LimitIs(s.zoneSize);
    TwoChunksFit(s.zoneSize, n);
    hide ZoneLimit, ZoneSizeOf;
    ghost var b, size := region.start + TablePages(region.len), ChunkSize(n);
    OnlyRun(b, region.len - TablePages(region.len), s.zoneSize / PAGE);
    if m == 0 {
      return;
    }
    var p := FirstChunk(s, b, n);
    ps := [p];
    for i := 1 to m
      invariant s.Valid() && s.zoneSize == ZoneSizeOf(region.len * PAGE) && |ps| == i && fresh(s) && fresh(s.pages)
      invariant ZoneIndex(n) >= 0 && Turns(s.zones, b, ZoneIndex(n), size, s.zoneSize, i - 1)
      invariant forall j :: 0 <= j < i ==> ps[j] == ChunkAt(b, size, j)
    {
      FewerFit(size, i + 1, m);
      p := NextChunk(s, b, n, i);
      ps := ps + [p];
    }
  }

  lemma FewerFit(size: nat, i: nat, m: nat)
    requires i <= m
    ensures i * size <= m * size
  {}

  // ---------- any run ----------

  // Everything held lies in its own parcel.
  lemma Within(s: Slab, h: Held)
    requires s.Valid() && s.Live(h)
    ensures var b := s.Start(h);
            b in s.parcels && b * PAGE <= s.At(h) && s.At(h) + s.Size(h) <= (b + s.parcels[b]) * PAGE
  {
    hide ListsOk, Canonical, Chained, PagesOk, UsageOk;
    if h.ChunkOf? {
      s.ZoneOf(h.z);
      hide ZonesOk, ZoneOk, Handed, Chunk;
      HandedInZone(s.zones[h.z], h.z, s.zoneSize, h.i);
    }
  }

  lemma HandedInZone(z: Zone, page: nat, zoneSize: nat, i: nat)
    requires ZoneOk(z, page, zoneSize) && Handed(z, i)
    ensures page * PAGE <= Chunk(z, i) && Chunk(z, i) + z.size <= page * PAGE + zoneSize
  {
    hide Shaped;
    ChunkInZone(z, page, zoneSize, i);
  }

  // Things in different hands do not overlap.
  lemma HeldApart(s: Slab, a: Held, b: Held)
    requires s.Valid() && s.Live(a) && s.Live(b) && a != b
    ensures s.At(a) + s.Size(a) <= s.At(b) || s.At(b) + s.Size(b) <= s.At(a)
  {
    hide ListsOk, Canonical, Chained, PagesOk, UsageOk, ZonesOk, Handed;
    Within(s, a);
    Within(s, b);
    if s.Start(a) != s.Start(b) {
      ParcelsApart(s.region, s.pages.runs, s.out, s.parcels, s.Start(a));
    } else if a.ChunkOf? && b.ChunkOf? {
      if a.i < b.i {
        ChunksApart(s.zones[a.z], a.i, b.i);
      } else {
        ChunksApart(s.zones[a.z], b.i, a.i);
      }
    }
  }

  // A client's pointers, what they point to, and how large that is.
  datatype Snap = Snap(books: Books, ptrs: seq<nat>, held: seq<Held>, sizes: seq<nat>)

  ghost predicate Owns(a: Snap) {
    && |a.ptrs| == |a.held| == |a.sizes|
    && (forall k :: 0 <= k < |a.held| ==> Owned(a.books, a.ptrs[k], a.held[k], a.sizes[k]))
    && forall j, k :: 0 <= j < k < |a.held| ==> a.held[j] != a.held[k]
  }

  ghost predicate Owned(a: Books, ptr: nat, h: Held, size: nat) {
    IsLive(a.zones, a.large, h) && ptr == Place(a.zones, a.large, h) && size == Extent(a.zones, a.large, h)
  }

  // Nothing is handed out twice, not even a byte of it.
  ghost predicate Apart(ptrs: seq<nat>, sizes: seq<nat>) {
    |ptrs| == |sizes| && forall j, k :: 0 <= j < k < |ptrs| ==> ptrs[j] + sizes[j] <= ptrs[k] || ptrs[k] + sizes[k] <= ptrs[j]
  }

  lemma OwnsApart(s: Slab, a: Snap)
    requires s.Valid() && a.books == s.Now() && Owns(a)
    ensures Apart(a.ptrs, a.sizes)
  {
    hide ListsOk, Canonical, Chained, PagesOk, UsageOk, ZonesOk, Handed;
    forall j, k | 0 <= j < k < |a.ptrs| ensures a.ptrs[j] + a.sizes[j] <= a.ptrs[k] || a.ptrs[k] + a.sizes[k] <= a.ptrs[j] {
      HeldApart(s, a.held[j], a.held[k]);
    }
  }

  ghost function Sum(sizes: seq<nat>): nat {
    if sizes == [] then 0 else sizes[0] + Sum(sizes[1..])
  }

  lemma {:induction false} SumSnoc(sizes: seq<nat>, x: nat)
    ensures Sum(sizes + [x]) == Sum(sizes) + x
  {
    if sizes != [] {
      assert (sizes + [x])[1..] == sizes[1..] + [x];
      SumSnoc(sizes[1..], x);
    }
  }

  lemma {:induction false} SumWithout(sizes: seq<nat>, k: nat)
    requires k < |sizes|
    ensures Sum(sizes) == Sum(sizes[..k] + sizes[k + 1..]) + sizes[k]
  {
    if k == 0 {
      assert sizes[..0] + sizes[1..] == sizes[1..];
    } else {
      assert sizes[1..][..k - 1] + sizes[1..][k..] == (sizes[..k] + sizes[k + 1..])[1..];
      SumWithout(sizes[1..], k - 1);
    }
  }

  lemma OwnsFewer(a: Snap, b: Snap, k: nat)
    requires |a.ptrs| == |a.held| == |a.sizes| && k < |a.held| && forall i, j :: 0 <= i < j < |a.held| ==> a.held[i] != a.held[j]
    requires forall j :: 0 <= j < |a.held| && j != k ==> Owned(b.books, a.ptrs[j], a.held[j], a.sizes[j])
    requires Dropped(a, b, k)
    ensures Owns(b)
  {
    hide Owned;
    assert forall j {:trigger b.held[j]} :: 0 <= j < |b.held| ==> b.held[j] == a.held[if j < k then j else j + 1];
  }

  lemma OwnsMore(a: Books, ptrs: seq<nat>, held: seq<Held>, sizes: seq<nat>, p: nat, h: Held, size: nat)
    requires |ptrs| == |held| == |sizes| && forall i, j :: 0 <= i < j < |held| ==> held[i] != held[j]
    requires forall j :: 0 <= j < |held| ==> held[j] != h && Owned(a, ptrs[j], held[j], sizes[j])
    requires Owned(a, p, h, size)
    ensures Owns(Snap(a, ptrs + [p], held + [h], sizes + [size]))
  {
    hide Owned;
  }

  // The k-th is given up, and the others keep their order.
  ghost predicate Dropped(a: Snap, b: Snap, k: nat)
    requires k < |a.ptrs| == |a.held| == |a.sizes|
  {
    && b.ptrs == a.ptrs[..k] + a.ptrs[k + 1..] && b.held == a.held[..k] + a.held[k + 1..]
    && b.sizes == a.sizes[..k] + a.sizes[k + 1..]
  }

  datatype Call = Malloc(n: nat) | FreeNth(k: nat)

  // What one call does: a request is met exactly if it can be, with what comes next,
  // or changes nothing; a release takes one thing back.
  ghost predicate CallStep(zoneSize: nat, a: Snap, c: Call, b: Snap) {
    match c
    case Malloc(n) => if Meets(zoneSize, a.books, n) then Handout(zoneSize, a, n, b) else b == a
    case FreeNth(k) =>
      if k < |a.ptrs| then
        |a.ptrs| == |a.held| == |a.sizes| && Dropped(a, b, k) && Shrunk(zoneSize, a.books, a.held[k], b.books)
      else b == a
  }

  ghost predicate Handout(zoneSize: nat, a: Snap, n: nat, b: Snap) {
    && |b.ptrs| == |a.ptrs| + 1 && |b.held| == |a.held| + 1
    && b == Snap(b.books, a.ptrs + [b.ptrs[|a.ptrs|]], a.held + [b.held[|a.held|]], a.sizes + [ServedSize(zoneSize, n)])
    && Grown(zoneSize, a.books, n, b.held[|a.held|], b.books)
  }

  method DoMalloc(s: Slab, ptrs: seq<nat>, ghost held: seq<Held>, ghost sizes: seq<nat>, n: nat)
    returns (ptrs': seq<nat>, ghost held': seq<Held>, ghost sizes': seq<nat>)
    requires s.Valid() && Owns(Snap(s.Now(), ptrs, held, sizes))
    modifies s, s.pages
    ensures s.Valid() && Owns(Snap(s.Now(), ptrs', held', sizes')) && s.used - Sum(sizes') == old(s.used) - Sum(sizes)
    ensures CallStep(s.zoneSize, old(Snap(s.Now(), ptrs, held, sizes)), Malloc(n), Snap(s.Now(), ptrs', held', sizes'))
  {
    hide Canonical, Chained, PowerOfTwo, Aligned, Handed, Serving, ServedSize, ListsOk, ZonesOk, PagesOk, UsageOk, Meets, Grown;
    ptrs', held', sizes' := ptrs, held, sizes;
    var p;
    ghost var h;
    p, h := s.Alloc(n);
    if p.Some? {
      SumSnoc(sizes, s.Size(h));
      ptrs', held', sizes' := ptrs + [p.value], held + [h], sizes + [s.Size(h)];
      forall j | 0 <= j < |held| ensures held[j] != h && Owned(s.Now(), ptrs[j], held[j], sizes[j]) {
        assert old(Owned(s.Now(), ptrs[j], held[j], sizes[j])) && s.Live(held[j]);
      }
      OwnsMore(s.Now(), ptrs, held, sizes, p.value, h, s.Size(h));
    }
  }

  method DoFree(s: Slab, ptrs: seq<nat>, ghost held: seq<Held>, ghost sizes: seq<nat>, k: nat)
    returns (ptrs': seq<nat>, ghost held': seq<Held>, ghost sizes': seq<nat>)
    requires s.Valid() && Owns(Snap(s.Now(), ptrs, held, sizes)) && k < |ptrs|
    modifies s, s.pages
    ensures s.Valid() && Owns(Snap(s.Now(), ptrs', held', sizes')) && s.used - Sum(sizes') == old(s.used) - Sum(sizes)
    ensures CallStep(s.zoneSize, old(Snap(s.Now(), ptrs, held, sizes)), FreeNth(k), Snap(s.Now(), ptrs', held', sizes'))
  {
    hide Canonical, Chained, Gave, Handed, ListsOk, ZonesOk, PagesOk, UsageOk, ChunkBack, PagesBack;
    ghost var a := Snap(s.Now(), ptrs, held, sizes);
    assert Owned(a.books, ptrs[k], held[k], sizes[k]);
    s.Free(Some(ptrs[k]), held[k]);
    ptrs', held', sizes' := ptrs[..k] + ptrs[k + 1..], held[..k] + held[k + 1..], sizes[..k] + sizes[k + 1..];
    ghost var b := Snap(s.Now(), ptrs', held', sizes');
    forall j | 0 <= j < |held| && j != k ensures Owned(b.books, ptrs[j], held[j], sizes[j]) {
      assert held[j] != held[k] && s.Live(held[j]);
    }
    OwnsFewer(a, b, k);
    SumWithout(sizes, k);
  }

  ghost predicate Sound(a: Snap, used: int) {
    Owns(a) && Apart(a.ptrs, a.sizes) && a.books.used == used + Sum(a.sizes)
  }

  // Whatever a client asks for and gives back, in any order: what it holds is live
  // and where it was, nothing is handed out twice, and the bytes counted as used are
  // those it holds.
  method RunCalls(s: Slab, calls: seq<Call>) returns (ptrs: seq<nat>, ghost states: seq<Snap>)
    requires s.Valid()
    modifies s, s.pages
    ensures s.Valid() && |states| == |calls| + 1 && states[0] == Snap(old(s.Now()), [], [], [])
    ensures states[|calls|].books == s.Now() && states[|calls|].ptrs == ptrs
    ensures forall i :: 0 <= i < |calls| ==> CallStep(s.zoneSize, states[i], calls[i], states[i + 1])
    ensures forall i :: 0 <= i <= |calls| ==> Sound(states[i], old(s.used))
  {
    hide Owns, Apart, Canonical, Chained, CallStep;
    ptrs := [];
    ghost var held, sizes := [], [];
    states := [Snap(s.Now(), [], [], [])];
    OwnsNothing(s.Now());
    OwnsApart(s, states[0]);
    for c := 0 to |calls|
      invariant s.Valid() && |states| == c + 1 && states[0] == Snap(old(s.Now()), [], [], [])
      invariant states[c] == Snap(s.Now(), ptrs, held, sizes)
      invariant forall i :: 0 <= i < c ==> CallStep(s.zoneSize, states[i], calls[i], states[i + 1])
      invariant forall i :: 0 <= i <= c ==> Sound(states[i], old(s.used))
    {
      ghost var a := Snap(s.Now(), ptrs, held, sizes);
      match calls[c] {
        case Malloc(n) => ptrs, held, sizes := DoMalloc(s, ptrs, held, sizes, n);
        case FreeNth(k) =>
          if k < |ptrs| {
            ptrs, held, sizes := DoFree(s, ptrs, held, sizes, k);
          } else {
            NothingToFree(s.zoneSize, a, k);
          }
      }
      OwnsApart(s, Snap(s.Now(), ptrs, held, sizes));
      states := states + [Snap(s.Now(), ptrs, held, sizes)];
    }
  }

  lemma NothingToFree(zoneSize: nat, a: Snap, k: nat)
    requires k >= |a.ptrs|
    ensures CallStep(zoneSize, a, FreeNth(k), a)
  {}

  lemma OwnsNothing(a: Books)
    ensures Owns(Snap(a, [], [], []))
  {}
}
