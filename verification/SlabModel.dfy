/** rt_malloc and rt_free of slab.c over pages and zones.  Addresses of pages count pages, addresses of
    blocks count bytes. */
module SlabModel {
  import opened Seqs
  import opened PageModel
  import opened Zones

  const PAGE: nat := 4096        // RT_MM_PAGE_SIZE
  const SPARE_MAX: nat := 2      // ZONE_RELEASE_THRESH

  /** memusage[]: the type of a page, with its offset in the zone or the length of the allocation. */
  datatype Usage = Unused | Small(off: nat) | Large(n: nat)

  /** `zones` are the zones with chunks, `lists` is zone_array, `spare` is zone_free, `large` are the
      allocations of whole pages; `held` records what was taken from the page allocator. */
  datatype Heap = Heap(
    zoneSize: nat, pages: seq<Run>, zones: map<int, Zone>, lists: map<int, seq<int>>, spare: seq<int>,
    large: map<int, nat>, usage: map<int, Usage>, held: map<int, nat>)

  function ZonePages(h: Heap): nat { h.zoneSize / PAGE }

  /** zone_limit */
  function SmallLimit(h: Heap): nat { if h.zoneSize / 4 > LIMIT then LIMIT else h.zoneSize / 4 }

  function ListOf(lists: map<int, seq<int>>, zi: int): seq<int> { if zi in lists then lists[zi] else [] }

  function UsageOf(usage: map<int, Usage>, p: int): Usage { if p in usage then usage[p] else Unused }

  /** The loop of rt_malloc over the pages of a new zone. */
  function MarkZone(usage: map<int, Usage>, z: int, n: nat): map<int, Usage> {
    if n == 0 then usage else MarkZone(usage, z, n - 1)[z + n - 1 := Small(n - 1)]
  }

  /** The loop of rt_free over the pages of a zone it releases. */
  function UnmarkZone(usage: map<int, Usage>, z: int, n: nat): map<int, Usage> {
    if n == 0 then usage else UnmarkZone(usage, z, n - 1)[z + n - 1 := Unused]
  }

  lemma {:induction false} Marked(usage: map<int, Usage>, z: int, n: nat, p: int)
    ensures UsageOf(MarkZone(usage, z, n), p) == if z <= p < z + n then Small(p - z) else UsageOf(usage, p)
    ensures UsageOf(UnmarkZone(usage, z, n), p) == if z <= p < z + n then Unused else UsageOf(usage, p)
  {
    if n > 0 { Marked(usage, z, n - 1, p); }
  }

  // --- the page allocator, which locks the heap itself ---

  /** rt_page_alloc; the pages then belong to whoever asked, and to no zone or allocation yet. */
  function TakePages(h: Heap, n: nat): (Heap, Option<int>) {
    var (pages, r) := Alloc(h.pages, n);
    match r
    case None => (h, None)
    case Some(a) => (h.(pages := pages, held := h.held[a := n]), Some(a))
  }

  /** rt_page_free */
  function ReturnPages(h: Heap, a: int, n: nat): Heap { h.(pages := Free(h.pages, a, n), held := h.held - {a}) }

  /** The n pages at a are taken and in the hands of a caller. */
  ghost predicate Loose(h: Heap, a: int, n: nat) {
    a in h.held && h.held[a] == n && a !in h.zones && a !in h.spare && a !in h.large
  }

  // --- rt_malloc ---

  /** What rt_malloc does with pages it got for a large request. */
  function PlaceLarge(h: Heap, a: int, n: nat): Heap { h.(large := h.large[a := n], usage := h.usage[a := Large(n)]) }

  function MallocLarge(h: Heap, n: nat): (Heap, Option<int>) {
    var (g, r) := TakePages(h, n);
    match r
    case None => (h, None)
    case Some(a) => (PlaceLarge(g, a, n), Some(a * PAGE))
  }

  function FromZone(h: Heap, zi: nat, z: int): (Heap, Option<int>)
    requires z in h.zones && (h.zones[z].uindex + 1 == h.zones[z].nmax ==> h.zones[z].chain != [])
  {
    var (zone, c) := Take(h.zones[z]);
    var l := ListOf(h.lists, zi);
    (h.(zones := h.zones[z := zone], lists := if zone.nfree == 0 && l != [] then h.lists[zi := l[1..]] else h.lists), Some(c))
  }

  function Open(h: Heap, zi: nat, size: nat, z: int): (Heap, Option<int>)
    requires size > 0
  {
    (h.(zones := h.zones[z := NewZone(zi, size, z * PAGE, h.zoneSize)], lists := h.lists[zi := [z] + ListOf(h.lists, zi)]),
     Some(z * PAGE + Offset(size)))
  }

  /** What rt_malloc does with pages it got for a zone. */
  function PlaceZone(h: Heap, zi: nat, size: nat, z: int): (Heap, Option<int>)
    requires size > 0
  {
    Open(h.(usage := MarkZone(h.usage, z, ZonePages(h))), zi, size, z)
  }

  /** Is there a zone with a chunk left, or a spare one? */
  predicate AtHand(h: Heap, zi: nat) { ListOf(h.lists, zi) != [] || h.spare != [] }

  function FromHand(h: Heap, zi: nat, size: nat): (Heap, Option<int>)
    requires size > 0 && AtHand(h, zi)
    requires var l := ListOf(h.lists, zi); l != [] ==> l[0] in h.zones && (h.zones[l[0]].uindex + 1 == h.zones[l[0]].nmax ==> h.zones[l[0]].chain != [])
  {
    var l := ListOf(h.lists, zi);
    if l != [] then FromZone(h, zi, l[0]) else Open(h.(spare := h.spare[1..]), zi, size, h.spare[0])
  }

  function MallocSmall(h: Heap, zi: nat, size: nat): (Heap, Option<int>)
    requires size > 0
    requires var l := ListOf(h.lists, zi); l != [] ==> l[0] in h.zones && (h.zones[l[0]].uindex + 1 == h.zones[l[0]].nmax ==> h.zones[l[0]].chain != [])
  {
    if AtHand(h, zi) then FromHand(h, zi, size)
    else
      var (g, r) := TakePages(h, ZonePages(h));
      match r
      case None => (h, None)
      case Some(z) => PlaceZone(g, zi, size, z)
  }

  // --- rt_free ---

  /** A large allocation is given up; its pages are still taken. */
  function DropLarge(h: Heap, p: int): Heap { h.(large := h.large - {p}, usage := h.usage[p := Large(0)]) }

  /** The chunk goes back to its zone, which returns to the array if it had been full. */
  function GiveBack(h: Heap, z: int, c: int): Heap
    requires z in h.zones
  {
    var zone := h.zones[z];
    var l := ListOf(h.lists, zone.zi);
    h.(zones := h.zones[z := Give(zone, c)], lists := if zone.nfree == 0 then h.lists[zone.zi := [z] + l] else h.lists)
  }

  /** An unused zone becomes a spare one. */
  function Retire(h: Heap, z: int): Heap
    requires z in h.zones
  {
    var zi := h.zones[z].zi;
    h.(zones := h.zones - {z}, lists := h.lists[zi := Drop(ListOf(h.lists, zi), z)], spare := [z] + h.spare)
  }

  /** The first spare zone is given up; its pages are still taken. */
  function DropSpare(h: Heap): Heap
    requires h.spare != []
  {
    h.(spare := h.spare[1..], usage := UnmarkZone(h.usage, h.spare[0], ZonePages(h)))
  }

  /** What rt_free does to a chunk under the lock, and the pages it is to return then. */
  function FreeChunk(h: Heap, z: int, c: int): (Heap, Option<(int, nat)>)
    requires z in h.zones
  {
    var g := GiveBack(h, z, c);
    if g.zones[z].nfree == g.zones[z].nmax && |ListOf(g.lists, g.zones[z].zi)| > 1 then
      var r := Retire(g, z);
      if |r.spare| > SPARE_MAX then (DropSpare(r), Some((r.spare[0], ZonePages(h)))) else (r, None)
    else (g, None)
  }

  /** rt_free up to its call of the page allocator. */
  function FreeFirst(h: Heap, ptr: int): (Heap, Option<(int, nat)>) {
    var p := ptr / PAGE;
    match UsageOf(h.usage, p)
    case Large(n) => (DropLarge(h, p), Some((p, n)))
    case Small(off) => if p - off in h.zones then FreeChunk(h, p - off, ptr) else (h, None)
    case Unused => (h, None)
  }

  /** rt_free, undisturbed. */
  function FreeBlock(h: Heap, ptr: int): Heap {
    var (g, r) := FreeFirst(h, ptr);
    match r
    case None => g
    case Some(run) => ReturnPages(g, run.0, run.1)
  }

  // --- the invariant ---

  ghost predicate Apart(a: int, n: nat, b: int, m: nat) { a + n <= b || b + m <= a }

  ghost predicate NotFree(pages: seq<Run>, a: int, n: nat) { forall p :: a <= p < a + n ==> !Covers(pages, p) }

  /** What is held is not free, and held once. */
  ghost predicate HeldOk(pages: seq<Run>, held: map<int, nat>) {
    && Coalesced(pages)
    && (forall a :: a in held ==> held[a] > 0 && NotFree(pages, a, held[a]))
    && (forall a, b :: a in held && b in held && a != b ==> Apart(a, held[a], b, held[b]))
  }

  /** Zones, spare zones and large allocations are different holdings. */
  ghost predicate Places(zones: set<int>, spare: seq<int>, large: map<int, nat>, held: map<int, nat>, n: nat) {
    && Distinct(spare) && (forall z :: z in spare ==> z !in zones && z !in large) && zones !! large.Keys
    && (forall z :: z in zones || z in spare ==> z in held && held[z] == n)
    && (forall a :: a in large ==> a in held && held[a] == large[a])
  }

  ghost predicate ZoneFits(zone: Zone, z: int, zoneSize: nat) {
    && ZoneOk(zone) && zone.size >= 8 && zone.size % 8 == 0 && 4 * zone.size <= zoneSize && zone.size == SizeOf(zone.zi)
    && zone.base == z * PAGE + Offset(zone.size) && zone.nmax == Capacity(zoneSize, zone.size)
  }

  ghost predicate ZonesFit(zones: map<int, Zone>, zoneSize: nat) {
    forall z :: z in zones ==> ZoneFits(zones[z], z, zoneSize)
  }

  /** zone_array[zi] lists, once each, exactly the zones of index zi that have chunks left. */
  ghost predicate ListsOk(zones: map<int, Zone>, lists: map<int, seq<int>>) {
    && (forall zi :: zi in lists ==> Distinct(lists[zi]) && forall z :: z in lists[zi] ==> z in zones && zones[z].zi == zi && zones[z].nfree > 0)
    && (forall z :: z in zones && zones[z].nfree > 0 ==> z in ListOf(lists, zones[z].zi))
  }

  /** Every page of a zone tells its distance from the zone's start, and the first page of a large
      allocation its length. */
  ghost predicate UsageOk(usage: map<int, Usage>, zones: set<int>, spare: seq<int>, large: map<int, nat>, n: nat) {
    && (forall z, p :: (z in zones || z in spare) && z <= p < z + n ==> UsageOf(usage, p) == Small(p - z))
    && (forall a :: a in large ==> UsageOf(usage, a) == Large(large[a]))
  }

  ghost predicate Inv(h: Heap) {
    && h.zoneSize in {32768, 65536, 131072}
    && HeldOk(h.pages, h.held) && Places(h.zones.Keys, h.spare, h.large, h.held, ZonePages(h))
    && ZonesFit(h.zones, h.zoneSize)
    && ListsOk(h.zones, h.lists) && UsageOk(h.usage, h.zones.Keys, h.spare, h.large, ZonePages(h))
  }

  // --- pages ---

  lemma PointIn(pages: seq<Run>, a: int, n: nat, p: int)
    requires Stretch(pages, a, n) && a <= p < a + n
    ensures Covers(pages, p)
  {
  }

  lemma Hold(pages: seq<Run>, held: map<int, nat>, n: nat)
    requires HeldOk(pages, held) && n > 0 && Alloc(pages, n).1.Some?
    ensures var (e, r) := Alloc(pages, n); r.value !in held && HeldOk(e, held[r.value := n])
  {
    AllocOk(pages, n);
    var e, a := Alloc(pages, n).0, Alloc(pages, n).1.value;
    assert Stretch(pages, a, n);
    forall b | b in held ensures Apart(a, n, b, held[b]) && a != b {
      assert NotFree(pages, b, held[b]);
      if !Apart(a, n, b, held[b]) { PointIn(pages, a, n, if a < b then b else a); }
    }
    forall b | b in held ensures NotFree(e, b, held[b]) {
      assert NotFree(pages, b, held[b]);
      forall p | b <= p < b + held[b] ensures !Covers(e, p) { assert !Covers(pages, p); }
    }
    assert NotFree(e, a, n);
  }

  lemma LetGo(pages: seq<Run>, held: map<int, nat>, a: int)
    requires HeldOk(pages, held) && a in held
    ensures HeldOk(Free(pages, a, held[a]), held - {a})
  {
    assert NotFree(pages, a, held[a]);
    FreeOk(pages, a, held[a]);
    var e := Free(pages, a, held[a]);
    forall b | b in held - {a} ensures NotFree(e, b, held[b]) {
      assert Apart(a, held[a], b, held[b]) && NotFree(pages, b, held[b]);
      forall p | b <= p < b + held[b] ensures !Covers(e, p) { assert !Covers(pages, p); }
    }
  }

  /** Pages of different holdings differ. */
  lemma Elsewhere(pages: seq<Run>, held: map<int, nat>, a: int, b: int, p: int)
    requires HeldOk(pages, held) && a in held && b in held && a != b && a <= p < a + held[a]
    ensures !(b <= p < b + held[b])
  {
    assert Apart(a, held[a], b, held[b]);
  }

  // --- rt_malloc keeps the invariant ---

  lemma TakePagesOk(h: Heap, n: nat)
    requires Inv(h) && n > 0 && TakePages(h, n).1.Some?
    ensures var (e, r) := TakePages(h, n); Inv(e) && r.value !in h.held && Loose(e, r.value, n)
  {
    Hold(h.pages, h.held, n);
    var e := TakePages(h, n).0;
    assert Places(e.zones.Keys, e.spare, e.large, e.held, ZonePages(e));
  }

  lemma ReturnPagesOk(h: Heap, a: int, n: nat)
    requires Inv(h) && Loose(h, a, n)
    ensures Inv(ReturnPages(h, a, n))
  {
    LetGo(h.pages, h.held, a);
    var e := ReturnPages(h, a, n);
    assert Places(e.zones.Keys, e.spare, e.large, e.held, ZonePages(e));
  }

  lemma LargeUsage(usage: map<int, Usage>, zones: set<int>, spare: seq<int>, large: map<int, nat>, n: nat, a: int, m: nat,
                   pages: seq<Run>, held: map<int, nat>)
    requires UsageOk(usage, zones, spare, large, n) && m > 0
    requires HeldOk(pages, held) && Places(zones, spare, large[a := m], held, n)
    ensures UsageOk(usage[a := Large(m)], zones, spare, large[a := m], n)
  {
    var e := usage[a := Large(m)];
    forall z, p | (z in zones || z in spare) && z <= p < z + n ensures UsageOf(e, p) == Small(p - z) {
      assert UsageOf(usage, p) == Small(p - z);
      assert a in large[a := m] && a in held && z != a;
      Elsewhere(pages, held, z, a, p);
    }
    forall b | b in large[a := m] ensures UsageOf(e, b) == Large(large[a := m][b]) {
      if b != a { assert UsageOf(usage, b) == Large(large[b]); }
    }
  }

  lemma PlaceLargeOk(h: Heap, a: int, n: nat)
    requires Inv(h) && Loose(h, a, n) && n > 0
    ensures Inv(PlaceLarge(h, a, n))
  {
    assert Places(h.zones.Keys, h.spare, h.large[a := n], h.held, ZonePages(h));
    LargeUsage(h.usage, h.zones.Keys, h.spare, h.large, ZonePages(h), a, n, h.pages, h.held);
  }

  lemma SpareUsage(usage: map<int, Usage>, zones: set<int>, spare: seq<int>, large: map<int, nat>, n: nat, z: int, pages: seq<Run>, held: map<int, nat>)
    requires UsageOk(usage, zones, spare, large, n) && n > 0
    requires HeldOk(pages, held) && Places(zones, [z] + spare, large, held, n)
    ensures UsageOk(MarkZone(usage, z, n), zones, [z] + spare, large, n)
  {
    var e, all := MarkZone(usage, z, n), [z] + spare;
    assert z in all && forall y :: y in spare ==> y in all;
    forall y, p | (y in zones || y in all) && y <= p < y + n ensures UsageOf(e, p) == Small(p - y) {
      Marked(usage, z, n, p);
      if y != z {
        assert y in zones || y in spare;
        assert UsageOf(usage, p) == Small(p - y);
        Elsewhere(pages, held, y, z, p);
      }
    }
    forall a | a in large ensures UsageOf(e, a) == Large(large[a]) {
      Marked(usage, z, n, a);
      Elsewhere(pages, held, a, z, a);
    }
  }

  /** Marked as a zone, the pages are those of a spare zone. */
  lemma AsSpareOk(h: Heap, z: int)
    requires Inv(h) && Loose(h, z, ZonePages(h))
    ensures Inv(h.(usage := MarkZone(h.usage, z, ZonePages(h)), spare := [z] + h.spare))
  {
    var n, all := ZonePages(h), [z] + h.spare;
    assert all == InsertAt(h.spare, 0, z);
    InsertAtElements(h.spare, 0, z);
    assert Places(h.zones.Keys, all, h.large, h.held, n);
    SpareUsage(h.usage, h.zones.Keys, h.spare, h.large, n, z, h.pages, h.held);
  }

  lemma OpenLists(zones: map<int, Zone>, lists: map<int, seq<int>>, zi: nat, z: int, zone: Zone)
    requires ListsOk(zones, lists) && z !in zones && zone.zi == zi && zone.nfree > 0
    ensures ListsOk(zones[z := zone], lists[zi := [z] + ListOf(lists, zi)])
  {
    var e, l := zones[z := zone], lists[zi := [z] + ListOf(lists, zi)];
    forall y | y in e && e[y].nfree > 0 ensures y in ListOf(l, e[y].zi) {
      if y != z { assert y in ListOf(lists, zones[y].zi); }
    }
  }

  lemma OpenPlaces(zones: set<int>, spare: seq<int>, large: map<int, nat>, held: map<int, nat>, n: nat, usage: map<int, Usage>)
    requires Places(zones, spare, large, held, n) && spare != [] && UsageOk(usage, zones, spare, large, n)
    ensures Places(zones + {spare[0]}, spare[1..], large, held, n) && UsageOk(usage, zones + {spare[0]}, spare[1..], large, n)
  {
    var z := spare[0];
    assert spare == [z] + spare[1..];
    assert z in spare;
    forall y, p | (y in zones + {z} || y in spare[1..]) && y <= p < y + n ensures UsageOf(usage, p) == Small(p - y) {
      assert y in zones || y in spare;
    }
  }

  /** A first spare zone is put to use. */
  lemma OpenOk(h: Heap, zi: nat, size: nat)
    requires Inv(h) && h.spare != []
    requires size >= 8 && size % 8 == 0 && 4 * size <= h.zoneSize && size == SizeOf(zi)
    ensures Inv(Open(h.(spare := h.spare[1..]), zi, size, h.spare[0]).0)
  {
    var z := h.spare[0];
    var zone := NewZone(zi, size, z * PAGE, h.zoneSize);
    CapacityOk(h.zoneSize, size);
    NewZoneOk(zi, size, z * PAGE, h.zoneSize);
    assert z in h.spare;
    OpenLists(h.zones, h.lists, zi, z, zone);
    OpenPlaces(h.zones.Keys, h.spare, h.large, h.held, ZonePages(h), h.usage);
    assert h.zones[z := zone].Keys == h.zones.Keys + {z};
  }

  /** A chunk is taken from the first zone of the list. */
  lemma FromZoneOk(h: Heap, zi: nat)
    requires Inv(h) && ListOf(h.lists, zi) != []
    ensures var z := ListOf(h.lists, zi)[0];
      z in h.zones && h.zones[z].zi == zi && h.zones[z].nfree > 0 && ZoneOk(h.zones[z]) &&
      (h.zones[z].uindex + 1 == h.zones[z].nmax ==> h.zones[z].chain != []) && Inv(FromZone(h, zi, z).0)
  {
    var z := ListOf(h.lists, zi)[0];
    assert z in h.lists[zi];
    assert z in h.zones && ZoneFits(h.zones[z], z, h.zoneSize);
    TakeOk(h.zones[z]);
    FromLists(h.zones, h.lists, zi, Take(h.zones[z]).0);
    assert h.zones[z := Take(h.zones[z]).0].Keys == h.zones.Keys;
    assert ZoneFits(Take(h.zones[z]).0, z, h.zoneSize);
  }

  lemma FromLists(zones: map<int, Zone>, lists: map<int, seq<int>>, zi: nat, zone: Zone)
    requires ListsOk(zones, lists) && ListOf(lists, zi) != [] && zone.zi == zi && zone.nfree >= 0
    ensures var l := ListOf(lists, zi); ListsOk(zones[l[0] := zone], if zone.nfree == 0 then lists[zi := l[1..]] else lists)
  {
    var l := ListOf(lists, zi);
    var z := l[0];
    assert l == [z] + l[1..] && z in lists[zi];
    var e, m := zones[z := zone], if zone.nfree == 0 then lists[zi := l[1..]] else lists;
    forall y | y in e && e[y].nfree > 0 ensures y in ListOf(m, e[y].zi) {
      if y != z { assert y in ListOf(lists, zones[y].zi); }
    }
  }

  // --- rt_free keeps the invariant ---

  lemma DropLargeOk(h: Heap, p: int)
    requires Inv(h) && p in h.large
    ensures Inv(DropLarge(h, p)) && Loose(DropLarge(h, p), p, h.large[p])
  {
    var usage := h.usage[p := Large(0)];
    forall z, q | (z in h.zones.Keys || z in h.spare) && z <= q < z + ZonePages(h) ensures UsageOf(usage, q) == Small(q - z) {
      Elsewhere(h.pages, h.held, z, p, q);
      assert UsageOf(h.usage, q) == Small(q - z);
    }
    assert UsageOk(usage, h.zones.Keys, h.spare, h.large - {p}, ZonePages(h));
    assert Places(h.zones.Keys, h.spare, h.large - {p}, h.held, ZonePages(h));
  }

  lemma GiveLists(zones: map<int, Zone>, lists: map<int, seq<int>>, z: int, zone: Zone)
    requires ListsOk(zones, lists) && z in zones && zone.zi == zones[z].zi && zone.nfree > 0 && zones[z].nfree >= 0
    ensures ListsOk(zones[z := zone], if zones[z].nfree == 0 then lists[zone.zi := [z] + ListOf(lists, zone.zi)] else lists)
  {
    var e, m := zones[z := zone], if zones[z].nfree == 0 then lists[zone.zi := [z] + ListOf(lists, zone.zi)] else lists;
    forall y | y in e && e[y].nfree > 0 ensures y in ListOf(m, e[y].zi) {
      if y != z { assert y in ListOf(lists, zones[y].zi); }
    }
    assert zones[z].nfree == 0 ==> z !in ListOf(lists, zone.zi);
  }

  lemma GiveBackOk(h: Heap, z: int, c: int)
    requires Inv(h) && z in h.zones && c in h.zones[z].used
    ensures Inv(GiveBack(h, z, c))
  {
    assert ZoneFits(h.zones[z], z, h.zoneSize);
    var zone := Give(h.zones[z], c);
    GiveOk(h.zones[z], c);
    GiveLists(h.zones, h.lists, z, zone);
    assert h.zones[z := zone].Keys == h.zones.Keys;
    assert ZoneFits(zone, z, h.zoneSize);
  }

  lemma RetireLists(zones: map<int, Zone>, lists: map<int, seq<int>>, z: int)
    requires ListsOk(zones, lists) && z in zones && zones[z].nfree > 0
    ensures var zi := zones[z].zi; ListsOk(zones - {z}, lists[zi := Drop(ListOf(lists, zi), z)])
  {
    var zi := zones[z].zi;
    var l := ListOf(lists, zi);
    assert z in l && Distinct(l);
    RemoveAtElements(l, IndexOf(l, z));
    var e, m := zones - {z}, lists[zi := Drop(l, z)];
    forall y | y in e && e[y].nfree > 0 ensures y in ListOf(m, e[y].zi) { assert y in ListOf(lists, zones[y].zi); }
    forall i | i in m ensures Distinct(m[i]) && forall y :: y in m[i] ==> y in e && e[y].zi == i && e[y].nfree > 0 {
      if i != zi { assert forall y :: y in lists[i] ==> y in zones && zones[y].zi == i && zones[y].nfree > 0; }
    }
  }

  lemma RetirePlaces(zones: set<int>, spare: seq<int>, large: map<int, nat>, held: map<int, nat>, n: nat, usage: map<int, Usage>, z: int)
    requires Places(zones, spare, large, held, n) && UsageOk(usage, zones, spare, large, n) && z in zones
    ensures Places(zones - {z}, [z] + spare, large, held, n) && UsageOk(usage, zones - {z}, [z] + spare, large, n)
  {
    forall y, p | (y in zones - {z} || y in [z] + spare) && y <= p < y + n ensures UsageOf(usage, p) == Small(p - y) {
      assert y in zones || y in spare;
    }
  }

  lemma RetireOk(h: Heap, z: int)
    requires Inv(h) && z in h.zones && h.zones[z].nfree > 0
    ensures Inv(Retire(h, z))
  {
    RetireLists(h.zones, h.lists, z);
    RetirePlaces(h.zones.Keys, h.spare, h.large, h.held, ZonePages(h), h.usage, z);
    assert (h.zones - {z}).Keys == h.zones.Keys - {z};
  }

  lemma DropSparePlaces(zones: set<int>, spare: seq<int>, large: map<int, nat>, held: map<int, nat>, n: nat, usage: map<int, Usage>, pages: seq<Run>)
    requires Places(zones, spare, large, held, n) && UsageOk(usage, zones, spare, large, n) && spare != [] && HeldOk(pages, held)
    ensures Places(zones, spare[1..], large, held, n) && UsageOk(UnmarkZone(usage, spare[0], n), zones, spare[1..], large, n)
  {
    var z, e := spare[0], UnmarkZone(usage, spare[0], n);
    assert spare == [z] + spare[1..];
    assert z in spare;
    forall y, p | (y in zones || y in spare[1..]) && y <= p < y + n ensures UsageOf(e, p) == Small(p - y) {
      Marked(usage, z, n, p);
      assert y in zones || y in spare;
      Elsewhere(pages, held, y, z, p);
      assert UsageOf(usage, p) == Small(p - y);
    }
    forall a | a in large ensures UsageOf(e, a) == Large(large[a]) {
      Marked(usage, z, n, a);
      Elsewhere(pages, held, a, z, a);
    }
  }

  lemma DropSpareOk(h: Heap)
    requires Inv(h) && h.spare != []
    ensures Inv(DropSpare(h)) && Loose(DropSpare(h), h.spare[0], ZonePages(h))
  {
    assert h.spare[0] in h.spare;
    DropSparePlaces(h.zones.Keys, h.spare, h.large, h.held, ZonePages(h), h.usage, h.pages);
  }

  lemma FreeChunkOk(h: Heap, z: int, c: int)
    requires Inv(h) && z in h.zones && c in h.zones[z].used
    ensures var (e, r) := FreeChunk(h, z, c); Inv(e) && (r.Some? ==> Loose(e, r.value.0, r.value.1))
  {
    GiveBackOk(h, z, c);
    assert ZoneFits(h.zones[z], z, h.zoneSize);
    var g := GiveBack(h, z, c);
    if g.zones[z].nfree == g.zones[z].nmax && |ListOf(g.lists, g.zones[z].zi)| > 1 {
      RetireOk(g, z);
      if |Retire(g, z).spare| > SPARE_MAX { DropSpareOk(Retire(g, z)); }
    }
  }
}
