/** What clients of rt_malloc and rt_free of slab.c can rely on, over every run. */
module SlabRuns {
  import opened PageModel
  import opened Zones
  import opened SlabModel

  /** A block of n bytes at address c is in use. */
  ghost predicate Live(h: Heap, c: int, n: nat) {
    (exists z :: z in h.zones && InZone(h.zones[z], c, n)) || (exists a :: a in h.large && IsLarge(h, a, c, n))
  }

  predicate InZone(zone: Zone, c: int, n: nat) { c in zone.used && zone.size == n }

  predicate IsLarge(h: Heap, a: int, c: int, n: nat)
    requires a in h.large
  {
    c == a * PAGE && n == h.large[a] * PAGE
  }

  /** The n bytes at c lie in the holding at page a. */
  ghost predicate Within(h: Heap, a: int, c: int, n: nat) {
    a in h.held && a * PAGE <= c && c + n <= (a + h.held[a]) * PAGE
  }

  lemma ZoneWithin(h: Heap, z: int, c: int)
    requires Inv(h) && z in h.zones && c in h.zones[z].used
    ensures Within(h, z, c, h.zones[z].size) && h.zones[z].size > 0
  {
    assert ZoneFits(h.zones[z], z, h.zoneSize);
    ChunksInside(h.zones[z], z * PAGE, h.zoneSize, c, c);
    assert h.held[z] == ZonePages(h) && ZonePages(h) * PAGE == h.zoneSize;
  }

  lemma OneHolding(h: Heap, a: int, b: int, c: int, n: nat, d: int, m: nat)
    requires HeldOk(h.pages, h.held) && Within(h, a, c, n) && Within(h, b, d, m) && a != b
    ensures c + n <= d || d + m <= c
  {
    assert SlabModel.Apart(a, h.held[a], b, h.held[b]);
  }

  /** Where a live block is. */
  lemma Locate(h: Heap, c: int, n: nat) returns (a: int, small: bool)
    requires Inv(h) && Live(h, c, n)
    ensures Within(h, a, c, n) && n > 0
    ensures if small then a in h.zones && InZone(h.zones[a], c, n) else a in h.large && IsLarge(h, a, c, n)
  {
    if z :| z in h.zones && InZone(h.zones[z], c, n) {
      a, small := z, true;
      ZoneWithin(h, z, c);
    } else {
      a :| a in h.large && IsLarge(h, a, c, n);
      small := false;
      assert a in h.held && h.held[a] == h.large[a];
    }
  }

  /** Two live blocks are the same or do not overlap, and none overlaps a free page. */
  lemma BlocksApart(h: Heap, c: int, n: nat, d: int, m: nat)
    requires Inv(h) && Live(h, c, n) && Live(h, d, m)
    ensures (c == d && n == m) || c + n <= d || d + m <= c
  {
    var a, small := Locate(h, c, n);
    var b, small' := Locate(h, d, m);
    if a != b {
      OneHolding(h, a, b, c, n, d, m);
    } else {
      assert small == small';
      if small {
        assert ZoneFits(h.zones[a], a, h.zoneSize);
        ChunksInside(h.zones[a], a * PAGE, h.zoneSize, c, d);
      }
    }
  }

  lemma OffFreePages(h: Heap, c: int, n: nat, p: int)
    requires Inv(h) && Live(h, c, n) && Covers(h.pages, p)
    ensures c + n <= p * PAGE || (p + 1) * PAGE <= c
  {
    var a, _ := Locate(h, c, n);
    assert NotFree(h.pages, a, h.held[a]);
    assert !(a <= p < a + h.held[a]);
  }

  /** rt_free finds the zone, or the pages, that a live block came from. */
  lemma Finds(h: Heap, c: int, n: nat) returns (a: int, small: bool)
    requires Inv(h) && Live(h, c, n)
    ensures Within(h, a, c, n) && n > 0
    ensures if small then a in h.zones && InZone(h.zones[a], c, n) && FreeFirst(h, c) == FreeChunk(h, a, c)
            else a in h.large && IsLarge(h, a, c, n) && FreeFirst(h, c) == (DropLarge(h, a), Some((a, h.large[a])))
  {
    a, small := Locate(h, c, n);
    if small { LooksUp(h, a, c, n); } else { assert UsageOf(h.usage, a) == Large(h.large[a]); }
  }

  lemma LooksUp(h: Heap, z: int, c: int, n: nat)
    requires UsageOk(h.usage, h.zones.Keys, h.spare, h.large, ZonePages(h)) && z in h.zones
    requires Within(h, z, c, n) && n > 0 && h.held[z] == ZonePages(h)
    ensures FreeFirst(h, c) == FreeChunk(h, z, c)
  {
    var p := c / PAGE;
    assert z <= p < z + ZonePages(h);
    assert UsageOf(h.usage, p) == Small(p - z);
  }

  // --- rt_malloc ---

  function PagesFor(n: nat): nat { (n + (PAGE - 1)) / PAGE }

  predicate Usable(h: Heap, zi: nat) {
    var l := ListOf(h.lists, zi);
    l != [] ==> l[0] in h.zones && (h.zones[l[0]].uindex + 1 == h.zones[l[0]].nmax ==> h.zones[l[0]].chain != [])
  }

  /** rt_malloc.  The guards that follow from the invariant are repeated so that it is total. */
  function Malloc(h: Heap, n: nat): (Heap, Option<int>) {
    if n == 0 then (h, None)
    else if n >= SmallLimit(h) then MallocLarge(h, PagesFor(n))
    else
      var zi, size := ZoneIndex(n), ChunkSize(n);
      if zi >= 0 && size > 0 && Usable(h, zi) then MallocSmall(h, zi, size) else (h, None)
  }

  /** The block that a successful rt_malloc of n bytes hands out. */
  function Room(h: Heap, n: nat): nat { if n >= SmallLimit(h) then PagesFor(n) * PAGE else ChunkSize(n) }

  lemma Sizes(h: Heap, n: nat)
    requires h.zoneSize in {32768, 65536, 131072} && 0 < n < SmallLimit(h)
    ensures var zi, size := ZoneIndex(n), ChunkSize(n);
      0 <= zi < NZONES && size == SizeOf(zi) && n <= size && 8 <= size && size % 8 == 0 && 4 * size <= h.zoneSize
  {
    ZoneIndexOk(n);
    var m, q := Bucket(n);
    if n < 8192 { assert q * m <= 16 * 512 by { assert m <= 512; assert q * m <= 16 * m; } }
  }

  /** e holds the live blocks of h and one more, which was not in use. */
  ghost predicate Adds(h: Heap, e: Heap, c: int, m: nat) {
    && (forall d, k: nat :: Live(e, d, k) <==> Live(h, d, k) || (d == c && k == m))
    && (forall k: nat :: !Live(h, c, k))
  }

  lemma LargeDiff(h: Heap, e: Heap, a: int, n: nat)
    requires Inv(h) && HeldOk(e.pages, e.held) && n > 0 && e.held == h.held && a in e.held && e.held[a] == n
    requires e.zones == h.zones && e.large == h.large[a := n] && a !in h.large && a !in h.zones
    ensures Adds(h, e, a * PAGE, n * PAGE)
  {
    assert IsLarge(e, a, a * PAGE, n * PAGE);
    forall d, k: nat ensures Live(e, d, k) <==> Live(h, d, k) || (d == a * PAGE && k == n * PAGE) {
      if Live(h, d, k) {
        if b :| b in h.large && IsLarge(h, b, d, k) { assert b in e.large && IsLarge(e, b, d, k); }
      }
      if Live(e, d, k) {
        if b :| b in e.large && IsLarge(e, b, d, k) { assert b != a ==> b in h.large && IsLarge(h, b, d, k); }
      }
    }
    forall k: nat ensures !Live(h, a * PAGE, k) { Unlocated(h, e, a, a * PAGE, k); }
  }

  lemma PlaceLargeAdds(h: Heap, a: int, n: nat)
    requires Inv(h) && Loose(h, a, n) && n > 0
    ensures var e := PlaceLarge(h, a, n); Inv(e) && Adds(h, e, a * PAGE, n * PAGE)
  {
    PlaceLargeOk(h, a, n);
    LargeDiff(h, PlaceLarge(h, a, n), a, n);
  }

  /** Pages change hands without any block coming into use or going out of it. */
  lemma TakePagesSame(h: Heap, n: nat)
    requires Inv(h) && n > 0 && TakePages(h, n).1.Some?
    ensures var (e, r) := TakePages(h, n); Inv(e) && Loose(e, r.value, n) && forall d, k: nat :: Live(h, d, k) <==> Live(e, d, k)
  {
    TakePagesOk(h, n);
    SameLive(h, TakePages(h, n).0);
  }

  lemma AddsVia(h: Heap, g: Heap, e: Heap, c: int, m: nat)
    requires (forall d, k: nat :: Live(h, d, k) <==> Live(g, d, k)) && Adds(g, e, c, m)
    ensures Adds(h, e, c, m)
  {
  }

  lemma LargeAdds(h: Heap, n: nat)
    requires Inv(h) && n > 0 && MallocLarge(h, n).1.Some?
    ensures var (e, r) := MallocLarge(h, n); Inv(e) && Adds(h, e, r.value, n * PAGE)
  {
    var (g, r) := TakePages(h, n);
    TakePagesSame(h, n);
    PlaceLargeAdds(g, r.value, n);
    AddsVia(h, g, PlaceLarge(g, r.value, n), r.value * PAGE, n * PAGE);
  }

  /** A block inside a holding of e that h has not given out at all. */
  lemma Unlocated(h: Heap, e: Heap, z: int, c: int, k: nat)
    requires Inv(h) && HeldOk(e.pages, e.held) && (forall b :: b in h.held ==> b in e.held && e.held[b] == h.held[b])
    requires z !in h.zones && z !in h.large && Within(e, z, c, 1)
    ensures !Live(h, c, k)
  {
    if Live(h, c, k) {
      var b, _ := Locate(h, c, k);
      OneHolding(e, b, z, c, k, c, 1);
    }
  }

  /** Giving a zone one more chunk in use. */
  lemma ZoneAdds(h: Heap, e: Heap, z: int, c: int)
    requires Inv(h) && Inv(e) && e.large == h.large && e.held == h.held && z in e.zones && e.zones == h.zones[z := e.zones[z]]
    requires z in h.zones ==> e.zones[z].size == h.zones[z].size && e.zones[z].used == h.zones[z].used + {c} && c !in h.zones[z].used
    requires z !in h.zones ==> e.zones[z].used == {c} && z !in h.large
    ensures Adds(h, e, c, e.zones[z].size)
  {
    var m := e.zones[z].size;
    ZoneDiff(h, e, z, c, m);
    ZoneWithin(e, z, c);
    forall k: nat ensures !Live(h, c, k) {
      if Live(h, c, k) {
        var b, small := Locate(h, c, k);
        assert b != z;
        OneHolding(e, b, z, c, k, c, m);
      }
    }
  }

  lemma ZoneDiff(h: Heap, e: Heap, z: int, c: int, m: nat)
    requires e.large == h.large && z in e.zones && e.zones == h.zones[z := e.zones[z]] && m == e.zones[z].size
    requires z in h.zones ==> e.zones[z].size == h.zones[z].size && e.zones[z].used == h.zones[z].used + {c}
    requires z !in h.zones ==> e.zones[z].used == {c}
    ensures forall d, k: nat :: Live(e, d, k) <==> Live(h, d, k) || (d == c && k == m)
  {
    forall d, k: nat ensures Live(e, d, k) <==> Live(h, d, k) || (d == c && k == m) {
      if Live(h, d, k) {
        if y :| y in h.zones && InZone(h.zones[y], d, k) { assert y in e.zones && InZone(e.zones[y], d, k); }
        if a :| a in h.large && IsLarge(h, a, d, k) { assert a in e.large && IsLarge(e, a, d, k); }
      }
      if d == c && k == m { assert InZone(e.zones[z], d, k); }
      if Live(e, d, k) && !(d == c && k == m) {
        if y :| y in e.zones && InZone(e.zones[y], d, k) { assert y in h.zones && InZone(h.zones[y], d, k); }
        if a :| a in e.large && IsLarge(e, a, d, k) { assert a in h.large && IsLarge(h, a, d, k); }
      }
    }
  }

  lemma FromZoneAdds(h: Heap, zi: nat)
    requires Inv(h) && ListOf(h.lists, zi) != []
    ensures Usable(h, zi)
    ensures var z := ListOf(h.lists, zi)[0]; var (e, r) := FromZone(h, zi, z);
      Inv(e) && r.Some? && Adds(h, e, r.value, h.zones[z].size) && h.zones[z].zi == zi
  {
    var z := ListOf(h.lists, zi)[0];
    FromZoneOk(h, zi);
    TakeOk(h.zones[z]);
    ZoneAdds(h, FromZone(h, zi, z).0, z, FromZone(h, zi, z).1.value);
  }

  lemma OpenAdds(h: Heap, zi: nat, size: nat)
    requires Inv(h) && h.spare != []
    requires size >= 8 && size % 8 == 0 && 4 * size <= h.zoneSize && size == SizeOf(zi)
    ensures var (e, r) := Open(h.(spare := h.spare[1..]), zi, size, h.spare[0]); Inv(e) && r.Some? && Adds(h, e, r.value, size)
  {
    var z := h.spare[0];
    assert z in h.spare;
    OpenOk(h, zi, size);
    var (e, r) := Open(h.(spare := h.spare[1..]), zi, size, z);
    ZoneAdds(h, e, z, r.value);
  }

  /** Only zones in use and large allocations count. */
  lemma SameLive(h: Heap, g: Heap)
    requires g.zones == h.zones && g.large == h.large
    ensures forall c, n: nat :: Live(h, c, n) <==> Live(g, c, n)
  {
    forall c, n: nat ensures Live(h, c, n) <==> Live(g, c, n) {
      if a :| a in h.large && IsLarge(h, a, c, n) { assert IsLarge(g, a, c, n); }
      if a :| a in g.large && IsLarge(g, a, c, n) { assert IsLarge(h, a, c, n); }
    }
  }

  lemma PlaceZoneAdds(h: Heap, zi: nat, size: nat, z: int)
    requires Inv(h) && Loose(h, z, ZonePages(h))
    requires size >= 8 && size % 8 == 0 && 4 * size <= h.zoneSize && size == SizeOf(zi)
    ensures var (e, r) := PlaceZone(h, zi, size, z); Inv(e) && r.Some? && Adds(h, e, r.value, size)
  {
    var m := h.(usage := MarkZone(h.usage, z, ZonePages(h)));
    var g := m.(spare := [z] + h.spare);
    AsSpareOk(h, z);
    OpenAdds(g, zi, size);
    assert g.spare[1..] == h.spare && g.(spare := g.spare[1..]) == m;
    SameLive(h, g);
    AddsVia(h, g, PlaceZone(h, zi, size, z).0, PlaceZone(h, zi, size, z).1.value, size);
  }

  lemma HandAdds(h: Heap, zi: nat, size: nat)
    requires Inv(h) && size >= 8 && size % 8 == 0 && 4 * size <= h.zoneSize && size == SizeOf(zi) && AtHand(h, zi)
    ensures Usable(h, zi)
    ensures var (e, r) := FromHand(h, zi, size); Inv(e) && r.Some? && Adds(h, e, r.value, size)
  {
    var l := ListOf(h.lists, zi);
    if l != [] {
      FromZoneAdds(h, zi);
      assert l[0] in h.lists[zi];
      assert ZoneFits(h.zones[l[0]], l[0], h.zoneSize);
    } else {
      OpenAdds(h, zi, size);
    }
  }

  lemma SmallAdds(h: Heap, zi: nat, size: nat)
    requires Inv(h) && size >= 8 && size % 8 == 0 && 4 * size <= h.zoneSize && size == SizeOf(zi)
    ensures Usable(h, zi)
    ensures var (e, r) := MallocSmall(h, zi, size); Inv(e) && if r.Some? then Adds(h, e, r.value, size) else e == h
  {
    if AtHand(h, zi) {
      HandAdds(h, zi, size);
    } else if TakePages(h, ZonePages(h)).1.Some? {
      var (g, r) := TakePages(h, ZonePages(h));
      TakePagesSame(h, ZonePages(h));
      PlaceZoneAdds(g, zi, size, r.value);
      AddsVia(h, g, PlaceZone(g, zi, size, r.value).0, PlaceZone(g, zi, size, r.value).1.value, size);
    }
  }

  /** rt_malloc hands out a block that was not in use, at least as large as asked, and otherwise changes
      nothing a client can see; when it fails it changes nothing at all. */
  lemma MallocOk(h: Heap, n: nat)
    requires Inv(h)
    ensures var (e, r) := Malloc(h, n);
      Inv(e) && if r.Some? then Adds(h, e, r.value, Room(h, n)) && Room(h, n) >= n > 0 else e == h
  {
    if n > 0 {
      if n >= SmallLimit(h) {
        if MallocLarge(h, PagesFor(n)).1.Some? { LargeAdds(h, PagesFor(n)); }
      } else {
        Sizes(h, n);
        SmallAdds(h, ZoneIndex(n), ChunkSize(n));
      }
    }
  }

  /** Nothing is left to serve a request of n bytes: no stretch of free pages that is long enough and,
      for a small one, no zone with a chunk left and no spare zone either. */
  ghost predicate Exhausted(h: Heap, n: nat)
    requires 0 < n < SmallLimit(h) ==> ZoneIndex(n) >= 0
  {
    if n >= SmallLimit(h) then forall a :: !Stretch(h.pages, a, PagesFor(n))
    else n > 0 && ListOf(h.lists, ZoneIndex(n)) == [] && h.spare == [] && forall a :: !Stretch(h.pages, a, ZonePages(h))
  }

  /** rt_malloc fails exactly for size zero and when nothing is left. */
  lemma MallocFails(h: Heap, n: nat)
    requires Inv(h)
    ensures 0 < n < SmallLimit(h) ==> ZoneIndex(n) >= 0
    ensures Malloc(h, n).1.None? <==> n == 0 || Exhausted(h, n)
  {
    if n >= SmallLimit(h) {
      AllocFails(h.pages, PagesFor(n));
    } else if n > 0 {
      Sizes(h, n);
      SmallAdds(h, ZoneIndex(n), ChunkSize(n));
      AllocFails(h.pages, ZonePages(h));
    }
  }

  // --- rt_free ---

  /** e holds the live blocks of h except the one at c. */
  ghost predicate Loses(h: Heap, e: Heap, c: int) { forall d, k: nat :: Live(e, d, k) <==> Live(h, d, k) && d != c }

  /** Giving up is the reverse of handing out. */
  lemma Reversed(h: Heap, e: Heap, c: int, m: nat)
    requires Adds(e, h, c, m)
    ensures Loses(h, e, c)
  {
  }

  lemma LargeLoses(h: Heap, a: int)
    requires Inv(h) && a in h.large
    ensures Inv(DropLarge(h, a)) && Loose(DropLarge(h, a), a, h.large[a]) && Loses(h, DropLarge(h, a), a * PAGE)
  {
    var e, n := DropLarge(h, a), h.large[a];
    DropLargeOk(h, a);
    assert h.large == e.large[a := n];
    LargeDiff(e, h, a, n);
    Reversed(h, e, a * PAGE, n * PAGE);
  }

  lemma GiveLoses(h: Heap, z: int, c: int)
    requires Inv(h) && z in h.zones && c in h.zones[z].used
    ensures Inv(GiveBack(h, z, c)) && Loses(h, GiveBack(h, z, c), c)
  {
    var e := GiveBack(h, z, c);
    GiveBackOk(h, z, c);
    assert h.zones == e.zones[z := h.zones[z]] && h.zones[z].used == e.zones[z].used + {c};
    ZoneAdds(e, h, z, c);
    Reversed(h, e, c, h.zones[z].size);
  }

  /** A zone that is retired or released has no chunk in use. */
  lemma RetireKeeps(g: Heap, z: int)
    requires Inv(g) && z in g.zones && g.zones[z].nfree == g.zones[z].nmax
    ensures forall c, n: nat :: Live(g, c, n) <==> Live(Retire(g, z), c, n)
  {
    var r := Retire(g, z);
    assert ZoneFits(g.zones[z], z, g.zoneSize);
    FullIsUnused(g.zones[z]);
    forall c, n: nat ensures Live(g, c, n) <==> Live(r, c, n) {
      if y :| y in g.zones && InZone(g.zones[y], c, n) { assert y in r.zones && InZone(r.zones[y], c, n); }
      if y :| y in r.zones && InZone(r.zones[y], c, n) { assert y in g.zones && InZone(g.zones[y], c, n); }
      if a :| a in g.large && IsLarge(g, a, c, n) { assert IsLarge(r, a, c, n); }
      if a :| a in r.large && IsLarge(r, a, c, n) { assert IsLarge(g, a, c, n); }
    }
  }

  lemma ChunkLoses(h: Heap, z: int, c: int)
    requires Inv(h) && z in h.zones && c in h.zones[z].used
    ensures var (e, r) := FreeChunk(h, z, c); Inv(e) && Loses(h, e, c) && (r.Some? ==> Loose(e, r.value.0, r.value.1))
  {
    var g := GiveBack(h, z, c);
    GiveLoses(h, z, c);
    FreeChunkOk(h, z, c);
    if g.zones[z].nfree == g.zones[z].nmax && |ListOf(g.lists, g.zones[z].zi)| > 1 {
      RetireKeeps(g, z);
      var r := Retire(g, z);
      if |r.spare| > SPARE_MAX { SameLive(r, DropSpare(r)); }
    }
  }

  /** Undisturbed, rt_free takes exactly that block out of use. */
  lemma FreeBlockOk(h: Heap, c: int, n: nat)
    requires Inv(h) && Live(h, c, n)
    ensures Inv(FreeBlock(h, c)) && Loses(h, FreeBlock(h, c), c)
  {
    FreeSection(h, c, n);
    AllReturned(h, c, FreeFirst(h, c));
  }

  lemma AllReturned(h: Heap, c: int, t: (Heap, Option<(int, nat)>))
    requires Freed(h, c, t)
    ensures var e := match t.1 case None => t.0 case Some(run) => ReturnPages(t.0, run.0, run.1);
      Inv(e) && Loses(h, e, c)
  {
    if t.1.Some? {
      var e := ReturnPages(t.0, t.1.value.0, t.1.value.1);
      ReturnPagesOk(t.0, t.1.value.0, t.1.value.1);
      SameLive(t.0, e);
    }
  }

  // --- runs ---

  /** What a caller between two sections has pages for. */
  datatype Job = ForLarge(n: nat) | ForZone(n: nat) | ToReturn(pages: nat)

  /** `owed` maps the blocks the clients hold to the sizes they asked for, `flight` the pages in the hands
      of callers to what they are for. */
  datatype Client = Client(h: Heap, owed: map<int, nat>, flight: map<int, Job>)

  /** The sections under the heap lock: rt_malloc as far as it gets without the page allocator, the page
      allocator for a large request or for a zone, the rest of rt_malloc; rt_free up to the page
      allocator, and the page allocator. */
  datatype Event = MallocOf(n: nat) | PagesOf(n: nat) | PlaceIt(a: int) | FreeOf(c: int) | ReturnIt(a: int)

  predicate Legal(s: Client, v: Event) {
    match v
    case MallocOf(n) => true
    case PagesOf(n) => n > 0
    case PlaceIt(a) => a in s.flight && !s.flight[a].ToReturn?
    case FreeOf(c) => c in s.owed
    case ReturnIt(a) => a in s.flight && s.flight[a].ToReturn?
  }

  function JobPages(h: Heap, job: Job): nat {
    match job
    case ForLarge(n) => PagesFor(n)
    case ForZone(_) => ZonePages(h)
    case ToReturn(k) => k
  }

  function JobFor(h: Heap, n: nat): Job { if n >= SmallLimit(h) then ForLarge(n) else ForZone(n) }

  /** A small request served at once, or left for the page allocator. */
  function FirstTry(h: Heap, n: nat): (Heap, Option<int>) {
    if !(0 < n < SmallLimit(h)) then (h, None)
    else
      var zi, size := ZoneIndex(n), ChunkSize(n);
      if zi >= 0 && size > 0 && Usable(h, zi) && AtHand(h, zi) then FromHand(h, zi, size) else (h, None)
  }

  function Place(h: Heap, a: int, job: Job): (Heap, Option<int>) {
    match job
    case ForLarge(n) => (PlaceLarge(h, a, PagesFor(n)), Some(a * PAGE))
    case ForZone(n) => if 0 < n < LIMIT && ZoneIndex(n) >= 0 && ChunkSize(n) > 0 then PlaceZone(h, ZoneIndex(n), ChunkSize(n), a) else (h, None)
    case ToReturn(_) => (h, None)
  }

  function Owing(owed: map<int, nat>, r: Option<int>, n: nat): map<int, nat> {
    match r
    case None => owed
    case Some(c) => owed[c := n]
  }

  function AfterFree(s: Client, c: int, t: (Heap, Option<(int, nat)>)): Client {
    Client(t.0, s.owed - {c}, if t.1.Some? then s.flight[t.1.value.0 := ToReturn(t.1.value.1)] else s.flight)
  }

  function Step(s: Client, v: Event): Client
    requires Legal(s, v)
  {
    match v
    case MallocOf(n) =>
      var (e, r) := FirstTry(s.h, n);
      Client(e, Owing(s.owed, r, n), s.flight)
    case PagesOf(n) =>
      var (e, r) := TakePages(s.h, JobPages(s.h, JobFor(s.h, n)));
      Client(e, s.owed, match r case None => s.flight case Some(a) => s.flight[a := JobFor(s.h, n)])
    case PlaceIt(a) =>
      var (e, r) := Place(s.h, a, s.flight[a]);
      Client(e, Owing(s.owed, r, s.flight[a].n), s.flight - {a})
    case FreeOf(c) => AfterFree(s, c, FreeFirst(s.h, c))
    case ReturnIt(a) => Client(ReturnPages(s.h, a, s.flight[a].pages), s.owed, s.flight - {a})
  }

  predicate JobOk(h: Heap, job: Job) {
    match job
    case ForLarge(n) => n >= SmallLimit(h) && n > 0
    case ForZone(n) => 0 < n < SmallLimit(h)
    case ToReturn(k) => true
  }

  /** Pages in flight are taken, and in no zone and no allocation. */
  ghost predicate InFlight(h: Heap, flight: map<int, Job>) {
    forall a :: a in flight ==> JobOk(h, flight[a]) && Loose(h, a, JobPages(h, flight[a]))
  }

  /** Exactly the blocks owed are live, each at least as large as was asked for. */
  ghost predicate Owes(h: Heap, owed: map<int, nat>) {
    && (forall c, m: nat :: Live(h, c, m) ==> c in owed && m >= owed[c])
    && (forall c :: c in owed ==> IsLive(h, c))
  }

  ghost predicate Good(s: Client) { Inv(s.h) && InFlight(s.h, s.flight) && Owes(s.h, s.owed) }

  ghost predicate IsLive(h: Heap, c: int) { exists m: nat :: Live(h, c, m) }

  lemma OwesMore(h: Heap, e: Heap, owed: map<int, nat>, c: int, m: nat, n: nat)
    requires Owes(h, owed) && Adds(h, e, c, m) && m >= n
    ensures Owes(e, owed[c := n])
  {
    assert Live(e, c, m);
    forall d | d in owed[c := n] ensures IsLive(e, d) {
      if d != c {
        assert IsLive(h, d);
        var k: nat :| Live(h, d, k);
        assert Live(e, d, k);
      }
    }
  }

  lemma OwesLess(h: Heap, e: Heap, owed: map<int, nat>, c: int)
    requires Owes(h, owed) && Loses(h, e, c)
    ensures Owes(e, owed - {c})
  {
    forall d | d in owed - {c} ensures IsLive(e, d) {
      assert IsLive(h, d);
      var k: nat :| Live(h, d, k);
      assert Live(e, d, k);
    }
  }

  lemma OwesSame(h: Heap, e: Heap, owed: map<int, nat>)
    requires Owes(h, owed) && e.zones == h.zones && e.large == h.large
    ensures Owes(e, owed)
  {
    SameLive(h, e);
    forall d | d in owed ensures IsLive(e, d) {
      assert IsLive(h, d);
      var k: nat :| Live(h, d, k);
      assert Live(e, d, k);
    }
  }

  /** Nothing that was in flight becomes part of a zone or an allocation, or is given back, except `a`. */
  ghost predicate LeavesLoose(h: Heap, e: Heap, a: int) {
    e.zoneSize == h.zoneSize && forall b, m: nat :: Loose(h, b, m) && b != a ==> Loose(e, b, m)
  }

  lemma FlightKept(h: Heap, e: Heap, flight: map<int, Job>, a: int)
    requires InFlight(h, flight) && LeavesLoose(h, e, a)
    ensures InFlight(e, flight - {a})
  {
    forall b | b in flight - {a} ensures JobOk(e, flight[b]) && Loose(e, b, JobPages(e, flight[b])) {
      assert Loose(h, b, JobPages(h, flight[b]));
    }
  }

  lemma TryGood(s: Client, n: nat)
    requires Good(s)
    ensures Good(Step(s, MallocOf(n)))
  {
    var (e, r) := FirstTry(s.h, n);
    if r.Some? {
      Sizes(s.h, n);
      HandAdds(s.h, ZoneIndex(n), ChunkSize(n));
      OwesMore(s.h, e, s.owed, r.value, ChunkSize(n), n);
      HandLoose(s.h, ZoneIndex(n), ChunkSize(n));
      NoneLoose(s, e);
    }
  }

  lemma NoneLoose(s: Client, e: Heap)
    requires InFlight(s.h, s.flight) && e.zoneSize == s.h.zoneSize && forall b, m: nat :: Loose(s.h, b, m) ==> Loose(e, b, m)
    ensures InFlight(e, s.flight)
  {
    forall b | b in s.flight ensures JobOk(e, s.flight[b]) && Loose(e, b, JobPages(e, s.flight[b])) {
      assert Loose(s.h, b, JobPages(s.h, s.flight[b]));
    }
  }

  lemma HandLoose(h: Heap, zi: nat, size: nat)
    requires Inv(h) && size > 0 && AtHand(h, zi) && Usable(h, zi)
    ensures var e := FromHand(h, zi, size).0; e.zoneSize == h.zoneSize && forall b, m: nat :: Loose(h, b, m) ==> Loose(e, b, m)
  {
    if ListOf(h.lists, zi) == [] { assert h.spare[0] in h.spare && forall z :: z in h.spare[1..] ==> z in h.spare; }
  }

  lemma PagesGood(s: Client, n: nat)
    requires Good(s) && n > 0
    ensures Good(Step(s, PagesOf(n)))
  {
    var k := JobPages(s.h, JobFor(s.h, n));
    var (e, r) := TakePages(s.h, k);
    if r.Some? {
      TakePagesOk(s.h, k);
      OwesSame(s.h, e, s.owed);
      NoneLoose(s, e);
    }
  }

  lemma PlaceAdds(h: Heap, a: int, job: Job)
    requires Inv(h) && JobOk(h, job) && !job.ToReturn? && Loose(h, a, JobPages(h, job))
    ensures var (e, r) := Place(h, a, job); Inv(e) && r.Some? && Adds(h, e, r.value, Room(h, job.n)) && Room(h, job.n) >= job.n && LeavesLoose(h, e, a)
  {
    match job
    case ForLarge(n) => PlaceLargeAdds(h, a, PagesFor(n));
    case ForZone(n) =>
      Sizes(h, n);
      PlaceZoneAdds(h, ZoneIndex(n), ChunkSize(n), a);
  }

  lemma PlaceGood(s: Client, a: int)
    requires Good(s) && Legal(s, PlaceIt(a))
    ensures Good(Step(s, PlaceIt(a)))
  {
    var job := s.flight[a];
    var (e, r) := Place(s.h, a, job);
    PlaceAdds(s.h, a, job);
    OwesMore(s.h, e, s.owed, r.value, Room(s.h, job.n), job.n);
    FlightKept(s.h, e, s.flight, a);
  }

  /** What rt_free leaves when it calls the page allocator: its block out of use, its pages in nobody
      else's hands, and all other pages in flight as they were. */
  ghost predicate Freed(h: Heap, c: int, t: (Heap, Option<(int, nat)>)) {
    && Inv(t.0) && t.0.zoneSize == h.zoneSize && Loses(h, t.0, c)
    && (forall b, m: nat :: Loose(h, b, m) ==> Loose(t.0, b, m))
    && (t.1.Some? ==> Loose(t.0, t.1.value.0, t.1.value.1) && forall m: nat :: !Loose(h, t.1.value.0, m))
  }

  lemma FreeSection(h: Heap, c: int, n: nat)
    requires Inv(h) && Live(h, c, n)
    ensures Freed(h, c, FreeFirst(h, c))
  {
    var a, small := Finds(h, c, n);
    if small {
      ChunkLoses(h, a, c);
      ChunkLoose(h, a, c);
    } else {
      LargeLoses(h, a);
    }
  }

  lemma ChunkLoose(h: Heap, z: int, c: int)
    requires Inv(h) && z in h.zones
    ensures var (e, r) := FreeChunk(h, z, c);
      && e.zoneSize == h.zoneSize && (forall b, m: nat :: Loose(h, b, m) ==> Loose(e, b, m))
      && (r.Some? ==> r.value.0 in h.zones || r.value.0 in h.spare)
  {
    var g := GiveBack(h, z, c);
    if g.zones[z].nfree == g.zones[z].nmax && |ListOf(g.lists, g.zones[z].zi)| > 1 {
      var r := Retire(g, z);
      assert r.spare == [z] + h.spare && forall y :: y in r.spare ==> y == z || y in h.spare;
      if |r.spare| > SPARE_MAX { assert forall y :: y in r.spare[1..] ==> y in r.spare; }
    }
  }

  lemma FreeGood(s: Client, c: int)
    requires Good(s) && c in s.owed
    ensures Good(AfterFree(s, c, FreeFirst(s.h, c)))
  {
    assert IsLive(s.h, c);
    var n: nat :| Live(s.h, c, n);
    FreeSection(s.h, c, n);
    FreedGood(s, c, FreeFirst(s.h, c));
  }

  lemma FreedGood(s: Client, c: int, t: (Heap, Option<(int, nat)>))
    requires Good(s) && Freed(s.h, c, t)
    ensures Good(AfterFree(s, c, t))
    ensures t.1.Some? ==> t.1.value.0 !in s.flight
  {
    OwesLess(s.h, t.0, s.owed, c);
    NoneLoose(s, t.0);
    forall a | a in s.flight ensures t.1.Some? ==> a != t.1.value.0 { assert Loose(s.h, a, JobPages(s.h, s.flight[a])); }
  }

  lemma ReturnGood(s: Client, a: int)
    requires Good(s) && Legal(s, ReturnIt(a))
    ensures Good(Step(s, ReturnIt(a)))
  {
    var e := ReturnPages(s.h, a, s.flight[a].pages);
    assert Loose(s.h, a, JobPages(s.h, s.flight[a]));
    ReturnPagesOk(s.h, a, s.flight[a].pages);
    OwesSame(s.h, e, s.owed);
    FlightKept(s.h, e, s.flight, a);
  }

  /** Every section keeps the heap consistent, the live blocks exactly those owed, and the pages in flight
      out of everybody's way. */
  lemma StepGood(s: Client, v: Event)
    requires Good(s) && Legal(s, v)
    ensures Good(Step(s, v))
  {
    match v
    case MallocOf(n) => TryGood(s, n);
    case PagesOf(n) => PagesGood(s, n);
    case PlaceIt(a) => PlaceGood(s, a);
    case FreeOf(c) => FreeGood(s, c);
    case ReturnIt(a) => ReturnGood(s, a);
  }

  /** No live block lies on pages in flight. */
  lemma OffFlight(s: Client, a: int, c: int, n: nat)
    requires Good(s) && a in s.flight && Live(s.h, c, n)
    ensures c + n <= a * PAGE || (a + JobPages(s.h, s.flight[a])) * PAGE <= c
  {
    var b, _ := Locate(s.h, c, n);
    assert Loose(s.h, a, JobPages(s.h, s.flight[a]));
    OneHolding(s.h, a, b, a * PAGE, s.h.held[a] * PAGE, c, n);
  }

  ghost predicate LegalRun(s: Client, vs: seq<Event>)
    decreases |vs|
  {
    vs == [] || (Legal(s, vs[0]) && LegalRun(Step(s, vs[0]), vs[1..]))
  }

  function Run(s: Client, vs: seq<Event>): Client
    requires LegalRun(s, vs)
    decreases |vs|
  {
    if vs == [] then s else Run(Step(s, vs[0]), vs[1..])
  }

  lemma {:induction false} RunGood(s: Client, vs: seq<Event>)
    requires Good(s) && LegalRun(s, vs)
    ensures Good(Run(s, vs))
    decreases |vs|
  {
    if vs != [] {
      StepGood(s, vs[0]);
      RunGood(Step(s, vs[0]), vs[1..]);
    }
  }

  /** After any run, the bytes a client asked for in two different blocks do not overlap. */
  lemma OwedApart(s: Client, vs: seq<Event>, c: int, d: int)
    requires Good(s) && LegalRun(s, vs) && c in Run(s, vs).owed && d in Run(s, vs).owed && c != d
    ensures var owed := Run(s, vs).owed; c + owed[c] <= d || d + owed[d] <= c
  {
    RunGood(s, vs);
    var e := Run(s, vs);
    assert IsLive(e.h, c) && IsLive(e.h, d);
    var n: nat :| Live(e.h, c, n);
    var m: nat :| Live(e.h, d, m);
    BlocksApart(e.h, c, n, d, m);
  }

  /** rt_system_heap_init: one run of pages, of which the first k hold memusage[]. */
  function Initial(zoneSize: nat, at: int, npages: nat, k: nat): Client {
    Client(Heap(zoneSize, Alloc([PageModel.Run(at, npages)], k).0, map[], map[], [], map[], map[], map[at := k]), map[], map[])
  }

  lemma InitialGood(zoneSize: nat, at: int, npages: nat, k: nat)
    requires zoneSize in {32768, 65536, 131072} && 0 < k < npages
    ensures Good(Initial(zoneSize, at, npages, k))
  {
    var s := [PageModel.Run(at, npages)];
    assert Coalesced(s) && HeldOk(s, map[]);
    assert Alloc(s, k).1 == Some(at);
    Hold(s, map[], k);
  }
}
