/** No page of the slab heap is ever lost: in every state that can be reached each is free or in the hands
    of exactly one zone, allocation or caller. */
module SlabEffects {
  import opened Seqs
  import opened PageModel
  import opened Zones
  import opened SlabModel
  import opened SlabRuns

  ghost predicate Holds(held: map<int, nat>, p: int) { exists a :: a in held && a <= p < a + held[a] }

  /** The pages from `lo` to `hi` are those that are free or held, and no page is both. */
  ghost predicate Whole(pages: seq<PageModel.Run>, held: map<int, nat>, lo: int, hi: int) {
    forall p :: (lo <= p < hi <==> Covers(pages, p) || Holds(held, p)) && !(Covers(pages, p) && Holds(held, p))
  }

  /** What is held is the usage table at `base`, a zone, a spare zone, a large allocation or in flight. */
  ghost predicate Owned(s: Client, base: int) {
    forall a :: a in s.h.held <==> a == base || a in s.h.zones || a in s.h.spare || a in s.h.large || a in s.flight
  }

  /** The usage table is not given away. */
  ghost predicate Fixed(s: Client, base: int) {
    base !in s.h.zones && base !in s.h.spare && base !in s.h.large && base !in s.flight
  }

  ghost predicate Complete(s: Client, base: int, lo: int, hi: int) {
    Good(s) && Whole(s.h.pages, s.h.held, lo, hi) && Owned(s, base) && Fixed(s, base) && |s.h.spare| <= SPARE_MAX
  }

  // ---- pages -----------------------------------------------------------------------------

  lemma TakenWhole(pages: seq<PageModel.Run>, held: map<int, nat>, n: nat, lo: int, hi: int)
    requires HeldOk(pages, held) && Whole(pages, held, lo, hi) && n > 0 && Alloc(pages, n).1.Some?
    ensures var (e, r) := Alloc(pages, n); Whole(e, held[r.value := n], lo, hi)
  {
    AllocOk(pages, n);
    Hold(pages, held, n);
    var e, a := Alloc(pages, n).0, Alloc(pages, n).1.value;
    var more := held[a := n];
    forall p ensures (lo <= p < hi <==> Covers(e, p) || Holds(more, p)) && !(Covers(e, p) && Holds(more, p)) {
      HoldsMore(held, a, n, p);
      assert Covers(pages, p) <==> Covers(e, p) || a <= p < a + n;
    }
  }

  lemma HoldsMore(held: map<int, nat>, a: int, n: nat, p: int)
    requires a !in held
    ensures Holds(held[a := n], p) <==> Holds(held, p) || a <= p < a + n
  {
    var more := held[a := n];
    if Holds(held, p) {
      var b :| b in held && b <= p < b + held[b];
      assert b in more && b <= p < b + more[b];
    }
    if a <= p < a + n { assert a in more && a <= p < a + more[a]; }
  }

  lemma ReturnedWhole(pages: seq<PageModel.Run>, held: map<int, nat>, a: int, lo: int, hi: int)
    requires HeldOk(pages, held) && Whole(pages, held, lo, hi) && a in held
    ensures Whole(Free(pages, a, held[a]), held - {a}, lo, hi)
  {
    assert NotFree(pages, a, held[a]);
    FreeOk(pages, a, held[a]);
    var e, less, n := Free(pages, a, held[a]), held - {a}, held[a];
    assert less[a := n] == held;
    forall p ensures (lo <= p < hi <==> Covers(e, p) || Holds(less, p)) && !(Covers(e, p) && Holds(less, p)) {
      HoldsMore(less, a, n, p);
      if Holds(less, p) {
        var b :| b in less && b <= p < b + less[b];
        assert SlabModel.Apart(a, held[a], b, held[b]);
      }
    }
  }

  // ---- every section keeps them -------------------------------------------------------------

  lemma TryComplete(s: Client, n: nat, base: int, lo: int, hi: int)
    requires Complete(s, base, lo, hi)
    ensures Complete(Step(s, MallocOf(n)), base, lo, hi)
  {
    TryGood(s, n);
    var (e, r) := FirstTry(s.h, n);
    if r.Some? {
      Sizes(s.h, n);
      HandAdds(s.h, ZoneIndex(n), ChunkSize(n));
      HandOwned(s, ZoneIndex(n), ChunkSize(n), base);
    }
  }

  lemma HandOwned(s: Client, zi: nat, size: nat, base: int)
    requires Inv(s.h) && Owned(s, base) && Fixed(s, base) && size > 0 && AtHand(s.h, zi) && Usable(s.h, zi)
    ensures var e := FromHand(s.h, zi, size).0;
      e.pages == s.h.pages && e.held == s.h.held && Owned(s.(h := e), base) && Fixed(s.(h := e), base) && |e.spare| <= |s.h.spare|
  {
    if ListOf(s.h.lists, zi) == [] { assert s.h.spare == [s.h.spare[0]] + s.h.spare[1..] && s.h.spare[0] in s.h.spare; }
  }

  lemma PagesComplete(s: Client, n: nat, base: int, lo: int, hi: int)
    requires Complete(s, base, lo, hi) && n > 0
    ensures Complete(Step(s, PagesOf(n)), base, lo, hi)
  {
    PagesGood(s, n);
    var k := JobPages(s.h, JobFor(s.h, n));
    var (e, r) := TakePages(s.h, k);
    if r.Some? {
      TakePagesOk(s.h, k);
      TakenWhole(s.h.pages, s.h.held, k, lo, hi);
      assert base in s.h.held;
    }
  }

  lemma PlaceComplete(s: Client, a: int, base: int, lo: int, hi: int)
    requires Complete(s, base, lo, hi) && Legal(s, PlaceIt(a))
    ensures Complete(Step(s, PlaceIt(a)), base, lo, hi)
  {
    PlaceGood(s, a);
    var job := s.flight[a];
    PlaceAdds(s.h, a, job);
    var e := Place(s.h, a, job).0;
    if job.ForLarge? { assert e == PlaceLarge(s.h, a, PagesFor(job.n)); }
  }

  lemma ReturnComplete(s: Client, a: int, base: int, lo: int, hi: int)
    requires Complete(s, base, lo, hi) && Legal(s, ReturnIt(a))
    ensures Complete(Step(s, ReturnIt(a)), base, lo, hi)
  {
    ReturnGood(s, a);
    assert Loose(s.h, a, JobPages(s.h, s.flight[a]));
    ReturnedWhole(s.h.pages, s.h.held, a, lo, hi);
  }

  lemma FreeComplete(s: Client, c: int, base: int, lo: int, hi: int)
    requires Complete(s, base, lo, hi) && c in s.owed
    ensures Complete(AfterFree(s, c, FreeFirst(s.h, c)), base, lo, hi)
  {
    FreeGood(s, c);
    assert IsLive(s.h, c);
    var n: nat :| Live(s.h, c, n);
    var a, small := Finds(s.h, c, n);
    if small { ChunkOwned(s, a, c, base); } else { LargeOwned(s, a, c, base); }
  }

  ghost predicate FreedOwned(s: Client, c: int, base: int) {
    var (e, r) := FreeFirst(s.h, c);
    && e.pages == s.h.pages && e.held == s.h.held && |e.spare| <= SPARE_MAX
    && Owned(AfterFree(s, c, (e, r)), base) && Fixed(AfterFree(s, c, (e, r)), base)
  }

  lemma LargeOwned(s: Client, a: int, c: int, base: int)
    requires Owned(s, base) && Fixed(s, base) && |s.h.spare| <= SPARE_MAX && a in s.h.large && FreeFirst(s.h, c) == (DropLarge(s.h, a), Some((a, s.h.large[a])))
    ensures FreedOwned(s, c, base)
  {
  }

  lemma ChunkOwned(s: Client, z: int, c: int, base: int)
    requires Owned(s, base) && Fixed(s, base) && |s.h.spare| <= SPARE_MAX && z in s.h.zones && FreeFirst(s.h, c) == FreeChunk(s.h, z, c)
    ensures FreedOwned(s, c, base)
  {
    var g := GiveBack(s.h, z, c);
    assert g.zones.Keys == s.h.zones.Keys;
    if g.zones[z].nfree == g.zones[z].nmax && |ListOf(g.lists, g.zones[z].zi)| > 1 {
      var r := Retire(g, z);
      assert r.spare == [z] + s.h.spare;
      if |r.spare| > SPARE_MAX { assert r.spare == [r.spare[0]] + r.spare[1..]; }
    }
  }

  lemma StepComplete(s: Client, v: Event, base: int, lo: int, hi: int)
    requires Complete(s, base, lo, hi) && Legal(s, v)
    ensures Complete(Step(s, v), base, lo, hi)
  {
    match v
    case MallocOf(n) => TryComplete(s, n, base, lo, hi);
    case PagesOf(n) => PagesComplete(s, n, base, lo, hi);
    case PlaceIt(a) => PlaceComplete(s, a, base, lo, hi);
    case FreeOf(c) => FreeComplete(s, c, base, lo, hi);
    case ReturnIt(a) => ReturnComplete(s, a, base, lo, hi);
  }

  /** Over every interleaving of sections no page is lost: each is free, or held by exactly one of the usage
      table, a zone, one of at most two spare zones, a large allocation and a caller between two
      sections. */
  lemma {:induction false} RunComplete(s: Client, vs: seq<Event>, base: int, lo: int, hi: int)
    requires Complete(s, base, lo, hi) && LegalRun(s, vs)
    ensures Complete(SlabRuns.Run(s, vs), base, lo, hi)
    decreases |vs|
  {
    if vs != [] {
      StepComplete(s, vs[0], base, lo, hi);
      RunComplete(Step(s, vs[0]), vs[1..], base, lo, hi);
    }
  }

  lemma InitialComplete(zoneSize: nat, at: int, npages: nat, k: nat)
    requires zoneSize in {32768, 65536, 131072} && 0 < k < npages
    ensures Complete(Initial(zoneSize, at, npages, k), at, at, at + npages)
  {
    InitialGood(zoneSize, at, npages, k);
    var s, none: map<int, nat> := [PageModel.Run(at, npages)], map[];
    assert Alloc(s, k).1 == Some(at);
    forall p ensures (at <= p < at + npages <==> Covers(s, p) || Holds(none, p)) && !(Covers(s, p) && Holds(none, p)) {
      assert s[0] == PageModel.Run(at, npages);
      assert In(s[0], p) <==> at <= p < at + npages;
    }
    assert Coalesced(s) && HeldOk(s, none);
    TakenWhole(s, none, k, at, at + npages);
  }

  // ---- single sections ------------------------------------------------------------------------

  /** A small request is served at once exactly when a zone of its index has a chunk left or one is spare. */
  lemma ServedAtOnce(h: Heap, n: nat)
    requires Inv(h)
    ensures 0 < n < SmallLimit(h) ==> ZoneIndex(n) >= 0 && (FirstTry(h, n).1.Some? <==> AtHand(h, ZoneIndex(n)))
    ensures var (e, r) := FirstTry(h, n); if r.Some? then Adds(h, e, r.value, ChunkSize(n)) && ChunkSize(n) >= n else e == h
  {
    if 0 < n < SmallLimit(h) {
      Sizes(h, n);
      if AtHand(h, ZoneIndex(n)) { HandAdds(h, ZoneIndex(n), ChunkSize(n)); } else { SmallAdds(h, ZoneIndex(n), ChunkSize(n)); }
    }
  }

  /** A block is no larger than it has to be: whole pages that the request all uses, or a chunk with less
      than 8 bytes or at most an eighth of waste. */
  lemma RoomTight(h: Heap, n: nat)
    requires Inv(h) && n > 0
    ensures n <= Room(h, n)
    ensures if n >= SmallLimit(h) then Room(h, n) < n + PAGE && Room(h, n) % PAGE == 0
            else Room(h, n) - n < 8 || 8 * (Room(h, n) - n) <= n
  {
    if n < SmallLimit(h) { ZoneIndexOk(n); }
  }

  /** Another zone of the index has a chunk left. */
  ghost predicate AnotherHas(h: Heap, zi: int, z: int) { exists y :: y in ListOf(h.lists, zi) && y != z }

  lemma Another(l: seq<int>, z: int)
    requires Distinct(l)
    ensures (exists y :: y in l && y != z) <==> if z in l then |l| > 1 else l != []
  {
    if |l| > 1 {
      var y := if l[0] == z then l[1] else l[0];
      assert y in l && y != z;
    } else if |l| == 1 {
      assert l[0] in l && forall y :: y in l ==> y == l[0];
      if l[0] != z { assert l[0] in l; }
    }
  }

  /** What rt_free does to the zones under the lock. */
  ghost predicate ChunkFreed(h: Heap, z: int, c: int, e: Heap, r: Option<(int, nat)>)
    requires z in h.zones
  {
    var zone := h.zones[z];
    && e.large == h.large && e.pages == h.pages && e.held == h.held && (forall y :: y in h.zones && y != z ==> y in e.zones && e.zones[y] == h.zones[y])
    && if zone.nfree + 1 == zone.nmax && AnotherHas(h, zone.zi, z) then
         z !in e.zones && if |h.spare| < SPARE_MAX then r == None && e.spare == [z] + h.spare else r == Some((z, ZonePages(h))) && e.spare == h.spare
       else
         && r == None && e.spare == h.spare && z in e.zones && e.zones[z].nfree == zone.nfree + 1
         && (forall d :: d in e.zones[z].used <==> d in zone.used && d != c)
         && e.zones[z].chain != [] && e.zones[z].chain[0] == c && e.zones[z].chain[1..] == zone.chain && e.zones[z].uindex == zone.uindex
  }

  /** A freed chunk is the next one its zone hands out again; an unused zone becomes the first spare one if
      another of its index has chunks left, or goes back at once if two are spare already. */
  lemma ChunkMeans(h: Heap, z: int, c: int)
    requires Inv(h) && z in h.zones && c in h.zones[z].used && |h.spare| <= SPARE_MAX
    ensures ChunkFreed(h, z, c, FreeChunk(h, z, c).0, FreeChunk(h, z, c).1)
  {
    var zone := h.zones[z];
    var l, g := ListOf(h.lists, zone.zi), GiveBack(h, z, c);
    assert ZoneFits(zone, z, h.zoneSize);
    assert Distinct(l) by { if zone.zi in h.lists { assert Distinct(h.lists[zone.zi]); } }
    Another(l, z);
    assert z in l <==> zone.nfree > 0;
    assert g.zones[z].zi == zone.zi && ListOf(g.lists, zone.zi) == if zone.nfree == 0 then [z] + l else l;
  }
}
