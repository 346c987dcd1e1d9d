/** What alloc, free and realloc of memheap.c leave behind, in terms of blocks, sizes and the free list
    alone; and why nothing more needs to be said: the live blocks and their sizes determine the heap. */
module HeapExact {
  import opened Seqs
  import opened HeapModel

  // ---- allocation ---------------------------------------------------------------------

  /** Is a block of `z` bytes split for a request of `n`? */
  predicate Splits(z: int, n: nat) { z >= n + HDR + MINI }

  /** `b` is the first block of the free list with room for `n` bytes. */
  ghost predicate FirstRoom(h: Heap, b: int, n: nat) {
    exists k :: 0 <= k < |h.free| && h.free[k] == b && RoomFrom(h, k, n)
  }

  ghost predicate RoomFrom(h: Heap, k: nat, n: nat)
    requires k < |h.free|
  {
    && (forall j :: 0 <= j <= k ==> h.free[j] in h.blocks)
    && (forall j :: 0 <= j < k ==> SizeOf(h, h.free[j]) < n) && SizeOf(h, h.free[k]) >= n
  }

  /** `t` is `h` in which the free block `b` of `z` bytes serves a request of `n`: whole, or cut to
      exactly `n` bytes if what is left can be a block, which then is free and listed first. */
  ghost predicate Served(h: Heap, t: Heap, b: int, n: nat) {
    && b in h.blocks && b in h.free && b in t.blocks && SamePool(h, t)
    && var z, x := SizeOf(h, b), b + HDR + n;
      && FirstRoom(h, b, n) && IsLive(t, b)
      && SizeOf(t, b) == (if Splits(z, n) then n else z)
      && t.avail == h.avail - SizeOf(t, b) - (if Splits(z, n) then HDR else 0)
      && t.free == (if Splits(z, n) then [x] else []) + Drop(h.free, b)
      && (forall c :: c in t.blocks <==> c in h.blocks || (Splits(z, n) && c == x))
      && (Splits(z, n) ==> x !in h.blocks && x in t.blocks && SizeOf(t, x) == z - n - HDR)
      && (forall c :: c in h.blocks && c != b ==> c in t.blocks && SizeOf(t, c) == SizeOf(h, c))
  }

  /** Marking a block used or free again moves no block. */
  lemma SameSizes(h: Heap, t: Heap)
    requires t.blocks == h.blocks
    ensures forall c :: c in h.blocks ==> SizeOf(t, c) == SizeOf(h, c)
  {
  }

  /** Cutting the used block `i`: one more block, and nothing else moves. */
  lemma CutExact(h: Heap, t: Heap, i: nat, n: nat, b: int, x: int)
    requires Core(h) && i + 1 < |h.blocks| && h.blocks[i] == b && b !in h.free && h.blocks[i + 1] !in h.free
    requires n % 4 == 0 && n + HDR <= Payload(h, i) && x == b + HDR + n && t == Carve(h, i, n)
    ensures Tiles(t) && x !in h.blocks && x in t.blocks && b in t.blocks
    ensures forall c :: c in t.blocks <==> c in h.blocks || c == x
    ensures SizeOf(t, b) == n && SizeOf(t, x) == Payload(h, i) - n - HDR
    ensures forall c :: c in h.blocks && c != b ==> c in t.blocks && SizeOf(t, c) == SizeOf(h, c)
  {
    assert b % 4 == 0 by { assert GapAt(h.blocks, i); }
    Multiple4(b, n);
    CutTiles(h, t, i + 1, x);
    JoinBlocks(t, h, i + 1);
    CutSizes(h, t, i, b, x);
  }

  lemma CutSizes(h: Heap, t: Heap, i: nat, b: int, x: int)
    requires Tiles(h) && Tiles(t) && i + 1 < |h.blocks| && h.blocks[i] == b && SamePool(h, t) && x !in h.blocks
    requires t.blocks == InsertAt(h.blocks, i + 1, x) && RemoveAt(t.blocks, i + 1) == h.blocks
    ensures x in t.blocks && SizeOf(t, x) == h.blocks[i + 1] - x - HDR
    ensures b in t.blocks && SizeOf(t, b) == x - b - HDR
    ensures forall c :: c in h.blocks && c != b ==> c in t.blocks && SizeOf(t, c) == SizeOf(h, c)
  {
    assert t.blocks[i] == b && t.blocks[i + 1] == x && t.blocks[i + 2] == h.blocks[i + 1];
    SizeAt(t, i);
    SizeAt(t, i + 1);
    forall c | c in h.blocks && c != b ensures c in t.blocks && SizeOf(t, c) == SizeOf(h, c) { JoinSize(t, h, i + 1, c); }
  }

  lemma NoteSame(t: Heap)
    ensures var u := Note(t); u.blocks == t.blocks && u.free == t.free && u.avail == t.avail && SamePool(t, u)
  {
  }

  lemma DropAt(s: seq<int>, k: nat)
    requires Distinct(s) && k < |s|
    ensures Drop(s, s[k]) == RemoveAt(s, k)
  {
    IndexOfAt(s, k);
  }

  /** First fit, exactly. */
  lemma TakeExact(h: Heap, n: nat, t: Heap, p: int, b: int)
    requires Inv(h) && n % 4 == 0 && n >= MINI && (t, p) == Take(h, n) && p != 0 && b == p - HDR
    ensures Served(h, t, b, n)
  {
    var k := FirstFit(h, n, 0);
    assert h.free[k] == b && b in h.free && RoomFrom(h, k, n);
    var i := BlockIndex(h, b);
    SizeAt(h, i);
    var c := Claim(h, k, i);
    ClaimOk(h, k, i);
    ClaimExact(h, k, i, b, c);
    TakeOk(h, n);
    if Splits(Payload(h, i), n) {
      SplitServes(h, c, Carve(c, i, n), t, i, n, b, b + HDR + n);
    } else {
      WholeServes(h, c, t, i, n, b);
    }
  }

  ghost predicate Claimed(h: Heap, c: Heap, i: nat, b: int, n: nat) {
    && Inv(h) && Core(c) && FirstRoom(h, b, n) && i + 1 < |h.blocks| && h.blocks[i] == b && b in h.free && SizeOf(h, b) == Payload(h, i)
    && c.blocks == h.blocks && c.free == Drop(h.free, b) && b !in c.free && h.blocks[i + 1] !in c.free
    && c.avail == h.avail - Payload(h, i) && SamePool(h, c)
    && forall d :: d in h.blocks ==> SizeOf(c, d) == SizeOf(h, d)
  }

  lemma SplitServes(h: Heap, c: Heap, v: Heap, t: Heap, i: nat, n: nat, b: int, x: int)
    requires Claimed(h, c, i, b, n) && Splits(Payload(h, i), n) && n % 4 == 0 && x == b + HDR + n
    requires v == Carve(c, i, n) && t == Note(v) && IsLive(t, b)
    ensures Served(h, t, b, n)
  {
    CutExact(c, v, i, n, b, x);
    NoteSame(v);
    SameSizes(v, t);
  }

  lemma WholeServes(h: Heap, c: Heap, t: Heap, i: nat, n: nat, b: int)
    requires Claimed(h, c, i, b, n) && !Splits(Payload(h, i), n) && t == Note(c) && IsLive(t, b)
    ensures Served(h, t, b, n)
  {
    NoteSame(c);
    SameSizes(c, t);
  }

  lemma ClaimExact(h: Heap, k: nat, i: nat, b: int, c: Heap)
    requires Inv(h) && k < |h.free| && i + 1 < |h.blocks| && h.blocks[i] == b == h.free[k] && c == Claim(h, k, i)
    ensures c.blocks == h.blocks && c.free == Drop(h.free, b) && b !in c.free && c.avail == h.avail - Payload(h, i) && SamePool(h, c)
    ensures forall d :: d in h.blocks ==> SizeOf(c, d) == SizeOf(h, d)
  {
    DropAt(h.free, k);
    RemoveAtElements(h.free, k);
    SameSizes(h, c);
  }

  // ---- merging and cutting ------------------------------------------------------------

  /** Is the block behind `blocks[i]` free? */
  predicate FreeBehind(h: Heap, i: nat) { i + 1 < |h.blocks| && h.blocks[i + 1] in h.free }

  predicate FreeBefore(h: Heap, i: nat) { 0 < i < |h.blocks| && h.blocks[i - 1] in h.free }

  /** Where block `i` ends together with the free block behind it. */
  ghost function End(h: Heap, i: nat): int
    requires Usable(h) && i + 1 < |h.blocks|
  {
    if FreeBehind(h, i) && i + 2 < |h.blocks| then h.blocks[i + 2] else h.blocks[i + 1]
  }

  ghost function FreeWithout(h: Heap, i: nat): seq<int>
    requires i + 1 < |h.blocks|
  {
    if FreeBehind(h, i) then Drop(h.free, h.blocks[i + 1]) else h.free
  }

  /** `c` is `h` with the used block `b`, which is block `i`, reaching to the end of the free block behind
      it, if there is one. */
  ghost predicate Settled(h: Heap, c: Heap, i: nat, b: int) {
    && Inv(h) && Core(c) && SamePool(h, c) && i + 1 < |h.blocks| && h.blocks[i] == b && b !in h.free && b in h.blocks
    && i + 1 < |c.blocks| && c.blocks[i] == b && c.blocks[i + 1] == End(h, i) && b !in c.free && c.blocks[i + 1] !in c.free
    && (i > 0 ==> c.blocks[i - 1] == h.blocks[i - 1] && (c.blocks[i - 1] in c.free <==> h.blocks[i - 1] in h.free))
    && c.free == FreeWithout(h, i) && b in c.blocks && c.peak == h.peak
    && (forall d :: d in c.blocks <==> d in h.blocks && !(FreeBehind(h, i) && d == h.blocks[i + 1]))
    && (forall d :: d in c.blocks && d != b ==> d in h.blocks && SizeOf(c, d) == SizeOf(h, d))
    && c.avail == h.avail - (if FreeBehind(h, i) then End(h, i) - h.blocks[i + 1] - HDR else 0)
  }

  lemma SettleExact(h: Heap, i: nat, b: int, c: Heap)
    requires Inv(h) && i + 1 < |h.blocks| && h.blocks[i] == b && b !in h.free && c == Settle(h, i)
    ensures Settled(h, c, i, b)
  {
    SettleOk(h, i);
    if FreeBehind(h, i) { AbsorbExact(h, i, b, c); } else { SameSizes(h, c); }
  }

  lemma AbsorbExact(h: Heap, i: nat, b: int, c: Heap)
    requires Inv(h) && i + 1 < |h.blocks| && h.blocks[i] == b && b !in h.free && FreeBehind(h, i) && c == Settle(h, i)
    requires Core(c) && SamePool(h, c) && i + 1 < |c.blocks| && c.blocks[i] == b && b !in c.free && c.blocks[i + 1] !in c.free
    ensures Settled(h, c, i, b)
  {
    var y := h.blocks[i + 1];
    AbsorbOk(h, i);
    JoinBlocks(h, c, i + 1);
    RemoveAtElements(h.free, IndexOf(h.free, y));
    BlocksDistinct(h);
    forall d | d in c.blocks && d != b ensures d in h.blocks && SizeOf(c, d) == SizeOf(h, d) { JoinSize(h, c, i + 1, d); }
  }

  /** `t` is `h` with the used block `b` now free and merged with its free neighbours: into the one before
      it, or at the front of the free list. */
  ghost predicate Released(h: Heap, t: Heap, i: nat, b: int) {
    && Usable(h) && Tiles(t) && SamePool(h, t) && i + 1 < |h.blocks| && h.blocks[i] == b && b in h.blocks
    && var left := FreeBefore(h, i);
      var s := if left then h.blocks[i - 1] else b;
      && s in t.blocks && s in t.free && SizeOf(t, s) == End(h, i) - s - HDR
      && t.free == (if left then [] else [b]) + FreeWithout(h, i)
      && (forall c :: c in t.blocks <==> c in h.blocks && !(left && c == b) && !(FreeBehind(h, i) && c == h.blocks[i + 1]))
      && (forall c :: c in t.blocks && c != s ==> c in h.blocks && SizeOf(t, c) == SizeOf(h, c))
      && t.avail == h.avail + SizeOf(h, b) + (if left then HDR else 0) + (if FreeBehind(h, i) then HDR else 0)
      && t.peak == h.peak
  }

  lemma FreeExact(h: Heap, b: int, t: Heap, i: nat)
    requires Inv(h) && IsLive(h, b) && t == Free(h, b) && i == BlockIndex(h, b)
    ensures Released(h, t, i, b)
  {
    var c := Settle(h, i);
    FreeOk(h, b);
    SizeAt(h, i);
    SettleExact(h, i, b, c);
    if FreeBefore(h, i) { JoinReleases(h, c, t, i, b, h.blocks[i - 1]); } else { FrontReleases(h, c, t, i, b); }
  }

  lemma JoinReleases(h: Heap, c: Heap, t: Heap, i: nat, b: int, s: int)
    requires Settled(h, c, i, b) && FreeBefore(h, i) && t == Retire(c, i) && Tiles(t) && SamePool(h, t) && SizeOf(h, b) == Payload(h, i)
    requires s == h.blocks[i - 1]
    ensures Released(h, t, i, b)
  {
    JoinBlocks(c, t, i);
    JoinSize(c, t, i, s);
    forall d | d in c.blocks && d != b && d != s ensures d in t.blocks && SizeOf(t, d) == SizeOf(c, d) { JoinSize(c, t, i, d); }
    assert [] + FreeWithout(h, i) == FreeWithout(h, i);
  }

  lemma FrontReleases(h: Heap, c: Heap, t: Heap, i: nat, b: int)
    requires Settled(h, c, i, b) && !FreeBefore(h, i) && t == Retire(c, i) && Tiles(t) && SamePool(h, t) && SizeOf(h, b) == Payload(h, i)
    ensures Released(h, t, i, b)
  {
    SameSizes(c, t);
    SizeAt(c, i);
  }

  // ---- reallocation -------------------------------------------------------------------

  /** `t` is `h` with the used block `b` of exactly `n` bytes and one free block behind it, listed first,
      that takes up the rest as far as the old one and a free neighbour reached. */
  ghost predicate Resized(h: Heap, t: Heap, i: nat, b: int, n: nat) {
    && Usable(h) && Tiles(t) && SamePool(h, t) && i + 1 < |h.blocks| && h.blocks[i] == b && b in h.blocks && b in t.blocks
    && var x := b + HDR + n;
      && SizeOf(t, b) == n && x in t.blocks && SizeOf(t, x) == End(h, i) - x - HDR
      && t.free == [x] + FreeWithout(h, i)
      && (forall c :: c in t.blocks <==> c == x || (c in h.blocks && !(FreeBehind(h, i) && c == h.blocks[i + 1])))
      && (forall c :: c in t.blocks && c != b && c != x ==> c in h.blocks && SizeOf(t, c) == SizeOf(h, c))
      && t.avail == h.avail + SizeOf(h, b) - n - (if FreeBehind(h, i) then 0 else HDR)
  }

  lemma ResizeExact(h: Heap, i: nat, b: int, n: nat, t: Heap)
    requires Inv(h) && i + 1 < |h.blocks| && h.blocks[i] == b && b !in h.free && n % 4 == 0 && t == Resize(h, i, n)
    requires n + HDR <= Payload(h, i) || GrowsInPlace(h, i, n)
    ensures Resized(h, t, i, b, n)
  {
    var c := Settle(h, i);
    ResizeOk(h, i, n);
    SizeAt(h, i);
    if FreeBehind(h, i) { SizeAt(h, i + 1); }
    SettleExact(h, i, b, c);
    CutResizes(h, c, Carve(c, i, n), t, i, b, n, b + HDR + n);
  }

  lemma CutResizes(h: Heap, c: Heap, v: Heap, t: Heap, i: nat, b: int, n: nat, x: int)
    requires Settled(h, c, i, b) && n % 4 == 0 && n + HDR <= Payload(c, i) && x == b + HDR + n && v == Carve(c, i, n) && t == Note(v)
    requires Tiles(t) && SamePool(h, t) && SizeOf(h, b) == Payload(h, i)
    ensures Resized(h, t, i, b, n)
  {
    CutExact(c, v, i, n, b, x);
    NoteSame(v);
    SameSizes(v, t);
  }

  /** Can the block grow into the free one behind it and leave a block worth keeping? */
  predicate GrowsBehind(h: Heap, i: nat, z: int, n: nat) {
    FreeBehind(h, i) && SizeOfNext(h, i) + z > n + MINI
  }

  function SizeOfNext(h: Heap, i: nat): int { if i + 2 < |h.blocks| then h.blocks[i + 2] - h.blocks[i + 1] - HDR else 0 }

  /** `(t, p)` is what reallocating block `b` of `z` bytes to `n` comes to: grown or cut in place, left
      alone, or served elsewhere from `h` and then released, by way of the heap `u`. */
  ghost predicate Reallocated(h: Heap, t: Heap, p: int, i: nat, b: int, z: int, n: nat, u: Heap) {
    && Inv(h) && i + 1 < |h.blocks|
    && if n > z && !GrowsBehind(h, i, z, n) then
         if p == 0 then t == h && (n >= h.avail || !Fits(h, n)) else Served(h, u, p - HDR, n) && b in u.blocks && Released(u, t, IndexOf(u.blocks, b), b)
       else p == b + HDR && if n <= z <= n + HDR + MINI then t == h else Resized(h, t, i, b, n)
  }

  lemma ReallocMeans(h: Heap, b: int, n: nat, t: Heap, p: int, i: nat) returns (u: Heap)
    requires Inv(h) && IsLive(h, b) && n % 4 == 0 && MINI <= n < WORD && GrowSafe(h, b, n) && (t, p) == Realloc(h, b, n) && i == BlockIndex(h, b)
    ensures Reallocated(h, t, p, i, b, SizeOf(h, b), n, u)
  {
    u := h;
    SizeAt(h, i);
    if n > Payload(h, i) {
      GrowsOk(h, b, n);
      if Tries(h, i, n) {
        GrowsExactly(h, i, n);
        ResizeExact(h, i, b, n, t);
      } else {
        GrowsExactly(h, i, n);
        u := MovesExactly(h, b, n, t, p);
      }
    } else if Payload(h, i) > n + HDR + MINI {
      ResizeExact(h, i, b, n, t);
    }
  }

  /** Outside the wrap the 32-bit test is the exact one. */
  lemma GrowsExactly(h: Heap, i: nat, n: nat)
    requires Inv(h) && i + 1 < |h.blocks| && h.blocks[i] !in h.free && Payload(h, i) < n < WORD && n % 4 == 0
    requires n + MINI < WORD || h.blocks[i + 1] !in h.free
    ensures Tries(h, i, n) <==> GrowsBehind(h, i, Payload(h, i), n)
    ensures Tries(h, i, n) ==> GrowsInPlace(h, i, n)
  {
    if n + MINI < WORD { GrowExact(h, i, n); }
  }

  lemma MovesExactly(h: Heap, b: int, n: nat, t: Heap, p: int) returns (u: Heap)
    requires Inv(h) && IsLive(h, b) && n % 4 == 0 && n >= MINI && (t, p) == MoveAway(h, b, n)
    ensures if p == 0 then t == h && (n >= h.avail || !Fits(h, n))
            else Served(h, u, p - HDR, n) && b in u.blocks && Released(u, t, IndexOf(u.blocks, b), b)
  {
    u := Take(h, n).0;
    MoveFails(h, b, n);
    if Take(h, n).1 == 0 {
      TakeFails(h, n);
    } else {
      MoveAwayParts(h, b, n, u, Take(h, n).1);
      TakeExact(h, n, u, p, p - HDR);
      FreeExact(u, b, t, BlockIndex(u, b));
    }
  }

  // ---- what determines a heap -----------------------------------------------------------

  /** Live in both or in neither, with the same size. */
  ghost predicate SameUse(g: Heap, h: Heap) {
    SamePool(g, h) && forall b :: (IsLive(g, b) <==> IsLive(h, b)) && (IsLive(g, b) ==> SizeOf(g, b) == SizeOf(h, b))
  }

  /** No block starts sooner in `g` than in `h` behind a common one. */
  lemma NoSooner(g: Heap, h: Heap, i: nat)
    requires Usable(g) && Usable(h) && SameUse(g, h) && i + 1 < |g.blocks| && i + 1 < |h.blocks| && g.blocks[i] == h.blocks[i]
    ensures g.blocks[i + 1] >= h.blocks[i + 1]
  {
    var b, x := g.blocks[i], g.blocks[i + 1];
    SizeAt(g, i);
    SizeAt(h, i);
    if b in g.free && x < h.blocks[i + 1] {
      assert ApartAt(g, i) && GapAt(g.blocks, i);
      BlocksDistinct(h);
      assert h.blocks[i + 1] in h.blocks;
      assert IsLive(g, x);
      Between(h, i, x);
    }
  }

  lemma {:induction false} PrefixSame(g: Heap, h: Heap, i: nat)
    requires Usable(g) && Usable(h) && SameUse(g, h) && i < |g.blocks|
    ensures i < |h.blocks| && g.blocks[..i + 1] == h.blocks[..i + 1]
  {
    if i > 0 {
      PrefixSame(g, h, i - 1);
      var b := g.blocks[i - 1];
      assert b == g.blocks[..i][i - 1] == h.blocks[..i][i - 1] == h.blocks[i - 1];
      Sorted(g, i - 1, |g.blocks| - 1);
      assert i < |h.blocks|;
      NoSooner(g, h, i - 1);
      NoSooner(h, g, i - 1);
      assert g.blocks[..i + 1] == g.blocks[..i] + [g.blocks[i]] && h.blocks[..i + 1] == h.blocks[..i] + [h.blocks[i]];
    }
  }

  /** The live blocks and their sizes determine where every block is, which are free and how many bytes
      are; only the order of the free list and the high-water mark depend on the past. */
  lemma Determined(g: Heap, h: Heap)
    requires Inv(g) && Inv(h) && SameUse(g, h)
    ensures g.blocks == h.blocks && (forall b :: b in g.free <==> b in h.free) && g.avail == h.avail
  {
    PrefixSame(g, h, |g.blocks| - 1);
    PrefixSame(h, g, |h.blocks| - 1);
    assert g.blocks == g.blocks[..|g.blocks|] == h.blocks[..|h.blocks|] == h.blocks;
    forall b ensures b in g.free <==> b in h.free { assert IsLive(g, b) <==> IsLive(h, b); }
    SumSame(g.blocks, g.free, h.free);
  }
}
