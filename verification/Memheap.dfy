/** memheap.c with its pointers.  The header words of a block at address `a` are the entries
    of `next`, `prev`, `nextFree`, `prevFree` and `magic` at `a`; entries at addresses that are
    no block are left-over garbage, as in the pool itself. */
module Memheap {
  import opened Seqs
  import opened HeapModel
  import opened HeapExact
  import Ring

  const MAGIC: int := 0x1ea01ea0
  const NULL: int := 0

  type byte = x: int | 0 <= x < 256

  predicate IsUsed(magic: int) { magic % 2 == 1 }

  function SetUsed(magic: int): int { if IsUsed(magic) then magic else magic + 1 }

  function ClearUsed(magic: int): int { if IsUsed(magic) then magic - 1 else magic }

  /** The header words of the whole pool. */
  datatype Words = Words(next: map<int, int>, prev: map<int, int>, nextFree: map<int, int>, prevFree: map<int, int>, magic: map<int, int>)

  predicate SameAt(m: map<int, int>, m': map<int, int>, a: int) { (a in m <==> a in m') && (a in m ==> m[a] == m'[a]) }

  /** No word of a header at `a` differs. */
  predicate Kept(w: Words, w': Words, a: int) {
    && SameAt(w.next, w'.next, a) && SameAt(w.prev, w'.prev, a)
    && SameAt(w.nextFree, w'.nextFree, a) && SameAt(w.prevFree, w'.prevFree, a) && SameAt(w.magic, w'.magic, a)
  }

  /** Words differ only in headers at the addresses listed. */
  ghost predicate OnlyAt(w: Words, w': Words, at: seq<int>) { forall a {:trigger Kept(w, w', a)} :: a !in at ==> Kept(w, w', a) }

  /** One more step that writes only where the others did. */
  lemma Add(w: Words, m: Words, w': Words, s: seq<int>, all: seq<int>)
    requires OnlyAt(w, m, all) && OnlyAt(m, w', s) && forall a :: a in s ==> a in all
    ensures OnlyAt(w, w', all)
  {
    forall a | a !in all ensures Kept(w, w', a) { assert Kept(w, m, a) && Kept(m, w', a); }
  }

  /** No header that differs touches the bytes from `lo` to `hi`. */
  ghost predicate Clear(w: Words, w': Words, lo: int, hi: int) {
    forall a :: !Kept(w, w', a) ==> a + HDR <= lo || hi <= a
  }

  /** Between the heaps `g` and `e`, no 24-byte header that differs touches a payload that is live in both,
      as far as both have it. */
  ghost predicate Spared(w: Words, w': Words, g: Heap, e: Heap) {
    forall c :: IsLive(g, c) && IsLive(e, c) ==> Clear(w, w', c + HDR, c + HDR + Min(SizeOf(g, c), SizeOf(e, c)))
  }

  /** Words differ only in headers of the heaps `g` and `e`, of the one in the middle, and of the list head. */
  ghost predicate Via(w: Words, w': Words, g: Heap, t: Heap, e: Heap, head: int) {
    OnlyAt(w, w', g.blocks + t.blocks + e.blocks + [head])
  }

  /** What a reallocation writes: one section if it stays where it is or fails, two if it moves. */
  ghost predicate Wrote(w: Words, w': Words, g: Heap, t: Heap, e: Heap, head: int, moved: bool) {
    if moved then Via(w, w', g, t, e, head) else OnlyAt(w, w', g.blocks + e.blocks + [head])
  }

  lemma ViaMove(w: Words, m: Words, w': Words, g: Heap, t: Heap, e: Heap, head: int)
    requires OnlyAt(w, m, g.blocks + t.blocks + [head]) && OnlyAt(m, w', t.blocks + e.blocks + [head])
    ensures Via(w, w', g, t, e, head)
  {
    forall a | a !in g.blocks + t.blocks + e.blocks + [head] ensures Kept(w, w', a) {
      assert a !in g.blocks + t.blocks + [head] && a !in t.blocks + e.blocks + [head];
      assert Kept(w, m, a) && Kept(m, w', a);
    }
  }

  /** A list head outside the pool. */
  predicate Outside(h: Heap, head: int) { head + HDR <= h.start || h.start + h.pool <= head }

  lemma ClearOf(w: Words, w': Words, g: Heap, e: Heap, head: int, c: int, len: int)
    requires OnlyAt(w, w', g.blocks + e.blocks + [head]) && Tiles(g) && Tiles(e) && Outside(g, head)
    requires IsLive(g, c) && IsLive(e, c) && len <= SizeOf(g, c) && len <= SizeOf(e, c)
    ensures Clear(w, w', c + HDR, c + HDR + len)
  {
    PayloadInside(g, c);
    forall a | !Kept(w, w', a) ensures a + HDR <= c + HDR || c + HDR + len <= a {
      assert a in g.blocks + e.blocks + [head];
      if a in g.blocks {
        HeaderMissesPayload(g, c, a);
      } else if a in e.blocks {
        HeaderMissesPayload(e, c, a);
      }
    }
  }

  /** Headers written where blocks are, before or after, spare every payload. */
  lemma SparedBy(w: Words, w': Words, g: Heap, e: Heap, head: int)
    requires OnlyAt(w, w', g.blocks + e.blocks + [head]) && Tiles(g) && Tiles(e) && Outside(g, head)
    ensures Spared(w, w', g, e)
  {
    forall c | IsLive(g, c) && IsLive(e, c) ensures Clear(w, w', c + HDR, c + HDR + Min(SizeOf(g, c), SizeOf(e, c))) {
      ClearOf(w, w', g, e, head, c, Min(SizeOf(g, c), SizeOf(e, c)));
    }
  }

  lemma ClearTwice(w: Words, m: Words, w': Words, lo: int, hi: int)
    requires Clear(w, m, lo, hi) && Clear(m, w', lo, hi)
    ensures Clear(w, w', lo, hi)
  {
    forall a | !Kept(w, w', a) ensures a + HDR <= lo || hi <= a { assert !Kept(w, m, a) || !Kept(m, w', a); }
  }

  /** A move: an allocation from `g` to `t` that grants block `b'`, and a release from `t` to `e`. */
  lemma SparedTwice(w: Words, m: Words, w': Words, g: Heap, t: Heap, e: Heap, b': int, n: nat, head: int)
    requires OnlyAt(w, m, g.blocks + t.blocks + [head]) && OnlyAt(m, w', t.blocks + e.blocks + [head])
    requires Tiles(g) && Tiles(t) && Tiles(e) && Outside(g, head) && SamePool(g, t)
    requires IsLive(t, b') && IsLive(e, b') && SizeOf(t, b') >= n && SizeOf(e, b') >= n && (forall a :: a in g.blocks ==> a in t.blocks)
    requires forall c :: IsLive(g, c) && IsLive(e, c) ==> IsLive(t, c) && SizeOf(t, c) == SizeOf(g, c) == SizeOf(e, c)
    ensures Spared(w, w', g, e) && Clear(w, w', b' + HDR, b' + HDR + n)
  {
    forall c | IsLive(g, c) && IsLive(e, c) ensures Clear(w, w', c + HDR, c + HDR + Min(SizeOf(g, c), SizeOf(e, c))) {
      ClearOf(w, m, g, t, head, c, SizeOf(g, c));
      ClearOf(m, w', t, e, head, c, SizeOf(g, c));
      ClearTwice(w, m, w', c + HDR, c + HDR + SizeOf(g, c));
    }
    forall a | a !in t.blocks + t.blocks + [head] ensures Kept(w, m, a) { assert a !in g.blocks + t.blocks + [head]; }
    ClearOf(w, m, t, t, head, b', n);
    ClearOf(m, w', t, e, head, b', n);
    ClearTwice(w, m, w', b' + HDR, b' + HDR + n);
  }

  /** `p` has been allocated for the block at `ptr` of `len` bytes, which is still there. */
  ghost predicate Moving(g: Heap, h: Heap, ptr: int, p: int, n: nat, len: int) {
    && Took(g, h, p, n) && Inv(h) && ptr != NULL && p != ptr && IsLive(g, ptr - HDR)
    && IsLive(h, ptr - HDR) && IsLive(h, p - HDR) && len == SizeOf(h, ptr - HDR) <= SizeOf(h, p - HDR)
  }

  /** The headers a move writes, in both its sections, spare every payload kept and the one granted. */
  lemma MoveSpares(w: Words, m: Words, w': Words, g: Heap, t: Heap, e: Heap, b: int, p: int, n: nat, head: int)
    requires Took(g, t, p, n) && IsLive(g, b) && Inv(t) && IsLive(t, b) && e == Free(t, b) && Outside(g, head)
    requires OnlyAt(w, m, g.blocks + t.blocks + [head]) && OnlyAt(m, w', t.blocks + e.blocks + [head])
    ensures Spared(w, w', g, e) && Clear(w, w', p, p + n) && Via(w, w', g, t, e, head)
  {
    TakeOk(g, n);
    TakeBlocks(g, n);
    FreeOk(t, b);
    ViaMove(w, m, w', g, t, e, head);
    SparedTwice(w, m, w', g, t, e, p - HDR, n, head);
  }

  lemma GrowSpares(w: Words, w': Words, g: Heap, e: Heap, b: int, i: nat, n: nat, head: int)
    requires Growing(g, b, i, n) && n + MINI < WORD && e == Grow32(g, i, n) && OnlyAt(w, w', g.blocks + e.blocks + [head]) && Outside(g, head)
    ensures Inv(e) && Spared(w, w', g, e)
  {
    GrowExact(g, i, n);
    InPlaceOk(g, i, n);
    SparedBy(w, w', g, e, head);
  }

  /** An allocation before the high-water mark is looked at. */
  ghost function Unmarked(h: Heap, n: nat, k: nat, i: nat): Heap
    requires k < |h.free| && i + 1 < |h.blocks|
  {
    var c := Claim(h, k, i);
    if Payload(h, i) >= n + HDR + MINI then Carve(c, i, n) else c
  }

  lemma FreeDistinct(head: int, free: seq<int>)
    requires Distinct([head] + free)
    ensures Distinct(free) && head !in free
  {
    var r := [head] + free;
    forall i, j | 0 <= i < j < |free| ensures free[i] != free[j] {
      assert r[i + 1] != r[j + 1];
    }
    forall i | 0 <= i < |free| ensures free[i] != head {
      assert r[0] != r[i + 1];
    }
  }

  /** The free ring with its head in front. */
  lemma BehindHead(head: int, F: seq<int>, k: nat, x: int)
    ensures k < |F| ==> RemoveAt([head] + F, k + 1) == [head] + RemoveAt(F, k)
    ensures InsertAt([head] + F, 1, x) == [head] + ([x] + F)
  {
  }

  lemma OnlyResized(w: Words, w': Words, g: Heap, e: Heap, x: int, head: int)
    requires OnlyAt(w, w', g.blocks + [x] + g.free + [head]) && FreeListOk(g) && x in e.blocks
    ensures OnlyAt(w, w', g.blocks + e.blocks + [head])
  {
    forall a | a !in g.blocks + e.blocks + [head] ensures Kept(w, w', a) { assert a !in g.blocks + [x] + g.free + [head]; }
  }

  lemma OnlyTaken(w: Words, w': Words, g: Heap, e: Heap, head: int)
    requires OnlyAt(w, w', e.blocks + g.free + [head]) && FreeListOk(g)
    ensures OnlyAt(w, w', g.blocks + e.blocks + [head])
  {
    forall a | a !in g.blocks + e.blocks + [head] ensures Kept(w, w', a) { assert a !in e.blocks + g.free + [head]; }
  }

  /** The stores that put `x` between the head and the first of a ring. */
  lemma LinkedFirst(next: map<int, int>, prev: map<int, int>, r: seq<int>, x: int, head: int, first: int)
    requires Ring.IsRing(next, prev, r) && r != [] && r[0] == head && head in next && first == next[head] && first in r && x !in r
    ensures Ring.IsRing(next[x := first][head := x], prev[x := head][first := x], InsertAt(r, 1, x))
  {
    Commute(prev, x, head, first, x);
    Ring.Linked(next, prev, r, 0, x, next[x := first][head := x], prev[x := head][first := x]);
  }

  lemma Commute(m: map<int, int>, a: int, x: int, b: int, y: int)
    requires a != b
    ensures m[a := x][b := y] == m[b := y][a := x]
  {
  }

  lemma RemoveIn(s: seq<int>, k: nat)
    requires k < |s|
    ensures forall x :: x in RemoveAt(s, k) ==> x in s
  {
  }

  /** Every block carries the magic number, with the used mark exactly when it is not free. */
  ghost predicate MagicOk(magic: map<int, int>, h: Heap) {
    forall b :: b in h.blocks ==> b in magic && magic[b] == if b in h.free then MAGIC else MAGIC + 1
  }

  function At(m: map<int, byte>, a: int): byte { if a in m then m[a] else 0 }

  /** The `len` bytes at `to` are the ones that were at `from`; all other bytes are as before. */
  ghost predicate ContentMoved(m: map<int, byte>, m': map<int, byte>, from: int, to: int, len: int) {
    && m.Keys == m'.Keys
    && forall a :: a in m' ==> m'[a] == At(m, if to <= a < to + len then from + (a - to) else a)
  }

  lemma Unmoved(m: map<int, byte>, p: int, len: int)
    ensures ContentMoved(m, m, p, p, len)
  {
  }

  lemma MarksGrown(m: map<int, int>, g: Heap, e: Heap, i: nat, x: int)
    requires Usable(g) && i + 1 < |g.blocks| && x !in g.blocks && MagicOk(m, g)
    requires e.blocks == ResizedBlocks(g.blocks, g.free, i, x) && e.free == ResizedFree(g.blocks, g.free, i, x)
    ensures MagicOk(m[x := MAGIC], e) && x in e.blocks
  {
    ResizeMembers(g, i, x);
    ResizedAt(g.blocks, g.free, i, x);
  }

  class MemHeap {
    const listHead: int            // address of free_header, in the control block
    const startAddr: nat
    const poolSize: nat
    var availableSize: int
    var maxUsedSize: int
    var next: map<int, int>
    var prev: map<int, int>
    var nextFree: map<int, int>
    var prevFree: map<int, int>
    var magic: map<int, int>
    var bytes: map<int, byte>
    ghost var h: Heap

    ghost function Word(): Words
      reads `next, `prev, `nextFree, `prevFree, `magic
    {
      Words(next, prev, nextFree, prevFree, magic)
    }

    ghost predicate Counters(h: Heap)
      reads `availableSize, `maxUsedSize
    {
      h.start == startAddr && h.pool == poolSize && h.avail == availableSize && h.peak == maxUsedSize
    }

    /** The headers describe `h`: both rings and the used marks. */
    ghost predicate Links(h: Heap)
      reads `next, `prev, `nextFree, `prevFree, `magic
    {
      && Ring.IsRing(next, prev, h.blocks)
      && Ring.IsRing(nextFree, prevFree, [listHead] + h.free)
      && MagicOk(magic, h)
    }

    /** Both rings after block `i` got a new boundary at `x`, and the marks `m` with it. */
    ghost predicate Relinked(B: seq<int>, F: seq<int>, i: nat, x: int, m: map<int, int>)
      requires i + 1 < |B|
      reads `next, `prev, `nextFree, `prevFree, `magic
    {
      && Ring.IsRing(next, prev, ResizedBlocks(B, F, i, x))
      && Ring.IsRing(nextFree, prevFree, [listHead] + ResizedFree(B, F, i, x))
      && magic == m[x := MAGIC]
    }

    /** Fields, headers and byte memory agree with `h`. */
    ghost predicate Wired()
      reads this
    {
      && Counters(h) && Links(h)
      && (listHead + HDR <= startAddr || startAddr + poolSize <= listHead)
      && forall a :: startAddr <= a < startAddr + poolSize ==> a in bytes
    }

    ghost predicate Valid()
      reads this
    {
      Wired() && Inv(h)
    }

    constructor (listHead: int, startAddr: nat, size: nat, memory: map<int, byte>)
      requires 0 < startAddr && startAddr % 4 == 0 && startAddr + size <= WORD && size / 4 * 4 >= 2 * HDR
      requires listHead + HDR <= startAddr || startAddr + size <= listHead
      requires forall a :: startAddr <= a < startAddr + size ==> a in memory
      ensures Valid() && h == Init(startAddr, size) && bytes == memory
    {
      this.listHead := listHead;
      this.startAddr := startAddr;
      poolSize := size / 4 * 4;
      availableSize := size / 4 * 4 - 2 * HDR;
      maxUsedSize := 2 * HDR;
      var tail := startAddr + (size / 4 * 4 - 2 * HDR) + HDR;
      next := map[startAddr := tail, tail := startAddr];
      prev := map[startAddr := tail, tail := startAddr];
      nextFree := map[listHead := startAddr, startAddr := listHead];
      prevFree := map[listHead := startAddr, startAddr := listHead];
      magic := map[startAddr := MAGIC, tail := MAGIC + 1];
      bytes := memory;
      h := Init(startAddr, size);
      InitOk(startAddr, size);
    }

    // ---- the four link edits ------------------------------------------------------------

    /** Insert the header `x` after the header `at` in address order. */
    method LinkBlock(at: int, x: int, ghost r: seq<int>, ghost i: nat)
      requires Ring.IsRing(next, prev, r) && i < |r| && r[i] == at && x !in r
      modifies `next, `prev
      ensures Ring.IsRing(next, prev, InsertAt(r, i + 1, x))
      ensures OnlyAt(old(Word()), Word(), r + [x])
    {
      Ring.Members(next, prev, r, at);
      var after := next[at];
      prev := prev[x := at];
      next := next[x := after];
      prev := prev[after := x];
      next := next[at := x];
      Commute(old(prev), x, at, after, x);
      Ring.Linked(old(next), old(prev), r, i, x, next, prev);
    }

    method UnlinkBlock(x: int, ghost r: seq<int>, ghost i: nat)
      requires Ring.IsRing(next, prev, r) && 0 < i < |r| && r[i] == x
      modifies `next, `prev
      ensures Ring.IsRing(next, prev, RemoveAt(r, i))
      ensures OnlyAt(old(Word()), Word(), r + [x])
    {
      Ring.Members(next, prev, r, x);
      next := next[prev[x] := next[x]];
      prev := prev[next[x] := prev[x]];
      Ring.Unlinked(old(next), old(prev), r, i, next, prev);
    }

    method UnlinkFree(x: int, ghost F: seq<int>, ghost k: nat)
      requires Ring.IsRing(nextFree, prevFree, [listHead] + F) && k < |F| && F[k] == x
      modifies `nextFree, `prevFree
      ensures Ring.IsRing(nextFree, prevFree, [listHead] + RemoveAt(F, k))
      ensures OnlyAt(old(Word()), Word(), [listHead] + F + [x])
    {
      ghost var r := [listHead] + F;
      Ring.Members(nextFree, prevFree, r, x);
      prevFree := prevFree[nextFree[x] := prevFree[x]];
      nextFree := nextFree[prevFree[x] := nextFree[x]];
      Ring.Unlinked(old(nextFree), old(prevFree), r, k + 1, nextFree, prevFree);
      BehindHead(listHead, F, k, x);
    }

    /** Insert the header `x` right after the list head. */
    method LinkFree(x: int, ghost F: seq<int>)
      requires Ring.IsRing(nextFree, prevFree, [listHead] + F) && x !in [listHead] + F
      modifies `nextFree, `prevFree
      ensures Ring.IsRing(nextFree, prevFree, [listHead] + ([x] + F))
      ensures OnlyAt(old(Word()), Word(), [listHead] + F + [x])
    {
      ghost var r, p := [listHead] + F, prevFree;
      Ring.Members(nextFree, prevFree, r, listHead);
      var first := nextFree[listHead];
      LinkedFirst(nextFree, p, r, x, listHead, first);
      BehindHead(listHead, F, 0, x);
      nextFree := nextFree[x := first];
      prevFree := prevFree[x := listHead];
      prevFree := prevFree[first := x];
      nextFree := nextFree[listHead := x];
    }

    /** Forget the free-list links of a header that left the list. */
    method ClearFree(x: int, ghost r: seq<int>)
      requires Ring.IsRing(nextFree, prevFree, r) && x !in r
      modifies `nextFree, `prevFree
      ensures Ring.IsRing(nextFree, prevFree, r)
      ensures OnlyAt(old(Word()), Word(), [x])
    {
      forall y | y in r ensures y in nextFree && y in prevFree {
        Ring.Members(nextFree, prevFree, r, y);
      }
      nextFree := nextFree[x := NULL];
      prevFree := prevFree[x := NULL];
      Ring.Frame(old(nextFree), old(prevFree), nextFree, prevFree, r);
    }

    // ---- allocation ---------------------------------------------------------------------

    /** MEMITEM_SIZE */
    function ItemSize(b: int): int
      requires b in next
      reads this
    {
      next[b] - b - HDR
    }

    lemma ItemSizeAt(B: seq<int>, i: nat)
      requires Ring.IsRing(next, prev, B) && i + 1 < |B|
      ensures B[i] in next && next[B[i]] == B[i + 1]
    {
      assert Ring.LinkedAt(next, prev, B, i);
    }

    lemma ItemSizeOk(i: nat)
      requires Links(h) && Tiles(h) && i + 1 < |h.blocks|
      ensures h.blocks[i] in next && next[h.blocks[i]] == h.blocks[i + 1]
      ensures ItemSize(h.blocks[i]) == Payload(h, i) == SizeOf(h, h.blocks[i])
    {
      SizeAt(h, i);
      assert Ring.LinkedAt(next, prev, h.blocks, i);
    }

    /** The search along the free list. */
    method Find(n: nat) returns (p: int, freeSize: int)
      requires Usable(h) && Links(h) && n > 0
      ensures var k := FirstFit(h, n, 0);
        if k < |h.free| then p == h.free[k] && freeSize == SizeOf(h, p) >= n
        else p == listHead && freeSize < n
    {
      freeSize := 0;
      ghost var r := [listHead] + h.free;
      ghost var k := 0;
      assert Ring.LinkedAt(nextFree, prevFree, r, 0);
      p := nextFree[listHead];
      while p != listHead && freeSize < n
        invariant k <= |h.free| && p == r[Ring.Succ(k, |r|)]
        invariant forall j :: 0 <= j < k ==> SizeOf(h, h.free[j]) < n
        invariant freeSize >= n ==> k < |h.free| && freeSize == SizeOf(h, h.free[k])
        decreases |h.free| - k, if freeSize < n then 1 else 0
      {
        assert k < |h.free| && p == h.free[k];
        ItemSizeOk(BlockIndex(h, p));
        freeSize := ItemSize(p);
        if freeSize < n {
          assert Ring.LinkedAt(nextFree, prevFree, r, k + 1);
          p := nextFree[p];
          k := k + 1;
        }
      }
    }

    /** Take `p`, the `k`-th free block, off the free list and mark it used. */
    method ClaimBlock(p: int, ghost g: Heap, ghost k: nat, ghost i: nat)
      requires Links(g) && k < |g.free| && i + 1 < |g.blocks|
      requires p == g.free[k] == g.blocks[i]
      modifies `nextFree, `prevFree, `magic
      ensures Links(Claim(g, k, i))
      ensures OnlyAt(old(Word()), Word(), g.blocks + g.free + [listHead])
    {
      ghost var w, all := Word(), g.blocks + g.free + [listHead];
      UnlinkFree(p, g.free, k);
      ghost var w1 := Word();
      Add(w, w, w1, [listHead] + g.free + [p], all);
      FreeDistinct(listHead, g.free);
      RemoveAtElements(g.free, k);
      ClearFree(p, [listHead] + RemoveAt(g.free, k));
      ghost var w2 := Word();
      Add(w, w1, w2, [p], all);
      magic := magic[p := SetUsed(magic[p])];
      Add(w, w2, Word(), [p], all);
    }

    /** Split the used block `p` after `n` bytes; the rest becomes a free block. */
    method CarveBlock(p: int, n: nat, ghost g: Heap, ghost i: nat)
      requires Links(g) && i + 1 < |g.blocks| && g.blocks[i] == p
      requires p + HDR + n !in g.blocks && p + HDR + n !in [listHead] + g.free
      modifies `next, `prev, `nextFree, `prevFree, `magic
      ensures Links(Carve(g, i, n))
      ensures OnlyAt(old(Word()), Word(), g.blocks + [p + HDR + n] + g.free + [listHead])
    {
      var rest := p + HDR + n;
      ghost var w, all := Word(), g.blocks + [rest] + g.free + [listHead];
      magic := magic[rest := MAGIC];
      ghost var w1 := Word();
      Add(w, w, w1, [rest], all);
      LinkBlock(p, rest, g.blocks, i);
      ghost var w2 := Word();
      Add(w, w1, w2, g.blocks + [rest], all);
      LinkFree(rest, g.free);
      Add(w, w2, Word(), [listHead] + g.free + [rest], all);
      InsertAtElements(g.blocks, i + 1, rest);
    }

    /** Give block `p` of `freeSize` bytes to a request of `n`: split it if the rest is worth it. */
    method TakeBlock(p: int, freeSize: int, n: nat, ghost k: nat, ghost i: nat)
      requires Links(h) && k < |h.free| && i + 1 < |h.blocks| && p == h.free[k] == h.blocks[i]
      requires freeSize == Payload(h, i) && h.avail == availableSize
      requires freeSize >= n + HDR + MINI ==> p + HDR + n !in h.blocks && p + HDR + n !in [listHead] + h.free
      modifies `next, `prev, `nextFree, `prevFree, `magic, `availableSize
      ensures var t := Unmarked(h, n, k, i); Links(t) && availableSize == t.avail
      ensures OnlyAt(old(Word()), Word(), Unmarked(h, n, k, i).blocks + h.free + [listHead])
    {
      ghost var w, all := Word(), Unmarked(h, n, k, i).blocks + h.free + [listHead];
      ClaimBlock(p, h, k, i);
      ghost var w1 := Word();
      Add(w, w, w1, h.blocks + h.free + [listHead], all);
      if freeSize >= n + HDR + MINI {
        RemoveIn(h.free, k);
        CarveBlock(p, n, Claim(h, k, i), i);
        Add(w, w1, Word(), h.blocks + [p + HDR + n] + RemoveAt(h.free, k) + [listHead], all);
        availableSize := availableSize - n - HDR;
      } else {
        availableSize := availableSize - freeSize;
      }
    }

    method MarkUsage()
      modifies `maxUsedSize
      ensures maxUsedSize == if poolSize - availableSize > old(maxUsedSize) then poolSize - availableSize else old(maxUsedSize)
    {
      if poolSize - availableSize > maxUsedSize {
        maxUsedSize := poolSize - availableSize;
      }
    }

    /** Allocation of `n` rounded bytes: search, take, account. */
    method Grab(n: nat) returns (ptr: int)
      requires Wired() && Usable(h) && n > 0
      modifies this
      ensures Wired() && (h, ptr) == Take(old(h), n)
      ensures bytes == old(bytes)
      ensures OnlyAt(old(Word()), Word(), old(h.blocks) + h.blocks + [listHead])
    {
      ptr := NULL;
      if n < availableSize {
        var p, freeSize := Find(n);
        if freeSize >= n {
          GrabFound(p, freeSize, n, FirstFit(h, n, 0), BlockIndex(h, p));
          ptr := p + HDR;
        }
      }
    }

    method GrabFound(p: int, freeSize: int, n: nat, ghost k: nat, ghost i: nat)
      requires Wired() && Usable(h) && k < |h.free| && p == h.free[k] && i == BlockIndex(h, p) && n <= freeSize == Payload(h, i)
      modifies this
      ensures Wired() && h == TakeAt(old(h), n, k) && bytes == old(bytes)
      ensures OnlyAt(old(Word()), Word(), old(h.blocks) + h.blocks + [listHead])
    {
      ghost var g, w := h, Word();
      if freeSize >= n + HDR + MINI { Between(g, i, p + HDR + n); }
      TakeBlock(p, freeSize, n, k, i);
      MarkUsage();
      h := TakeAt(g, n, k);
      OnlyTaken(w, Word(), g, h, listHead);
    }

    /** rt_memheap_alloc */
    method Alloc(size: nat) returns (ptr: int)
      requires Valid() && size < WORD
      modifies this
      ensures Valid() && (h, ptr) == Take(old(h), Need(size))
      ensures if ptr == NULL then h == old(h) && (Need(size) >= old(h).avail || !Fits(old(h), Need(size)))
              else Served(old(h), h, ptr - HDR, Need(size))
      ensures bytes == old(bytes)
      ensures OnlyAt(old(Word()), Word(), old(h.blocks) + h.blocks + [listHead]) && Spared(old(Word()), Word(), old(h), h)
    {
      ghost var g := h;
      var n := AlignUp(size);
      if n < MINI {
        n := MINI;
      }
      TakeOk(h, n);
      TakeFails(h, n);
      ptr := Grab(n);
      if ptr != NULL { TakeExact(g, n, h, ptr, ptr - HDR); }
      SparedBy(old(Word()), Word(), g, h, listHead);
    }

    // ---- release ------------------------------------------------------------------------

    /** Take the free block `x` out of both rings. */
    method DetachBlock(x: int, ghost B: seq<int>, ghost F: seq<int>, ghost i: nat)
      requires Ring.IsRing(next, prev, B) && Ring.IsRing(nextFree, prevFree, [listHead] + F)
      requires 0 < i < |B| && B[i] == x && x in F
      modifies `next, `prev, `nextFree, `prevFree
      ensures Ring.IsRing(next, prev, RemoveAt(B, i))
      ensures Ring.IsRing(nextFree, prevFree, [listHead] + Remove(F, x))
      ensures OnlyAt(old(Word()), Word(), B + F + [listHead])
    {
      ghost var w, all := Word(), B + F + [listHead];
      UnlinkBlock(x, B, i);
      ghost var w1 := Word();
      Add(w, w, w1, B + [x], all);
      UnlinkFree(x, F, IndexOf(F, x));
      Add(w, w1, Word(), [listHead] + F + [x], all);
    }

    /** Put a new free block `x` after `b` in both rings. */
    method AttachBlock(b: int, x: int, ghost B: seq<int>, ghost F: seq<int>, ghost i: nat)
      requires Ring.IsRing(next, prev, B) && Ring.IsRing(nextFree, prevFree, [listHead] + F)
      requires i < |B| && B[i] == b && x !in B && x !in [listHead] + F
      modifies `next, `prev, `nextFree, `prevFree
      ensures Ring.IsRing(next, prev, InsertAt(B, i + 1, x))
      ensures Ring.IsRing(nextFree, prevFree, [listHead] + ([x] + F))
      ensures OnlyAt(old(Word()), Word(), B + [x] + F + [listHead])
    {
      ghost var w, all := Word(), B + [x] + F + [listHead];
      LinkBlock(b, x, B, i);
      ghost var w1 := Word();
      Add(w, w, w1, B + [x], all);
      LinkFree(x, F);
      Add(w, w1, Word(), [listHead] + F + [x], all);
    }

    /** Merge the free block after `b`, if there is one, into `b`. */
    method MergeRight(b: int, ghost B: seq<int>, ghost F: seq<int>, ghost at: nat)
      requires Ring.IsRing(next, prev, B) && Ring.IsRing(nextFree, prevFree, [listHead] + F)
      requires at + 1 < |B| && B[at] == b && B[at + 1] in magic
      requires IsUsed(magic[B[at + 1]]) <==> B[at + 1] !in F
      modifies `next, `prev, `nextFree, `prevFree, `availableSize
      ensures var right := B[at + 1];
        if right in F then
          && Ring.IsRing(next, prev, RemoveAt(B, at + 1))
          && Ring.IsRing(nextFree, prevFree, [listHead] + Remove(F, right))
          && availableSize == old(availableSize) + HDR
        else
          && next == old(next) && prev == old(prev) && nextFree == old(nextFree) && prevFree == old(prevFree)
          && availableSize == old(availableSize)
      ensures OnlyAt(old(Word()), Word(), B + F + [listHead])
    {
      assert Ring.LinkedAt(next, prev, B, at);
      var right := next[b];
      if !IsUsed(magic[right]) {
        availableSize := availableSize + HDR;
        DetachBlock(right, B, F, at + 1);
      }
    }

    /** Merge the block at `B[i]` into the free block before it, if there is one. */
    method MergeLeft(header: int, ghost B: seq<int>, ghost F: seq<int>, ghost i: nat) returns (b: int, insert: bool)
      requires Ring.IsRing(next, prev, B) && i + 1 < |B| && B[i] == header
      requires forall x :: x in B && x != header ==> x in magic && (IsUsed(magic[x]) <==> x !in F)
      requires B[|B| - 1] !in F
      modifies `next, `prev, `availableSize
      ensures if i > 0 && B[i - 1] in F then
          && Ring.IsRing(next, prev, RemoveAt(B, i)) && b == B[i - 1] && !insert
          && availableSize == old(availableSize) + HDR
        else
          && next == old(next) && prev == old(prev) && b == header && insert
          && availableSize == old(availableSize)
      ensures OnlyAt(old(Word()), Word(), B)
    {
      assert Ring.LinkedAt(next, prev, B, i);
      b, insert := header, true;
      var left := prev[b];
      assert left == B[Ring.Pred(i, |B|)] && left != header;
      if !IsUsed(magic[left]) {
        availableSize := availableSize + HDR;
        UnlinkBlock(b, B, i);
        b := left;
        insert := false;
      }
    }

    /** The merging and listing part of rt_memheap_free, on block `i`. */
    method Coalesce(header: int, ghost B: seq<int>, ghost F: seq<int>, ghost i: nat)
      requires Ring.IsRing(next, prev, B) && Ring.IsRing(nextFree, prevFree, [listHead] + F)
      requires i + 1 < |B| && B[i] == header && header !in F && B[|B| - 1] !in F && listHead != header
      requires forall x :: x in B && x != header ==> x in magic && (IsUsed(magic[x]) <==> x !in F)
      modifies `next, `prev, `nextFree, `prevFree, `availableSize
      ensures Ring.IsRing(next, prev, MergedBlocks(B, F, i))
      ensures Ring.IsRing(nextFree, prevFree, [listHead] + MergedFree(B, F, i))
      ensures availableSize == old(availableSize)
                + (if FreeLeft(B, F, i) then HDR else 0) + (if B[i + 1] in F then HDR else 0)
      ensures OnlyAt(old(Word()), Word(), B + F + [listHead])
    {
      ghost var w, all := Word(), B + F + [listHead];
      var b, insert := MergeLeft(header, B, F, i);
      Add(w, w, Word(), B, all);
      if insert {
        MergeFront(b, B, F, i, w, all);
      } else {
        MergeBack(b, B, F, i, w, all);
      }
    }

    /** The left neighbour is in use: merge with the right one, then list the block. */
    method MergeFront(b: int, ghost B: seq<int>, ghost F: seq<int>, ghost i: nat, ghost w: Words, ghost all: seq<int>)
      requires Ring.IsRing(next, prev, B) && Ring.IsRing(nextFree, prevFree, [listHead] + F)
      requires i + 1 < |B| && B[i] == b && b !in F && listHead != b && !FreeLeft(B, F, i)
      requires B[i + 1] in magic && (IsUsed(magic[B[i + 1]]) <==> B[i + 1] !in F)
      requires all == B + F + [listHead] && OnlyAt(w, Word(), all)
      modifies `next, `prev, `nextFree, `prevFree, `availableSize
      ensures Ring.IsRing(next, prev, MergedBlocks(B, F, i))
      ensures Ring.IsRing(nextFree, prevFree, [listHead] + MergedFree(B, F, i))
      ensures availableSize == old(availableSize) + if B[i + 1] in F then HDR else 0
      ensures OnlyAt(w, Word(), all)
    {
      ghost var m := Word();
      MergeRight(b, B, F, i);
      Add(w, m, Word(), B + F + [listHead], all);
      ListFreed(b, F, if B[i + 1] in F then Remove(F, B[i + 1]) else F, w, all);
    }

    /** The block went into its left neighbour `b`: merge that one with the right neighbour. */
    method MergeBack(b: int, ghost B: seq<int>, ghost F: seq<int>, ghost i: nat, ghost w: Words, ghost all: seq<int>)
      requires 0 < i && i + 1 < |B| && B[i - 1] == b && b in F
      requires Ring.IsRing(next, prev, RemoveAt(B, i)) && Ring.IsRing(nextFree, prevFree, [listHead] + F)
      requires B[i + 1] in magic && (IsUsed(magic[B[i + 1]]) <==> B[i + 1] !in F)
      requires all == B + F + [listHead] && OnlyAt(w, Word(), all)
      modifies `next, `prev, `nextFree, `prevFree, `availableSize
      ensures Ring.IsRing(next, prev, MergedBlocks(B, F, i))
      ensures Ring.IsRing(nextFree, prevFree, [listHead] + MergedFree(B, F, i))
      ensures availableSize == old(availableSize) + if B[i + 1] in F then HDR else 0
      ensures OnlyAt(w, Word(), all)
    {
      ghost var m, L := Word(), RemoveAt(B, i);
      assert L[i - 1] == b && L[i] == B[i + 1];
      RemoveIn(B, i);
      MergeRight(b, L, F, i - 1);
      Add(w, m, Word(), L + F + [listHead], all);
    }

    /** List a freed block, after steps that wrote only at `all`. */
    method ListFreed(b: int, ghost F: seq<int>, ghost R: seq<int>, ghost w: Words, ghost all: seq<int>)
      requires Ring.IsRing(nextFree, prevFree, [listHead] + R) && b !in F && b != listHead
      requires R == F || exists x :: x in F && R == Remove(F, x)
      requires OnlyAt(w, Word(), all) && b in all && listHead in all && forall x :: x in F ==> x in all
      modifies `nextFree, `prevFree
      ensures Ring.IsRing(nextFree, prevFree, [listHead] + ([b] + R)) && OnlyAt(w, Word(), all)
    {
      ghost var m := Word();
      assert forall y :: y in R ==> y in F;
      LinkFree(b, R);
      Add(w, m, Word(), [listHead] + R + [b], all);
    }

    /** rt_memheap_free */
    method Free(ptr: int)
      requires Valid() && (ptr == NULL || IsLive(h, ptr - HDR))
      modifies this
      ensures Valid() && bytes == old(bytes)
      ensures h == if ptr == NULL then old(h) else HeapModel.Free(old(h), ptr - HDR)
      ensures ptr != NULL ==> Released(old(h), h, BlockIndex(old(h), ptr - HDR), ptr - HDR)
      ensures OnlyAt(old(Word()), Word(), old(h.blocks) + h.blocks + [listHead]) && Spared(old(Word()), Word(), old(h), h)
    {
      if ptr == NULL {
        return;
      }
      ghost var g := h;
      FreeOk(h, ptr - HDR);
      FreeBlock(ptr - HDR, BlockIndex(h, ptr - HDR));
      FreeExact(g, ptr - HDR, h, BlockIndex(g, ptr - HDR));
      SparedBy(old(Word()), Word(), g, h, listHead);
    }

    method FreeBlock(header: int, ghost i: nat)
      requires Wired() && Usable(h) && i + 1 < |h.blocks| && h.blocks[i] == header && header !in h.free
      modifies this
      ensures Wired() && h == Freed(old(h), i) && bytes == old(bytes)
      ensures OnlyAt(old(Word()), Word(), old(h.blocks) + h.blocks + [listHead])
    {
      ghost var g, m, w := h, magic, Word();
      HeadApart();
      ItemSizeAt(g.blocks, i);
      magic := magic[header := ClearUsed(magic[header])];
      ghost var w1 := Word();
      availableSize := availableSize + ItemSize(header);
      Coalesce(header, g.blocks, g.free, i);
      Add(w, w, w1, [header], g.blocks);
      Add(w, w1, Word(), g.blocks + g.free + [listHead], g.blocks + [listHead]);
      RewireFreed(g, i, m);
    }

    /** Once headers and counters are those of the heap with block `i` freed, so is the abstract state. */
    ghost method RewireFreed(g: Heap, i: nat, m: map<int, int>)
      requires Usable(g) && i + 1 < |g.blocks| && g.blocks[i] !in g.free && Counters(g.(avail := availableSize))
      requires MagicOk(m, g) && magic == m[g.blocks[i] := MAGIC]
      requires Ring.IsRing(next, prev, MergedBlocks(g.blocks, g.free, i))
      requires Ring.IsRing(nextFree, prevFree, [listHead] + MergedFree(g.blocks, g.free, i))
      requires availableSize == g.avail + Payload(g, i)
                 + (if FreeLeft(g.blocks, g.free, i) then HDR else 0) + (if g.blocks[i + 1] in g.free then HDR else 0)
      requires listHead + HDR <= startAddr || startAddr + poolSize <= listHead
      requires forall a :: startAddr <= a < startAddr + poolSize ==> a in bytes
      modifies `h
      ensures Wired() && h == Freed(g, i)
    {
      FreedShape(g, i);
      FreedElements(g, i);
      h := Freed(g, i);
    }

    lemma HeadApart()
      requires Wired() && Usable(h)
      ensures listHead !in h.blocks && h.blocks[|h.blocks| - 1] !in h.free
    {
      BlocksDistinct(h);
    }

    // ---- reallocation -------------------------------------------------------------------

    /** Drop the free block after `b` and build a new free block at `x` in its place. */
    method GrowBlock(b: int, right: int, x: int, ghost B: seq<int>, ghost F: seq<int>, ghost i: nat)
      requires Ring.IsRing(next, prev, B) && Ring.IsRing(nextFree, prevFree, [listHead] + F)
      requires i + 1 < |B| && B[i] == b && B[i + 1] == right && right in F
      requires x !in B && x !in [listHead] + F
      modifies `next, `prev, `nextFree, `prevFree, `magic
      ensures Relinked(B, F, i, x, old(magic))
      ensures OnlyAt(old(Word()), Word(), B + [x] + F + [listHead])
    {
      ghost var w, all := Word(), B + [x] + F + [listHead];
      DetachBlock(right, B, F, i + 1);
      ghost var w1 := Word();
      Add(w, w, w1, B + F + [listHead], all);
      RemoveIn(B, i + 1);
      RemoveIn(F, IndexOf(F, right));
      magic := magic[x := MAGIC];
      ghost var w2 := Word();
      Add(w, w1, w2, [x], all);
      AttachBlock(b, x, RemoveAt(B, i + 1), Remove(F, right), i);
      Add(w, w2, Word(), RemoveAt(B, i + 1) + [x] + Remove(F, right) + [listHead], all);
    }

    /** Split `b` at `x` and merge the new block with a free successor. */
    method ShrinkBlock(b: int, x: int, ghost B: seq<int>, ghost F: seq<int>, ghost i: nat)
      requires Ring.IsRing(next, prev, B) && Ring.IsRing(nextFree, prevFree, [listHead] + F)
      requires i + 1 < |B| && B[i] == b && x !in B && x !in [listHead] + F
      requires B[i + 1] in magic && (IsUsed(magic[B[i + 1]]) <==> B[i + 1] !in F)
      requires B[i + 1] in F ==> i + 2 < |B|
      modifies `next, `prev, `nextFree, `prevFree, `magic, `availableSize
      ensures Relinked(B, F, i, x, old(magic))
      ensures availableSize == old(availableSize) +
        B[i + 1] - x - if B[i + 1] in F then 0 else HDR
      ensures OnlyAt(old(Word()), Word(), B + [x] + F + [listHead])
    {
      ghost var w, all := Word(), B + [x] + F + [listHead];
      magic := magic[x := MAGIC];
      ghost var w1 := Word();
      Add(w, w, w1, [x], all);
      LinkBlock(b, x, B, i);
      ghost var w2 := Word();
      Add(w, w1, w2, B + [x], all);
      ghost var C := InsertAt(B, i + 1, x);
      ghost var R := F;
      ItemSizeAt(C, i + 1);
      var free := next[x];
      if !IsUsed(magic[free]) {
        ItemSizeAt(C, i + 2);
        availableSize := availableSize - ItemSize(free);
        DetachBlock(free, C, F, i + 2);
        Add(w, w2, Word(), C + F + [listHead], all);
        w2 := Word();
        RemoveIn(F, IndexOf(F, free));
        InsertThenRemove(B, i + 1, x);
        C := RemoveAt(C, i + 2);
        R := Remove(F, free);
      }
      LinkFree(x, R);
      Add(w, w2, Word(), [listHead] + R + [x], all);
      ItemSizeAt(C, i + 1);
      availableSize := availableSize + ItemSize(x);
    }

    /** The growing branch of rt_memheap_realloc, in 32-bit words. */
    method Grow(b: int, right: int, oldSize: int, n: nat, ghost i: nat)
      requires Wired() && Growing(h, b, i, n) && oldSize == Payload(h, i) && right == h.blocks[i + 1]
      modifies `next, `prev, `nextFree, `prevFree, `magic, `availableSize, `maxUsedSize, `h
      ensures Wired() && h == Grow32(old(h), i, n)
      ensures OnlyAt(old(Word()), Word(), old(h.blocks) + h.blocks + [listHead])
    {
      var x := Word32(b + HDR + n);
      BoundaryFresh(h, i, n, x);
      CountGrowth(oldSize, n, i);
      GrowLinks(b, right, x, n, i);
    }

    method CountGrowth(oldSize: int, n: nat, ghost i: nat)
      requires i + 1 < |h.blocks| && Counters(h) && oldSize == Payload(h, i)
      modifies `availableSize, `maxUsedSize
      ensures availableSize == Grow32(h, i, n).avail && maxUsedSize == Grow32(h, i, n).peak
    {
      availableSize := Word32(availableSize - (n - oldSize));
      if Word32(poolSize - availableSize) > maxUsedSize {
        maxUsedSize := Word32(poolSize - availableSize);
      }
    }

    method GrowLinks(b: int, right: int, x: int, n: nat, ghost i: nat)
      requires Usable(h) && Links(h) && h.start == startAddr && h.pool == poolSize
      requires i + 1 < |h.blocks| && h.blocks[i] == b && right == h.blocks[i + 1] && right in h.free
      requires x == Boundary(h, i, n) && x !in h.blocks && x !in [listHead] + h.free
      requires availableSize == Grow32(h, i, n).avail && maxUsedSize == Grow32(h, i, n).peak
      requires listHead + HDR <= startAddr || startAddr + poolSize <= listHead
      requires forall a :: startAddr <= a < startAddr + poolSize ==> a in bytes
      modifies `next, `prev, `nextFree, `prevFree, `magic, `h
      ensures Wired() && h == Grow32(old(h), i, n)
      ensures OnlyAt(old(Word()), Word(), old(h.blocks) + h.blocks + [listHead])
    {
      ghost var m, g, w := magic, h, Word();
      GrowBlock(b, right, x, g.blocks, g.free, i);
      RewireGrown(g, i, n, x, m);
      OnlyResized(w, Word(), g, h, x, listHead);
    }

    /** Once the headers are those of the heap with the new boundary, so is the abstract state. */
    ghost method RewireGrown(g: Heap, i: nat, n: nat, x: int, m: map<int, int>)
      requires Usable(g) && i + 1 < |g.blocks| && g.start == startAddr && g.pool == poolSize && x == Boundary(g, i, n) && x !in g.blocks
      requires MagicOk(m, g) && Relinked(g.blocks, g.free, i, x, m)
      requires availableSize == Grow32(g, i, n).avail && maxUsedSize == Grow32(g, i, n).peak
      requires listHead + HDR <= startAddr || startAddr + poolSize <= listHead
      requires forall a :: startAddr <= a < startAddr + poolSize ==> a in bytes
      modifies `h
      ensures Wired() && h == Grow32(g, i, n) && x in h.blocks
    {
      MarksGrown(m, g, Grow32(g, i, n), i, x);
      h := Grow32(g, i, n);
    }

    method Shrink(b: int, n: nat, ghost i: nat)
      requires Wired() && Usable(h) && i + 1 < |h.blocks| && h.blocks[i] == b
      requires n + HDR <= Payload(h, i) && poolSize - availableSize <= maxUsedSize
      modifies `next, `prev, `nextFree, `prevFree, `magic, `availableSize, `h
      ensures Wired() && h == Resize(old(h), i, n)
      ensures OnlyAt(old(Word()), Word(), old(h.blocks) + h.blocks + [listHead])
    {
      ghost var m, g := magic, h;
      var x := b + HDR + n;
      ResizeFresh(g, i, n, x);
      assert g.blocks[i + 1] in g.blocks;
      ShrinkBlock(b, x, g.blocks, g.free, i);
      Rewire(g, i, n, x, m);
      OnlyResized(old(Word()), Word(), g, h, x, listHead);
    }

    /** Once headers and counters are those of the resized heap, so is the abstract state. */
    ghost method Rewire(g: Heap, i: nat, n: nat, x: int, m: map<int, int>)
      requires Usable(g) && i + 1 < |g.blocks| && g.start == startAddr && g.pool == poolSize
      requires x == g.blocks[i] + HDR + n && x !in g.blocks
      requires MagicOk(m, g) && Relinked(g.blocks, g.free, i, x, m)
      requires availableSize == g.avail + Payload(g, i) - n - (if g.blocks[i + 1] in g.free then 0 else HDR)
      requires maxUsedSize == if poolSize - availableSize > g.peak then poolSize - availableSize else g.peak
      requires listHead + HDR <= startAddr || startAddr + poolSize <= listHead
      requires forall a :: startAddr <= a < startAddr + poolSize ==> a in bytes
      modifies `h
      ensures Wired() && h == Resize(g, i, n) && x in h.blocks
    {
      ResizeShape(g, i, n, x);
      ResizeMembers(g, i, x);
      h := Resize(g, i, n);
    }

    /** rt_memcpy between two payloads. */
    method Copy(dst: int, src: int, len: nat)
      requires forall a :: dst <= a < dst + len || src <= a < src + len ==> a in bytes
      requires dst + len <= src || src + len <= dst
      modifies `bytes
      ensures ContentMoved(old(bytes), bytes, src, dst, len)
    {
      for j := 0 to len
        invariant ContentMoved(old(bytes), bytes, src, dst, j)
      {
        bytes := bytes[dst + j := bytes[src + j]];
      }
    }

    /** rt_memheap_realloc, for any size.  Exactly when the caller has seen to GrowSafe the heap stays in
        order (ReallocExact). */
    method Realloc(ptr: int, newSize: nat) returns (p: int)
      requires Valid() && newSize < WORD && (ptr == NULL || IsLive(h, ptr - HDR))
      modifies this
      ensures Wired()
      ensures newSize == 0 ==> p == NULL && h == if ptr == NULL then old(h) else HeapModel.Free(old(h), ptr - HDR)
      ensures newSize > 0 && ptr == NULL ==> (h, p) == Take(old(h), Need(newSize))
      ensures newSize > 0 && ptr != NULL ==> (h, p) == HeapModel.Realloc(old(h), ptr - HDR, Need(newSize))
      ensures newSize == 0 || ptr == NULL || GrowSafe(old(h), ptr - HDR, Need(newSize)) ==> Valid() && Spared(old(Word()), Word(), old(h), h)
      ensures if newSize == 0 || ptr == NULL then OnlyAt(old(Word()), Word(), old(h.blocks) + h.blocks + [listHead])
              else Wrote(old(Word()), Word(), old(h), Take(old(h), Need(newSize)).0, h, listHead, p != NULL && p != ptr)
      ensures p == NULL || ptr == NULL ==> bytes == old(bytes)
      ensures p != NULL && ptr != NULL ==> ContentMoved(old(bytes), bytes, ptr, p, Min(SizeOf(old(h), ptr - HDR), Need(newSize)))
      ensures p != NULL && ptr != NULL && p != ptr ==> Clear(old(Word()), Word(), p, p + Need(newSize))
    {
      if newSize == 0 {
        Free(ptr);
        return NULL;
      }
      var n := AlignUp(newSize);
      if n < MINI {
        n := MINI;
      }
      if ptr == NULL {
        p := AllocRounded(n);
        return;
      }
      p := ReallocLive(ptr, n, SizeOf(h, ptr - HDR));
    }

    method ReallocLive(ptr: int, n: nat, ghost size: int) returns (p: int)
      requires Valid() && ptr != NULL && IsLive(h, ptr - HDR) && n % 4 == 0 && MINI <= n < WORD
      requires size == SizeOf(h, ptr - HDR)
      modifies this
      ensures (h, p) == HeapModel.Realloc(old(h), ptr - HDR, n)
      ensures Wired() && (GrowSafe(old(h), ptr - HDR, n) ==> Inv(h) && Spared(old(Word()), Word(), old(h), h))
      ensures if p == NULL then bytes == old(bytes) else ContentMoved(old(bytes), bytes, ptr, p, Min(size, n))
      ensures p != NULL && p != ptr ==> Clear(old(Word()), Word(), p, p + n)
      ensures Wrote(old(Word()), Word(), old(h), Take(old(h), n).0, h, listHead, p != NULL && p != ptr)
    {
      ghost var i := BlockIndex(h, ptr - HDR);
      ItemSizeOk(i);
      var oldSize := ItemSize(ptr - HDR);
      if n > oldSize {
        p := Larger(ptr, oldSize, n, i);
      } else {
        Reduce(ptr, oldSize, n, i);
        Unmoved(bytes, ptr, n);
        p := ptr;
      }
    }

    method Larger(ptr: int, oldSize: int, n: nat, ghost i: nat) returns (p: int)
      requires Valid() && ptr != NULL && IsLive(h, ptr - HDR) && n % 4 == 0 && MINI <= n < WORD
      requires i == BlockIndex(h, ptr - HDR) && oldSize == Payload(h, i) == SizeOf(h, ptr - HDR) < n
      modifies this
      ensures (h, p) == HeapModel.Realloc(old(h), ptr - HDR, n)
      ensures Wired() && (GrowSafe(old(h), ptr - HDR, n) ==> Inv(h) && Spared(old(Word()), Word(), old(h), h))
      ensures if p == NULL then bytes == old(bytes) else ContentMoved(old(bytes), bytes, ptr, p, oldSize)
      ensures p != NULL && p != ptr ==> Clear(old(Word()), Word(), p, p + n)
      ensures Wrote(old(Word()), Word(), old(h), Take(old(h), n).0, h, listHead, p != NULL && p != ptr)
    {
      ReallocGrows(h, ptr - HDR, i, n);
      p := Enlarge(ptr, oldSize, n, i);
    }

    /** A request the block already covers: give back the rest if it is worth it. */
    method Reduce(ptr: int, oldSize: int, n: nat, ghost i: nat)
      requires Valid() && IsLive(h, ptr - HDR) && n % 4 == 0 && MINI <= n
      requires i == BlockIndex(h, ptr - HDR) && n <= oldSize == Payload(h, i)
      modifies this
      ensures Valid() && (h, ptr) == HeapModel.Realloc(old(h), ptr - HDR, n) && Spared(old(Word()), Word(), old(h), h)
      ensures bytes == old(bytes)
      ensures OnlyAt(old(Word()), Word(), old(h.blocks) + h.blocks + [listHead])
    {
      ghost var g, w := h, Word();
      assert Inv(g);
      InPlaceOk(g, i, n);
      if n + HDR + MINI < oldSize {
        Shrink(ptr - HDR, n, i);
      }
      SparedBy(w, Word(), g, h, listHead);
    }

    method Enlarge(ptr: int, oldSize: int, n: nat, ghost i: nat) returns (p: int)
      requires Valid() && ptr != NULL && IsLive(h, ptr - HDR) && n % 4 == 0 && MINI <= n < WORD
      requires i == BlockIndex(h, ptr - HDR) && oldSize == Payload(h, i) == SizeOf(h, ptr - HDR) < n
      modifies this
      ensures if Tries(old(h), i, n) then h == Grow32(old(h), i, n) && p == ptr else (h, p) == MoveAway(old(h), ptr - HDR, n)
      ensures Wired() && (!Tries(old(h), i, n) || n + MINI < WORD ==> Inv(h) && Spared(old(Word()), Word(), old(h), h))
      ensures if p == NULL then bytes == old(bytes) else ContentMoved(old(bytes), bytes, ptr, p, oldSize)
      ensures p != NULL && p != ptr ==> Clear(old(Word()), Word(), p, p + n)
      ensures Wrote(old(Word()), Word(), old(h), Take(old(h), n).0, h, listHead, p != NULL && p != ptr)
    {
      ItemSizeOk(i);
      var right := next[ptr - HDR];
      var grows := FitsInPlace(right, oldSize, n, i);
      if grows {
        GrowHere(ptr, right, oldSize, n, i);
        Unmoved(bytes, ptr, oldSize);
        p := ptr;
      } else {
        p := MoveBlock(ptr, oldSize, n);
      }
    }

    method GrowHere(ptr: int, right: int, oldSize: int, n: nat, ghost i: nat)
      requires Wired() && Growing(h, ptr - HDR, i, n) && oldSize == Payload(h, i) && right == h.blocks[i + 1]
      modifies `next, `prev, `nextFree, `prevFree, `magic, `availableSize, `maxUsedSize, `h
      ensures Wired() && h == Grow32(old(h), i, n) && OnlyAt(old(Word()), Word(), old(h.blocks) + h.blocks + [listHead])
      ensures n + MINI < WORD ==> Inv(h) && Spared(old(Word()), Word(), old(h), h)
    {
      ghost var g, w := h, Word();
      assert Outside(g, listHead);
      Grow(ptr - HDR, right, oldSize, n, i);
      ghost var e, w' := h, Word();
      if n + MINI < WORD { GrowSpares(w, w', g, e, ptr - HDR, i, n, listHead); }
    }

    /** The growth test; the sums are 32-bit. */
    method FitsInPlace(right: int, oldSize: int, n: nat, ghost i: nat) returns (grows: bool)
      requires Valid() && i + 1 < |h.blocks| && right == h.blocks[i + 1] && oldSize == Payload(h, i)
      ensures grows <==> Tries(h, i, n)
    {
      grows := false;
      assert right in h.blocks;
      if !IsUsed(magic[right]) {
        ItemSizeOk(i + 1);
        var nextSize := ItemSize(right);
        grows := Word32(nextSize + oldSize) > Word32(n + MINI);
      }
    }

    /** Allocate elsewhere, copy, free the old block. */
    method MoveBlock(ptr: int, oldSize: int, n: nat) returns (p: int)
      requires Valid() && ptr != NULL && IsLive(h, ptr - HDR) && oldSize == SizeOf(h, ptr - HDR) < n
      requires n % 4 == 0 && MINI <= n < WORD
      modifies this
      ensures Valid() && (h, p) == MoveAway(old(h), ptr - HDR, n)
      ensures if p == NULL then bytes == old(bytes) else ContentMoved(old(bytes), bytes, ptr, p, oldSize)
      ensures Spared(old(Word()), Word(), old(h), h) && Wrote(old(Word()), Word(), old(h), Take(old(h), n).0, h, listHead, p != NULL)
      ensures p != NULL ==> p != ptr && Clear(old(Word()), Word(), p, p + n)
    {
      ghost var g, w := h, Word();
      assert Inv(g) && Outside(g, listHead);
      MoveFails(g, ptr - HDR, n);
      p := AllocRounded(n);
      if p != NULL {
        CompleteMove(ptr, p, oldSize, n, g, w);
      }
    }

    method CompleteMove(ptr: int, p: int, oldSize: int, n: nat, ghost g: Heap, ghost w: Words)
      requires Valid() && Took(g, h, p, n) && Outside(g, listHead) && ptr != NULL && IsLive(g, ptr - HDR) && oldSize == SizeOf(g, ptr - HDR) < n
      requires OnlyAt(w, Word(), g.blocks + h.blocks + [listHead])
      modifies this
      ensures Valid() && (h, p) == MoveAway(g, ptr - HDR, n) && p != ptr
      ensures ContentMoved(old(bytes), bytes, ptr, p, oldSize)
      ensures Spared(w, Word(), g, h) && Clear(w, Word(), p, p + n) && Via(w, Word(), g, old(h), h, listHead)
    {
      MoveAwayParts(g, ptr - HDR, n, h, p);
      Relocate(ptr, p, oldSize, n, g, w);
    }

    method Relocate(ptr: int, p: int, oldSize: int, n: nat, ghost g: Heap, ghost w: Words)
      requires Wired() && Moving(g, h, ptr, p, n, oldSize) && Outside(g, listHead)
      requires OnlyAt(w, Word(), g.blocks + h.blocks + [listHead])
      modifies this
      ensures Valid() && h == HeapModel.Free(old(h), ptr - HDR)
      ensures ContentMoved(old(bytes), bytes, ptr, p, oldSize)
      ensures Spared(w, Word(), g, h) && Clear(w, Word(), p, p + n) && Via(w, Word(), g, old(h), h, listHead)
    {
      ghost var t, m := h, Word();
      FinishMove(ptr, p, oldSize);
      ghost var e, w' := h, Word();
      MoveSpares(w, m, w', g, t, e, ptr - HDR, p, n, listHead);
    }

    method AllocRounded(n: nat) returns (ptr: int)
      requires Valid() && n % 4 == 0 && MINI <= n < WORD
      modifies this
      ensures Valid() && (h, ptr) == Take(old(h), n) && bytes == old(bytes)
      ensures OnlyAt(old(Word()), Word(), old(h.blocks) + h.blocks + [listHead]) && Spared(old(Word()), Word(), old(h), h)
    {
      NeedStable(n);
      ptr := Alloc(n);
    }

    method FinishMove(ptr: int, p: int, len: int)
      requires Valid() && IsLive(h, ptr - HDR) && IsLive(h, p - HDR) && p != ptr && ptr != NULL
      requires len == SizeOf(h, ptr - HDR) <= SizeOf(h, p - HDR)
      modifies this
      ensures Valid() && h == HeapModel.Free(old(h), ptr - HDR)
      ensures ContentMoved(old(bytes), bytes, ptr, p, len)
      ensures OnlyAt(old(Word()), Word(), old(h.blocks) + h.blocks + [listHead])
    {
      CopyOver(ptr, p, len);
      Free(ptr);
    }

    method CopyOver(ptr: int, p: int, len: int)
      requires Valid() && IsLive(h, ptr - HDR) && IsLive(h, p - HDR) && p != ptr
      requires len == SizeOf(h, ptr - HDR) <= SizeOf(h, p - HDR)
      modifies `bytes
      ensures Valid() && ContentMoved(old(bytes), bytes, ptr, p, len)
    {
      PayloadsDisjoint(h, ptr - HDR, p - HDR);
      PayloadsDisjoint(h, p - HDR, ptr - HDR);
      Copy(p, ptr, len);
    }
  }
}
