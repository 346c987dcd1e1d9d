/** What a memory heap (memheap.c) is, without its pointers: the addresses of its block
    headers in address order (the zero-length tailer last), the free list in list order,
    and the two byte counters.  Block `i` owns the bytes between its header and the next
    header.  The pointer-level allocator in `Memheap` is proved to compute these functions. */
module HeapModel {
  import opened Seqs

  const HDR: nat := 24               // RT_MEMHEAP_SIZE: six 32-bit words
  const MINI: nat := 12              // RT_MEMHEAP_MINIALLOC
  const WORD: nat := 0x1_0000_0000   // 32-bit sizes and addresses

  function Min(a: int, b: int): int { if a < b then a else b }

  /** A sum kept in a 32-bit word. */
  function Word32(a: int): (r: int)
    ensures 0 <= r < WORD
    ensures 0 <= a < WORD ==> r == a
    ensures WORD <= a < 2 * WORD ==> r == a - WORD
  {
    a % 0x1_0000_0000
  }

  datatype Heap = Heap(start: nat, pool: nat, blocks: seq<int>, free: seq<int>, avail: int, peak: int)

  /** RT_ALIGN(n, 4) on a 32-bit size. */
  function AlignUp(n: nat): (r: nat)
    requires n < WORD
    ensures r % 4 == 0 && r < WORD
  {
    Word32(n + 3) / 4 * 4
  }

  /** The payload a request of `n` bytes is rounded to. */
  function Need(n: nat): (r: nat)
    requires n < WORD
    ensures r % 4 == 0 && MINI <= r < WORD
  {
    if AlignUp(n) < MINI then MINI else AlignUp(n)
  }

  /** Rounding covers the request exactly when RT_ALIGN does not wrap. */
  lemma NeedCovers(n: nat)
    requires n < WORD
    ensures Need(n) >= n <==> n <= WORD - 4
  {
    if n > WORD - 4 { assert Word32(n + 3) == n + 3 - WORD; }
  }

  lemma NeedStable(n: nat)
    requires n < WORD && n % 4 == 0 && n >= MINI
    ensures Need(n) == n
  {
    assert Word32(n + 3) == n + 3;
  }

  // ---- shape ------------------------------------------------------------------------

  function Tail(h: Heap): int { h.start + h.pool - HDR }

  function Payload(h: Heap, i: nat): int
    requires i + 1 < |h.blocks|
  {
    h.blocks[i + 1] - h.blocks[i] - HDR
  }

  ghost predicate GapAt(bs: seq<int>, i: nat)
    requires i + 1 < |bs|
  {
    bs[i] + HDR <= bs[i + 1] && bs[i] % 4 == 0
  }

  /** The blocks tile the pool from its start up to the tailer. */
  ghost predicate Tiles(h: Heap) {
    && |h.blocks| >= 2
    && h.blocks[0] == h.start
    && h.blocks[|h.blocks| - 1] == Tail(h)
    && forall i {:trigger GapAt(h.blocks, i)} :: 0 <= i < |h.blocks| - 1 ==> GapAt(h.blocks, i)
  }

  ghost predicate ApartAt(h: Heap, i: nat)
    requires i + 1 < |h.blocks|
  {
    h.blocks[i] in h.free ==> h.blocks[i + 1] !in h.free
  }

  /** The free list holds blocks of the pool, each once, never the tailer, and no two
      neighbours: freed memory is always coalesced. */
  ghost predicate FreeListOk(h: Heap) {
    && Distinct(h.free)
    && (forall f :: f in h.free ==> f in h.blocks && f != Tail(h))
    && forall i {:trigger ApartAt(h, i)} :: 0 <= i < |h.blocks| - 1 ==> ApartAt(h, i)
  }

  /** Bytes of payload lying in free blocks. */
  ghost function SumFree(bs: seq<int>, free: seq<int>): int {
    if |bs| < 2 then 0 else
      (if bs[0] in free then bs[1] - bs[0] - HDR else 0) + SumFree(bs[1..], free)
  }

  ghost predicate Core(h: Heap) {
    && 0 < h.start && h.start % 4 == 0 && h.pool % 4 == 0 && h.start + h.pool <= WORD
    && Tiles(h)
    && FreeListOk(h)
    && h.avail == SumFree(h.blocks, h.free)
  }

  ghost predicate Inv(h: Heap) {
    Core(h) && h.pool - h.avail <= h.peak
  }

  lemma Sorted(h: Heap, i: nat, j: nat)
    requires Tiles(h) && i < j < |h.blocks|
    ensures h.blocks[i] + HDR <= h.blocks[j]
    decreases j - i
  {
    assert GapAt(h.blocks, i);
    if i + 1 < j {
      Sorted(h, i + 1, j);
    }
  }

  lemma BlocksDistinct(h: Heap)
    requires Tiles(h)
    ensures Distinct(h.blocks)
    ensures forall b :: b in h.blocks ==> h.start <= b <= Tail(h)
    ensures Tail(h) in h.blocks && h.start in h.blocks
  {
    forall i, j | 0 <= i < j < |h.blocks| ensures h.blocks[i] != h.blocks[j] {
      Sorted(h, i, j);
    }
    forall b | b in h.blocks ensures h.start <= b <= Tail(h) {
      var i := IndexOf(h.blocks, b);
      if i > 0 { Sorted(h, 0, i); }
      if i < |h.blocks| - 1 { Sorted(h, i, |h.blocks| - 1); }
    }
  }

  /** No header lies strictly between two neighbouring ones. */
  lemma Between(h: Heap, i: nat, x: int)
    requires Tiles(h) && i + 1 < |h.blocks| && h.blocks[i] < x < h.blocks[i + 1]
    ensures x !in h.blocks && h.start <= x <= Tail(h)
  {
    forall j | 0 <= j < |h.blocks| ensures h.blocks[j] != x {
      if j < i { Sorted(h, j, i); }
      if i + 1 < j { Sorted(h, i + 1, j); }
    }
    if i > 0 { Sorted(h, 0, i); }
    if i + 1 < |h.blocks| - 1 { Sorted(h, i + 1, |h.blocks| - 1); }
  }

  // ---- the free byte count ----------------------------------------------------------

  lemma {:induction false} SumSplit(bs: seq<int>, free: seq<int>, k: nat)
    requires k < |bs|
    ensures SumFree(bs, free) == SumFree(bs[..k + 1], free) + SumFree(bs[k..], free)
  {
    if k == 0 {
      assert bs[0..] == bs;
    } else {
      SumSplit(bs[1..], free, k - 1);
      assert bs[1..][..k] == bs[..k + 1][1..];
      assert bs[1..][k - 1..] == bs[k..];
    }
  }

  function Weight(bs: seq<int>, free: seq<int>, i: nat): int
    requires i + 1 < |bs|
  {
    if bs[i] in free then bs[i + 1] - bs[i] - HDR else 0
  }

  /** The contribution of one block, split off from what lies before and after it. */
  lemma SumAt(bs: seq<int>, free: seq<int>, i: nat)
    requires i + 1 < |bs|
    ensures SumFree(bs, free) == SumFree(bs[..i + 1], free) + Weight(bs, free, i) + SumFree(bs[i + 1..], free)
  {
    SumSplit(bs, free, i);
    assert bs[i..][1..] == bs[i + 1..];
  }

  lemma {:induction false} SumSame(bs: seq<int>, free: seq<int>, free': seq<int>)
    requires forall i :: 0 <= i < |bs| - 1 ==> (bs[i] in free <==> bs[i] in free')
    ensures SumFree(bs, free) == SumFree(bs, free')
  {
    if |bs| >= 2 {
      assert bs[0] in free <==> bs[0] in free';
      forall i | 0 <= i < |bs[1..]| - 1 ensures bs[1..][i] in free <==> bs[1..][i] in free' {
        assert bs[1..][i] == bs[i + 1];
      }
      SumSame(bs[1..], free, free');
    }
  }

  /** Freeing or claiming block `i` alone moves the count by that block's payload. */
  lemma SumToggle(h: Heap, i: nat, free': seq<int>)
    requires Tiles(h) && i + 1 < |h.blocks|
    requires forall b :: b in h.blocks && b != h.blocks[i] ==> (b in h.free <==> b in free')
    ensures SumFree(h.blocks, free') == SumFree(h.blocks, h.free)
              - Weight(h.blocks, h.free, i) + Weight(h.blocks, free', i)
  {
    BlocksDistinct(h);
    SumAt(h.blocks, h.free, i);
    SumAt(h.blocks, free', i);
    SumSame(h.blocks[..i + 1], h.free, free');
    SumSame(h.blocks[i + 1..], h.free, free');
  }

  // ---- live blocks ------------------------------------------------------------------

  ghost predicate IsLive(h: Heap, b: int) {
    b in h.blocks && b != Tail(h) && b !in h.free
  }

  function SizeOf(h: Heap, b: int): int
    requires b in h.blocks
  {
    var i := IndexOf(h.blocks, b);
    if i + 1 < |h.blocks| then Payload(h, i) else 0
  }

  ghost predicate SamePool(h: Heap, h': Heap) {
    h'.start == h.start && h'.pool == h.pool
  }

  /** Every live block of `h` except `b` is live in `h'` with the same extent. */
  ghost predicate KeepsOthers(h: Heap, h': Heap, b: int) {
    && SamePool(h, h')
    && forall c :: IsLive(h, c) && c != b ==> IsLive(h', c) && SizeOf(h', c) == SizeOf(h, c)
  }

  lemma SizeAt(h: Heap, i: nat)
    requires Tiles(h) && i + 1 < |h.blocks|
    ensures SizeOf(h, h.blocks[i]) == Payload(h, i) >= 0
    ensures h.blocks[i] != Tail(h) && h.blocks[i] % 4 == 0
    ensures IndexOf(h.blocks, h.blocks[i]) == i
  {
    BlocksDistinct(h);
    IndexOfAt(h.blocks, i);
    assert GapAt(h.blocks, i);
    Sorted(h, i, |h.blocks| - 1);
  }

  // ---- the four edits every operation is made of --------------------------------------

  /** Take the whole free block `free[k]`, which is block `i`. */
  function Claim(h: Heap, k: nat, i: nat): Heap
    requires k < |h.free| && i + 1 < |h.blocks|
  {
    h.(free := RemoveAt(h.free, k), avail := h.avail - Payload(h, i))
  }

  /** Let the used block `i` swallow the free block after it. */
  function Absorb(h: Heap, i: nat): Heap
    requires i + 2 < |h.blocks| && h.blocks[i + 1] in h.free
  {
    h.(blocks := RemoveAt(h.blocks, i + 1), free := Remove(h.free, h.blocks[i + 1]),
       avail := h.avail - Payload(h, i + 1))
  }

  /** Cut the used block `i` down to `n` bytes; the rest becomes a free block, listed first. */
  function Carve(h: Heap, i: nat, n: nat): Heap
    requires i + 1 < |h.blocks|
  {
    var b := h.blocks[i] + HDR + n;
    h.(blocks := InsertAt(h.blocks, i + 1, b), free := [b] + h.free,
       avail := h.avail + Payload(h, i) - n - HDR)
  }

  /** Free the used block `i`, whose right neighbour is in use: into its left neighbour if
      that one is free, otherwise to the front of the free list. */
  function Retire(h: Heap, i: nat): Heap
    requires i + 1 < |h.blocks|
  {
    if i > 0 && h.blocks[i - 1] in h.free then
      h.(blocks := RemoveAt(h.blocks, i), avail := h.avail + Payload(h, i) + HDR)
    else
      h.(free := [h.blocks[i]] + h.free, avail := h.avail + Payload(h, i))
  }

  lemma ClaimOk(h: Heap, k: nat, i: nat)
    requires Core(h) && k < |h.free| && i + 1 < |h.blocks| && h.blocks[i] == h.free[k]
    ensures Core(Claim(h, k, i))
    ensures KeepsOthers(h, Claim(h, k, i), h.blocks[i])
    ensures forall c :: IsLive(Claim(h, k, i), c) <==> IsLive(h, c) || c == h.blocks[i]
    ensures SizeOf(Claim(h, k, i), h.blocks[i]) == Payload(h, i)
    ensures h.blocks[i + 1] !in Claim(h, k, i).free
  {
    var h' := Claim(h, k, i);
    BlocksDistinct(h);
    RemoveAtElements(h.free, k);
    SizeAt(h, i);
    assert ApartAt(h, i);
    assert Tiles(h') by {
      forall j | 0 <= j < |h'.blocks| - 1 ensures GapAt(h'.blocks, j) { assert GapAt(h.blocks, j); }
    }
    forall j | 0 <= j < |h'.blocks| - 1 ensures ApartAt(h', j) { assert ApartAt(h, j); }
    SumToggle(h, i, h'.free);
  }

  // Removing the boundary in front of block `j` joins blocks `j - 1` and `j`; read from
  // right to left, the same facts describe cutting a block in two.

  lemma SumJoin(bs: seq<int>, free: seq<int>, j: nat, free': seq<int>)
    requires 0 < j < |bs| - 1
    requires forall i :: 0 <= i < |bs| && i != j - 1 && i != j ==> (bs[i] in free <==> bs[i] in free')
    ensures SumFree(RemoveAt(bs, j), free') ==
            SumFree(bs, free) - Weight(bs, free, j - 1) - Weight(bs, free, j)
              + (if bs[j - 1] in free' then bs[j + 1] - bs[j - 1] - HDR else 0)
  {
    var bs' := RemoveAt(bs, j);
    SumAt(bs, free, j - 1);
    SumAt(bs[j..], free, 0);
    SumAt(bs', free', j - 1);
    assert bs'[..j] == bs[..j];
    assert bs'[j..] == bs[j + 1..] == bs[j..][1..];
    SumSame(bs[..j], free, free');
    SumSame(bs[j + 1..], free, free');
  }

  lemma JoinTiles(h: Heap, h': Heap, j: nat)
    requires Tiles(h) && 0 < j < |h.blocks| - 1
    requires h'.blocks == RemoveAt(h.blocks, j) && SamePool(h, h')
    ensures Tiles(h')
  {
    assert GapAt(h.blocks, j - 1) && GapAt(h.blocks, j);
    forall i | 0 <= i < |h'.blocks| - 1 ensures GapAt(h'.blocks, i) {
      assert GapAt(h.blocks, if i < j then i else i + 1);
    }
  }

  lemma JoinBlocks(h: Heap, h': Heap, j: nat)
    requires Tiles(h) && 0 < j < |h.blocks| - 1
    requires h'.blocks == RemoveAt(h.blocks, j)
    ensures forall c :: c in h'.blocks <==> c in h.blocks && c != h.blocks[j]
  {
    BlocksDistinct(h);
    RemoveAtElements(h.blocks, j);
  }

  lemma JoinSize(h: Heap, h': Heap, j: nat, c: int)
    requires Tiles(h) && Tiles(h') && 0 < j < |h.blocks| - 1
    requires h'.blocks == RemoveAt(h.blocks, j) && SamePool(h, h')
    requires c in h.blocks && c != h.blocks[j]
    ensures c in h'.blocks
    ensures SizeOf(h', c) == if c == h.blocks[j - 1] then Payload(h, j - 1) + HDR + Payload(h, j)
                             else SizeOf(h, c)
  {
    BlocksDistinct(h);
    BlocksDistinct(h');
    var i := IndexOf(h.blocks, c);
    JoinGap(h.blocks, h'.blocks, j, i);
    IndexOfAt(h'.blocks, if i < j then i else i - 1);
    IndexOfAt(h.blocks, j - 1);
  }

  lemma JoinGap(B: seq<int>, B': seq<int>, j: nat, i: nat)
    requires 0 < j < |B| - 1 && i < |B| && i != j && B' == RemoveAt(B, j)
    ensures var i' := if i < j then i else i - 1;
      && i' < |B'| && B'[i'] == B[i] && (i' + 1 < |B'| <==> i + 1 < |B|)
      && (i + 1 < |B| ==> B'[i' + 1] == if i == j - 1 then B[j + 1] else B[i + 1])
  {
  }

  lemma CutTiles(h: Heap, h': Heap, j: nat, b: int)
    requires Tiles(h) && 0 < j < |h.blocks|
    requires b % 4 == 0 && h.blocks[j - 1] + HDR <= b && b + HDR <= h.blocks[j]
    requires h'.blocks == InsertAt(h.blocks, j, b) && SamePool(h, h')
    ensures Tiles(h')
    ensures RemoveAt(h'.blocks, j) == h.blocks
    ensures b !in h.blocks && b != Tail(h)
  {
    assert GapAt(h.blocks, j - 1);
    Between(h, j - 1, b);
    forall i | 0 <= i < |h'.blocks| - 1 ensures GapAt(h'.blocks, i) {
      if i < j - 1 {
        assert GapAt(h.blocks, i);
      } else if i > j {
        assert GapAt(h.blocks, i - 1);
      }
    }
  }

  lemma AbsorbOk(h: Heap, i: nat)
    requires Core(h) && i + 1 < |h.blocks| && h.blocks[i] !in h.free && h.blocks[i + 1] in h.free
    ensures i + 2 < |h.blocks|
    ensures Core(Absorb(h, i))
    ensures h.blocks[i + 2] !in Absorb(h, i).free
  {
    assert i + 2 < |h.blocks|;
    var h' := Absorb(h, i);
    JoinTiles(h, h', i + 1);
    AbsorbFree(h, h', i);
    AbsorbSum(h, h', i);
  }

  lemma AbsorbFree(h: Heap, h': Heap, i: nat)
    requires Tiles(h) && FreeListOk(h) && i + 2 < |h.blocks| && h.blocks[i] !in h.free && h.blocks[i + 1] in h.free
    requires h' == Absorb(h, i)
    ensures FreeListOk(h') && h.blocks[i + 2] !in h'.free
  {
    RemoveAtElements(h.free, IndexOf(h.free, h.blocks[i + 1]));
    JoinBlocks(h, h', i + 1);
    assert ApartAt(h, i + 1);
    forall j | 0 <= j < |h'.blocks| - 1 ensures ApartAt(h', j) {
      assert ApartAt(h, if j <= i then j else j + 1);
    }
  }

  lemma AbsorbSum(h: Heap, h': Heap, i: nat)
    requires Tiles(h) && FreeListOk(h) && i + 2 < |h.blocks| && h.blocks[i] !in h.free && h.blocks[i + 1] in h.free
    requires h' == Absorb(h, i) && h.avail == SumFree(h.blocks, h.free)
    ensures h'.avail == SumFree(h'.blocks, h'.free)
  {
    BlocksDistinct(h);
    RemoveAtElements(h.free, IndexOf(h.free, h.blocks[i + 1]));
    SumJoin(h.blocks, h.free, i + 1, h'.free);
  }

  lemma AbsorbLive(h: Heap, i: nat)
    requires Core(h) && i + 1 < |h.blocks| && h.blocks[i] !in h.free && h.blocks[i + 1] in h.free
    requires i + 2 < |h.blocks|
    ensures KeepsOthers(h, Absorb(h, i), h.blocks[i])
    ensures forall c :: IsLive(Absorb(h, i), c) <==> IsLive(h, c)
    ensures Absorb(h, i).blocks[i] == h.blocks[i]
    ensures SizeOf(Absorb(h, i), h.blocks[i]) == Payload(h, i) + HDR + Payload(h, i + 1)
  {
    var h' := Absorb(h, i);
    RemoveAtElements(h.free, IndexOf(h.free, h.blocks[i + 1]));
    JoinTiles(h, h', i + 1);
    JoinBlocks(h, h', i + 1);
    forall c | c in h'.blocks ensures SizeOf(h', c) == if c == h.blocks[i] then Payload(h, i) + HDR + Payload(h, i + 1) else SizeOf(h, c) {
      JoinSize(h, h', i + 1, c);
    }
    assert h'.blocks[i] == h.blocks[i];
  }

  lemma Multiple4(a: int, n: nat)
    requires a % 4 == 0 && n % 4 == 0
    ensures (a + HDR + n) % 4 == 0
  {
  }

  lemma CarveOk(h: Heap, i: nat, n: nat)
    requires Core(h) && i + 1 < |h.blocks| && h.blocks[i] !in h.free && h.blocks[i + 1] !in h.free
    requires n % 4 == 0 && n + HDR <= Payload(h, i)
    ensures Core(Carve(h, i, n))
  {
    var h' := Carve(h, i, n);
    var b := h.blocks[i] + HDR + n;
    assert h.blocks[i] % 4 == 0 by { assert GapAt(h.blocks, i); }
    Multiple4(h.blocks[i], n);
    CutTiles(h, h', i + 1, b);
    CarveFree(h, h', i, n, b);
    CarveSum(h, h', i, n, b);
  }

  /** Cutting block `i` at `b` adds the one boundary `b`. */
  lemma CutOff(h: Heap, h': Heap, i: nat, b: int)
    requires i + 1 < |h.blocks| && Tiles(h') && h'.blocks == InsertAt(h.blocks, i + 1, b)
    ensures h.blocks == RemoveAt(h'.blocks, i + 1) && h'.blocks[i + 1] == b
    ensures forall k :: 0 <= k < |h'.blocks| && k != i + 1 ==> h'.blocks[k] != b
    ensures b !in h.blocks
  {
    BlocksDistinct(h');
  }

  lemma CarveFree(h: Heap, h': Heap, i: nat, n: nat, b: int)
    requires Tiles(h) && FreeListOk(h) && i + 1 < |h.blocks| && h.blocks[i] !in h.free && h.blocks[i + 1] !in h.free
    requires h' == Carve(h, i, n) && Tiles(h') && b == h.blocks[i] + HDR + n
    ensures FreeListOk(h')
  {
    var B := h'.blocks;
    CutOff(h, h', i, b);
    JoinBlocks(h', h, i + 1);
    assert h'.free == InsertAt(h.free, 0, b);
    InsertAtElements(h.free, 0, b);
    forall j | 0 <= j < |B| - 1 ensures ApartAt(h', j) {
      if j < i {
        assert B[j] == h.blocks[j] && B[j + 1] == h.blocks[j + 1] && ApartAt(h, j);
      } else if j > i + 1 {
        assert B[j] == h.blocks[j - 1] && B[j + 1] == h.blocks[j] && ApartAt(h, j - 1);
      } else {
        assert B[i] == h.blocks[i] && B[i + 2] == h.blocks[i + 1];
      }
    }
  }

  lemma CarveSum(h: Heap, h': Heap, i: nat, n: nat, b: int)
    requires Tiles(h) && FreeListOk(h) && i + 1 < |h.blocks| && h.blocks[i] !in h.free && h.blocks[i + 1] !in h.free
    requires h' == Carve(h, i, n) && Tiles(h') && b == h.blocks[i] + HDR + n && h.avail == SumFree(h.blocks, h.free)
    ensures h'.avail == SumFree(h'.blocks, h'.free)
  {
    CutOff(h, h', i, b);
    SumJoin(h'.blocks, h'.free, i + 1, h.free);
  }

  lemma CarveLive(h: Heap, i: nat, n: nat)
    requires Core(h) && i + 1 < |h.blocks| && h.blocks[i] !in h.free && h.blocks[i + 1] !in h.free
    requires n % 4 == 0 && n + HDR <= Payload(h, i)
    ensures KeepsOthers(h, Carve(h, i, n), h.blocks[i])
    ensures forall c :: IsLive(Carve(h, i, n), c) <==> IsLive(h, c)
    ensures Carve(h, i, n).blocks[i] == h.blocks[i]
    ensures SizeOf(Carve(h, i, n), h.blocks[i]) == n
  {
    var h' := Carve(h, i, n);
    var b := h.blocks[i] + HDR + n;
    assert h.blocks[i] % 4 == 0 by { assert GapAt(h.blocks, i); }
    Multiple4(h.blocks[i], n);
    CutTiles(h, h', i + 1, b);
    JoinBlocks(h', h, i + 1);
    forall c | c in h.blocks && c != h.blocks[i] ensures SizeOf(h', c) == SizeOf(h, c) {
      JoinSize(h', h, i + 1, c);
    }
    SizeAt(h', i);
  }

  lemma RetireOk(h: Heap, i: nat)
    requires Core(h) && i + 1 < |h.blocks| && h.blocks[i] !in h.free && h.blocks[i + 1] !in h.free
    ensures Core(Retire(h, i))
  {
    var h' := Retire(h, i);
    if i > 0 && h.blocks[i - 1] in h.free {
      JoinTiles(h, h', i);
      JoinBlocks(h, h', i);
      forall j | 0 <= j < |h'.blocks| - 1 ensures ApartAt(h', j) {
        assert ApartAt(h, if j < i then j else j + 1);
      }
      SumJoin(h.blocks, h.free, i, h.free);
    } else {
      RetireFrontOk(h, i);
    }
  }

  lemma RetireFrontOk(h: Heap, i: nat)
    requires Core(h) && i + 1 < |h.blocks| && h.blocks[i] !in h.free && h.blocks[i + 1] !in h.free
    requires i == 0 || h.blocks[i - 1] !in h.free
    ensures Core(Retire(h, i))
  {
    var h' := Retire(h, i);
    SizeAt(h, i);
    assert h'.free == InsertAt(h.free, 0, h.blocks[i]);
    InsertAtElements(h.free, 0, h.blocks[i]);
    assert Tiles(h') by {
      forall j | 0 <= j < |h'.blocks| - 1 ensures GapAt(h'.blocks, j) { assert GapAt(h.blocks, j); }
    }
    RetireApart(h, i, h');
    SumToggle(h, i, h'.free);
  }

  lemma RetireApart(h: Heap, i: nat, h': Heap)
    requires Tiles(h) && FreeListOk(h) && i + 1 < |h.blocks| && h.blocks[i + 1] !in h.free && (i == 0 || h.blocks[i - 1] !in h.free)
    requires h'.blocks == h.blocks && forall b :: b in h'.free <==> b in h.free || b == h.blocks[i]
    ensures forall j {:trigger ApartAt(h', j)} :: 0 <= j < |h'.blocks| - 1 ==> ApartAt(h', j)
  {
    BlocksDistinct(h);
    forall j | 0 <= j < |h'.blocks| - 1 ensures ApartAt(h', j) { assert ApartAt(h, j); }
  }

  lemma RetireLive(h: Heap, i: nat)
    requires Core(h) && i + 1 < |h.blocks| && h.blocks[i] !in h.free && h.blocks[i + 1] !in h.free
    ensures KeepsOthers(h, Retire(h, i), h.blocks[i])
    ensures forall c :: IsLive(Retire(h, i), c) <==> IsLive(h, c) && c != h.blocks[i]
  {
    var h' := Retire(h, i);
    if i > 0 && h.blocks[i - 1] in h.free {
      JoinTiles(h, h', i);
      JoinBlocks(h, h', i);
      forall c | c in h'.blocks && c != h.blocks[i - 1] ensures SizeOf(h', c) == SizeOf(h, c) {
        JoinSize(h, h', i, c);
      }
    } else {
      assert h'.free == InsertAt(h.free, 0, h.blocks[i]);
      InsertAtElements(h.free, 0, h.blocks[i]);
    }
  }

  // ---- the operations ---------------------------------------------------------------

  /** Record the high-water mark of bytes in use. */
  function Note(h: Heap): Heap {
    if h.pool - h.avail > h.peak then h.(peak := h.pool - h.avail) else h
  }

  function Init(start: nat, size: nat): Heap {
    var pool := size / 4 * 4;
    Heap(start, pool, [start, start + pool - HDR], [start], pool - 2 * HDR, 2 * HDR)
  }

  /** The position in the free list, from `k` on, of the first block of at least `n` bytes. */
  function FirstFit(h: Heap, n: nat, k: nat): (r: nat)
    requires k <= |h.free|
    requires forall f :: f in h.free ==> f in h.blocks
    ensures k <= r <= |h.free|
    ensures forall j :: k <= j < r ==> SizeOf(h, h.free[j]) < n
    ensures r < |h.free| ==> SizeOf(h, h.free[r]) >= n
    decreases |h.free| - k
  {
    if k == |h.free| || SizeOf(h, h.free[k]) >= n then k else FirstFit(h, n, k + 1)
  }

  ghost predicate Usable(h: Heap) { Tiles(h) && FreeListOk(h) }

  /** Allocation of `n` bytes from the free block `free[k]`, split when the rest is worth it. */
  ghost function TakeAt(h: Heap, n: nat, k: nat): Heap
    requires Usable(h) && k < |h.free|
  {
    var i := BlockIndex(h, h.free[k]);
    var c := Claim(h, k, i);
    Note(if Payload(h, i) >= n + HDR + MINI then Carve(c, i, n) else c)
  }

  /** Allocation of `n` rounded bytes, with the payload address or 0. */
  ghost function Take(h: Heap, n: nat): (Heap, int)
    requires Usable(h)
  {
    var k := FirstFit(h, n, 0);
    if n >= h.avail || k == |h.free| then (h, 0) else (TakeAt(h, n, k), h.free[k] + HDR)
  }

  ghost function BlockIndex(h: Heap, b: int): (i: nat)
    requires Tiles(h) && b in h.blocks && b != Tail(h)
    ensures i + 1 < |h.blocks| && h.blocks[i] == b
  {
    IndexOf(h.blocks, b)
  }

  /** Block `i` together with the free block after it, if there is one. */
  ghost function Settle(h: Heap, i: nat): Heap
    requires Usable(h) && i + 1 < |h.blocks|
  {
    if h.blocks[i + 1] in h.free then Absorb(h, i) else h
  }

  lemma SettleOk(h: Heap, i: nat)
    requires Core(h) && i + 1 < |h.blocks| && h.blocks[i] !in h.free
    ensures Core(Settle(h, i)) && i + 1 < |Settle(h, i).blocks|
    ensures Settle(h, i).blocks[i] == h.blocks[i] && h.blocks[i] !in Settle(h, i).free
    ensures Settle(h, i).blocks[i + 1] !in Settle(h, i).free
    ensures KeepsOthers(h, Settle(h, i), h.blocks[i])
    ensures forall c :: IsLive(Settle(h, i), c) <==> IsLive(h, c)
    ensures Payload(Settle(h, i), i) ==
            Payload(h, i) + if h.blocks[i + 1] in h.free then HDR + Payload(h, i + 1) else 0
    ensures Settle(h, i).avail == h.avail - if h.blocks[i + 1] in h.free then Payload(h, i + 1) else 0
  {
    if h.blocks[i + 1] in h.free {
      AbsorbOk(h, i);
      AbsorbLive(h, i);
      SizeAt(h, i);
      assert IsLive(Absorb(h, i), h.blocks[i]);
    }
  }

  /** Release of the live block `b`, merged with whichever neighbours are free. */
  ghost function Free(h: Heap, b: int): Heap
    requires Inv(h) && IsLive(h, b)
  {
    Freed(h, BlockIndex(h, b))
  }

  ghost function Freed(h: Heap, i: nat): Heap
    requires Usable(h) && i + 1 < |h.blocks|
  {
    Retire(Settle(h, i), i)
  }

  ghost predicate FreeLeft(B: seq<int>, F: seq<int>, i: nat)
    requires i + 1 < |B|
  {
    i > 0 && B[i - 1] in F
  }

  ghost function MergedBlocks(B: seq<int>, F: seq<int>, i: nat): seq<int>
    requires i + 1 < |B|
  {
    var L := if FreeLeft(B, F, i) then RemoveAt(B, i) else B;
    if B[i + 1] in F then RemoveAt(L, if FreeLeft(B, F, i) then i else i + 1) else L
  }

  ghost function MergedFree(B: seq<int>, F: seq<int>, i: nat): seq<int>
    requires i + 1 < |B|
  {
    var R := if B[i + 1] in F then Remove(F, B[i + 1]) else F;
    if FreeLeft(B, F, i) then R else [B[i]] + R
  }

  /** Freeing written out by whether the neighbours are free, in the order of the code. */
  lemma FreedShape(h: Heap, i: nat)
    requires Usable(h) && i + 1 < |h.blocks|
    ensures Freed(h, i).free == MergedFree(h.blocks, h.free, i)
    ensures Freed(h, i).blocks == MergedBlocks(h.blocks, h.free, i)
    ensures Freed(h, i).avail == h.avail + Payload(h, i)
              + (if FreeLeft(h.blocks, h.free, i) then HDR else 0) + (if h.blocks[i + 1] in h.free then HDR else 0)
  {
    if h.blocks[i + 1] in h.free {
      var a := Absorb(h, i);
      assert a.blocks[i] == h.blocks[i];
      if i > 0 {
        Sorted(h, i - 1, i + 1);
        RemoveAtElements(h.free, IndexOf(h.free, h.blocks[i + 1]));
        assert a.blocks[i - 1] == h.blocks[i - 1];
        RemoveTwo(h.blocks, i);
      }
    }
  }

  /** Freeing changes the free list only at the freed block and its right neighbour, and the
      header of a block that was merged away is no longer one. */
  lemma FreedElements(h: Heap, i: nat)
    requires Usable(h) && i + 1 < |h.blocks| && h.blocks[i] !in h.free
    ensures forall b :: b in Freed(h, i).blocks ==> b in h.blocks
    ensures forall b :: b in Freed(h, i).blocks ==> (b in Freed(h, i).free <==> b in h.free || b == h.blocks[i])
  {
    FreedShape(h, i);
    BlocksDistinct(h);
    var left, right := i > 0 && h.blocks[i - 1] in h.free, h.blocks[i + 1] in h.free;
    var B := if left then RemoveAt(h.blocks, i) else h.blocks;
    if left { RemoveAtElements(h.blocks, i); }
    if right {
      RemoveAtElements(h.free, IndexOf(h.free, h.blocks[i + 1]));
      RemoveAtElements(B, if left then i else i + 1);
    }
  }

  /** In-place change of block `i` to `n` bytes; the rest, with a free successor, is free. */
  ghost function Resize(h: Heap, i: nat, n: nat): Heap
    requires Usable(h) && i + 1 < |h.blocks|
  {
    Note(Carve(Settle(h, i), i, n))
  }

  ghost function ResizedBlocks(B: seq<int>, F: seq<int>, i: nat, x: int): seq<int>
    requires i + 1 < |B|
  {
    InsertAt(if B[i + 1] in F then RemoveAt(B, i + 1) else B, i + 1, x)
  }

  ghost function ResizedFree(B: seq<int>, F: seq<int>, i: nat, x: int): seq<int>
    requires i + 1 < |B|
  {
    [x] + if B[i + 1] in F then Remove(F, B[i + 1]) else F
  }

  lemma ResizeShape(h: Heap, i: nat, n: nat, x: int)
    requires Usable(h) && i + 1 < |h.blocks| && x == h.blocks[i] + HDR + n
    ensures
      && Resize(h, i, n).blocks == ResizedBlocks(h.blocks, h.free, i, x)
      && Resize(h, i, n).free == ResizedFree(h.blocks, h.free, i, x)
      && Resize(h, i, n).avail ==
           h.avail + Payload(h, i) - n - (if h.blocks[i + 1] in h.free then 0 else HDR)
  {
    if h.blocks[i + 1] in h.free {
      assert Absorb(h, i).blocks[i] == h.blocks[i];
    }
  }

  /** The new boundary is a header nobody uses. */
  lemma ResizeFresh(h: Heap, i: nat, n: nat, x: int)
    requires Usable(h) && i + 1 < |h.blocks| && x == h.blocks[i] + HDR + n
    requires n + HDR <= Payload(h, i) || (GrowsInPlace(h, i, n) && n > Payload(h, i))
    ensures Fresh(h, x)
  {
    Between(h, if n + HDR <= Payload(h, i) then i else i + 1, x);
  }

  lemma ResizeMembers(h: Heap, i: nat, x: int)
    requires Usable(h) && i + 1 < |h.blocks| && x !in h.blocks
    ensures var B, F := ResizedBlocks(h.blocks, h.free, i, x), ResizedFree(h.blocks, h.free, i, x);
      && (forall b :: b in B ==> b in h.blocks || b == x)
      && (forall b :: b in B && b != x ==> (b in F <==> b in h.free))
  {
    if h.blocks[i + 1] in h.free {
      BlocksDistinct(h);
      RemoveAtElements(h.blocks, i + 1);
      RemoveAtElements(h.free, IndexOf(h.free, h.blocks[i + 1]));
    }
  }

  /** Can block `i` grow in place to `n` bytes and leave a free block worth keeping? */
  ghost predicate GrowsInPlace(h: Heap, i: nat, n: nat)
    requires Usable(h) && i + 1 < |h.blocks|
  {
    h.blocks[i + 1] in h.free && Payload(h, i + 1) + Payload(h, i) > n + MINI
  }

  /** When the 32-bit growth test `sum > n + MINI` gives the exact answer: always, unless
      `n + MINI` wraps and the sum is above what is left of it. */
  lemma GrowTest32(sum: nat, n: nat)
    requires sum < WORD && n < WORD
    ensures (sum > Word32(n + MINI) <==> sum > n + MINI) <==> (n + MINI < WORD || sum <= n + MINI - WORD)
  {
  }

  /** The test as rt_memheap_realloc makes it, in 32-bit words. */
  ghost predicate Tries(h: Heap, i: nat, n: nat)
    requires Usable(h) && i + 1 < |h.blocks|
  {
    h.blocks[i + 1] in h.free && Word32(Payload(h, i + 1) + Payload(h, i)) > Word32(n + MINI)
  }

  /** Where the new free header goes, in 32 bits. */
  function Boundary(h: Heap, i: nat, n: nat): int
    requires i < |h.blocks|
  {
    Word32(h.blocks[i] + HDR + n)
  }

  /** The high-water mark, in 32 bits. */
  function Note32(h: Heap): Heap {
    var used := Word32(h.pool - h.avail);
    if used > h.peak then h.(peak := used) else h
  }

  /** What growing in place stores, whether or not the block can grow that far. */
  ghost function Grow32(h: Heap, i: nat, n: nat): Heap
    requires i + 1 < |h.blocks|
  {
    var x := Boundary(h, i, n);
    Note32(h.(blocks := ResizedBlocks(h.blocks, h.free, i, x), free := ResizedFree(h.blocks, h.free, i, x),
              avail := Word32(h.avail - (n - Payload(h, i)))))
  }

  /** Block `i`, at `b`, is about to grow in place to `n` bytes. */
  ghost predicate Growing(h: Heap, b: int, i: nat, n: nat) {
    Inv(h) && i + 1 < |h.blocks| && h.blocks[i] == b && b !in h.free && Payload(h, i) < n < WORD && n % 4 == 0 && Tries(h, i, n)
  }

  lemma PayloadsFit(h: Heap, i: nat)
    requires Core(h) && i + 2 < |h.blocks|
    ensures 0 <= Payload(h, i) && 0 <= Payload(h, i + 1) && Payload(h, i) + Payload(h, i + 1) + 3 * HDR <= h.pool < WORD
    ensures h.start <= h.blocks[i] && h.blocks[i + 2] + HDR <= h.start + h.pool
  {
    SizeAt(h, i);
    SizeAt(h, i + 1);
    if i > 0 { Sorted(h, 0, i); }
    if i + 2 < |h.blocks| - 1 { Sorted(h, i + 2, |h.blocks| - 1); }
  }

  /** Even when it is in the wrong place the new header is one nobody uses. */
  lemma BoundaryFresh(h: Heap, i: nat, n: nat, x: int)
    requires i < |h.blocks| && Growing(h, h.blocks[i], i, n) && x == Boundary(h, i, n)
    ensures Fresh(h, x)
  {
    if n + MINI < WORD {
      GrowExact(h, i, n);
      ResizeFresh(h, i, n, x);
    } else {
      InOwnHeader(h, i, n);
      Between(h, i, x);
    }
  }

  ghost predicate Fresh(h: Heap, x: int) { x !in h.blocks && x !in h.free && h.start <= x <= Tail(h) }

  /** Where the new header goes when the growth test wraps. */
  lemma InOwnHeader(h: Heap, i: nat, n: nat)
    requires Core(h) && i + 2 < |h.blocks| && WORD <= n + MINI && n < WORD
    ensures Boundary(h, i, n) == h.blocks[i] + HDR + n - WORD && h.blocks[i] < Boundary(h, i, n) < h.blocks[i] + HDR <= h.blocks[i + 1]
  {
    PayloadsFit(h, i);
  }

  /** Below the wrap the 32-bit test and stores are the exact ones. */
  lemma GrowExact(h: Heap, i: nat, n: nat)
    requires Inv(h) && i + 1 < |h.blocks| && Payload(h, i) < n && n + MINI < WORD && n % 4 == 0 && h.blocks[i] !in h.free
    ensures Tries(h, i, n) <==> GrowsInPlace(h, i, n)
    ensures Tries(h, i, n) ==> Grow32(h, i, n) == Resize(h, i, n) && Boundary(h, i, n) == h.blocks[i] + HDR + n
  {
    if h.blocks[i + 1] in h.free {
      PayloadsFit(h, i);
      GrowTest32(Payload(h, i + 1) + Payload(h, i), n);
      if Tries(h, i, n) { GrowStores(h, i, n); }
    }
  }

  lemma GrowStores(h: Heap, i: nat, n: nat)
    requires Inv(h) && i + 1 < |h.blocks| && Payload(h, i) < n && n % 4 == 0 && h.blocks[i] !in h.free && GrowsInPlace(h, i, n)
    ensures Grow32(h, i, n) == Resize(h, i, n) && Boundary(h, i, n) == h.blocks[i] + HDR + n
  {
    PayloadsFit(h, i);
    var r, x := Resize(h, i, n), h.blocks[i] + HDR + n;
    ResizeOk(h, i, n);
    ResizeShape(h, i, n, x);
    SumBounded(r);
    NotesAgree(h, r);
    Stored(h, i, n, x, r);
  }

  lemma Stored(h: Heap, i: nat, n: nat, x: int, r: Heap)
    requires i + 1 < |h.blocks| && x == Boundary(h, i, n)
    requires r.blocks == ResizedBlocks(h.blocks, h.free, i, x) && r.free == ResizedFree(h.blocks, h.free, i, x)
    requires r.avail == h.avail - (n - Payload(h, i))
    ensures Grow32(h, i, n) == Note32(h.(blocks := r.blocks, free := r.free, avail := Word32(r.avail)))
  {
  }

  lemma NotesAgree(h: Heap, r: Heap)
    requires Marks(h, r) && SamePool(h, r) && 0 <= r.avail <= h.pool < WORD
    ensures Note32(h.(blocks := r.blocks, free := r.free, avail := Word32(r.avail))) == r
  {
  }

  /** The free bytes fit the pool. */
  lemma SumBounded(h: Heap)
    requires Inv(h)
    ensures 0 <= h.avail <= h.pool
  {
    SumRange(h.blocks, h.free);
  }

  lemma {:induction false} SumRange(bs: seq<int>, free: seq<int>)
    requires |bs| > 0 && forall i {:trigger GapAt(bs, i)} :: 0 <= i < |bs| - 1 ==> GapAt(bs, i)
    ensures 0 <= SumFree(bs, free) <= bs[|bs| - 1] - bs[0]
  {
    if |bs| > 1 {
      assert GapAt(bs, 0);
      forall i | 0 <= i < |bs[1..]| - 1 ensures GapAt(bs[1..], i) { assert GapAt(bs, i + 1); }
      SumRange(bs[1..], free);
    }
  }

  /** Is the block behind `b` free? */
  predicate NextFree(h: Heap, b: int) {
    b in h.blocks && IndexOf(h.blocks, b) + 1 < |h.blocks| && h.blocks[IndexOf(h.blocks, b) + 1] in h.free
  }

  /** What a caller has to see to before asking for `n` rounded bytes: the growth test does not wrap, or
      there is nothing to grow into. */
  predicate GrowSafe(h: Heap, b: int, n: nat) { n + MINI < WORD || !NextFree(h, b) }

  /** Reallocation of the live block `b` to `n` rounded bytes, with the payload address or 0. */
  ghost function Realloc(h: Heap, b: int, n: nat): (Heap, int)
    requires Inv(h) && IsLive(h, b) && n % 4 == 0 && n >= MINI
  {
    var i := BlockIndex(h, b);
    if n > Payload(h, i) then if Tries(h, i, n) then (Grow32(h, i, n), b + HDR) else MoveAway(h, b, n)
    else if Payload(h, i) <= n + HDR + MINI then (h, b + HDR)
    else (Resize(h, i, n), b + HDR)
  }

  lemma ReallocGrows(h: Heap, b: int, i: nat, n: nat)
    requires Inv(h) && IsLive(h, b) && n % 4 == 0 && n >= MINI && i == BlockIndex(h, b) && n > Payload(h, i)
    ensures Realloc(h, b, n) == if Tries(h, i, n) then (Grow32(h, i, n), b + HDR) else MoveAway(h, b, n)
    ensures GrowSafe(h, b, n) ==> !Tries(h, i, n) || n + MINI < WORD
  {
  }

  ghost function MoveAway(h: Heap, b: int, n: nat): (Heap, int)
    requires Inv(h) && IsLive(h, b) && n % 4 == 0 && n >= MINI
  {
    TakeOk(h, n);
    FreeAfter(Take(h, n), b)
  }

  /** Free `b` once the allocation `t` has succeeded. */
  ghost function FreeAfter(t: (Heap, int), b: int): (Heap, int)
    requires t.1 != 0 ==> Inv(t.0) && IsLive(t.0, b)
  {
    if t.1 == 0 then t else (Free(t.0, b), t.1)
  }

  /** An allocation that succeeded. */
  ghost predicate Took(h: Heap, t: Heap, p: int, n: nat) { Inv(h) && n % 4 == 0 && n >= MINI && (t, p) == Take(h, n) && p != 0 }

  /** A move that found no room. */
  lemma MoveFails(h: Heap, b: int, n: nat)
    requires Inv(h) && IsLive(h, b) && n % 4 == 0 && n >= MINI
    ensures Take(h, n).1 == 0 ==> MoveAway(h, b, n) == Take(h, n) == (h, 0)
  {
    TakeOk(h, n);
  }

  /** Any other move is an allocation that keeps the old block, and then its release. */
  lemma MoveAwayParts(h: Heap, b: int, n: nat, t: Heap, p: int)
    requires Took(h, t, p, n) && IsLive(h, b)
    ensures Inv(t) && IsLive(t, b) && SizeOf(t, b) == SizeOf(h, b)
    ensures IsLive(t, p - HDR) && SizeOf(t, p - HDR) >= n && p - HDR != b
    ensures MoveAway(h, b, n) == (Free(t, b), p)
  {
    TakeOk(h, n);
    TakeKeeps(h, n, b);
  }

  // ---- what the operations guarantee ---------------------------------------------------

  /** Two live blocks never share a byte, and all their bytes lie in the pool before the tailer. */
  lemma PayloadsDisjoint(h: Heap, b: int, c: int)
    requires Tiles(h) && IsLive(h, b) && IsLive(h, c) && b != c
    ensures b + HDR + SizeOf(h, b) <= c || c + HDR + SizeOf(h, c) <= b
    ensures h.start + HDR <= b + HDR <= b + HDR + SizeOf(h, b) <= Tail(h)
  {
    var i, j := BlockIndex(h, b), BlockIndex(h, c);
    SizeAt(h, i);
    SizeAt(h, j);
    if i + 1 < j { Sorted(h, i + 1, j); }
    if j + 1 < i { Sorted(h, j + 1, i); }
    if i > 0 { Sorted(h, 0, i); }
    if i + 1 < |h.blocks| - 1 { Sorted(h, i + 1, |h.blocks| - 1); }
  }

  lemma PayloadInside(h: Heap, c: int)
    requires Tiles(h) && IsLive(h, c)
    ensures h.start <= c && c + HDR + SizeOf(h, c) <= h.start + h.pool
  {
    var i := BlockIndex(h, c);
    SizeAt(h, i);
    if i > 0 { Sorted(h, 0, i); }
    if i + 1 < |h.blocks| - 1 { Sorted(h, i + 1, |h.blocks| - 1); }
  }

  /** No block header overlaps the payload of a live block.  An operation writes only headers of
      the heap before it and the heap after it, and a live block it is not called on has the same
      payload in both, so that payload is never written. */
  lemma HeaderMissesPayload(h: Heap, b: int, a: int)
    requires Tiles(h) && IsLive(h, b) && a in h.blocks
    ensures a + HDR <= b + HDR || b + HDR + SizeOf(h, b) <= a
  {
    var i, j := BlockIndex(h, b), IndexOf(h.blocks, a);
    SizeAt(h, i);
    if j < i { Sorted(h, j, i); }
    if i + 1 < j { Sorted(h, i + 1, j); }
  }

  /** With nothing live, coalescing leaves the single block the heap was initialised with. */
  lemma AllFreeIsInitial(h: Heap)
    requires Core(h) && forall b :: !IsLive(h, b)
    ensures h.blocks == [h.start, Tail(h)] && h.free == [h.start] && h.avail == h.pool - 2 * HDR
  {
    forall i | 0 <= i < |h.blocks| - 1 ensures h.blocks[i] in h.free {
      SizeAt(h, i);
      assert !IsLive(h, h.blocks[i]);
    }
    assert ApartAt(h, 0);
    assert h.blocks == [h.start, Tail(h)];
    OnlyOne(h.free, h.start);
    assert h.blocks[1..] == [Tail(h)];
    assert SumFree(h.blocks[1..], h.free) == 0;
  }

  lemma OnlyOne(s: seq<int>, x: int)
    requires Distinct(s) && x in s && forall y :: y in s ==> y == x
    ensures s == [x]
  {
    assert s[0] in s;
    assert s[|s| - 1] in s;
  }

  lemma InitOk(start: nat, size: nat)
    requires 0 < start && start % 4 == 0 && start + size <= WORD && size / 4 * 4 >= 2 * HDR
    ensures Inv(Init(start, size))
    ensures forall b :: !IsLive(Init(start, size), b)
  {
    var h := Init(start, size);
    assert GapAt(h.blocks, 0);
    assert ApartAt(h, 0);
    assert h.blocks[1..] == [start + h.pool - HDR];
    assert SumFree(h.blocks[1..], h.free) == 0;
  }

  /** `t` is `h` in which the block at `b`, free or absent before, is live with at least
      `n` bytes and every live block of `h` is as it was. */
  ghost predicate Grants(h: Heap, t: Heap, b: int, n: nat) {
    && b % 4 == 0 && !IsLive(h, b) && IsLive(t, b) && SizeOf(t, b) >= n
    && (forall c :: IsLive(t, c) <==> IsLive(h, c) || c == b)
    && KeepsOthers(h, t, b)
  }

  /** `t` is `h` with the live block `b` now of exactly `n` bytes. */
  ghost predicate Resizes(h: Heap, t: Heap, b: int, n: nat) {
    && IsLive(t, b) && SizeOf(t, b) == n
    && (forall c :: IsLive(t, c) <==> IsLive(h, c))
    && KeepsOthers(h, t, b)
  }

  ghost predicate Drops(h: Heap, t: Heap, b: int) {
    && (forall c :: IsLive(t, c) <==> IsLive(h, c) && c != b)
    && KeepsOthers(h, t, b)
  }

  ghost predicate Marks(h: Heap, t: Heap) {
    t.peak == if h.pool - t.avail > h.peak then h.pool - t.avail else h.peak
  }

  lemma NoteOk(h: Heap, t: Heap)
    requires Core(t) && SamePool(h, t) && t.peak == h.peak
    ensures Inv(Note(t)) && Marks(h, Note(t))
    ensures forall c :: IsLive(Note(t), c) <==> IsLive(t, c)
    ensures forall c :: c in t.blocks ==> SizeOf(Note(t), c) == SizeOf(t, c)
  {
    var t' := Note(t);
    assert Tiles(t') by {
      forall j | 0 <= j < |t.blocks| - 1 ensures GapAt(t'.blocks, j) { assert GapAt(t.blocks, j); }
    }
    forall j | 0 <= j < |t.blocks| - 1 ensures ApartAt(t', j) { assert ApartAt(t, j); }
  }

  /** Some free block can hold `n` bytes. */
  ghost predicate Fits(h: Heap, n: nat)
    requires Usable(h)
  {
    exists f :: f in h.free && SizeOf(h, f) >= n
  }

  /** First-fit allocation hands out a block nobody had, large enough, and disturbs no other
      live block; on failure the heap is as it was. */
  lemma TakeOk(h: Heap, n: nat)
    requires Inv(h) && n % 4 == 0 && n >= MINI
    ensures Inv(Take(h, n).0) && Marks(h, Take(h, n).0) && SamePool(h, Take(h, n).0)
    ensures Take(h, n).1 == 0 ==> Take(h, n).0 == h
    ensures Take(h, n).1 != 0 ==> Grants(h, Take(h, n).0, Take(h, n).1 - HDR, n)
  {
    var k := FirstFit(h, n, 0);
    if n < h.avail && k < |h.free| {
      TakeAtOk(h, n, k);
    }
  }

  /** Allocation keeps every header. */
  lemma TakeBlocks(h: Heap, n: nat)
    requires Usable(h)
    ensures forall a :: a in h.blocks ==> a in Take(h, n).0.blocks
  {
    var k := FirstFit(h, n, 0);
    if n < h.avail && k < |h.free| {
      var i := BlockIndex(h, h.free[k]);
      InsertKeeps(h.blocks, i + 1, h.blocks[i] + HDR + n);
    }
  }

  lemma TakeKeeps(h: Heap, n: nat, b: int)
    requires Inv(h) && n % 4 == 0 && n >= MINI && IsLive(h, b) && Take(h, n).1 != 0
    ensures var t := Take(h, n);
      && IsLive(t.0, b) && SizeOf(t.0, b) == SizeOf(h, b)
      && IsLive(t.0, t.1 - HDR) && SizeOf(t.0, t.1 - HDR) >= n && t.1 - HDR != b
  {
    TakeOk(h, n);
  }

  /** Allocation fails exactly when no free block is large enough or the request is not below
      the number of free bytes. */
  lemma TakeFails(h: Heap, n: nat)
    requires Inv(h)
    ensures Take(h, n).1 == 0 <==> n >= h.avail || !Fits(h, n)
  {
    var k := FirstFit(h, n, 0);
    if k < |h.free| {
      assert h.free[k] in h.free;
      BlocksDistinct(h);
    }
  }

  /** The second condition is not idle: a pool whose only free block is exactly as large as the
      request refuses it. */
  lemma ExactFitRefused(h: Heap, n: nat)
    requires Inv(h) && |h.free| == 1 && SizeOf(h, h.free[0]) == n
    ensures Fits(h, n) && n == h.avail && Take(h, n).1 == 0
  {
    assert h.free[0] in h.free;
    var i := BlockIndex(h, h.free[0]);
    SizeAt(h, i);
    SumToggle(h, i, []);
    SumNone(h.blocks);
  }

  lemma {:induction false} SumNone(bs: seq<int>)
    ensures SumFree(bs, []) == 0
  {
    if |bs| >= 2 { SumNone(bs[1..]); }
  }

  lemma TakeAtOk(h: Heap, n: nat, k: nat)
    requires Inv(h) && n % 4 == 0 && k < |h.free|
    requires SizeOf(h, h.free[k]) >= n
    ensures Inv(TakeAt(h, n, k)) && Marks(h, TakeAt(h, n, k))
    ensures Grants(h, TakeAt(h, n, k), h.free[k], n) && h.free[k] > 0
  {
    var i := BlockIndex(h, h.free[k]);
    if i > 0 { Sorted(h, 0, i); }
    SizeAt(h, i);
    ClaimOk(h, k, i);
    var c := Claim(h, k, i);
    if Payload(h, i) >= n + HDR + MINI {
      CarveOk(c, i, n);
      CarveLive(c, i, n);
      NoteOk(h, Carve(c, i, n));
    } else {
      NoteOk(h, c);
    }
  }

  lemma FreeOk(h: Heap, b: int)
    requires Inv(h) && IsLive(h, b)
    ensures Inv(Free(h, b)) && Drops(h, Free(h, b), b)
    ensures Free(h, b).peak == h.peak && SamePool(h, Free(h, b))
  {
    var i := BlockIndex(h, b);
    SettleOk(h, i);
    RetireOk(Settle(h, i), i);
    RetireLive(Settle(h, i), i);
    SizeAt(h, i);
  }

  lemma ResizeOk(h: Heap, i: nat, n: nat)
    requires Inv(h) && i + 1 < |h.blocks| && h.blocks[i] !in h.free && n % 4 == 0
    requires n + HDR <= Payload(h, i) || GrowsInPlace(h, i, n)
    ensures Inv(Resize(h, i, n)) && Marks(h, Resize(h, i, n))
    ensures Resizes(h, Resize(h, i, n), h.blocks[i], n)
  {
    SettleOk(h, i);
    var c := Settle(h, i);
    if h.blocks[i + 1] in h.free {
      SizeAt(h, i + 1);
    }
    SizeAt(h, i);
    CarveOk(c, i, n);
    CarveLive(c, i, n);
    NoteOk(h, Carve(c, i, n));
  }

  /** Reallocation either leaves the heap alone and fails, or makes exactly one block of at
      least `n` bytes out of the given one, disturbing no other live block. */
  ghost predicate Moves(h: Heap, t: Heap, b: int, b': int, n: nat) {
    && b' % 4 == 0 && (b' == b || !IsLive(h, b')) && IsLive(t, b') && SizeOf(t, b') >= n
    && (forall c :: IsLive(t, c) <==> (IsLive(h, c) && c != b) || c == b')
    && KeepsOthers(h, t, b)
  }

  ghost predicate FailsOrMoves(h: Heap, t: (Heap, int), b: int, n: nat) {
    Inv(t.0) && if t.1 == 0 then t.0 == h else Moves(h, t.0, b, t.1 - HDR, n)
  }

  /** Outside the wrap a block that can grow in place does, and the others move. */
  lemma GrowsOk(h: Heap, b: int, n: nat)
    requires Inv(h) && IsLive(h, b) && n % 4 == 0 && n < WORD && n > SizeOf(h, b) && GrowSafe(h, b, n)
    ensures var i := BlockIndex(h, b); Payload(h, i) == SizeOf(h, b) && (Tries(h, i, n) ==>
      Grow32(h, i, n) == Resize(h, i, n) && Inv(Resize(h, i, n)) && Marks(h, Resize(h, i, n)) && Moves(h, Resize(h, i, n), b, b, n) && b > 0)
  {
    var i := BlockIndex(h, b);
    SizeAt(h, i);
    if Tries(h, i, n) {
      GrowExact(h, i, n);
      InPlaceOk(h, i, n);
    }
  }

  lemma ReallocOk(h: Heap, b: int, n: nat)
    requires Inv(h) && IsLive(h, b) && n % 4 == 0 && MINI <= n < WORD && GrowSafe(h, b, n)
    ensures FailsOrMoves(h, Realloc(h, b, n), b, n)
  {
    var i := BlockIndex(h, b);
    SizeAt(h, i);
    if n > Payload(h, i) {
      GrowsOk(h, b, n);
      if !Tries(h, i, n) { MoveAwayOk(h, b, n); }
    } else {
      InPlaceOk(h, i, n);
    }
  }

  /** The header after that of block `i`, at `x`, lies inside it. */
  ghost predicate Broken(h: Heap, i: nat, x: int) { i + 1 < |h.blocks| && h.blocks[i] < h.blocks[i + 1] == x < h.blocks[i] + HDR }

  /** A request for one of the last three sizes below 2^32, with a free block behind: the test wraps and
      passes, and the new free header is built inside the block's own header. */
  lemma ReallocBreaks(h: Heap, b: int, n: nat)
    requires Inv(h) && IsLive(h, b) && SizeOf(h, b) >= MINI && n % 4 == 0 && n < WORD && !GrowSafe(h, b, n)
    ensures n in {WORD - 12, WORD - 8, WORD - 4} && n >= MINI
    ensures Broken(Realloc(h, b, n).0, BlockIndex(h, b), b + HDR + n - WORD) && !Inv(Realloc(h, b, n).0)
  {
    var i := BlockIndex(h, b);
    SizeAt(h, i);
    LastSizes(n);
    GrowBreaks(h, i, n);
  }

  lemma GrowBreaks(h: Heap, i: nat, n: nat)
    requires Core(h) && i + 1 < |h.blocks| && MINI <= Payload(h, i) && h.blocks[i + 1] in h.free && WORD <= n + MINI && n < WORD
    ensures Tries(h, i, n) && n > Payload(h, i)
    ensures Broken(Grow32(h, i, n), i, h.blocks[i] + HDR + n - WORD) && !Inv(Grow32(h, i, n))
  {
    PayloadsFit(h, i);
    InOwnHeader(h, i, n);
    var x := h.blocks[i] + HDR + n - WORD;
    ResizedAt(h.blocks, h.free, i, x);
    NotTiled(Grow32(h, i, n), i, x);
  }

  lemma LastSizes(n: nat)
    requires n % 4 == 0 && WORD <= n + MINI && n < WORD
    ensures n in {WORD - 12, WORD - 8, WORD - 4}
  {
  }

  lemma ResizedAt(B: seq<int>, F: seq<int>, i: nat, x: int)
    requires i + 1 < |B|
    ensures var R := ResizedBlocks(B, F, i, x); i + 1 < |R| && R[i] == B[i] && R[i + 1] == x
  {
  }

  lemma NotTiled(h: Heap, i: nat, x: int)
    requires Broken(h, i, x)
    ensures !Inv(h)
  {
    assert !GapAt(h.blocks, i);
  }

  /** rt_memheap_realloc keeps the heap in order exactly when the caller has seen to that. */
  lemma ReallocExact(h: Heap, b: int, n: nat)
    requires Inv(h) && IsLive(h, b) && SizeOf(h, b) >= MINI && n % 4 == 0 && MINI <= n < WORD
    ensures Inv(Realloc(h, b, n).0) <==> n + MINI < WORD || !NextFree(h, b)
  {
    if GrowSafe(h, b, n) { ReallocOk(h, b, n); } else { ReallocBreaks(h, b, n); }
  }

  lemma MoveAwayOk(h: Heap, b: int, n: nat)
    requires Inv(h) && IsLive(h, b) && n % 4 == 0 && n >= MINI
    ensures FailsOrMoves(h, MoveAway(h, b, n), b, n)
  {
    TakeOk(h, n);
    FreeAfterOk(h, Take(h, n), b, n);
  }

  lemma FreeAfterOk(h: Heap, t: (Heap, int), b: int, n: nat)
    requires IsLive(h, b) && Inv(t.0)
    requires if t.1 == 0 then t.0 == h else Grants(h, t.0, t.1 - HDR, n)
    ensures t.1 != 0 ==> IsLive(t.0, b)
    ensures Inv(FreeAfter(t, b).0)
    ensures t.1 == 0 ==> FreeAfter(t, b) == t
    ensures t.1 != 0 ==> FreeAfter(t, b).1 == t.1 && Moves(h, FreeAfter(t, b).0, b, t.1 - HDR, n)
  {
    if t.1 != 0 {
      MoveOk(h, t.0, b, t.1 - HDR, n);
    }
  }

  lemma InPlaceOk(h: Heap, i: nat, n: nat)
    requires Inv(h) && i + 1 < |h.blocks| && h.blocks[i] !in h.free && n % 4 == 0
    ensures h.blocks[i] > 0
    ensures n <= Payload(h, i) ==> Moves(h, h, h.blocks[i], h.blocks[i], n)
    ensures n + HDR <= Payload(h, i) || GrowsInPlace(h, i, n) ==>
              Inv(Resize(h, i, n)) && Marks(h, Resize(h, i, n)) && Moves(h, Resize(h, i, n), h.blocks[i], h.blocks[i], n)
  {
    SizeAt(h, i);
    if i > 0 { Sorted(h, 0, i); }
    if n + HDR <= Payload(h, i) || GrowsInPlace(h, i, n) {
      ResizeOk(h, i, n);
    }
  }

  lemma MoveOk(h: Heap, t: Heap, b: int, b': int, n: nat)
    requires IsLive(h, b) && Inv(t) && Grants(h, t, b', n)
    ensures IsLive(t, b) && Inv(Free(t, b)) && Moves(h, Free(t, b), b, b', n)
  {
    assert IsLive(t, b);
    FreeOk(t, b);
  }
}
