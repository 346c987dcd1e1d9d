/** The zones of slab.c: which chunk size serves a request, how a zone is laid out, and the chunks of
    one zone, which are in use, on the zone's free list, or never used so far. */
module Zones {
  import opened Bits
  import opened Seqs
  import opened Cells

  const HEADER: nat := 36          // sizeof(slab_zone): nine words
  const NZONES: nat := 72
  const LIMIT: nat := 16384        // ZALLOC_ZONE_LIMIT

  // --- zoneindex ---

  /** (n + 2^k - 1) & ~(2^k - 1) */
  function RoundTo(n: nat, k: nat): nat { AndNot(n + (Mask(k) - 1), Mask(k) - 1) }

  /** The exponent of the rounding step, and what is added to the quotient. */
  function Grain(n: nat): (int, int) {
    if n < 128 then (3, -1)
    else if n < 256 then (4, 7)
    else if n < 512 then (5, 15)
    else if n < 1024 then (6, 23)
    else if n < 2048 then (7, 31)
    else if n < 4096 then (8, 39)
    else if n < 8192 then (9, 47)
    else (10, 55)
  }

  /** The size zoneindex leaves in *bytes. */
  function ChunkSize(n: nat): nat
    requires n < LIMIT
  {
    RoundTo(n, Grain(n).0)
  }

  /** The index zoneindex returns. */
  function ZoneIndex(n: nat): int
    requires n < LIMIT
  {
    ChunkSize(n) / Mask(Grain(n).0) + Grain(n).1
  }

  lemma Masks()
    ensures Mask(3) == 8 && Mask(4) == 16 && Mask(5) == 32 && Mask(6) == 64 && Mask(7) == 128 && Mask(8) == 256
    ensures Mask(9) == 512 && Mask(10) == 1024
  {
    assert Mask(1) == 2 && Mask(2) == 4;
    assert Mask(3) == 8;
    assert Mask(4) == 16;
    assert Mask(5) == 32;
    assert Mask(6) == 64;
    assert Mask(7) == 128;
    assert Mask(8) == 256;
    assert Mask(9) == 512;
  }

  lemma RoundOk(n: nat, k: nat)
    ensures RoundTo(n, k) == (n + (Mask(k) - 1)) / Mask(k) * Mask(k)
  {
    AndNotLow(n + (Mask(k) - 1), k);
  }

  /** The chunk size of every zone index. */
  function SizeOf(zi: nat): nat {
    if zi < 16 then (zi + 1) * 8
    else if zi < 24 then (zi - 7) * 16
    else if zi < 32 then (zi - 15) * 32
    else if zi < 40 then (zi - 23) * 64
    else if zi < 48 then (zi - 31) * 128
    else if zi < 56 then (zi - 39) * 256
    else if zi < 64 then (zi - 47) * 512
    else (zi - 55) * 1024
  }

  /** A request gets an index below NZONES and that index's chunk size, which holds it with less than 8
      bytes or at most an eighth of waste. */
  lemma ZoneIndexOk(n: nat)
    requires 0 < n < LIMIT
    ensures 0 <= ZoneIndex(n) < NZONES && ChunkSize(n) == SizeOf(ZoneIndex(n))
    ensures n <= ChunkSize(n) <= LIMIT && ChunkSize(n) % 8 == 0 && ChunkSize(n) >= 8
    ensures ChunkSize(n) - n < 8 || 8 * (ChunkSize(n) - n) <= n
  {
    var m, q := Bucket(n);
    if n < 1024 {
      assert Grain(n) == if n < 128 then (3, -1) else if n < 256 then (4, 7) else if n < 512 then (5, 15) else (6, 23);
    } else {
      assert Grain(n) == if n < 2048 then (7, 31) else if n < 4096 then (8, 39) else if n < 8192 then (9, 47) else (10, 55);
    }
  }

  lemma Bucket(n: nat) returns (m: nat, q: nat)
    requires 0 < n < LIMIT
    ensures m == StepOf(n) && ChunkSize(n) == q * m && ZoneIndex(n) == q + Grain(n).1
    ensures n <= q * m < n + m && q * m % 8 == 0 && (if n < 128 then 1 else 8) <= q <= 16
  {
    Masks();
    m := StepOf(n);
    q := BucketAt(n, Grain(n).0, m, if n < 128 then 0 else 8);
    if n < 128 { assert q > 0 by { assert q * m >= n; } }
  }

  lemma BucketAt(n: nat, k: nat, m: nat, low: nat) returns (q: nat)
    requires n < LIMIT && Grain(n).0 == k && Mask(k) == m && m % 8 == 0 && low * m <= n < 16 * m
    ensures ChunkSize(n) == q * m && ZoneIndex(n) == q + Grain(n).1
    ensures n <= q * m < n + m && q * m % 8 == 0 && low <= q <= 16
  {
    q := StepUp(n, m, low, 16);
    RoundOk(n, k);
  }

  function StepOf(n: nat): nat {
    if n < 128 then 8 else if n < 256 then 16 else if n < 512 then 32 else if n < 1024 then 64 else if n < 2048 then 128
    else if n < 4096 then 256 else if n < 8192 then 512 else 1024
  }

  /** Rounding within the sizes from a to b steps of m. */
  lemma StepUp(n: nat, m: nat, a: nat, b: nat) returns (q: nat)
    requires m > 0 && m % 8 == 0 && a * m <= n < b * m
    ensures q == (n + (m - 1)) / m && n <= q * m < n + m && a <= q <= b && q * m / m == q && q * m % 8 == 0
  {
    q := (n + (m - 1)) / m;
    RoundUp(n, m);
    DivUnique(q * m, m, q, 0);
    AtLeast(q, a, m, n);
    NotMore(q, b, m, n);
    MultipleOf8(q * m, m);
  }

  lemma NotMore(q: nat, k: nat, m: nat, n: nat)
    requires m > 0 && n < k * m && q * m < n + m
    ensures q <= k
  {
    assert (k + 1) * m == k * m + m;
    if q > k { MulMonotone(k + 1, q, m); }
  }

  lemma {:induction false} SizesGrow(i: nat, j: nat)
    requires i < j < NZONES
    ensures SizeOf(i) < SizeOf(j)
    decreases j - i
  {
    if i + 1 < j { SizesGrow(i + 1, j); }
  }

  /** Two requests share a zone index exactly when they share a chunk size. */
  lemma SameZone(m: nat, n: nat)
    requires 0 < m < LIMIT && 0 < n < LIMIT
    ensures ZoneIndex(m) == ZoneIndex(n) <==> ChunkSize(m) == ChunkSize(n)
  {
    ZoneIndexOk(m);
    ZoneIndexOk(n);
    if ZoneIndex(m) < ZoneIndex(n) { SizesGrow(ZoneIndex(m), ZoneIndex(n)); }
    if ZoneIndex(n) < ZoneIndex(m) { SizesGrow(ZoneIndex(n), ZoneIndex(m)); }
  }

  // --- the layout of a zone ---

  /** Where the chunks start: aligned to the chunk size if that is a power of two, else to 8. */
  function Offset(size: nat): nat
    requires size > 0
  {
    if Or(size, size - 1) + 1 == 2 * size then AndNot(HEADER + size - 1, size - 1) else AndNot(HEADER + 7, 7)
  }

  function Capacity(zoneSize: nat, size: nat): nat
    requires size > 0
  {
    if Offset(size) <= zoneSize then DivNat(zoneSize - Offset(size), size); (zoneSize - Offset(size)) / size else 0
  }

  lemma DivNat(a: nat, b: nat)
    requires b > 0
    ensures a / b >= 0
  {
    if a / b < 0 { Negative(a / b, b); }
  }

  lemma {:induction false} Negative(q: int, b: int)
    requires q < 0 < b
    ensures b * q <= -b
    decreases -q
  {
    if q < -1 {
      Negative(q + 1, b);
      assert b * q == b * (q + 1) - b;
    }
  }

  lemma RoundUp(x: nat, m: nat)
    requires m > 0
    ensures x <= (x + m - 1) / m * m < x + m && (x + m - 1) / m * m % m == 0
  {
    var q := (x + m - 1) / m;
    assert x + m - 1 == q * m + (x + m - 1) % m;
    DivUnique(q * m, m, q, 0);
    assert q * m == (q * m / m) * m + q * m % m;
  }

  lemma OffsetOk(size: nat)
    requires size >= 8 && size % 8 == 0
    ensures HEADER <= Offset(size) <= (if size >= 40 then size else 64) && Offset(size) % 8 == 0
    ensures IsPowerOf2(size) ==> Offset(size) % size == 0
  {
    PowerTest(size);
    if IsPowerOf2(size) {
      OffsetPower(size);
    } else {
      OffsetOdd(size);
    }
  }

  lemma OffsetOdd(size: nat)
    requires size >= 8 && Or(size, size - 1) + 1 != 2 * size
    ensures Offset(size) == 40
  {
    Masks();
    AndNotLow(HEADER + 7, 3);
  }

  lemma OffsetPower(size: nat)
    requires size >= 8 && size % 8 == 0 && IsPowerOf2(size)
    ensures var off := AndNot(HEADER + size - 1, size - 1);
      HEADER <= off <= (if size >= 40 then size else 64) && off % 8 == 0 && off % size == 0
  {
    var k := PowerMask(size);
    var off := AndNot(HEADER + size - 1, size - 1);
    AndNotLow(HEADER + size - 1, k);
    RoundUp(HEADER, size);
    MultipleOf8(off, size);
    if size >= 40 { Once(off, size); }
  }

  lemma Once(x: nat, m: nat)
    requires m > 0 && 0 < x < 2 * m && x % m == 0
    ensures x == m
  {
    var q := x / m;
    assert x == m * q;
    MulSmall(m, q - 1);
  }

  lemma MultipleOf8(x: nat, size: nat)
    requires size > 0 && size % 8 == 0 && x % size == 0
    ensures x % 8 == 0
  {
    var q, e := x / size, size / 8;
    assert x == q * size && size == 8 * e;
    assert x == 8 * (q * e);
  }

  lemma AtLeast(q: nat, k: nat, m: nat, room: nat)
    requires m > 0 && k * m <= room && room < q * m + m
    ensures q >= k
  {
    assert (q + 1) * m == q * m + m;
    if q < k { MulMonotone(q + 1, k, m); }
  }

  lemma Fits(zoneSize: nat, size: nat, off: nat)
    requires 8 <= size && 4 * size <= zoneSize && zoneSize >= 1024 && off <= (if size >= 40 then size else 64)
    ensures off <= zoneSize && (zoneSize - off) / size >= 3 && off + (zoneSize - off) / size * size <= zoneSize
  {
    var room := zoneSize - off;
    var q := room / size;
    assert room == q * size + room % size;
    AtLeast(q, 3, size, room);
  }

  /** The chunks start as early as their alignment lets them. */
  lemma OffsetLeast(size: nat)
    requires size >= 8 && size % 8 == 0
    ensures Offset(size) < HEADER + if IsPowerOf2(size) then size else 8
  {
    PowerTest(size);
    if IsPowerOf2(size) {
      var k := PowerMask(size);
      AndNotLow(HEADER + size - 1, k);
      RoundUp(HEADER, size);
    } else {
      OffsetOdd(size);
    }
  }

  /** A zone has as many chunks as fit behind its header. */
  lemma CapacityFull(zoneSize: nat, size: nat)
    requires size >= 8 && size % 8 == 0 && 4 * size <= zoneSize && zoneSize >= 1024
    ensures Offset(size) + Capacity(zoneSize, size) * size + size > zoneSize
  {
    OffsetOk(size);
    Fits(zoneSize, size, Offset(size));
    NoneLeft(zoneSize - Offset(size), size);
  }

  lemma NoneLeft(room: nat, size: nat)
    requires size > 0
    ensures room / size * size + size > room
  {
    assert room == room / size * size + room % size;
  }

  /** A zone has room for at least three chunks, since chunks are at most a quarter of it. */
  lemma CapacityOk(zoneSize: nat, size: nat)
    requires size >= 8 && size % 8 == 0 && 4 * size <= zoneSize && zoneSize >= 1024
    ensures Capacity(zoneSize, size) >= 3 && Offset(size) + Capacity(zoneSize, size) * size <= zoneSize
  {
    OffsetOk(size);
    Fits(zoneSize, size, Offset(size));
  }

  // --- the chunks of a zone ---

  /** A zone header.  `base` is z_baseptr, `chain` the list z_freechunk, and `used` the chunks handed out. */
  datatype Zone = Zone(zi: nat, size: nat, base: int, nmax: nat, nfree: int, uindex: nat, chain: seq<int>, used: set<int>)

  function ChunkAt(z: Zone, i: nat): int { z.base + i * z.size }

  ghost predicate Touched(z: Zone, c: int) { exists i :: 0 <= i <= z.uindex && c == ChunkAt(z, i) }

  /** Every chunk up to uindex is in use or on the free list, once, and the counter says how many can
      still be had. */
  ghost predicate ZoneOk(z: Zone) {
    && z.size > 0 && z.uindex < z.nmax
    && z.nfree == (z.nmax - 1 - z.uindex) + |z.chain|
    && |z.chain| + |z.used| == z.uindex + 1
    && Distinct(z.chain) && (forall c :: c in z.chain ==> c !in z.used && Touched(z, c))
    && (forall c :: c in z.used ==> Touched(z, c))
    && (forall i :: 0 <= i <= z.uindex ==> ChunkAt(z, i) in z.chain || ChunkAt(z, i) in z.used)
  }

  /** A new zone, with its first chunk handed out. */
  function NewZone(zi: nat, size: nat, at: int, zoneSize: nat): Zone
    requires size > 0
  {
    var base, nmax := at + Offset(size), Capacity(zoneSize, size);
    Zone(zi, size, base, nmax, nmax - 1, 0, [], {base})
  }

  /** rt_malloc in an existing zone: fresh memory first, then the free list. */
  function Take(z: Zone): (Zone, int)
    requires z.uindex + 1 == z.nmax ==> z.chain != []
  {
    if z.uindex + 1 != z.nmax then
      var c := ChunkAt(z, z.uindex + 1);
      (z.(nfree := z.nfree - 1, uindex := z.uindex + 1, used := z.used + {c}), c)
    else
      (z.(nfree := z.nfree - 1, chain := z.chain[1..], used := z.used + {z.chain[0]}), z.chain[0])
  }

  /** rt_free into the zone. */
  function Give(z: Zone, c: int): Zone { z.(nfree := z.nfree + 1, chain := [c] + z.chain, used := z.used - {c}) }

  lemma NewZoneOk(zi: nat, size: nat, at: int, zoneSize: nat)
    requires size > 0 && Capacity(zoneSize, size) > 0
    ensures ZoneOk(NewZone(zi, size, at, zoneSize))
  {
    var z := NewZone(zi, size, at, zoneSize);
    assert ChunkAt(z, 0) == z.base;
  }

  lemma ChunksDiffer(z: Zone, i: nat, j: nat)
    requires z.size > 0 && i < j
    ensures ChunkAt(z, i) + z.size <= ChunkAt(z, j)
  {
    MulMonotone(i + 1, j, z.size);
    assert (i + 1) * z.size == i * z.size + z.size;
  }

  lemma TakeFresh(z: Zone)
    requires ZoneOk(z) && z.uindex + 1 < z.nmax
    ensures var c := ChunkAt(z, z.uindex + 1); ZoneOk(Take(z).0) && c !in z.used && c !in z.chain
  {
    var e, c := Take(z).0, ChunkAt(z, z.uindex + 1);
    forall x | Touched(z, x) ensures x != c && Touched(e, x) {
      var i :| 0 <= i <= z.uindex && x == ChunkAt(z, i);
      ChunksDiffer(z, i, z.uindex + 1);
      assert x == ChunkAt(e, i);
    }
    assert c == ChunkAt(e, e.uindex) && Touched(e, c);
    assert c !in z.used && |z.used + {c}| == |z.used| + 1;
    forall i | 0 <= i <= e.uindex ensures ChunkAt(e, i) in e.chain || ChunkAt(e, i) in e.used {
      if i <= z.uindex { assert ChunkAt(e, i) == ChunkAt(z, i); }
    }
  }

  lemma TakeListed(z: Zone)
    requires ZoneOk(z) && z.uindex + 1 == z.nmax && z.chain != []
    ensures ZoneOk(Take(z).0) && z.chain[0] !in z.used
  {
    var e, c := Take(z).0, z.chain[0];
    assert z.chain == [c] + z.chain[1..];
    assert c in z.chain && c !in z.used && Touched(z, c) && c !in z.chain[1..];
    assert |z.used + {c}| == |z.used| + 1;
    forall x | Touched(z, x) ensures Touched(e, x) {
      var i :| 0 <= i <= z.uindex && x == ChunkAt(z, i);
      assert x == ChunkAt(e, i);
    }
    forall i | 0 <= i <= e.uindex ensures ChunkAt(e, i) in e.chain || ChunkAt(e, i) in e.used {
      assert ChunkAt(e, i) == ChunkAt(z, i);
    }
  }

  /** Taking a chunk from a zone with a positive counter hands out one that was not in use. */
  lemma TakeOk(z: Zone)
    requires ZoneOk(z) && z.nfree > 0
    ensures (z.uindex + 1 == z.nmax ==> z.chain != []) && ZoneOk(Take(z).0)
    ensures var (e, c) := Take(z); c !in z.used && e.used == z.used + {c}
  {
    if z.uindex + 1 < z.nmax { TakeFresh(z); } else { TakeListed(z); }
  }

  lemma GiveOk(z: Zone, c: int)
    requires ZoneOk(z) && c in z.used
    ensures ZoneOk(Give(z, c))
  {
    var e := Give(z, c);
    assert |z.used - {c}| == |z.used| - 1;
    forall x | Touched(z, x) ensures Touched(e, x) {
      var i :| 0 <= i <= z.uindex && x == ChunkAt(z, i);
      assert x == ChunkAt(e, i);
    }
    forall i | 0 <= i <= e.uindex ensures ChunkAt(e, i) in e.chain || ChunkAt(e, i) in e.used {
      assert ChunkAt(e, i) == ChunkAt(z, i);
    }
  }

  /** The counter reaches its maximum exactly when no chunk is in use. */
  lemma FullIsUnused(z: Zone)
    requires ZoneOk(z)
    ensures z.nfree == z.nmax <==> z.used == {}
  {
  }

  /** Chunks in use lie behind the header, inside the zone, and do not overlap. */
  lemma ChunksInside(z: Zone, at: int, zoneSize: nat, c: int, d: int)
    requires ZoneOk(z) && z.base == at + Offset(z.size) && z.nmax == Capacity(zoneSize, z.size)
    requires z.size >= 8 && z.size % 8 == 0 && 4 * z.size <= zoneSize && zoneSize >= 1024 && c in z.used && d in z.used
    ensures at + HEADER <= c && c + z.size <= at + zoneSize && (c == d || c + z.size <= d || d + z.size <= c)
  {
    CapacityOk(zoneSize, z.size);
    OffsetOk(z.size);
    var i :| 0 <= i <= z.uindex && c == ChunkAt(z, i);
    var j :| 0 <= j <= z.uindex && d == ChunkAt(z, j);
    if i < j { ChunksDiffer(z, i, j); }
    if j < i { ChunksDiffer(z, j, i); }
    ChunkInside(z, i, Offset(z.size), zoneSize);
  }

  lemma ChunkInside(z: Zone, i: nat, off: nat, zoneSize: nat)
    requires i < z.nmax && z.size > 0 && off + z.nmax * z.size <= zoneSize
    ensures z.base <= ChunkAt(z, i) && ChunkAt(z, i) + z.size <= z.base + (zoneSize - off)
  {
    MulMonotone(i + 1, z.nmax, z.size);
    assert (i + 1) * z.size == i * z.size + z.size && i * z.size >= 0;
  }

  /** Chunks of a power-of-two size in an aligned zone are aligned to their size, all others to 8. */
  lemma ChunksAligned(z: Zone, at: int, c: int)
    requires ZoneOk(z) && z.base == at + Offset(z.size) && z.size >= 8 && z.size % 8 == 0 && c in z.used && at % 8 == 0
    ensures c % 8 == 0
    ensures IsPowerOf2(z.size) && at % z.size == 0 ==> c % z.size == 0
  {
    OffsetOk(z.size);
    var i :| 0 <= i <= z.uindex && c == ChunkAt(z, i);
    Multiples(at, Offset(z.size), i, z.size);
  }

  lemma Multiples(at: int, off: nat, i: nat, size: nat)
    requires size >= 8 && size % 8 == 0 && at % 8 == 0 && off % 8 == 0
    ensures (at + off + i * size) % 8 == 0
    ensures at % size == 0 && off % size == 0 ==> (at + off + i * size) % size == 0
  {
    Eightfold(i, size / 8, size);
    SumMod8(at, off, i * size, i * (size / 8));
    if at % size == 0 && off % size == 0 { SumMultiple(size, at, at / size, off, off / size, i); }
  }

  lemma SumMod8(a: int, b: int, c: int, k: int)
    requires a % 8 == 0 && b % 8 == 0 && c == 8 * k
    ensures (a + b + c) % 8 == 0
  {
  }

  lemma SumMultiple(m: int, x: int, a: int, y: int, b: int, c: int)
    requires m > 0 && x == m * a && y == m * b
    ensures (x + y + c * m) % m == 0
  {
    SumOfThree(m, a, b, c);
    ModZero(m, a + b + c);
  }

  lemma Eightfold(i: nat, e: nat, size: nat)
    requires size == 8 * e
    ensures i * size == 8 * (i * e)
  {
  }

  lemma SumOfThree(m: int, a: int, b: int, c: int)
    ensures m * a + m * b + c * m == m * (a + b + c)
  {
  }

  lemma ModZero(m: int, k: int)
    requires m > 0
    ensures m * k % m == 0
  {
    var x := m * k;
    assert x == m * (x / m) + x % m;
    assert m * (k - x / m) == x % m;
    MulSmall(m, k - x / m);
  }
}
