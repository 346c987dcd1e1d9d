/** What a client finds in the blocks it holds.  The pool is plain memory: an operation may leave
    anything in the 24-byte headers of the heap before it, of the one in the middle of a move, and of the
    one after it, and copies one payload when it moves a block.  `Memheap` shows that it touches nothing
    else. */
module HeapContents {
  import opened HeapModel
  import opened HeapRuns
  import Memheap

  type Memory = int -> int

  datatype Act = Call(op: Op) | Write(ptr: int, at: nat, value: int)

  /** A client with the bytes it wrote last, by block and offset. */
  datatype Owner = Owner(c: Client, want: map<int, map<int, int>>)

  // ---- what an operation does to memory -----------------------------------------------

  /** The block the operation is called on, or 0. */
  function Given(op: Op): int {
    match op
    case Alloc(_) => 0
    case Free(ptr) => ptr
    case Realloc(ptr, _) => ptr
  }

  /** The pointer it returns, or 0. */
  ghost function Result(c: Client, op: Op): int
    requires Good(c) && Legal(c, op)
  {
    match op
    case Alloc(size) => Take(c.h, Need(size)).1
    case Free(_) => 0
    case Realloc(ptr, size) =>
      if size == 0 then 0
      else if ptr == 0 then Take(c.h, Need(size)).1
      else assert HasSize(c.h, ptr, c.held[ptr]); HeapModel.Realloc(c.h, ptr - HDR, Need(size)).1
  }

  /** Does the block the operation is called on go? */
  ghost predicate Gone(c: Client, op: Op, p: int)
    requires Good(c) && Legal(c, op)
  {
    p == Given(op) && (op.Free? || op.size == 0 || Result(c, op) != 0)
  }

  /** How many bytes of it the returned block inherits. */
  ghost function Inherited(c: Client, op: Op): int
    requires Good(c) && Legal(c, op)
  {
    if op.Realloc? && op.ptr != 0 && Result(c, op) != 0 then
      assert HasSize(c.h, op.ptr, c.held[op.ptr]);
      Min(SizeOf(c.h, op.ptr - HDR), Need(op.size))
    else 0
  }

  ghost predicate InHeader(h: Heap, a: int) { exists b :: b in h.blocks && b <= a < b + HDR }

  ghost predicate Touched(c: Client, op: Op, a: int)
    requires Good(c) && Legal(c, op)
  {
    InHeader(c.h, a) || exists i :: 0 <= i < |Moments(c, op)| && InHeader(Moments(c, op)[i], a)
  }

  /** Where the byte at `a` comes from. */
  ghost function Origin(c: Client, op: Op, a: int): int
    requires Good(c) && Legal(c, op)
  {
    var p := Result(c, op);
    if p <= a < p + Inherited(c, op) then Given(op) + (a - p) else a
  }

  predicate InPool(h: Heap, a: int) { h.start <= a < h.start + h.pool }

  /** `m'` is a memory the operation can leave behind; outside the pool it may be anything. */
  ghost predicate Leaves(c: Client, op: Op, m: Memory, m': Memory)
    requires Good(c) && Legal(c, op)
  {
    forall a :: InPool(c.h, a) && !Touched(c, op, a) ==> m'(a) == m(Origin(c, op, a))
  }

  /** If memory differs, apart from the copy, only where header words do, and these only in headers of the
      heaps on the way and of a list head outside the pool, it is such a memory. */
  lemma HeadersOnly(c: Client, op: Op, w: Memheap.Words, w': Memheap.Words, at: seq<int>, head: int, m: Memory, m': Memory)
    requires Good(c) && Legal(c, op) && Memheap.OnlyAt(w, w', at) && Memheap.Outside(c.h, head)
    requires forall x :: x in at ==> x == head || x in c.h.blocks || exists i :: 0 <= i < |Moments(c, op)| && x in Moments(c, op)[i].blocks
    requires forall a :: InPool(c.h, a) && OffHeaders(w, w', a) ==> m'(a) == m(Origin(c, op, a))
    ensures Leaves(c, op, m, m')
  {
    forall a | InPool(c.h, a) && !Touched(c, op, a) ensures OffHeaders(w, w', a) {
      forall x | x <= a < x + HDR ensures Memheap.Kept(w, w', x) {
        assert x != head && !InHeader(c.h, a) && x !in c.h.blocks;
        forall i | 0 <= i < |Moments(c, op)| ensures x !in Moments(c, op)[i].blocks { assert !InHeader(Moments(c, op)[i], a); }
        assert x !in at;
      }
    }
  }

  /** What rt_memheap_realloc writes of a held block, as `Memheap` has it, is of that kind. */
  lemma ReallocWrites(c: Client, op: Op, w: Memheap.Words, w': Memheap.Words, head: int, m: Memory, m': Memory)
    requires Good(c) && Legal(c, op) && op.Realloc? && op.ptr != 0 && op.size > 0 && Memheap.Outside(c.h, head)
    requires Memheap.Wrote(w, w', c.h, Take(c.h, Need(op.size)).0, Step(c, op).h, head, Result(c, op) != 0 && Result(c, op) != op.ptr)
    requires forall a :: InPool(c.h, a) && OffHeaders(w, w', a) ==> m'(a) == m(Origin(c, op, a))
    ensures Leaves(c, op, m, m')
  {
    var b, n, r := ReallocView(c, op);
    var g, e := c.h.blocks, Step(c, op).h.blocks;
    if r.1 != 0 && r.1 != op.ptr {
      if !MovesAway(c, op.ptr, op.size) { StaysPut(c.h, b, n); }
      assert Moments(c, op)[0] == Take(c.h, n).0 && Moments(c, op)[1] == Step(c, op).h;
      HeadersOnly(c, op, w, w', g + Take(c.h, n).0.blocks + e + [head], head, m, m');
    } else {
      assert Moments(c, op)[|Moments(c, op)| - 1] == Step(c, op).h;
      HeadersOnly(c, op, w, w', g + e + [head], head, m, m');
    }
  }

  lemma StaysPut(h: Heap, b: int, n: nat)
    requires Inv(h) && IsLive(h, b) && n % 4 == 0 && n >= MINI
    requires var i := BlockIndex(h, b); n > Payload(h, i) ==> Tries(h, i, n)
    ensures HeapModel.Realloc(h, b, n).1 == b + HDR
  {
  }

  /** No header that differs covers the byte at `a`. */
  ghost predicate OffHeaders(w: Memheap.Words, w': Memheap.Words, a: int) {
    forall x :: x <= a < x + HDR ==> Memheap.Kept(w, w', x)
  }

  // ---- the client ---------------------------------------------------------------------

  ghost predicate Allowed(o: Owner, act: Act)
    requires Good(o.c)
  {
    match act
    case Call(op) => Legal(o.c, op)
    case Write(ptr, at, _) => ptr in o.c.held && (assert HasSize(o.c.h, ptr, o.c.held[ptr]); at < SizeOf(o.c.h, ptr - HDR))
  }

  function Front(bytes: map<int, int>, len: int): map<int, int> { map k | k in bytes && k < len :: bytes[k] }

  /** What the client may then rely on: every block as it was, and of a reallocated one the part that
      was in both. */
  ghost function Wanted(o: Owner, op: Op): map<int, map<int, int>>
    requires Good(o.c) && Legal(o.c, op) && o.want.Keys == o.c.held.Keys
  {
    var kept := map p | p in o.want && !Gone(o.c, op, p) :: o.want[p];
    if Result(o.c, op) == 0 then kept
    else kept[Result(o.c, op) := if Given(op) in o.want then Front(o.want[Given(op)], Inherited(o.c, op)) else map[]]
  }

  ghost function Next(o: Owner, act: Act): Owner
    requires Good(o.c) && Allowed(o, act) && o.want.Keys == o.c.held.Keys
  {
    match act
    case Call(op) => Owner(Step(o.c, op), Wanted(o, op))
    case Write(ptr, at, value) => o.(want := o.want[ptr := o.want[ptr][at := value]])
  }

  ghost predicate Follows(o: Owner, act: Act, m: Memory, m': Memory)
    requires Good(o.c) && Allowed(o, act)
  {
    match act
    case Call(op) => Leaves(o.c, op, m, m')
    case Write(ptr, at, value) => forall a :: InPool(o.c.h, a) ==> m'(a) == if a == ptr + at then value else m(a)
  }

  /** Every byte the client wrote last to a block it holds is inside it and still there. */
  ghost predicate Keeps(o: Owner, m: Memory) {
    && Good(o.c) && o.want.Keys == o.c.held.Keys
    && forall p, k :: p in o.want && k in o.want[p] ==> Byte(o.c.h, m, p, k, o.want[p][k])
  }

  ghost predicate Byte(h: Heap, m: Memory, p: int, k: int, value: int) { Lies(h, p, k, p + k) && m(p + k) == value }

  /** `a` is the address of byte `k` of the live block at `p`. */
  ghost predicate Lies(h: Heap, p: int, k: int, a: int) { IsLive(h, p - HDR) && 0 <= k < SizeOf(h, p - HDR) && a == p + k }

  // ---- one operation ------------------------------------------------------------------

  /** A payload lies clear of every header of its heap. */
  lemma Misses(h: Heap, p: int, k: int, a: int)
    requires Tiles(h) && IsLive(h, p - HDR) && 0 <= k < SizeOf(h, p - HDR) && a == p + k
    ensures !InHeader(h, a)
  {
    forall b | b in h.blocks ensures !(b <= a < b + HDR) { HeaderMissesPayload(h, p - HDR, b); }
  }

  ghost predicate SameIn(h: Heap, e: Heap, p: int) {
    Inv(e) && SamePool(h, e) && IsLive(h, p - HDR) && IsLive(e, p - HDR) && SizeOf(e, p - HDR) == SizeOf(h, p - HDR)
  }

  lemma TakeSame(h: Heap, n: nat, p: int)
    requires Inv(h) && IsLive(h, p - HDR) && n % 4 == 0 && n >= MINI
    ensures SameIn(h, Take(h, n).0, p) && (Take(h, n).1 != 0 ==> p != Take(h, n).1)
  {
    TakeOk(h, n);
  }

  lemma FreeSame(h: Heap, b: int, p: int)
    requires Inv(h) && IsLive(h, b) && IsLive(h, p - HDR) && p - HDR != b
    ensures SameIn(h, HeapModel.Free(h, b), p)
  {
    FreeOk(h, b);
  }

  lemma MovesSame(h: Heap, t: (Heap, int), b: int, n: nat, p: int)
    requires Inv(h) && IsLive(h, p - HDR) && FailsOrMoves(h, t, b, n) && (p - HDR != b || t.1 == 0)
    ensures SameIn(h, t.0, p) && p != t.1
  {
    BlocksDistinct(h);
  }

  ghost predicate Through(c: Client, op: Op, p: int)
    requires Good(c) && Legal(c, op)
  {
    && (forall i :: 0 <= i < |Moments(c, op)| ==> SameIn(c.h, Moments(c, op)[i], p))
    && SameIn(c.h, Step(c, op).h, p) && p != Result(c, op)
  }

  /** A block the operation does not take away is there, with its size, in every heap on the way. */
  lemma Survives(c: Client, op: Op, p: int)
    requires Good(c) && Legal(c, op) && p in c.held && !Gone(c, op, p)
    ensures Through(c, op, p)
  {
    assert HasSize(c.h, p, c.held[p]);
    BlocksDistinct(c.h);
    match op
    case Alloc(size) => TakeSame(c.h, Need(size), p);
    case Free(ptr) => FreeSurvives(c, ptr, p);
    case Realloc(ptr, size) =>
      if size == 0 {
        FreeSurvives(c, ptr, p);
      } else if ptr == 0 {
        TakeSame(c.h, Need(size), p);
      } else {
        var b, n, r := ReallocView(c, op);
        ReallocSurvives(c, op, p, b, n, r);
      }
  }

  /** Reallocation of a held block, in the terms of the heap. */
  ghost predicate IsRealloc(c: Client, op: Op, b: int, n: nat, r: (Heap, int)) {
    && Good(c) && Legal(c, op) && op.Realloc? && op.ptr in c.held && op.ptr != 0 && op.size > 0
    && b == op.ptr - HDR && n == Need(op.size) && n % 4 == 0 && MINI <= n < WORD && GrowSafe(c.h, b, n)
    && Inv(c.h) && IsLive(c.h, b) && r == HeapModel.Realloc(c.h, b, n)
    && Step(c, op).h == r.0 && Result(c, op) == r.1
    && Moments(c, op) == if MovesAway(c, op.ptr, op.size) then [Take(c.h, n).0, r.0] else [r.0]
  }

  lemma ReallocView(c: Client, op: Op) returns (b: int, n: nat, r: (Heap, int))
    requires Good(c) && Legal(c, op) && op.Realloc? && op.ptr != 0 && op.size > 0
    ensures IsRealloc(c, op, b, n, r)
  {
    assert HasSize(c.h, op.ptr, c.held[op.ptr]);
    b, n := op.ptr - HDR, Need(op.size);
    r := HeapModel.Realloc(c.h, b, n);
  }

  lemma ReallocSurvives(c: Client, op: Op, p: int, b: int, n: nat, r: (Heap, int))
    requires IsRealloc(c, op, b, n, r) && p in c.held && !Gone(c, op, p)
    ensures Through(c, op, p)
  {
    assert HasSize(c.h, p, c.held[p]);
    TakeSame(c.h, n, p);
    EndSame(c.h, b, n, r, p);
  }

  lemma EndSame(h: Heap, b: int, n: nat, r: (Heap, int), p: int)
    requires Inv(h) && IsLive(h, b) && n % 4 == 0 && MINI <= n < WORD && GrowSafe(h, b, n) && r == HeapModel.Realloc(h, b, n)
    requires IsLive(h, p - HDR) && (p - HDR != b || r.1 == 0)
    ensures SameIn(h, r.0, p) && p != r.1
  {
    ReallocOk(h, b, n);
    MovesSame(h, r, b, n, p);
  }

  lemma FreeSurvives(c: Client, ptr: int, p: int)
    requires Good(c) && (ptr == 0 || ptr in c.held) && p in c.held && p != ptr
    ensures SameIn(c.h, AfterFree(c, ptr).h, p)
  {
    assert HasSize(c.h, p, c.held[p]);
    if ptr != 0 {
      assert HasSize(c.h, ptr, c.held[ptr]);
      FreeSame(c.h, ptr - HDR, p);
    }
  }

  /** The bytes a reallocated block inherits are clear of headers all the way. */
  lemma ResultClear(c: Client, op: Op, b: int, n: nat, r: (Heap, int), k: int, a: int)
    requires IsRealloc(c, op, b, n, r) && r.1 != 0 && 0 <= k < SizeOf(c.h, b) && k < n && a == r.1 + k
    ensures !Touched(c, op, a)
  {
    EndClear(c.h, b, n, r, k, a);
    if MovesAway(c, op.ptr, op.size) {
      MovedClear(c.h, b, n, k, a);
    } else {
      StayClear(c.h, b, n, k, a);
    }
  }

  lemma EndClear(h: Heap, b: int, n: nat, r: (Heap, int), k: int, a: int)
    requires Inv(h) && IsLive(h, b) && n % 4 == 0 && MINI <= n < WORD && GrowSafe(h, b, n) && r == HeapModel.Realloc(h, b, n)
    requires r.1 != 0 && 0 <= k < n && a == r.1 + k
    ensures !InHeader(r.0, a)
  {
    ReallocOk(h, b, n);
    Misses(r.0, r.1, k, a);
  }

  lemma StayClear(h: Heap, b: int, n: nat, k: int, a: int)
    requires Inv(h) && IsLive(h, b) && n % 4 == 0 && n >= MINI
    requires var i := BlockIndex(h, b); n > Payload(h, i) ==> Tries(h, i, n)
    requires 0 <= k < SizeOf(h, b) && a == HeapModel.Realloc(h, b, n).1 + k
    ensures !InHeader(h, a)
  {
    Misses(h, b + HDR, k, a);
  }

  lemma MovedClear(h: Heap, b: int, n: nat, k: int, a: int)
    requires Inv(h) && IsLive(h, b) && n % 4 == 0 && n >= MINI && 0 <= k < n && MoveAway(h, b, n).1 != 0 && a == MoveAway(h, b, n).1 + k
    ensures !InHeader(h, a) && !InHeader(Take(h, n).0, a)
  {
    MoveFails(h, b, n);
    var t := Take(h, n);
    MoveAwayParts(h, b, n, t.0, t.1);
    TakeBlocks(h, n);
    Misses(t.0, t.1, k, a);
  }

  lemma LiesInPool(h: Heap, p: int, k: int, a: int)
    requires Inv(h) && Lies(h, p, k, a)
    ensures InPool(h, a)
  {
    PayloadInside(h, p - HDR);
  }

  /** A byte of a block the operation does not take away stays. */
  lemma OtherStays(c: Client, op: Op, m: Memory, m': Memory, p: int, k: int, a: int)
    requires Good(c) && Legal(c, op) && Leaves(c, op, m, m') && p in c.held && !Gone(c, op, p) && Lies(c.h, p, k, a)
    ensures Lies(Step(c, op).h, p, k, a) && m'(a) == m(a)
  {
    Survives(c, op, p);
    OtherClear(c, op, p, k, a);
    LiesInPool(c.h, p, k, a);
    OwnOrigin(c, op, p, k, a);
    ReadsFrom(c, op, m, m', a, a);
  }

  lemma OtherClear(c: Client, op: Op, p: int, k: int, a: int)
    requires Good(c) && Legal(c, op) && Through(c, op, p) && 0 <= k < SizeOf(c.h, p - HDR) && a == p + k
    ensures !Touched(c, op, a)
  {
    Misses(c.h, p, k, a);
    AllMiss(c.h, Moments(c, op), p, k, a);
  }

  lemma AllMiss(h: Heap, hs: seq<Heap>, p: int, k: int, a: int)
    requires forall i :: 0 <= i < |hs| ==> SameIn(h, hs[i], p)
    requires IsLive(h, p - HDR) && 0 <= k < SizeOf(h, p - HDR) && a == p + k
    ensures forall i :: 0 <= i < |hs| ==> !InHeader(hs[i], a)
  {
    forall i | 0 <= i < |hs| ensures !InHeader(hs[i], a) {
      assert SameIn(h, hs[i], p);
      Misses(hs[i], p, k, a);
    }
  }

  lemma OwnOrigin(c: Client, op: Op, p: int, k: int, a: int)
    requires Good(c) && Legal(c, op) && Through(c, op, p) && 0 <= k < SizeOf(c.h, p - HDR) && a == p + k
    ensures Origin(c, op, a) == a
  {
    if Inherited(c, op) > 0 {
      var b, n, r := ReallocView(c, op);
      ApartFrom(c.h, b, n, r, p, k, a);
    }
  }

  lemma ApartFrom(h: Heap, b: int, n: nat, r: (Heap, int), p: int, k: int, a: int)
    requires Inv(h) && IsLive(h, b) && n % 4 == 0 && MINI <= n < WORD && GrowSafe(h, b, n) && r == HeapModel.Realloc(h, b, n)
    requires r.1 != 0 && SameIn(h, r.0, p) && p != r.1 && 0 <= k < SizeOf(h, p - HDR) && a == p + k
    ensures !(r.1 <= a < r.1 + n)
  {
    EndSize(h, b, n, r);
    PayloadsDisjoint(r.0, p - HDR, r.1 - HDR);
  }

  /** A byte in the part a reallocated block had before and has now comes along. */
  lemma InheritedStays(c: Client, op: Op, m: Memory, m': Memory, b: int, n: nat, r: (Heap, int), k: int, x: int, a: int)
    requires IsRealloc(c, op, b, n, r) && Leaves(c, op, m, m') && r.1 != 0 && k < n && Lies(c.h, op.ptr, k, x) && a == r.1 + k
    ensures Lies(Step(c, op).h, r.1, k, a) && m'(a) == m(x)
  {
    EndSize(c.h, b, n, r);
    ResultClear(c, op, b, n, r, k, a);
    LiesInPool(r.0, r.1, k, a);
    FromGiven(c, op, b, n, r, k, a);
    ReadsFrom(c, op, m, m', a, x);
  }

  lemma ReadsFrom(c: Client, op: Op, m: Memory, m': Memory, a: int, x: int)
    requires Good(c) && Legal(c, op) && Leaves(c, op, m, m') && InPool(c.h, a) && !Touched(c, op, a) && Origin(c, op, a) == x
    ensures m'(a) == m(x)
  {
  }

  lemma EndSize(h: Heap, b: int, n: nat, r: (Heap, int))
    requires Inv(h) && IsLive(h, b) && n % 4 == 0 && MINI <= n < WORD && GrowSafe(h, b, n) && r == HeapModel.Realloc(h, b, n) && r.1 != 0
    ensures Inv(r.0) && SamePool(h, r.0) && IsLive(r.0, r.1 - HDR) && n <= SizeOf(r.0, r.1 - HDR)
  {
    ReallocOk(h, b, n);
  }

  lemma FromGiven(c: Client, op: Op, b: int, n: nat, r: (Heap, int), k: int, a: int)
    requires IsRealloc(c, op, b, n, r) && r.1 != 0 && 0 <= k < SizeOf(c.h, b) && k < n && a == r.1 + k
    ensures Origin(c, op, a) == op.ptr + k
  {
  }

  lemma NoNull(c: Client)
    requires Good(c)
    ensures 0 !in c.held
  {
    BlocksDistinct(c.h);
    forall p | p in c.held ensures p != 0 { assert HasSize(c.h, p, c.held[p]); }
  }

  lemma WantedKeys(o: Owner, op: Op)
    requires Good(o.c) && Legal(o.c, op) && o.want.Keys == o.c.held.Keys
    ensures Wanted(o, op).Keys == Step(o.c, op).held.Keys
  {
    NoNull(o.c);
  }

  lemma ByteAt(h: Heap, m: Memory, p: int, k: int, a: int, value: int)
    requires a == p + k
    ensures Byte(h, m, p, k, value) <==> Lies(h, p, k, a) && m(a) == value
  {
  }

  lemma InheritedByte(o: Owner, op: Op, m: Memory, m': Memory, p: int, k: int, value: int)
    requires Keeps(o, m) && Legal(o.c, op) && Leaves(o.c, op, m, m') && p == Result(o.c, op) != 0
    requires Given(op) in o.c.held && k < Inherited(o.c, op) && Byte(o.c.h, m, Given(op), k, value)
    ensures Byte(Step(o.c, op).h, m', p, k, value)
  {
    NoNull(o.c);
    var x, a := Given(op) + k, p + k;
    ByteAt(o.c.h, m, Given(op), k, x, value);
    var b, n, r := ReallocView(o.c, op);
    InheritedStays(o.c, op, m, m', b, n, r, k, x, a);
    ByteAt(r.0, m', p, k, a, value);
  }

  lemma OtherByte(o: Owner, op: Op, m: Memory, m': Memory, p: int, k: int, value: int)
    requires Keeps(o, m) && Legal(o.c, op) && Leaves(o.c, op, m, m')
    requires p in o.c.held && !Gone(o.c, op, p) && Byte(o.c.h, m, p, k, value)
    ensures Byte(Step(o.c, op).h, m', p, k, value)
  {
    var a := p + k;
    ByteAt(o.c.h, m, p, k, a, value);
    OtherStays(o.c, op, m, m', p, k, a);
    ByteAt(Step(o.c, op).h, m', p, k, a, value);
  }

  lemma CallKeeps(o: Owner, op: Op, m: Memory, m': Memory)
    requires Keeps(o, m) && Legal(o.c, op) && Leaves(o.c, op, m, m')
    ensures Keeps(Next(o, Call(op)), m')
  {
    StepGood(o.c, op);
    WantedKeys(o, op);
    NoNull(o.c);
    var w := Wanted(o, op);
    forall p, k | p in w && k in w[p] ensures Byte(Step(o.c, op).h, m', p, k, w[p][k]) {
      if p == Result(o.c, op) && p != 0 {
        InheritedByte(o, op, m, m', p, k, o.want[Given(op)][k]);
      } else {
        OtherByte(o, op, m, m', p, k, o.want[p][k]);
      }
    }
  }

  lemma WriteKeeps(o: Owner, ptr: int, at: nat, value: int, m: Memory, m': Memory)
    requires Keeps(o, m) && Allowed(o, Write(ptr, at, value)) && Follows(o, Write(ptr, at, value), m, m')
    ensures Keeps(Next(o, Write(ptr, at, value)), m')
  {
    assert HasSize(o.c.h, ptr, o.c.held[ptr]);
    LiesInPool(o.c.h, ptr, at, ptr + at);
    var w := Next(o, Write(ptr, at, value)).want;
    forall p, k | p in w && k in w[p] ensures Byte(o.c.h, m', p, k, w[p][k]) {
      if !(p == ptr && k == at) {
        assert Byte(o.c.h, m, p, k, o.want[p][k]);
        LiesInPool(o.c.h, p, k, p + k);
        Elsewhere(o.c, p, k, ptr, at);
      }
    }
  }

  /** Different bytes of held blocks have different addresses. */
  lemma Elsewhere(c: Client, p: int, k: int, q: int, j: int)
    requires Good(c) && p in c.held && q in c.held && (p != q || k != j)
    requires Lies(c.h, p, k, p + k) && Lies(c.h, q, j, q + j)
    ensures p + k != q + j
  {
    if p != q { HeldDisjoint(c, p, q); }
  }

  // ---- runs ---------------------------------------------------------------------------

  /** `ms` are the memories before, between and after the actions. */
  ghost predicate Happens(o: Owner, acts: seq<Act>, ms: seq<Memory>)
    requires |ms| == |acts| + 1 && Keeps(o, ms[0])
    decreases |acts|
  {
    acts == [] || (Allowed(o, acts[0]) && Follows(o, acts[0], ms[0], ms[1]) &&
      (ActKeeps(o, acts[0], ms[0], ms[1]); Happens(Next(o, acts[0]), acts[1..], ms[1..])))
  }

  lemma ActKeeps(o: Owner, act: Act, m: Memory, m': Memory)
    requires Keeps(o, m) && Allowed(o, act) && Follows(o, act, m, m')
    ensures Keeps(Next(o, act), m')
  {
    match act
    case Call(op) => CallKeeps(o, op, m, m');
    case Write(ptr, at, value) => WriteKeeps(o, ptr, at, value, m, m');
  }

  ghost function After(o: Owner, acts: seq<Act>, ms: seq<Memory>): Owner
    requires |ms| == |acts| + 1 && Keeps(o, ms[0]) && Happens(o, acts, ms)
    decreases |acts|
  {
    if acts == [] then o else ActKeeps(o, acts[0], ms[0], ms[1]); After(Next(o, acts[0]), acts[1..], ms[1..])
  }

  /** Whatever is allocated, freed and reallocated, whatever headers and free lists pass through the
      pool: in every block it holds the client finds what it wrote there last. */
  lemma {:induction false} RunKeeps(o: Owner, acts: seq<Act>, ms: seq<Memory>)
    requires |ms| == |acts| + 1 && Keeps(o, ms[0]) && Happens(o, acts, ms)
    ensures Keeps(After(o, acts, ms), ms[|acts|])
    decreases |acts|
  {
    if acts != [] {
      ActKeeps(o, acts[0], ms[0], ms[1]);
      RunKeeps(Next(o, acts[0]), acts[1..], ms[1..]);
    }
  }

  ghost predicate Spares(act: Act, p: int, k: int) {
    match act
    case Call(op) => Given(op) != p
    case Write(ptr, at, _) => ptr != p || at != k
  }

  /** A byte written once stays, through any run in which nobody writes it again and the block is
      neither freed nor reallocated. */
  lemma {:induction false} StillThere(o: Owner, acts: seq<Act>, ms: seq<Memory>, p: int, k: int, a: int)
    requires |ms| == |acts| + 1 && Keeps(o, ms[0]) && Happens(o, acts, ms) && a == p + k
    requires p in o.want && k in o.want[p] && forall act :: act in acts ==> Spares(act, p, k)
    ensures ms[|acts|](a) == ms[0](a) == o.want[p][k]
    decreases |acts|
  {
    NowThere(o, ms[0], p, k, a);
    if acts != [] {
      assert acts[0] in acts && forall act :: act in acts[1..] ==> act in acts;
      ActKeeps(o, acts[0], ms[0], ms[1]);
      StaysWanted(o, acts[0], p, k);
      StillThere(Next(o, acts[0]), acts[1..], ms[1..], p, k, a);
      NowThere(Next(o, acts[0]), ms[1], p, k, a);
    }
  }

  lemma NowThere(o: Owner, m: Memory, p: int, k: int, a: int)
    requires Keeps(o, m) && p in o.want && k in o.want[p] && a == p + k
    ensures m(a) == o.want[p][k]
  {
    assert Byte(o.c.h, m, p, k, o.want[p][k]);
  }

  lemma StaysWanted(o: Owner, act: Act, p: int, k: int)
    requires Good(o.c) && Allowed(o, act) && o.want.Keys == o.c.held.Keys && Spares(act, p, k) && p in o.want && k in o.want[p]
    ensures var w := Next(o, act).want; p in w && k in w[p] && w[p][k] == o.want[p][k]
  {
    if act.Call? { Survives(o.c, act.op, p); }
  }
}
