/** Whole runs of one memory heap: a client that allocates, reallocates and frees, and remembers
    the addresses it holds together with the size it asked for. */
module HeapRuns {
  import opened HeapModel

  datatype Op = Alloc(size: nat) | Free(ptr: int) | Realloc(ptr: int, size: nat)

  datatype Client = Client(h: Heap, held: map<int, nat>)

  ghost predicate Good(c: Client) { Inv(c.h) && Owns(c.h, c.held) }

  /** The live blocks are those held, each at least as large as asked for. */
  ghost predicate Owns(h: Heap, held: map<int, nat>) {
    && (forall b :: IsLive(h, b) <==> b + HDR in held)
    && (forall p :: p in held ==> HasSize(h, p, held[p]))
  }

  ghost predicate HasSize(h: Heap, p: int, size: nat) {
    IsLive(h, p - HDR) && SizeOf(h, p - HDR) >= MINI && (size <= WORD - 4 ==> SizeOf(h, p - HDR) >= size)
  }

  /** A client frees and reallocates only what it holds, with 32-bit sizes, and keeps clear of the
      reallocations that would wrap into the block's own header. */
  predicate Legal(c: Client, op: Op) {
    match op
    case Alloc(size) => size < WORD
    case Free(ptr) => ptr == 0 || ptr in c.held
    case Realloc(ptr, size) => size < WORD && (ptr == 0 || (ptr in c.held && (size == 0 || GrowSafe(c.h, ptr - HDR, Need(size)))))
  }

  ghost function AfterAlloc(c: Client, size: nat): Client
    requires Good(c) && size < WORD
  {
    var t := Take(c.h, Need(size));
    if t.1 == 0 then c.(h := t.0) else Client(t.0, c.held[t.1 := size])
  }

  ghost function AfterFree(c: Client, ptr: int): Client
    requires Good(c) && (ptr == 0 || ptr in c.held)
  {
    if ptr == 0 then c else assert HasSize(c.h, ptr, c.held[ptr]); Client(HeapModel.Free(c.h, ptr - HDR), c.held - {ptr})
  }

  ghost function AfterRealloc(c: Client, ptr: int, size: nat): Client
    requires Good(c) && ptr in c.held && 0 < size < WORD
  {
    assert HasSize(c.h, ptr, c.held[ptr]);
    AfterMove(c, HeapModel.Realloc(c.h, ptr - HDR, Need(size)), ptr, size)
  }

  ghost function AfterMove(c: Client, t: (Heap, int), ptr: int, size: nat): Client {
    if t.1 == 0 then c.(h := t.0) else Client(t.0, (c.held - {ptr})[t.1 := size])
  }

  ghost function Step(c: Client, op: Op): Client
    requires Good(c) && Legal(c, op)
  {
    match op
    case Alloc(size) => AfterAlloc(c, size)
    case Free(ptr) => AfterFree(c, ptr)
    case Realloc(ptr, size) =>
      if size == 0 then AfterFree(c, ptr)
      else if ptr == 0 then AfterAlloc(c, size)
      else AfterRealloc(c, ptr, size)
  }

  lemma GrantOwns(h: Heap, t: Heap, held: map<int, nat>, p: int, size: nat, n: nat)
    requires Owns(h, held) && Grants(h, t, p - HDR, n) && n >= MINI && (size <= WORD - 4 ==> n >= size)
    ensures Owns(t, held[p := size])
  {
    var e := held[p := size];
    forall b ensures IsLive(t, b) <==> b + HDR in e { assert IsLive(h, b) <==> b + HDR in held; }
    forall q | q in e ensures HasSize(t, q, e[q]) {
      if q != p { assert HasSize(h, q, held[q]); }
    }
  }

  lemma AllocGood(c: Client, size: nat)
    requires Good(c) && size < WORD
    ensures Good(AfterAlloc(c, size))
  {
    NeedCovers(size);
    var n := Need(size);
    TakeOk(c.h, n);
    var t := Take(c.h, n);
    if t.1 != 0 {
      GrantOwns(c.h, t.0, c.held, t.1, size, n);
    }
  }

  lemma DropOwns(h: Heap, t: Heap, held: map<int, nat>, p: int)
    requires Owns(h, held) && Drops(h, t, p - HDR)
    ensures Owns(t, held - {p})
  {
    var e := held - {p};
    forall b ensures IsLive(t, b) <==> b + HDR in e { assert IsLive(h, b) <==> b + HDR in held; }
    forall q | q in e ensures HasSize(t, q, e[q]) { assert HasSize(h, q, held[q]); }
  }

  lemma FreeGood(c: Client, ptr: int)
    requires Good(c) && (ptr == 0 || ptr in c.held)
    ensures Good(AfterFree(c, ptr))
  {
    if ptr != 0 {
      assert HasSize(c.h, ptr, c.held[ptr]);
      FreeOk(c.h, ptr - HDR);
      DropOwns(c.h, HeapModel.Free(c.h, ptr - HDR), c.held, ptr);
    }
  }

  lemma MoveOwns(h: Heap, t: Heap, held: map<int, nat>, ptr: int, p: int, size: nat, n: nat)
    requires Owns(h, held) && ptr in held && n >= MINI && (size <= WORD - 4 ==> n >= size) && Moves(h, t, ptr - HDR, p - HDR, n)
    ensures Owns(t, (held - {ptr})[p := size])
  {
    var e := (held - {ptr})[p := size];
    forall b ensures IsLive(t, b) <==> b + HDR in e {
      assert IsLive(h, b) <==> b + HDR in held;
      assert IsLive(t, b) <==> (IsLive(h, b) && b != ptr - HDR) || b == p - HDR;
      assert b + HDR in e <==> (b + HDR in held && b + HDR != ptr) || b + HDR == p;
    }
    forall q | q in e ensures HasSize(t, q, e[q]) {
      if q != p { assert HasSize(h, q, held[q]); }
    }
  }

  lemma ReallocGood(c: Client, ptr: int, size: nat)
    requires Good(c) && ptr in c.held && 0 < size < WORD && GrowSafe(c.h, ptr - HDR, Need(size))
    ensures Good(AfterRealloc(c, ptr, size))
  {
    var n := Need(size);
    NeedCovers(size);
    assert HasSize(c.h, ptr, c.held[ptr]);
    ReallocOk(c.h, ptr - HDR, n);
    MoveGood(c, HeapModel.Realloc(c.h, ptr - HDR, n), ptr, size, n);
  }

  lemma MoveGood(c: Client, t: (Heap, int), ptr: int, size: nat, n: nat)
    requires Good(c) && ptr in c.held && n >= MINI && (size <= WORD - 4 ==> n >= size) && FailsOrMoves(c.h, t, ptr - HDR, n)
    ensures Good(AfterMove(c, t, ptr, size))
  {
    if t.1 != 0 { MoveOwns(c.h, t.0, c.held, ptr, t.1, size, n); }
  }

  /** The condition in Legal is the exact one: any other reallocation leaves a heap that is none. */
  lemma ReallocExactly(c: Client, ptr: int, size: nat)
    requires Good(c) && ptr in c.held && 0 < size < WORD
    ensures Good(AfterRealloc(c, ptr, size)) <==> GrowSafe(c.h, ptr - HDR, Need(size))
  {
    var n := Need(size);
    assert HasSize(c.h, ptr, c.held[ptr]);
    if GrowSafe(c.h, ptr - HDR, n) {
      ReallocGood(c, ptr, size);
    } else {
      ReallocBreaks(c.h, ptr - HDR, n);
    }
  }

  lemma StepGood(c: Client, op: Op)
    requires Good(c) && Legal(c, op)
    ensures Good(Step(c, op))
  {
    match op
    case Alloc(size) => AllocGood(c, size);
    case Free(ptr) => FreeGood(c, ptr);
    case Realloc(ptr, size) =>
      if size == 0 {
        FreeGood(c, ptr);
      } else if ptr == 0 {
        AllocGood(c, size);
      } else {
        ReallocGood(c, ptr, size);
      }
  }

  // ---- runs ---------------------------------------------------------------------------

  ghost predicate LegalRun(c: Client, ops: seq<Op>)
    requires Good(c)
    decreases |ops|
  {
    ops == [] || (Legal(c, ops[0]) && (StepGood(c, ops[0]); LegalRun(Step(c, ops[0]), ops[1..])))
  }

  ghost function Run(c: Client, ops: seq<Op>): Client
    requires Good(c) && LegalRun(c, ops)
    decreases |ops|
  {
    if ops == [] then c else StepGood(c, ops[0]); Run(Step(c, ops[0]), ops[1..])
  }

  ghost function Start(start: nat, size: nat): Client { Client(Init(start, size), map[]) }

  ghost predicate Pool(start: nat, size: nat) {
    0 < start && start % 4 == 0 && start + size <= WORD && size / 4 * 4 >= 2 * HDR
  }

  lemma StartGood(start: nat, size: nat)
    requires Pool(start, size)
    ensures Good(Start(start, size))
  {
    InitOk(start, size);
  }

  /** The heap is well formed in every state a client can reach: blocks tile the pool, the free
      list holds exactly the unused ones, neighbours are coalesced, the free byte count is exact,
      and every held block is at least as large as asked. */
  lemma {:induction false} RunGood(c: Client, ops: seq<Op>)
    requires Good(c) && LegalRun(c, ops)
    ensures Good(Run(c, ops))
    decreases |ops|
  {
    if ops != [] {
      StepGood(c, ops[0]);
      RunGood(Step(c, ops[0]), ops[1..]);
    }
  }

  /** Two blocks held at the same time never overlap, and both are aligned and inside the pool. */
  lemma HeldDisjoint(c: Client, p: int, q: int)
    requires Good(c) && p in c.held && q in c.held && p != q
    ensures IsLive(c.h, p - HDR) && IsLive(c.h, q - HDR)
    ensures p + SizeOf(c.h, p - HDR) <= q - HDR || q + SizeOf(c.h, q - HDR) <= p - HDR
    ensures p % 4 == 0 && c.h.start + HDR <= p && p + SizeOf(c.h, p - HDR) <= c.h.start + c.h.pool - HDR
  {
    assert HasSize(c.h, p, c.held[p]) && HasSize(c.h, q, c.held[q]);
    PayloadsDisjoint(c.h, p - HDR, q - HDR);
    SizeAt(c.h, BlockIndex(c.h, p - HDR));
  }

  /** Whatever happened in between, once the client holds nothing the pool is again the single
      free block it was initialised with. */
  lemma AllReturned(start: nat, size: nat, ops: seq<Op>)
    requires Pool(start, size) && (StartGood(start, size); LegalRun(Start(start, size), ops))
    requires (StartGood(start, size); Run(Start(start, size), ops).held == map[])
    ensures (StartGood(start, size); AsInitial(Run(Start(start, size), ops).h, Init(start, size)))
  {
    StartGood(start, size);
    var s := Start(start, size);
    RunGood(s, ops);
    RunMarks(s, ops);
    HoldsNothing(s.h, Run(s, ops));
  }

  ghost predicate AsInitial(h: Heap, i: Heap) { h.blocks == i.blocks && h.free == i.free && h.avail == i.avail }

  lemma HoldsNothing(i: Heap, c: Client)
    requires Good(c) && c.held == map[] && SamePool(i, c.h)
    requires i.blocks == [i.start, Tail(i)] && i.free == [i.start] && i.avail == i.pool - 2 * HDR
    ensures AsInitial(c.h, i)
  {
    AllFreeIsInitial(c.h);
  }

  // ---- the high-water mark ---------------------------------------------------------------

  /** The heap states an operation passes through, one per locked section: a reallocation that
      moves allocates first and frees afterwards. */
  ghost function Moments(c: Client, op: Op): seq<Heap>
    requires Good(c) && Legal(c, op)
  {
    if op.Realloc? && op.size > 0 && op.ptr != 0 && MovesAway(c, op.ptr, op.size)
    then [Take(c.h, Need(op.size)).0, Step(c, op).h]
    else [Step(c, op).h]
  }

  ghost predicate MovesAway(c: Client, ptr: int, size: nat)
    requires Good(c) && ptr in c.held && size < WORD
  {
    assert HasSize(c.h, ptr, c.held[ptr]);
    var i := BlockIndex(c.h, ptr - HDR);
    Need(size) > Payload(c.h, i) && !Tries(c.h, i, Need(size))
  }

  ghost function Trace(c: Client, ops: seq<Op>): seq<Heap>
    requires Good(c) && LegalRun(c, ops)
    decreases |ops|
  {
    if ops == [] then [] else StepGood(c, ops[0]); Moments(c, ops[0]) + Trace(Step(c, ops[0]), ops[1..])
  }

  /** The most bytes in use over `hs`, or `m` if that is more. */
  ghost function MostUsed(m: int, hs: seq<Heap>): int
    decreases |hs|
  {
    if hs == [] then m else
      var u := hs[0].pool - hs[0].avail;
      MostUsed(if u > m then u else m, hs[1..])
  }

  lemma {:induction false} MostUsedConcat(m: int, a: seq<Heap>, b: seq<Heap>)
    ensures MostUsed(m, a + b) == MostUsed(MostUsed(m, a), b)
    decreases |a|
  {
    if a == [] {
      assert a + b == b;
    } else {
      assert (a + b)[1..] == a[1..] + b;
      var u := a[0].pool - a[0].avail;
      MostUsedConcat(if u > m then u else m, a[1..], b);
    }
  }

  lemma StepMarks(c: Client, op: Op)
    requires Good(c) && Legal(c, op)
    ensures SamePool(c.h, Step(c, op).h)
    ensures Step(c, op).h.peak == MostUsed(c.h.peak, Moments(c, op))
  {
    match op
    case Alloc(size) => TakeMarks(c.h, Need(size));
    case Free(ptr) => FreeMarks(c, ptr);
    case Realloc(ptr, size) =>
      if size == 0 {
        FreeMarks(c, ptr);
      } else if ptr == 0 {
        TakeMarks(c.h, Need(size));
      } else {
        ReallocMarks(c, ptr, size);
      }
  }

  lemma FreeMarks(c: Client, ptr: int)
    requires Good(c) && (ptr == 0 || ptr in c.held)
    ensures var e := AfterFree(c, ptr).h; SamePool(c.h, e) && e.peak == MostUsed(c.h.peak, [e])
  {
    if ptr != 0 {
      assert HasSize(c.h, ptr, c.held[ptr]);
      FreeOk(c.h, ptr - HDR);
    }
  }

  lemma TakeMarks(h: Heap, n: nat)
    requires Inv(h) && n % 4 == 0 && n >= MINI
    ensures SamePool(h, Take(h, n).0)
    ensures Take(h, n).0.peak == MostUsed(h.peak, [Take(h, n).0])
  {
    TakeOk(h, n);
  }

  lemma ReallocMarks(c: Client, ptr: int, size: nat)
    requires Good(c) && ptr in c.held && ptr != 0 && 0 < size < WORD && GrowSafe(c.h, ptr - HDR, Need(size))
    ensures var op := Realloc(ptr, size);
      SamePool(c.h, Step(c, op).h) && Step(c, op).h.peak == MostUsed(c.h.peak, Moments(c, op))
  {
    var b, n := ptr - HDR, Need(size);
    assert HasSize(c.h, ptr, c.held[ptr]);
    if MovesAway(c, ptr, size) {
      MoveAwayMarks(c.h, b, n);
    } else {
      InPlaceMarks(c.h, b, n);
    }
  }

  lemma InPlaceMarks(h: Heap, b: int, n: nat)
    requires Inv(h) && IsLive(h, b) && n % 4 == 0 && MINI <= n < WORD && GrowSafe(h, b, n)
    requires var i := BlockIndex(h, b); n > Payload(h, i) ==> Tries(h, i, n)
    ensures var e := HeapModel.Realloc(h, b, n).0; SamePool(h, e) && e.peak == MostUsed(h.peak, [e])
  {
    var i := BlockIndex(h, b);
    SizeAt(h, i);
    if n > Payload(h, i) { GrowsOk(h, b, n); } else { InPlaceOk(h, i, n); }
  }

  lemma MoveAwayMarks(h: Heap, b: int, n: nat)
    requires Inv(h) && IsLive(h, b) && n % 4 == 0 && n >= MINI
    ensures SamePool(h, MoveAway(h, b, n).0)
    ensures MoveAway(h, b, n).0.peak == MostUsed(h.peak, [Take(h, n).0, MoveAway(h, b, n).0])
  {
    TakeOk(h, n);
    if Take(h, n).1 != 0 { TakeKeeps(h, n, b); }
    FreeAfterMarks(h, Take(h, n), b);
  }

  lemma FreeAfterMarks(h: Heap, t: (Heap, int), b: int)
    requires Inv(t.0) && Marks(h, t.0) && SamePool(h, t.0)
    requires t.1 != 0 ==> IsLive(t.0, b)
    ensures SamePool(h, FreeAfter(t, b).0)
    ensures FreeAfter(t, b).0.peak == MostUsed(h.peak, [t.0, FreeAfter(t, b).0])
  {
    if t.1 != 0 { FreeOk(t.0, b); }
    var r := FreeAfter(t, b).0;
    assert [t.0, r][1..] == [r];
    assert MostUsed(t.0.peak, [r]) == r.peak;
  }

  /** `max_used_size` is the largest number of bytes that were ever in use. */
  lemma {:induction false} RunMarks(c: Client, ops: seq<Op>)
    requires Good(c) && LegalRun(c, ops)
    ensures SamePool(c.h, Run(c, ops).h)
    ensures Run(c, ops).h.peak == MostUsed(c.h.peak, Trace(c, ops))
    decreases |ops|
  {
    if ops != [] {
      StepGood(c, ops[0]);
      StepMarks(c, ops[0]);
      var c' := Step(c, ops[0]);
      RunMarks(c', ops[1..]);
      MostUsedConcat(c.h.peak, Moments(c, ops[0]), Trace(c', ops[1..]));
    }
  }
}
