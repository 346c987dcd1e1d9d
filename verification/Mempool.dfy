/** A fixed-block memory pool of mempool.c.  The first word of a block links the free ones and names
    the pool in those handed out. */
module Mempool {
  import opened Seqs
  import opened Chain
  import opened Cells

  type Tid = int

  datatype Phase =
    | Running
    | Waiter(timed: bool)   // blocked, or woken and about to look again
    | Failing               // about to return null

  /** Free blocks in list order, blocks handed out, blocked threads (last come, first served, as they
      are inserted at the front), and threads woken but not yet running. */
  datatype State = State(blocks: set<Node>, free: seq<Node>, out: set<Node>, waiting: seq<Tid>, woken: set<Tid>, phase: map<Tid, Phase>)

  /** rt_mp_alloc from the top of its loop on. */
  function Alloc(s: State, t: Tid, time: int): State {
    if s.free != [] then s.(free := s.free[1..], out := s.out + {s.free[0]}, phase := s.phase[t := Running])
    else if time == 0 then s.(phase := s.phase[t := Running])
    else s.(waiting := [t] + s.waiting, phase := s.phase[t := Waiter(time > 0)])
  }

  /** rt_mp_free of a block of this pool. */
  function Free(s: State, b: Node): State {
    var s' := s.(free := [b] + s.free, out := s.out - {b});
    if s.waiting == [] then s' else s'.(waiting := s.waiting[1..], woken := s.woken + {s.waiting[0]})
  }

  /** rt_thread_timeout on a blocked thread. */
  function Timeout(s: State, t: Tid): State { s.(waiting := Drop(s.waiting, t), phase := s.phase[t := Failing]) }

  /** Every block is free, once, or handed out. */
  ghost predicate Blocks(blocks: set<Node>, free: seq<Node>, out: set<Node>) {
    && Distinct(free) && Null !in blocks && (forall b :: b in free ==> b in blocks && b !in out)
    && out <= blocks && (forall b :: b in blocks ==> b in free || b in out)
  }

  /** Sleeping, and having been woken, are told by the phase. */
  ghost predicate Threads(waiting: seq<Tid>, woken: set<Tid>, phase: map<Tid, Phase>) {
    && Distinct(waiting) && (forall t :: t in waiting ==> t in phase && t !in woken) && woken <= phase.Keys
    && (forall t :: t in phase ==> (phase[t].Waiter? <==> t in waiting || t in woken))
  }

  /** While somebody sleeps, every free block has a woken thread on its way to it. */
  ghost predicate Inv(s: State) {
    Blocks(s.blocks, s.free, s.out) && Threads(s.waiting, s.woken, s.phase) && (s.waiting != [] ==> |s.free| <= |s.woken|)
  }

  datatype Event = AllocBy(t: Tid, time: int) | AgainBy(t: Tid, left: int) | FreeOf(b: Node) | TimeoutOf(t: Tid) | FailBy(t: Tid)

  /** A client frees only what it was given. */
  predicate Legal(s: State, v: Event) {
    match v
    case AllocBy(t, _) => t in s.phase && s.phase[t] == Running
    case AgainBy(t, left) => t in s.woken && t in s.phase && s.phase[t].Waiter? && (s.phase[t].timed <==> left >= 0)
    case FreeOf(b) => b in s.out
    case TimeoutOf(t) => t in s.waiting && t in s.phase && s.phase[t] == Waiter(true)
    case FailBy(t) => t in s.phase && s.phase[t] == Failing
  }

  function Step(s: State, v: Event): State {
    match v
    case AllocBy(t, time) => Alloc(s, t, time)
    case AgainBy(t, left) => Alloc(s.(woken := s.woken - {t}), t, left)
    case FreeOf(b) => Free(s, b)
    case TimeoutOf(t) => Timeout(s, t)
    case FailBy(t) => s.(phase := s.phase[t := Running])
  }

  lemma TakeBlock(blocks: set<Node>, free: seq<Node>, out: set<Node>)
    requires Blocks(blocks, free, out) && free != []
    ensures Blocks(blocks, free[1..], out + {free[0]})
  {
    var b := free[0];
    assert free == [b] + free[1..];
    assert b in free && b in blocks;
  }

  lemma GiveBlock(blocks: set<Node>, free: seq<Node>, out: set<Node>, b: Node)
    requires Blocks(blocks, free, out) && b in out
    ensures Blocks(blocks, [b] + free, out - {b}) && b !in free && b != Null
  {
  }

  lemma Sleep(waiting: seq<Tid>, woken: set<Tid>, phase: map<Tid, Phase>, t: Tid, p: Phase)
    requires Threads(waiting, woken, phase) && t in phase && t !in waiting && p.Waiter?
    ensures Threads([t] + waiting, woken - {t}, phase[t := p])
  {
  }

  lemma Awake(waiting: seq<Tid>, woken: set<Tid>, phase: map<Tid, Phase>, t: Tid, p: Phase)
    requires Threads(waiting, woken, phase) && t in phase && t !in waiting && !p.Waiter?
    ensures Threads(waiting, woken - {t}, phase[t := p])
  {
  }

  lemma WakeFirst(waiting: seq<Tid>, woken: set<Tid>, phase: map<Tid, Phase>)
    requires Threads(waiting, woken, phase) && waiting != []
    ensures Threads(waiting[1..], woken + {waiting[0]}, phase) && |woken + {waiting[0]}| == |woken| + 1
  {
    var t := waiting[0];
    assert waiting == [t] + waiting[1..];
    assert t in waiting && t in phase && t !in woken;
  }

  lemma DropOk(waiting: seq<Tid>, woken: set<Tid>, phase: map<Tid, Phase>, t: Tid)
    requires Threads(waiting, woken, phase) && t in waiting
    ensures Threads(Drop(waiting, t), woken, phase[t := Failing])
  {
    RemoveAtElements(waiting, IndexOf(waiting, t));
  }

  lemma AllocOk(s: State, t: Tid, time: int, woken: set<Tid>)
    requires Blocks(s.blocks, s.free, s.out) && Threads(s.waiting, woken, s.phase) && t in s.phase && t !in s.waiting
    requires s.woken == woken - {t} && (s.waiting != [] ==> |s.free| <= |s.woken| + 1)
    ensures Inv(Alloc(s, t, time))
  {
    if s.free != [] {
      TakeBlock(s.blocks, s.free, s.out);
      Awake(s.waiting, woken, s.phase, t, Running);
    } else if time == 0 {
      Awake(s.waiting, woken, s.phase, t, Running);
    } else {
      Sleep(s.waiting, woken, s.phase, t, Waiter(time > 0));
    }
  }

  lemma StepOk(s: State, v: Event)
    requires Inv(s) && Legal(s, v)
    ensures Inv(Step(s, v))
  {
    match v
    case AllocBy(t, time) =>
      assert s.woken == s.woken - {t};
      AllocOk(s, t, time, s.woken);
    case AgainBy(t, left) =>
      assert |s.woken - {t}| == |s.woken| - 1;
      AllocOk(s.(woken := s.woken - {t}), t, left, s.woken);
    case FreeOf(b) =>
      GiveBlock(s.blocks, s.free, s.out, b);
      if s.waiting != [] { WakeFirst(s.waiting, s.woken, s.phase); }
    case TimeoutOf(t) => DropOk(s.waiting, s.woken, s.phase, t);
    case FailBy(t) =>
      assert s.woken == s.woken - {t};
      Awake(s.waiting, s.woken, s.phase, t, Running);
  }

  ghost predicate LegalRun(s: State, vs: seq<Event>)
    decreases |vs|
  {
    vs == [] || (Legal(s, vs[0]) && LegalRun(Step(s, vs[0]), vs[1..]))
  }

  function Run(s: State, vs: seq<Event>): State
    decreases |vs|
  {
    if vs == [] then s else Run(Step(s, vs[0]), vs[1..])
  }

  lemma {:induction false} Card(free: seq<Node>)
    requires Distinct(free)
    ensures |set b | b in free| == |free|
  {
    if free != [] {
      Card(free[1..]);
      assert (set b | b in free) == (set b | b in free[1..]) + {free[0]};
    }
  }

  lemma {:induction false} RunOk(s: State, vs: seq<Event>)
    requires Inv(s) && LegalRun(s, vs)
    ensures Inv(Run(s, vs)) && Run(s, vs).blocks == s.blocks
    decreases |vs|
  {
    if vs != [] {
      StepOk(s, vs[0]);
      RunOk(Step(s, vs[0]), vs[1..]);
    }
  }

  lemma Accounted(blocks: set<Node>, free: seq<Node>, out: set<Node>, f: set<Node>)
    requires Blocks(blocks, free, out) && f == set b | b in free
    ensures |blocks| == |f| + |out|
  {
    forall b ensures b in blocks <==> b in f + out { assert b in f <==> b in free; }
    forall b | b in f ensures b !in out { assert b in free; }
    assert blocks == f + out && f !! out;
  }

  /** In every run of allocations, frees and timeouts each block is free once or handed out, never both,
      none is lost, and no sleeper is left behind by a free block. */
  lemma Conserved(s: State, vs: seq<Event>)
    requires Inv(s) && LegalRun(s, vs)
    ensures var e := Run(s, vs);
      && Blocks(s.blocks, e.free, e.out) && |e.free| + |e.out| == |s.blocks|
      && (e.waiting != [] ==> |e.free| <= |e.woken|)
  {
    RunOk(s, vs);
    var e := Run(s, vs);
    Card(e.free);
    var f := set b | b in e.free;
    Accounted(e.blocks, e.free, e.out, f);
  }

  // --- single sections ---

  /** A caller at the top of its loop: it has the first free block, gives up, or sleeps in front of all. */
  ghost predicate Tried(s: State, e: State, t: Tid, time: int) {
    && e.blocks == s.blocks && e.woken == s.woken
    && if s.free != [] then
         [s.free[0]] + e.free == s.free && e.out == s.out + {s.free[0]} && e.waiting == s.waiting && e.phase == s.phase[t := Running]
       else
         && e.free == [] && e.out == s.out
         && if time == 0 then e.waiting == s.waiting && e.phase == s.phase[t := Running]
            else e.waiting == [t] + s.waiting && e.phase == s.phase[t := Waiter(time > 0)]
  }

  /** The block is first on the list, and the first sleeper wakes. */
  ghost predicate GivenBack(s: State, e: State, b: Node) {
    && e.blocks == s.blocks && e.free == [b] + s.free && e.out == s.out - {b} && e.phase == s.phase
    && if s.waiting == [] then e.waiting == [] && e.woken == s.woken
       else [s.waiting[0]] + e.waiting == s.waiting && e.woken == s.woken + {s.waiting[0]}
  }

  /** Every section, and that it does nothing else. */
  lemma StepMeans(s: State, v: Event)
    requires Inv(s) && Legal(s, v)
    ensures var e := Step(s, v);
      && (v.AllocBy? ==> Tried(s, e, v.t, v.time))
      && (v.AgainBy? ==> Tried(s.(woken := s.woken - {v.t}), e, v.t, v.left))
      && (v.FreeOf? ==> GivenBack(s, e, v.b))
      && (v.TimeoutOf? ==> v.t !in e.waiting && e == s.(waiting := e.waiting, phase := s.phase[v.t := Failing]) && forall u :: u in e.waiting <==> u in s.waiting && u != v.t)
      && (v.FailBy? ==> e == s.(phase := s.phase[v.t := Running]))
  {
    if v.TimeoutOf? { RemoveAtElements(s.waiting, IndexOf(s.waiting, v.t)); }
  }

  /** A stack of blocks: a call takes the first if there is one, and a release puts its block in front. */
  function Stack(free: seq<Node>, vs: seq<Event>): seq<Node>
    decreases |vs|
  {
    if vs == [] then free
    else Stack(if vs[0].FreeOf? then [vs[0].b] + free else if (vs[0].AllocBy? || vs[0].AgainBy?) && free != [] then free[1..] else free, vs[1..])
  }

  /** Whatever the interleaving, the free blocks are those of the stack, and all others are handed out. */
  lemma {:induction false} Refines(s: State, vs: seq<Event>)
    requires Inv(s) && LegalRun(s, vs)
    ensures var e := Run(s, vs); e.free == Stack(s.free, vs) && e.blocks == s.blocks && forall b :: b in e.out <==> b in s.blocks && b !in e.free
    decreases |vs|
  {
    if vs != [] {
      StepOk(s, vs[0]);
      StepMeans(s, vs[0]);
      if (vs[0].AllocBy? || vs[0].AgainBy?) && s.free != [] { assert Step(s, vs[0]).free == s.free[1..]; }
      Refines(Step(s, vs[0]), vs[1..]);
    }
  }

  /** The list rt_mp_init builds: all cells in address order. */
  function Cells0(base: nat, size: nat, n: nat): (r: seq<Node>)
    ensures |r| == n && forall i :: 0 <= i < n ==> r[i] == CellAt(base, size, i)
  {
    seq(n, i requires 0 <= i < n => CellAt(base, size, i))
  }

  /** Blocks handed out are inside the pool's memory and do not overlap one another. */
  lemma OutApart(base: nat, size: nat, poolSize: nat, s: State, a: Node, b: Node)
    requires Blocks(s.blocks, s.free, s.out) && s.blocks == set x | x in Cells0(base, size, Count(size, poolSize))
    requires a in s.out && b in s.out
    ensures base <= a && a + LINK + size <= base + poolSize
    ensures a != b ==> a + LINK + size <= b || b + LINK + size <= a
  {
    var c := Cells0(base, size, Count(size, poolSize));
    assert a in s.blocks && b in s.blocks;
    var i, j := IndexOf(c, a), IndexOf(c, b);
    CellsApart(base, size, poolSize, i, j);
    CellsApart(base, size, poolSize, j, i);
  }

  lemma CellsGrow(base: nat, size: nat, n: nat)
    ensures forall i, j :: 0 <= i < j < n ==> Cells0(base, size, n)[i] < Cells0(base, size, n)[j]
    ensures n > 0 ==> Cells0(base, size, n)[0] == base
  {
    forall i, j | 0 <= i < j < n ensures Cells0(base, size, n)[i] < Cells0(base, size, n)[j] { CellsDiffer(base, size, i, j); }
  }

  /** The first k cells each lead to the next. */
  ghost predicate Strung(word: map<Node, Node>, c: seq<Node>, k: nat)
    requires k < |c|
  {
    forall i :: 0 <= i < k ==> c[i] in word && word[c[i]] == c[i + 1]
  }

  lemma StringOne(word: map<Node, Node>, c: seq<Node>, k: nat)
    requires (forall i, j :: 0 <= i < j < |c| ==> c[i] < c[j]) && k + 1 < |c| && Strung(word, c, k)
    ensures Strung(word[c[k] := c[k + 1]], c, k + 1)
  {
  }

  /** Storing null in the last cell, whatever it held, ends the chain. */
  lemma Ended(word: map<Node, Node>, c: seq<Node>, k: nat)
    requires (forall i, j :: 0 <= i < j < |c| ==> c[i] < c[j]) && k < |c| && c[0] > 0 && Strung(word, c, k)
    ensures IsChain(word[c[k] := Null], c[0], c[..k + 1])
  {
    var w, d := word[c[k] := Null], c[..k + 1];
    forall i | 0 <= i < |d| ensures d[i] in w && d[i] != Null && w[d[i]] == After(d, i) {
      assert d[i] == c[i] && c[i] >= c[0];
      if i < k { assert c[i] < c[k]; }
    }
  }

  /** The loop of rt_mp_init, and the store after it that ends the list. */
  method Thread(base: nat, size: nat, n: nat) returns (word: map<Node, Node>)
    requires base > 0 && n > 0
    ensures IsChain(word, base, Cells0(base, size, n))
  {
    word := map[];
    ghost var c := Cells0(base, size, n + 1);
    CellsGrow(base, size, n + 1);
    var offset := 0;
    while offset < n
      invariant 0 <= offset <= n && Strung(word, c, offset)
    {
      StringOne(word, c, offset);
      word := word[CellAt(base, size, offset) := CellAt(base, size, offset + 1)];
      offset := offset + 1;
    }
    Ended(word, c, n - 1);
    assert c[..n] == Cells0(base, size, n);
    word := word[CellAt(base, size, offset - 1) := Null];
  }

  datatype Attempt = Got(block: Node) | Blocked | Refused

  class Pool {
    const self: Node        // the address of the pool object
    const base: nat
    const size: nat
    const total: nat
    var word: map<Node, Node>
    var list: Node
    var freeCount: nat
    var waiting: seq<Tid>
    ghost var m: State

    /** The chain is the model's free list, the counter its length, and blocks handed out are stamped. */
    ghost predicate Valid()
      reads this
    {
      && Blocks(m.blocks, m.free, m.out) && m.waiting == waiting
      && IsChain(word, list, m.free) && freeCount == |m.free|
      && forall b :: b in m.out ==> b in word && word[b] == self
    }

    /** rt_mp_init on memory that holds at least one block. */
    constructor (self: Node, base: nat, poolSize: nat, blockSize: nat, ghost threads: set<Tid>)
      requires base > 0 && blockSize > 0 && Count(Rounded(blockSize), poolSize / 4 * 4) > 0
      ensures Valid() && Inv(m) && m.free == Cells0(base, Rounded(blockSize), Count(Rounded(blockSize), poolSize / 4 * 4))
      ensures m.blocks == (set x | x in m.free) && this.self == self && this.base == base && size == Rounded(blockSize)
      ensures m.phase.Keys == threads && total == freeCount
    {
      var w := Rounded(blockSize);
      var n := Count(w, poolSize / 4 * 4);
      var words := Thread(base, w, n);
      this.self, this.base, this.size, this.total := self, base, w, n;
      word, list, freeCount, waiting := words, base, n, [];
      ghost var free := Cells0(base, w, n);
      m := State((set x | x in free), free, {}, [], {}, map t | t in threads :: Running);
    }

    /** One round of the loop of rt_mp_alloc. */
    method AllocSection(t: Tid, left: int, ghost woken: bool) returns (r: Attempt)
      requires Valid()
      modifies this
      ensures Valid() && m == Step(old(m), if woken then AgainBy(t, left) else AllocBy(t, left))
      ensures r.Got? <==> old(m.free) != []
      ensures r.Got? ==> r.block - LINK == old(m.free)[0]
      ensures r.Blocked? <==> old(freeCount) == 0 && left != 0
    {
      ghost var e := Step(m, if woken then AgainBy(t, left) else AllocBy(t, left));
      if freeCount == 0 {
        if left == 0 {
          r := Refused;
        } else {
          waiting := [t] + waiting;
          r := Blocked;
        }
      } else {
        Popped(word, list, m.free);
        TakeBlock(m.blocks, m.free, m.out);
        freeCount := freeCount - 1;
        var block := list;
        list := word[block];
        Elsewhere(word, list, m.free[1..], block, self);
        word := word[block := self];
        r := Got(block + LINK);
      }
      m := e;
    }

    /** rt_thread_timeout on a thread blocked here. */
    method TimeoutThread(t: Tid)
      requires Valid()
      modifies this
      ensures Valid() && m == Timeout(old(m), t)
    {
      waiting := Drop(waiting, t);
      m := Timeout(m, t);
    }

    /** rt_mp_free: null is ignored; any other block must have been handed out by this pool, whose
        stamp it carries. */
    method FreeBlock(block: Node)
      requires Valid() && (block == Null || block - LINK in m.out)
      modifies this
      ensures Valid() && m == if block == Null then old(m) else Free(old(m), block - LINK)
      ensures block != Null ==> block - LINK in old(word) && old(word)[block - LINK] == self
    {
      if block == Null {
        return;
      }
      var b := block - LINK;
      GiveBlock(m.blocks, m.free, m.out, b);
      Pushed(word, list, m.free, b);
      freeCount := freeCount + 1;
      word := word[b := list];
      list := b;
      if waiting != [] {
        waiting := waiting[1..];
      }
      m := Free(m, b);
    }
  }
}
