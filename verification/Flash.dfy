/** Writing the W25Q64 serial flash: w25qxx.c over a model of the chip, and the erase, program and
    verify entries of FlashPrg.c.  As the data sheet has it, programming can only clear bits, wraps
    round inside a page of 256 bytes, and is ignored without write enable or while the chip is busy. */
module Flash {
  import opened Bits

  type Byte = x: int | 0 <= x < 256
  type Bytes = seq<Byte>

  const PAGE: nat := 256
  const BLOCK: nat := 0x10000          // erased by one W25Qxx_CMD_BlockErase_64K
  const ERASED: Byte := 0xff
  const MAPPED: nat := 0x90000000      // W25Qxx_Mem_Addr
  const VERIFY_MAX: nat := 4 * 1024    // the size of Verify_Data

  // --- the chip's memory ---

  /** The address after `a` on its page. */
  function NextOnPage(a: nat): nat { if a % PAGE == PAGE - 1 then a - (PAGE - 1) else a + 1 }

  /** The effect of one page program command. */
  function Program(mem: Bytes, a: nat, data: Bytes): Bytes
    decreases |data|
  {
    if data == [] || a >= |mem| then mem else Program(mem[a := And(mem[a], data[0])], NextOnPage(a), data[1..])
  }

  /** What a caller wants of a write: `data` and-ed in from `a` on, and nothing else. */
  function Anded(mem: Bytes, a: nat, data: Bytes): (r: Bytes)
    ensures |r| == |mem|
    decreases |data|
  {
    if data == [] || a >= |mem| then mem else Anded(mem[a := And(mem[a], data[0])], a + 1, data[1..])
  }

  lemma {:induction false} AndedAt(mem: Bytes, a: nat, data: Bytes, i: nat)
    requires i < |mem|
    ensures Anded(mem, a, data)[i] == if a <= i < a + |data| then And(mem[i], data[i - a]) else mem[i]
    decreases |data|
  {
    if data != [] && a < |mem| { AndedAt(mem[a := And(mem[a], data[0])], a + 1, data[1..], i); }
  }

  /** The effect of one block erase command. */
  function Erased(mem: Bytes, a: nat): (r: Bytes)
    ensures |r| == |mem|
    ensures forall i :: 0 <= i < |mem| ==> r[i] == if i / BLOCK == a / BLOCK then ERASED else mem[i]
  {
    seq(|mem|, i requires 0 <= i < |mem| => if i / BLOCK == a / BLOCK then ERASED else mem[i])
  }

  predicate OnOnePage(a: nat, n: nat) { a % PAGE + n <= PAGE }

  /** No command logged since position `from` crosses the end of a page. */
  ghost predicate OnPages(log: seq<(nat, nat)>, from: nat) {
    from <= |log| && forall i :: from <= i < |log| ==> OnOnePage(log[i].0, log[i].1)
  }

  /** A command that stays on its page does what the caller wants. */
  lemma {:induction false} ProgramOnPage(mem: Bytes, a: nat, data: Bytes)
    requires OnOnePage(a, |data|) && a + |data| <= |mem|
    ensures Program(mem, a, data) == Anded(mem, a, data)
    decreases |data|
  {
    if |data| > 1 { ProgramOnPage(mem[a := And(mem[a], data[0])], a + 1, data[1..]); }
  }

  /** A command that runs past the end of its page never reaches the next one. */
  lemma {:induction false} ProgramStaysOnPage(mem: Bytes, a: nat, data: Bytes, i: nat)
    requires i < |mem| && i / PAGE != a / PAGE
    ensures |Program(mem, a, data)| == |mem| && Program(mem, a, data)[i] == mem[i]
    decreases |data|
  {
    if data != [] && a < |mem| {
      assert NextOnPage(a) / PAGE == a / PAGE;
      ProgramStaysOnPage(mem[a := And(mem[a], data[0])], NextOnPage(a), data[1..], i);
    }
  }

  lemma {:induction false} Adjacent(mem: Bytes, a: nat, x: Bytes, y: Bytes)
    requires a + |x| <= |mem|
    ensures Anded(Anded(mem, a, x), a + |x|, y) == Anded(mem, a, x + y)
    decreases |x|
  {
    if x == [] {
      assert x + y == y;
    } else {
      assert (x + y)[1..] == x[1..] + y;
      Adjacent(mem[a := And(mem[a], x[0])], a + 1, x[1..], y);
    }
  }

  /** Writing the next chunk of a buffer, or the beginning of it, is writing more of the buffer. */
  lemma Joined(mem: Bytes, a: nat, buffer: Bytes, d: nat, n: nat, k: nat)
    requires k <= n && d + n <= |buffer| && a + |buffer| <= |mem|
    ensures Anded(Anded(mem, a, buffer[..d]), a + d, buffer[d..d + n][..k]) == Anded(mem, a, buffer[..d + k])
  {
    assert buffer[..d] + buffer[d..d + n][..k] == buffer[..d + k];
    Adjacent(mem, a, buffer[..d], buffer[d..d + n][..k]);
  }

  lemma Nothing(mem: Bytes, a: nat, buffer: Bytes)
    ensures Anded(mem, a, buffer[..0]) == mem
  {
  }

  /** A chunk of a write up to `end`: it stays on its page and reaches the end of that or of the write. */
  predicate Chunk(a: nat, n: nat, end: nat) {
    0 < n && a + n <= end && OnOnePage(a, n) && (a + n == end || (a + n) % PAGE == 0)
  }

  function NextSize(a: nat, end: nat): nat
    requires a <= end
  {
    if a + PAGE > end then end - a else PAGE
  }

  lemma NextChunk(a: nat, n: nat, end: nat)
    requires Chunk(a, n, end)
    ensures a + n == end || Chunk(a + n, NextSize(a + n, end), end)
    ensures if a + n == end then a / PAGE == (end - 1) / PAGE else (a + n) / PAGE == a / PAGE + 1 && a / PAGE < (end - 1) / PAGE
  {
  }

  /** Writing only the first d bytes comes to the same exactly when the others change nothing. */
  lemma PrefixEnough(mem: Bytes, a: nat, data: Bytes, d: nat)
    requires a + |data| <= |mem| && d <= |data|
    ensures Anded(mem, a, data[..d]) == Anded(mem, a, data) <==> forall i :: d <= i < |data| ==> And(mem[a + i], data[i]) == mem[a + i]
  {
    var x, y := Anded(mem, a, data[..d]), Anded(mem, a, data);
    forall i | 0 <= i < |mem| ensures x[i] == y[i] <==> (d <= i - a < |data| ==> y[i] == mem[i]) {
      AndedAt(mem, a, data[..d], i);
      AndedAt(mem, a, data, i);
    }
    forall i | d <= i < |data| ensures x[a + i] == y[a + i] <==> And(mem[a + i], data[i]) == mem[a + i] {
      AndedAt(mem, a, data, a + i);
    }
    if forall i :: d <= i < |data| ==> And(mem[a + i], data[i]) == mem[a + i] {
      forall i | 0 <= i < |mem| ensures x[i] == y[i] {
        if d <= i - a < |data| { assert And(mem[a + (i - a)], data[i - a]) == mem[a + (i - a)]; }
      }
    }
  }

  /** After a write the range holds the data exactly when no bit had to go from 0 to 1. */
  lemma WriteExact(mem: Bytes, a: nat, data: Bytes)
    requires a + |data| <= |mem|
    ensures Anded(mem, a, data)[a..a + |data|] == data <==> forall i :: 0 <= i < |data| ==> Covers(mem[a + i], data[i])
  {
    var m := Anded(mem, a, data);
    forall i | 0 <= i < |data| ensures m[a..a + |data|][i] == data[i] <==> Covers(mem[a + i], data[i]) {
      assert m[a..a + |data|][i] == m[a + i];
      AndedAt(mem, a, data, a + i);
      AndKeeps(mem[a + i], data[i]);
    }
    if m[a..a + |data|] == data {
      forall i | 0 <= i < |data| ensures Covers(mem[a + i], data[i]) { assert m[a..a + |data|][i] == data[i]; }
    }
  }

  /** Erasing a block and then writing inside it leaves exactly the data there, and every byte outside
      the block as it was. */
  lemma RoundTrip(mem: Bytes, a: nat, data: Bytes)
    requires a + |data| <= |mem| && a % BLOCK + |data| <= BLOCK
    ensures var m := Anded(Erased(mem, a), a, data);
      && m[a..a + |data|] == data
      && forall i :: 0 <= i < |mem| && i / BLOCK != a / BLOCK ==> m[i] == mem[i]
  {
    var e := Erased(mem, a);
    var m := Anded(e, a, data);
    forall i | 0 <= i < |data| ensures m[a + i] == data[i] {
      assert (a + i) / BLOCK == a / BLOCK;
      assert Mask(8) == 256;
      AndedAt(e, a, data, a + i);
      AndOnes(8, data[i]);
    }
    forall i | 0 <= i < |mem| && i / BLOCK != a / BLOCK ensures m[i] == mem[i] {
      assert !(a <= i < a + |data|);
      AndedAt(e, a, data, i);
    }
  }

  /** The first position where the two differ, or the length of the second. */
  function FirstDiff(x: Bytes, y: Bytes): (i: nat)
    requires |y| <= |x|
    ensures i <= |y| && x[..i] == y[..i] && (i < |y| ==> x[i] != y[i])
  {
    if y == [] || x[0] != y[0] then 0 else
      var i := 1 + FirstDiff(x[1..], y[1..]);
      assert x[..i] == [x[0]] + x[1..][..i - 1] && y[..i] == [y[0]] + y[1..][..i - 1];
      i
  }

  function Noise(noise: nat -> Byte, n: nat): (r: Bytes)
    ensures |r| == n
  {
    if n == 0 then [] else Noise(noise, n - 1) + [noise(n - 1)]
  }

  // --- which calls of the hardware layer matter ---

  /** The five calls of one WritePage, the first being number c. */
  predicate PageDone(hal: nat -> bool, c: nat) { hal(c) && hal(c + 1) && hal(c + 2) && hal(c + 3) && hal(c + 4) }

  /** Those that decide whether its n bytes reach the chip: the ready poll does not, and a transfer that
      reports failure may have moved them all. */
  predicate PageSent(hal: nat -> bool, cut: nat -> nat, c: nat, n: nat) {
    hal(c) && hal(c + 1) && hal(c + 2) && (hal(c + 3) || cut(c + 3) >= n)
  }

  /** The number of the first call for page q, if a write starting at a makes call c first. */
  function CallFor(c: nat, a: nat, q: nat): nat
    requires a / PAGE <= q
  {
    c + 5 * (q - a / PAGE)
  }

  /** The pages from that of a up to, but not including, page q are done. */
  ghost predicate DoneBefore(hal: nat -> bool, c: nat, a: nat, q: nat) {
    forall p :: a / PAGE <= p < q ==> PageDone(hal, CallFor(c, a, p))
  }

  /** Every call succeeds that a write of n bytes at a makes from call c on. */
  ghost predicate AllDone(hal: nat -> bool, c: nat, a: nat, n: nat)
    requires n > 0
  {
    DoneBefore(hal, c, a, (a + n - 1) / PAGE + 1)
  }

  /** Every page but the last is done, and the bytes of the last one are sent. */
  ghost predicate AllSent(hal: nat -> bool, cut: nat -> nat, c: nat, a: nat, n: nat)
    requires n > 0
  {
    var last := (a + n - 1) / PAGE;
    DoneBefore(hal, c, a, last) && PageSent(hal, cut, CallFor(c, a, last), if last * PAGE <= a then n else a + n - last * PAGE)
  }

  /** A write from a to end stands at `addr`, with `size` bytes to go on page q. */
  ghost predicate At(a: nat, addr: nat, end: nat, size: nat, q: nat) {
    && a <= addr <= end && a < end && a / PAGE <= q
    && if addr < end then Chunk(addr, size, end) && q == addr / PAGE && (addr > a ==> addr % PAGE == 0) else q == (end - 1) / PAGE + 1
  }

  lemma Advance(a: nat, addr: nat, end: nat, size: nat, q: nat)
    requires At(a, addr, end, size, q) && addr < end
    ensures addr + size <= end && OnOnePage(addr, size) && size > 0
    ensures At(a, addr + size, end, NextSize(addr + size, end), q + 1)
  {
    NextChunk(addr, size, end);
  }

  lemma DoneOne(hal: nat -> bool, c: nat, a: nat, q: nat)
    requires a / PAGE <= q && DoneBefore(hal, c, a, q)
    ensures PageDone(hal, CallFor(c, a, q)) ==> DoneBefore(hal, c, a, q + 1) && CallFor(c, a, q + 1) == CallFor(c, a, q) + 5
  {
  }

  lemma DoneAll(hal: nat -> bool, cut: nat -> nat, c: nat, a: nat, n: nat, q: nat)
    requires n > 0 && q == (a + n - 1) / PAGE + 1 && DoneBefore(hal, c, a, q)
    ensures AllDone(hal, c, a, n) && AllSent(hal, cut, c, a, n)
  {
    assert PageDone(hal, CallFor(c, a, q - 1));
  }

  /** A write that stops at page q, which has got k of its bytes, is complete only if that is the last. */
  lemma FailsHere(hal: nat -> bool, cut: nat -> nat, c: nat, a: nat, n: nat, q: nat, size: nat, addr: nat, k: nat)
    requires At(a, addr, a + n, size, q) && addr < a + n && DoneBefore(hal, c, a, q) && k <= size
    requires !PageDone(hal, CallFor(c, a, q)) && (k == size <==> PageSent(hal, cut, CallFor(c, a, q), size))
    ensures !AllDone(hal, c, a, n) && (addr - a + k == n <==> AllSent(hal, cut, c, a, n))
  {
    NextChunk(addr, size, a + n);
    var last := (a + n - 1) / PAGE;
    if addr + size == a + n {
      assert q == last;
    } else {
      assert q < last;
    }
  }

  // --- what Verify looks at ---

  /** The first |slice| bytes of Verify_Data after the read: `ok1` and `ok2` are the results of its
      command and its transfer, `moved` what a failing transfer moved. */
  function Seen(ok1: bool, ok2: bool, busy: bool, moved: nat, noise: nat -> Byte, slice: Bytes, stale: Bytes): (r: Bytes)
    requires |slice| == |stale|
    ensures |r| == |slice|
  {
    if !ok1 then stale else
      var answer, c := if busy then Noise(noise, |slice|) else slice, if ok2 || moved > |slice| then |slice| else moved;
      answer[..c] + stale[c..]
  }

  /** Verify says "equal" exactly when the range is equal. */
  ghost predicate Right(ok1: bool, ok2: bool, busy: bool, moved: nat, noise: nat -> Byte, slice: Bytes, stale: Bytes, buf: Bytes)
    requires |slice| == |stale| == |buf|
  {
    FirstDiff(Seen(ok1, ok2, busy, moved, noise, slice, stale), buf) == |buf| <==> slice == buf
  }

  ghost predicate Trusted(ok1: bool, ok2: bool, busy: bool, moved: nat, noise: nat -> Byte, n: nat) {
    forall slice: Bytes, stale: Bytes, buf: Bytes :: |slice| == |stale| == |buf| == n ==> Right(ok1, ok2, busy, moved, noise, slice, stale, buf)
  }

  /** `i` is where what was read first differs from `buf`; and it is where the chip does, if the read
      brought all of it. */
  ghost predicate Answers(ok1: bool, ok2: bool, busy: bool, moved: nat, noise: nat -> Byte, slice: Bytes, stale: Bytes, buf: Bytes, i: int)
    requires |slice| == |stale| == |buf|
  {
    && i == FirstDiff(Seen(ok1, ok2, busy, moved, noise, slice, stale), buf)
    && (ok1 && !busy && (ok2 || moved >= |buf|) ==> i == FirstDiff(slice, buf) && (i == |buf| <==> slice == buf))
  }

  lemma SeenDiff(ok1: bool, ok2: bool, busy: bool, moved: nat, noise: nat -> Byte, slice: Bytes, stale: Bytes, buf: Bytes, after: Bytes)
    requires |slice| == |buf| <= |stale|
    requires after == Seen(ok1, ok2, busy, moved, noise, slice, stale[..|buf|]) + stale[|buf|..]
    ensures Answers(ok1, ok2, busy, moved, noise, slice, stale[..|buf|], buf, FirstDiff(after, buf))
  {
    var front := stale[..|buf|];
    var x := Seen(ok1, ok2, busy, moved, noise, slice, front);
    DiffFront(x, stale[|buf|..], buf);
    if ok1 && !busy && (ok2 || moved >= |buf|) {
      SeenAll(ok2, moved, noise, slice, front);
      DiffNone(slice, buf);
    }
  }

  lemma SeenAll(ok2: bool, moved: nat, noise: nat -> Byte, slice: Bytes, stale: Bytes)
    requires |slice| == |stale| && (ok2 || moved >= |slice|)
    ensures Seen(true, ok2, false, moved, noise, slice, stale) == slice
  {
    assert slice[..|slice|] + stale[|slice|..] == slice;
  }

  function Fill(n: nat, b: Byte): (r: Bytes)
    ensures |r| == n && forall i :: 0 <= i < n ==> r[i] == b
  {
    if n == 0 then [] else Fill(n - 1, b) + [b]
  }

  /** Verify can be trusted, whatever memory and buffers hold, exactly when the chip is idle, its read
      command is accepted, and the transfer succeeds or has moved everything. */
  lemma VerifyTrusted(ok1: bool, ok2: bool, busy: bool, moved: nat, noise: nat -> Byte, n: nat)
    requires n > 0
    ensures Trusted(ok1, ok2, busy, moved, noise, n) <==> ok1 && !busy && (ok2 || moved >= n)
  {
    if ok1 && !busy && (ok2 || moved >= n) {
      forall slice: Bytes, stale: Bytes, buf: Bytes | |slice| == |stale| == |buf| == n
        ensures Right(ok1, ok2, busy, moved, noise, slice, stale, buf)
      {
        assert Seen(ok1, ok2, busy, moved, noise, slice, stale) == slice;
        DiffNone(slice, buf);
      }
    } else {
      var stale := Fill(n, 1);
      var slice := if ok1 && busy && Noise(noise, n)[0] == 0 then Fill(n, 2) else Fill(n, 0);
      var buf := Seen(ok1, ok2, busy, moved, noise, slice, stale);
      DiffNone(buf, buf);
      Differs(ok1, ok2, busy, moved, noise, slice, stale, buf);
      assert !Right(ok1, ok2, busy, moved, noise, slice, stale, buf);
    }
  }

  lemma Differs(ok1: bool, ok2: bool, busy: bool, moved: nat, noise: nat -> Byte, slice: Bytes, stale: Bytes, buf: Bytes)
    requires |slice| == |stale| > 0 && buf == Seen(ok1, ok2, busy, moved, noise, slice, stale)
    requires (forall i :: 0 <= i < |slice| ==> slice[i] != stale[i]) && !(ok1 && !busy && (ok2 || moved >= |slice|))
    requires busy && ok1 ==> slice[0] != Noise(noise, |slice|)[0]
    ensures buf != slice
  {
    if !ok1 {
      assert buf[0] == stale[0];
    } else if busy {
      var c := if ok2 || moved > |slice| then |slice| else moved;
      assert c == 0 ==> buf[0] == stale[0];
      assert c > 0 ==> buf[0] == Noise(noise, |slice|)[0];
    } else {
      assert buf[moved] == stale[moved];
    }
  }

  // --- the driver ---

  /** `hal(k)` tells whether the k-th call of the hardware layer succeeds, and `cut(k)` how many bytes
      it moves before it fails. */
  class Driver {
    const hal: nat -> bool
    const cut: nat -> nat
    const noise: nat -> Byte     // what a busy chip answers to a read
    var calls: nat
    var mem: Bytes
    var wel: bool
    var busy: bool
    var verifyData: Bytes
    ghost var log: seq<(nat, nat)>   // address and length of every program command

    ghost predicate Valid()
      reads this
    {
      (busy ==> !wel) && |verifyData| == VERIFY_MAX
    }

    constructor (hal: nat -> bool, cut: nat -> nat, noise: nat -> Byte, mem: Bytes, verifyData: Bytes)
      requires |verifyData| == VERIFY_MAX
      ensures Valid() && !busy && calls == 0 && this.hal == hal && this.cut == cut && this.noise == noise
      ensures this.mem == mem && this.verifyData == verifyData
    {
      this.hal, this.cut, this.noise := hal, cut, noise;
      calls, wel, busy := 0, false, false;
      this.mem, this.verifyData, log := mem, verifyData, [];
    }

    /** The hardware layer fails no call from now on. */
    ghost predicate Reliable(from: nat)
    {
      forall k :: from <= k ==> hal(k)
    }

    method Call() returns (ok: bool)
      modifies this`calls
      ensures ok == hal(old(calls)) && calls == old(calls) + 1
    {
      ok := hal(calls);
      calls := calls + 1;
    }

    /** QSPI_W25Qxx_AutoPollingMemReady: success means that the chip has finished. */
    method AutoPollingMemReady() returns (ok: bool)
      modifies this`calls, this`busy
      ensures ok == hal(old(calls)) && calls == old(calls) + 1 && busy == (old(busy) && !ok)
    {
      ok := Call();
      if ok {
        busy := false;
      }
    }

    /** QSPI_W25Qxx_WriteEnable: success means that the chip will accept the next command. */
    method WriteEnable() returns (ok: bool)
      requires Valid()
      modifies this`calls, this`wel
      ensures Valid() && calls > old(calls) && (ok ==> wel && !busy && calls == old(calls) + 2)
      ensures ok <==> hal(old(calls)) && hal(old(calls) + 1) && !busy
    {
      ok := Call();
      if !ok {
        return;
      }
      if !busy {
        wel := true;
      }
      ok := Call();
      ok := ok && wel;
    }

    /** QSPI_W25Qxx_BlockErase_64K */
    method BlockErase64K(a: nat) returns (ok: bool)
      requires Valid() && a < |mem|
      modifies this`calls, this`wel, this`busy, this`mem
      ensures Valid() && calls > old(calls)
      ensures mem == old(mem) || mem == Erased(old(mem), a)
      ensures ok ==> mem == Erased(old(mem), a) && !busy
      ensures Reliable(old(calls)) && !old(busy) ==> ok
    {
      ok := WriteEnable();
      if !ok {
        return;
      }
      ok := Call();
      if !ok {
        return;
      }
      mem, wel, busy := Erased(mem, a), false, true;
      ok := AutoPollingMemReady();
    }

    /** QSPI_W25Qxx_WritePage: the first `k` bytes reach the chip, all of them on success. */
    method WritePage(data: Bytes, a: nat) returns (ok: bool, ghost k: nat)
      requires Valid() && 0 < |data| && a + |data| <= |mem| && OnOnePage(a, |data|)
      modifies this`calls, this`wel, this`busy, this`mem, this`log
      ensures Valid() && calls > old(calls)
      ensures k <= |data| && mem == Anded(old(mem), a, data[..k]) && (ok ==> k == |data| && !busy && calls == old(calls) + 5)
      ensures log == old(log) || log == old(log) + [(a, |data|)]
      ensures ok <==> !old(busy) && PageDone(hal, old(calls))
      ensures k == |data| <==> !old(busy) && PageSent(hal, cut, old(calls), |data|)
    {
      k := 0;
      ghost var c := calls;
      assert Anded(mem, a, data[..0]) == mem;
      ok := WriteEnable();
      if ok {
        ok, k := SendPage(data, a, c);
      }
    }

    /** The command, the data and the wait, once the chip accepts it. */
    method SendPage(data: Bytes, a: nat, ghost c: nat) returns (ok: bool, ghost k: nat)
      requires Valid() && wel && calls == c + 2 && 0 < |data| && a + |data| <= |mem| && OnOnePage(a, |data|)
      modifies this`calls, this`wel, this`busy, this`mem, this`log
      ensures Valid() && calls > c
      ensures k <= |data| && mem == Anded(old(mem), a, data[..k]) && (ok ==> k == |data| && !busy && calls == c + 5)
      ensures log == old(log) || log == old(log) + [(a, |data|)]
      ensures ok <==> hal(c + 2) && hal(c + 3) && hal(c + 4)
      ensures k == |data| <==> hal(c + 2) && (hal(c + 3) || cut(c + 3) >= |data|)
    {
      k := 0;
      assert Anded(mem, a, data[..0]) == mem;
      ok := Call();
      if !ok {
        return;
      }
      log := log + [(a, |data|)];
      var n := cut(calls);
      ok := Call();
      if ok || n > |data| {
        n := |data|;
      }
      ProgramOnPage(mem, a, data[..n]);
      mem := Program(mem, a, data[..n]);
      k := n;
      if n > 0 {
        wel, busy := false, true;
      }
      if !ok {
        return;
      }
      ok := AutoPollingMemReady();
    }

    /** One round of the loop of WriteBuffer: memory `m` with what was written before, and now the chunk. */
    method WriteChunk(buffer: Bytes, a: nat, addr: nat, size: nat, ghost m: Bytes, ghost done: nat, ghost from: nat) returns (ok: bool, ghost k: nat)
      requires Valid() && addr == a + done && addr + size <= a + |buffer| <= |m| && 0 < size && OnOnePage(addr, size)
      requires mem == Anded(m, a, buffer[..done]) && OnPages(log, from)
      modifies this`calls, this`wel, this`busy, this`mem, this`log
      ensures Valid() && calls > old(calls) && k <= size && mem == Anded(m, a, buffer[..done + k]) && OnPages(log, from)
      ensures ok ==> k == size && !busy && calls == old(calls) + 5
      ensures ok <==> !old(busy) && PageDone(hal, old(calls))
      ensures k == size <==> !old(busy) && PageSent(hal, cut, old(calls), size)
    {
      ok, k := WritePage(buffer[addr - a..addr - a + size], addr);
      Joined(m, a, buffer, done, size, k);
    }

    /** The state of the loop of WriteBuffer, which found memory `m`, an idle chip or not, and made call
        c first. */
    ghost predicate Going(ok: bool, buffer: Bytes, a: nat, addr: nat, size: nat, q: nat, done: nat, idle: bool, c: nat, m: Bytes, from: nat)
      reads this
    {
      && Valid() && calls >= c && OnPages(log, from) && 0 < |buffer| && a + |buffer| <= |m| && done <= |buffer| && mem == Anded(m, a, buffer[..done])
      && (if ok then
            && At(a, addr, a + |buffer|, size, q) && done == addr - a && (addr > a ==> idle) && busy == !idle
            && DoneBefore(hal, c, a, q) && calls == CallFor(c, a, q)
          else !(idle && AllDone(hal, c, a, |buffer|)) && (done == |buffer| <==> idle && AllSent(hal, cut, c, a, |buffer|)))
    }

    /** One round of that loop. */
    method Round(buffer: Bytes, a: nat, addr: nat, size: nat, ghost q: nat, ghost done: nat, ghost idle: bool, ghost c: nat, ghost m: Bytes, ghost from: nat)
      returns (ok: bool, addr': nat, size': nat, ghost q': nat, ghost done': nat)
      requires Going(true, buffer, a, addr, size, q, done, idle, c, m, from) && addr < a + |buffer|
      modifies this`calls, this`wel, this`busy, this`mem, this`log
      ensures Going(ok, buffer, a, addr', size', q', done', idle, c, m, from)
      ensures if ok then addr < addr' <= a + |buffer| else addr' == addr
    {
      Advance(a, addr, a + |buffer|, size, q);
      DoneOne(hal, c, a, q);
      ghost var k;
      ok, k := WriteChunk(buffer, a, addr, size, m, done, from);
      addr', size', q', done' := addr, size, q, done + k;
      if ok {
        q' := q + 1;
        addr' := addr + size;
        size' := NextSize(addr', a + |buffer|);
      } else if idle {
        FailsHere(hal, cut, c, a, |buffer|, q, size, addr, k);
      }
    }

    /** QSPI_W25Qxx_WriteBuffer: the memory has exactly the first `done` bytes of the buffer written into
        it, all of them on success, so that a failing page leaves all later ones untouched; and no
        program command crosses the end of a page. */
    method WriteBuffer(buffer: Bytes, a: nat) returns (ok: bool, ghost done: nat)
      requires Valid() && 0 < |buffer| && a + |buffer| <= |mem|
      modifies this`calls, this`wel, this`busy, this`mem, this`log
      ensures Valid() && calls >= old(calls)
      ensures done <= |buffer| && mem == Anded(old(mem), a, buffer[..done])
      ensures ok ==> done == |buffer| && mem == Anded(old(mem), a, buffer) && !busy
      ensures OnPages(log, |old(log)|)
      ensures ok <==> !old(busy) && AllDone(hal, old(calls), a, |buffer|)
      ensures done == |buffer| <==> !old(busy) && AllSent(hal, cut, old(calls), a, |buffer|)
    {
      var size: nat := PAGE - a % PAGE;
      if size > |buffer| {
        size := |buffer|;
      }
      var addr: nat, end: nat := a, a + |buffer|;
      done, ok := 0, true;
      ghost var idle, c, q: nat, m, from := !busy, calls, a / PAGE, mem, |log|;
      Nothing(mem, a, buffer);
      while ok && addr < end
        invariant addr <= end == a + |buffer| && Going(ok, buffer, a, addr, size, q, done, idle, c, m, from)
        decreases end - addr, ok
      {
        ok, addr, size, q, done := Round(buffer, a, addr, size, q, done, idle, c, m, from);
      }
      if ok { DoneAll(hal, cut, c, a, |buffer|, q); }
      assert buffer[..|buffer|] == buffer;
    }

    /** QSPI_W25Qxx_ReadBuffer into the front of verifyData. */
    method ReadBuffer(a: nat, n: nat) returns (ok: bool)
      requires Valid() && a + n <= |mem| && n <= VERIFY_MAX
      modifies this`calls, this`busy, this`verifyData
      ensures Valid() && calls > old(calls)
      ensures ok <==> hal(old(calls)) && hal(old(calls) + 1) && hal(old(calls) + 2)
      ensures verifyData ==
        Seen(hal(old(calls)), hal(old(calls) + 1), old(busy), cut(old(calls) + 1), noise, mem[a..a + n], old(verifyData)[..n]) + old(verifyData)[n..]
    {
      ok := Call();
      if !ok {
        return;
      }
      var c := cut(calls);
      ok := Call();
      if ok || c > n {
        c := n;
      }
      var answer: Bytes := if busy then Noise(noise, n) else mem[a..a + n];
      verifyData := answer[..c] + verifyData[c..];
      if !ok {
        return;
      }
      ok := AutoPollingMemReady();
    }

    // --- FlashPrg.c ---

    /** EraseSector */
    method EraseSector(adr: nat) returns (r: int)
      requires Valid() && MAPPED <= adr < MAPPED + |mem|
      modifies this`calls, this`wel, this`busy, this`mem
      ensures Valid() && calls >= old(calls) && r in {0, 1} && (r == 0 ==> mem == Erased(old(mem), adr - MAPPED) && !busy)
      ensures Reliable(old(calls)) && !old(busy) ==> r == 0
    {
      var ok := BlockErase64K(adr - MAPPED);
      r := if ok then 0 else 1;
    }

    /** ProgramPage, which reports success whatever came of the write: all of the data has been written
        exactly when the chip was idle and the calls succeeded that AllSent names. */
    method ProgramPage(adr: nat, buf: Bytes) returns (r: int, ghost done: nat)
      requires Valid() && 0 < |buf| && MAPPED <= adr && adr + |buf| <= MAPPED + |mem|
      modifies this`calls, this`wel, this`busy, this`mem, this`log
      ensures Valid() && calls >= old(calls) && r == 0 && done <= |buf| && mem == Anded(old(mem), adr - MAPPED, buf[..done])
      ensures done == |buf| <==> !old(busy) && AllSent(hal, cut, old(calls), adr - MAPPED, |buf|)
      ensures Reliable(old(calls)) && !old(busy) ==> mem == Anded(old(mem), adr - MAPPED, buf) && !busy
    {
      assert Reliable(calls) ==> AllDone(hal, calls, adr - MAPPED, |buf|);
      var _, d := WriteBuffer(buf, adr - MAPPED);
      done := d;
      r := 0;
    }

    /** Verify returns the first address where what it read differs, and adr + sz if there is none; the
        result of the read itself is not looked at.  VerifyTrusted says when the answer is right. */
    method Verify(adr: nat, buf: Bytes) returns (r: nat)
      requires Valid() && |buf| <= VERIFY_MAX && MAPPED <= adr && adr + |buf| <= MAPPED + |mem|
      modifies this`calls, this`busy, this`verifyData
      ensures Valid()
      ensures var a, c := adr - MAPPED, old(calls);
        Answers(hal(c), hal(c + 1), old(busy), cut(c + 1), noise, mem[a..a + |buf|], old(verifyData)[..|buf|], buf, r - adr)
    {
      var i := Compared(adr - MAPPED, buf, calls);
      return adr + i;
    }

    method Compared(a: nat, buf: Bytes, ghost c: nat) returns (i: nat)
      requires Valid() && |buf| <= VERIFY_MAX && a + |buf| <= |mem| && c == calls
      modifies this`calls, this`busy, this`verifyData
      ensures Valid()
      ensures Answers(hal(c), hal(c + 1), old(busy), cut(c + 1), noise, mem[a..a + |buf|], old(verifyData)[..|buf|], buf, i)
    {
      var _ := ReadBuffer(a, |buf|);
      i := Compare(verifyData, buf);
      SeenDiff(hal(c), hal(c + 1), old(busy), cut(c + 1), noise, mem[a..a + |buf|], old(verifyData), buf, verifyData);
    }

    /** How a programming tool uses the three entries: from an idle chip and with a hardware layer that
        does not fail, erasing a sector, writing inside it and verifying always succeeds, and leaves the
        rest of the chip alone. */
    method Burn(adr: nat, buf: Bytes) returns (r: nat)
      requires Valid() && 0 < |buf| <= VERIFY_MAX && MAPPED <= adr && adr + |buf| <= MAPPED + |mem|
      requires (adr - MAPPED) % BLOCK + |buf| <= BLOCK && Reliable(calls) && !busy
      modifies this
      ensures |mem| == |old(mem)| && r == adr + |buf| && mem[adr - MAPPED..adr - MAPPED + |buf|] == buf
      ensures forall i :: 0 <= i < |mem| && i / BLOCK != (adr - MAPPED) / BLOCK ==> mem[i] == old(mem)[i]
    {
      RoundTrip(mem, adr - MAPPED, buf);
      var _ := EraseSector(adr);
      assert Reliable(calls);
      var _, _ := ProgramPage(adr, buf);
      assert Reliable(calls) && mem == Anded(Erased(old(mem), adr - MAPPED), adr - MAPPED, buf);
      r := Verify(adr, buf);
    }
  }

  /** A run in which ProgramPage reports success and nothing has been written. */
  method ProgramPageFails() returns (d: Driver, r: int)
    ensures r == 0 && d.mem == [ERASED] && Anded([ERASED], 0, [0]) != d.mem
  {
    d := new Driver(_ => false, _ => 0, _ => 0, [ERASED], Fill(VERIFY_MAX, 0));
    AndedAt([ERASED], 0, [0], 0);
    ghost var done;
    r, done := d.ProgramPage(MAPPED, [0]);
    assert !PageSent(d.hal, d.cut, 0, 1);
  }

  /** A run in which Verify finds the chip equal to data that are not there, because the read was refused
      and its buffer still held them. */
  method VerifyFails() returns (d: Driver, r: nat)
    ensures d.mem == [ERASED] && r == MAPPED + 1
  {
    d := new Driver(_ => false, _ => 0, _ => 0, [ERASED], Fill(VERIFY_MAX, 0));
    r := d.Verify(MAPPED, [0]);
    assert Fill(VERIFY_MAX, 0)[..1] == [0];
    DiffNone([0], [0]);
  }

  /** The comparison loop of Verify. */
  method Compare(x: Bytes, y: Bytes) returns (i: nat)
    requires |y| <= |x|
    ensures i == FirstDiff(x, y)
  {
    i := 0;
    while i < |y|
      invariant 0 <= i <= |y|
      invariant FirstDiff(x, y) == i + FirstDiff(x[i..], y[i..])
    {
      if x[i] != y[i] {
        return;
      }
      assert x[i..][1..] == x[i + 1..] && y[i..][1..] == y[i + 1..];
      i := i + 1;
    }
  }

  lemma DiffNone(x: Bytes, y: Bytes)
    requires |x| == |y|
    ensures FirstDiff(x, y) == |y| <==> x == y
  {
    var i := FirstDiff(x, y);
    if i == |y| { assert x == x[..i] && y == y[..i]; }
  }

  lemma {:induction false} DiffFront(x: Bytes, rest: Bytes, y: Bytes)
    requires |y| <= |x|
    ensures FirstDiff(x + rest, y) == FirstDiff(x, y)
    decreases |y|
  {
    if y != [] && x[0] == y[0] {
      assert (x + rest)[1..] == x[1..] + rest;
      DiffFront(x[1..], rest, y[1..]);
    }
  }
}
