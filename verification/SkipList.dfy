/** The timer list of timer.c: rows of a skip list, row `levels - 1` at the bottom holding every
    pending timer, compared by 32-bit timeout ticks. */
module SkipList {
  import opened Seqs
  import opened TimerModel
  import opened TimerEffects

  const TICKS: nat := 0x1_0000_0000

  function Sub32(a: int, b: int): (d: nat) { (a - b) % TICKS }

  /** The insertion test of rt_timer_start: `t` times out strictly after `x`. */
  predicate Later(t: int, x: int) { Sub32(t, x) != 0 && Sub32(t, x) < HALF }

  /** The expiry test of rt_timer_check. */
  predicate Reached(now: int, t: int) { Sub32(now, t) < HALF }

  /** Circular comparison is comparison, as long as the deadlines are close enough. */
  lemma LaterIsAfter(a: nat, b: nat)
    requires a - b < HALF && b - a <= TICKS - HALF
    ensures Later(a % TICKS, b % TICKS) <==> a > b
  {
    Sub32Mod(a, b);
    if a >= b {
      assert (a - b) % TICKS == a - b;
    } else {
      assert (a - b) % TICKS == a - b + TICKS;
    }
  }

  lemma ReachedIsDue(now: nat, d: nat)
    requires now - d < HALF && d - now <= TICKS - HALF
    ensures Reached(now % TICKS, d % TICKS) <==> d <= now
  {
    Sub32Mod(now, d);
    if now >= d {
      assert (now - d) % TICKS == now - d;
    } else {
      assert (now - d) % TICKS == now - d + TICKS;
    }
  }

  lemma Sub32Mod(a: int, b: int)
    ensures Sub32(a % TICKS, b % TICKS) == (a - b) % TICKS
  {
    var qa, qb := a / TICKS, b / TICKS;
    assert a % TICKS - b % TICKS == a - b - TICKS * (qa - qb);
    ModShift(a - b, qb - qa);
  }

  lemma ModShift(a: int, k: int)
    ensures (a + TICKS * k) % TICKS == a % TICKS
  {
    var q, r := a / TICKS, a % TICKS;
    assert a + TICKS * k == TICKS * (q + k) + r;
  }

  // ---- rows ---------------------------------------------------------------------------------

  function HeightOf(height: map<int, nat>, id: int): nat { if id in height then height[id] else 0 }

  /** The timers of `q` that reach at least height `k`, in queue order. */
  function Row(q: seq<Entry>, height: map<int, nat>, k: nat): seq<int> {
    if q == [] then [] else
      (if HeightOf(height, q[0].id) >= k then [q[0].id] else []) + Row(q[1..], height, k)
  }

  lemma RowCons(x: Entry, q: seq<Entry>, height: map<int, nat>, k: nat)
    ensures Row([x] + q, height, k) == (if HeightOf(height, x.id) >= k then [x.id] else []) + Row(q, height, k)
  {
    assert ([x] + q)[1..] == q;
  }

  lemma {:induction false} RowConcat(a: seq<Entry>, b: seq<Entry>, height: map<int, nat>, k: nat)
    ensures Row(a + b, height, k) == Row(a, height, k) + Row(b, height, k)
    decreases |a|
  {
    if a == [] {
      assert a + b == b;
    } else {
      var x, t := a[0], a[1..];
      var head := if HeightOf(height, x.id) >= k then [x.id] else [];
      assert a == [x] + t && a + b == [x] + (t + b);
      RowCons(x, t, height, k);
      RowCons(x, t + b, height, k);
      RowConcat(t, b, height, k);
      Assoc(head, Row(t, height, k), Row(b, height, k));
    }
  }

  lemma {:induction false} RowSame(q: seq<Entry>, height: map<int, nat>, height': map<int, nat>, k: nat)
    requires forall e :: e in q ==> HeightOf(height, e.id) == HeightOf(height', e.id)
    ensures Row(q, height, k) == Row(q, height', k)
  {
    if q != [] {
      assert q[0] in q;
      assert forall e :: e in q[1..] ==> e in q;
      RowSame(q[1..], height, height', k);
    }
  }

  lemma {:induction false} RowHas(q: seq<Entry>, height: map<int, nat>, k: nat, e: Entry)
    requires e in q && HeightOf(height, e.id) >= k
    ensures e.id in Row(q, height, k)
  {
    if q[0] != e { RowHas(q[1..], height, k, e); }
  }

  lemma {:induction false} RowEntry(q: seq<Entry>, height: map<int, nat>, k: nat, id: int) returns (e: Entry)
    requires id in Row(q, height, k)
    ensures e in q && e.id == id && HeightOf(height, id) >= k
  {
    if q[0].id == id && HeightOf(height, id) >= k {
      e := q[0];
    } else {
      e := RowEntry(q[1..], height, k, id);
    }
  }

  lemma RowAbsent(q: seq<Entry>, height: map<int, nat>, k: nat, id: int)
    requires NotQueued(q, id)
    ensures id !in Row(q, height, k)
  {
    if id in Row(q, height, k) {
      var e := RowEntry(q, height, k, id);
    }
  }

  lemma TailNotQueued(q: seq<Entry>)
    requires DistinctIds(q) && q != []
    ensures NotQueued(q[1..], q[0].id) && DistinctIds(q[1..])
  {
    forall e | e in q[1..] ensures e.id != q[0].id {
      var i := IndexOf(q[1..], e);
      assert q[i + 1] == e;
    }
  }

  /** Every row is a subsequence of the row below it. */
  ghost predicate Subsequence(a: seq<int>, b: seq<int>) {
    a == [] || (b != [] && ((a[0] == b[0] && Subsequence(a[1..], b[1..])) || Subsequence(a, b[1..])))
  }

  lemma {:induction false} RowsNest(q: seq<Entry>, height: map<int, nat>, k: nat)
    ensures Subsequence(Row(q, height, k + 1), Row(q, height, k))
  {
    if q != [] {
      RowsNest(q[1..], height, k);
      var x, a, b := q[0].id, Row(q[1..], height, k + 1), Row(q[1..], height, k);
      assert ([x] + a)[1..] == a && ([x] + b)[1..] == b && [] + a == a && [] + b == b;
    }
  }

  /** A row lists its timers in queue order. */
  lemma {:induction false} RowInOrder(q: seq<Entry>, height: map<int, nat>, k: nat, i: nat, j: nat) returns (a: Entry, b: Entry)
    requires SortedQ(q) && i < j < |Row(q, height, k)|
    ensures a in q && b in q && a.id == Row(q, height, k)[i] && b.id == Row(q, height, k)[j] && Precedes(a, b)
  {
    var tail := q[1..];
    assert SortedQ(tail);
    var listed := HeightOf(height, q[0].id) >= k;
    assert Row(q, height, k) == (if listed then [q[0].id] else []) + Row(tail, height, k);
    if listed && i == 0 {
      a := q[0];
      b := RowEntry(tail, height, k, Row(tail, height, k)[j - 1]);
      assert q[IndexOf(tail, b) + 1] == b;
    } else {
      var d := if listed then 1 else 0;
      a, b := RowInOrder(tail, height, k, i - d, j - d);
      assert a in tail && b in tail;
    }
  }

  lemma {:induction false} RowWithout(q: seq<Entry>, height: map<int, nat>, k: nat, id: int)
    requires DistinctIds(q)
    ensures Row(Without(q, id), height, k) == Drop(Row(q, height, k), id)
  {
    if q != [] {
      TailNotQueued(q);
      var x, r := q[0].id, Row(q[1..], height, k);
      if x == id {
        RowWithoutHead(q, height, k);
      } else {
        RowWithout(q[1..], height, k, id);
        assert Without(q, id)[1..] == Without(q[1..], id);
        DropCons(r, x, id);
        assert [] + r == r;
      }
    }
  }

  lemma RowWithoutHead(q: seq<Entry>, height: map<int, nat>, k: nat)
    requires q != [] && NotQueued(q[1..], q[0].id)
    ensures Row(Without(q, q[0].id), height, k) == Drop(Row(q, height, k), q[0].id)
  {
    var x, r := q[0].id, Row(q[1..], height, k);
    WithoutAbsent(q[1..], x);
    RowAbsent(q[1..], height, k, x);
    DropCons(r, x, x);
    assert [] + r == r;
  }

  lemma {:induction false} RowDistinct(q: seq<Entry>, height: map<int, nat>, k: nat)
    requires DistinctIds(q)
    ensures Distinct(Row(q, height, k))
  {
    if q != [] {
      TailNotQueued(q);
      RowDistinct(q[1..], height, k);
      RowAbsent(q[1..], height, k, q[0].id);
    }
  }

  /** Where the new timer belongs in a row: behind the part of the row that is due no later. */
  ghost function Ahead(q: seq<Entry>, height: map<int, nat>, k: nat, e: Entry): nat {
    |Row(q[..Place(q, e)], height, k)|
  }

  lemma RowSplit(q: seq<Entry>, height: map<int, nat>, k: nat, e: Entry)
    ensures Row(q, height, k) == Row(q[..Place(q, e)], height, k) + Row(q[Place(q, e)..], height, k)
  {
    assert q == q[..Place(q, e)] + q[Place(q, e)..];
    RowConcat(q[..Place(q, e)], q[Place(q, e)..], height, k);
  }

  lemma RowInsert(q: seq<Entry>, e: Entry, height: map<int, nat>, h: nat, k: nat)
    requires NotQueued(q, e.id)
    ensures Ahead(q, height, k, e) <= |Row(q, height, k)|
    ensures var r := Row(q, height, k);
      Row(Insert(q, e), height[e.id := h], k) == if h >= k then InsertAt(r, Ahead(q, height, k, e), e.id) else r
  {
    RowInsertAt(q, e, height, h, k, Place(q, e), Insert(q, e));
  }

  lemma RowInsertAt(q: seq<Entry>, e: Entry, height: map<int, nat>, h: nat, k: nat, p: nat, r: seq<Entry>)
    requires NotQueued(q, e.id) && p <= |q| && r == InsertAt(q, p, e)
    ensures |Row(q[..p], height, k)| <= |Row(q, height, k)|
    ensures Row(r, height[e.id := h], k) ==
      if h >= k then InsertAt(Row(q, height, k), |Row(q[..p], height, k)|, e.id) else Row(q, height, k)
  {
    var a, b := q[..p], q[p..];
    assert q == a + b && r == a + ([e] + b);
    RowConcat(a, b, height, k);
    RowAround(a, b, e, height, h, k);
    Middle(Row(a, height, k), Row(b, height, k), e.id, h >= k);
  }

  lemma Middle(a: seq<int>, b: seq<int>, id: int, listed: bool)
    ensures a + ((if listed then [id] else []) + b) == if listed then InsertAt(a + b, |a|, id) else a + b
  {
    if listed { InsertMid(a, b, id); } else { assert [] + b == b; }
  }

  lemma RowAround(a: seq<Entry>, b: seq<Entry>, e: Entry, height: map<int, nat>, h: nat, k: nat)
    requires NotQueued(a, e.id) && NotQueued(b, e.id)
    ensures Row(a + ([e] + b), height[e.id := h], k) ==
            Row(a, height, k) + ((if h >= k then [e.id] else []) + Row(b, height, k))
  {
    var height' := height[e.id := h];
    RowConcat(a, [e] + b, height', k);
    assert ([e] + b)[1..] == b;
    RowSame(a, height, height', k);
    RowSame(b, height, height', k);
  }

  /** Dropping one row keeps the walk on the near side of the insertion point. */
  lemma DropDown(q: seq<Entry>, height: map<int, nat>, k: nat, e: Entry, p: nat)
    requires 0 < k && 0 < p <= Ahead(q, height, k, e) && p <= |Row(q, height, k)|
    ensures var x := Row(q, height, k)[p - 1];
      x in Row(q, height, k - 1) && 1 + IndexOf(Row(q, height, k - 1), x) <= Ahead(q, height, k - 1, e)
  {
    var m := Place(q, e);
    RowSplit(q, height, k, e);
    RowSplit(q, height, k - 1, e);
    var x := Row(q[..m], height, k)[p - 1];
    var f := RowEntry(q[..m], height, k, x);
    RowHas(q[..m], height, k - 1, f);
    IndexInPrefix(Row(q[..m], height, k - 1), Row(q[m..], height, k - 1), x);
  }

  /** The entry the walk looks at lies behind the insertion point exactly when it is due later. */
  lemma WalkTest(q: seq<Entry>, height: map<int, nat>, k: nat, e: Entry, p: nat) returns (f: Entry)
    requires SortedQ(q) && p < |Row(q, height, k)|
    ensures f in q && f.id == Row(q, height, k)[p]
    ensures Due(f) > Due(e) <==> p >= Ahead(q, height, k, e)
  {
    var m := Place(q, e);
    RowSplit(q, height, k, e);
    var id := Row(q, height, k)[p];
    if p < Ahead(q, height, k, e) {
      f := RowEntry(q[..m], height, k, id);
      assert q[IndexOf(q[..m], f)] == f;
    } else {
      assert id in Row(q[m..], height, k);
      f := RowEntry(q[m..], height, k, id);
      var j := IndexOf(q[m..], f);
      assert q[m + j] == f;
      assert j > 0 ==> Precedes(q[m], q[m + j]);
    }
  }

  /** Every deadline of `q` is close enough to that of `e` for the circular comparison. */
  ghost predicate Near(q: seq<Entry>, e: Entry) {
    forall f :: f in q ==> Due(f) - Due(e) < HALF && Due(e) - Due(f) <= TICKS - HALF
  }

  /** No timer of the row times out later than one behind it. */
  ghost predicate InOrder(row: seq<int>, timeout: map<int, nat>) {
    forall i, j :: 0 <= i < j < |row| ==> NotLater(timeout, row[i], row[j])
  }

  predicate NotLater(timeout: map<int, nat>, a: int, b: int) {
    a in timeout && b in timeout && !Later(timeout[a], timeout[b])
  }

  /** The timer has entered the lowest `lvl - 1` rows. */
  ghost predicate Raised(was: seq<seq<int>>, rows: seq<seq<int>>, heads: seq<nat>, id: int, lvl: nat)
    requires |was| == |heads| && forall l :: 0 <= l < |was| ==> heads[l] <= |was[l]|
  {
    && |rows| == |was|
    && forall l :: 0 <= l < |was| ==> rows[l] == if |was| - l < lvl then InsertAt(was[l], heads[l], id) else was[l]
  }

  class TimerList {
    const levels: nat                    // RT_TIMER_SKIP_LIST_LEVEL
    const periodic: set<int>
    const calls: map<int, seq<Action>>
    ghost const late: nat
    var rows: seq<seq<int>>
    var timeout: map<int, nat>
    var initTick: map<int, nat>
    var active: set<int>
    var tick: nat
    var randomNr: nat
    ghost var s: State
    ghost var height: map<int, nat>

    ghost function Sys(): System { System(periodic, calls, late) }

    ghost predicate RowsOk(q: seq<Entry>)
      reads `rows, `height
    {
      |rows| == levels && forall l :: 0 <= l < levels ==> rows[l] == Row(q, height, levels - l)
    }

    ghost predicate TimersOk(q: seq<Entry>)
      reads `timeout, `initTick, `height
    {
      forall e :: e in q ==>
        && 1 <= HeightOf(height, e.id) <= levels
        && e.id in timeout && timeout[e.id] == Due(e) % TICKS
        && e.id in initTick && initTick[e.id] == e.n
    }

    /** The fields of a timer whose start is under way. */
    ghost predicate PendingOk(pending: map<int, Pending>)
      reads `timeout, `initTick
    {
      forall id :: id in pending ==>
        && id in initTick && initTick[id] == pending[id].n
        && (pending[id].Loaded? ==> id in timeout && timeout[id] == (pending[id].start + pending[id].n) % TICKS)
    }

    /** The rows and fields represent the queue `s.q` at tick `s.now`. */
    ghost predicate Wired()
      reads this
    {
      levels > 0 && tick == s.now % TICKS && active == s.active && RowsOk(s.q) && TimersOk(s.q) && PendingOk(s.pending)
    }

    ghost predicate Valid()
      reads this
    {
      Wired() && LegalSystem(Sys()) && Settled(Sys(), s)
    }

    /** rt_system_timer_init, before any timer is started. */
    constructor (levels: nat, y: System)
      requires levels > 0 && LegalSystem(y)
      ensures Valid() && this.levels == levels && Sys() == y && s == TimerModel.Fresh
    {
      this.levels, periodic, calls, late := levels, y.periodic, y.calls, y.late;
      rows := seq(levels, _ => []);
      timeout, initTick, active, tick, randomNr := map[], map[], {}, 0, 0;
      height, s := map[], TimerModel.Fresh;
    }

    /** Every row is a subsequence of the row below it, and lists timers in circular tick order: no timer
        times out later than one behind it. */
    lemma RowsSorted(l: nat)
      requires Valid() && l < levels
      ensures l + 1 < levels ==> Subsequence(rows[l], rows[l + 1])
      ensures InOrder(rows[l], timeout)
    {
      if l + 1 < levels { RowsNest(s.q, height, levels - (l + 1)); }
      var row := rows[l];
      forall i, j | 0 <= i < j < |row| ensures NotLater(timeout, row[i], row[j]) {
        var a, b := RowInOrder(s.q, height, levels - l, i, j);
        assert EntryOk(Sys(), s, s.now + 1, s.q[IndexOf(s.q, a)]) && EntryOk(Sys(), s, s.now + 1, s.q[IndexOf(s.q, b)]);
        LaterIsAfter(Due(a), Due(b));
      }
    }

    /** The bottom row is the queue. */
    lemma BottomIsQueue()
      requires Valid()
      ensures |rows[levels - 1]| == |s.q| && forall i :: 0 <= i < |s.q| ==> rows[levels - 1][i] == s.q[i].id
    {
      BottomRow(s.q, height);
    }

    /** _rt_timer_remove */
    method RemoveAll(id: int, ghost q: seq<Entry>)
      requires RowsOk(q) && DistinctIds(q)
      modifies `rows
      ensures RowsOk(Without(q, id))
    {
      for l := 0 to levels
        invariant |rows| == levels
        invariant forall m :: 0 <= m < levels ==>
          rows[m] == if m < l then Drop(Row(q, height, levels - m), id) else Row(q, height, levels - m)
      {
        rows := rows[l := Drop(rows[l], id)];
      }
      forall l | 0 <= l < levels ensures rows[l] == Row(Without(q, id), height, levels - l) {
        RowWithout(q, height, levels - l, id);
      }
    }

    /** One row of the search: advance while the next timer is not later than the new one. */
    method Walk(row: seq<int>, from: nat, x: nat, ghost q: seq<Entry>, ghost k: nat, ghost e: Entry) returns (p: nat)
      requires SortedQ(q) && TimersOk(q) && Near(q, e) && x == Due(e) % TICKS
      requires row == Row(q, height, k) && from <= Ahead(q, height, k, e)
      ensures p == Ahead(q, height, k, e) <= |row|
    {
      RowSplit(q, height, k, e);
      p := from;
      while p != |row|
        invariant from <= p <= Ahead(q, height, k, e)
      {
        ghost var f := WalkTest(q, height, k, e, p);
        LaterIsAfter(Due(f), Due(e));
        if Later(timeout[row[p]], x) {
          break;
        }
        p := p + 1;
      }
    }

    /** The search through all rows, top row first. */
    method Search(x: nat, ghost q: seq<Entry>, ghost e: Entry) returns (heads: seq<nat>)
      requires levels > 0 && RowsOk(q) && SortedQ(q) && TimersOk(q) && Near(q, e) && x == Due(e) % TICKS
      ensures |heads| == levels
      ensures forall l :: 0 <= l < levels ==> heads[l] == Ahead(q, height, levels - l, e) <= |rows[l]|
    {
      heads := [];
      var from: nat := 0;
      for l := 0 to levels
        invariant |heads| == l && (l < levels ==> from <= Ahead(q, height, levels - l, e))
        invariant forall m :: 0 <= m < l ==> heads[m] == Ahead(q, height, levels - m, e) <= |rows[m]|
      {
        var p := Walk(rows[l], from, x, q, levels - l, e);
        heads := heads + [p];
        if l != levels - 1 {
          from := Descend(l, p, q, e);
        }
      }
    }

    /** The place in the row below from which the search goes on. */
    method Descend(l: nat, p: nat, ghost q: seq<Entry>, ghost e: Entry) returns (from: nat)
      requires RowsOk(q) && l + 1 < levels && p == Ahead(q, height, levels - l, e) <= |rows[l]|
      ensures from <= Ahead(q, height, levels - (l + 1), e)
    {
      from := 0;
      if p > 0 {
        DropDown(q, height, levels - l, e, p);
        from := 1 + IndexOf(rows[l + 1], rows[l][p - 1]);
      }
    }

    /** Link the timer into the bottom row and into as many rows above as the insertion counter
        says; `h` is how many. */
    method Link(id: int, heads: seq<nat>, ghost q: seq<Entry>, ghost e: Entry) returns (ghost h: nat)
      requires levels > 0 && RowsOk(q) && NotQueued(q, id) && e.id == id && |heads| == levels
      requires forall l :: 0 <= l < levels ==> heads[l] == Ahead(q, height, levels - l, e) <= |rows[l]|
      modifies `rows, `height, `randomNr
      ensures RowsOk(Insert(q, e))
      ensures 1 <= h <= levels && height == old(height)[id := h]
    {
      ghost var before := rows;
      h := Raise(id, heads);
      ghost var r := Insert(q, e);
      forall l | 0 <= l < levels ensures rows[l] == Row(r, height[id := h], levels - l) {
        RowInsert(q, e, height, h, levels - l);
        assert before[l] == Row(q, height, levels - l);
      }
      height := height[id := h];
    }

    method Raise(id: int, heads: seq<nat>) returns (ghost h: nat)
      requires 0 < levels == |rows| == |heads| && forall l :: 0 <= l < levels ==> heads[l] <= |rows[l]|
      modifies `rows, `randomNr
      ensures 1 <= h <= levels == |rows|
      ensures forall l :: 0 <= l < levels ==>
        rows[l] == if levels - l <= h then InsertAt(old(rows)[l], heads[l], id) else old(rows)[l]
    {
      ghost var was := rows;
      randomNr := (randomNr + 1) % 0x1_0000_0000;
      var tst := randomNr;
      rows := rows[levels - 1 := InsertAt(rows[levels - 1], heads[levels - 1], id)];
      var lvl := 2;
      while lvl <= levels && tst % 4 == 0
        invariant 2 <= lvl <= levels + 1 && Raised(was, rows, heads, id, lvl)
      {
        var row := levels - lvl;
        rows := rows[row := InsertAt(rows[row], heads[row], id)];
        tst := tst / 4;
        lvl := lvl + 1;
      }
      h := lvl - 1;
    }

    lemma NearNow(first: nat, n: nat)
      requires Inv(Sys(), s, first) && s.now <= first && n + late < HALF
      ensures forall f :: f in s.q ==>
        Due(f) - (s.now + n) < HALF && (s.now + n) - Due(f) <= TICKS - HALF
    {
      forall f | f in s.q
        ensures Due(f) - (s.now + n) < HALF && (s.now + n) - Due(f) <= TICKS - HALF
      {
        assert EntryOk(Sys(), s, first, s.q[IndexOf(s.q, f)]);
      }
    }

    /** The first section of rt_timer_start, after rt_timer_control(RT_TIMER_CTRL_SET_TIME) when `n` is a
        new time. */
    method BeginStart(id: int, n: nat)
      requires Wired() && DistinctIds(s.q) && id !in s.pending
      modifies `rows, `active, `initTick, `s
      ensures Wired() && s == DoBegin(old(s), id, n)
      ensures initTick == old(initTick)[id := n]
    {
      Unqueue(id);
      SetTime(id, n);
    }

    method SetTime(id: int, n: nat)
      requires Wired() && NotQueued(s.q, id)
      modifies `initTick, `s
      ensures Wired() && s == old(s).(pending := old(s).pending[id := Begun(n)])
      ensures initTick == old(initTick)[id := n]
    {
      initTick := initTick[id := n];
      s := s.(pending := s.pending[id := Begun(n)]);
    }

    /** Take a timer out of all rows and clear its flag. */
    method Unqueue(id: int)
      requires Wired() && DistinctIds(s.q)
      modifies `rows, `active, `s
      ensures Wired() && s == old(s).(q := Without(old(s).q, id), active := old(s).active - {id})
      ensures NotQueued(s.q, id)
    {
      WithoutOk(s.q, id);
      RemoveAll(id, s.q);
      active := active - {id};
      s := s.(q := Without(s.q, id), active := s.active - {id});
    }

    /** The read of the tick counter between the sections. */
    method ReadTick(id: int)
      requires Wired() && id in s.pending && s.pending[id].Begun? && NotQueued(s.q, id)
      modifies `timeout, `s
      ensures Wired() && s == DoRead(old(s), id)
    {
      AddMod(s.now, initTick[id]);
      timeout := timeout[id := (tick + initTick[id]) % TICKS];
      s := DoRead(s, id);
    }

    /** The second section of rt_timer_start. */
    method FinishStart(id: int)
      requires Wired() && SortedQ(s.q) && NotQueued(s.q, id) && id in s.pending && s.pending[id].Loaded? && Near(s.q, Placed(s, id))
      modifies `rows, `height, `randomNr, `active, `s
      ensures Wired() && s == DoFinish(old(s), id)
    {
      Enqueue(id, s.q, Placed(s, id));
      active := active + {id};
      s := DoFinish(s, id);
    }

    /** rt_timer_start where the caller holds interrupts off: all of it is one step. */
    method Start(id: int, n: nat, ghost first: nat)
      requires Wired() && Inv(Sys(), s, first) && s.now <= first <= s.now + 1 && LegalStart(Sys(), id, n) && id !in s.pending
      modifies this
      ensures Wired() && s == DoStart(old(s), id, n)
      ensures initTick == old(initTick)[id := n]
    {
      NearNow(first, n);
      WithoutOk(s.q, id);
      Uninterrupted(s, id, n);
      BeginStart(id, n);
      ReadTick(id);
      FinishStart(id);
    }

    /** rt_timer_start called with interrupts on takes three steps of the model, between which any other
        may come. */
    method StartSection(v: Event)
      requires Valid() && LegalEvent(Sys(), s, v) && (v.Begin? || v.Read? || v.Finish?)
      modifies this
      ensures Valid() && s == Step(Sys(), old(s), v)
    {
      StepOk(Sys(), s, v);
      PendingAlone();
      match v {
        case Begin(id, n) => BeginStart(id, n);
        case Read(id) => ReadTick(id);
        case Finish(id) =>
          NearPlaced(id);
          FinishStart(id);
      }
    }

    lemma PendingAlone()
      requires Settled(Sys(), s)
      ensures forall id :: id in s.pending ==> NotQueued(s.q, id)
    {
      forall id, e | id in s.pending && e in s.q ensures e.id != id { assert EntryOk(Sys(), s, s.now + 1, s.q[IndexOf(s.q, e)]); }
    }

    lemma NearPlaced(id: int)
      requires Settled(Sys(), s) && LegalEvent(Sys(), s, Event.Finish(id))
      ensures Near(s.q, Placed(s, id))
    {
      assert StartPending(Sys(), s, id);
      forall f | f in s.q ensures Due(f) - Due(Placed(s, id)) < HALF && Due(Placed(s, id)) - Due(f) <= TICKS - HALF {
        assert EntryOk(Sys(), s, s.now + 1, s.q[IndexOf(s.q, f)]);
      }
    }

    /** Put a timer that is in no row, with its timeout set, where it belongs. */
    method Enqueue(id: int, ghost q: seq<Entry>, ghost e: Entry)
      requires levels > 0 && RowsOk(q) && TimersOk(q) && SortedQ(q) && NotQueued(q, id) && Near(q, e)
      requires e.id == id && id in timeout && timeout[id] == Due(e) % TICKS && id in initTick && initTick[id] == e.n
      modifies `rows, `height, `randomNr
      ensures RowsOk(Insert(q, e)) && TimersOk(Insert(q, e))
    {
      var heads := Search(timeout[id], q, e);
      ghost var h := Link(id, heads, q, e);
      InsertMembers(q, e);
    }

    /** rt_timer_stop; the flag test comes first. */
    method Stop(id: int) returns (ok: bool)
      requires Wired() && DistinctIds(s.q)
      modifies this
      ensures Wired() && s == DoStop(old(s), id) && ok == (id in old(active))
      ensures if ok then Stopped(old(s), s, id) && active == old(active) - {id} else s == old(s) && rows == old(rows) && active == old(active)
      ensures ok ==> forall l :: 0 <= l < levels ==> l < |rows| && id !in rows[l]
      ensures initTick == old(initTick)
    {
      StopMeans(s, id);
      ok := id in active;
      if ok {
        Unqueue(id);
        forall l | 0 <= l < levels ensures id !in rows[l] { RowAbsent(s.q, height, levels - l, id); }
      }
    }

    /** A timeout function: the timer operations it performs, one after the other. */
    method Invoke(self: int, actions: seq<Action>)
      requires Wired() && LegalSystem(Sys()) && Draining(Sys(), s)
      requires forall k :: 0 <= k < |actions| ==> LegalCall(Sys(), self, actions[k])
      requires forall k :: 0 <= k < |actions| && actions[k].Start? ==> actions[k].id !in s.pending
      modifies this
      ensures Wired() && s == Acts(old(s), actions)
      ensures self in old(initTick) ==> self in initTick && initTick[self] == old(initTick)[self]
    {
      var k := 0;
      while k < |actions|
        invariant 0 <= k <= |actions| && Wired() && Draining(Sys(), s) && s.pending == old(s).pending
        invariant Acts(s, actions[k..]) == Acts(old(s), actions)
        invariant self in old(initTick) ==> self in initTick && initTick[self] == old(initTick)[self]
      {
        assert actions[k..][1..] == actions[k + 1..];
        Perform(self, actions[k]);
        k := k + 1;
      }
    }

    method Perform(self: int, a: Action)
      requires Wired() && Draining(Sys(), s) && LegalCall(Sys(), self, a) && (a.Start? ==> a.id !in s.pending)
      modifies this
      ensures Wired() && Draining(Sys(), s) && s == Act(old(s), a) && s.pending == old(s).pending
      ensures self in old(initTick) ==> self in initTick && initTick[self] == old(initTick)[self]
    {
      ActOk(Sys(), s, self, a);
      match a {
        case Start(id, n) => Start(id, n, s.now);
        case Stop(id) => var _ := Stop(id);
      }
    }

    /** One round of the draining loop: unlink the first timer, call it, restart or deactivate it. */
    method FireFirst(t: int)
      requires Wired() && LegalSystem(Sys()) && Draining(Sys(), s)
      requires s.q != [] && t == s.q[0].id && Due(s.q[0]) <= s.now
      modifies this
      ensures Wired() && s == Fire(Sys(), old(s))
    {
      ghost var e := s.q[0];
      assert e in s.q && EntryOk(Sys(), s, s.now, e);
      PopOk(Sys(), s);
      CallsOk(Sys(), s, t);
      Pop(t);
      ActsOk(Sys(), s, t, Calls(Sys(), t));
      Invoke(t, if t in calls then calls[t] else []);
      Finish(t, e.n);
    }

    /** After the call: a periodic timer that is still active starts again, any other is deactivated. */
    method Finish(t: int, ghost n: nat)
      requires Wired() && Draining(Sys(), s) && NotQueued(s.q, t) && t !in s.pending && LegalStart(Sys(), t, n)
      requires t in initTick && initTick[t] == n
      modifies this
      ensures Wired()
      ensures s == if t in periodic && t in old(active)
                   then DoStart(old(s).(active := old(s).active - {t}), t, n)
                   else old(s).(active := old(s).active - {t})
    {
      FinishOk(Sys(), s, t, n, false);
      var again := t in periodic && t in active;
      active := active - {t};
      s := s.(active := s.active - {t});
      if again {
        Start(t, initTick[t], s.now);
      }
    }

    method Pop(t: int)
      requires Wired() && DistinctIds(s.q) && s.q != [] && t == s.q[0].id
      modifies `rows, `s
      ensures Wired() && s == old(s).(q := old(s).q[1..], log := old(s).log + [Firing(old(s).q[0], old(s).now)])
    {
      TailNotQueued(s.q);
      WithoutAbsent(s.q[1..], t);
      RemoveAll(t, s.q);
      s := s.(q := s.q[1..], log := s.log + [Firing(s.q[0], s.now)]);
    }

    /** rt_timer_check */
    method Check()
      requires Wired() && LegalSystem(Sys()) && Draining(Sys(), s)
      modifies this
      ensures Wired() && s == Drain(Sys(), old(s))
    {
      while rows[levels - 1] != []
        invariant Wired() && LegalSystem(Sys()) && Draining(Sys(), s)
        invariant Drain(Sys(), s) == Drain(Sys(), old(s))
        decreases Expired(s.q, s.now)
      {
        BottomRow(s.q, height);
        var t := rows[levels - 1][0];
        assert s.q[0] in s.q && EntryOk(Sys(), s, s.now, s.q[0]);
        ReachedIsDue(s.now, Due(s.q[0]));
        if !Reached(tick, timeout[t]) {
          break;
        }
        FireOk(Sys(), s);
        FireFirst(t);
      }
      BottomRow(s.q, height);
    }

    /** The clock interrupt as far as timers go: advance the tick, then check. */
    method Tick()
      requires Valid()
      modifies this
      ensures Valid() && s == Step(Sys(), old(s), Event.Tick)
    {
      NextDrains(Sys(), s);
      AddMod(s.now, 1);
      tick := (tick + 1) % TICKS;
      s := s.(now := s.now + 1);
      DrainOk(Sys(), s);
      Check();
    }
  }

  /** The bottom row lists every pending timer in firing order. */
  lemma {:induction false} BottomRow(q: seq<Entry>, height: map<int, nat>)
    requires forall e :: e in q ==> HeightOf(height, e.id) >= 1
    ensures |Row(q, height, 1)| == |q|
    ensures forall i :: 0 <= i < |q| ==> Row(q, height, 1)[i] == q[i].id
  {
    if q != [] {
      assert q[0] in q;
      assert forall e :: e in q[1..] ==> e in q;
      BottomRow(q[1..], height);
    }
  }

  lemma AddMod(a: nat, n: nat)
    ensures (a % TICKS + n) % TICKS == (a + n) % TICKS
  {
    var k := a / TICKS;
    assert a + n == a % TICKS + n + TICKS * k;
    ModShift(a % TICKS + n, k);
  }
}