/** What sending to an event object and receiving from it do, exactly: who is woken by a send, with which
    bits, and what is left of them. */
module EventEffects {
  import opened Seqs
  import opened WaitLists
  import opened EventFlags

  /** All of the bits asked for, or with RT_EVENT_FLAG_OR alone any of them. */
  ghost predicate Meets(a: Ask, bits: Bits) { if a.opt.all then forall b :: b in a.bits ==> b in bits else a.opt.any && exists b :: b in a.bits && b in bits }

  /** The bits of a request that are set. */
  ghost predicate IsShare(a: Ask, bits: Bits, share: Bits) { forall b :: b in share <==> b in a.bits && b in bits }

  /** The scan passes waiter `w` with the bits `from` set and leaves `to`: one that can go on wakes with its
      share, which is gone if it clears; any other is left as it is. */
  ghost predicate Passed(w: Waiter, s: State, e: State, from: Bits, to: Bits) {
    && w.t in s.asks && w.t in e.asks && w.t in s.phase && w.t in e.phase
    && var a := s.asks[w.t];
      if Meets(a, from) then
        && e.asks[w.t].opt == a.opt && IsShare(a, from, e.asks[w.t].bits)
        && e.phase[w.t] == Resuming(true) && w !in e.waiters
        && to == if a.opt.clear then from - e.asks[w.t].bits else from
      else e.asks[w.t] == a && e.phase[w.t] == s.phase[w.t] && w in e.waiters && to == from
  }

  ghost predicate Others(s: State, e: State, from: nat)
    requires from <= |s.waiters|
  {
    && e.flag == s.flag && e.arrivals == s.arrivals && e.prio == s.prio && e.wanted == s.wanted && e.asks.Keys == s.asks.Keys && e.phase.Keys == s.phase.Keys
    && (forall w :: w in e.waiters ==> w in s.waiters) && (forall j :: 0 <= j < from ==> s.waiters[j] in e.waiters)
    && (forall t :: t in s.asks && t !in Ids(s.waiters[from..]) ==> e.asks[t] == s.asks[t])
    && (forall t :: t in s.phase && t !in Ids(s.waiters[from..]) ==> e.phase[t] == s.phase[t])
  }

  /** The bits that are set before each waiter from position `i` on, and at the end. */
  ghost predicate Scanned(s: State, i: nat, e: State, avail: seq<Bits>) {
    && i <= |s.waiters| && |avail| == |s.waiters| - i + 1 && avail[0] == s.bits && avail[|avail| - 1] == e.bits
    && (forall j :: 0 <= j < |s.waiters| - i ==> Passed(s.waiters[i + j], s, e, avail[j], avail[j + 1]))
    && Others(s, e, i)
  }

  lemma MeetsIs(a: Ask, bits: Bits)
    ensures Satisfied(a, bits) <==> Meets(a, bits)
    ensures Satisfied(a, bits) ==> IsShare(a, bits, Granted(a, bits))
  {
    assert forall b :: b in a.bits * bits <==> b in a.bits && b in bits;
    if a.bits * bits != {} {
      var b :| b in a.bits * bits;
      assert b in a.bits && b in bits;
    }
  }

  lemma {:induction false} SweepExact(s: State, i: nat) returns (avail: seq<Bits>)
    requires Shape(s) && i <= |s.waiters|
    ensures Scanned(s, i, Sweep(s, i), avail)
    decreases |s.waiters| - i
  {
    avail := [s.bits];
    if i < |s.waiters| {
      var w := s.waiters[i];
      assert w in s.waiters && w.t in Ids(s.waiters);
      MeetsIs(s.asks[w.t], s.bits);
      if Satisfied(s.asks[w.t], s.bits) {
        var m := Wake(s, i);
        WakeShape(s, i, m);
        var rest := SweepExact(m, i);
        WokenScans(s, i, m, Sweep(m, i), rest);
        avail := avail + rest;
      } else {
        var rest := SweepExact(s, i + 1);
        IdleScans(s, i, Sweep(s, i + 1), rest);
        avail := avail + rest;
      }
    }
  }

  lemma WakeShape(s: State, i: nat, m: State)
    requires Shape(s) && i < |s.waiters| && s.waiters[i].t in s.asks && Satisfied(s.asks[s.waiters[i].t], s.bits) && m == Wake(s, i)
    ensures Shape(m) && |m.waiters| == |s.waiters| - 1 && m.waiters[i..] == s.waiters[i + 1..] && m.waiters[..i] == s.waiters[..i]
    ensures s.waiters[i] !in m.waiters && s.waiters[i].t !in Ids(m.waiters) && forall w :: w in m.waiters ==> w in s.waiters
  {
    var t := s.waiters[i].t;
    assert s.waiters[i] in s.waiters && t in Ids(s.waiters);
    RemoveOne(s.flag, s.waiters, i);
    MeetsIs(s.asks[t], s.bits);
    assert Fits(m.asks[t], m.wanted[t]);
  }

  /** The step past a waiter that wakes, and the scan from there. */
  lemma WokenScans(s: State, i: nat, m: State, e: State, rest: seq<Bits>)
    requires Shape(s) && i < |s.waiters| && s.waiters[i].t in s.asks && Satisfied(s.asks[s.waiters[i].t], s.bits) && m == Wake(s, i)
    requires Shape(m) && |m.waiters| == |s.waiters| - 1 && m.waiters[i..] == s.waiters[i + 1..] && m.waiters[..i] == s.waiters[..i]
    requires s.waiters[i] !in m.waiters && s.waiters[i].t !in Ids(m.waiters) && (forall w :: w in m.waiters ==> w in s.waiters)
    requires Scanned(m, i, e, rest) && s.waiters[i].t in s.phase
    ensures Scanned(s, i, e, [s.bits] + rest)
  {
    var avail, w := [s.bits] + rest, s.waiters[i];
    MeetsIs(s.asks[w.t], s.bits);
    assert w.t !in Ids(m.waiters[i..]) by { assert forall x :: x in m.waiters[i..] ==> x in m.waiters; }
    assert Passed(w, s, e, avail[0], avail[1]);
    forall j | 0 <= j < |s.waiters| - i ensures Passed(s.waiters[i + j], s, e, avail[j], avail[j + 1]) {
      if j > 0 {
        var x := s.waiters[i + j];
        assert x == s.waiters[i + 1..][j - 1] == m.waiters[i..][j - 1] == m.waiters[i + (j - 1)];
        assert Passed(x, m, e, rest[j - 1], rest[j]);
        assert x in m.waiters && x.t in Ids(m.waiters);
      }
    }
    WokenOthers(s, i, m, e);
  }

  lemma WokenOthers(s: State, i: nat, m: State, e: State)
    requires i < |s.waiters| && s.waiters[i].t in s.asks && m == Wake(s, i) && s.waiters[i].t in s.phase
    requires m.waiters[i..] == s.waiters[i + 1..] && m.waiters[..i] == s.waiters[..i] && i <= |m.waiters|
    requires (forall w :: w in m.waiters ==> w in s.waiters) && Others(m, e, i)
    ensures Others(s, e, i)
  {
    assert s.waiters[i..] == [s.waiters[i]] + s.waiters[i + 1..];
    forall j | 0 <= j < i ensures s.waiters[j] in e.waiters { assert m.waiters[j] == m.waiters[..i][j] == s.waiters[..i][j]; }
  }

  /** The step past a waiter that stays, and the scan from there. */
  lemma IdleScans(s: State, i: nat, e: State, rest: seq<Bits>)
    requires Shape(s) && i < |s.waiters| && s.waiters[i].t in s.asks && !Satisfied(s.asks[s.waiters[i].t], s.bits) && s.waiters[i].t in s.phase
    requires Scanned(s, i + 1, e, rest)
    ensures Scanned(s, i, e, [s.bits] + rest)
  {
    var avail, w := [s.bits] + rest, s.waiters[i];
    MeetsIs(s.asks[w.t], s.bits);
    assert w.t !in Ids(s.waiters[i + 1..]) by { NotAgain(s.waiters, i); }
    assert Passed(w, s, e, avail[0], avail[1]);
    forall j | 0 <= j < |s.waiters| - i ensures Passed(s.waiters[i + j], s, e, avail[j], avail[j + 1]) {
      if j > 0 { assert Passed(s.waiters[i + 1 + (j - 1)], s, e, rest[j - 1], rest[j]); }
    }
    assert s.waiters[i..] == [w] + s.waiters[i + 1..];
  }

  lemma NotAgain(q: seq<Waiter>, i: nat)
    requires Once(q) && i < |q|
    ensures q[i].t !in Ids(q[i + 1..])
  {
    forall w | w in q[i + 1..] ensures w.t != q[i].t {
      var j := IndexOf(q[i + 1..], w);
      assert q[i + 1 + j] == w;
    }
  }

  // ---- the calls ------------------------------------------------------------------------------

  /** A send adds its bits to the set and then goes once through the list, first to last, with what is
      left of them. */
  lemma SendMeans(s: State, bits: Bits) returns (avail: seq<Bits>)
    requires Inv(s)
    ensures if bits == {} then Send(s, bits) == s else Scanned(s.(bits := s.bits + bits), 0, Send(s, bits), avail)
  {
    avail := [];
    if bits != {} { avail := SweepExact(s.(bits := s.bits + bits), 0); }
  }

  /** A receive gets its share at once, gives up at once, or sleeps with its request noted. */
  ghost predicate Received(s: State, e: State, t: Tid, a: Ask, time: int, r: Outcome)
    requires t in s.prio
  {
    if a.bits == {} then e == s && r == Failed
    else if Meets(a, s.bits) then
      && r.Received? && IsShare(a, s.bits, r.bits) && e == s.(bits := e.bits)
      && forall b :: b in e.bits <==> b in s.bits && !(a.opt.clear && b in a.bits)
    else if time == 0 then e == s && r == Failed
    else
      && r == Blocked && e.bits == s.bits && e.flag == s.flag && e.prio == s.prio && e.arrivals == s.arrivals + 1
      && (forall w :: w in e.waiters <==> w in s.waiters || w == Waiter(t, s.prio[t], s.arrivals))
      && e.asks == s.asks[t := a] && e.phase == s.phase[t := Waiting(time > 0)] && e.wanted == s.wanted[t := a.bits]
  }

  lemma RecvMeans(s: State, t: Tid, a: Ask, time: int)
    requires Inv(s) && Legal(s, RecvBy(t, a, time))
    ensures Received(s, Recv(s, t, a, time).0, t, a, time, Recv(s, t, a, time).1)
  {
    MeetsIs(a, s.bits);
    EnlistMembers(s.flag, s.waiters, Waiter(t, s.prio[t], s.arrivals));
  }

  /** A timeout takes one waiter off the list with its error, a return only lets the thread go on. */
  lemma LeaveMeans(s: State, v: Event)
    requires Inv(s) && Legal(s, v) && (v.TimeoutOf? || v.ReturnOf?)
    ensures var e := Step(s, v);
      && e.bits == s.bits && e.asks == s.asks && e.wanted == s.wanted
      && e.phase == s.phase[v.t := if v.TimeoutOf? then Resuming(false) else Running]
      && forall w :: w in e.waiters <==> w in s.waiters && !(v.TimeoutOf? && w.t == v.t)
  {
    if v.TimeoutOf? { DelistOk(s.flag, s.waiters, v.t); }
  }
}
