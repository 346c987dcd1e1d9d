/** One event object of ipc.c and the threads that use it.  An event set is the set of its bit
    positions, so `|`, `&` and `& ~` are union, intersection and difference. */
module EventFlags {
  import opened Seqs
  import opened WaitLists

  type Bits = set<nat>

  /** RT_EVENT_FLAG_AND, RT_EVENT_FLAG_OR, RT_EVENT_FLAG_CLEAR */
  datatype Option = Option(all: bool, any: bool, clear: bool)

  /** A thread's event_set and event_info: what it asked for and, once it is woken, what it was given. */
  datatype Ask = Ask(bits: Bits, opt: Option)

  datatype Phase = Running | Waiting(timed: bool) | Resuming(ok: bool)

  /** `wanted` remembers the bits each thread passed to its last blocking rt_event_recv. */
  datatype State = State(
    flag: Flag, bits: Bits, waiters: seq<Waiter>, arrivals: nat, asks: map<Tid, Ask>, phase: map<Tid, Phase>,
    prio: map<Tid, nat>, wanted: map<Tid, Bits>)

  /** The test of rt_event_send and rt_event_recv: AND wins when both options are given. */
  predicate Satisfied(a: Ask, bits: Bits) {
    if a.opt.all then a.bits <= bits else a.opt.any && a.bits * bits != {}
  }

  /** The bits a satisfied waiter records: all it asked for, or those of them that are set. */
  function Granted(a: Ask, bits: Bits): Bits { if a.opt.all then a.bits else a.bits * bits }

  /** Clearing bits never satisfies a request. */
  lemma Antitone(a: Ask, bits: Bits, fewer: Bits)
    requires fewer <= bits && !Satisfied(a, bits)
    ensures !Satisfied(a, fewer)
  {
    if !a.opt.all { assert a.bits * fewer <= a.bits * bits; }
  }

  /** Waking the waiter at position i with what is set of its request, and clearing that if it said so. */
  function Wake(s: State, i: nat): State
    requires i < |s.waiters| && s.waiters[i].t in s.asks
  {
    var t := s.waiters[i].t;
    var a := s.asks[t];
    var g := Granted(a, s.bits);
    s.(bits := if a.opt.clear then s.bits - g else s.bits, waiters := RemoveAt(s.waiters, i),
       asks := s.asks[t := a.(bits := g)], phase := s.phase[t := Resuming(true)])
  }

  /** The rest of the loop of rt_event_send from position i of the wait list on. */
  function Sweep(s: State, i: nat): State
    requires i <= |s.waiters| && Ids(s.waiters) <= s.asks.Keys
    decreases |s.waiters| - i
  {
    if i == |s.waiters| then s else
      var w := s.waiters[i];
      assert w in s.waiters;
      if Satisfied(s.asks[w.t], s.bits) then Sweep(Wake(s, i), i) else Sweep(s, i + 1)
  }

  /** rt_event_send */
  function Send(s: State, set': Bits): State
    requires Ids(s.waiters) <= s.asks.Keys
  {
    if set' == {} then s else Sweep(s.(bits := s.bits + set'), 0)
  }

  /** What a call of rt_event_recv gave its caller at once. */
  datatype Outcome = Received(bits: Bits) | Failed | Blocked

  /** rt_event_recv up to its return or its call of rt_schedule. */
  function Recv(s: State, t: Tid, a: Ask, time: int): (State, Outcome)
    requires t in s.prio
  {
    if a.bits == {} then (s, Failed)
    else if Satisfied(a, s.bits) then
      (if a.opt.clear then s.(bits := s.bits - a.bits) else s, Received(s.bits * a.bits))
    else if time == 0 then (s, Failed)
    else
      (s.(waiters := Enlist(s.flag, s.waiters, Waiter(t, s.prio[t], s.arrivals)), arrivals := s.arrivals + 1,
          asks := s.asks[t := a], phase := s.phase[t := Waiting(time > 0)], wanted := s.wanted[t := a.bits]), Blocked)
  }

  /** rt_thread_timeout on a waiting receiver. */
  function Timeout(s: State, t: Tid): State {
    s.(waiters := Delist(s.waiters, t), phase := s.phase[t := Resuming(false)])
  }

  /** The rest of rt_event_recv once the caller runs again; it then reports `asks[t].bits`. */
  function Return(s: State, t: Tid): State { s.(phase := s.phase[t := Running]) }

  /** What a thread was given fits what it wanted: everything, or a non-empty part. */
  predicate Fits(a: Ask, wanted: Bits) {
    if a.opt.all then a.bits == wanted else a.bits != {} && a.bits <= wanted
  }

  ghost predicate Shape(s: State) {
    && Sorted(s.flag, s.waiters) && Once(s.waiters)
    && (forall w :: w in s.waiters ==> w.order < s.arrivals)
    && s.phase.Keys == s.prio.Keys
    && (forall t :: t in s.phase ==> (s.phase[t].Waiting? <==> t in Ids(s.waiters)))
    && Ids(s.waiters) <= s.phase.Keys
    && s.asks.Keys == s.wanted.Keys && Ids(s.waiters) <= s.asks.Keys
    && (forall t :: t in Ids(s.waiters) ==> s.asks[t].bits == s.wanted[t] != {})
    && (forall t :: t in s.phase && s.phase[t] == Resuming(true) ==> t in s.asks && Fits(s.asks[t], s.wanted[t]))
  }

  /** Nobody among the first n waiters could go on with the bits that are set. */
  ghost predicate Unmet(s: State, n: nat)
    requires n <= |s.waiters| && Ids(s.waiters) <= s.asks.Keys
  {
    forall i :: 0 <= i < n ==> Idle(s, i)
  }

  ghost predicate Idle(s: State, i: nat)
    requires i < |s.waiters| && Ids(s.waiters) <= s.asks.Keys
  {
    assert s.waiters[i] in s.waiters;
    !Satisfied(s.asks[s.waiters[i].t], s.bits)
  }

  ghost predicate Inv(s: State) { Shape(s) && Unmet(s, |s.waiters|) }

  /** rt_event_init */
  function Initial(flag: Flag, prio: map<Tid, nat>): State {
    State(flag, {}, [], 0, map[], map t | t in prio :: Running, prio, map[])
  }

  lemma InitialOk(flag: Flag, prio: map<Tid, nat>)
    ensures Inv(Initial(flag, prio))
  {
    assert Initial(flag, prio).phase.Keys == prio.Keys;
  }

  lemma WakeOk(s: State, i: nat)
    requires Shape(s) && i < |s.waiters| && Unmet(s, i) && !Idle(s, i)
    ensures Shape(Wake(s, i)) && Unmet(Wake(s, i), i)
    ensures Ids(Wake(s, i).waiters) == Ids(s.waiters) - {s.waiters[i].t}
  {
    var t, e := s.waiters[i].t, Wake(s, i);
    assert s.waiters[i] in s.waiters && t in Ids(s.waiters);
    RemoveOne(s.flag, s.waiters, i);
    forall j | 0 <= j < i ensures Idle(e, j) {
      assert Idle(s, j) && e.waiters[j] == s.waiters[j] && s.waiters[j].t != t;
      Antitone(s.asks[s.waiters[j].t], s.bits, e.bits);
    }
  }

  lemma RemoveOne(flag: Flag, q: seq<Waiter>, i: nat)
    requires Sorted(flag, q) && Once(q) && i < |q|
    ensures Sorted(flag, RemoveAt(q, i)) && Once(RemoveAt(q, i)) && Ids(RemoveAt(q, i)) == Ids(q) - {q[i].t}
    ensures forall x :: x in RemoveAt(q, i) ==> x in q
  {
    assert q[i] in q;
    assert Find(q, q[i].t) == i;
    DelistOk(flag, q, q[i].t);
  }

  /** The bits went from `from` to `to` and the threads `woken` hold `given`.  Everybody woken got bits
      that were set at the start; a bit is gone exactly when a woken waiter that clears was given it;
      and it was given to no one else who clears. */
  ghost predicate Ledger(woken: set<Tid>, given: map<Tid, Ask>, from: Bits, to: Bits)
    requires woken <= given.Keys
  {
    && to <= from
    && (forall t :: t in woken ==> given[t].bits <= from)
    && (forall t :: t in woken && given[t].opt.clear ==> given[t].bits !! to)
    && (forall b :: b in from - to ==> exists t :: t in woken && given[t].opt.clear && b in given[t].bits)
    && (forall t, u :: t in woken && u in woken && t != u && given[t].opt.clear && given[u].opt.clear
          ==> given[t].bits !! given[u].bits)
  }

  lemma LedgerAdd(woken: set<Tid>, given: map<Tid, Ask>, t: Tid, from: Bits, mid: Bits, to: Bits)
    requires woken + {t} <= given.Keys && Ledger(woken, given, mid, to)
    requires given[t].bits <= from && mid == if given[t].opt.clear then from - given[t].bits else from
    ensures Ledger(woken + {t}, given, from, to)
  {
    var all := woken + {t};
    forall b | b in from - to ensures exists u :: u in all && given[u].opt.clear && b in given[u].bits {
      if b in mid {
        assert b in mid - to;
        var u :| u in woken && given[u].opt.clear && b in given[u].bits;
        assert u in all;
      } else {
        assert t in all;
      }
    }
  }

  /** Everybody woken keeps its options and is resuming; nobody else is touched. */
  ghost predicate Touched(woken: set<Tid>, s: State, e: State) {
    && Ids(e.waiters) == Ids(s.waiters) - woken && woken <= Ids(s.waiters)
    && s.asks.Keys == e.asks.Keys && woken <= s.asks.Keys && e.flag == s.flag
    && (forall t :: t in woken ==> e.asks[t].opt == s.asks[t].opt && t in e.phase && e.phase[t] == Resuming(true))
    && (forall t :: t in s.asks && t !in woken ==> e.asks[t] == s.asks[t])
    && (forall t :: t in s.phase && t !in woken ==> t in e.phase && e.phase[t] == s.phase[t])
  }

  lemma TouchedWake(woken: set<Tid>, s: State, i: nat, m: State, e: State)
    requires Shape(s) && i < |s.waiters| && s.waiters[i].t in Ids(s.waiters) && m == Wake(s, i)
    requires Ids(m.waiters) == Ids(s.waiters) - {s.waiters[i].t} && Touched(woken, m, e)
    ensures Touched(woken + {s.waiters[i].t}, s, e) && e.asks[s.waiters[i].t] == m.asks[s.waiters[i].t]
  {
    assert s.waiters[i].t in s.phase;
  }

  /** Although bits are cleared while the list is scanned, the scan leaves nobody who could go on. */
  lemma {:induction false} SweepOk(s: State, i: nat) returns (woken: set<Tid>)
    requires Shape(s) && i <= |s.waiters| && Unmet(s, i)
    ensures Inv(Sweep(s, i)) && Touched(woken, s, Sweep(s, i)) && Ledger(woken, Sweep(s, i).asks, s.bits, Sweep(s, i).bits)
    decreases |s.waiters| - i
  {
    if i == |s.waiters| {
      woken := {};
    } else {
      assert s.waiters[i] in s.waiters;
      if Idle(s, i) {
        woken := SweepOk(s, i + 1);
      } else {
        WakeOk(s, i);
        woken := SweepOk(Wake(s, i), i);
        var e, t := Sweep(s, i), s.waiters[i].t;
        TouchedWake(woken, s, i, Wake(s, i), e);
        LedgerAdd(woken, e.asks, t, s.bits, Wake(s, i).bits, e.bits);
        woken := woken + {t};
      }
    }
  }

  datatype Event =
    | SendIt(bits: Bits)
    | RecvBy(t: Tid, ask: Ask, time: int)
    | TimeoutOf(t: Tid)
    | ReturnOf(t: Tid)

  predicate Legal(s: State, v: Event) {
    match v
    case SendIt(_) => Ids(s.waiters) <= s.asks.Keys
    case RecvBy(t, _, _) => t in s.phase && t in s.prio && s.phase[t] == Running
    case TimeoutOf(t) => t in s.phase && s.phase[t] == Waiting(true)
    case ReturnOf(t) => t in s.phase && s.phase[t].Resuming?
  }

  function Step(s: State, v: Event): State
    requires Legal(s, v)
  {
    match v
    case SendIt(bits) => Send(s, bits)
    case RecvBy(t, a, time) => Recv(s, t, a, time).0
    case TimeoutOf(t) => Timeout(s, t)
    case ReturnOf(t) => Return(s, t)
  }

  lemma RecvOk(s: State, t: Tid, a: Ask, time: int)
    requires Inv(s) && Legal(s, RecvBy(t, a, time))
    ensures Inv(Recv(s, t, a, time).0)
    ensures var r := Recv(s, t, a, time).1; r.Received? ==> r.bits != {} && r.bits <= a.bits && (a.opt.all ==> r.bits == a.bits)
  {
    var e := Recv(s, t, a, time).0;
    if a.bits == {} {
    } else if Satisfied(a, s.bits) {
      assert a.opt.all ==> s.bits * a.bits == a.bits;
      forall i | 0 <= i < |s.waiters| ensures Idle(e, i) {
        assert Idle(s, i);
        Antitone(s.asks[s.waiters[i].t], s.bits, e.bits);
      }
    } else if time != 0 {
      BlockOk(s, t, a, time);
    }
  }

  lemma BlockOk(s: State, t: Tid, a: Ask, time: int)
    requires Inv(s) && Legal(s, RecvBy(t, a, time)) && Recv(s, t, a, time).1 == Blocked
    ensures Inv(Recv(s, t, a, time).0)
  {
    var e, w := Recv(s, t, a, time).0, Waiter(t, s.prio[t], s.arrivals);
    EnlistSorted(s.flag, s.waiters, w);
    EnlistMembers(s.flag, s.waiters, w);
    forall i | 0 <= i < |e.waiters| ensures Idle(e, i) {
      var x := e.waiters[i];
      assert x in e.waiters;
      if x != w {
        var j := IndexOf(s.waiters, x);
        assert Idle(s, j) && x.t in Ids(s.waiters);
      }
    }
  }

  lemma StepOk(s: State, v: Event)
    requires Inv(s) && Legal(s, v)
    ensures Inv(Step(s, v))
  {
    match v
    case SendIt(bits) => if bits != {} { var _ := SweepOk(s.(bits := s.bits + bits), 0); }
    case RecvBy(t, a, time) => RecvOk(s, t, a, time);
    case TimeoutOf(t) => TimeoutOk(s, t);
    case ReturnOf(t) =>
      var e := Return(s, t);
      forall i | 0 <= i < |e.waiters| ensures Idle(e, i) { assert Idle(s, i); }
  }

  lemma TimeoutOk(s: State, t: Tid)
    requires Inv(s) && Legal(s, TimeoutOf(t))
    ensures Inv(Timeout(s, t))
  {
    DelistOk(s.flag, s.waiters, t);
    var e := Timeout(s, t);
    forall i | 0 <= i < |e.waiters| ensures Idle(e, i) {
      assert e.waiters[i] in e.waiters;
      assert Idle(s, IndexOf(s.waiters, e.waiters[i]));
    }
  }

  ghost predicate LegalRun(s: State, vs: seq<Event>)
    decreases |vs|
  {
    vs == [] || (Legal(s, vs[0]) && LegalRun(Step(s, vs[0]), vs[1..]))
  }

  function Run(s: State, vs: seq<Event>): State
    requires LegalRun(s, vs)
    decreases |vs|
  {
    if vs == [] then s else Run(Step(s, vs[0]), vs[1..])
  }

  lemma {:induction false} RunOk(s: State, vs: seq<Event>)
    requires Inv(s) && LegalRun(s, vs)
    ensures Inv(Run(s, vs))
    decreases |vs|
  {
    if vs != [] {
      StepOk(s, vs[0]);
      RunOk(Step(s, vs[0]), vs[1..]);
    }
  }

  /** Over every interleaving: nobody sleeps whose condition the event set meets, and everybody woken
      holds all it wanted (AND) or a non-empty part of it (OR). */
  lemma NobodyMissed(s: State, vs: seq<Event>)
    requires Inv(s) && LegalRun(s, vs)
    ensures var e := Run(s, vs);
      && (forall w :: w in e.waiters ==> w.t in e.asks && !Satisfied(e.asks[w.t], e.bits))
      && (forall t :: t in e.phase && e.phase[t] == Resuming(true) ==>
            t in e.asks && t in e.wanted && e.asks[t].bits <= e.wanted[t] &&
            if e.asks[t].opt.all then e.asks[t].bits == e.wanted[t] else e.asks[t].bits != {})
  {
    RunOk(s, vs);
    var e := Run(s, vs);
    forall w | w in e.waiters ensures w.t in e.asks && !Satisfied(e.asks[w.t], e.bits) {
      assert w.t in Ids(e.waiters) && Idle(e, IndexOf(e.waiters, w));
    }
  }

  /** The event object together with the event fields of the threads. */
  class EventObject {
    const flag: Flag
    var bits: Bits
    var waiters: seq<Waiter>
    var arrivals: nat
    var asks: map<Tid, Ask>
    var phase: map<Tid, Phase>
    const prio: map<Tid, nat>
    ghost var wanted: map<Tid, Bits>

    ghost function Abs(): State
      reads this
    {
      State(flag, bits, waiters, arrivals, asks, phase, prio, wanted)
    }

    method SendAll(set': Bits) returns (ok: bool)
      requires Ids(waiters) <= asks.Keys
      modifies this
      ensures ok == (set' != {}) && Abs() == Send(old(Abs()), set')
    {
      if set' == {} {
        return false;
      }
      bits := bits + set';
      ghost var start := Abs();
      var i := 0;
      while i < |waiters|
        invariant 0 <= i <= |waiters| && Ids(waiters) <= asks.Keys
        invariant Sweep(Abs(), i) == Sweep(start, 0)
        decreases |waiters| - i
      {
        var t := waiters[i].t;
        assert waiters[i] in waiters;
        var a := asks[t];
        if Satisfied(a, bits) {
          ghost var before := Abs();
          var g := Granted(a, bits);
          asks := asks[t := a.(bits := g)];
          if a.opt.clear {
            bits := bits - g;
          }
          waiters := RemoveAt(waiters, i);
          phase := phase[t := Resuming(true)];
          assert Abs() == Wake(before, i);
        } else {
          i := i + 1;
        }
      }
      ok := true;
    }

    method RecvFor(t: Tid, a: Ask, time: int) returns (r: Outcome)
      requires t in prio
      modifies this
      ensures (Abs(), r) == Recv(old(Abs()), t, a, time)
    {
      if a.bits == {} {
        return Failed;
      }
      if Satisfied(a, bits) {
        r := Received(bits * a.bits);
        if a.opt.clear {
          bits := bits - a.bits;
        }
      } else if time == 0 {
        r := Failed;
      } else {
        asks, wanted := asks[t := a], wanted[t := a.bits];
        var w := Waiter(t, prio[t], arrivals);
        var k := Place(flag, waiters, w);
        waiters := InsertAt(waiters, k, w);
        arrivals := arrivals + 1;
        phase := phase[t := Waiting(time > 0)];
        r := Blocked;
      }
    }
  }
}
