/** A mailbox of ipc.c: a ring buffer of words with blocking senders and receivers.  One section with
    interrupts disabled is one step; a thread woken for a slot or a mail may find it taken by another
    that came first, and then waits again. */
module Mailbox {
  import opened Seqs
  import opened WaitLists
  import opened Sides

  datatype Phase =
    | Running
    | Sender(value: int, timed: bool)   // blocked, or woken and about to look again
    | Receiver(timed: bool)             // blocked, or woken and about to look again
    | Failing                           // about to return an error

  /** `posted` lists every mail put in since the start and `gone` every mail that left, received or
      discarded by a reset. */
  datatype State = State(
    cap: nat, mails: seq<int>, senders: Side, receivers: Side, phase: map<Tid, Phase>, prio: map<Tid, nat>,
    posted: seq<int>, gone: seq<int>)

  /** rt_mb_send_wait from the top of its loop on. */
  function TrySend(s: State, t: Tid, value: int, time: int): State
    requires t in s.prio
  {
    if |s.mails| < s.cap then
      s.(mails := s.mails + [value], posted := s.posted + [value], phase := s.phase[t := Running],
         receivers := WakeOne(s.receivers))
    else if time == 0 then s.(phase := s.phase[t := Running])
    else s.(senders := Block(s.senders, t, s.prio[t]), phase := s.phase[t := Sender(value, time > 0)])
  }

  /** rt_mb_recv from the top of its loop on. */
  function TryRecv(s: State, t: Tid, time: int): State
    requires t in s.prio
  {
    if s.mails != [] then
      s.(mails := s.mails[1..], gone := s.gone + [s.mails[0]], phase := s.phase[t := Running],
         senders := WakeOne(s.senders))
    else if time == 0 then s.(phase := s.phase[t := Running])
    else s.(receivers := Block(s.receivers, t, s.prio[t]), phase := s.phase[t := Receiver(time > 0)])
  }

  /** rt_thread_timeout on a blocked thread. */
  function Timeout(s: State, t: Tid): State {
    s.(senders := Leave(s.senders, t), receivers := Leave(s.receivers, t), phase := s.phase[t := Failing])
  }

  /** rt_mb_control with RT_IPC_CMD_RESET. */
  function Reset(s: State): State {
    s.(mails := [], gone := s.gone + s.mails,
       phase := SendAll(s.phase, Ids(s.senders.waiters) + Ids(s.receivers.waiters), Failing),
       senders := WakeAll(s.senders), receivers := WakeAll(s.receivers))
  }

  predicate Placed(p: Phase, sends: bool, receives: bool) { (p.Sender? <==> sends) && (p.Receiver? <==> receives) }

  ghost predicate Threads(phase: map<Tid, Phase>, senders: set<Tid>, receivers: set<Tid>) {
    senders + receivers <= phase.Keys && forall t :: t in phase ==> Placed(phase[t], t in senders, t in receivers)
  }

  ghost predicate Core(s: State) {
    |s.mails| <= s.cap && s.phase.Keys == s.prio.Keys && s.posted == s.gone + s.mails
  }

  /** Slots and mails are promised to woken threads before anybody is left blocked. */
  ghost predicate Inv(s: State) {
    && Core(s) && Threads(s.phase, Members(s.senders), Members(s.receivers))
    && SideOk(s.senders, s.cap - |s.mails|) && SideOk(s.receivers, |s.mails|)
  }

  /** Thread t moves on to phase p. */
  lemma Moved(phase: map<Tid, Phase>, t: Tid, p: Phase, a: set<Tid>, b: set<Tid>, a': set<Tid>, b': set<Tid>)
    requires t in phase && Threads(phase, a, b) && Placed(p, t in a', t in b') && Same(a, a', t) && Same(b, b', t)
    ensures Threads(phase[t := p], a', b')
  {
    forall u | u in phase[t := p] ensures Placed(phase[t := p][u], u in a', u in b') {
      if u != t { assert Placed(phase[u], u in a, u in b); }
    }
    forall u | u in a' + b' ensures u in phase[t := p] {
      if u != t { assert u in a + b; }
    }
  }

  /** Any sender: a newcomer, or one that was woken and is no longer counted as such; `a` are the senders
      before it. */
  ghost predicate SenderLooks(s: State, t: Tid, a: set<Tid>) {
    && Core(s) && Threads(s.phase, a, Members(s.receivers)) && Same(a, Members(s.senders), t) && t in s.phase
    && SideOk(s.senders, Less(s.cap - |s.mails|)) && SideOk(s.receivers, |s.mails|)
    && t !in Members(s.senders) && t !in Members(s.receivers)
  }

  lemma TrySendOk(s: State, t: Tid, value: int, time: int, a: set<Tid>)
    requires SenderLooks(s, t, a)
    ensures Inv(TrySend(s, t, value, time))
  {
    if |s.mails| < s.cap {
      SenderPosts(s, t, value, time, a);
    } else if time == 0 {
      Moved(s.phase, t, Running, a, Members(s.receivers), Members(s.senders), Members(s.receivers));
    } else {
      SenderBlocks(s, t, value, time, a);
    }
  }

  lemma SenderPosts(s: State, t: Tid, value: int, time: int, a: set<Tid>)
    requires SenderLooks(s, t, a) && |s.mails| < s.cap
    ensures Inv(TrySend(s, t, value, time))
  {
    WakeOneOk(s.receivers, |s.mails|);
    Assoc(s.gone, s.mails, [value]);
    Moved(s.phase, t, Running, a, Members(s.receivers), Members(s.senders), Members(s.receivers));
  }

  lemma SenderBlocks(s: State, t: Tid, value: int, time: int, a: set<Tid>)
    requires SenderLooks(s, t, a) && |s.mails| == s.cap && time != 0
    ensures Inv(TrySend(s, t, value, time))
  {
    BlockOk(s.senders, t, s.prio[t]);
    Moved(s.phase, t, Sender(value, time > 0), a, Members(s.receivers), Members(s.senders) + {t}, Members(s.receivers));
  }

  lemma Shift(gone: seq<int>, mails: seq<int>)
    requires mails != []
    ensures gone + mails == gone + [mails[0]] + mails[1..]
  {
    assert mails == [mails[0]] + mails[1..];
  }

  ghost predicate ReceiverLooks(s: State, t: Tid, b: set<Tid>) {
    && Core(s) && Threads(s.phase, Members(s.senders), b) && Same(b, Members(s.receivers), t) && t in s.phase
    && SideOk(s.senders, s.cap - |s.mails|) && SideOk(s.receivers, Less(|s.mails|))
    && t !in Members(s.senders) && t !in Members(s.receivers)
  }

  lemma TryRecvOk(s: State, t: Tid, time: int, b: set<Tid>)
    requires ReceiverLooks(s, t, b)
    ensures Inv(TryRecv(s, t, time))
  {
    if s.mails != [] {
      ReceiverTakes(s, t, time, b);
    } else if time == 0 {
      Moved(s.phase, t, Running, Members(s.senders), b, Members(s.senders), Members(s.receivers));
    } else {
      ReceiverBlocks(s, t, time, b);
    }
  }

  lemma ReceiverTakes(s: State, t: Tid, time: int, b: set<Tid>)
    requires ReceiverLooks(s, t, b) && s.mails != []
    ensures Inv(TryRecv(s, t, time))
  {
    WakeOneOk(s.senders, s.cap - |s.mails|);
    Moved(s.phase, t, Running, Members(s.senders), b, Members(s.senders), Members(s.receivers));
    Shift(s.gone, s.mails);
  }

  lemma ReceiverBlocks(s: State, t: Tid, time: int, b: set<Tid>)
    requires ReceiverLooks(s, t, b) && s.mails == [] && time != 0
    ensures Inv(TryRecv(s, t, time))
  {
    BlockOk(s.receivers, t, s.prio[t]);
    Moved(s.phase, t, Receiver(time > 0), Members(s.senders), b, Members(s.senders), Members(s.receivers) + {t});
  }

  function Initial(cap: nat, flag: Flag, prio: map<Tid, nat>): State {
    State(cap, [], Side(flag, [], 0, {}), Side(flag, [], 0, {}), map t | t in prio :: Running, prio, [], [])
  }

  lemma InitialOk(cap: nat, flag: Flag, prio: map<Tid, nat>)
    ensures Inv(Initial(cap, flag, prio))
  {
    var s := Initial(cap, flag, prio);
    NobodyOk(flag, cap);
    NobodyOk(flag, 0);
    assert Threads(s.phase, {}, {});
  }

  datatype Event =
    | SendBy(t: Tid, value: int, time: int)
    | SendAgainBy(t: Tid, left: int)
    | RecvBy(t: Tid, time: int)
    | RecvAgainBy(t: Tid, left: int)
    | TimeoutOf(t: Tid)
    | FailBy(t: Tid)
    | ResetIt

  ghost predicate Legal(s: State, v: Event) {
    if v.ResetIt? then true
    else v.t in s.phase && v.t in s.prio && match v
      case SendBy(t, _, _) => s.phase[t] == Running
      case SendAgainBy(t, left) => t in s.senders.woken && s.phase[t].Sender? && (s.phase[t].timed <==> left >= 0)
      case RecvBy(t, _) => s.phase[t] == Running
      case RecvAgainBy(t, left) => t in s.receivers.woken && s.phase[t].Receiver? && (s.phase[t].timed <==> left >= 0)
      case TimeoutOf(t) =>
        || (t in Ids(s.senders.waiters) && s.phase[t].Sender? && s.phase[t].timed)
        || (t in Ids(s.receivers.waiters) && s.phase[t].Receiver? && s.phase[t].timed)
      case FailBy(t) => s.phase[t].Failing?
  }

  ghost function Step(s: State, v: Event): State
    requires Legal(s, v)
  {
    match v
    case SendBy(t, value, time) => TrySend(s, t, value, time)
    case SendAgainBy(t, left) => TrySend(s.(senders := Proceed(s.senders, t)), t, s.phase[t].value, left)
    case RecvBy(t, time) => TryRecv(s, t, time)
    case RecvAgainBy(t, left) => TryRecv(s.(receivers := Proceed(s.receivers, t)), t, left)
    case TimeoutOf(t) => Timeout(s, t)
    case FailBy(t) => s.(phase := s.phase[t := Running])
    case ResetIt => Reset(s)
  }

  lemma ResetOk(s: State)
    requires Inv(s)
    ensures Inv(Reset(s))
  {
    FailedAll(s.phase, s.senders, s.receivers);
    assert SendAll(s.phase, Ids(s.senders.waiters) + Ids(s.receivers.waiters), Failing).Keys == s.phase.Keys;
  }

  lemma FailedAll(phase: map<Tid, Phase>, a: Side, b: Side)
    requires Threads(phase, Members(a), Members(b)) && Ids(a.waiters) !! a.woken && Ids(b.waiters) !! b.woken
    ensures Threads(SendAll(phase, Ids(a.waiters) + Ids(b.waiters), Failing), Members(WakeAll(a)), Members(WakeAll(b)))
  {
    var after := SendAll(phase, Ids(a.waiters) + Ids(b.waiters), Failing);
    forall t | t in after ensures Placed(after[t], t in Members(WakeAll(a)), t in Members(WakeAll(b))) {
      assert Placed(phase[t], t in Members(a), t in Members(b));
    }
  }

  lemma TimeoutOk(s: State, t: Tid)
    requires Inv(s) && Legal(s, TimeoutOf(t))
    ensures Inv(Timeout(s, t))
  {
    assert Placed(s.phase[t], t in Members(s.senders), t in Members(s.receivers));
    var e := Timeout(s, t);
    LeftOk(s.senders, t, s.cap - |s.mails|);
    LeftOk(s.receivers, t, |s.mails|);
    Moved(s.phase, t, Failing, Members(s.senders), Members(s.receivers), Members(e.senders), Members(e.receivers));
  }

  lemma SendAgainOk(s: State, t: Tid, left: int)
    requires Inv(s) && Legal(s, SendAgainBy(t, left))
    ensures Inv(Step(s, SendAgainBy(t, left)))
  {
    assert Placed(s.phase[t], t in Members(s.senders), t in Members(s.receivers));
    ProceedOk(s.senders, t, s.cap - |s.mails|);
    TrySendOk(s.(senders := Proceed(s.senders, t)), t, s.phase[t].value, left, Members(s.senders));
  }

  lemma RecvAgainOk(s: State, t: Tid, left: int)
    requires Inv(s) && Legal(s, RecvAgainBy(t, left))
    ensures Inv(Step(s, RecvAgainBy(t, left)))
  {
    assert Placed(s.phase[t], t in Members(s.senders), t in Members(s.receivers));
    ProceedOk(s.receivers, t, |s.mails|);
    TryRecvOk(s.(receivers := Proceed(s.receivers, t)), t, left, Members(s.receivers));
  }

  lemma StepOk(s: State, v: Event)
    requires Inv(s) && Legal(s, v)
    ensures Inv(Step(s, v))
  {
    if v.ResetIt? {
      ResetOk(s);
    } else {
      assert Placed(s.phase[v.t], v.t in Members(s.senders), v.t in Members(s.receivers));
      match v
      case SendBy(t, value, time) => TrySendOk(s, t, value, time, Members(s.senders));
      case RecvBy(t, time) => TryRecvOk(s, t, time, Members(s.receivers));
      case TimeoutOf(t) => TimeoutOk(s, t);
      case FailBy(t) =>
        Moved(s.phase, t, Running, Members(s.senders), Members(s.receivers), Members(s.senders), Members(s.receivers));
      case SendAgainBy(t, left) => SendAgainOk(s, t, left);
      case RecvAgainBy(t, left) => RecvAgainOk(s, t, left);
    }
  }

  ghost predicate LegalRun(s: State, vs: seq<Event>)
    decreases |vs|
  {
    vs == [] || (Legal(s, vs[0]) && LegalRun(Step(s, vs[0]), vs[1..]))
  }

  ghost function Run(s: State, vs: seq<Event>): State
    requires LegalRun(s, vs)
    decreases |vs|
  {
    if vs == [] then s else Run(Step(s, vs[0]), vs[1..])
  }

  lemma {:induction false} RunOk(s: State, vs: seq<Event>)
    requires Inv(s) && LegalRun(s, vs)
    ensures Inv(Run(s, vs))
    decreases |vs|
  {
    if vs != [] {
      StepOk(s, vs[0]);
      RunOk(Step(s, vs[0]), vs[1..]);
    }
  }

  /** Over every interleaving, with slot stealing and timeouts: free slots never outnumber the senders
      woken for them while senders are blocked, nor mails the receivers woken for them while receivers
      are blocked; and mails leave in the order they were posted. */
  lemma NoLostWakeups(s: State, vs: seq<Event>)
    requires Inv(s) && LegalRun(s, vs)
    ensures var e := Run(s, vs);
      && (e.senders.waiters != [] ==> e.cap - |e.mails| <= |e.senders.woken|)
      && (e.receivers.waiters != [] ==> |e.mails| <= |e.receivers.woken|)
      && |e.mails| <= e.cap && e.posted == e.gone + e.mails
  {
    RunOk(s, vs);
  }

  // --- the object ---

  /** Index arithmetic of the ring: i is at most twice around. */
  function Wrap(i: nat, size: nat): nat { if i < size then i else i - size }

  datatype Attempt = Done | Blocked | Refused

  class Box {
    const pool: array<int>
    const flag: Flag
    const prio: map<Tid, nat>
    var entry: nat
    var inOffset: nat
    var outOffset: nat
    var senders: seq<Waiter>
    var sendArrivals: nat
    var receivers: seq<Waiter>
    var recvArrivals: nat
    ghost var m: State

    /** The buffer holds the mails from outOffset on, round the end. */
    ghost predicate Holds(mails: seq<int>)
      reads this`entry, this`inOffset, this`outOffset, pool
    {
      && entry == |mails| <= pool.Length
      && (if pool.Length == 0 then inOffset == outOffset == 0
          else outOffset < pool.Length && inOffset == Wrap(outOffset + entry, pool.Length))
      && forall i :: 0 <= i < entry ==> mails[i] == pool[Wrap(outOffset + i, pool.Length)]
    }

    ghost predicate Lists()
      reads this
    {
      && pool.Length == m.cap && prio == m.prio && m.senders.flag == m.receivers.flag == flag
      && senders == m.senders.waiters && sendArrivals == m.senders.arrivals
      && receivers == m.receivers.waiters && recvArrivals == m.receivers.arrivals
    }

    ghost predicate Valid()
      reads this, pool
    {
      Holds(m.mails) && Lists()
    }

    constructor (size: nat, flag: Flag, prio: map<Tid, nat>)
      ensures Valid() && m == Initial(size, flag, prio) && fresh(pool)
    {
      pool := new int[size];
      this.flag, this.prio := flag, prio;
      entry, inOffset, outOffset, senders, sendArrivals, receivers, recvArrivals := 0, 0, 0, [], 0, [], 0;
      m := Initial(size, flag, prio);
    }

    /** The buffer part of rt_mb_send_wait. */
    method Put(value: int, ghost mails: seq<int>)
      requires Holds(mails) && entry < pool.Length
      modifies this`entry, this`inOffset, pool
      ensures Holds(mails + [value])
    {
      pool[inOffset] := value;
      inOffset := inOffset + 1;
      if inOffset >= pool.Length {
        inOffset := 0;
      }
      entry := entry + 1;
    }

    /** The buffer part of rt_mb_recv. */
    method Get(ghost mails: seq<int>) returns (value: int)
      requires Holds(mails) && entry > 0
      modifies this`entry, this`outOffset
      ensures value == mails[0] && Holds(mails[1..])
    {
      value := pool[outOffset];
      outOffset := outOffset + 1;
      if outOffset >= pool.Length {
        outOffset := 0;
      }
      entry := entry - 1;
    }

    /** One round of the loop of rt_mb_send_wait. */
    method SendSection(t: Tid, value: int, left: int, ghost woken: bool) returns (r: Attempt)
      requires Valid() && t in prio
      modifies this, pool
      ensures Valid()
      ensures var s := if woken then old(m).(senders := Proceed(old(m).senders, t)) else old(m); m == TrySend(s, t, value, left)
      ensures r == if old(|m.mails| < m.cap) then Done else if left == 0 then Refused else Blocked
    {
      ghost var s := if woken then m.(senders := Proceed(m.senders, t)) else m;
      if entry == pool.Length {
        if left == 0 {
          r := Refused;
        } else {
          var w := Waiter(t, prio[t], sendArrivals);
          var k := Place(flag, senders, w);
          senders := InsertAt(senders, k, w);
          sendArrivals := sendArrivals + 1;
          r := Blocked;
        }
      } else {
        Put(value, m.mails);
        if receivers != [] {
          receivers := receivers[1..];
        }
        r := Done;
      }
      m := TrySend(s, t, value, left);
    }

    /** One round of the loop of rt_mb_recv. */
    method RecvSection(t: Tid, left: int, ghost woken: bool) returns (r: Attempt, value: int)
      requires Valid() && t in prio
      modifies this
      ensures Valid()
      ensures var s := if woken then old(m).(receivers := Proceed(old(m).receivers, t)) else old(m); m == TryRecv(s, t, left)
      ensures r == if old(m.mails) != [] then Done else if left == 0 then Refused else Blocked
      ensures r == Done ==> old(m.mails) == [value] + m.mails
    {
      ghost var s := if woken then m.(receivers := Proceed(m.receivers, t)) else m;
      value := 0;
      if entry == 0 {
        if left == 0 {
          r := Refused;
        } else {
          var w := Waiter(t, prio[t], recvArrivals);
          var k := Place(flag, receivers, w);
          receivers := InsertAt(receivers, k, w);
          recvArrivals := recvArrivals + 1;
          r := Blocked;
        }
      } else {
        value := Get(m.mails);
        if senders != [] {
          senders := senders[1..];
        }
        r := Done;
      }
      m := TryRecv(s, t, left);
    }

    /** rt_mb_control with RT_IPC_CMD_RESET. */
    method ResetBox()
      requires Valid()
      modifies this
      ensures Valid() && m == Reset(old(m))
    {
      receivers, senders := [], [];
      entry, inOffset, outOffset := 0, 0, 0;
      m := Reset(m);
    }
  }
}
