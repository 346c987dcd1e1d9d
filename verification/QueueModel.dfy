/** A message queue of ipc.c as a transition system.  Sending and receiving run in separate sections
    with interrupts disabled (unlink a node, copy, link it again); between them the thread keeps the
    node in a local variable and any other thread may move. */
module QueueModel {
  import opened Seqs
  import opened Chain
  import opened WaitLists
  import opened Sides

  type Byte = x: int | 0 <= x < 256
  type Msg = seq<Byte>

  /** Where a thread is.  `took` remembers the message at the head when its node was unlinked. */
  datatype Phase =
    | Running
    | Sender(msg: Msg, timed: bool)       // blocked, or woken and about to look again
    | Sending(msg: Msg, urgent: bool)     // holds an empty node
    | Filled(msg: Msg, urgent: bool)      // holds a node with its message
    | Receiver(size: nat, timed: bool)    // blocked, or woken and about to look again
    | Receiving(size: nat, took: Msg)     // holds the former head
    | Drained(got: Msg, took: Msg)        // holds the former head, and has copied it
    | Failing                             // about to return an error
  {
    predicate Busy() { Sending? || Filled? || Receiving? || Drained? }
  }

  /** `held` is the local variable msg of each thread.  `sent` is the queue as a sequence of messages;
      `linked`, `taken` and `dropped` record every message queued, received and discarded by a reset. */
  datatype State = State(
    pool: set<Node>, size: nat, free: seq<Node>, queue: seq<Node>, held: map<Tid, Node>, slot: map<Node, Msg>,
    senders: Side, receivers: Side, phase: map<Tid, Phase>, prio: map<Tid, nat>,
    sent: seq<Msg>, linked: seq<Msg>, taken: seq<Msg>, dropped: multiset<Msg>)

  /** rt_mq_send_wait from the top of its loop on. */
  function TrySend(s: State, t: Tid, msg: Msg, time: int): State
    requires t in s.prio
  {
    if s.free != [] then
      s.(free := s.free[1..], held := s.held[t := s.free[0]], phase := s.phase[t := Sending(msg, false)])
    else if time == 0 then s.(phase := s.phase[t := Running])
    else s.(senders := Block(s.senders, t, s.prio[t]), phase := s.phase[t := Sender(msg, time > 0)])
  }

  /** The first section of rt_mq_send_wait. */
  function Send(s: State, t: Tid, msg: Msg, time: int): State
    requires t in s.prio
  {
    if |msg| > s.size then s else TrySend(s, t, msg, time)
  }

  /** A woken sender looks again. */
  function SendAgain(s: State, t: Tid, left: int): State
    requires t in s.prio && t in s.phase && s.phase[t].Sender?
  {
    TrySend(s.(senders := Proceed(s.senders, t)), t, s.phase[t].msg, left)
  }

  /** The first section of rt_mq_urgent. */
  function Urgent(s: State, t: Tid, msg: Msg): State {
    if |msg| > s.size || s.free == [] then s
    else s.(free := s.free[1..], held := s.held[t := s.free[0]], phase := s.phase[t := Sending(msg, true)])
  }

  /** rt_memcpy into the node. */
  function Fill(s: State, t: Tid): State
    requires t in s.phase && s.phase[t].Sending? && t in s.held && s.held[t] in s.slot
    requires |s.phase[t].msg| <= |s.slot[s.held[t]]|
  {
    var n, msg := s.held[t], s.phase[t].msg;
    s.(slot := s.slot[n := msg + s.slot[n][|msg|..]], phase := s.phase[t := Filled(msg, s.phase[t].urgent)])
  }

  /** The last section of rt_mq_send_wait and of rt_mq_urgent. */
  function Link(s: State, t: Tid): State
    requires t in s.phase && s.phase[t].Filled? && t in s.held
  {
    var n, msg := s.held[t], s.phase[t].msg;
    s.(queue := if s.phase[t].urgent then [n] + s.queue else s.queue + [n],
       sent := if s.phase[t].urgent then [msg] + s.sent else s.sent + [msg],
       linked := s.linked + [msg], held := s.held - {t}, phase := s.phase[t := Running],
       receivers := WakeOne(s.receivers))
  }

  /** The head leaves the queue for the hands of t. */
  function Unqueue(s: State, t: Tid, size: nat): State
    requires s.queue != [] && |s.queue| == |s.sent|
  {
    s.(queue := s.queue[1..], held := s.held[t := s.queue[0]], phase := s.phase[t := Receiving(size, s.sent[0])],
       sent := s.sent[1..], taken := s.taken + [s.sent[0]])
  }

  /** rt_mq_recv from the top of its loop on. */
  function TryRecv(s: State, t: Tid, size: nat, time: int): State
    requires t in s.prio && |s.sent| == |s.queue|
  {
    if s.queue != [] then Unqueue(s, t, size)
    else if time == 0 then s.(phase := s.phase[t := Running])
    else s.(receivers := Block(s.receivers, t, s.prio[t]), phase := s.phase[t := Receiver(size, time > 0)])
  }

  /** A woken receiver looks again. */
  function RecvAgain(s: State, t: Tid, left: int): State
    requires t in s.prio && t in s.phase && s.phase[t].Receiver? && |s.sent| == |s.queue|
  {
    TryRecv(s.(receivers := Proceed(s.receivers, t)), t, s.phase[t].size, left)
  }

  /** rt_memcpy out of the node. */
  function Drain(s: State, t: Tid): State
    requires t in s.phase && s.phase[t].Receiving? && t in s.held && s.held[t] in s.slot
    requires s.size <= |s.slot[s.held[t]]|
  {
    var n := if s.phase[t].size > s.size then s.size else s.phase[t].size;
    s.(phase := s.phase[t := Drained(s.slot[s.held[t]][..n], s.phase[t].took)])
  }

  /** The last section of rt_mq_recv. */
  function Release(s: State, t: Tid): State
    requires t in s.held
  {
    s.(free := [s.held[t]] + s.free, held := s.held - {t}, phase := s.phase[t := Running],
       senders := WakeOne(s.senders))
  }

  /** rt_thread_timeout on a blocked sender or receiver. */
  function Timeout(s: State, t: Tid): State {
    s.(senders := Leave(s.senders, t), receivers := Leave(s.receivers, t), phase := s.phase[t := Failing])
  }

  function Reversed(q: seq<Node>): seq<Node> { if q == [] then [] else Reversed(q[1..]) + [q[0]] }

  /** rt_mq_control with RT_IPC_CMD_RESET. */
  function Reset(s: State): State {
    s.(free := Reversed(s.queue) + s.free, queue := [], sent := [], dropped := s.dropped + multiset(s.sent),
       phase := SendAll(s.phase, Ids(s.senders.waiters) + Ids(s.receivers.waiters), Failing),
       senders := WakeAll(s.senders), receivers := WakeAll(s.receivers))
  }

  // --- the nodes ---

  ghost predicate InHand(held: map<Tid, Node>, n: Node) { exists t :: t in held && held[t] == n }

  /** Every node of the pool is in exactly one place: free, queued, or in the hands of one thread. */
  ghost predicate Partition(pool: set<Node>, free: seq<Node>, queue: seq<Node>, held: map<Tid, Node>) {
    && Distinct(free) && Distinct(queue) && Null !in pool
    && (forall n :: n in free ==> n !in queue)
    && (forall t :: t in held ==> held[t] !in free && held[t] !in queue)
    && (forall t, u :: t in held && u in held && t != u ==> held[t] != held[u])
    && (forall n :: n in pool <==> n in free || n in queue || InHand(held, n))
  }

  lemma TakeFree(pool: set<Node>, free: seq<Node>, queue: seq<Node>, held: map<Tid, Node>, t: Tid)
    requires Partition(pool, free, queue, held) && free != [] && t !in held
    ensures Partition(pool, free[1..], queue, held[t := free[0]])
  {
    var h, f := held[t := free[0]], free[1..];
    assert free == [free[0]] + f && free[0] in free;
    forall n ensures n in pool <==> n in f || n in queue || InHand(h, n) {
      assert h[t] == free[0];
      if InHand(held, n) { var u :| u in held && held[u] == n; assert h[u] == n; }
      if InHand(h, n) { var u :| u in h && h[u] == n; assert u != t ==> held[u] == n; }
    }
  }

  /** The same for the queue, by exchanging the roles of free list and queue. */
  lemma TakeQueued(pool: set<Node>, free: seq<Node>, queue: seq<Node>, held: map<Tid, Node>, t: Tid)
    requires Partition(pool, free, queue, held) && queue != [] && t !in held
    ensures Partition(pool, free, queue[1..], held[t := queue[0]])
  {
    assert Partition(pool, queue, free, held);
    TakeFree(pool, queue, free, held, t);
  }

  lemma GiveFree(pool: set<Node>, free: seq<Node>, queue: seq<Node>, held: map<Tid, Node>, t: Tid, atFront: bool)
    requires Partition(pool, free, queue, held) && t in held
    ensures Partition(pool, if atFront then [held[t]] + free else free + [held[t]], queue, held - {t})
  {
    var h, f := held - {t}, if atFront then [held[t]] + free else free + [held[t]];
    forall n ensures n in pool <==> n in f || n in queue || InHand(h, n) {
      if InHand(held, n) { var u :| u in held && held[u] == n; assert u != t ==> u in h && h[u] == n; }
      if InHand(h, n) { var u :| u in h && h[u] == n; assert held[u] == n; }
    }
  }

  lemma GiveQueued(pool: set<Node>, free: seq<Node>, queue: seq<Node>, held: map<Tid, Node>, t: Tid, atFront: bool)
    requires Partition(pool, free, queue, held) && t in held
    ensures Partition(pool, free, if atFront then [held[t]] + queue else queue + [held[t]], held - {t})
  {
    assert Partition(pool, queue, free, held);
    GiveFree(pool, queue, free, held, t, atFront);
  }

  lemma {:induction false} ReversedMembers(q: seq<Node>)
    requires Distinct(q)
    ensures Distinct(Reversed(q)) && |Reversed(q)| == |q| && forall n :: n in Reversed(q) <==> n in q
  {
    if q != [] {
      ReversedMembers(q[1..]);
      assert q == [q[0]] + q[1..] && q[0] !in q[1..];
    }
  }

  lemma Flush(pool: set<Node>, free: seq<Node>, queue: seq<Node>, held: map<Tid, Node>)
    requires Partition(pool, free, queue, held)
    ensures Partition(pool, Reversed(queue) + free, [], held)
  {
    ReversedMembers(queue);
    var r := Reversed(queue);
    forall i, j | 0 <= i < j < |r + free| ensures (r + free)[i] != (r + free)[j] {
      assert i < |r| ==> r[i] in r;
      assert j >= |r| ==> free[j - |r|] in free;
    }
  }

  // --- the messages ---

  /** The node's slot starts with the message. */
  predicate Carries(slot: map<Node, Msg>, n: Node, msg: Msg) {
    n in slot && |msg| <= |slot[n]| && slot[n][..|msg|] == msg
  }

  /** A receiver with a smaller buffer gets the beginning of the message, one with a larger buffer the
      whole of it and then whatever the slot held before. */
  predicate Agree(got: Msg, msg: Msg) {
    if |got| <= |msg| then got == msg[..|got|] else got[..|msg|] == msg
  }

  predicate Keeps(p: Phase, n: Node, slot: map<Node, Msg>) {
    match p
    case Filled(msg, _) => Carries(slot, n, msg)
    case Receiving(_, took) => Carries(slot, n, took)
    case Drained(got, took) => Agree(got, took)
    case _ => true
  }

  ghost predicate Slots(pool: set<Node>, size: nat, slot: map<Node, Msg>) {
    slot.Keys == pool && forall n :: n in slot ==> |slot[n]| == size
  }

  ghost predicate Queued(slot: map<Node, Msg>, queue: seq<Node>, sent: seq<Msg>) {
    |sent| == |queue| && forall i :: 0 <= i < |queue| ==> Carries(slot, queue[i], sent[i])
  }

  predicate Short(p: Phase, size: nat) { p.Sender? || p.Sending? ==> |p.msg| <= size }

  ghost predicate Hands(phase: map<Tid, Phase>, held: map<Tid, Node>, slot: map<Node, Msg>, size: nat) {
    && (forall t :: t in phase && t in held ==> Keeps(phase[t], held[t], slot))
    && (forall t :: t in phase ==> Short(phase[t], size))
  }

  lemma QueuedMore(slot: map<Node, Msg>, queue: seq<Node>, sent: seq<Msg>, n: Node, msg: Msg, urgent: bool)
    requires Queued(slot, queue, sent) && Carries(slot, n, msg)
    ensures Queued(slot, if urgent then [n] + queue else queue + [n], if urgent then [msg] + sent else sent + [msg])
  {
  }

  lemma QueuedLess(slot: map<Node, Msg>, queue: seq<Node>, sent: seq<Msg>)
    requires Queued(slot, queue, sent) && queue != []
    ensures Queued(slot, queue[1..], sent[1..]) && Carries(slot, queue[0], sent[0])
  {
  }

  /** Thread t moves on to phase p, perhaps taking or giving up a node. */
  lemma HandsMoved(phase: map<Tid, Phase>, held: map<Tid, Node>, slot: map<Node, Msg>, size: nat, t: Tid, p: Phase,
                   held': map<Tid, Node>)
    requires Hands(phase, held, slot, size) && Short(p, size) && (t in held' ==> Keeps(p, held'[t], slot))
    requires forall u :: u in held' && u != t ==> u in held && held[u] == held'[u]
    ensures Hands(phase[t := p], held', slot, size)
  {
  }

  // --- the threads ---

  /** Being blocked or woken on a side, and holding a node, are told by the phase. */
  ghost predicate Threads(phase: map<Tid, Phase>, senders: set<Tid>, receivers: set<Tid>, holders: set<Tid>) {
    && senders + receivers + holders <= phase.Keys
    && forall t :: t in phase ==> Placed(phase[t], t in senders, t in receivers, t in holders)
  }

  predicate Placed(p: Phase, sends: bool, receives: bool, holds: bool) {
    (p.Sender? <==> sends) && (p.Receiver? <==> receives) && (p.Busy() <==> holds)
  }

  /** Thread t moves on to phase p. */
  lemma Moved(phase: map<Tid, Phase>, t: Tid, p: Phase, a: set<Tid>, b: set<Tid>, c: set<Tid>,
              a': set<Tid>, b': set<Tid>, c': set<Tid>)
    requires t in phase && Threads(phase, a, b, c) && Placed(p, t in a', t in b', t in c')
    requires Same(a, a', t) && Same(b, b', t) && Same(c, c', t)
    ensures Threads(phase[t := p], a', b', c')
  {
    forall u | u in phase[t := p] ensures Placed(phase[t := p][u], u in a', u in b', u in c') {
      if u != t { assert Placed(phase[u], u in a, u in b, u in c); }
    }
    forall u | u in a' + b' + c' ensures u in phase[t := p] {
      if u != t { assert u in a + b + c; }
    }
  }

  ghost predicate Books(linked: seq<Msg>, taken: seq<Msg>, sent: seq<Msg>, dropped: multiset<Msg>) {
    multiset(linked) == multiset(taken) + multiset(sent) + dropped
  }

  /** Nodes, messages and records. */
  ghost predicate Core(s: State) {
    && Partition(s.pool, s.free, s.queue, s.held)
    && Slots(s.pool, s.size, s.slot) && Queued(s.slot, s.queue, s.sent) && Hands(s.phase, s.held, s.slot, s.size)
    && Books(s.linked, s.taken, s.sent, s.dropped) && s.phase.Keys == s.prio.Keys
  }

  ghost predicate Inv(s: State) {
    && Core(s) && Threads(s.phase, Members(s.senders), Members(s.receivers), s.held.Keys)
    && SideOk(s.senders, |s.free|) && SideOk(s.receivers, |s.queue|)
  }

  /** Thread t, which holds no node, changes phase and sides. */
  lemma Settled(s: State, t: Tid, p: Phase, a: set<Tid>, b: set<Tid>, x: Side, y: Side)
    requires Core(s) && Threads(s.phase, a, b, s.held.Keys) && t in s.phase && t !in s.held && Short(p, s.size)
    requires SideOk(x, |s.free|) && SideOk(y, |s.queue|) && Placed(p, t in Members(x), t in Members(y), false)
    requires Same(a, Members(x), t) && Same(b, Members(y), t)
    ensures Inv(s.(senders := x, receivers := y, phase := s.phase[t := p]))
  {
    Moved(s.phase, t, p, a, b, s.held.Keys, Members(x), Members(y), s.held.Keys);
    HandsMoved(s.phase, s.held, s.slot, s.size, t, p, s.held);
  }

  /** A sender, newcomer or just woken, looks for a free node; `a` are the senders before it. */
  ghost predicate SenderLooks(s: State, t: Tid, a: set<Tid>) {
    && Core(s) && Threads(s.phase, a, Members(s.receivers), s.held.Keys) && Same(a, Members(s.senders), t)
    && SideOk(s.senders, Less(|s.free|)) && SideOk(s.receivers, |s.queue|)
    && t in s.phase && t !in s.held && t !in Members(s.receivers) && t !in Members(s.senders)
  }

  lemma TakeNode(s: State, t: Tid, msg: Msg, urgent: bool, a: set<Tid>)
    requires SenderLooks(s, t, a) && s.free != [] && |msg| <= s.size
    ensures Inv(s.(free := s.free[1..], held := s.held[t := s.free[0]], phase := s.phase[t := Sending(msg, urgent)]))
  {
    var held := s.held[t := s.free[0]];
    TakeFree(s.pool, s.free, s.queue, s.held, t);
    Moved(s.phase, t, Sending(msg, urgent), a, Members(s.receivers), s.held.Keys, Members(s.senders), Members(s.receivers), held.Keys);
    HandsMoved(s.phase, s.held, s.slot, s.size, t, Sending(msg, urgent), held);
  }

  lemma TrySendOk(s: State, t: Tid, msg: Msg, time: int, a: set<Tid>)
    requires SenderLooks(s, t, a) && |msg| <= s.size
    ensures Inv(TrySend(s, t, msg, time))
  {
    if s.free != [] {
      TakeNode(s, t, msg, false, a);
    } else if time == 0 {
      Settled(s, t, Running, a, Members(s.receivers), s.senders, s.receivers);
    } else {
      SenderBlocks(s, t, msg, time, a, Block(s.senders, t, s.prio[t]));
    }
  }

  lemma SenderBlocks(s: State, t: Tid, msg: Msg, time: int, a: set<Tid>, x: Side)
    requires SenderLooks(s, t, a) && |msg| <= s.size && s.free == [] && t in s.prio && x == Block(s.senders, t, s.prio[t])
    ensures Inv(s.(senders := x, receivers := s.receivers, phase := s.phase[t := Sender(msg, time > 0)]))
  {
    BlockOk(s.senders, t, s.prio[t]);
    Settled(s, t, Sender(msg, time > 0), a, Members(s.receivers), x, s.receivers);
  }

  lemma SendOk(s: State, t: Tid, msg: Msg, time: int)
    requires Inv(s) && t in s.phase && s.phase[t] == Running
    ensures Inv(Send(s, t, msg, time))
  {
    assert Placed(s.phase[t], t in Members(s.senders), t in Members(s.receivers), t in s.held.Keys);
    if |msg| <= s.size { TrySendOk(s, t, msg, time, Members(s.senders)); }
  }

  lemma SendAgainOk(s: State, t: Tid, left: int)
    requires Inv(s) && t in s.senders.woken
    ensures t in s.phase && s.phase[t].Sender? && Inv(SendAgain(s, t, left))
  {
    ProceedOk(s.senders, t, |s.free|);
    assert t in Members(s.senders) && t in s.phase;
    assert Placed(s.phase[t], t in Members(s.senders), t in Members(s.receivers), t in s.held.Keys);
    assert Short(s.phase[t], s.size);
    var m := s.(senders := Proceed(s.senders, t));
    assert Core(m);
    TrySendOk(m, t, s.phase[t].msg, left, Members(s.senders));
  }

  lemma UrgentOk(s: State, t: Tid, msg: Msg)
    requires Inv(s) && t in s.phase && s.phase[t] == Running
    ensures Inv(Urgent(s, t, msg))
  {
    if |msg| <= s.size && s.free != [] {
      assert Placed(s.phase[t], t in Members(s.senders), t in Members(s.receivers), t in s.held.Keys);
      TakeNode(s, t, msg, true, Members(s.senders));
    }
  }

  /** Writing a node that only its holder has changes no other message. */
  lemma FillOk(s: State, t: Tid)
    requires Inv(s) && t in s.phase && s.phase[t].Sending?
    ensures t in s.held && s.held[t] in s.slot && |s.phase[t].msg| <= |s.slot[s.held[t]]| && Inv(Fill(s, t))
  {
    assert Placed(s.phase[t], t in Members(s.senders), t in Members(s.receivers), t in s.held.Keys);
    assert Short(s.phase[t], s.size);
    var n := s.held[t];
    assert InHand(s.held, n) && n in s.pool && |s.slot[n]| == s.size;
    var e := Fill(s, t);
    assert Carries(e.slot, n, s.phase[t].msg);
    forall i | 0 <= i < |s.queue| ensures Carries(e.slot, e.queue[i], e.sent[i]) {
      assert s.queue[i] in s.queue && Carries(s.slot, s.queue[i], s.sent[i]);
    }
    forall u | u in e.phase && u in e.held ensures Keeps(e.phase[u], e.held[u], e.slot) {
      if u != t { assert Keeps(s.phase[u], s.held[u], s.slot) && s.held[u] != n; }
    }
    Moved(s.phase, t, e.phase[t], Members(s.senders), Members(s.receivers), s.held.Keys,
          Members(s.senders), Members(s.receivers), s.held.Keys);
  }

  lemma LinkCore(s: State, t: Tid)
    requires Core(s) && t in s.phase && s.phase[t].Filled? && t in s.held
    ensures Core(Link(s, t))
  {
    assert Keeps(s.phase[t], s.held[t], s.slot);
    GiveQueued(s.pool, s.free, s.queue, s.held, t, s.phase[t].urgent);
    QueuedMore(s.slot, s.queue, s.sent, s.held[t], s.phase[t].msg, s.phase[t].urgent);
    HandsMoved(s.phase, s.held, s.slot, s.size, t, Running, s.held - {t});
  }

  lemma LinkOk(s: State, t: Tid)
    requires Inv(s) && t in s.phase && s.phase[t].Filled?
    ensures t in s.held && Inv(Link(s, t))
  {
    assert Placed(s.phase[t], t in Members(s.senders), t in Members(s.receivers), t in s.held.Keys);
    LinkCore(s, t);
    WakeOneOk(s.receivers, |s.queue|);
    LinkThreads(s, t, s.held - {t});
  }

  /** A thread that gives its node away runs on. */
  lemma LinkThreads(s: State, t: Tid, held: map<Tid, Node>)
    requires Threads(s.phase, Members(s.senders), Members(s.receivers), s.held.Keys) && t in s.phase && held == s.held - {t}
    requires t !in Members(s.senders) && t !in Members(s.receivers)
    ensures Threads(s.phase[t := Running], Members(s.senders), Members(s.receivers), held.Keys)
  {
    Moved(s.phase, t, Running, Members(s.senders), Members(s.receivers), s.held.Keys,
          Members(s.senders), Members(s.receivers), held.Keys);
  }

  lemma UnqueueCore(s: State, t: Tid, size: nat)
    requires Core(s) && s.queue != [] && t in s.phase && t !in s.held
    ensures Core(Unqueue(s, t, size))
  {
    var held, p := s.held[t := s.queue[0]], Receiving(size, s.sent[0]);
    TakeQueued(s.pool, s.free, s.queue, s.held, t);
    QueuedLess(s.slot, s.queue, s.sent);
    assert s.sent == [s.sent[0]] + s.sent[1..];
    HandsMoved(s.phase, s.held, s.slot, s.size, t, p, held);
  }

  /** A receiver, newcomer or just woken, looks for a message; `b` are the receivers before it. */
  ghost predicate ReceiverLooks(s: State, t: Tid, b: set<Tid>) {
    && Core(s) && Threads(s.phase, Members(s.senders), b, s.held.Keys) && Same(b, Members(s.receivers), t)
    && SideOk(s.receivers, Less(|s.queue|)) && SideOk(s.senders, |s.free|)
    && t in s.phase && t !in s.held && t !in Members(s.receivers) && t !in Members(s.senders)
  }

  lemma UnqueueOk(s: State, t: Tid, size: nat, b: set<Tid>)
    requires ReceiverLooks(s, t, b) && s.queue != []
    ensures Inv(Unqueue(s, t, size))
  {
    UnqueueCore(s, t, size);
    Moved(s.phase, t, Receiving(size, s.sent[0]), Members(s.senders), b, s.held.Keys,
          Members(s.senders), Members(s.receivers), s.held[t := s.queue[0]].Keys);
  }

  lemma TryRecvOk(s: State, t: Tid, size: nat, time: int, b: set<Tid>)
    requires ReceiverLooks(s, t, b)
    ensures Inv(TryRecv(s, t, size, time))
  {
    if s.queue != [] {
      UnqueueOk(s, t, size, b);
    } else if time == 0 {
      Settled(s, t, Running, Members(s.senders), b, s.senders, s.receivers);
    } else {
      ReceiverBlocks(s, t, size, time, b, Block(s.receivers, t, s.prio[t]));
    }
  }

  lemma ReceiverBlocks(s: State, t: Tid, size: nat, time: int, b: set<Tid>, y: Side)
    requires ReceiverLooks(s, t, b) && s.queue == [] && t in s.prio && y == Block(s.receivers, t, s.prio[t])
    ensures Inv(s.(senders := s.senders, receivers := y, phase := s.phase[t := Receiver(size, time > 0)]))
  {
    BlockOk(s.receivers, t, s.prio[t]);
    Settled(s, t, Receiver(size, time > 0), Members(s.senders), b, s.senders, y);
  }

  lemma RecvOk(s: State, t: Tid, size: nat, time: int)
    requires Inv(s) && t in s.phase && s.phase[t] == Running
    ensures Inv(TryRecv(s, t, size, time))
  {
    assert Placed(s.phase[t], t in Members(s.senders), t in Members(s.receivers), t in s.held.Keys);
    TryRecvOk(s, t, size, time, Members(s.receivers));
  }

  lemma RecvAgainOk(s: State, t: Tid, left: int)
    requires Inv(s) && t in s.receivers.woken
    ensures t in s.phase && s.phase[t].Receiver? && Inv(RecvAgain(s, t, left))
  {
    ProceedOk(s.receivers, t, |s.queue|);
    assert t in Members(s.receivers) && t in s.phase;
    assert Placed(s.phase[t], t in Members(s.senders), t in Members(s.receivers), t in s.held.Keys);
    var m := s.(receivers := Proceed(s.receivers, t));
    assert Core(m);
    TryRecvOk(m, t, s.phase[t].size, left, Members(s.receivers));
  }

  /** What the receiver copies agrees with the message that was at the head when it took the node. */
  lemma DrainOk(s: State, t: Tid)
    requires Inv(s) && t in s.phase && s.phase[t].Receiving?
    ensures t in s.held && s.held[t] in s.slot && |s.slot[s.held[t]]| == s.size && Inv(Drain(s, t))
    ensures Agree(Drain(s, t).phase[t].got, s.phase[t].took)
  {
    assert Placed(s.phase[t], t in Members(s.senders), t in Members(s.receivers), t in s.held.Keys);
    var n := s.held[t];
    assert InHand(s.held, n) && n in s.pool && |s.slot[n]| == s.size && Keeps(s.phase[t], n, s.slot);
    var k := if s.phase[t].size > s.size then s.size else s.phase[t].size;
    Prefixes(s.slot[n], s.phase[t].took, k);
    Moved(s.phase, t, Drain(s, t).phase[t], Members(s.senders), Members(s.receivers), s.held.Keys,
          Members(s.senders), Members(s.receivers), s.held.Keys);
  }

  lemma Prefixes(full: Msg, msg: Msg, k: nat)
    requires k <= |full| && |msg| <= |full| && full[..|msg|] == msg
    ensures Agree(full[..k], msg)
  {
    if k <= |msg| {
      assert full[..|msg|][..k] == full[..k];
    } else {
      assert full[..k][..|msg|] == full[..|msg|];
    }
  }

  lemma ReleaseOk(s: State, t: Tid)
    requires Inv(s) && t in s.phase && s.phase[t].Drained?
    ensures t in s.held && Inv(Release(s, t))
  {
    assert Placed(s.phase[t], t in Members(s.senders), t in Members(s.receivers), t in s.held.Keys);
    GiveFree(s.pool, s.free, s.queue, s.held, t, true);
    WakeOneOk(s.senders, |s.free|);
    HandsMoved(s.phase, s.held, s.slot, s.size, t, Running, s.held - {t});
    LinkThreads(s, t, s.held - {t});
  }

  /** A timeout takes the thread off the one list it is on. */
  lemma TimeoutOk(s: State, t: Tid)
    requires Inv(s) && t in s.phase && t in Ids(s.senders.waiters) + Ids(s.receivers.waiters)
    ensures Inv(Timeout(s, t))
  {
    assert Placed(s.phase[t], t in Members(s.senders), t in Members(s.receivers), t in s.held.Keys);
    TimedOut(s, t, Leave(s.senders, t), Leave(s.receivers, t));
  }

  lemma TimedOut(s: State, t: Tid, x: Side, y: Side)
    requires Inv(s) && t in s.phase && t in Ids(s.senders.waiters) + Ids(s.receivers.waiters) && t !in s.held
    requires t !in s.senders.woken && t !in s.receivers.woken && x == Leave(s.senders, t) && y == Leave(s.receivers, t)
    ensures Inv(s.(senders := x, receivers := y, phase := s.phase[t := Failing]))
  {
    LeftOk(s.senders, t, |s.free|);
    LeftOk(s.receivers, t, |s.queue|);
    Settled(s, t, Failing, Members(s.senders), Members(s.receivers), x, y);
  }

  lemma FailedAll(phase: map<Tid, Phase>, a: Side, b: Side, holders: set<Tid>)
    requires Threads(phase, Members(a), Members(b), holders) && Ids(a.waiters) !! a.woken && Ids(b.waiters) !! b.woken
    ensures Threads(SendAll(phase, Ids(a.waiters) + Ids(b.waiters), Failing), Members(WakeAll(a)), Members(WakeAll(b)), holders)
  {
    var who := Ids(a.waiters) + Ids(b.waiters);
    var after := SendAll(phase, who, Failing);
    forall t | t in after ensures Placed(after[t], t in Members(WakeAll(a)), t in Members(WakeAll(b)), t in holders) {
      assert Placed(phase[t], t in Members(a), t in Members(b), t in holders);
    }
  }

  lemma ResetCore(s: State)
    requires Core(s)
    ensures Core(Reset(s))
  {
    var e := Reset(s);
    Flush(s.pool, s.free, s.queue, s.held);
    assert e.phase.Keys == s.phase.Keys;
    forall t | t in e.phase && t in e.held ensures Keeps(e.phase[t], e.held[t], e.slot) {
      assert Keeps(s.phase[t], s.held[t], s.slot);
    }
  }

  lemma ResetOk(s: State)
    requires Inv(s)
    ensures Inv(Reset(s))
  {
    ResetCore(s);
    FailedAll(s.phase, s.senders, s.receivers, s.held.Keys);
  }

  // --- runs ---

  datatype Event =
    | SendBy(t: Tid, msg: Msg, time: int)
    | UrgentBy(t: Tid, msg: Msg)
    | SendAgainBy(t: Tid, left: int)
    | FillBy(t: Tid)
    | LinkBy(t: Tid)
    | RecvBy(t: Tid, size: nat, time: int)
    | RecvAgainBy(t: Tid, left: int)
    | DrainBy(t: Tid)
    | ReleaseBy(t: Tid)
    | TimeoutOf(t: Tid)
    | FailBy(t: Tid)
    | ResetIt

  /** Which section may run next: any thread that is not blocked, at the section it has reached, and the
      timer of any thread blocked for a limited time. */
  ghost predicate Legal(s: State, v: Event) {
    if v.ResetIt? then true
    else v.t in s.phase && match v
      case SendBy(t, _, _) => s.phase[t] == Running
      case UrgentBy(t, _) => s.phase[t] == Running
      case SendAgainBy(t, left) => t in s.senders.woken && s.phase[t].Sender? && (s.phase[t].timed <==> left >= 0)
      case FillBy(t) => s.phase[t].Sending?
      case LinkBy(t) => s.phase[t].Filled?
      case RecvBy(t, _, _) => s.phase[t] == Running
      case RecvAgainBy(t, left) => t in s.receivers.woken && s.phase[t].Receiver? && (s.phase[t].timed <==> left >= 0)
      case DrainBy(t) => s.phase[t].Receiving?
      case ReleaseBy(t) => s.phase[t].Drained?
      case TimeoutOf(t) =>
        || (t in Ids(s.senders.waiters) && s.phase[t].Sender? && s.phase[t].timed)
        || (t in Ids(s.receivers.waiters) && s.phase[t].Receiver? && s.phase[t].timed)
      case FailBy(t) => s.phase[t].Failing?
  }

  /** One step; the guards that Legal and Inv already imply are repeated so that it is total. */
  function Step(s: State, v: Event): State {
    match v
    case SendBy(t, msg, time) => if t in s.prio then Send(s, t, msg, time) else s
    case UrgentBy(t, msg) => Urgent(s, t, msg)
    case SendAgainBy(t, left) => if t in s.prio && t in s.phase && s.phase[t].Sender? then SendAgain(s, t, left) else s
    case FillBy(t) =>
      if t in s.phase && s.phase[t].Sending? && t in s.held && s.held[t] in s.slot && |s.phase[t].msg| <= |s.slot[s.held[t]]|
      then Fill(s, t) else s
    case LinkBy(t) => if t in s.phase && s.phase[t].Filled? && t in s.held then Link(s, t) else s
    case RecvBy(t, size, time) => if t in s.prio && |s.sent| == |s.queue| then TryRecv(s, t, size, time) else s
    case RecvAgainBy(t, left) =>
      if t in s.prio && t in s.phase && s.phase[t].Receiver? && |s.sent| == |s.queue| then RecvAgain(s, t, left) else s
    case DrainBy(t) =>
      if t in s.phase && s.phase[t].Receiving? && t in s.held && s.held[t] in s.slot && s.size <= |s.slot[s.held[t]]|
      then Drain(s, t) else s
    case ReleaseBy(t) => if t in s.held then Release(s, t) else s
    case TimeoutOf(t) => Timeout(s, t)
    case FailBy(t) => s.(phase := s.phase[t := Running])
    case ResetIt => Reset(s)
  }

  lemma StepOk(s: State, v: Event)
    requires Inv(s) && Legal(s, v)
    ensures Inv(Step(s, v))
  {
    match v
    case SendBy(t, msg, time) => SendOk(s, t, msg, time);
    case UrgentBy(t, msg) => UrgentOk(s, t, msg);
    case SendAgainBy(t, left) => SendAgainOk(s, t, left);
    case FillBy(t) => FillOk(s, t);
    case LinkBy(t) => LinkOk(s, t);
    case RecvBy(t, size, time) => RecvOk(s, t, size, time);
    case RecvAgainBy(t, left) => RecvAgainOk(s, t, left);
    case DrainBy(t) => DrainOk(s, t);
    case ReleaseBy(t) => ReleaseOk(s, t);
    case TimeoutOf(t) => TimeoutOk(s, t);
    case FailBy(t) => FailOk(s, t);
    case ResetIt => ResetOk(s);
  }

  lemma FailOk(s: State, t: Tid)
    requires Inv(s) && t in s.phase && s.phase[t].Failing?
    ensures Inv(s.(phase := s.phase[t := Running]))
  {
    assert Placed(s.phase[t], t in Members(s.senders), t in Members(s.receivers), t in s.held.Keys);
    Settled(s, t, Running, Members(s.senders), Members(s.receivers), s.senders, s.receivers);
  }

  ghost predicate LegalRun(s: State, vs: seq<Event>)
    decreases |vs|
  {
    vs == [] || (Legal(s, vs[0]) && LegalRun(Step(s, vs[0]), vs[1..]))
  }

  function Run(s: State, vs: seq<Event>): State
    decreases |vs|
  {
    if vs == [] then s else Run(Step(s, vs[0]), vs[1..])
  }

  lemma {:induction false} RunOk(s: State, vs: seq<Event>)
    requires Inv(s) && LegalRun(s, vs)
    ensures Inv(Run(s, vs))
    decreases |vs|
  {
    if vs != [] {
      StepOk(s, vs[0]);
      RunOk(Step(s, vs[0]), vs[1..]);
    }
  }

  /** While senders are blocked, the free nodes never outnumber the senders woken for them; while
      receivers are blocked, the queued messages never outnumber the receivers woken for them. */
  lemma NoLostWakeups(s: State, vs: seq<Event>)
    requires Inv(s) && LegalRun(s, vs)
    ensures var e := Run(s, vs);
      && (e.senders.waiters != [] ==> |e.free| <= |e.senders.woken|)
      && (e.receivers.waiters != [] ==> |e.queue| <= |e.receivers.woken|)
  {
    RunOk(s, vs);
  }

  // --- the queue as a sequence ---

  function SlotOf(slot: map<Node, Msg>, n: Node): Msg { if n in slot then slot[n] else [] }

  /** What the queued nodes hold, first to last. */
  function Contents(slot: map<Node, Msg>, queue: seq<Node>): seq<Msg> {
    seq(|queue|, i requires 0 <= i < |queue| => SlotOf(slot, queue[i]))
  }

  /** Linking appends the node's message, or prepends an urgent one. */
  lemma LinkRefines(s: State, t: Tid)
    requires t in s.phase && s.phase[t].Filled? && t in s.held && Keeps(s.phase[t], s.held[t], s.slot)
    ensures var e, full := Link(s, t), SlotOf(s.slot, s.held[t]);
      && Carries(s.slot, s.held[t], s.phase[t].msg)
      && Contents(e.slot, e.queue) ==
         if s.phase[t].urgent then [full] + Contents(s.slot, s.queue) else Contents(s.slot, s.queue) + [full]
  {
  }

  /** Receiving takes the first message of the queue, if there is one, into the caller's hands. */
  lemma RecvRefines(s: State, t: Tid, size: nat, time: int)
    requires t in s.prio && |s.sent| == |s.queue|
    ensures var e, before := TryRecv(s, t, size, time), Contents(s.slot, s.queue);
      if before == [] then Contents(e.slot, e.queue) == []
      else t in e.held && before == [SlotOf(e.slot, e.held[t])] + Contents(e.slot, e.queue)
  {
    if s.queue != [] { assert s.queue == [s.queue[0]] + s.queue[1..]; }
  }

  /** A sender filling its own node touches no queued message and no other node in flight. */
  lemma FillStutters(s: State, t: Tid)
    requires Partition(s.pool, s.free, s.queue, s.held)
    ensures var e := Step(s, FillBy(t));
      && Contents(e.slot, e.queue) == Contents(s.slot, s.queue) && e.held == s.held
      && forall u :: u in s.held && u != t ==> SlotOf(e.slot, e.held[u]) == SlotOf(s.slot, s.held[u])
  {
    var e := Step(s, FillBy(t));
    forall i | 0 <= i < |s.queue| ensures SlotOf(e.slot, e.queue[i]) == SlotOf(s.slot, s.queue[i]) {
      assert s.queue[i] in s.queue;
    }
  }

  /** No other section touches the queue or a message at all. */
  lemma OthersStutter(s: State, v: Event)
    requires !v.LinkBy? && !v.RecvBy? && !v.RecvAgainBy? && !v.ResetIt? && !v.FillBy?
    ensures var e := Step(s, v);
      && e.slot == s.slot && e.queue == s.queue
      && forall u :: u in s.held && u != v.t ==> u in e.held && e.held[u] == s.held[u]
  {
    var e, t := Step(s, v), v.t;
    if v.SendBy? || v.UrgentBy? || v.SendAgainBy? {
      assert e.held == s.held || (s.free != [] && e.held == s.held[t := s.free[0]]);
    } else if v.ReleaseBy? && t in s.held {
      assert e.held == s.held - {t};
    } else {
      assert e.held == s.held;
    }
  }

  /** Over every run, each message ever queued is received, still queued, or was discarded by a reset,
      and none is received twice. */
  lemma Conserved(s: State, vs: seq<Event>)
    requires Inv(s) && LegalRun(s, vs)
    ensures var e := Run(s, vs); multiset(e.linked) == multiset(e.taken) + multiset(e.sent) + e.dropped
  {
    RunOk(s, vs);
  }

  ghost predicate Orderly(s: State) {
    && |s.sent| == |s.queue| && s.linked == s.taken + s.sent
    && forall t :: t in s.phase && (s.phase[t].Sending? || s.phase[t].Filled?) ==> !s.phase[t].urgent
  }

  lemma UnqueueOrderly(s: State, t: Tid, size: nat)
    requires Orderly(s) && s.queue != []
    ensures Orderly(Unqueue(s, t, size))
  {
    assert s.sent == [s.sent[0]] + s.sent[1..];
    assert s.taken + s.sent == (s.taken + [s.sent[0]]) + s.sent[1..];
  }

  lemma OrderlySend(s: State, v: Event)
    requires Orderly(s) && (v.SendBy? || v.SendAgainBy? || v.FillBy?)
    ensures Orderly(Step(s, v))
  {
  }

  lemma OrderlyLink(s: State, v: Event)
    requires Orderly(s) && v.LinkBy?
    ensures Orderly(Step(s, v))
  {
    if v.t in s.phase && s.phase[v.t].Filled? { Assoc(s.taken, s.sent, [s.phase[v.t].msg]); }
  }

  lemma OrderlyRecv(s: State, v: Event)
    requires Orderly(s) && (v.RecvBy? || v.RecvAgainBy?)
    ensures Orderly(Step(s, v))
  {
    if s.queue != [] && v.RecvBy? {
      UnqueueOrderly(s, v.t, v.size);
    } else if s.queue != [] && v.t in s.phase && s.phase[v.t].Receiver? {
      UnqueueOrderly(s.(receivers := Proceed(s.receivers, v.t)), v.t, s.phase[v.t].size);
    }
  }

  lemma OrderlyRest(s: State, v: Event)
    requires Orderly(s) && (v.DrainBy? || v.ReleaseBy? || v.TimeoutOf? || v.FailBy?)
    ensures Orderly(Step(s, v))
  {
  }

  lemma OrderlyStep(s: State, v: Event)
    requires Orderly(s) && !v.UrgentBy? && !v.ResetIt?
    ensures Orderly(Step(s, v))
  {
    if v.SendBy? || v.SendAgainBy? || v.FillBy? {
      OrderlySend(s, v);
    } else if v.LinkBy? {
      OrderlyLink(s, v);
    } else if v.RecvBy? || v.RecvAgainBy? {
      OrderlyRecv(s, v);
    } else {
      OrderlyRest(s, v);
    }
  }

  /** Without urgent messages and resets, messages are received in exactly the order they were queued,
      whatever the interleaving. */
  lemma {:induction false} Fifo(s: State, vs: seq<Event>)
    requires Orderly(s) && forall i :: 0 <= i < |vs| ==> !vs[i].UrgentBy? && !vs[i].ResetIt?
    ensures var e := Run(s, vs); e.linked == e.taken + e.sent
    decreases |vs|
  {
    if vs != [] {
      OrderlyStep(s, vs[0]);
      Fifo(Step(s, vs[0]), vs[1..]);
    }
  }

  /** Over every run: the pool is partitioned, and what a receiver has copied agrees with the message
      that was first in the queue when it took the node. */
  lemma OneOwner(s: State, vs: seq<Event>)
    requires Inv(s) && LegalRun(s, vs)
    ensures var e := Run(s, vs);
      && Partition(e.pool, e.free, e.queue, e.held)
      && (forall t :: t in e.phase && e.phase[t].Drained? ==> Agree(e.phase[t].got, e.phase[t].took))
  {
    RunOk(s, vs);
    CopiesAgree(Run(s, vs));
  }

  lemma CopiesAgree(e: State)
    requires Inv(e)
    ensures forall t :: t in e.phase && e.phase[t].Drained? ==> Agree(e.phase[t].got, e.phase[t].took)
  {
    forall t | t in e.phase && e.phase[t].Drained? ensures Agree(e.phase[t].got, e.phase[t].took) {
      assert Placed(e.phase[t], t in Members(e.senders), t in Members(e.receivers), t in e.held.Keys);
      assert Keeps(e.phase[t], e.held[t], e.slot);
    }
  }

  // --- what a receiver gets besides the message ---

  /** What the receiver copies is the message exactly when it asks for as many bytes as were sent; asking
      for more it gets what the node held behind the message. */
  lemma DrainExact(s: State, t: Tid)
    requires Inv(s) && t in s.phase && s.phase[t].Receiving?
    ensures t in s.held && s.held[t] in s.slot && |s.slot[s.held[t]]| == s.size
    ensures var got, msg := Drain(s, t).phase[t].got, s.phase[t].took;
      && (got == msg <==> |got| == |msg|)
      && (|got| > |msg| ==> got == msg + s.slot[s.held[t]][|msg|..|got|])
  {
    DrainOk(s, t);
    assert Placed(s.phase[t], t in Members(s.senders), t in Members(s.receivers), t in s.held.Keys);
    assert Keeps(s.phase[t], s.held[t], s.slot);
    var got, msg, full := Drain(s, t).phase[t].got, s.phase[t].took, s.slot[s.held[t]];
    assert got == full[..|got|] && msg == full[..|msg|];
    if |got| > |msg| { assert full[..|got|] == full[..|msg|] + full[|msg|..|got|]; }
  }

  /** Two running threads on an empty queue on which nobody waits, with node x first on the free list. */
  predicate Quiet(s: State, t: Tid, u: Tid, x: Node) {
    && t in s.phase && t in s.prio && u in s.phase && u in s.prio && s.phase[t] == Running && s.phase[u] == Running
    && s.queue == [] && s.sent == [] && s.free != [] && s.free[0] == x && x in s.slot && |s.slot[x]| == s.size
    && s.senders.waiters == [] && s.receivers.waiters == []
  }

  lemma {:induction false} RunAppend(s: State, a: seq<Event>, b: seq<Event>)
    requires LegalRun(s, a) && LegalRun(Run(s, a), b)
    ensures LegalRun(s, a + b) && Run(s, a + b) == Run(Run(s, a), b)
    decreases |a|
  {
    if a == [] {
      assert a + b == b;
    } else {
      assert (a + b)[1..] == a[1..] + b;
      RunAppend(Step(s, a[0]), a[1..], b);
    }
  }

  function Sends(t: Tid, m: Msg): seq<Event> { [SendBy(t, m, 0), FillBy(t), LinkBy(t)] }

  function Receives(t: Tid, k: nat): seq<Event> { [RecvBy(t, k, 0), DrainBy(t)] }

  /** A send puts the message into node x, over what the node held. */
  lemma Sent(s: State, t: Tid, u: Tid, x: Node, m: Msg)
    requires Quiet(s, t, u, x) && |m| <= s.size
    ensures LegalRun(s, Sends(t, m))
    ensures var e := Run(s, Sends(t, m));
      && e.queue == [x] && e.sent == [m] && e.slot == s.slot[x := m + s.slot[x][|m|..]] && e.free == s.free[1..] && e.size == s.size
      && e.phase == s.phase[t := Running] && e.prio == s.prio && e.senders == s.senders && e.receivers == s.receivers
  {
    var s1 := Step(s, SendBy(t, m, 0));
    var s2 := Step(s1, FillBy(t));
    var s3 := Step(s2, LinkBy(t));
    assert s1.held[t] == x && s2.slot[x] == m + s.slot[x][|m|..];
    assert [] + [x] == [x] && [] + [m] == [m];
    var vs := Sends(t, m);
    assert vs[1..] == [FillBy(t), LinkBy(t)] && vs[1..][1..] == [LinkBy(t)] && vs[1..][1..][1..] == [];
    assert LegalRun(s3, []) && LegalRun(s2, [LinkBy(t)]) && LegalRun(s1, [FillBy(t), LinkBy(t)]);
    assert Run(s3, []) == s3;
    assert Run(s2, [LinkBy(t)]) == s3;
    assert Run(s1, [FillBy(t), LinkBy(t)]) == s3;
    assert Run(s, vs) == s3;
    assert s3.phase == s.phase[t := Running];
  }

  /** A receive takes node x and copies the beginning of it. */
  lemma Received(s: State, u: Tid, x: Node, m: Msg)
    requires s.queue == [x] && s.sent == [m] && x in s.slot && |s.slot[x]| == s.size
    requires u in s.phase && u in s.prio && s.phase[u] == Running
    ensures LegalRun(s, Receives(u, s.size))
    ensures var e := Run(s, Receives(u, s.size));
      && u in e.phase && e.phase[u] == Drained(s.slot[x], m) && u in e.held && e.held[u] == x && e.queue == [] && e.sent == []
      && e.slot == s.slot && e.free == s.free && e.size == s.size && e.prio == s.prio && e.senders == s.senders && e.receivers == s.receivers
      && e.phase == s.phase[u := Drained(s.slot[x], m)]
  {
    var s1 := Step(s, RecvBy(u, s.size, 0));
    var s2 := Step(s1, DrainBy(u));
    assert s1.held[u] == x && s1.phase[u] == Receiving(s.size, m);
    assert s.slot[x][..s.size] == s.slot[x];
    var vs := Receives(u, s.size);
    assert vs[1..] == [DrainBy(u)] && vs[1..][1..] == [];
    assert LegalRun(s2, []) && LegalRun(s1, [DrainBy(u)]);
    assert Run(s2, []) == s2;
    assert Run(s1, [DrainBy(u)]) == s2;
    assert Run(s, vs) == s2;
  }

  lemma Freed(s: State, u: Tid, x: Node)
    requires u in s.phase && s.phase[u].Drained? && u in s.held && s.held[u] == x && s.senders.waiters == []
    ensures LegalRun(s, [ReleaseBy(u)]) && Run(s, [ReleaseBy(u)]) == Release(s, u)
  {
    var e := Step(s, ReleaseBy(u));
    assert [ReleaseBy(u)][1..] == [] && LegalRun(e, []) && Run(e, []) == e;
  }

  /** A message of full length is sent and received, and then a shorter one: its receiver, asking for a
      full one, gets the end of the first message behind it. */
  lemma Leaks(s: State, t: Tid, u: Tid, x: Node, a: Msg, b: Msg) returns (vs: seq<Event>)
    requires Quiet(s, t, u, x) && |a| == s.size && |b| <= s.size
    ensures LegalRun(s, vs) && u in Run(s, vs).phase && Run(s, vs).phase[u] == Drained(b + a[|b|..], b)
  {
    Sent(s, t, u, x, a);
    var s1 := Run(s, Sends(t, a));
    assert s1.slot[x] == a;
    Received(s1, u, x, a);
    var s2 := Run(s1, Receives(u, s1.size));
    Freed(s2, u, x);
    var s3 := Run(s2, [ReleaseBy(u)]);
    assert s3.slot[x] == a && s3.free[0] == x && Quiet(s3, t, u, x);
    Sent(s3, t, u, x, b);
    var s4 := Run(s3, Sends(t, b));
    Received(s4, u, x, b);
    RunAppend(s3, Sends(t, b), Receives(u, s4.size));
    RunAppend(s2, [ReleaseBy(u)], Sends(t, b) + Receives(u, s4.size));
    RunAppend(s1, Receives(u, s1.size), [ReleaseBy(u)] + (Sends(t, b) + Receives(u, s4.size)));
    vs := Sends(t, a) + (Receives(u, s1.size) + ([ReleaseBy(u)] + (Sends(t, b) + Receives(u, s4.size))));
    RunAppend(s, Sends(t, a), Receives(u, s1.size) + ([ReleaseBy(u)] + (Sends(t, b) + Receives(u, s4.size))));
  }
}
