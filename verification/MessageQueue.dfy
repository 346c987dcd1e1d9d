/** The message queue object of ipc.c with its linked nodes, section by section.  Every method is one
    section with interrupts disabled, or one copy, of rt_mq_send_wait, rt_mq_urgent, rt_mq_recv and
    rt_mq_control; the node that a thread carries between them is a parameter. */
module MessageQueue {
  import opened Seqs
  import opened Chain
  import opened Cells
  import opened WaitLists
  import opened Sides
  import opened QueueModel

  /** The links describe the model's queue and free list, and a filled ordinary node ends in null. */
  ghost predicate Shape(next: map<Node, Node>, head: Node, tail: Node, free: Node, s: State) {
    && IsChain(next, head, s.queue) && tail == Last(s.queue) && IsChain(next, free, s.free)
    && (forall t :: t in s.phase && t in s.held && s.phase[t].Filled? && !s.phase[t].urgent ==>
          s.held[t] in next && next[s.held[t]] == Null)
  }

  lemma ShapeTake(next: map<Node, Node>, head: Node, tail: Node, free: Node, s: State, t: Tid, msg: Msg, urgent: bool)
    requires Shape(next, head, tail, free, s) && s.free != []
    ensures free == s.free[0] && free in next
    ensures Shape(next, head, tail, next[free],
                  s.(free := s.free[1..], held := s.held[t := s.free[0]], phase := s.phase[t := Sending(msg, urgent)]))
  {
    Popped(next, free, s.free);
  }

  /** Preparing a node that only its holder has. */
  lemma ShapeFill(next: map<Node, Node>, head: Node, tail: Node, free: Node, s: State, t: Tid, e: State)
    requires Shape(next, head, tail, free, s) && Partition(s.pool, s.free, s.queue, s.held) && t in s.held
    requires e.queue == s.queue && e.free == s.free && e.held == s.held && t in s.phase && s.phase[t].Sending?
    requires e.phase == s.phase[t := Filled(s.phase[t].msg, s.phase[t].urgent)]
    ensures Shape(if s.phase[t].urgent then next else next[s.held[t] := Null], head, tail, free, e)
  {
    if !s.phase[t].urgent {
      Elsewhere(next, head, s.queue, s.held[t], Null);
      Elsewhere(next, free, s.free, s.held[t], Null);
    }
  }

  lemma ShapeAppend(next: map<Node, Node>, head: Node, tail: Node, free: Node, s: State, t: Tid)
    requires Shape(next, head, tail, free, s) && Partition(s.pool, s.free, s.queue, s.held)
    requires t in s.held && t in s.phase && s.phase[t].Filled? && !s.phase[t].urgent && s.held[t] != Null
    ensures var n := s.held[t];
      Shape(if tail != Null then next[tail := n] else next, if head == Null then n else head, n, free, Link(s, t))
  {
    var n := s.held[t];
    Appended(next, head, s.queue, n);
    assert s.queue != [] ==> s.queue[0] in s.queue && s.queue[0] != Null && Last(s.queue) == s.queue[|s.queue| - 1];
    if s.queue != [] {
      assert tail in s.queue && tail != Null && tail !in s.free;
      Elsewhere(next, free, s.free, tail, n);
    }
  }

  lemma ShapePrepend(next: map<Node, Node>, head: Node, tail: Node, free: Node, s: State, t: Tid)
    requires Shape(next, head, tail, free, s) && Partition(s.pool, s.free, s.queue, s.held)
    requires t in s.held && t in s.phase && s.phase[t].Filled? && s.phase[t].urgent && s.held[t] != Null
    ensures var n := s.held[t]; Shape(next[n := head], n, if tail == Null then n else tail, free, Link(s, t))
  {
    var n := s.held[t];
    Pushed(next, head, s.queue, n);
    Elsewhere(next, free, s.free, n, head);
    assert s.queue != [] ==> s.queue[|s.queue| - 1] != Null;
  }

  lemma ShapeUnqueue(next: map<Node, Node>, head: Node, tail: Node, free: Node, s: State, t: Tid, size: nat)
    requires Shape(next, head, tail, free, s) && s.queue != [] && |s.sent| == |s.queue|
    ensures head == s.queue[0] && head in next
    ensures Shape(next, next[head], if tail == head then Null else tail, free, Unqueue(s, t, size))
  {
    Popped(next, head, s.queue);
    var q := s.queue;
    if |q| > 1 {
      assert q[0] != q[|q| - 1];
      assert Last(q[1..]) == q[|q| - 1];
    }
  }

  lemma ShapeRelease(next: map<Node, Node>, head: Node, tail: Node, free: Node, s: State, t: Tid)
    requires Shape(next, head, tail, free, s) && Partition(s.pool, s.free, s.queue, s.held)
    requires t in s.held && s.held[t] != Null
    ensures Shape(next[s.held[t] := free], head, tail, s.held[t], Release(s, t))
  {
    var n := s.held[t];
    Pushed(next, free, s.free, n);
    Elsewhere(next, head, s.queue, n, free);
  }

  /** What the first section of a send or a receive came to. */
  datatype Attempt = Got(msg: Node) | Blocked | Refused

  lemma FreeHead(next: map<Node, Node>, head: Node, tail: Node, free: Node, s: State)
    requires Shape(next, head, tail, free, s)
    ensures (free == Null <==> s.free == []) && (head == Null <==> s.queue == [])
  {
    assert s.free != [] ==> s.free[0] != Null;
    assert s.queue != [] ==> s.queue[0] != Null;
  }

  /** The free list after n rounds of the loop of rt_mq_init. */
  function FreshNodes(base: nat, size: nat, n: nat): seq<Node> {
    if n == 0 then [] else [CellAt(base, size, n - 1)] + FreshNodes(base, size, n - 1)
  }

  function FreshSlot(node: Node, size: nat, memory: int -> Byte): Msg { seq(size, k => memory(node + LINK + k)) }

  function FreshSlots(base: nat, size: nat, n: nat, memory: int -> Byte): map<Node, Msg> {
    if n == 0 then map[] else
      var node := CellAt(base, size, n - 1);
      FreshSlots(base, size, n - 1, memory)[node := FreshSlot(node, size, memory)]
  }

  function Initial(base: nat, size: nat, n: nat, flag: Flag, prio: map<Tid, nat>, memory: int -> Byte): State {
    var slot := FreshSlots(base, size, n, memory);
    State(slot.Keys, size, FreshNodes(base, size, n), [], map[], slot, Side(flag, [], 0, {}), Side(flag, [], 0, {}),
          map t | t in prio :: Running, prio, [], [], [], multiset{})
  }

  /** Later nodes are not among the first n. */
  lemma {:induction false} FreshLater(base: nat, size: nat, n: nat, i: nat)
    requires base > 0 && n <= i
    ensures CellAt(base, size, i) != Null && CellAt(base, size, i) !in FreshNodes(base, size, n)
  {
    assert i * (size + LINK) >= 0;
    if n > 0 {
      FreshLater(base, size, n - 1, i);
      assert (i - (n - 1)) * (size + LINK) > 0;
    }
  }

  lemma {:induction false} FreshOk(base: nat, size: nat, n: nat, memory: int -> Byte)
    requires base > 0
    ensures var f, slot := FreshNodes(base, size, n), FreshSlots(base, size, n, memory);
      && Distinct(f) && Null !in f && (forall x :: x in f <==> x in slot) && forall x :: x in slot ==> |slot[x]| == size
  {
    if n > 0 {
      FreshOk(base, size, n - 1, memory);
      FreshLater(base, size, n - 1, n - 1);
    }
  }

  lemma UnusedOk(free: seq<Node>, slot: map<Node, Msg>, size: nat, none: Side, phase: map<Tid, Phase>, prio: map<Tid, nat>)
    requires Distinct(free) && Null !in free && (forall x :: x in free <==> x in slot) && none.waiters == [] && none.woken == {}
    requires (forall x :: x in slot ==> |slot[x]| == size) && phase.Keys == prio.Keys && forall t :: t in phase ==> phase[t] == Running
    ensures Inv(State(slot.Keys, size, free, [], map[], slot, none, none, phase, prio, [], [], [], multiset{}))
  {
    assert Partition(slot.Keys, free, [], map[]);
    assert Members(none) == {} && Threads(phase, {}, {}, {});
  }

  lemma InitialOk(base: nat, size: nat, n: nat, flag: Flag, prio: map<Tid, nat>, memory: int -> Byte)
    requires base > 0
    ensures Inv(Initial(base, size, n, flag, prio, memory))
  {
    FreshOk(base, size, n, memory);
    UnusedOk(FreshNodes(base, size, n), FreshSlots(base, size, n, memory), size, Side(flag, [], 0, {}),
             map t | t in prio :: Running, prio);
  }

  /** The loop of rt_mq_init: the nodes of the buffer go to the free list one by one. */
  method Thread(base: nat, size: nat, maxMsgs: nat, memory: int -> Byte)
    returns (links: map<Node, Node>, slots: map<Node, Msg>, list: Node)
    requires base > 0
    ensures IsChain(links, list, FreshNodes(base, size, maxMsgs)) && slots == FreshSlots(base, size, maxMsgs, memory)
  {
    links, slots, list := map[], map[], Null;
    var temp := 0;
    while temp < maxMsgs
      invariant 0 <= temp <= maxMsgs
      invariant IsChain(links, list, FreshNodes(base, size, temp)) && slots == FreshSlots(base, size, temp, memory)
    {
      var node := CellAt(base, size, temp);
      FreshLater(base, size, temp, temp);
      Pushed(links, list, FreshNodes(base, size, temp), node);
      links := links[node := list];
      slots := slots[node := FreshSlot(node, size, memory)];
      list := node;
      temp := temp + 1;
    }
  }

  class Queue {
    const size: nat
    const flag: Flag
    const prio: map<Tid, nat>
    var next: map<Node, Node>
    var slot: map<Node, Msg>
    var head: Node
    var tail: Node
    var free: Node
    var entry: nat
    var senders: seq<Waiter>
    var sendArrivals: nat
    var receivers: seq<Waiter>
    var recvArrivals: nat
    ghost var m: State

    /** The fields that mirror the model's. */
    ghost predicate Mirrors()
      reads this
    {
      && entry == |m.queue| && slot == m.slot && size == m.size && prio == m.prio
      && m.senders.flag == m.receivers.flag == flag
      && senders == m.senders.waiters && sendArrivals == m.senders.arrivals
      && receivers == m.receivers.waiters && recvArrivals == m.receivers.arrivals
    }

    /** The object represents the model's state.  What holds of every reachable state is proved of the
        model, whose steps the methods take. */
    ghost predicate Valid()
      reads this
    {
      Shape(next, head, tail, free, m) && Mirrors()
    }

    ghost predicate Apart()
      reads this
    {
      Partition(m.pool, m.free, m.queue, m.held)
    }

    /** rt_mq_init with a buffer at `base`. */
    constructor (base: nat, bytes: nat, poolSize: nat, flag: Flag, prio: map<Tid, nat>, memory: int -> Byte)
      requires base > 0
      ensures Valid() && m == Initial(base, Rounded(bytes), Count(Rounded(bytes), poolSize), flag, prio, memory)
    {
      var msgSize := Rounded(bytes);
      var maxMsgs := Count(msgSize, poolSize);
      var links, slots, list := Thread(base, msgSize, maxMsgs, memory);
      this.size, this.flag, this.prio := msgSize, flag, prio;
      next, slot, head, tail, free, entry := links, slots, Null, Null, list, 0;
      senders, sendArrivals, receivers, recvArrivals := [], 0, [], 0;
      m := Initial(base, msgSize, maxMsgs, flag, prio, memory);
    }

    /** One round of the loop of rt_mq_send_wait: `left` is the time the caller is still ready to wait,
        and `woken` tells whether it has been waiting already. */
    method SendSection(t: Tid, buffer: Msg, left: int, ghost woken: bool) returns (r: Attempt)
      requires Valid() && t in m.phase && t in m.prio
      requires woken ==> m.phase[t].Sender? && m.phase[t].msg == buffer && |buffer| <= size
      modifies this
      ensures Valid() && m == if woken then SendAgain(old(m), t, left) else Send(old(m), t, buffer, left)
      ensures r.Got? <==> old(m.free) != [] && |buffer| <= size
      ensures r.Got? ==> t in m.held && r.msg == m.held[t]
      ensures r.Blocked? <==> old(m.free) == [] && |buffer| <= size && left != 0
    {
      if |buffer| > size {
        return Refused;
      }
      ghost var s := if woken then m.(senders := Proceed(m.senders, t)) else m;
      ghost var e := TrySend(s, t, buffer, left);
      assert Shape(next, head, tail, free, s);
      FreeHead(next, head, tail, free, s);
      if free != Null {
        ShapeTake(next, head, tail, free, s, t, buffer, false);
        r := Got(free);
        free := next[free];
      } else if left == 0 {
        r := Refused;
      } else {
        JoinSenders(t);
        r := Blocked;
      }
      m := e;
    }

    method JoinSenders(t: Tid)
      requires t in prio
      modifies `senders, `sendArrivals
      ensures senders == Enlist(flag, old(senders), Waiter(t, prio[t], old(sendArrivals))) && sendArrivals == old(sendArrivals) + 1
    {
      var w := Waiter(t, prio[t], sendArrivals);
      var k := Place(flag, senders, w);
      senders := InsertAt(senders, k, w);
      sendArrivals := sendArrivals + 1;
    }

    /** The first section of rt_mq_urgent. */
    method UrgentSection(t: Tid, buffer: Msg) returns (r: Attempt)
      requires Valid() && t in m.phase && t !in m.held
      modifies this
      ensures Valid() && m == Urgent(old(m), t, buffer) && !r.Blocked?
      ensures r.Got? <==> old(m.free) != [] && |buffer| <= size
      ensures r.Got? ==> t in m.held && r.msg == m.held[t]
    {
      ghost var s := m;
      FreeHead(next, head, tail, free, s);
      if |buffer| > size || free == Null {
        return Refused;
      }
      ShapeTake(next, head, tail, free, s, t, buffer, true);
      m := Urgent(s, t, buffer);
      r := Got(free);
      free := next[free];
    }

    /** rt_memcpy into the node, outside any section; an ordinary send first makes it the end of a list. */
    method FillNode(t: Tid, msg: Node, buffer: Msg, urgent: bool)
      requires Valid() && Apart() && t in m.phase && m.phase[t] == Sending(buffer, urgent) && t in m.held && msg == m.held[t]
      requires msg in slot && |buffer| <= |slot[msg]|
      modifies this
      ensures Valid() && m == Fill(old(m), t)
    {
      ShapeFill(next, head, tail, free, m, t, Fill(m, t));
      m := Fill(m, t);
      if !urgent {
        next := next[msg := Null];
      }
      slot := slot[msg := buffer + slot[msg][|buffer|..]];
    }

    /** The last section of rt_mq_send_wait. */
    method AppendNode(t: Tid, msg: Node)
      requires Valid() && Apart() && t in m.phase && m.phase[t].Filled? && !m.phase[t].urgent && t in m.held && msg == m.held[t]
      modifies this
      ensures Valid() && m == Link(old(m), t)
    {
      HeldReal(m, t);
      FreeHead(next, head, tail, free, m);
      ShapeAppend(next, head, tail, free, m, t);
      ghost var e := Link(m, t);
      if tail != Null {
        next := next[tail := msg];
      }
      tail := msg;
      if head == Null {
        head := msg;
      }
      assert Shape(next, head, tail, free, e);
      Announce(t, e);
    }

    /** Count the message and wake the first receiver. */
    method Announce(t: Tid, ghost e: State)
      requires Mirrors() && t in m.phase && m.phase[t].Filled? && t in m.held && e == Link(m, t) && Shape(next, head, tail, free, e)
      modifies `entry, `receivers, `m
      ensures Valid() && m == e
    {
      entry := entry + 1;
      if receivers != [] {
        receivers := receivers[1..];
      }
      m := e;
    }

    /** The last section of rt_mq_urgent. */
    method PrependNode(t: Tid, msg: Node)
      requires Valid() && Apart() && t in m.phase && m.phase[t].Filled? && m.phase[t].urgent && t in m.held && msg == m.held[t]
      modifies this
      ensures Valid() && m == Link(old(m), t)
    {
      HeldReal(m, t);
      ShapePrepend(next, head, tail, free, m, t);
      ghost var e := Link(m, t);
      next := next[msg := head];
      head := msg;
      if tail == Null {
        tail := msg;
      }
      assert Shape(next, head, tail, free, e);
      Announce(t, e);
    }

    method UnlinkHead()
      requires head in next && entry > 0
      modifies `head, `tail, `entry
      ensures head == next[old(head)] && tail == (if old(tail) == old(head) then Null else old(tail)) && entry == old(entry) - 1
    {
      var msg := head;
      head := next[msg];
      if tail == msg {
        tail := Null;
      }
      entry := entry - 1;
    }

    method JoinReceivers(t: Tid)
      requires t in prio
      modifies `receivers, `recvArrivals
      ensures receivers == Enlist(flag, old(receivers), Waiter(t, prio[t], old(recvArrivals))) && recvArrivals == old(recvArrivals) + 1
    {
      var w := Waiter(t, prio[t], recvArrivals);
      var k := Place(flag, receivers, w);
      receivers := InsertAt(receivers, k, w);
      recvArrivals := recvArrivals + 1;
    }

    /** One round of the loop of rt_mq_recv. */
    method RecvSection(t: Tid, want: nat, left: int, ghost woken: bool) returns (r: Attempt)
      requires Valid() && t in m.phase && t in m.prio && |m.sent| == |m.queue|
      requires woken ==> m.phase[t].Receiver? && m.phase[t].size == want
      modifies this
      ensures Valid() && m == if woken then RecvAgain(old(m), t, left) else TryRecv(old(m), t, want, left)
      ensures r.Got? <==> old(m.queue) != []
      ensures r.Got? ==> t in m.held && r.msg == m.held[t]
      ensures r.Blocked? <==> old(m.queue) == [] && left != 0
    {
      ghost var s := if woken then m.(receivers := Proceed(m.receivers, t)) else m;
      ghost var e := TryRecv(s, t, want, left);
      assert Shape(next, head, tail, free, s);
      if entry > 0 {
        ShapeUnqueue(next, head, tail, free, s, t, want);
        r := Got(head);
        UnlinkHead();
      } else if left == 0 {
        r := Refused;
      } else {
        JoinReceivers(t);
        r := Blocked;
      }
      m := e;
    }

    /** rt_memcpy out of the node: the buffer agrees with the message that was first in the queue. */
    method DrainNode(t: Tid, msg: Node, want: nat) returns (buffer: Msg)
      requires Valid() && t in m.phase && m.phase[t].Receiving? && m.phase[t].size == want && t in m.held && msg == m.held[t]
      requires Carries(slot, msg, m.phase[t].took) && |slot[msg]| == size
      modifies this`m
      ensures Valid() && m == Drain(old(m), t)
      ensures |buffer| == (if want > size then size else want) && Agree(buffer, old(m.phase[t].took))
    {
      Prefixes(slot[msg], m.phase[t].took, if want > size then size else want);
      buffer := slot[msg][..if want > size then size else want];
      m := Drain(m, t);
    }

    /** The last section of rt_mq_recv. */
    method ReleaseNode(t: Tid, msg: Node)
      requires Valid() && Apart() && t in m.phase && m.phase[t].Drained? && t in m.held && msg == m.held[t]
      modifies this
      ensures Valid() && m == Release(old(m), t)
    {
      HeldReal(m, t);
      ShapeRelease(next, head, tail, free, m, t);
      m := Release(m, t);
      next := next[msg := free];
      free := msg;
      if senders != [] {
        senders := senders[1..];
      }
    }

    /** The loop of rt_mq_control that moves the queued nodes to the free list, first to last. */
    method FlushNodes(ghost q: seq<Node>, ghost f: seq<Node>)
      requires IsChain(next, head, q) && tail == Last(q) && IsChain(next, free, f) && forall n :: n in q ==> n !in f
      modifies this`next, this`head, this`tail, this`free
      ensures IsChain(next, free, Reversed(q) + f) && head == tail == Null
      ensures AgreeOff(old(next), next, q)
    {
      ghost var rest, out := q, f;
      while head != Null
        invariant IsChain(next, head, rest) && IsChain(next, free, out) && tail == Last(rest)
        invariant (forall n :: n in rest ==> n in q && n !in out) && Reversed(rest) + out == Reversed(q) + f
        invariant AgreeOff(old(next), next, q)
        decreases |rest|
      {
        var msg := head;
        FlushStep(next, head, free, rest, out);
        head := next[msg];
        if tail == msg {
          tail := Null;
        }
        next := next[msg := free];
        free := msg;
        out := [msg] + out;
        rest := rest[1..];
      }
      Ended(next, rest);
      assert Reversed(rest) + out == out;
    }

    /** rt_mq_control with RT_IPC_CMD_RESET. */
    method ResetQueue()
      requires Valid() && Apart()
      modifies this
      ensures Valid() && m == Reset(old(m))
    {
      ghost var s, n, h, t, f := m, next, head, tail, free;
      FlushNodes(s.queue, s.free);
      ShapeReset(n, h, t, f, s, next, free);
      receivers, senders, entry := [], [], 0;
      m := Reset(s);
    }

    /** rt_thread_timeout on a thread blocked here. */
    method TimeoutThread(t: Tid)
      requires Valid()
      modifies this
      ensures Valid() && m == Timeout(old(m), t)
    {
      senders := Delist(senders, t);
      receivers := Delist(receivers, t);
      m := Timeout(m, t);
    }
  }

  lemma ShapeReset(next: map<Node, Node>, head: Node, tail: Node, free: Node, s: State, next': map<Node, Node>, free': Node)
    requires Shape(next, head, tail, free, s) && Partition(s.pool, s.free, s.queue, s.held) && AgreeOff(next, next', s.queue)
    requires IsChain(next', free', Reversed(s.queue) + s.free)
    ensures Shape(next', Null, Null, free', Reset(s))
  {
    var e := Reset(s);
    assert Reversed(s.queue) + s.free == e.free;
    forall t | t in e.phase && t in e.held && e.phase[t].Filled? && !e.phase[t].urgent ensures e.held[t] in next' && next'[e.held[t]] == Null {
      assert s.held[t] !in s.queue && t in s.phase && s.phase[t] == e.phase[t];
    }
  }

  ghost predicate AgreeOff(a: map<Node, Node>, b: map<Node, Node>, q: seq<Node>) {
    forall n :: n !in q ==> (n in a <==> n in b) && (n in a ==> a[n] == b[n])
  }

  lemma Ended(next: map<Node, Node>, s: seq<Node>)
    requires IsChain(next, Null, s)
    ensures s == []
  {
    if s != [] { assert false; }
  }

  lemma FlushStep(next: map<Node, Node>, head: Node, free: Node, rest: seq<Node>, out: seq<Node>)
    requires IsChain(next, head, rest) && IsChain(next, free, out) && head != Null && forall n :: n in rest ==> n !in out
    ensures rest != [] && head == rest[0] && head in next
    ensures IsChain(next[head := free], next[head], rest[1..]) && IsChain(next[head := free], head, [head] + out)
    ensures Reversed(rest[1..]) + ([head] + out) == Reversed(rest) + out
    ensures forall n :: n in rest[1..] ==> n in rest && n !in [head] + out
    ensures Last(rest[1..]) == if Last(rest) == head then Null else Last(rest)
  {
    FlushLink(next, head, free, rest, out);
    FlushOrder(rest, out);
  }

  lemma FlushLink(next: map<Node, Node>, head: Node, free: Node, rest: seq<Node>, out: seq<Node>)
    requires IsChain(next, head, rest) && IsChain(next, free, out) && head != Null && forall n :: n in rest ==> n !in out
    ensures rest != [] && head == rest[0] && head in next && head !in rest[1..]
    ensures IsChain(next[head := free], next[head], rest[1..]) && IsChain(next[head := free], head, [head] + out)
  {
    Popped(next, head, rest);
    Elsewhere(next, next[head], rest[1..], head, free);
    assert head in rest;
    Pushed(next, free, out, head);
  }

  lemma FlushOrder(rest: seq<Node>, out: seq<Node>)
    requires rest != [] && rest[0] !in rest[1..] && forall n :: n in rest ==> n !in out
    ensures Reversed(rest[1..]) + ([rest[0]] + out) == Reversed(rest) + out
    ensures forall n :: n in rest[1..] ==> n in rest && n !in [rest[0]] + out
    ensures Last(rest[1..]) == if Last(rest) == rest[0] then Null else Last(rest)
  {
    if |rest| > 1 { assert rest[|rest| - 1] == rest[1..][|rest| - 2] == Last(rest[1..]) && rest[|rest| - 1] in rest[1..]; }
  }

  lemma HeldReal(s: State, t: Tid)
    requires Partition(s.pool, s.free, s.queue, s.held) && t in s.held
    ensures s.held[t] != Null && s.held[t] in s.pool
  {
    assert InHand(s.held, s.held[t]);
  }
}
