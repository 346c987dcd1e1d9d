/** What the sections of a message queue do, and that a queue shared by any number of threads is a list of
    messages driven by their calls alone. */
module QueueEffects {
  import opened Seqs
  import opened WaitLists
  import opened Sides
  import opened Chain
  import opened QueueModel

  // ---- single sections -------------------------------------------------------------------------

  ghost predicate OnlyPhase(s: State, e: State, t: Tid, p: Phase) {
    e.phase == s.phase[t := p] && e.pool == s.pool && e.size == s.size && e.prio == s.prio
  }

  ghost predicate SameNodes(s: State, e: State) { e.free == s.free && e.queue == s.queue && e.held == s.held && e.slot == s.slot && e.sent == s.sent }

  ghost predicate SameSides(s: State, e: State) { e.senders == s.senders && e.receivers == s.receivers }

  /** The first free node is the caller's, for this message. */
  ghost predicate GotNode(s: State, e: State, t: Tid, msg: Msg, urgent: bool) {
    && s.free != [] && OnlyPhase(s, e, t, Sending(msg, urgent)) && SameSides(s, e) && e.queue == s.queue && e.slot == s.slot && e.sent == s.sent
    && [s.free[0]] + e.free == s.free && e.held == s.held[t := s.free[0]]
  }

  /** A sender at the top of its loop: it gets a node, gives up, or sleeps. */
  ghost predicate SendTried(s: State, e: State, t: Tid, msg: Msg, time: int)
    requires t in s.prio
  {
    if s.free != [] then GotNode(s, e, t, msg, false)
    else
      && SameNodes(s, e) && e.receivers == s.receivers
      && if time == 0 then OnlyPhase(s, e, t, Running) && e.senders == s.senders
         else OnlyPhase(s, e, t, Sender(msg, time > 0)) && JoinedBy(s.senders, e.senders, t, s.prio[t])
  }

  /** A receiver at the top of its loop: the first message is its own, it gives up, or it sleeps. */
  ghost predicate RecvTried(s: State, e: State, t: Tid, size: nat, time: int)
    requires t in s.prio && |s.sent| == |s.queue|
  {
    if s.queue != [] then
      && OnlyPhase(s, e, t, Receiving(size, s.sent[0])) && SameSides(s, e) && e.free == s.free && e.slot == s.slot
      && [s.queue[0]] + e.queue == s.queue && [s.sent[0]] + e.sent == s.sent && e.held == s.held[t := s.queue[0]]
    else
      && SameNodes(s, e) && e.senders == s.senders
      && if time == 0 then OnlyPhase(s, e, t, Running) && e.receivers == s.receivers
         else OnlyPhase(s, e, t, Receiver(size, time > 0)) && JoinedBy(s.receivers, e.receivers, t, s.prio[t])
  }

  /** The node has the message in front and is otherwise as it was. */
  ghost predicate Written(s: State, e: State, t: Tid)
    requires t in s.phase && s.phase[t].Sending?
  {
    var msg := s.phase[t].msg;
    && t in s.held && s.held[t] in s.slot && s.held[t] in e.slot && OnlyPhase(s, e, t, Filled(msg, s.phase[t].urgent)) && SameSides(s, e)
    && e.free == s.free && e.queue == s.queue && e.held == s.held && e.sent == s.sent && e.slot.Keys == s.slot.Keys
    && (forall n :: n in s.slot && n != s.held[t] ==> e.slot[n] == s.slot[n])
    && var was, now := s.slot[s.held[t]], e.slot[s.held[t]];
      |now| == |was| && |msg| <= |was| && now[..|msg|] == msg && now[|msg|..] == was[|msg|..]
  }

  /** The node is the last of the queue, or the first if the message is urgent, and a receiver wakes. */
  ghost predicate Enqueued(s: State, e: State, t: Tid)
    requires t in s.phase && s.phase[t].Filled?
  {
    && t in s.held && OnlyPhase(s, e, t, Running) && e.free == s.free && e.slot == s.slot && e.held == s.held - {t}
    && e.senders == s.senders && WokeFirst(s.receivers, e.receivers)
    && var n, msg := s.held[t], s.phase[t].msg;
      if s.phase[t].urgent then e.queue == [n] + s.queue && e.sent == [msg] + s.sent else e.queue == s.queue + [n] && e.sent == s.sent + [msg]
  }

  /** The caller has as many bytes of its node as it asked for and the node has. */
  ghost predicate Copied(s: State, e: State, t: Tid)
    requires t in s.phase && s.phase[t].Receiving?
  {
    && SameNodes(s, e) && SameSides(s, e) && t in s.held && s.held[t] in s.slot && t in e.phase && e.phase[t].Drained?
    && OnlyPhase(s, e, t, Drained(e.phase[t].got, s.phase[t].took)) && e.phase[t].got <= s.slot[s.held[t]]
    && |e.phase[t].got| == if s.phase[t].size > s.size then s.size else s.phase[t].size
  }

  /** The node is the first free one, and a sender wakes. */
  ghost predicate GivenBack(s: State, e: State, t: Tid) {
    && t in s.held && OnlyPhase(s, e, t, Running) && e.free == [s.held[t]] + s.free && e.queue == s.queue && e.slot == s.slot && e.sent == s.sent
    && e.held == s.held - {t} && e.receivers == s.receivers && WokeFirst(s.senders, e.senders)
  }

  /** Every node of the queue is free, and everybody who was blocked is about to fail. */
  ghost predicate Cleared(s: State, e: State) {
    && e.queue == [] && e.sent == [] && e.held == s.held && e.slot == s.slot && e.pool == s.pool && e.size == s.size && e.prio == s.prio
    && |e.free| == |s.queue| + |s.free| && e.free[|s.queue|..] == s.free && (forall i :: 0 <= i < |s.queue| ==> e.free[i] == s.queue[|s.queue| - 1 - i])
    && e.senders == s.senders.(waiters := []) && e.receivers == s.receivers.(waiters := []) && e.phase.Keys == s.phase.Keys
    && forall t :: t in s.phase ==> e.phase[t] == if t in Ids(s.senders.waiters) + Ids(s.receivers.waiters) then Failing else s.phase[t]
  }

  ghost predicate Does(s: State, e: State, v: Event)
    requires Inv(s) && Legal(s, v)
  {
    match v
    case SendBy(t, msg, time) => if |msg| > s.size then e == s else SendTried(s, e, t, msg, time)
    case UrgentBy(t, msg) => if |msg| > s.size || s.free == [] then e == s else GotNode(s, e, t, msg, true)
    case SendAgainBy(t, left) => SendTried(s.(senders := Up(s.senders, t)), e, t, s.phase[t].msg, left)
    case FillBy(t) => Written(s, e, t)
    case LinkBy(t) => Enqueued(s, e, t)
    case RecvBy(t, size, time) => RecvTried(s, e, t, size, time)
    case RecvAgainBy(t, left) => RecvTried(s.(receivers := Up(s.receivers, t)), e, t, s.phase[t].size, left)
    case DrainBy(t) => Copied(s, e, t)
    case ReleaseBy(t) => GivenBack(s, e, t)
    case TimeoutOf(t) => OnlyPhase(s, e, t, Failing) && SameNodes(s, e) && LeftBy(s.senders, e.senders, t) && LeftBy(s.receivers, e.receivers, t)
    case FailBy(t) => OnlyPhase(s, e, t, Running) && SameNodes(s, e) && SameSides(s, e)
    case ResetIt => Cleared(s, e)
  }

  lemma SendMeans(s: State, t: Tid, msg: Msg, time: int)
    requires t in s.prio && Once(s.senders.waiters) && t !in Ids(s.senders.waiters)
    ensures SendTried(s, TrySend(s, t, msg, time), t, msg, time)
  {
    EnlistMembers(s.senders.flag, s.senders.waiters, Waiter(t, s.prio[t], s.senders.arrivals));
  }

  lemma RecvMeans(s: State, t: Tid, size: nat, time: int)
    requires t in s.prio && Once(s.receivers.waiters) && t !in Ids(s.receivers.waiters) && |s.sent| == |s.queue|
    ensures RecvTried(s, TryRecv(s, t, size, time), t, size, time)
  {
    EnlistMembers(s.receivers.flag, s.receivers.waiters, Waiter(t, s.prio[t], s.receivers.arrivals));
  }

  lemma {:induction false} ReversedAt(q: seq<Node>, i: nat)
    requires i < |q|
    ensures |Reversed(q)| == |q| && Reversed(q)[i] == q[|q| - 1 - i]
  {
    if |q| > 1 { ReversedAt(q[1..], if i < |q| - 1 then i else 0); }
  }

  lemma {:induction false} ReversedLength(q: seq<Node>)
    ensures |Reversed(q)| == |q|
  {
    if q != [] { ReversedLength(q[1..]); }
  }

  lemma ResetMeans(s: State)
    ensures Cleared(s, Reset(s))
  {
    var e := Reset(s);
    ReversedLength(s.queue);
    forall i | 0 <= i < |s.queue| ensures |Reversed(s.queue)| == |s.queue| && e.free[i] == s.queue[|s.queue| - 1 - i] { ReversedAt(s.queue, i); }
    assert e.free[|s.queue|..] == s.free;
  }

  /** Where a thread is on no list and holds nothing. */
  lemma Unlisted(s: State, t: Tid)
    requires Inv(s) && t in s.phase
    ensures t in s.prio && |s.sent| == |s.queue| && Once(s.senders.waiters) && Once(s.receivers.waiters)
    ensures s.phase[t].Sender? || t !in Ids(s.senders.waiters)
    ensures s.phase[t].Receiver? || t !in Ids(s.receivers.waiters)
    ensures t in s.senders.woken ==> t !in Ids(s.senders.waiters)
    ensures t in s.receivers.woken ==> t !in Ids(s.receivers.waiters)
    ensures s.phase[t].Busy() <==> t in s.held
  {
    assert Placed(s.phase[t], t in Members(s.senders), t in Members(s.receivers), t in s.held.Keys);
  }

  lemma SenderMeans(s: State, v: Event)
    requires Inv(s) && Legal(s, v) && (v.SendBy? || v.SendAgainBy?)
    ensures Does(s, Step(s, v), v)
  {
    Unlisted(s, v.t);
    match v
    case SendBy(t, msg, time) => if |msg| <= s.size { SendMeans(s, t, msg, time); }
    case SendAgainBy(t, left) => SendMeans(s.(senders := Up(s.senders, t)), t, s.phase[t].msg, left);
  }

  lemma ReceiverMeans(s: State, v: Event)
    requires Inv(s) && Legal(s, v) && (v.RecvBy? || v.RecvAgainBy?)
    ensures Does(s, Step(s, v), v)
  {
    Unlisted(s, v.t);
    match v
    case RecvBy(t, size, time) => RecvMeans(s, t, size, time);
    case RecvAgainBy(t, left) => RecvMeans(s.(receivers := Up(s.receivers, t)), t, s.phase[t].size, left);
  }

  lemma LinkMeans(s: State, t: Tid)
    requires t in s.phase && s.phase[t].Filled? && t in s.held
    ensures Enqueued(s, Link(s, t), t)
  {
    WokeMeans(s.receivers);
  }

  lemma DrainMeans(s: State, t: Tid)
    requires t in s.phase && s.phase[t].Receiving? && t in s.held && s.held[t] in s.slot && s.size <= |s.slot[s.held[t]]|
    ensures Copied(s, Drain(s, t), t)
  {
  }

  lemma ReleaseMeans(s: State, t: Tid)
    requires t in s.held
    ensures GivenBack(s, Release(s, t), t)
  {
    WokeMeans(s.senders);
  }

  lemma NodeMeans(s: State, v: Event)
    requires Inv(s) && Legal(s, v) && (v.LinkBy? || v.DrainBy? || v.ReleaseBy?)
    ensures v.LinkBy? ==> Enqueued(s, Step(s, v), v.t)
    ensures v.DrainBy? ==> Copied(s, Step(s, v), v.t)
    ensures v.ReleaseBy? ==> GivenBack(s, Step(s, v), v.t)
  {
    Unlisted(s, v.t);
    match v
    case LinkBy(t) => LinkMeans(s, t);
    case DrainBy(t) =>
      DrainOk(s, t);
      DrainMeans(s, t);
    case ReleaseBy(t) => ReleaseMeans(s, t);
  }

  /** Every section, and that it does nothing else. */
  lemma StepMeans(s: State, v: Event)
    requires Inv(s) && Legal(s, v)
    ensures Does(s, Step(s, v), v)
  {
    if v.SendBy? || v.SendAgainBy? {
      SenderMeans(s, v);
    } else if v.RecvBy? || v.RecvAgainBy? {
      ReceiverMeans(s, v);
    } else if v.LinkBy? || v.DrainBy? || v.ReleaseBy? {
      NodeMeans(s, v);
    } else {
      RestMeans(s, v);
    }
  }

  lemma RestMeans(s: State, v: Event)
    requires Inv(s) && Legal(s, v) && (v.UrgentBy? || v.FillBy? || v.TimeoutOf? || v.FailBy? || v.ResetIt?)
    ensures Does(s, Step(s, v), v)
  {
    if v.FillBy? {
      FillMeans(s, v.t);
    } else if v.TimeoutOf? || v.FailBy? {
      EndMeans(s, v);
    } else if v.ResetIt? {
      ResetMeans(s);
    } else {
      UrgentMeans(s, v.t, v.msg);
    }
  }

  lemma UrgentMeans(s: State, t: Tid, msg: Msg)
    ensures if |msg| > s.size || s.free == [] then Urgent(s, t, msg) == s else GotNode(s, Urgent(s, t, msg), t, msg, true)
  {
  }

  lemma EndMeans(s: State, v: Event)
    requires Inv(s) && Legal(s, v) && (v.TimeoutOf? || v.FailBy?)
    ensures OnlyPhase(s, Step(s, v), v.t, if v.TimeoutOf? then Failing else Running) && SameNodes(s, Step(s, v))
    ensures if v.TimeoutOf? then LeftBy(s.senders, Step(s, v).senders, v.t) && LeftBy(s.receivers, Step(s, v).receivers, v.t) else SameSides(s, Step(s, v))
  {
    LeaveMeans(s.senders, v.t);
    LeaveMeans(s.receivers, v.t);
  }

  lemma FillMeans(s: State, t: Tid)
    requires Inv(s) && t in s.phase && s.phase[t].Sending?
    ensures Written(s, Step(s, FillBy(t)), t)
  {
    FillOk(s, t);
    var e, msg, was := Fill(s, t), s.phase[t].msg, s.slot[s.held[t]];
    assert e.slot[s.held[t]] == msg + was[|msg|..];
  }

  // ---- the queue as a list ----------------------------------------------------------------------------

  /** What a thread called last: a send with its message, urgent or not, or a receive with its size. */
  datatype Call = SendCall(msg: Msg, urgent: bool) | RecvCall(size: nat)

  function Noted(calls: map<Tid, Call>, v: Event): map<Tid, Call> {
    match v
    case SendBy(t, msg, _) => calls[t := SendCall(msg, false)]
    case UrgentBy(t, msg) => calls[t := SendCall(msg, true)]
    case RecvBy(t, size, _) => calls[t := RecvCall(size)]
    case _ => calls
  }

  function Next(q: seq<Msg>, calls: map<Tid, Call>, v: Event): seq<Msg> {
    if v.LinkBy? && v.t in calls && calls[v.t].SendCall? then if calls[v.t].urgent then [calls[v.t].msg] + q else q + [calls[v.t].msg]
    else if (v.RecvBy? || v.RecvAgainBy?) && q != [] then q[1..]
    else if v.ResetIt? then [] else q
  }

  /** A list of messages: a send puts its message at the end when its last section runs, an urgent one at the
      front, receives take the first, and a reset empties it.  It looks at the calls only. */
  function Queue(q: seq<Msg>, calls: map<Tid, Call>, vs: seq<Event>): seq<Msg>
    decreases |vs|
  {
    if vs == [] then q else Queue(Next(q, Noted(calls, vs[0]), vs[0]), Noted(calls, vs[0]), vs[1..])
  }

  /** What a thread is doing is what it called for. */
  ghost predicate Fits(p: Phase, calls: map<Tid, Call>, t: Tid) {
    match p
    case Sender(msg, _) => t in calls && calls[t] == SendCall(msg, false)
    case Sending(msg, urgent) => t in calls && calls[t] == SendCall(msg, urgent)
    case Filled(msg, urgent) => t in calls && calls[t] == SendCall(msg, urgent)
    case Receiver(size, _) => t in calls && calls[t] == RecvCall(size)
    case Receiving(size, _) => t in calls && calls[t] == RecvCall(size)
    case _ => true
  }

  ghost predicate Kept(s: State, calls: map<Tid, Call>) { forall t :: t in s.phase ==> Fits(s.phase[t], calls, t) }

  /** A section moves its own thread only. */
  lemma OwnPhase(s: State, e: State, v: Event)
    requires Inv(s) && Legal(s, v) && Does(s, e, v) && !v.ResetIt?
    ensures v.t in e.phase && e.phase == s.phase[v.t := e.phase[v.t]]
  {
  }

  lemma OwnFits(s: State, e: State, v: Event, calls: map<Tid, Call>)
    requires Inv(s) && Legal(s, v) && Does(s, e, v) && !v.ResetIt? && Fits(s.phase[v.t], calls, v.t) && v.t in e.phase
    ensures Fits(e.phase[v.t], Noted(calls, v), v.t)
  {
  }

  lemma StepKept(s: State, e: State, v: Event, calls: map<Tid, Call>)
    requires Inv(s) && Legal(s, v) && Does(s, e, v) && Kept(s, calls)
    ensures Kept(e, Noted(calls, v))
  {
    if v.ResetIt? {
      forall t | t in e.phase ensures Fits(e.phase[t], calls, t) { assert Fits(s.phase[t], calls, t); }
    } else {
      OwnPhase(s, e, v);
      assert Fits(s.phase[v.t], calls, v.t);
      OwnFits(s, e, v, calls);
      OthersFit(s.phase, e.phase, v, calls);
    }
  }

  lemma OthersFit(phase: map<Tid, Phase>, after: map<Tid, Phase>, v: Event, calls: map<Tid, Call>)
    requires !v.ResetIt? && v.t in after && after == phase[v.t := after[v.t]] && Fits(after[v.t], Noted(calls, v), v.t)
    requires forall t :: t in phase ==> Fits(phase[t], calls, t)
    ensures forall t :: t in after ==> Fits(after[t], Noted(calls, v), t)
  {
    forall t | t in after ensures Fits(after[t], Noted(calls, v), t) {
      if t != v.t { assert Fits(phase[t], calls, t); }
    }
  }

  lemma StepQueue(s: State, e: State, v: Event, calls: map<Tid, Call>)
    requires Inv(s) && Legal(s, v) && Does(s, e, v) && Kept(s, calls)
    ensures e.sent == Next(s.sent, Noted(calls, v), v)
  {
    if !v.ResetIt? { assert Fits(s.phase[v.t], calls, v.t); }
    if (v.RecvBy? || v.RecvAgainBy?) && s.queue != [] { assert e.sent == s.sent[1..]; }
  }

  /** Whatever the interleaving of sections, who blocks, who is woken and who overtakes whom: the messages
      queued are those of the list, in its order, and each queued node carries its message. */
  lemma {:induction false} Refines(s: State, vs: seq<Event>, calls: map<Tid, Call>)
    requires Inv(s) && LegalRun(s, vs) && Kept(s, calls)
    ensures var e, q := Run(s, vs), Queue(s.sent, calls, vs);
      |e.queue| == |q| && forall i :: 0 <= i < |q| ==> Carries(e.slot, e.queue[i], q[i])
    decreases |vs|
  {
    if vs != [] {
      var e := Step(s, vs[0]);
      StepOk(s, vs[0]);
      StepMeans(s, vs[0]);
      StepKept(s, e, vs[0], calls);
      StepQueue(s, e, vs[0], calls);
      Refines(e, vs[1..], Noted(calls, vs[0]));
    }
  }
}
