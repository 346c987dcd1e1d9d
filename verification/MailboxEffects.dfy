/** What the sections of a mailbox do, and that a mailbox shared by any number of threads is a bounded
    first-in, first-out queue driven by their calls alone. */
module MailboxEffects {
  import opened Seqs
  import opened WaitLists
  import opened Sides
  import opened Mailbox

  ghost predicate OnlyPhase(s: State, e: State, t: Tid, p: Phase) {
    e.phase == s.phase[t := p] && e.cap == s.cap && e.prio == s.prio
  }

  // ---- single sections -------------------------------------------------------------------------

  /** A sender at the top of its loop, which is on no list: it posts, gives up, or sleeps. */
  ghost predicate SendTried(s: State, e: State, t: Tid, value: int, time: int)
    requires t in s.prio
  {
    if |s.mails| < s.cap then
      OnlyPhase(s, e, t, Running) && e.mails == s.mails + [value] && WokeFirst(s.receivers, e.receivers) && e.senders == s.senders
    else
      && e.mails == s.mails && e.receivers == s.receivers
      && if time == 0 then OnlyPhase(s, e, t, Running) && e.senders == s.senders
         else OnlyPhase(s, e, t, Sender(value, time > 0)) && JoinedBy(s.senders, e.senders, t, s.prio[t])
  }

  ghost predicate RecvTried(s: State, e: State, t: Tid, time: int)
    requires t in s.prio
  {
    if s.mails != [] then
      OnlyPhase(s, e, t, Running) && [s.mails[0]] + e.mails == s.mails && WokeFirst(s.senders, e.senders) && e.receivers == s.receivers
    else
      && e.mails == [] && e.senders == s.senders
      && if time == 0 then OnlyPhase(s, e, t, Running) && e.receivers == s.receivers
         else OnlyPhase(s, e, t, Receiver(time > 0)) && JoinedBy(s.receivers, e.receivers, t, s.prio[t])
  }

  lemma SendMeans(s: State, t: Tid, value: int, time: int)
    requires t in s.prio && Once(s.senders.waiters) && t !in Ids(s.senders.waiters)
    ensures SendTried(s, TrySend(s, t, value, time), t, value, time)
  {
    EnlistMembers(s.senders.flag, s.senders.waiters, Waiter(t, s.prio[t], s.senders.arrivals));
  }

  lemma RecvMeans(s: State, t: Tid, time: int)
    requires t in s.prio && Once(s.receivers.waiters) && t !in Ids(s.receivers.waiters)
    ensures RecvTried(s, TryRecv(s, t, time), t, time)
  {
    EnlistMembers(s.receivers.flag, s.receivers.waiters, Waiter(t, s.prio[t], s.receivers.arrivals));
  }

  /** Every section, and that it does nothing else. */
  ghost predicate Does(s: State, e: State, v: Event)
    requires Inv(s) && Legal(s, v)
  {
    match v
    case SendBy(t, value, time) => SendTried(s, e, t, value, time)
    case RecvBy(t, time) => RecvTried(s, e, t, time)
    case SendAgainBy(t, left) => SendTried(s.(senders := Up(s.senders, t)), e, t, s.phase[t].value, left)
    case RecvAgainBy(t, left) => RecvTried(s.(receivers := Up(s.receivers, t)), e, t, left)
    case TimeoutOf(t) => OnlyPhase(s, e, t, Failing) && e.mails == s.mails && LeftBy(s.senders, e.senders, t) && LeftBy(s.receivers, e.receivers, t)
    case FailBy(t) => OnlyPhase(s, e, t, Running) && e.mails == s.mails && e.senders == s.senders && e.receivers == s.receivers
    case ResetIt =>
      && e.mails == [] && e.senders == s.senders.(waiters := []) && e.receivers == s.receivers.(waiters := []) && e.cap == s.cap && e.prio == s.prio
      && e.phase.Keys == s.phase.Keys
      && forall t :: t in s.phase ==> e.phase[t] == if t in Ids(s.senders.waiters) + Ids(s.receivers.waiters) then Failing else s.phase[t]
  }

  lemma StepMeans(s: State, v: Event)
    requires Inv(s) && Legal(s, v)
    ensures Does(s, Step(s, v), v)
  {
    if !v.ResetIt? { assert Placed(s.phase[v.t], v.t in Members(s.senders), v.t in Members(s.receivers)); }
    match v
    case SendBy(t, value, time) => SendMeans(s, t, value, time);
    case RecvBy(t, time) => RecvMeans(s, t, time);
    case SendAgainBy(t, left) => SendMeans(s.(senders := Proceed(s.senders, t)), t, s.phase[t].value, left);
    case RecvAgainBy(t, left) => RecvMeans(s.(receivers := Proceed(s.receivers, t)), t, left);
    case TimeoutOf(t) =>
      LeaveMeans(s.senders, t);
      LeaveMeans(s.receivers, t);
    case FailBy(_) =>
    case ResetIt =>
  }

  // ---- the mailbox as a queue --------------------------------------------------------------------

  /** The value each thread passed to its last send. */
  function Noted(calls: map<Tid, int>, v: Event): map<Tid, int> { if v.SendBy? then calls[v.t := v.value] else calls }

  function Next(q: seq<int>, cap: nat, calls: map<Tid, int>, v: Event): seq<int> {
    if (v.SendBy? || v.SendAgainBy?) && v.t in calls && |q| < cap then q + [calls[v.t]]
    else if (v.RecvBy? || v.RecvAgainBy?) && q != [] then q[1..]
    else if v.ResetIt? then [] else q
  }

  /** A bounded queue that sends append to if there is room, receives take the first from, and a reset
      empties.  It looks at the calls only. */
  function Queue(q: seq<int>, cap: nat, calls: map<Tid, int>, vs: seq<Event>): seq<int>
    decreases |vs|
  {
    if vs == [] then q else Queue(Next(q, cap, Noted(calls, vs[0]), vs[0]), cap, Noted(calls, vs[0]), vs[1..])
  }

  /** Blocked senders still mean to send what they were called with. */
  ghost predicate Kept(s: State, calls: map<Tid, int>) {
    forall t :: t in s.phase && s.phase[t].Sender? ==> t in calls && calls[t] == s.phase[t].value
  }

  lemma StepKept(s: State, e: State, v: Event, calls: map<Tid, int>)
    requires Inv(s) && Legal(s, v) && Does(s, e, v) && Kept(s, calls)
    ensures Kept(e, Noted(calls, v)) && e.cap == s.cap && e.mails == Next(s.mails, s.cap, Noted(calls, v), v)
  {
    if v.RecvBy? || v.RecvAgainBy? { if s.mails != [] { assert e.mails == s.mails[1..]; } }
  }

  /** Whatever the interleaving, who blocks, who is woken and who overtakes whom: the mails are those of the
      bounded queue. */
  lemma {:induction false} Refines(s: State, vs: seq<Event>, calls: map<Tid, int>)
    requires Inv(s) && LegalRun(s, vs) && Kept(s, calls)
    ensures Run(s, vs).mails == Queue(s.mails, s.cap, calls, vs)
    decreases |vs|
  {
    if vs != [] {
      var e := Step(s, vs[0]);
      StepOk(s, vs[0]);
      StepMeans(s, vs[0]);
      StepKept(s, e, vs[0], calls);
      Refines(e, vs[1..], Noted(calls, vs[0]));
    }
  }
}
