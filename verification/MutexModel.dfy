/** One mutex of ipc.c and the threads that use it, as a transition system.  Between two steps any
    thread that is not waiting may be the next to move, so every schedule is covered; each step is one
    section with interrupts disabled. */
module MutexModel {
  import opened WaitLists

  datatype Owner = Nobody | Held(t: Tid)

  datatype Err = EOK | ETIMEOUT | ERROR

  /** Outside a blocked take; suspended in one; resumed but not yet back from rt_schedule. */
  datatype Phase = Free | Waiting(timed: bool) | Resuming

  datatype State = State(
    flag: Flag, value: nat, owner: Owner, hold: nat, original: nat, waiters: seq<Waiter>, arrivals: nat,
    prio: map<Tid, nat>, phase: map<Tid, Phase>, error: map<Tid, Err>)

  const HOLD_MAX: nat := 255       // rt_uint8_t hold
  const NO_PRIORITY: nat := 0xff

  predicate Known(s: State, t: Tid) { t in s.prio && t in s.phase && t in s.error }

  /** rt_mutex_take up to its return or its call of rt_schedule. */
  function Take(s: State, t: Tid, time: int): State
    requires Known(s, t) && (s.value == 0 ==> s.owner.Held? && s.owner.t in s.prio)
  {
    var s1 := s.(error := s.error[t := EOK]);
    if s.owner == Held(t) then s1.(hold := s.hold + 1)
    else if s.value > 0 then
      s1.(value := s.value - 1, owner := Held(t), original := s.prio[t], hold := s.hold + 1)
    else if time == 0 then s1.(error := s.error[t := ETIMEOUT])
    else
      s1.(prio := if s.prio[t] < s.prio[s.owner.t] then s.prio[s.owner.t := s.prio[t]] else s.prio,
          waiters := Enlist(s.flag, s.waiters, Waiter(t, s.prio[t], s.arrivals)),
          arrivals := s.arrivals + 1,
          phase := s.phase[t := Waiting(time > 0)])
  }

  /** rt_mutex_release */
  function Release(s: State, t: Tid): State
    requires Known(s, t) && (s.owner == Held(t) ==> s.hold > 0)
    requires forall w :: w in s.waiters ==> Known(s, w.t)
  {
    if s.owner != Held(t) then s.(error := s.error[t := ERROR])
    else if s.hold > 1 then s.(hold := s.hold - 1)
    else
      var s1 := s.(hold := 0, prio := s.prio[t := s.original]);
      if s.waiters == [] then s1.(value := s.value + 1, owner := Nobody, original := NO_PRIORITY)
      else
        var w := s.waiters[0];
        assert w in s.waiters && Known(s, w.t);
        s1.(owner := Held(w.t), original := s1.prio[w.t], hold := 1, waiters := s.waiters[1..],
            phase := s.phase[w.t := Resuming])
  }

  /** rt_thread_timeout on a thread whose take has a time limit. */
  function Timeout(s: State, t: Tid): State
  {
    s.(error := s.error[t := ETIMEOUT], waiters := Delist(s.waiters, t), phase := s.phase[t := Resuming])
  }

  /** The resumed thread leaves rt_mutex_take with its error number. */
  function Return(s: State, t: Tid): State { s.(phase := s.phase[t := Free]) }

  // ---- invariant -------------------------------------------------------------------------------

  predicate Owns(s: State, t: Tid) { s.owner == Held(t) }

  /** Ownership: at most one owner, counted right, and every resumed taker knows from its error number
      whether it is the owner. */
  ghost predicate Safe(s: State) {
    && s.prio.Keys == s.phase.Keys == s.error.Keys
    && s.value <= 1 && (s.value == 1 <==> s.owner == Nobody) && (s.hold == 0 <==> s.owner == Nobody) && s.hold <= HOLD_MAX
    && (s.owner.Held? ==> s.owner.t in s.phase && s.owner.t !in Ids(s.waiters))
    && (s.waiters != [] ==> s.owner.Held?)
    && Once(s.waiters) && Sorted(s.flag, s.waiters)
    && (forall w :: w in s.waiters ==> w.t in s.phase && w.order < s.arrivals)
    && (forall t :: t in s.phase ==> (s.phase[t].Waiting? <==> t in Ids(s.waiters)))
    && (forall t :: t in s.phase && s.phase[t] == Resuming ==> (s.error[t] == EOK <==> Owns(s, t)))
    && (forall t :: t in s.phase && s.phase[t] == Resuming && Owns(s, t) ==> s.hold == 1)
    && (forall t :: t in s.phase && s.phase[t].Waiting? ==> s.error[t] == EOK)
  }

  /** Priorities: everybody but the owner is at its base priority `base`, the owner is at least that
      high, and a release will put it back there. */
  ghost predicate Inherits(s: State, base: map<Tid, nat>) {
    && base.Keys == s.prio.Keys
    && (forall t :: t in s.prio && !Owns(s, t) ==> s.prio[t] == base[t])
    && (forall w :: w in s.waiters ==> w.t in s.prio && w.prio == s.prio[w.t])
    && (s.owner.Held? && s.owner.t in base ==> s.original == base[s.owner.t] && s.prio[s.owner.t] <= base[s.owner.t])
  }

  /** No waiter outranks the owner. */
  ghost predicate NoInversion(s: State) {
    s.owner.Held? && s.owner.t in s.prio ==> forall w :: w in s.waiters ==> s.prio[s.owner.t] <= w.prio
  }

  ghost predicate Inv(s: State, base: map<Tid, nat>) {
    Safe(s) && Inherits(s, base) && (s.flag == PRIO ==> NoInversion(s))
  }

  // ---- steps -------------------------------------------------------------------------------------

  lemma TakeOk(s: State, base: map<Tid, nat>, t: Tid, time: int)
    requires Inv(s, base) && t in s.phase && s.phase[t] == Free && (Owns(s, t) ==> s.hold < HOLD_MAX)
    ensures Inv(Take(s, t, time), base)
  {
    if s.owner != Held(t) && s.value == 0 && time != 0 {
      var w := Waiter(t, s.prio[t], s.arrivals);
      EnlistSorted(s.flag, s.waiters, w);
      EnlistMembers(s.flag, s.waiters, w);
      WaitOk(s, base, t, time, Enlist(s.flag, s.waiters, w));
    } else {
      TakeNow(s, base, t, time);
    }
  }

  lemma TakeNow(s: State, base: map<Tid, nat>, t: Tid, time: int)
    requires Inv(s, base) && t in s.phase && s.phase[t] == Free && (Owns(s, t) ==> s.hold < HOLD_MAX)
    requires s.owner == Held(t) || s.value > 0 || time == 0
    ensures Inv(Take(s, t, time), base)
  {
  }

  /** The thread joins the list q, and the owner inherits its priority if that is better. */
  lemma WaitOk(s: State, base: map<Tid, nat>, t: Tid, time: int, q: seq<Waiter>)
    requires Inv(s, base) && t in s.phase && s.phase[t] == Free && s.owner.Held? && !Owns(s, t)
    requires var w := Waiter(t, s.prio[t], s.arrivals);
      Sorted(s.flag, q) && Once(q) && Ids(q) == Ids(s.waiters) + {t} && forall x :: x in q <==> x in s.waiters || x == w
    ensures Inv(s.(error := s.error[t := EOK],
                   prio := if s.prio[t] < s.prio[s.owner.t] then s.prio[s.owner.t := s.prio[t]] else s.prio,
                   waiters := q, arrivals := s.arrivals + 1, phase := s.phase[t := Waiting(time > 0)]), base)
  {
  }

  lemma TimeoutOk(s: State, base: map<Tid, nat>, t: Tid)
    requires Inv(s, base) && t in s.phase && s.phase[t].Waiting?
    ensures Inv(Timeout(s, t), base)
  {
    DelistOk(s.flag, s.waiters, t);
  }

  lemma ReturnOk(s: State, base: map<Tid, nat>, t: Tid)
    requires Inv(s, base) && t in s.phase && s.phase[t] == Resuming
    ensures Inv(Return(s, t), base)
    ensures s.error[t] == EOK <==> Owns(s, t)
  {
  }

  lemma ReleaseOk(s: State, base: map<Tid, nat>, t: Tid)
    requires Inv(s, base) && t in s.phase && s.phase[t] == Free
    ensures Inv(Release(s, t), base)
    ensures Owns(s, t) && s.hold == 1 ==> Release(s, t).prio[t] == base[t]
  {
    if Owns(s, t) && s.hold == 1 && s.waiters != [] {
      TailOk(s.flag, s.waiters);
      assert s.waiters[0] in s.waiters;
      forall w | w in s.waiters[1..] ensures Before(s.flag, s.waiters[0], w) && w.t != s.waiters[0].t {
        HeadFirst(s.flag, s.waiters, w);
      }
    }
  }

  /** What a release means to its caller and to the waiters. */
  lemma ReleaseMeans(s: State, base: map<Tid, nat>, t: Tid)
    requires Inv(s, base) && t in s.phase && s.phase[t] == Free
    ensures var e := Release(s, t);
      && Inv(e, base)
      && (!Owns(s, t) || s.hold > 1 ==> e.owner == s.owner && e.waiters == s.waiters && e.prio == s.prio && e.value == s.value && e.phase == s.phase)
      && (Owns(s, t) && s.hold > 1 ==> e.hold == s.hold - 1 && e.error == s.error)
      && (Owns(s, t) && s.hold == 1 ==> e.hold == if s.waiters == [] then 0 else 1)
      && (Owns(s, t) && s.hold == 1 ==> e.prio[t] == base[t] && e.owner == if s.waiters == [] then Nobody else Held(s.waiters[0].t))
      && (Owns(s, t) && s.hold == 1 && s.waiters != [] ==> forall w :: w in e.waiters ==> Before(s.flag, s.waiters[0], w))
  {
    ReleaseOk(s, base, t);
    if s.waiters != [] {
      forall w | w in s.waiters[1..] ensures Before(s.flag, s.waiters[0], w) { HeadFirst(s.flag, s.waiters, w); }
    }
  }

  // ---- runs ----------------------------------------------------------------------------------------

  datatype Event = TakeBy(t: Tid, time: int) | ReleaseBy(t: Tid) | TimeoutOf(t: Tid) | ReturnOf(t: Tid)

  /** A thread calls only while it is running; a timeout needs a time limit; nesting fits the hold
      counter. */
  predicate Legal(s: State, v: Event) {
    && v.t in s.phase
    && match v
       case TakeBy(t, _) => s.phase[t] == Free && (Owns(s, t) ==> s.hold < HOLD_MAX)
       case ReleaseBy(t) => s.phase[t] == Free
       case TimeoutOf(t) => s.phase[t] == Waiting(true)
       case ReturnOf(t) => s.phase[t] == Resuming
  }

  ghost function Step(s: State, base: map<Tid, nat>, v: Event): (s': State)
    requires Inv(s, base) && Legal(s, v)
    ensures Inv(s', base) && s'.flag == s.flag
  {
    match v
    case TakeBy(t, time) => TakeOk(s, base, t, time); Take(s, t, time)
    case ReleaseBy(t) => ReleaseOk(s, base, t); Release(s, t)
    case TimeoutOf(t) => TimeoutOk(s, base, t); Timeout(s, t)
    case ReturnOf(t) => ReturnOk(s, base, t); Return(s, t)
  }

  ghost predicate LegalRun(s: State, base: map<Tid, nat>, vs: seq<Event>)
    requires Inv(s, base)
    decreases |vs|
  {
    vs == [] || (Legal(s, vs[0]) && LegalRun(Step(s, base, vs[0]), base, vs[1..]))
  }

  ghost function Run(s: State, base: map<Tid, nat>, vs: seq<Event>): (s': State)
    requires Inv(s, base) && LegalRun(s, base, vs)
    ensures Inv(s', base) && s'.flag == s.flag
    decreases |vs|
  {
    if vs == [] then s else Run(Step(s, base, vs[0]), base, vs[1..])
  }

  /** rt_mutex_init */
  function Init(flag: Flag, base: map<Tid, nat>): State {
    State(flag, 1, Nobody, 0, NO_PRIORITY, [], 0, base,
          map t | t in base :: Free, map t | t in base :: EOK)
  }

  lemma InitOk(flag: Flag, base: map<Tid, nat>)
    ensures Inv(Init(flag, base), base)
  {
  }

  /** Over every interleaving of takes, nested takes, releases and timeouts: the mutex is free exactly
      when nobody holds it, waiters imply an owner, a take that returns RT_EOK returns to the owner and
      one that timed out to somebody else, and with RT_IPC_FLAG_PRIO the waiters are in priority order,
      none outranks the owner, everybody else runs at its own priority. */
  lemma Exclusive(flag: Flag, base: map<Tid, nat>, vs: seq<Event>, t: Tid)
    requires Inv(Init(flag, base), base) && LegalRun(Init(flag, base), base, vs) && t in base
    ensures var s := Run(Init(flag, base), base, vs);
      && (s.value == 1 <==> s.owner == Nobody) && (s.value == 1 <==> s.hold == 0)
      && (s.waiters != [] ==> s.owner.Held?)
      && (t in s.phase && s.phase[t] == Resuming ==> (s.error[t] == EOK <==> s.owner == Held(t)))
      && (t in s.prio && s.owner != Held(t) ==> s.prio[t] == base[t])
      && (flag == PRIO ==>
            && (forall i, j :: 0 <= i < j < |s.waiters| ==> s.waiters[i].prio <= s.waiters[j].prio)
            && (s.owner == Held(t) ==> forall w :: w in s.waiters ==> s.prio[t] <= w.prio))
  {
    var s := Run(Init(flag, base), base, vs);
    assert flag == PRIO ==> forall i, j :: 0 <= i < j < |s.waiters| ==> Before(PRIO, s.waiters[i], s.waiters[j]);
  }

  /** A handoff leaves no waiter above the new owner exactly when it goes to a waiter of highest
      priority, which RT_IPC_FLAG_PRIO guarantees and RT_IPC_FLAG_FIFO does not. */
  lemma HandoffInverts(s: State, base: map<Tid, nat>, t: Tid)
    requires Safe(s) && Inherits(s, base) && Owns(s, t) && s.hold == 1 && s.waiters != []
    ensures NoInversion(Release(s, t)) <==> forall w :: w in s.waiters[1..] ==> s.waiters[0].prio <= w.prio
  {
    TailOk(s.flag, s.waiters);
    assert s.waiters[0] in s.waiters;
    var s' := Release(s, t);
    assert s'.prio[s'.owner.t] == s.waiters[0].prio;
  }

  lemma RunCons(s: State, base: map<Tid, nat>, v: Event, s': State, vs: seq<Event>)
    requires Inv(s, base) && Legal(s, v) && s' == Step(s, base, v) && LegalRun(s', base, vs)
    ensures LegalRun(s, base, [v] + vs) && Run(s, base, [v] + vs) == Run(s', base, vs)
  {
    assert ([v] + vs)[1..] == vs;
  }

  /** A thread that finds a FIFO mutex taken goes to the end of the list. */
  lemma QueuesLast(s: State, base: map<Tid, nat>, t: Tid)
    requires Inv(s, base) && Legal(s, TakeBy(t, -1)) && s.flag == FIFO && s.owner.Held? && !Owns(s, t)
    ensures var e := Step(s, base, TakeBy(t, -1));
      && e.waiters == s.waiters + [Waiter(t, s.prio[t], s.arrivals)] && e.arrivals == s.arrivals + 1 && e.owner == s.owner && e.hold == s.hold
      && (forall u :: u in s.phase && u != t ==> e.phase[u] == s.phase[u])
      && (forall u :: u in s.prio && !Owns(s, u) ==> e.prio[u] == s.prio[u])
  {
  }

  /** The last release by thread 1 is about to hand the mutex to a thread that a waiter outranks. */
  ghost predicate AboutToInvert(s: State) {
    && Known(s, 1) && Owns(s, 1) && s.hold == 1 && (forall w :: w in s.waiters ==> Known(s, w.t))
    && NoInversion(s) && !NoInversion(Release(s, 1))
  }

  /** Threads 1, 2 and 3 have priorities 5, 9 and 1; thread 1 owns the mutex and k threads wait. */
  ghost predicate Taken(s: State, base: map<Tid, nat>, k: nat) {
    && base == map[1 := 5, 2 := 9, 3 := 1] && Inv(s, base) && s.flag == FIFO && Owns(s, 1) && s.hold == 1 && s.arrivals == k
    && s.phase[3] == Free && (k == 0 ==> s.phase[2] == Free && s.waiters == []) && (k == 1 ==> s.waiters == [Waiter(2, 9, 0)])
  }

  lemma SecondWaits(s: State, base: map<Tid, nat>)
    requires Taken(s, base, 1)
    ensures LegalRun(s, base, [TakeBy(3, -1)]) && AboutToInvert(Run(s, base, [TakeBy(3, -1)]))
  {
    QueuesLast(s, base, 3);
    var e := Step(s, base, TakeBy(3, -1));
    assert Legal(s, TakeBy(3, -1)) && LegalRun(e, base, []) && Run(e, base, []) == e;
    RunCons(s, base, TakeBy(3, -1), e, []);
    assert [TakeBy(3, -1)] + [] == [TakeBy(3, -1)];
    Inverts(e, base);
  }

  lemma FirstWaits(s: State, base: map<Tid, nat>)
    requires Taken(s, base, 0)
    ensures var vs := [TakeBy(2, -1)] + [TakeBy(3, -1)]; LegalRun(s, base, vs) && AboutToInvert(Run(s, base, vs))
  {
    QueuesLast(s, base, 2);
    var e := Step(s, base, TakeBy(2, -1));
    assert Taken(e, base, 1);
    SecondWaits(e, base);
    RunCons(s, base, TakeBy(2, -1), e, [TakeBy(3, -1)]);
  }

  lemma Inverts(s: State, base: map<Tid, nat>)
    requires Inv(s, base) && Owns(s, 1) && s.hold == 1 && s.waiters == [Waiter(2, 9, 0)] + [Waiter(3, 1, 1)]
    requires s.prio[1] <= 1
    ensures AboutToInvert(s)
  {
    HandoffInverts(s, base, 1);
    assert s.waiters[1..] == [Waiter(3, 1, 1)];
    assert Waiter(3, 1, 1) in s.waiters[1..];
  }

  /** Three takes of a FIFO mutex: the low thread waits before the high one, so that the release by the
      first hands the mutex over with the high one waiting. */
  lemma FifoInversion() returns (base: map<Tid, nat>, vs: seq<Event>)
    ensures Inv(Init(FIFO, base), base) && LegalRun(Init(FIFO, base), base, vs) && AboutToInvert(Run(Init(FIFO, base), base, vs))
  {
    base := map[1 := 5, 2 := 9, 3 := 1];
    vs := [TakeBy(1, -1)] + ([TakeBy(2, -1)] + [TakeBy(3, -1)]);
    var s := Init(FIFO, base);
    InitOk(FIFO, base);
    var e := Step(s, base, TakeBy(1, -1));
    assert Taken(e, base, 0);
    FirstWaits(e, base);
    RunCons(s, base, TakeBy(1, -1), e, [TakeBy(2, -1)] + [TakeBy(3, -1)]);
  }
}
