/** One semaphore of ipc.c and the threads that use it, as a transition system over its sections with
    interrupts disabled; any thread that is not waiting may move next. */
module Semaphore {
  import opened Seqs
  import opened WaitLists

  datatype Phase = Running | Waiting(timed: bool) | Resuming(ok: bool)

  datatype State = State(flag: Flag, value: nat, waiters: seq<Waiter>, arrivals: nat, phase: map<Tid, Phase>, prio: map<Tid, nat>)

  const VALUE_MAX: nat := 0xffff   // rt_uint16_t value

  /** rt_sem_take up to its return or its call of rt_schedule. */
  function Take(s: State, t: Tid, time: int): State
    requires t in s.prio
  {
    if s.value > 0 then s.(value := s.value - 1)
    else if time == 0 then s
    else s.(waiters := Enlist(s.flag, s.waiters, Waiter(t, s.prio[t], s.arrivals)), arrivals := s.arrivals + 1,
            phase := s.phase[t := Waiting(time > 0)])
  }

  /** rt_sem_release */
  function Release(s: State): State {
    if s.waiters == [] then s.(value := s.value + 1)
    else s.(waiters := s.waiters[1..], phase := s.phase[s.waiters[0].t := Resuming(true)])
  }

  /** rt_thread_timeout on a waiting taker. */
  function Timeout(s: State, t: Tid): State {
    s.(waiters := Delist(s.waiters, t), phase := s.phase[t := Resuming(false)])
  }

  function Return(s: State, t: Tid): State { s.(phase := s.phase[t := Running]) }

  ghost predicate Inv(s: State) {
    && (s.waiters != [] ==> s.value == 0)
    && Sorted(s.flag, s.waiters) && Once(s.waiters)
    && (forall w :: w in s.waiters ==> w.order < s.arrivals)
    && s.phase.Keys == s.prio.Keys
    && (forall t :: t in s.phase ==> (s.phase[t].Waiting? <==> t in Ids(s.waiters)))
    && Ids(s.waiters) <= s.phase.Keys
  }

  /** rt_sem_init */
  function Initial(value: nat, flag: Flag, prio: map<Tid, nat>): State {
    State(flag, value, [], 0, map t | t in prio :: Running, prio)
  }

  lemma InitialOk(value: nat, flag: Flag, prio: map<Tid, nat>)
    ensures Inv(Initial(value, flag, prio))
  {
    assert Initial(value, flag, prio).phase.Keys == prio.Keys;
  }

  datatype Event = TakeBy(t: Tid, time: int) | ReleaseIt | TimeoutOf(t: Tid) | ReturnOf(t: Tid)

  predicate Legal(s: State, v: Event) {
    match v
    case TakeBy(t, _) => t in s.phase && t in s.prio && s.phase[t] == Running
    case ReleaseIt => s.value < VALUE_MAX
    case TimeoutOf(t) => t in s.phase && s.phase[t] == Waiting(true)
    case ReturnOf(t) => t in s.phase && s.phase[t].Resuming?
  }

  function Step(s: State, v: Event): State
    requires Legal(s, v)
  {
    match v
    case TakeBy(t, time) => Take(s, t, time)
    case ReleaseIt => Release(s)
    case TimeoutOf(t) => Timeout(s, t)
    case ReturnOf(t) => Return(s, t)
  }

  lemma StepOk(s: State, v: Event)
    requires Inv(s) && Legal(s, v)
    ensures Inv(Step(s, v)) && Step(s, v).flag == s.flag
    ensures v.ReleaseIt? && s.waiters != [] ==> forall w :: w in s.waiters[1..] ==> Before(s.flag, s.waiters[0], w)
  {
    match v
    case TakeBy(t, time) => TakeKeeps(s, t, time);
    case ReleaseIt => ReleaseKeeps(s);
    case TimeoutOf(t) => DelistOk(s.flag, s.waiters, t);
    case ReturnOf(t) =>
  }

  lemma TakeKeeps(s: State, t: Tid, time: int)
    requires Inv(s) && Legal(s, TakeBy(t, time))
    ensures Inv(Take(s, t, time))
  {
    if s.value == 0 && time != 0 {
      var w := Waiter(t, s.prio[t], s.arrivals);
      EnlistSorted(s.flag, s.waiters, w);
      EnlistMembers(s.flag, s.waiters, w);
    }
  }

  lemma ReleaseKeeps(s: State)
    requires Inv(s) && Legal(s, ReleaseIt)
    ensures Inv(Release(s))
    ensures s.waiters != [] ==> forall w :: w in s.waiters[1..] ==> Before(s.flag, s.waiters[0], w)
  {
    if s.waiters != [] {
      TailOk(s.flag, s.waiters);
      assert s.waiters[0] in s.waiters;
      forall w | w in s.waiters[1..] ensures Before(s.flag, s.waiters[0], w) { HeadFirst(s.flag, s.waiters, w); }
    }
  }

  // ---- single calls -------------------------------------------------------------------------

  /** A take: of a unit, refused, or asleep on the list. */
  ghost predicate Taken(s: State, e: State, t: Tid, time: int)
    requires t in s.prio
  {
    if s.value > 0 then e.value == s.value - 1 && e == s.(value := e.value)
    else if time == 0 then e == s
    else
      && e.value == 0 && e.flag == s.flag && e.prio == s.prio && e.phase == s.phase[t := Waiting(time > 0)] && e.arrivals == s.arrivals + 1
      && forall w :: w in e.waiters <==> w in s.waiters || w == Waiter(t, s.prio[t], s.arrivals)
  }

  /** A release: a unit more, or the first waiter in wake-up order awake with it. */
  ghost predicate Given(s: State, e: State) {
    && e.flag == s.flag && e.prio == s.prio && e.arrivals == s.arrivals
    && if s.waiters == [] then e.value == s.value + 1 && e.waiters == [] && e.phase == s.phase
       else e.value == s.value && [s.waiters[0]] + e.waiters == s.waiters && e.phase == s.phase[s.waiters[0].t := Resuming(true)]
  }

  /** What each event does, and that it does nothing else. */
  lemma StepMeans(s: State, v: Event)
    requires Inv(s) && Legal(s, v)
    ensures var e := Step(s, v);
      && (v.TakeBy? ==> Taken(s, e, v.t, v.time))
      && (v.ReleaseIt? ==> Given(s, e))
      && (v.TimeoutOf? ==> e.value == s.value && e.phase == s.phase[v.t := Resuming(false)] && forall w :: w in e.waiters <==> w in s.waiters && w.t != v.t)
      && (v.ReturnOf? ==> e == s.(phase := s.phase[v.t := Running]))
  {
    match v
    case TakeBy(t, time) => EnlistMembers(s.flag, s.waiters, Waiter(t, s.prio[t], s.arrivals));
    case ReleaseIt =>
    case TimeoutOf(t) => DelistOk(s.flag, s.waiters, t);
    case ReturnOf(t) =>
  }

  // ---- runs -----------------------------------------------------------------------------------

  ghost predicate LegalRun(s: State, vs: seq<Event>)
    decreases |vs|
  {
    vs == [] || (Legal(s, vs[0]) && LegalRun(Step(s, vs[0]), vs[1..]))
  }

  function Run(s: State, vs: seq<Event>): State
    requires LegalRun(s, vs)
    decreases |vs|
  {
    if vs == [] then s else Run(Step(s, vs[0]), vs[1..])
  }

  /** The releases of a run. */
  function Releases(vs: seq<Event>): nat { if vs == [] then 0 else (if vs[0].ReleaseIt? then 1 else 0) + Releases(vs[1..]) }

  /** Does an event in this state give somebody a unit: a take while there is one, or a release somebody
      waits for? */
  predicate Grants(s: State, v: Event) { (v.TakeBy? && s.value > 0) || (v.ReleaseIt? && s.waiters != []) }

  /** The takes that got a unit in the course of a run. */
  function Granted(s: State, vs: seq<Event>): nat
    requires LegalRun(s, vs)
    decreases |vs|
  {
    if vs == [] then 0 else (if Grants(s, vs[0]) then 1 else 0) + Granted(Step(s, vs[0]), vs[1..])
  }

  /** A waiter a release went to, with those it left waiting. */
  datatype Handoff = Handoff(w: Waiter, left: seq<Waiter>)

  /** The handoffs of a run. */
  function Handoffs(s: State, vs: seq<Event>): seq<Handoff>
    requires LegalRun(s, vs)
    decreases |vs|
  {
    if vs == [] then []
    else (if vs[0].ReleaseIt? && s.waiters != [] then [Handoff(s.waiters[0], s.waiters[1..])] else []) + Handoffs(Step(s, vs[0]), vs[1..])
  }

  /** The waiter served comes before everybody it left waiting. */
  ghost predicate First(flag: Flag, d: Handoff) { forall x :: x in d.left ==> Before(flag, d.w, x) }

  ghost predicate InOrder(handed: seq<Handoff>) {
    forall i, j :: 0 <= i < j < |handed| ==> handed[i].w.order < handed[j].w.order
  }

  lemma {:induction false} Units(s: State, vs: seq<Event>)
    requires Inv(s) && LegalRun(s, vs)
    ensures Inv(Run(s, vs)) && Run(s, vs).flag == s.flag && s.value + Releases(vs) == Run(s, vs).value + Granted(s, vs)
    decreases |vs|
  {
    if vs != [] {
      StepOk(s, vs[0]);
      StepMeans(s, vs[0]);
      Units(Step(s, vs[0]), vs[1..]);
    }
  }

  lemma {:induction false} AllFirst(s: State, vs: seq<Event>)
    requires Inv(s) && LegalRun(s, vs)
    ensures forall i :: 0 <= i < |Handoffs(s, vs)| ==> First(s.flag, Handoffs(s, vs)[i])
    decreases |vs|
  {
    if vs != [] {
      StepOk(s, vs[0]);
      AllFirst(Step(s, vs[0]), vs[1..]);
      if vs[0].ReleaseIt? && s.waiters != [] { assert First(s.flag, Handoff(s.waiters[0], s.waiters[1..])); }
    }
  }

  lemma {:induction false} AllInOrder(s: State, vs: seq<Event>)
    requires Inv(s) && LegalRun(s, vs) && s.flag == FIFO
    ensures InOrder(Handoffs(s, vs))
    decreases |vs|
  {
    if vs != [] {
      var m := Step(s, vs[0]);
      StepOk(s, vs[0]);
      StepMeans(s, vs[0]);
      AllInOrder(m, vs[1..]);
      Later(m, vs[1..]);
      if vs[0].ReleaseIt? && s.waiters != [] { HeadEarliest(s); }
    }
  }

  /** Over every interleaving: units are conserved, nobody waits while one is available, every handoff
      went to a waiter that comes before all those it left waiting, and on a FIFO semaphore handoffs
      follow arrival order across the whole run. */
  lemma Conserved(s: State, vs: seq<Event>)
    requires Inv(s) && LegalRun(s, vs)
    ensures var e, handed := Run(s, vs), Handoffs(s, vs);
      && s.value + Releases(vs) == e.value + Granted(s, vs)
      && (e.waiters != [] ==> e.value == 0)
      && Sorted(s.flag, e.waiters)
      && (forall i :: 0 <= i < |handed| ==> First(s.flag, handed[i]))
      && (s.flag == FIFO ==> InOrder(handed))
  {
    Units(s, vs);
    AllFirst(s, vs);
    if s.flag == FIFO { AllInOrder(s, vs); }
  }

  lemma HeadEarliest(s: State)
    requires Inv(s) && s.flag == FIFO && s.waiters != []
    ensures s.waiters[0].order < s.arrivals && forall w :: w in s.waiters[1..] ==> s.waiters[0].order < w.order
  {
    assert s.waiters[0] in s.waiters;
    forall w | w in s.waiters[1..] ensures s.waiters[0].order < w.order { HeadFirst(s.flag, s.waiters, w); }
  }

  /** Whoever is served later waits now or comes later. */
  lemma {:induction false} Later(s: State, vs: seq<Event>)
    requires Inv(s) && LegalRun(s, vs)
    ensures forall i :: 0 <= i < |Handoffs(s, vs)| ==> Handoffs(s, vs)[i].w in s.waiters || Handoffs(s, vs)[i].w.order >= s.arrivals
    decreases |vs|
  {
    if vs != [] {
      var m := Step(s, vs[0]);
      StepOk(s, vs[0]);
      StepMeans(s, vs[0]);
      Later(m, vs[1..]);
      assert m.arrivals >= s.arrivals && forall w :: w in m.waiters ==> w in s.waiters || w.order >= s.arrivals;
    }
  }

  /** The semaphore object. */
  class Sem {
    const flag: Flag
    var value: nat
    var waiters: seq<Waiter>
    var arrivals: nat
    var phase: map<Tid, Phase>
    const prio: map<Tid, nat>

    ghost function Abs(): State
      reads this
    {
      State(flag, value, waiters, arrivals, phase, prio)
    }

    /** With a unit there the caller has it and there is one less; without, it gives up at once or sleeps. */
    method TakeFor(t: Tid, time: int) returns (ok: bool)
      requires t in prio
      modifies this
      ensures Abs() == Take(old(Abs()), t, time)
      ensures ok <==> old(value) > 0
      ensures ok ==> value == old(value) - 1 && waiters == old(waiters) && phase == old(phase) && arrivals == old(arrivals)
      ensures !ok && time == 0 ==> Abs() == old(Abs())
      ensures !ok && time != 0 ==> value == 0 && phase == old(phase)[t := Waiting(time > 0)] && Waiter(t, prio[t], old(arrivals)) in waiters
    {
      ok := value > 0;
      if ok {
        value := value - 1;
      } else if time != 0 {
        var w := Waiter(t, prio[t], arrivals);
        var r := Place(flag, waiters, w);
        waiters := InsertAt(waiters, r, w);
        assert waiters[r] == w;
        arrivals := arrivals + 1;
        phase := phase[t := Waiting(time > 0)];
      }
    }

    /** rt_thread_timeout on a thread blocked here. */
    method TimeoutThread(t: Tid)
      modifies this
      ensures Abs() == Timeout(old(Abs()), t)
    {
      waiters := Delist(waiters, t);
      phase := phase[t := Resuming(false)];
    }

    /** The first waiter in wake-up order gets the unit; without waiters the value goes up. */
    method ReleaseOne()
      requires Inv(Abs()) && Legal(Abs(), ReleaseIt)
      modifies this
      ensures Inv(Abs()) && Abs() == Release(old(Abs()))
      ensures old(waiters) == [] ==> value == old(value) + 1 && phase == old(phase)
      ensures old(waiters) != [] ==>
        var w := old(waiters)[0];
        && value == 0 && w.t in phase && phase[w.t] == Resuming(true)
        && forall x :: x in waiters ==> Before(flag, w, x) && x.t != w.t
    {
      StepOk(Abs(), ReleaseIt);
      if waiters != [] {
        var w := waiters[0];
        assert w in waiters && w.t in Ids(waiters);
        TailOk(flag, waiters);
        forall x | x in waiters[1..] ensures Before(flag, w, x) && x.t != w.t { HeadFirst(flag, waiters, x); }
        waiters := waiters[1..];
        phase := phase[w.t := Resuming(true)];
      } else {
        value := value + 1;
      }
    }
  }
}
