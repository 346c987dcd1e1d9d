/** What taking and releasing a mutex do to it and to the threads, and who owns it for how long, counted
    from the calls alone. */
module MutexEffects {
  import opened WaitLists
  import opened MutexModel

  // ---- single calls -----------------------------------------------------------------------

  /** Only thread `t` may have another error number, and nothing else differs. */
  ghost predicate OnlyError(s: State, e: State, t: Tid, err: Err) {
    t in s.error && e == s.(error := s.error[t := err])
  }

  /** The mutex itself is as it was. */
  ghost predicate SameMutex(s: State, e: State) {
    e.flag == s.flag && e.value == s.value && e.owner == s.owner && e.hold == s.hold && e.original == s.original
  }

  ghost predicate SameThreads(s: State, e: State) { e.waiters == s.waiters && e.arrivals == s.arrivals && e.prio == s.prio && e.phase == s.phase }

  /** The caller sleeps on the list, and lends the owner its priority if that is better. */
  ghost predicate Sleeps(s: State, e: State, t: Tid, time: int)
    requires Known(s, t) && s.owner.Held? && s.owner.t in s.prio
  {
    && SameMutex(s, e) && e.error == s.error[t := EOK] && e.phase == s.phase[t := Waiting(time > 0)] && e.arrivals == s.arrivals + 1
    && (forall w :: w in e.waiters <==> w in s.waiters || w == Waiter(t, s.prio[t], s.arrivals))
    && e.prio.Keys == s.prio.Keys && (forall u :: u in s.prio && u != s.owner.t ==> e.prio[u] == s.prio[u])
    && e.prio[s.owner.t] == if s.prio[t] < s.prio[s.owner.t] then s.prio[t] else s.prio[s.owner.t]
  }

  /** A take: again by the owner, of a free mutex, of a taken one without and with time to wait. */
  ghost predicate Taken(s: State, e: State, t: Tid, time: int)
    requires Known(s, t) && (s.owner.Held? ==> s.owner.t in s.prio)
  {
    if s.owner == Held(t) then e.hold == s.hold + 1 && e == s.(hold := e.hold, error := s.error[t := EOK])
    else if s.owner == Nobody then
      e.owner == Held(t) && e.hold == 1 && e.value == 0 && e.original == s.prio[t] && SameThreads(s, e) && e.error == s.error[t := EOK]
    else if time == 0 then OnlyError(s, e, t, ETIMEOUT)
    else Sleeps(s, e, t, time)
  }

  lemma TakeMeans(s: State, base: map<Tid, nat>, t: Tid, time: int)
    requires Inv(s, base) && Legal(s, TakeBy(t, time))
    ensures Taken(s, Take(s, t, time), t, time)
  {
    EnlistMembers(s.flag, s.waiters, Waiter(t, s.prio[t], s.arrivals));
  }

  /** The last release: the owner is back at its own priority, and the mutex is the first waiter's, who
      wakes with one hold, or free. */
  ghost predicate LetGo(s: State, e: State, base: map<Tid, nat>, t: Tid)
    requires t in base
  {
    && e.flag == s.flag && e.error == s.error && e.arrivals == s.arrivals && e.prio == s.prio[t := base[t]]
    && if s.waiters == [] then e.owner == Nobody && e.hold == 0 && e.value == 1 && e.waiters == [] && e.phase == s.phase
       else var w := s.waiters[0];
         && w.t in e.prio && e.owner == Held(w.t) && e.hold == 1 && e.value == 0 && e.original == e.prio[w.t]
         && e.waiters == s.waiters[1..] && e.phase == s.phase[w.t := Resuming]
  }

  /** A release: by somebody else, of an inner take, and of the last one. */
  ghost predicate Released(s: State, e: State, base: map<Tid, nat>, t: Tid)
    requires t in base
  {
    if s.owner != Held(t) then OnlyError(s, e, t, ERROR)
    else if s.hold > 1 then e.hold == s.hold - 1 && e == s.(hold := e.hold)
    else LetGo(s, e, base, t)
  }

  lemma ReleaseExact(s: State, base: map<Tid, nat>, t: Tid)
    requires Inv(s, base) && Legal(s, ReleaseBy(t))
    ensures t in base && Released(s, Release(s, t), base, t)
  {
    if s.waiters != [] { assert s.waiters[0] in s.waiters; }
  }

  /** A timeout takes one waiter off the list with its error; a return only lets the thread go on. */
  lemma LeaveMeans(s: State, base: map<Tid, nat>, v: Event)
    requires Inv(s, base) && Legal(s, v)
    ensures var e := Step(s, base, v); v.TimeoutOf? ==>
      SameMutex(s, e) && e.prio == s.prio && e.error == s.error[v.t := ETIMEOUT] && e.phase == s.phase[v.t := Resuming] &&
      forall w :: w in e.waiters <==> w in s.waiters && w.t != v.t
    ensures v.ReturnOf? ==> Step(s, base, v) == s.(phase := s.phase[v.t := Free])
  {
    if v.TimeoutOf? { DelistOk(s.flag, s.waiters, v.t); }
  }

  // ---- how long a thread owns it --------------------------------------------------------------

  /** What an event adds to the holds of thread `t` while it is the owner. */
  function Delta(v: Event, t: Tid): int { if v.t != t then 0 else if v.TakeBy? then 1 else if v.ReleaseBy? then -1 else 0 }

  /** The takes of thread `t` less its releases. */
  function Net(vs: seq<Event>, t: Tid): int { if vs == [] then 0 else Delta(vs[0], t) + Net(vs[1..], t) }

  /** Starting with `h`, the takes stay ahead of the releases all the way. */
  predicate Ahead(vs: seq<Event>, t: Tid, h: int) {
    vs == [] || (h + Delta(vs[0], t) > 0 && Ahead(vs[1..], t, h + Delta(vs[0], t)))
  }

  /** While a thread owns the mutex, only its own calls count. */
  lemma OwnerStep(s: State, base: map<Tid, nat>, v: Event, t: Tid)
    requires Inv(s, base) && Legal(s, v) && Owns(s, t)
    ensures var e := Step(s, base, v);
      if s.hold + Delta(v, t) > 0 then Owns(e, t) && e.hold == s.hold + Delta(v, t) else !Owns(e, t)
  {
    match v
    case TakeBy(u, time) => TakeMeans(s, base, u, time);
    case ReleaseBy(u) =>
      ReleaseExact(s, base, u);
      if s.waiters != [] { assert s.waiters[0].t in Ids(s.waiters) by { assert s.waiters[0] in s.waiters; } }
    case _ => LeaveMeans(s, base, v);
  }

  /** As long as the owner's takes stay ahead of its releases it is the owner, whatever others do, and
      `hold` is how many it is ahead. */
  lemma {:induction false} HoldCounts(s: State, base: map<Tid, nat>, vs: seq<Event>, t: Tid)
    requires Inv(s, base) && LegalRun(s, base, vs) && Owns(s, t) && Ahead(vs, t, s.hold)
    ensures var e := Run(s, base, vs); Owns(e, t) && e.hold == s.hold + Net(vs, t)
    decreases |vs|
  {
    if vs != [] {
      OwnerStep(s, base, vs[0], t);
      HoldCounts(Step(s, base, vs[0]), base, vs[1..], t);
    }
  }

  ghost predicate Moves(s: State, base: map<Tid, nat>, v: Event, e: State) { Inv(s, base) && Legal(s, v) && e == Step(s, base, v) }

  /** The run is legal and ends in `e`. */
  ghost predicate Arrives(s: State, base: map<Tid, nat>, vs: seq<Event>, e: State) { Inv(s, base) && LegalRun(s, base, vs) && Run(s, base, vs) == e }

  lemma ArrivesCons(s: State, base: map<Tid, nat>, v: Event, m: State, vs: seq<Event>, e: State)
    requires Moves(s, base, v, m) && Arrives(m, base, vs, e)
    ensures Arrives(s, base, [v] + vs, e)
  {
    RunCons(s, base, v, m, vs);
  }

  lemma ArrivesTail(s: State, base: map<Tid, nat>, vs: seq<Event>, e: State) returns (m: State)
    requires Arrives(s, base, vs, e) && vs != []
    ensures Moves(s, base, vs[0], m) && Arrives(m, base, vs[1..], e)
  {
    m := Step(s, base, vs[0]);
  }

  lemma ArrivesNow(s: State, base: map<Tid, nat>)
    requires Inv(s, base)
    ensures Arrives(s, base, [], s)
  {
  }

  lemma ArrivesHead(s: State, base: map<Tid, nat>, v: Event, m: State, vs: seq<Event>, e: State, all: seq<Event>)
    requires Moves(s, base, v, m) && Arrives(m, base, vs, e) && all != [] && all[0] == v && all[1..] == vs
    ensures Arrives(s, base, all, e)
  {
  }

  lemma TailOfBoth(a: seq<Event>, b: seq<Event>)
    requires a != []
    ensures (a + b)[0] == a[0] && (a + b)[1..] == a[1..] + b
  {
  }

  lemma {:induction false} RunBoth(s: State, base: map<Tid, nat>, a: seq<Event>, m: State, b: seq<Event>, e: State)
    requires Arrives(s, base, a, m) && Arrives(m, base, b, e)
    ensures Arrives(s, base, a + b, e)
    decreases |a|
  {
    if a == [] {
      assert a + b == b;
    } else {
      var x := ArrivesTail(s, base, a, m);
      RunBoth(x, base, a[1..], m, b, e);
      TailOfBoth(a, b);
      ArrivesHead(s, base, a[0], x, a[1..] + b, e, a + b);
    }
  }

  /** And with the release that makes them equal it is the owner no longer. */
  lemma HoldEnds(s: State, base: map<Tid, nat>, vs: seq<Event>, t: Tid)
    requires Inv(s, base) && LegalRun(s, base, vs) && Legal(Run(s, base, vs), ReleaseBy(t)) && Owns(s, t)
    requires Ahead(vs, t, s.hold) && s.hold + Net(vs, t) == 1
    ensures LegalRun(s, base, vs + [ReleaseBy(t)]) && !Owns(Run(s, base, vs + [ReleaseBy(t)]), t)
  {
    var m := Run(s, base, vs);
    HoldCounts(s, base, vs, t);
    OwnerStep(m, base, ReleaseBy(t), t);
    var e := Step(m, base, ReleaseBy(t));
    ArrivesNow(e, base);
    ArrivesCons(m, base, ReleaseBy(t), e, [], e);
    assert [ReleaseBy(t)] + [] == [ReleaseBy(t)];
    RunBoth(s, base, vs, m, [ReleaseBy(t)], e);
  }

  function Times(n: nat, v: Event): seq<Event> { if n == 0 then [] else [v] + Times(n - 1, v) }

  /** Thread `t` is running and owns the mutex with `h` holds; or nobody owns it. */
  ghost predicate Mine(s: State, base: map<Tid, nat>, t: Tid, h: nat) {
    && Inv(s, base) && t in s.phase && s.phase[t] == Free
    && if h > 0 then Owns(s, t) && s.hold == h else s.owner == Nobody
  }

  /** What `left` holds mean after some releases. */
  ghost predicate Left(e: State, t: Tid, left: nat) { if left > 0 then Owns(e, t) && e.hold == left else !Owns(e, t) }

  lemma GiveOne(s: State, base: map<Tid, nat>, t: Tid, h: nat) returns (e: State)
    requires h > 0 && Mine(s, base, t, h)
    ensures Moves(s, base, ReleaseBy(t), e) && Inv(e, base) && Left(e, t, h - 1) && (h > 1 ==> Mine(e, base, t, h - 1))
  {
    e := Step(s, base, ReleaseBy(t));
    OwnerStep(s, base, ReleaseBy(t), t);
    ReleaseExact(s, base, t);
  }

  lemma TakeOne(s: State, base: map<Tid, nat>, t: Tid, time: int, h: nat) returns (e: State)
    requires h < HOLD_MAX && Mine(s, base, t, h)
    ensures Moves(s, base, TakeBy(t, time), e) && Mine(e, base, t, h + 1)
  {
    e := Step(s, base, TakeBy(t, time));
    TakeMeans(s, base, t, time);
  }

  lemma {:induction false} ReleasesCount(s: State, base: map<Tid, nat>, t: Tid, h: nat, m: nat) returns (e: State)
    requires Mine(s, base, t, h) && m <= h && h > 0
    ensures Arrives(s, base, Times(m, ReleaseBy(t)), e) && Left(e, t, h - m)
    decreases m
  {
    e := s;
    if m == 0 {
      ArrivesNow(s, base);
    } else {
      var x := GiveOne(s, base, t, h);
      e := x;
      if m > 1 { e := ReleasesCount(x, base, t, h - 1, m - 1); } else { ArrivesNow(x, base); }
      ArrivesCons(s, base, ReleaseBy(t), x, Times(m - 1, ReleaseBy(t)), e);
    }
  }

  /** `n` takes and then `m` releases. */
  function Nested(n: nat, m: nat, t: Tid, time: int): seq<Event> {
    if n == 0 then Times(m, ReleaseBy(t)) else [TakeBy(t, time)] + Nested(n - 1, m, t, time)
  }

  /** A thread that takes a free mutex `n` times, or `n` more times, owns it through all but the last of as
      many releases, and no longer after that one. */
  lemma {:induction false} NestsExactly(s: State, base: map<Tid, nat>, t: Tid, time: int, h: nat, n: nat, m: nat) returns (e: State)
    requires Mine(s, base, t, h) && 0 < h + n && m <= h + n <= HOLD_MAX
    ensures Arrives(s, base, Nested(n, m, t, time), e) && Left(e, t, h + n - m)
    decreases n
  {
    if n == 0 {
      e := ReleasesCount(s, base, t, h, m);
    } else {
      var x := TakeOne(s, base, t, time, h);
      e := NestsExactly(x, base, t, time, h + 1, n - 1, m);
      ArrivesHead(s, base, TakeBy(t, time), x, Nested(n - 1, m, t, time), e, Nested(n, m, t, time));
    }
  }
}
