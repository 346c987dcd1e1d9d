/** What the timer operations do to the timers they are called on, to all others, and to the firings of
    every run that follows. */
module TimerEffects {
  import opened Seqs
  import opened TimerModel

  // ---- the queue ------------------------------------------------------------------------

  /** A queue in order is determined by its entries. */
  lemma {:induction false} SortedUnique(q: seq<Entry>, r: seq<Entry>)
    requires SortedQ(q) && SortedQ(r) && forall e :: e in q <==> e in r
    ensures q == r
    decreases |q|
  {
    if q == [] {
      NoMembers(r);
    } else {
      assert q[0] in q && q[0] in r && r[0] in r;
      if q[0] != r[0] {
        HeadFirst(q, r[0]);
        HeadFirst(r, q[0]);
      }
      TailMembers(q, r);
      TailMembers(r, q);
      SortedUnique(q[1..], r[1..]);
      assert q == [q[0]] + q[1..] && r == [r[0]] + r[1..];
    }
  }

  lemma NoMembers(r: seq<Entry>)
    requires forall e :: e !in r
    ensures r == []
  {
    if r != [] { HeadIn(r); }
  }

  lemma HeadIn(r: seq<Entry>)
    requires r != []
    ensures r[0] in r
  {
  }

  lemma HeadFirst(q: seq<Entry>, x: Entry)
    requires SortedQ(q) && x in q && x != q[0]
    ensures Precedes(q[0], x)
  {
    var i := IndexOf(q, x);
    assert Precedes(q[0], q[i]);
  }

  lemma TailMembers(q: seq<Entry>, r: seq<Entry>)
    requires SortedQ(q) && SortedQ(r) && q != [] && r != [] && q[0] == r[0] && forall e :: e in q ==> e in r
    ensures SortedQ(q[1..]) && forall e :: e in q[1..] ==> e in r[1..]
  {
    forall e | e in q[1..] ensures e in r[1..] {
      var i := IndexOf(q[1..], e);
      assert q[i + 1] == e && e in q && Precedes(q[0], e);
      var j := IndexOf(r, e);
      assert r[j] == e && j > 0;
      assert r[1..][j - 1] == e;
    }
  }

  // ---- rt_timer_stop ----------------------------------------------------------------------

  /** `t` is `s` with timer `id` taken off the queue and inactive, and nothing else different. */
  ghost predicate Stopped(s: State, t: State, id: int) {
    && NotQueued(t.q, id) && t.active == s.active - {id}
    && (forall e :: e in t.q <==> e in s.q && e.id != id) && (SortedQ(s.q) ==> SortedQ(t.q))
    && t.now == s.now && t.log == s.log && t.pending == s.pending && t.starts == s.starts
  }

  /** Stopping an active timer; stopping any other changes nothing. */
  lemma StopMeans(s: State, id: int)
    ensures var t := Act(s, Stop(id)); if id in s.active then Stopped(s, t, id) else t == s
  {
    WithoutOk(s.q, id);
  }

  /** Timer `id` is neither queued nor being started. */
  ghost predicate Off(s: State, id: int) { NotQueued(s.q, id) && id !in s.pending }

  lemma ActOff(s: State, a: Action, id: int)
    requires Off(s, id) && a.id != id
    ensures Off(Act(s, a), id) && Act(s, a).log == s.log
  {
    WithoutOk(s.q, a.id);
    if a.Start? { InsertMembers(Without(s.q, a.id), Entry(a.id, s.now, a.n, s.now, s.starts)); }
  }

  lemma {:induction false} ActsOff(s: State, actions: seq<Action>, id: int)
    requires Off(s, id) && forall k :: 0 <= k < |actions| ==> actions[k].id != id
    ensures Off(Acts(s, actions), id) && Acts(s, actions).log == s.log
    decreases |actions|
  {
    if actions != [] {
      ActOff(s, actions[0], id);
      ActsOff(Act(s, actions[0]), actions[1..], id);
    }
  }

  /** Firings from position `from` on are of other timers. */
  ghost predicate NoFiring(s: State, from: nat, id: int) { forall i :: from <= i < |s.log| ==> s.log[i].e.id != id }

  lemma FireOff(y: System, s: State, id: int)
    requires LegalSystem(y) && Draining(y, s) && s.q != [] && Due(s.q[0]) <= s.now && Off(s, id) && LeftAlone(y, [], id)
    ensures Off(Fire(y, s), id) && s.q[0].id != id
  {
    var e := s.q[0];
    assert e in s.q;
    var p := s.(q := s.q[1..], log := s.log + [Firing(e, s.now)]);
    assert forall x :: x in s.q[1..] ==> x in s.q;
    ActsOff(p, Calls(y, e.id), id);
    var t := Acts(p, Calls(y, e.id));
    ActOff(t.(active := t.active - {e.id}), Start(e.id, e.n), id);
  }

  lemma {:induction false} DrainOff(y: System, s: State, id: int, from: nat)
    requires LegalSystem(y) && Draining(y, s) && Off(s, id) && LeftAlone(y, [], id) && NoFiring(s, from, id)
    ensures Off(Drain(y, s), id) && NoFiring(Drain(y, s), from, id)
    decreases Expired(s.q, s.now)
  {
    if s.q != [] && Due(s.q[0]) <= s.now {
      FireOk(y, s);
      FireOff(y, s, id);
      DrainOff(y, Fire(y, s), id, from);
    }
  }

  lemma StepOff(y: System, s: State, v: Event, id: int, from: nat)
    requires LegalSystem(y) && Settled(y, s) && LegalEvent(y, s, v) && Off(s, id) && NoFiring(s, from, id)
    requires LeftAlone(y, [v], id)
    ensures Off(Step(y, s, v), id) && NoFiring(Step(y, s, v), from, id)
  {
    assert [v][0] == v;
    match v
    case Do(a) => ActOff(s, a, id);
    case Tick =>
      NextDrains(y, s);
      DrainOff(y, s.(now := s.now + 1), id, from);
    case Begin(other, _) => WithoutOk(s.q, other);
    case Read(_) =>
    case Finish(other) => InsertMembers(s.q, Placed(s, other));
  }

  lemma {:induction false} RunOff(y: System, s: State, events: seq<Event>, id: int, from: nat)
    requires LegalSystem(y) && Settled(y, s) && LegalRun(y, s, events) && Off(s, id) && NoFiring(s, from, id)
    requires LeftAlone(y, events, id)
    ensures Off(Run(y, s, events), id) && NoFiring(Run(y, s, events), from, id)
    decreases |events|
  {
    if events != [] {
      StepOk(y, s, events[0]);
      StepOff(y, s, events[0], id, from);
      RunOff(y, Step(y, s, events[0]), events[1..], id, from);
    }
  }

  /** A timer that has been stopped and is left alone does not fire any more, in any run. */
  lemma StoppedStays(y: System, s: State, id: int, events: seq<Event>)
    requires LegalSystem(y) && Settled(y, s) && id in s.active && LeftAlone(y, events, id)
    requires Settled(y, Step(y, s, Do(Stop(id)))) && LegalRun(y, Step(y, s, Do(Stop(id))), events)
    ensures var t := Run(y, Step(y, s, Do(Stop(id))), events);
      NotQueued(t.q, id) && forall i :: |s.log| <= i < |t.log| ==> t.log[i].e.id != id
  {
    StopMeans(s, id);
    assert id in s.pending ==> StartPending(y, s, id);
    RunOff(y, Step(y, s, Do(Stop(id))), events, id, |s.log|);
  }

  // ---- the read between the sections of a start -------------------------------------------

  /** While a start is under way nobody else changes what it has read. */
  lemma StepPending(y: System, s: State, v: Event, id: int)
    requires LegalSystem(y) && Settled(y, s) && LegalEvent(y, s, v) && id in s.pending && (v.Tick? || Target(v) != id)
    ensures id in Step(y, s, v).pending && Step(y, s, v).pending[id] == s.pending[id]
  {
    match v
    case Tick =>
      NextDrains(y, s);
      DrainOk(y, s.(now := s.now + 1));
    case _ =>
  }

  lemma {:induction false} RunPending(y: System, s: State, events: seq<Event>, id: int)
    requires LegalSystem(y) && Settled(y, s) && LegalRun(y, s, events) && id in s.pending && LeftAlone(y, events, id)
    ensures id in Run(y, s, events).pending && Run(y, s, events).pending[id] == s.pending[id]
    decreases |events|
  {
    if events != [] {
      StepOk(y, s, events[0]);
      StepPending(y, s, events[0], id);
      RunPending(y, Step(y, s, events[0]), events[1..], id);
    }
  }

  /** A start with interrupts on, from its first section to its firing, with anything in between that
      leaves the timer alone: begun in `s`, read in `r`, inserted in `f`, it fires `n` ticks after the
      tick of `r` or one after that of `f`, whichever is later. */
  lemma StartFires(y: System, s: State, id: int, n: nat, a: seq<Event>, b: seq<Event>, c: seq<Event>, r: State, f: State) returns (i: nat)
    requires LegalSystem(y) && Settled(y, s) && LegalEvent(y, s, Begin(id, n)) && LeftAlone(y, a, id) && LeftAlone(y, b, id) && LeftAlone(y, c, id)
    requires Settled(y, Step(y, s, Begin(id, n))) && LegalRun(y, Step(y, s, Begin(id, n)), a) && r == Run(y, Step(y, s, Begin(id, n)), a)
    requires LegalEvent(y, r, Read(id)) && Settled(y, Step(y, r, Read(id))) && LegalRun(y, Step(y, r, Read(id)), b) && f == Run(y, Step(y, r, Read(id)), b)
    requires LegalEvent(y, f, Finish(id)) && Settled(y, Step(y, f, Finish(id))) && LegalRun(y, Step(y, f, Finish(id)), c)
    requires Run(y, Step(y, f, Finish(id)), c).now >= (if r.now + n > f.now then r.now + n else f.now + 1)
    ensures var t := Run(y, Step(y, f, Finish(id)), c);
      i < |t.log| && t.log[i] == Firing(Entry(id, r.now, n, f.now, f.starts), if r.now + n > f.now then r.now + n else f.now + 1)
  {
    RunPending(y, Step(y, s, Begin(id, n)), a, id);
    RunPending(y, Step(y, r, Read(id)), b, id);
    assert f.pending[id] == Loaded(n, r.now);
    i := FinishFires(y, f, id, c);
  }

  // ---- a firing -----------------------------------------------------------------------------

  /** Timer `id` is active and counts `n` ticks from tick `start`. */
  ghost predicate Counting(s: State, id: int, start: nat, n: nat) {
    id in s.active && exists e :: e in s.q && e.id == id && e.start == e.placed == start && e.n == n
  }

  /** The entries of `id` and its active mark are the same. */
  ghost predicate Untouched(s: State, t: State, id: int) {
    (id in s.active <==> id in t.active) && forall e: Entry :: e.id == id ==> (e in s.q <==> e in t.q)
  }

  lemma ActOther(s: State, a: Action, id: int)
    requires a.id != id
    ensures Untouched(s, Act(s, a), id)
  {
    WithoutOk(s.q, a.id);
    if a.Start? { InsertMembers(Without(s.q, a.id), Entry(a.id, s.now, a.n, s.now, s.starts)); }
  }

  lemma {:induction false} ActsOther(s: State, actions: seq<Action>, id: int)
    requires forall k :: 0 <= k < |actions| ==> actions[k].id != id
    ensures Untouched(s, Acts(s, actions), id)
    decreases |actions|
  {
    if actions != [] {
      ActOther(s, actions[0], id);
      ActsOther(Act(s, actions[0]), actions[1..], id);
    }
  }

  /** What one operation makes of the timer it names. */
  lemma ActOwn(y: System, s: State, self: int, a: Action)
    requires Draining(y, s) && LegalCall(y, self, a) && (a.Start? ==> a.id !in s.pending)
    ensures var t := Act(s, a); if a.Start? then Counting(t, a.id, s.now, a.n) else NotQueued(t.q, a.id) && a.id !in t.active
  {
    WithoutOk(s.q, a.id);
    if a.Start? {
      var e := Entry(a.id, s.now, a.n, s.now, s.starts);
      InsertMembers(Without(s.q, a.id), e);
      assert e in Act(s, a).q;
    } else if a.id !in s.active {
      forall e | e in s.q ensures e.id != a.id { assert EntryOk(y, s, s.now, s.q[IndexOf(s.q, e)]); }
    }
  }

  /** Of the operations a timeout function performs the last one on a timer counts. */
  lemma {:induction false} ActsLast(y: System, s: State, self: int, actions: seq<Action>, k: nat)
    requires Draining(y, s) && forall j :: 0 <= j < |actions| ==> LegalCall(y, self, actions[j])
    requires forall j :: 0 <= j < |actions| && actions[j].Start? ==> actions[j].id !in s.pending
    requires k < |actions| && forall j :: k < j < |actions| ==> actions[j].id != actions[k].id
    ensures var t, a := Acts(s, actions), actions[k];
      if a.Start? then Counting(t, a.id, s.now, a.n) else NotQueued(t.q, a.id) && a.id !in t.active
    decreases |actions|
  {
    var m := Act(s, actions[0]);
    ActOk(y, s, self, actions[0]);
    if k == 0 {
      ActOwn(y, s, self, actions[0]);
      ActsOther(m, actions[1..], actions[0].id);
      if actions[0].Stop? { StillOff(m, Acts(m, actions[1..]), actions[0].id); } else { StillCounting(m, Acts(m, actions[1..]), actions[0].id, s.now, actions[0].n); }
    } else {
      ActsLast(y, m, self, actions[1..], k - 1);
    }
  }

  lemma StillOff(s: State, t: State, id: int)
    requires Untouched(s, t, id) && NotQueued(s.q, id)
    ensures NotQueued(t.q, id)
  {
  }

  lemma StillCounting(s: State, t: State, id: int, start: nat, n: nat)
    requires Untouched(s, t, id) && Counting(s, id, start, n)
    ensures Counting(t, id, start, n)
  {
    var e :| e in s.q && e.id == id && e.start == e.placed == start && e.n == n;
    assert e in t.q;
  }

  /** A timeout function can stop its own timer, and not start it. */
  lemma {:induction false} ActsSelf(y: System, s: State, self: int, actions: seq<Action>)
    requires forall k :: 0 <= k < |actions| ==> LegalCall(y, self, actions[k])
    ensures self in Acts(s, actions).active <==> self in s.active && Stop(self) !in actions
    decreases |actions|
  {
    if actions != [] {
      assert actions == [actions[0]] + actions[1..];
      ActsSelf(y, Act(s, actions[0]), self, actions[1..]);
    }
  }

  /** The first timer of the queue fires: it goes off the queue, and counts anew from this tick if it is
      periodic and was not stopped; and to every other timer happens what the last operation on it in its
      timeout function says, or nothing. */
  lemma FireMeans(y: System, s: State, id: int)
    requires LegalSystem(y) && Draining(y, s) && s.q != [] && Due(s.q[0]) <= s.now
    ensures var t, e := Fire(y, s), s.q[0]; var calls := Calls(y, e.id);
      && t.log == s.log + [Firing(e, s.now)]
      && (if e.id in y.periodic && Stop(e.id) !in calls then Counting(t, e.id, s.now, e.n) else NotQueued(t.q, e.id) && e.id !in t.active)
      && (id != e.id && (forall j :: 0 <= j < |calls| ==> calls[j].id != id) ==> Untouched(s, t, id))
  {
    FireOk(y, s);
    var e := s.q[0];
    var p := s.(q := s.q[1..], log := s.log + [Firing(e, s.now)]);
    assert EntryOk(y, s, s.now, e);
    PopOk(y, s);
    CallsOk(y, s, e.id);
    ActsOk(y, p, e.id, Calls(y, e.id));
    ActsSelf(y, p, e.id, Calls(y, e.id));
    RestartMeans(y, Acts(p, Calls(y, e.id)), e);
    if id != e.id && forall j :: 0 <= j < |Calls(y, e.id)| ==> Calls(y, e.id)[j].id != id {
      ActsOther(p, Calls(y, e.id), id);
      PopOther(s, p, id);
      RestartOther(y, Acts(p, Calls(y, e.id)), e, id);
    }
  }

  ghost function Restarted(y: System, t: State, e: Entry): State {
    if e.id in y.periodic && e.id in t.active then DoStart(t.(active := t.active - {e.id}), e.id, e.n) else t.(active := t.active - {e.id})
  }

  lemma RestartMeans(y: System, t: State, e: Entry)
    requires NotQueued(t.q, e.id)
    ensures var u := Restarted(y, t, e);
      if e.id in y.periodic && e.id in t.active then Counting(u, e.id, t.now, e.n) else NotQueued(u.q, e.id) && e.id !in u.active
  {
    var x := Entry(e.id, t.now, e.n, t.now, t.starts);
    InsertMembers(Without(t.q, e.id), x);
    if e.id in y.periodic && e.id in t.active { assert x in Restarted(y, t, e).q; }
  }

  lemma RestartOther(y: System, t: State, e: Entry, id: int)
    requires id != e.id
    ensures Untouched(t, Restarted(y, t, e), id)
  {
    WithoutOk(t.q, e.id);
    InsertMembers(Without(t.q, e.id), Entry(e.id, t.now, e.n, t.now, t.starts));
  }

  lemma PopOther(s: State, p: State, id: int)
    requires s.q != [] && p.q == s.q[1..] && p.active == s.active && id != s.q[0].id
    ensures Untouched(s, p, id)
  {
    assert s.q == [s.q[0]] + s.q[1..];
  }

  /** The last operation on timer `id` in the timeout function of the timer that fires. */
  lemma FireCalls(y: System, s: State, k: nat)
    requires LegalSystem(y) && Draining(y, s) && s.q != [] && Due(s.q[0]) <= s.now && k < |Calls(y, s.q[0].id)|
    requires var calls := Calls(y, s.q[0].id); calls[k].id != s.q[0].id && forall j :: k < j < |calls| ==> calls[j].id != calls[k].id
    ensures var t, a := Fire(y, s), Calls(y, s.q[0].id)[k];
      if a.Start? then Counting(t, a.id, s.now, a.n) else NotQueued(t.q, a.id) && a.id !in t.active
  {
    var e, a := s.q[0], Calls(y, s.q[0].id)[k];
    var p := s.(q := s.q[1..], log := s.log + [Firing(e, s.now)]);
    PopOk(y, s);
    CallsOk(y, s, e.id);
    ActsOk(y, p, e.id, Calls(y, e.id));
    ActsLast(y, p, e.id, Calls(y, e.id), k);
    var t := Acts(p, Calls(y, e.id));
    RestartOther(y, t, e, a.id);
    if a.Stop? { StillOff(t, Fire(y, s), a.id); } else { StillCounting(t, Fire(y, s), a.id, s.now, a.n); }
  }

  // ---- periodic timers ------------------------------------------------------------------------

  /** The tick of the firing number `j` behind one at `f`, every `n` ticks. */
  function Nth(f: nat, n: nat, j: nat): nat { if j == 0 then f else Nth(f, n, j - 1) + n }

  ghost predicate Awaits(s: State, id: int, n: nat, at: nat) { exists e :: e in s.q && e.id == id && e.n == n && FireTick(e) == at }

  ghost predicate FiredAt(s: State, id: int, at: nat) { exists i :: 0 <= i < |s.log| && s.log[i].e.id == id && s.log[i].at == at }

  /** Timer `id` has fired `j` times, from `f` on every `n` ticks, and is queued for the next one. */
  ghost predicate Beating(s: State, id: int, n: nat, f: nat, j: nat) {
    Awaits(s, id, n, Nth(f, n, j)) && forall i :: 0 <= i < j ==> FiredAt(s, id, Nth(f, n, i))
  }

  lemma FiredGrows(s: State, t: State, id: int, f: nat, n: nat, j: nat)
    requires s.log <= t.log && forall i :: 0 <= i < j ==> FiredAt(s, id, Nth(f, n, i))
    ensures forall i :: 0 <= i < j ==> FiredAt(t, id, Nth(f, n, i))
  {
    forall i | 0 <= i < j ensures FiredAt(t, id, Nth(f, n, i)) {
      assert FiredAt(s, id, Nth(f, n, i));
      var l :| 0 <= l < |s.log| && s.log[l].e.id == id && s.log[l].at == Nth(f, n, i);
      assert t.log[l] == s.log[l];
    }
  }

  lemma AwaitsSame(s: State, t: State, id: int, n: nat, at: nat)
    requires Awaits(s, id, n, at) && forall e: Entry :: e.id == id ==> (e in s.q <==> e in t.q)
    ensures Awaits(t, id, n, at)
  {
    var e :| e in s.q && e.id == id && e.n == n && FireTick(e) == at;
    assert e in t.q;
  }

  lemma FireBeats(y: System, s: State, id: int, n: nat, f: nat, j: nat) returns (j': nat)
    requires LegalSystem(y) && Draining(y, s) && s.q != [] && Due(s.q[0]) <= s.now
    requires id in y.periodic && n > 0 && LeftAlone(y, [], id) && Beating(s, id, n, f, j)
    ensures Beating(Fire(y, s), id, n, f, j')
  {
    var at := Nth(f, n, j);
    FireOk(y, s);
    FiredGrows(s, Fire(y, s), id, f, n, j);
    j' := j;
    if s.q[0].id == id {
      OwnBeat(y, s, id, n, at);
      j' := j + 1;
    } else {
      OtherBeat(y, s, id, n, at);
    }
  }

  lemma OtherBeat(y: System, s: State, id: int, n: nat, at: nat)
    requires LegalSystem(y) && Draining(y, s) && s.q != [] && Due(s.q[0]) <= s.now && s.q[0].id != id && LeftAlone(y, [], id)
    requires Awaits(s, id, n, at)
    ensures Awaits(Fire(y, s), id, n, at)
  {
    FireMeans(y, s, id);
    AwaitsSame(s, Fire(y, s), id, n, at);
  }

  lemma OneEntry(q: seq<Entry>, e: Entry)
    requires DistinctIds(q) && e in q && q[0].id == e.id
    ensures e == q[0]
  {
    var i := IndexOf(q, e);
    assert q[i].id == q[0].id;
  }

  lemma OwnBeat(y: System, s: State, id: int, n: nat, at: nat)
    requires LegalSystem(y) && Draining(y, s) && s.q != [] && Due(s.q[0]) <= s.now && s.q[0].id == id && Awaits(s, id, n, at)
    requires n > 0 && id in y.periodic && LeftAlone(y, [], id)
    ensures FiredAt(Fire(y, s), id, at) && Awaits(Fire(y, s), id, n, at + n)
  {
    FireMeans(y, s, id);
    var t := Fire(y, s);
    var e :| e in s.q && e.id == id && e.n == n && FireTick(e) == at;
    OneEntry(s.q, e);
    PopOk(y, s);
    assert t.log[|s.log|] == Firing(e, s.now);
    var x :| x in t.q && x.id == id && x.start == x.placed == s.now && x.n == n;
    assert FireTick(x) == at + n;
  }

  lemma {:induction false} DrainBeats(y: System, s: State, id: int, n: nat, f: nat, j: nat) returns (j': nat)
    requires LegalSystem(y) && Draining(y, s) && id in y.periodic && n > 0 && LeftAlone(y, [], id) && Beating(s, id, n, f, j)
    ensures Beating(Drain(y, s), id, n, f, j')
    decreases Expired(s.q, s.now)
  {
    j' := j;
    if s.q != [] && Due(s.q[0]) <= s.now {
      FireOk(y, s);
      j' := FireBeats(y, s, id, n, f, j);
      j' := DrainBeats(y, Fire(y, s), id, n, f, j');
    }
  }

  lemma StepBeats(y: System, s: State, v: Event, id: int, n: nat, f: nat, j: nat) returns (j': nat)
    requires LegalSystem(y) && Settled(y, s) && LegalEvent(y, s, v) && LeftAlone(y, [v], id)
    requires id in y.periodic && n > 0 && Beating(s, id, n, f, j)
    ensures Beating(Step(y, s, v), id, n, f, j')
  {
    assert [v][0] == v;
    j' := j;
    StepOk(y, s, v);
    FiredGrows(s, Step(y, s, v), id, f, n, j);
    match v
    case Tick =>
      NextDrains(y, s);
      var m := s.(now := s.now + 1);
      AwaitsSame(s, m, id, n, Nth(f, n, j));
      FiredGrows(s, m, id, f, n, j);
      j' := DrainBeats(y, m, id, n, f, j);
    case Do(a) =>
      ActOther(s, a, id);
      AwaitsSame(s, Step(y, s, v), id, n, Nth(f, n, j));
    case Begin(other, _) =>
      WithoutOk(s.q, other);
      AwaitsSame(s, Step(y, s, v), id, n, Nth(f, n, j));
    case Read(_) => AwaitsSame(s, Step(y, s, v), id, n, Nth(f, n, j));
    case Finish(other) =>
      InsertMembers(s.q, Placed(s, other));
      AwaitsSame(s, Step(y, s, v), id, n, Nth(f, n, j));
  }

  lemma {:induction false} RunBeats(y: System, s: State, events: seq<Event>, id: int, n: nat, f: nat, j: nat) returns (j': nat)
    requires LegalSystem(y) && Settled(y, s) && LegalRun(y, s, events) && LeftAlone(y, events, id)
    requires id in y.periodic && n > 0 && Beating(s, id, n, f, j)
    ensures Beating(Run(y, s, events), id, n, f, j')
    decreases |events|
  {
    j' := j;
    if events != [] {
      StepOk(y, s, events[0]);
      j' := StepBeats(y, s, events[0], id, n, f, j);
      j' := RunBeats(y, Step(y, s, events[0]), events[1..], id, n, f, j');
    }
  }

  lemma {:induction false} NthGrows(f: nat, n: nat, i: nat, j: nat)
    requires i <= j
    ensures Nth(f, n, i) <= Nth(f, n, j)
    decreases j
  {
    if i < j { NthGrows(f, n, i, j - 1); }
  }

  /** A periodic timer that is left alone fires every `n` ticks, at exactly those ticks, for as long as
      the run lasts. */
  lemma PeriodicFires(y: System, s: State, events: seq<Event>, e: Entry, k: nat)
    requires LegalSystem(y) && Settled(y, s) && LegalRun(y, s, events) && LeftAlone(y, events, e.id)
    requires e in s.q && e.id in y.periodic && Run(y, s, events).now >= Nth(FireTick(e), e.n, k)
    ensures FiredAt(Run(y, s, events), e.id, Nth(FireTick(e), e.n, k))
  {
    assert EntryOk(y, s, s.now + 1, s.q[IndexOf(s.q, e)]);
    var f := FireTick(e);
    assert Awaits(s, e.id, e.n, Nth(f, e.n, 0));
    var j := RunBeats(y, s, events, e.id, e.n, f, 0);
    var t := Run(y, s, events);
    var x :| x in t.q && x.id == e.id && x.n == e.n && FireTick(x) == Nth(f, e.n, j);
    NotOverdue(y, t, x);
    if j <= k { NthGrows(f, e.n, j, k); }
  }
}
