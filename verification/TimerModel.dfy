/** What the kernel timers (timer.c) mean: a queue of pending expiries in firing order, on a clock
    that never wraps.  The skip list on 32-bit ticks in `SkipList` is proved to implement it. */
module TimerModel {
  import opened Seqs

  const HALF: nat := 0x7fff_ffff   // RT_TICK_MAX / 2

  /** One start of timer `id` for `n` ticks, counted from tick `start`, that reached the queue at tick
      `placed`; `order` numbers the insertions. */
  datatype Entry = Entry(id: int, start: nat, n: nat, placed: nat, order: nat)

  function Due(e: Entry): nat { e.start + e.n }

  /** The tick whose timer check is the first one to find the entry queued and expired. */
  function FireTick(e: Entry): nat { if Due(e) > e.placed then Due(e) else e.placed + 1 }

  /** The tick the start asked for: the `n`-th one after it, and the next one for `n == 0`. */
  function Asked(e: Entry): nat { e.start + if e.n == 0 then 1 else e.n }

  /** The start reached the queue before the tick it asked for. */
  predicate Prompt(e: Entry) { e.placed < Asked(e) }

  /** Queue order: by deadline, equal deadlines in the order they were inserted. */
  predicate Precedes(a: Entry, b: Entry) {
    Due(a) < Due(b) || (Due(a) == Due(b) && a.order < b.order)
  }

  /** Firing order: by tick, and in queue order within a tick. */
  predicate Before(a: Entry, b: Entry) { FireTick(a) < FireTick(b) || (FireTick(a) == FireTick(b) && Precedes(a, b)) }

  datatype Action = Start(id: int, n: nat) | Stop(id: int)

  datatype Firing = Firing(e: Entry, at: nat)

  /** A start between its two disabled sections: before and after it has read the tick counter. */
  datatype Pending = Begun(n: nat) | Loaded(n: nat, start: nat)

  /** `active` holds the timers whose RT_TIMER_FLAG_ACTIVATED is set. */
  datatype State = State(now: nat, q: seq<Entry>, active: set<int>, log: seq<Firing>, starts: nat, pending: map<int, Pending>)

  /** The timers of a system: which are periodic, what each timeout function does to timers, and by how
      many ticks an interrupted start may miss its deadline. */
  datatype System = System(periodic: set<int>, calls: map<int, seq<Action>>, late: nat)

  /** The longest time and the latest start together stay within half the tick range. */
  predicate LegalStart(y: System, id: int, n: nat) { n + y.late < HALF && (id in y.periodic ==> n > 0) }

  /** A timeout function starts other timers only, for at least one tick. */
  predicate LegalCall(y: System, self: int, a: Action) {
    a.Start? ==> a.id != self && 0 < a.n && LegalStart(y, a.id, a.n)
  }

  predicate LegalSystem(y: System) {
    y.late + 1 < HALF && forall id :: id in y.calls ==> forall k :: 0 <= k < |y.calls[id]| ==> LegalCall(y, id, y.calls[id][k])
  }

  /** No timeout function starts `id`. */
  predicate ThreadsOnly(y: System, id: int) {
    forall c :: c in y.calls ==> forall k :: 0 <= k < |y.calls[c]| ==> y.calls[c][k].Start? ==> y.calls[c][k].id != id
  }

  // ---- operations ------------------------------------------------------------------------

  function Without(q: seq<Entry>, id: int): seq<Entry> {
    if q == [] then [] else if q[0].id == id then Without(q[1..], id) else [q[0]] + Without(q[1..], id)
  }

  /** Insertion behind every entry that is due no later. */
  function Insert(q: seq<Entry>, e: Entry): seq<Entry> {
    if q == [] || Due(q[0]) > Due(e) then [e] + q else [q[0]] + Insert(q[1..], e)
  }

  /** rt_timer_start as one step, where the caller holds interrupts off. */
  function DoStart(s: State, id: int, n: nat): State {
    s.(q := Insert(Without(s.q, id), Entry(id, s.now, n, s.now, s.starts)), active := s.active + {id}, starts := s.starts + 1)
  }

  /** Its first section: take the timer off the queue. */
  function DoBegin(s: State, id: int, n: nat): State {
    s.(q := Without(s.q, id), active := s.active - {id}, pending := s.pending[id := Begun(n)])
  }

  /** Reading the tick counter, with interrupts on. */
  function DoRead(s: State, id: int): State
    requires id in s.pending
  {
    s.(pending := s.pending[id := Loaded(s.pending[id].n, s.now)])
  }

  function Placed(s: State, id: int): Entry
    requires id in s.pending && s.pending[id].Loaded?
  {
    Entry(id, s.pending[id].start, s.pending[id].n, s.now, s.starts)
  }

  /** Its second section: insert. */
  function DoFinish(s: State, id: int): State
    requires id in s.pending && s.pending[id].Loaded?
  {
    s.(q := Insert(s.q, Placed(s, id)), active := s.active + {id}, starts := s.starts + 1, pending := s.pending - {id})
  }

  /** Uninterrupted, the three are the one step. */
  lemma Uninterrupted(s: State, id: int, n: nat)
    requires id !in s.pending
    ensures DoFinish(DoRead(DoBegin(s, id, n), id), id) == DoStart(s, id, n)
  {
    var r := DoRead(DoBegin(s, id, n), id);
    assert r.pending - {id} == s.pending && s.active - {id} + {id} == s.active + {id};
  }

  function DoStop(s: State, id: int): State {
    if id in s.active then s.(q := Without(s.q, id), active := s.active - {id}) else s
  }

  function Act(s: State, a: Action): State {
    match a
    case Start(id, n) => DoStart(s, id, n)
    case Stop(id) => DoStop(s, id)
  }

  function Acts(s: State, actions: seq<Action>): State
    decreases |actions|
  {
    if actions == [] then s else Acts(Act(s, actions[0]), actions[1..])
  }

  function Calls(y: System, id: int): seq<Action> { if id in y.calls then y.calls[id] else [] }

  /** Take the first entry off the queue, run its timeout function, restart it if periodic. */
  function Fire(y: System, s: State): State
    requires s.q != []
  {
    var e := s.q[0];
    var t := Acts(s.(q := s.q[1..], log := s.log + [Firing(e, s.now)]), Calls(y, e.id));
    if e.id in y.periodic && e.id in t.active then DoStart(t.(active := t.active - {e.id}), e.id, e.n)
    else t.(active := t.active - {e.id})
  }

  // ---- invariants ------------------------------------------------------------------------

  ghost predicate SortedQ(q: seq<Entry>) {
    forall i, j :: 0 <= i < j < |q| ==> Precedes(q[i], q[j])
  }

  ghost predicate NotQueued(q: seq<Entry>, id: int) {
    forall e :: e in q ==> e.id != id
  }

  ghost predicate DistinctIds(q: seq<Entry>) {
    forall i, j :: 0 <= i < j < |q| ==> q[i].id != q[j].id
  }

  /** What holds of each queued entry, while no entry may fire before tick `first`. */
  predicate EntryOk(y: System, s: State, first: nat, e: Entry) {
    && e.start <= e.placed <= s.now && e.order < s.starts && LegalStart(y, e.id, e.n)
    && FireTick(e) >= first && first <= Due(e) + y.late + 1
    && e.id in s.active && e.id !in s.pending
  }

  predicate StartPending(y: System, s: State, id: int)
    requires id in s.pending
  {
    && LegalStart(y, id, s.pending[id].n) && ThreadsOnly(y, id) && id !in s.active
    && (s.pending[id].Loaded? ==> s.pending[id].start <= s.now)
  }

  /** What a firing has in common with every later one. */
  predicate FiredBefore(f: Firing, e: Entry) { Before(f.e, e) && (Prompt(e) ==> Precedes(f.e, e)) }

  predicate FiredOk(s: State, f: Firing) { f.at == FireTick(f.e) <= s.now && f.e.start <= f.e.placed && f.e.order < s.starts }

  /** Every firing so far came exactly when it should, and in firing order. */
  ghost predicate LogOk(s: State) {
    && (forall i :: 0 <= i < |s.log| ==> FiredOk(s, s.log[i]))
    && (forall i, j :: 0 <= i < j < |s.log| ==> FiredBefore(s.log[i], s.log[j].e))
    && (forall i, j :: 0 <= i < |s.log| && 0 <= j < |s.q| ==> FiredBefore(s.log[i], s.q[j]))
  }

  ghost predicate Inv(y: System, s: State, first: nat) {
    && SortedQ(s.q) && DistinctIds(s.q)
    && (forall i :: 0 <= i < |s.q| ==> EntryOk(y, s, first, s.q[i]))
    && (forall id :: id in s.pending ==> StartPending(y, s, id))
    && LogOk(s)
  }

  // ---- the queue edits keep the order ------------------------------------------------------

  function Place(q: seq<Entry>, e: Entry): (p: nat)
    ensures p <= |q|
    ensures forall i :: 0 <= i < p ==> Due(q[i]) <= Due(e)
    ensures p < |q| ==> Due(q[p]) > Due(e)
    ensures Insert(q, e) == InsertAt(q, p, e)
  {
    if q == [] || Due(q[0]) > Due(e) then 0 else
      var p := Place(q[1..], e);
      InsertBehind(q, p, e);
      1 + p
  }

  lemma InsertBehind(q: seq<Entry>, p: nat, e: Entry)
    requires q != [] && p <= |q[1..]|
    ensures InsertAt(q, 1 + p, e) == [q[0]] + InsertAt(q[1..], p, e)
  {
    assert q[..1 + p] == [q[0]] + q[1..][..p] && q[1..][p..] == q[1 + p..];
  }

  lemma InsertSorted(q: seq<Entry>, e: Entry)
    requires SortedQ(q) && DistinctIds(q)
    requires forall i :: 0 <= i < |q| ==> q[i].order < e.order && q[i].id != e.id
    ensures SortedQ(Insert(q, e)) && DistinctIds(Insert(q, e))
  {
    InsertedSorted(q, e, Place(q, e), Insert(q, e));
  }

  lemma InsertedSorted(q: seq<Entry>, e: Entry, p: nat, r: seq<Entry>)
    requires SortedQ(q) && DistinctIds(q) && p <= |q| && r == InsertAt(q, p, e)
    requires (forall i :: 0 <= i < p ==> Due(q[i]) <= Due(e)) && (p < |q| ==> Due(q[p]) > Due(e))
    requires forall i :: 0 <= i < |q| ==> q[i].order < e.order && q[i].id != e.id
    ensures SortedQ(r) && DistinctIds(r)
  {
    forall i, j | 0 <= i < j < |r| ensures Precedes(r[i], r[j]) && r[i].id != r[j].id {
      var i', j' := if i < p then i else i - 1, if j < p then j else j - 1;
      if i != p && j != p {
        assert r[i] == q[i'] && r[j] == q[j'];
      } else if i == p && p < j' {
        assert Precedes(q[p], q[j']);
      }
    }
  }

  lemma InsertMembers(q: seq<Entry>, e: Entry)
    ensures forall x :: x in Insert(q, e) <==> x in q || x == e
  {
    var p := Place(q, e);
    var r := Insert(q, e);
    assert r == q[..p] + [e] + q[p..];
    assert q == q[..p] + q[p..];
  }

  lemma {:induction false} WithoutOk(q: seq<Entry>, id: int)
    ensures forall x :: x in Without(q, id) <==> x in q && x.id != id
    ensures SortedQ(q) ==> SortedQ(Without(q, id))
    ensures DistinctIds(q) ==> DistinctIds(Without(q, id))
  {
    if q != [] {
      var t := Without(q[1..], id);
      WithoutOk(q[1..], id);
      assert SortedQ(q) ==> SortedQ(q[1..]);
      assert DistinctIds(q) ==> DistinctIds(q[1..]);
      var r := Without(q, id);
      if q[0].id != id {
        forall i, j | 0 <= i < j < |r| && SortedQ(q) ensures Precedes(r[i], r[j]) {
          assert r[j] in t && r[j] in q[1..];
        }
        forall i, j | 0 <= i < j < |r| && DistinctIds(q) ensures r[i].id != r[j].id {
          assert r[j] in t && r[j] in q[1..];
        }
      }
    }
  }

  /** The invariant in terms of membership. */
  lemma InvOf(y: System, s: State, first: nat)
    requires SortedQ(s.q) && DistinctIds(s.q)
    requires forall e :: e in s.q ==> EntryOk(y, s, first, e)
    requires forall id :: id in s.pending ==> StartPending(y, s, id)
    requires forall i :: 0 <= i < |s.log| ==> FiredOk(s, s.log[i])
    requires forall i, j :: 0 <= i < j < |s.log| ==> FiredBefore(s.log[i], s.log[j].e)
    requires forall i, e :: 0 <= i < |s.log| && e in s.q ==> FiredBefore(s.log[i], e)
    ensures Inv(y, s, first)
  {
    forall i, j | 0 <= i < |s.log| && 0 <= j < |s.q| ensures FiredBefore(s.log[i], s.q[j]) {
      assert s.q[j] in s.q;
    }
  }

  /** Every logged firing comes before anything inserted now. */
  lemma NewIsLast(s: State, e: Entry, f: Firing)
    requires FiredOk(s, f) && e.start <= e.placed == s.now && e.order == s.starts
    ensures FiredBefore(f, e)
  {
  }

  /** Insertion of an entry whose timer is in no queue. */
  lemma PlaceOk(y: System, s: State, first: nat, e: Entry, t: State)
    requires Inv(y, s, first) && NotQueued(s.q, e.id)
    requires t == s.(q := Insert(s.q, e), active := s.active + {e.id}, starts := s.starts + 1, pending := s.pending - {e.id})
    requires EntryOk(y, t, first, e) && e.placed == s.now && e.order == s.starts
    ensures Inv(y, t, first)
  {
    forall i | 0 <= i < |s.q| ensures s.q[i].order < e.order && s.q[i].id != e.id {
      assert s.q[i] in s.q && EntryOk(y, s, first, s.q[i]);
    }
    InsertSorted(s.q, e);
    InsertMembers(s.q, e);
    forall x | x in t.q ensures EntryOk(y, t, first, x) {
      if x != e { assert EntryOk(y, s, first, s.q[IndexOf(s.q, x)]); }
    }
    forall id | id in t.pending ensures StartPending(y, t, id) { assert StartPending(y, s, id); }
    forall i | 0 <= i < |t.log| ensures FiredOk(t, t.log[i]) { assert FiredOk(s, s.log[i]); }
    forall i, x | 0 <= i < |t.log| && x in t.q ensures FiredBefore(t.log[i], x) {
      if x == e { NewIsLast(s, e, s.log[i]); } else { assert FiredBefore(s.log[i], s.q[IndexOf(s.q, x)]); }
    }
    InvOf(y, t, first);
  }

  /** Taking a timer off the queue. */
  lemma TakeOffOk(y: System, s: State, id: int, first: nat)
    requires Inv(y, s, first)
    ensures var t := s.(q := Without(s.q, id), active := s.active - {id}); Inv(y, t, first) && NotQueued(t.q, id)
  {
    var t := s.(q := Without(s.q, id), active := s.active - {id});
    WithoutOk(s.q, id);
    forall x | x in t.q ensures EntryOk(y, t, first, x) { assert EntryOk(y, s, first, s.q[IndexOf(s.q, x)]); }
    forall p | p in t.pending ensures StartPending(y, t, p) { assert StartPending(y, s, p); }
    forall i | 0 <= i < |t.log| ensures FiredOk(t, t.log[i]) { assert FiredOk(s, s.log[i]); }
    forall i, x | 0 <= i < |t.log| && x in t.q ensures FiredBefore(t.log[i], x) { assert FiredBefore(s.log[i], s.q[IndexOf(s.q, x)]); }
    InvOf(y, t, first);
  }

  lemma StartOk(y: System, s: State, id: int, n: nat, first: nat)
    requires Inv(y, s, first) && LegalStart(y, id, n) && first <= s.now + 1 && id !in s.pending
    ensures Inv(y, DoStart(s, id, n), first)
  {
    TakeOffOk(y, s, id, first);
    var w := s.(q := Without(s.q, id), active := s.active - {id});
    assert s.active - {id} + {id} == s.active + {id} && s.pending - {id} == s.pending;
    PlaceOk(y, w, first, Entry(id, s.now, n, s.now, s.starts), DoStart(s, id, n));
  }

  lemma StopOk(y: System, s: State, id: int, first: nat)
    requires Inv(y, s, first)
    ensures Inv(y, DoStop(s, id), first)
  {
    if id in s.active { TakeOffOk(y, s, id, first); }
  }

  lemma BeginOk(y: System, s: State, id: int, n: nat, first: nat)
    requires Inv(y, s, first) && LegalStart(y, id, n) && ThreadsOnly(y, id) && id !in s.pending
    ensures Inv(y, DoBegin(s, id, n), first)
  {
    TakeOffOk(y, s, id, first);
    PendOk(y, s.(q := Without(s.q, id), active := s.active - {id}), id, Begun(n), first);
  }

  lemma ReadOk(y: System, s: State, id: int, first: nat)
    requires Inv(y, s, first) && id in s.pending
    ensures Inv(y, DoRead(s, id), first)
  {
    assert StartPending(y, s, id);
    forall e | e in s.q ensures e.id != id { assert EntryOk(y, s, first, s.q[IndexOf(s.q, e)]); }
    PendOk(y, s, id, Loaded(s.pending[id].n, s.now), first);
  }

  lemma PendOk(y: System, s: State, id: int, p: Pending, first: nat)
    requires Inv(y, s, first) && NotQueued(s.q, id) && id !in s.active
    requires LegalStart(y, id, p.n) && ThreadsOnly(y, id) && (p.Loaded? ==> p.start <= s.now)
    ensures Inv(y, s.(pending := s.pending[id := p]), first)
  {
    var t := s.(pending := s.pending[id := p]);
    forall x | x in t.q ensures EntryOk(y, t, first, x) { assert EntryOk(y, s, first, s.q[IndexOf(s.q, x)]); }
    forall q | q in t.pending ensures StartPending(y, t, q) { if q != id { assert StartPending(y, s, q); } }
    forall i | 0 <= i < |t.log| ensures FiredOk(t, t.log[i]) { assert FiredOk(s, s.log[i]); }
    forall i, x | 0 <= i < |t.log| && x in t.q ensures FiredBefore(t.log[i], x) { assert FiredBefore(s.log[i], s.q[IndexOf(s.q, x)]); }
    InvOf(y, t, first);
  }

  lemma FinishStartOk(y: System, s: State, id: int)
    requires Inv(y, s, s.now + 1) && id in s.pending && s.pending[id].Loaded?
    requires s.now <= s.pending[id].start + s.pending[id].n + y.late
    ensures Inv(y, DoFinish(s, id), s.now + 1)
  {
    assert StartPending(y, s, id);
    forall e | e in s.q ensures e.id != id { assert EntryOk(y, s, s.now + 1, s.q[IndexOf(s.q, e)]); }
    PlaceOk(y, s, s.now + 1, Placed(s, id), DoFinish(s, id));
  }

  // ---- the timer check -----------------------------------------------------------------------

  /** Entries the check at tick `now` finds expired. */
  function Expired(q: seq<Entry>, now: nat): nat {
    if q == [] then 0 else (if Due(q[0]) <= now then 1 else 0) + Expired(q[1..], now)
  }

  lemma {:induction false} ExpiredInsert(q: seq<Entry>, e: Entry, now: nat)
    requires Due(e) > now
    ensures Expired(Insert(q, e), now) == Expired(q, now)
  {
    if q == [] || Due(q[0]) > Due(e) {
      assert ([e] + q)[1..] == q;
    } else {
      ExpiredInsert(q[1..], e, now);
      assert Insert(q, e)[1..] == Insert(q[1..], e);
    }
  }

  lemma {:induction false} ExpiredWithout(q: seq<Entry>, id: int, now: nat)
    ensures Expired(Without(q, id), now) <= Expired(q, now)
  {
    if q != [] {
      ExpiredWithout(q[1..], id, now);
      if q[0].id != id {
        assert Without(q, id)[1..] == Without(q[1..], id);
      }
    }
  }

  /** While the check at tick `now` drains the queue: nothing is overdue, and what is due was there
      before this tick. */
  ghost predicate Draining(y: System, s: State) {
    Inv(y, s, s.now) && forall e :: e in s.q && Due(e) <= s.now ==> e.placed < s.now
  }

  lemma ActOk(y: System, s: State, self: int, a: Action)
    requires Draining(y, s) && LegalCall(y, self, a) && (a.Start? ==> a.id !in s.pending)
    ensures Draining(y, Act(s, a)) && Act(s, a).now == s.now && Act(s, a).log == s.log && Act(s, a).pending == s.pending
    ensures Expired(Act(s, a).q, s.now) <= Expired(s.q, s.now)
    ensures NotQueued(s.q, self) ==> NotQueued(Act(s, a).q, self)
  {
    match a
    case Start(id, n) =>
      StartOk(y, s, id, n, s.now);
      var w, e := Without(s.q, id), Entry(id, s.now, n, s.now, s.starts);
      WithoutOk(s.q, id);
      InsertMembers(w, e);
      ExpiredWithout(s.q, id, s.now);
      ExpiredInsert(w, e, s.now);
    case Stop(id) =>
      StopOk(y, s, id, s.now);
      WithoutOk(s.q, id);
      ExpiredWithout(s.q, id, s.now);
  }

  lemma {:induction false} ActsOk(y: System, s: State, self: int, actions: seq<Action>)
    requires Draining(y, s) && forall k :: 0 <= k < |actions| ==> LegalCall(y, self, actions[k])
    requires forall k :: 0 <= k < |actions| && actions[k].Start? ==> actions[k].id !in s.pending
    ensures Draining(y, Acts(s, actions)) && Acts(s, actions).now == s.now && Acts(s, actions).log == s.log && Acts(s, actions).pending == s.pending
    ensures Expired(Acts(s, actions).q, s.now) <= Expired(s.q, s.now)
    ensures NotQueued(s.q, self) ==> NotQueued(Acts(s, actions).q, self)
    decreases |actions|
  {
    if actions != [] {
      ActOk(y, s, self, actions[0]);
      ActsOk(y, Act(s, actions[0]), self, actions[1..]);
    }
  }

  /** Popping an expired entry: it fires in exactly the tick it was meant for. */
  lemma PopOk(y: System, s: State)
    requires Draining(y, s) && s.q != [] && Due(s.q[0]) <= s.now
    ensures s.now == FireTick(s.q[0]) && NotQueued(s.q[1..], s.q[0].id)
    ensures Draining(y, s.(q := s.q[1..], log := s.log + [Firing(s.q[0], s.now)]))
  {
    var e := s.q[0];
    var t := s.(q := s.q[1..], log := s.log + [Firing(e, s.now)]);
    assert e in s.q && EntryOk(y, s, s.now, e);
    forall x | x in t.q ensures x in s.q && Precedes(e, x) && EntryOk(y, t, s.now, x) {
      var i := IndexOf(t.q, x);
      assert x == s.q[i + 1];
    }
    forall p | p in t.pending ensures StartPending(y, t, p) { assert StartPending(y, s, p); }
    forall i | 0 <= i < |t.log| ensures FiredOk(t, t.log[i]) { if i < |s.log| { assert FiredOk(s, s.log[i]); } }
    forall i, x | 0 <= i < |t.log| && x in t.q ensures FiredBefore(t.log[i], x) {
      var j := IndexOf(t.q, x);
      if i < |s.log| { assert FiredBefore(s.log[i], s.q[j + 1]); } else { PoppedBefore(s, x); }
    }
    forall i, j | 0 <= i < j < |t.q| ensures Precedes(t.q[i], t.q[j]) && t.q[i].id != t.q[j].id {
      assert t.q[i] == s.q[i + 1] && t.q[j] == s.q[j + 1];
    }
    forall i, j | 0 <= i < j < |t.log| ensures FiredBefore(t.log[i], t.log[j].e) {
      if j == |s.log| { assert FiredBefore(s.log[i], s.q[0]); } else { assert FiredBefore(s.log[i], s.log[j].e); }
    }
    InvOf(y, t, s.now);
  }

  lemma PoppedBefore(s: State, x: Entry)
    requires s.q != [] && Precedes(s.q[0], x) && FireTick(s.q[0]) == s.now <= FireTick(x)
    ensures FiredBefore(Firing(s.q[0], s.now), x)
  {
  }

  /** Dropping the active mark of a timer that is not queued, and restarting it if it stays. */
  lemma FinishOk(y: System, s: State, id: int, n: nat, again: bool)
    requires Draining(y, s) && NotQueued(s.q, id) && id !in s.pending && (again ==> 0 < n && LegalStart(y, id, n))
    ensures var t := s.(active := s.active - {id});
            var u := if again then DoStart(t, id, n) else t;
      && Draining(y, u) && u.now == s.now && u.log == s.log && u.pending == s.pending
      && Expired(u.q, s.now) == Expired(s.q, s.now)
  {
    var t := s.(active := s.active - {id});
    WithoutAbsent(s.q, id);
    TakeOffOk(y, s, id, s.now);
    if again {
      StartOk(y, t, id, n, s.now);
      var e := Entry(id, s.now, n, s.now, s.starts);
      InsertMembers(t.q, e);
      ExpiredInsert(t.q, e, s.now);
    }
  }

  lemma {:induction false} WithoutAbsent(q: seq<Entry>, id: int)
    requires NotQueued(q, id)
    ensures Without(q, id) == q
  {
    if q != [] {
      assert q[0] in q;
      assert forall e :: e in q[1..] ==> e in q;
      WithoutAbsent(q[1..], id);
    }
  }

  lemma CallsOk(y: System, s: State, id: int)
    requires LegalSystem(y) && forall p :: p in s.pending ==> StartPending(y, s, p)
    ensures forall k :: 0 <= k < |Calls(y, id)| ==> LegalCall(y, id, Calls(y, id)[k])
    ensures forall k :: 0 <= k < |Calls(y, id)| && Calls(y, id)[k].Start? ==> Calls(y, id)[k].id !in s.pending
  {
    forall k, p | 0 <= k < |Calls(y, id)| && Calls(y, id)[k].Start? && p in s.pending ensures Calls(y, id)[k].id != p {
      assert StartPending(y, s, p);
    }
  }

  lemma FireOk(y: System, s: State)
    requires LegalSystem(y) && Draining(y, s) && s.q != [] && Due(s.q[0]) <= s.now
    ensures Draining(y, Fire(y, s)) && Fire(y, s).now == s.now
    ensures Fire(y, s).log == s.log + [Firing(s.q[0], s.now)] && Fire(y, s).pending == s.pending
    ensures Expired(Fire(y, s).q, s.now) < Expired(s.q, s.now)
  {
    var e := s.q[0];
    assert EntryOk(y, s, s.now, e);
    PopOk(y, s);
    var p := s.(q := s.q[1..], log := s.log + [Firing(e, s.now)]);
    CallsOk(y, s, e.id);
    ActsOk(y, p, e.id, Calls(y, e.id));
    var t := Acts(p, Calls(y, e.id));
    FinishOk(y, t, e.id, e.n, e.id in y.periodic && e.id in t.active);
  }

  /** The draining loop of rt_timer_check. */
  function Drain(y: System, s: State): State
    requires LegalSystem(y) && Draining(y, s)
    decreases Expired(s.q, s.now)
  {
    if s.q == [] || Due(s.q[0]) > s.now then s else FireOk(y, s); Drain(y, Fire(y, s))
  }

  /** Between checks nothing that should have fired by `now` is still queued. */
  ghost predicate Settled(y: System, s: State) { Inv(y, s, s.now + 1) }

  lemma {:induction false} DrainOk(y: System, s: State)
    requires LegalSystem(y) && Draining(y, s)
    ensures Settled(y, Drain(y, s)) && Drain(y, s).now == s.now && Drain(y, s).pending == s.pending
    ensures s.log <= Drain(y, s).log
    ensures forall i :: |s.log| <= i < |Drain(y, s).log| ==> Drain(y, s).log[i].at == s.now
    decreases Expired(s.q, s.now)
  {
    if s.q == [] || Due(s.q[0]) > s.now {
      forall x | x in s.q ensures EntryOk(y, s, s.now + 1, x) {
        var i := IndexOf(s.q, x);
        assert EntryOk(y, s, s.now, s.q[i]);
        assert i > 0 ==> Precedes(s.q[0], s.q[i]);
      }
      forall i, x | 0 <= i < |s.log| && x in s.q ensures FiredBefore(s.log[i], x) { assert FiredBefore(s.log[i], s.q[IndexOf(s.q, x)]); }
      InvOf(y, s, s.now + 1);
    } else {
      FireOk(y, s);
      DrainOk(y, Fire(y, s));
    }
  }

  // ---- runs ------------------------------------------------------------------------------------

  /** One disabled section each, or one read of the tick counter. */
  datatype Event = Do(a: Action) | Tick | Begin(id: int, n: nat) | Read(id: int) | Finish(id: int)

  /** Nobody else starts a timer that is being started, and an interrupted start comes to its end within
      `late` ticks of its deadline. */
  predicate LegalEvent(y: System, s: State, v: Event) {
    match v
    case Do(Start(id, n)) => LegalStart(y, id, n) && id !in s.pending
    case Do(Stop(id)) => true
    case Tick => true
    case Begin(id, n) => LegalStart(y, id, n) && id !in s.pending && ThreadsOnly(y, id)
    case Read(id) => id in s.pending && s.pending[id].Begun?
    case Finish(id) => id in s.pending && s.pending[id].Loaded? && s.now <= s.pending[id].start + s.pending[id].n + y.late
  }

  lemma NextDrains(y: System, s: State)
    requires Settled(y, s)
    ensures Draining(y, s.(now := s.now + 1))
  {
    var t := s.(now := s.now + 1);
    forall x | x in t.q ensures EntryOk(y, t, t.now, x) && x.placed < t.now { assert EntryOk(y, s, s.now + 1, s.q[IndexOf(s.q, x)]); }
    forall id | id in t.pending ensures StartPending(y, t, id) { assert StartPending(y, s, id); }
    forall i | 0 <= i < |t.log| ensures FiredOk(t, t.log[i]) { assert FiredOk(s, s.log[i]); }
    forall i, x | 0 <= i < |t.log| && x in t.q ensures FiredBefore(t.log[i], x) { assert FiredBefore(s.log[i], s.q[IndexOf(s.q, x)]); }
    InvOf(y, t, t.now);
  }

  ghost function Step(y: System, s: State, v: Event): State
    requires LegalSystem(y) && Settled(y, s) && LegalEvent(y, s, v)
  {
    match v
    case Do(a) => Act(s, a)
    case Tick => NextDrains(y, s); Drain(y, s.(now := s.now + 1))
    case Begin(id, n) => DoBegin(s, id, n)
    case Read(id) => DoRead(s, id)
    case Finish(id) => DoFinish(s, id)
  }

  lemma StepOk(y: System, s: State, v: Event)
    requires LegalSystem(y) && Settled(y, s) && LegalEvent(y, s, v)
    ensures Settled(y, Step(y, s, v))
    ensures Step(y, s, v).now == s.now + if v.Tick? then 1 else 0
    ensures s.log <= Step(y, s, v).log
  {
    match v
    case Do(Start(id, n)) => StartOk(y, s, id, n, s.now + 1);
    case Do(Stop(id)) => StopOk(y, s, id, s.now + 1);
    case Tick =>
      NextDrains(y, s);
      DrainOk(y, s.(now := s.now + 1));
    case Begin(id, n) => BeginOk(y, s, id, n, s.now + 1);
    case Read(id) => ReadOk(y, s, id, s.now + 1);
    case Finish(id) => FinishStartOk(y, s, id);
  }

  ghost predicate LegalRun(y: System, s: State, events: seq<Event>)
    requires LegalSystem(y) && Settled(y, s)
    decreases |events|
  {
    events == [] || (LegalEvent(y, s, events[0]) && (StepOk(y, s, events[0]); LegalRun(y, Step(y, s, events[0]), events[1..])))
  }

  ghost function Run(y: System, s: State, events: seq<Event>): (t: State)
    requires LegalSystem(y) && Settled(y, s) && LegalRun(y, s, events)
    ensures Settled(y, t)
    decreases |events|
  {
    if events == [] then s else StepOk(y, s, events[0]); Run(y, Step(y, s, events[0]), events[1..])
  }

  /** Over every run, whatever timeout functions and other starts and stops do and wherever ticks fall
      into a start: each firing happens at the first tick after its insertion that has reached its
      deadline, nothing is queued past that tick, and firings come in order of tick and, within a
      tick, of deadline and insertion. */
  lemma Exact(y: System, s: State, events: seq<Event>, i: nat)
    requires LegalSystem(y) && Settled(y, s) && LegalRun(y, s, events)
    ensures var t := Run(y, s, events);
      && (i < |t.log| ==> t.log[i].at == FireTick(t.log[i].e))
      && (i < |t.q| ==> FireTick(t.q[i]) > t.now)
      && (forall j :: i < j < |t.log| ==> Before(t.log[i].e, t.log[j].e))
  {
    var t := Run(y, s, events);
    if i < |t.log| { assert FiredOk(t, t.log[i]); }
    if i < |t.q| { assert EntryOk(y, t, t.now + 1, t.q[i]); }
    forall j | i < j < |t.log| ensures Before(t.log[i].e, t.log[j].e) { assert FiredBefore(t.log[i], t.log[j].e); }
  }

  /** A firing comes at the tick its start asked for exactly when fewer ticks than that passed between
      the read of the counter and the insertion, and then no firing before it had a later deadline. */
  lemma OnTime(y: System, s: State, events: seq<Event>, j: nat)
    requires LegalSystem(y) && Settled(y, s) && LegalRun(y, s, events) && j < |Run(y, s, events).log|
    ensures var t := Run(y, s, events); var e := t.log[j].e;
      && (t.log[j].at == Asked(e) <==> e.placed - e.start < (if e.n == 0 then 1 else e.n))
      && (t.log[j].at == Asked(e) ==> forall i :: 0 <= i < j ==> Precedes(t.log[i].e, e))
  {
    var t := Run(y, s, events);
    assert FiredOk(t, t.log[j]);
    forall i | 0 <= i < j && Prompt(t.log[j].e) ensures Precedes(t.log[i].e, t.log[j].e) { assert FiredBefore(t.log[i], t.log[j].e); }
  }

  // ---- a timer nobody touches does fire ----------------------------------------------------------

  ghost predicate Logged(s: State, e: Entry) {
    exists i :: 0 <= i < |s.log| && s.log[i].e == e
  }

  function Target(v: Event): (id: int)
    requires !v.Tick?
  {
    if v.Do? then v.a.id else v.id
  }

  /** Neither the environment nor any timeout function starts or stops `id`. */
  predicate LeftAlone(y: System, events: seq<Event>, id: int) {
    && (forall k :: 0 <= k < |events| && !events[k].Tick? ==> Target(events[k]) != id)
    && (forall c :: c in y.calls ==> forall k :: 0 <= k < |y.calls[c]| ==> y.calls[c][k].id != id)
  }

  lemma ActKeeps(s: State, a: Action, e: Entry)
    requires e in s.q && a.id != e.id
    ensures e in Act(s, a).q
  {
    WithoutOk(s.q, a.id);
    if a.Start? { InsertMembers(Without(s.q, a.id), Entry(a.id, s.now, a.n, s.now, s.starts)); }
  }

  lemma {:induction false} ActsKeep(s: State, actions: seq<Action>, e: Entry)
    requires e in s.q && forall k :: 0 <= k < |actions| ==> actions[k].id != e.id
    ensures e in Acts(s, actions).q
    decreases |actions|
  {
    if actions != [] {
      ActKeeps(s, actions[0], e);
      ActsKeep(Act(s, actions[0]), actions[1..], e);
    }
  }

  lemma FireKeeps(y: System, s: State, e: Entry)
    requires LegalSystem(y) && Draining(y, s) && s.q != [] && Due(s.q[0]) <= s.now
    requires e in s.q && LeftAlone(y, [], e.id)
    ensures e in Fire(y, s).q || Logged(Fire(y, s), e)
  {
    FireOk(y, s);
    var f := s.q[0];
    if f == e {
      assert Fire(y, s).log[|s.log|].e == e;
    } else {
      var p := s.(q := s.q[1..], log := s.log + [Firing(f, s.now)]);
      var i := IndexOf(s.q, e);
      assert p.q[i - 1] == e;
      ActsKeep(p, Calls(y, f.id), e);
      var t := Acts(p, Calls(y, f.id));
      ActKeeps(t.(active := t.active - {f.id}), Start(f.id, f.n), e);
    }
  }

  lemma {:induction false} DrainKeeps(y: System, s: State, e: Entry)
    requires LegalSystem(y) && Draining(y, s) && e in s.q && LeftAlone(y, [], e.id)
    ensures e in Drain(y, s).q || Logged(Drain(y, s), e)
    decreases Expired(s.q, s.now)
  {
    if Due(s.q[0]) <= s.now {
      FireOk(y, s);
      FireKeeps(y, s, e);
      DrainOk(y, Fire(y, s));
      if e in Fire(y, s).q {
        DrainKeeps(y, Fire(y, s), e);
      } else {
        LoggedGrows(Fire(y, s), Drain(y, s), e);
      }
    }
  }

  lemma LoggedGrows(s: State, t: State, e: Entry)
    requires Logged(s, e) && s.log <= t.log
    ensures Logged(t, e)
  {
    var i :| 0 <= i < |s.log| && s.log[i].e == e;
    assert t.log[i].e == e;
  }

  lemma StepKeeps(y: System, s: State, v: Event, e: Entry)
    requires LegalSystem(y) && Settled(y, s) && LegalEvent(y, s, v) && e in s.q && LeftAlone(y, [v], e.id)
    ensures e in Step(y, s, v).q || Logged(Step(y, s, v), e)
  {
    assert [v][0] == v;
    match v
    case Do(a) => ActKeeps(s, a, e);
    case Tick =>
      NextDrains(y, s);
      DrainKeeps(y, s.(now := s.now + 1), e);
    case Begin(id, n) => WithoutOk(s.q, id);
    case Read(id) =>
    case Finish(id) => InsertMembers(s.q, Placed(s, id));
  }

  lemma {:induction false} RunKeeps(y: System, s: State, events: seq<Event>, e: Entry)
    requires LegalSystem(y) && Settled(y, s) && LegalRun(y, s, events)
    requires LeftAlone(y, events, e.id) && (e in s.q || Logged(s, e))
    ensures e in Run(y, s, events).q || Logged(Run(y, s, events), e)
    decreases |events|
  {
    if events != [] {
      StepOk(y, s, events[0]);
      var t := Step(y, s, events[0]);
      if Logged(s, e) { LoggedGrows(s, t, e); } else { StepKeeps(y, s, events[0], e); }
      RunKeeps(y, t, events[1..], e);
    }
  }

  lemma NotOverdue(y: System, s: State, e: Entry)
    requires Settled(y, s) && e in s.q
    ensures FireTick(e) > s.now
  {
    assert EntryOk(y, s, s.now + 1, s.q[IndexOf(s.q, e)]);
  }

  /** An entry left alone fires at its tick in every run that lasts that long. */
  lemma QueuedFires(y: System, s: State, events: seq<Event>, e: Entry) returns (i: nat)
    requires LegalSystem(y) && Settled(y, s) && LegalRun(y, s, events) && e in s.q && LeftAlone(y, events, e.id)
    requires Run(y, s, events).now >= FireTick(e)
    ensures i < |Run(y, s, events).log| && Run(y, s, events).log[i] == Firing(e, FireTick(e))
  {
    RunKeeps(y, s, events, e);
    var t := Run(y, s, events);
    if e in t.q { NotOverdue(y, t, e); }
    i :| 0 <= i < |t.log| && t.log[i].e == e;
    assert FiredOk(t, t.log[i]);
  }

  /** A timer started for `n` ticks in one step and left alone fires, at exactly the `n`-th tick after
      its start (the first one for `n == 0`). */
  lemma Fires(y: System, s: State, id: int, n: nat, events: seq<Event>) returns (i: nat)
    requires LegalSystem(y) && Settled(y, s) && LegalStart(y, id, n) && id !in s.pending && LeftAlone(y, events, id)
    requires Settled(y, DoStart(s, id, n)) && LegalRun(y, DoStart(s, id, n), events)
    requires Run(y, DoStart(s, id, n), events).now >= s.now + (if n == 0 then 1 else n)
    ensures var t := Run(y, DoStart(s, id, n), events);
      i < |t.log| && t.log[i] == Firing(Entry(id, s.now, n, s.now, s.starts), s.now + if n == 0 then 1 else n)
  {
    var e := Entry(id, s.now, n, s.now, s.starts);
    InsertMembers(Without(s.q, id), e);
    i := QueuedFires(y, DoStart(s, id, n), events, e);
  }

  /** A start with interrupts on fires `n` ticks after the tick it read or at the next tick, whichever
      comes later. */
  lemma FinishFires(y: System, s: State, id: int, events: seq<Event>) returns (i: nat)
    requires LegalSystem(y) && Settled(y, s) && LegalEvent(y, s, Finish(id)) && LeftAlone(y, events, id)
    requires Settled(y, DoFinish(s, id)) && LegalRun(y, DoFinish(s, id), events)
    requires Run(y, DoFinish(s, id), events).now >= FireTick(Placed(s, id))
    ensures var t := Run(y, DoFinish(s, id), events); var due := s.pending[id].start + s.pending[id].n;
      i < |t.log| && t.log[i] == Firing(Placed(s, id), if due > s.now then due else s.now + 1)
  {
    InsertMembers(s.q, Placed(s, id));
    i := QueuedFires(y, DoFinish(s, id), events, Placed(s, id));
  }

  // ---- starts that are late ----------------------------------------------------------------------

  const Fresh := State(0, [], {}, [], 0, map[])

  /** One-shot timers without timeout functions. */
  function Plain(late: nat): System { System({}, map[], late) }

  lemma RunCons(y: System, s: State, v: Event, rest: seq<Event>)
    requires LegalSystem(y) && Settled(y, s) && LegalEvent(y, s, v) && Settled(y, Step(y, s, v)) && LegalRun(y, Step(y, s, v), rest)
    ensures LegalRun(y, s, [v] + rest) && Run(y, s, [v] + rest) == Run(y, Step(y, s, v), rest)
  {
    assert ([v] + rest)[1..] == rest;
  }

  lemma QuietTick(y: System, s: State)
    requires LegalSystem(y) && Settled(y, s) && (s.q == [] || Due(s.q[0]) > s.now + 1)
    ensures Step(y, s, Tick) == s.(now := s.now + 1)
  {
    NextDrains(y, s);
  }

  lemma FiringTick(late: nat, s: State, e: Entry)
    requires 1 + late < HALF && Settled(Plain(late), s) && s.q == [e] && Due(e) <= s.now + 1
    ensures Step(Plain(late), s, Tick) == s.(now := s.now + 1, q := [], log := s.log + [Firing(e, s.now + 1)], active := s.active - {e.id})
  {
    var y, t := Plain(late), s.(now := s.now + 1);
    NextDrains(y, s);
    FireOk(y, t);
    assert t.q[1..] == [];
    assert Fire(y, t) == t.(q := [], log := s.log + [Firing(e, t.now)], active := s.active - {e.id});
    assert Drain(y, Fire(y, t)) == Fire(y, t);
  }

  /** The run from `s` is legal and ends in `t`. */
  ghost predicate Reaches(y: System, s: State, events: seq<Event>, t: State) {
    LegalSystem(y) && Settled(y, s) && LegalRun(y, s, events) && Run(y, s, events) == t
  }

  lemma Onward(y: System, s: State, v: Event, m: State, rest: seq<Event>, t: State)
    requires LegalSystem(y) && Settled(y, s) && LegalEvent(y, s, v) && Step(y, s, v) == m && Reaches(y, m, rest, t)
    ensures Reaches(y, s, [v] + rest, t)
  {
    RunCons(y, s, v, rest);
  }

  lemma AtEnd(y: System, s: State)
    requires LegalSystem(y) && Settled(y, s)
    ensures Reaches(y, s, [], s)
  {
  }

  /** The end of an interrupted start: timer 1 read tick 0, is inserted at the tick `now` and fires at the
      next one. */
  lemma InsertAndFire(late: nat, s: State, t: State, n: nat)
    requires 1 + late < HALF && Settled(Plain(late), s) && s.q == [] && s.active == {} && s.pending == map[1 := Loaded(n, 0)]
    requires n <= s.now <= n + late
    requires t == State(s.now + 1, [], {}, s.log + [Firing(Entry(1, 0, n, s.now, s.starts), s.now + 1)], s.starts + 1, map[])
    ensures Reaches(Plain(late), s, [Finish(1), Tick], t)
  {
    var y, m := Plain(late), DoFinish(s, 1);
    StepOk(y, s, Finish(1));
    assert m.pending == map[];
    FiringTick(late, m, Placed(s, 1));
    StepOk(y, m, Tick);
    AtEnd(y, t);
    Onward(y, m, Tick, t, [], t);
    Onward(y, s, Finish(1), m, [Tick], t);
    assert [Tick] + [] == [Tick] && [Finish(1)] + [Tick] == [Finish(1), Tick];
  }

  /** Timer 1 has been taken off the queue for a one-tick start and has read tick 0. */
  const AtRead := State(0, [], {}, [], 0, map[1 := Loaded(1, 0)])

  lemma ReadFirst(late: nat)
    requires 1 + late < HALF
    ensures Settled(Plain(late), AtRead) && Reaches(Plain(late), Fresh, [Begin(1, 1)] + [Read(1)], AtRead)
  {
    var y, a := Plain(late), DoBegin(Fresh, 1, 1);
    StepOk(y, Fresh, Begin(1, 1));
    StepOk(y, a, Read(1));
    assert DoRead(a, 1) == AtRead;
    AtEnd(y, AtRead);
    Onward(y, a, Read(1), AtRead, [], AtRead);
    assert [Read(1)] + [] == [Read(1)];
    Onward(y, Fresh, Begin(1, 1), a, [Read(1)], AtRead);
  }

  lemma {:induction false} Joined(y: System, s: State, a: seq<Event>, m: State, b: seq<Event>, t: State)
    requires Reaches(y, s, a, m) && Reaches(y, m, b, t)
    ensures Reaches(y, s, a + b, t)
    decreases |a|
  {
    if a == [] {
      assert a + b == b;
    } else {
      StepOk(y, s, a[0]);
      Joined(y, Step(y, s, a[0]), a[1..], m, b, t);
      Onward(y, s, a[0], Step(y, s, a[0]), a[1..] + b, t);
      assert [a[0]] + (a[1..] + b) == a + b;
    }
  }

  /** A one-tick start that is interrupted by one tick fires one tick late. */
  lemma OneTickLate()
    ensures var e := Entry(1, 0, 1, 1, 0);
      Asked(e) == 1 && Reaches(Plain(0), Fresh, [Begin(1, 1), Read(1), Tick, Finish(1), Tick], State(2, [], {}, [Firing(e, 2)], 1, map[]))
  {
    var y, m := Plain(0), AtRead.(now := 1);
    var t := State(2, [], {}, [Firing(Entry(1, 0, 1, 1, 0), 2)], 1, map[]);
    ReadFirst(0);
    QuietTick(y, AtRead);
    StepOk(y, AtRead, Tick);
    InsertAndFire(0, m, t, 1);
    Onward(y, AtRead, Tick, m, [Finish(1), Tick], t);
    Joined(y, Fresh, [Begin(1, 1)] + [Read(1)], AtRead, [Tick] + [Finish(1), Tick], t);
    assert [Begin(1, 1)] + [Read(1)] + ([Tick] + [Finish(1), Tick]) == [Begin(1, 1), Read(1), Tick, Finish(1), Tick];
  }

  /** Interrupted longer, it fires after a timer with a later deadline. */
  lemma OutOfOrder()
    ensures var e, f := Entry(1, 0, 1, 2, 1), Entry(2, 0, 2, 0, 0);
      && !Precedes(f, e) && !Prompt(e)
      && Reaches(Plain(1), Fresh, [Begin(1, 1)] + [Read(1)] + ([Do(Start(2, 2))] + [Tick, Tick, Finish(1), Tick]),
                 State(3, [], {}, [Firing(f, 2), Firing(e, 3)], 2, map[]))
  {
    var t := State(3, [], {}, [Firing(Entry(2, 0, 2, 0, 0), 2), Firing(Entry(1, 0, 1, 2, 1), 3)], 2, map[]);
    ReadFirst(1);
    SecondStarts(t);
    Joined(Plain(1), Fresh, [Begin(1, 1)] + [Read(1)], AtRead, [Do(Start(2, 2))] + [Tick, Tick, Finish(1), Tick], t);
  }

  lemma SecondStarts(t: State)
    requires t == State(3, [], {}, [Firing(Entry(2, 0, 2, 0, 0), 2), Firing(Entry(1, 0, 1, 2, 1), 3)], 2, map[])
    requires Settled(Plain(1), AtRead)
    ensures Reaches(Plain(1), AtRead, [Do(Start(2, 2))] + [Tick, Tick, Finish(1), Tick], t)
  {
    var y, c, start := Plain(1), DoStart(AtRead, 2, 2), Do(Start(2, 2));
    StepOk(y, AtRead, start);
    assert c == State(0, [Entry(2, 0, 2, 0, 0)], {2}, [], 1, map[1 := Loaded(1, 0)]);
    TwoTicks(c, t);
    Onward(y, AtRead, start, c, [Tick, Tick, Finish(1), Tick], t);
  }

  lemma TwoTicks(c: State, t: State)
    requires var f := Entry(2, 0, 2, 0, 0);
      && c == State(0, [f], {2}, [], 1, map[1 := Loaded(1, 0)])
      && t == State(3, [], {}, [Firing(f, 2), Firing(Entry(1, 0, 1, 2, 1), 3)], 2, map[])
    requires Settled(Plain(1), c)
    ensures Reaches(Plain(1), c, [Tick, Tick, Finish(1), Tick], t)
  {
    var y, f := Plain(1), Entry(2, 0, 2, 0, 0);
    var d := c.(now := 1);
    QuietTick(y, c);
    StepOk(y, c, Tick);
    FiringTick(1, d, f);
    StepOk(y, d, Tick);
    var e := Step(y, d, Tick);
    InsertAndFire(1, e, t, 1);
    Onward(y, d, Tick, e, [Finish(1), Tick], t);
    Onward(y, c, Tick, d, [Tick] + [Finish(1), Tick], t);
    assert [Tick] + ([Tick] + [Finish(1), Tick]) == [Tick, Tick, Finish(1), Tick];
  }
}
