/** Time slicing: in a stretch of clock ticks in which nothing else happens, threads of the running
    priority level take turns. */
module RoundRobin {
  import opened Seqs
  import opened Sched

  /** The running thread is at the top ready level `p` with nobody above it, and everybody at that
      level has a positive slice and some of it left. */
  ghost predicate Sharing(k: Kernel, p: nat) {
    && Inv(k) && k.lock == 0 && p < PRIORITIES
    && (forall i :: 0 <= i < p ==> k.queues[i] == [])
    && k.queues[p] != []
    && Turn(k, p, k.current) && k.threads[k.current].stat == RUNNING
    && forall i :: 0 <= i < |k.queues[p]| ==> Turn(k, p, k.queues[p][i])
  }

  predicate Turn(k: Kernel, p: nat, t: Tid) {
    t in k.threads && k.threads[t].prio == p && k.threads[t].left > 0 && k.threads[t].slice > 0
  }

  function Left(k: Kernel, t: Tid): nat { if t in k.threads then k.threads[t].left else 0 }

  function SumLeft(k: Kernel, ts: seq<Tid>): nat {
    if ts == [] then 0 else Left(k, ts[0]) + SumLeft(k, ts[1..])
  }

  /** What is left of the running slice and of the slices queued ahead of position `i`. */
  function Wait(k: Kernel, p: nat, i: nat): nat
    requires p < |k.queues| && i <= |k.queues[p]|
  {
    Left(k, k.current) + SumLeft(k, k.queues[p][..i])
  }

  lemma {:induction false} SumSame(k: Kernel, k': Kernel, ts: seq<Tid>)
    requires forall i :: 0 <= i < |ts| ==> Left(k, ts[i]) == Left(k', ts[i])
    ensures SumLeft(k, ts) == SumLeft(k', ts)
  {
    if ts != [] {
      assert Left(k, ts[0]) == Left(k', ts[0]);
      forall i | 0 <= i < |ts[1..]| ensures Left(k, ts[1..][i]) == Left(k', ts[1..][i]) {
        assert ts[1..][i] == ts[i + 1];
      }
      SumSame(k, k', ts[1..]);
    }
  }

  /** A tick inside a slice only counts it down. */
  lemma TickInside(k: Kernel, p: nat)
    requires Sharing(k, p) && k.threads[k.current].left > 1
    ensures Legal(k, Tick) && Step(k, Tick) == Charge(k) && Sharing(Charge(k), p)
    ensures Charge(k).queues == k.queues && Charge(k).current == k.current
    ensures Left(Charge(k), k.current) == Left(k, k.current) - 1
    ensures forall t :: t != k.current ==> Left(Charge(k), t) == Left(k, t)
  {
    ChargeOk(k);
    var k' := Charge(k);
    forall i | 0 <= i < |k'.queues[p]| ensures Turn(k', p, k'.queues[p][i]) { assert Turn(k, p, k.queues[p][i]); }
  }

  /** The last tick of a slice makes rt_schedule switch to the head of the queue. */
  lemma TickSwitches(k: Kernel, p: nat)
    requires Sharing(k, p) && k.threads[k.current].left == 1
    ensures Legal(k, Tick) && Ready(Charge(k)) && k.queues[p][0] in k.threads
    ensures Step(k, Tick) == Switch(Charge(k), k.queues[p][0]) && Inv(Step(k, Tick))
    ensures Step(k, Tick).threads[k.queues[p][0]].stat == RUNNING
  {
    ChargeOk(k);
    var c := Charge(k);
    assert Top(c.queues, 0) == p;
    assert Turn(k, p, k.queues[p][0]);
    InvReady(c);
    ScheduleOk(c);
  }

  /** Switching at level p rotates its queue and leaves the others alone. */
  lemma Rotates(c: Kernel, p: nat)
    requires Inv(c) && Ready(c) && p < PRIORITIES && c.queues[p] != []
    requires c.threads[c.current].stat == RUNNING && c.threads[c.current].prio == p
    ensures c.current !in c.queues[p]
    ensures var s := Switch(c, c.queues[p][0]);
      && s.current == c.queues[p][0] && |s.queues| == PRIORITIES && s.lock == c.lock
      && forall q :: 0 <= q < PRIORITIES ==> s.queues[q] == if q == p then c.queues[p][1..] + [c.current] else c.queues[q]
  {
    var to, from := c.queues[p][0], c.current;
    assert to in c.queues[p];
    assert QueueOk(c, c.limbo.Keys, p) && ThreadOk(c, c.limbo.Keys, to) && ThreadOk(c, c.limbo.Keys, from);
    var s := Switch(c, to);
    forall q | 0 <= q < PRIORITIES ensures s.queues[q] == if q == p then c.queues[p][1..] + [from] else c.queues[q] {
      assert QueueOk(c, c.limbo.Keys, q);
      if q == p {
        assert c.queues[p] + [from] == [to] + (c.queues[p][1..] + [from]);
        DropCons(c.queues[p][1..] + [from], to, to);
      }
    }
  }

  /** A switch changes no slice and no priority. */
  lemma SlicesStay(c: Kernel, to: Tid, t: Tid)
    requires Ready(c) && to in c.threads && t in c.threads
    ensures t in Switch(c, to).threads
    ensures var a, b := Switch(c, to).threads[t], c.threads[t]; a.left == b.left && a.slice == b.slice && a.prio == b.prio
  {
  }

  /** The last tick of a slice hands over to the head of the queue and sends the thread to its end. */
  lemma TickLast(k: Kernel, p: nat)
    requires Sharing(k, p) && k.threads[k.current].left == 1
    ensures Legal(k, Tick)
    ensures var s := Step(k, Tick);
      && s.current == k.queues[p][0] && s.queues[p] == k.queues[p][1..] + [k.current]
      && (forall t :: t != k.current ==> Left(s, t) == Left(k, t))
      && Sharing(s, p)
  {
    TickSwitches(k, p);
    ChargeOk(k);
    var c, to, s := Charge(k), k.queues[p][0], Step(k, Tick);
    Rotates(c, p);
    LeftsStay(k, c, s, to);
    forall t | t in k.threads && Turn(k, p, t) ensures Turn(s, p, t) { SlicesStay(c, to, t); }
    assert Turn(k, p, to);
    forall i | 0 <= i < |s.queues[p]| ensures Turn(s, p, s.queues[p][i]) {
      if i < |k.queues[p]| - 1 { assert s.queues[p][i] == k.queues[p][i + 1] && Turn(k, p, k.queues[p][i + 1]); }
    }
  }

  lemma LeftsStay(k: Kernel, c: Kernel, s: Kernel, to: Tid)
    requires k.current in k.threads && k.threads[k.current].left > 0 && c == Charge(k) && Ready(c) && to in c.threads && s == Switch(c, to)
    ensures forall t :: t != k.current ==> Left(s, t) == Left(k, t)
  {
    forall t | t != k.current ensures Left(s, t) == Left(k, t) {
      if t in k.threads { SlicesStay(c, to, t); }
    }
  }

  lemma TickShares(k: Kernel, p: nat)
    requires Sharing(k, p)
    ensures Legal(k, Tick) && Sharing(Step(k, Tick), p)
  {
    if k.threads[k.current].left > 1 { TickInside(k, p); } else { TickLast(k, p); }
  }

  /** `n` ticks in a row. */
  ghost function Ticks(k: Kernel, p: nat, n: nat): (r: Kernel)
    requires Sharing(k, p)
    ensures Sharing(r, p)
    decreases n
  {
    if n == 0 then k else TickShares(k, p); Ticks(Step(k, Tick), p, n - 1)
  }

  lemma QueueNotRunning(k: Kernel, p: nat, j: nat)
    requires Sharing(k, p) && j < |k.queues[p]|
    ensures k.queues[p][j] != k.current
  {
    var t := k.queues[p][j];
    assert QueueOk(k, k.limbo.Keys, p) && t in k.queues[p];
  }

  lemma WaitInside(k: Kernel, s: Kernel, p: nat, i: nat)
    requires Sharing(k, p) && i <= |k.queues[p]| && s.queues == k.queues && s.current == k.current
    requires Left(s, k.current) == Left(k, k.current) - 1
    requires forall t :: t != k.current ==> Left(s, t) == Left(k, t)
    ensures Wait(s, p, i) == Wait(k, p, i) - 1
  {
    var ahead := k.queues[p][..i];
    forall j | 0 <= j < i ensures Left(k, ahead[j]) == Left(s, ahead[j]) { QueueNotRunning(k, p, j); }
    SumSame(k, s, ahead);
  }

  lemma WaitLater(k: Kernel, s: Kernel, p: nat, i: nat)
    requires Sharing(k, p) && 0 < i < |k.queues[p]| && k.threads[k.current].left == 1 && |s.queues| == PRIORITIES
    requires s.current == k.queues[p][0] && s.queues[p] == k.queues[p][1..] + [k.current]
    requires forall t :: t != k.current ==> Left(s, t) == Left(k, t)
    ensures Wait(s, p, i - 1) == Wait(k, p, i) - 1
  {
    var q := k.queues[p];
    var ahead := q[1..i];
    assert s.queues[p][..i - 1] == ahead && q[..i][1..] == ahead;
    QueueNotRunning(k, p, 0);
    forall j | 0 <= j < |ahead| ensures Left(k, ahead[j]) == Left(s, ahead[j]) { QueueNotRunning(k, p, j + 1); }
    SumSame(k, s, ahead);
  }

  /** Thread `t`, which was to wait `w` ticks before this one, runs or is at position `j` with one less. */
  ghost predicate Nearer(s: Kernel, p: nat, t: Tid, j: int, w: nat) {
    && Sharing(s, p) && w > 0
    && if j < 0 then s.current == t && w == 1 else j < |s.queues[p]| && s.queues[p][j] == t && Wait(s, p, j) == w - 1
  }

  /** One tick brings the thread at position i a step nearer, to position j if it is not its turn yet. */
  lemma OneTick(k: Kernel, p: nat, i: nat) returns (j: int)
    requires Sharing(k, p) && i < |k.queues[p]|
    ensures k.current != k.queues[p][i] && Legal(k, Tick) && Nearer(Step(k, Tick), p, k.queues[p][i], j, Wait(k, p, i))
  {
    QueueNotRunning(k, p, i);
    if k.threads[k.current].left > 1 {
      TickInside(k, p);
      WaitInside(k, Step(k, Tick), p, i);
      j := i;
    } else {
      TickLast(k, p);
      if i == 0 {
        assert k.queues[p][..0] == [];
      } else {
        WaitLater(k, Step(k, Tick), p, i);
      }
      j := i - 1;
    }
  }

  lemma TicksNext(k: Kernel, p: nat, m: nat)
    requires Sharing(k, p) && m > 0
    ensures Legal(k, Tick) && Sharing(Step(k, Tick), p) && Ticks(k, p, m) == Ticks(Step(k, Tick), p, m - 1)
  {
    TickShares(k, p);
  }

  /** The thread queued at position `i` of the running level gets the processor after exactly as many
      ticks as are left of the running slice and of the slices queued ahead of it, and not before. */
  lemma {:induction false} TakesTurn(k: Kernel, p: nat, i: nat)
    requires Sharing(k, p) && i < |k.queues[p]|
    ensures Ticks(k, p, Wait(k, p, i)).current == k.queues[p][i]
    ensures forall m :: 0 <= m < Wait(k, p, i) ==> Ticks(k, p, m).current != k.queues[p][i]
    decreases Wait(k, p, i)
  {
    var j := OneTick(k, p, i);
    var s := Step(k, Tick);
    if j >= 0 { TakesTurn(s, p, j); }
    TurnLater(k, s, p, k.queues[p][i], Wait(k, p, i));
  }

  /** What holds of the ticks after the first one holds of all. */
  lemma TurnLater(k: Kernel, s: Kernel, p: nat, t: Tid, w: nat)
    requires Sharing(k, p) && Legal(k, Tick) && s == Step(k, Tick) && Sharing(s, p) && k.current != t && w > 0
    requires Ticks(s, p, w - 1).current == t && forall m :: 0 <= m < w - 1 ==> Ticks(s, p, m).current != t
    ensures Ticks(k, p, w).current == t && forall m :: 0 <= m < w ==> Ticks(k, p, m).current != t
  {
    TicksNext(k, p, w);
    forall m | 0 <= m < w ensures Ticks(k, p, m).current != t {
      if m > 0 { TicksNext(k, p, m); }
    }
  }
}
