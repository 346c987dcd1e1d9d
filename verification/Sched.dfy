/** What the scheduler and thread operations do (scheduler.c, thread.c, clock.c), without the ready
    bitmap: threads, one ready queue per priority, wait lists and the running thread. */
module Sched {
  import opened Seqs

  const PRIORITIES: nat := 32   // RT_THREAD_PRIORITY_MAX

  type Tid = int

  datatype Stat = INIT | READY | SUSPEND | RUNNING | CLOSE

  /** `yielded` is RT_THREAD_STAT_YIELD; `left` and `slice` are remaining_tick and init_tick. */
  datatype Thread = Thread(stat: Stat, yielded: bool, prio: nat, initPrio: nat, left: nat, slice: nat)

  /** What a caller that was interrupted between two disabled sections is doing to a thread. */
  datatype Doing = Deleting | Resuming

  /** `limbo` holds the threads some caller has unlinked and not yet put where they go. */
  datatype Kernel = Kernel(
    threads: map<Tid, Thread>,
    queues: seq<seq<Tid>>,
    waits: map<int, seq<Tid>>,
    defunct: seq<Tid>,
    current: Tid,
    lock: int,
    limbo: map<Tid, Doing>)

  // ---- the list edits ----------------------------------------------------------------------

  /** rt_list_remove on the thread's list node, whatever list it is in. */
  function Unlink(k: Kernel, t: Tid): Kernel {
    k.(queues := seq(|k.queues|, p requires 0 <= p < |k.queues| => Drop(k.queues[p], t)),
       waits := map o | o in k.waits :: Drop(k.waits[o], t),
       defunct := Drop(k.defunct, t))
  }

  function SetThread(k: Kernel, t: Tid, r: Thread): Kernel { k.(threads := k.threads[t := r]) }

  /** rt_schedule_insert_thread */
  function InsertReady(k: Kernel, t: Tid): Kernel
    requires t in k.threads && k.threads[t].prio < |k.queues|
  {
    var r := k.threads[t];
    if t == k.current then SetThread(k, t, r.(stat := RUNNING))
    else
      var k' := SetThread(k, t, r.(stat := READY));
      k'.(queues := k.queues[r.prio := k.queues[r.prio] + [t]])
  }

  /** The highest priority with a ready thread, or the number of priorities. */
  function Top(qs: seq<seq<Tid>>, p: nat): (r: nat)
    requires p <= |qs|
    ensures p <= r <= |qs|
    ensures r < |qs| ==> qs[r] != []
    ensures forall i :: p <= i < r ==> qs[i] == []
    decreases |qs| - p
  {
    if p == |qs| || qs[p] != [] then p else Top(qs, p + 1)
  }

  // ---- invariant -----------------------------------------------------------------------------

  ghost predicate QueueOk(k: Kernel, hole: set<Tid>, p: nat)
    requires p < |k.queues|
  {
    && Distinct(k.queues[p])
    && forall t :: t in k.queues[p] ==>
         t !in hole && t in k.threads && k.threads[t].stat == READY && k.threads[t].prio == p
  }

  ghost predicate ThreadOk(k: Kernel, hole: set<Tid>, t: Tid)
    requires |k.queues| == PRIORITIES && t in k.threads
  {
    && k.threads[t].prio < PRIORITIES && k.threads[t].initPrio < PRIORITIES
    && (t !in hole && k.threads[t].stat == READY ==> t in k.queues[k.threads[t].prio])
    && (t !in hole && k.threads[t].stat == RUNNING ==> t == k.current)
    && (t !in hole && t == k.current ==> k.threads[t].stat != READY && k.threads[t].stat != INIT)
  }

  ghost predicate WaitOk(k: Kernel, hole: set<Tid>, o: int)
    requires o in k.waits
  {
    && Distinct(k.waits[o])
    && (forall t :: t in k.waits[o] ==> t !in hole && t in k.threads && k.threads[t].stat == SUSPEND)
    && (forall o', t :: o' in k.waits && o' != o && t in k.waits[o] ==> t !in k.waits[o'])
  }

  /** A thread is in a ready queue exactly when it is READY, in the queue of its current priority,
      once, and in no other; the running thread is the only RUNNING one and never queued; wait lists
      hold suspended threads, each in at most one.  Threads in `hole` are between two lists. */
  ghost predicate Ok(k: Kernel, hole: set<Tid>) {
    && |k.queues| == PRIORITIES
    && k.current in k.threads
    && (forall t :: t in k.threads ==> ThreadOk(k, hole, t))
    && (forall p :: 0 <= p < PRIORITIES ==> QueueOk(k, hole, p))
    && (forall o :: o in k.waits ==> WaitOk(k, hole, o))
    && Distinct(k.defunct)
    && (forall t :: t in k.defunct ==> t !in hole && t in k.threads && k.threads[t].stat == CLOSE)
  }

  ghost predicate Inv(k: Kernel) { Ok(k, k.limbo.Keys) && LimboOk(k) }

  /** A thread in limbo is not the running one, and one that is being resumed is still suspended. */
  ghost predicate LimboOk(k: Kernel) {
    k.current !in k.limbo && forall t :: t in k.limbo ==> t in k.threads && (k.limbo[t].Resuming? ==> k.threads[t].stat == SUSPEND)
  }

  lemma DropElements<T>(s: seq<T>, x: T)
    requires Distinct(s)
    ensures Distinct(Drop(s, x)) && forall y :: y in Drop(s, x) <==> y in s && y != x
  {
    if x in s { RemoveAtElements(s, IndexOf(s, x)); }
  }

  lemma DropSubset<T>(s: seq<T>, x: T)
    ensures forall y :: y in Drop(s, x) ==> y in s
  {
  }

  /** Unlinking a thread takes it out of whatever list it was in and leaves all else as it was. */
  lemma UnlinkOk(k: Kernel, hole: set<Tid>, t: Tid)
    requires Ok(k, hole) && t in k.threads
    ensures Ok(Unlink(k, t), hole + {t})
  {
    var k', out := Unlink(k, t), hole + {t};
    forall p | 0 <= p < PRIORITIES
      ensures QueueOk(k', out, p) && forall u :: u != t ==> (u in k.queues[p] <==> u in k'.queues[p])
    {
      assert QueueOk(k, hole, p);
      DropElements(k.queues[p], t);
    }
    forall u | u in k'.threads ensures ThreadOk(k', out, u) { assert ThreadOk(k, hole, u); }
    forall o | o in k'.waits ensures WaitOk(k', out, o) {
      assert WaitOk(k, hole, o);
      DropElements(k.waits[o], t);
      forall o', u | o' in k'.waits && o' != o && u in k'.waits[o] ensures u !in k'.waits[o'] {
        DropSubset(k.waits[o'], t);
      }
    }
    DropElements(k.defunct, t);
  }

  lemma OwnQueueOnly(k: Kernel, t: Tid)
    requires Inv(k) && t in k.threads
    ensures k.threads[t].prio < PRIORITIES && k.threads[t].initPrio < PRIORITIES
    ensures forall p :: 0 <= p < PRIORITIES && t in k.queues[p] ==> p == k.threads[t].prio && k.threads[t].stat == READY
  {
    assert ThreadOk(k, k.limbo.Keys, t);
    forall p | 0 <= p < PRIORITIES && t in k.queues[p] ensures p == k.threads[t].prio && k.threads[t].stat == READY {
      assert QueueOk(k, k.limbo.Keys, p);
    }
  }

  /** The node of a running or new thread is linked to itself: unlinking it changes nothing. */
  lemma UnlinkAlone(k: Kernel, t: Tid)
    requires Inv(k) && t in k.threads && (k.threads[t].stat == RUNNING || k.threads[t].stat == INIT)
    ensures Unlink(k, t) == k
  {
    OwnQueueOnly(k, t);
    var u := Unlink(k, t);
    forall o | o in k.waits ensures u.waits[o] == k.waits[o] { assert WaitOk(k, k.limbo.Keys, o); }
    assert u.waits.Keys == k.waits.Keys && u.queues == k.queues;
  }

  /** A thread in no list may get any priority and any state. */
  lemma SetHoleOk(k: Kernel, hole: set<Tid>, t: Tid, r: Thread)
    requires Ok(k, hole) && t in hole && t in k.threads && r.prio < PRIORITIES && r.initPrio < PRIORITIES
    ensures Ok(SetThread(k, t, r), hole)
  {
    var k' := SetThread(k, t, r);
    forall u | u in k'.threads ensures ThreadOk(k', hole, u) { if u != t { assert ThreadOk(k, hole, u); } }
    forall p | 0 <= p < PRIORITIES ensures QueueOk(k', hole, p) { assert QueueOk(k, hole, p); }
    forall o | o in k'.waits ensures WaitOk(k', hole, o) { assert WaitOk(k, hole, o); }
  }

  lemma InsertReadyOk(k: Kernel, hole: set<Tid>, t: Tid)
    requires Ok(k, hole + {t}) && t in k.threads && t !in hole
    ensures k.threads[t].prio < |k.queues| && Ok(InsertReady(k, t), hole)
  {
    var out := hole + {t};
    assert ThreadOk(k, out, t);
    var k' := InsertReady(k, t);
    forall p | 0 <= p < PRIORITIES
      ensures QueueOk(k', hole, p) && forall u :: u in k.queues[p] ==> u in k'.queues[p]
    {
      assert QueueOk(k, out, p);
    }
    forall u | u in k'.threads ensures ThreadOk(k', hole, u) { assert ThreadOk(k, out, u); }
    forall o | o in k'.waits ensures WaitOk(k', hole, o) { assert WaitOk(k, out, o); }
  }

  /** A thread left out of every list must be suspended, closed or new. */
  lemma SettleOk(k: Kernel, hole: set<Tid>, t: Tid)
    requires Ok(k, hole + {t}) && t in k.threads
    requires k.threads[t].stat == SUSPEND || k.threads[t].stat == CLOSE || (k.threads[t].stat == INIT && t != k.current)
    ensures Ok(k, hole)
  {
    var out := hole + {t};
    forall u | u in k.threads ensures ThreadOk(k, hole, u) { assert ThreadOk(k, out, u); }
    forall p | 0 <= p < PRIORITIES ensures QueueOk(k, hole, p) { assert QueueOk(k, out, p); }
    forall o | o in k.waits ensures WaitOk(k, hole, o) { assert WaitOk(k, out, o); }
  }

  /** The lists do not depend on who is said to be in limbo. */
  lemma LimboLists(k: Kernel, hole: set<Tid>, limbo: map<Tid, Doing>)
    requires Ok(k, hole)
    ensures Ok(k.(limbo := limbo), hole)
  {
    var k' := k.(limbo := limbo);
    forall u | u in k'.threads ensures ThreadOk(k', hole, u) { assert ThreadOk(k, hole, u); }
    forall p | 0 <= p < PRIORITIES ensures QueueOk(k', hole, p) { assert QueueOk(k, hole, p); }
    forall o | o in k'.waits ensures WaitOk(k', hole, o) { assert WaitOk(k, hole, o); }
  }

  // ---- thread operations -----------------------------------------------------------------------

  /** rt_thread_suspend */
  function Suspend(k: Kernel, t: Tid): Kernel
    requires t in k.threads
  {
    if k.threads[t].stat != READY && k.threads[t].stat != RUNNING then k
    else SetThread(Unlink(k, t), t, k.threads[t].(stat := SUSPEND))
  }

  /** rt_thread_resume */
  function Resume(k: Kernel, t: Tid): Kernel
    requires t in k.threads && k.threads[t].prio < |k.queues|
  {
    if k.threads[t].stat != SUSPEND then k else InsertReady(Unlink(k, t), t)
  }

  /** The running thread suspends and joins the wait list `o` at its end (RT_IPC_FLAG_FIFO). */
  function Block(k: Kernel, o: int): Kernel
    requires k.current in k.threads
  {
    var k' := Suspend(k, k.current);
    k'.(waits := k'.waits[o := (if o in k'.waits then k'.waits[o] else []) + [k.current]])
  }

  /** rt_thread_control(RT_THREAD_CTRL_CHANGE_PRIORITY) */
  function ChangePriority(k: Kernel, t: Tid, p: nat): Kernel
    requires t in k.threads && p < |k.queues|
  {
    var r := k.threads[t].(prio := p);
    if k.threads[t].stat == READY then InsertReady(SetThread(Unlink(k, t), t, r), t) else SetThread(k, t, r)
  }

  /** The second section of rt_thread_delete: close the thread and list it as defunct. */
  function Close(k: Kernel, t: Tid): Kernel
    requires t in k.threads
  {
    k.(threads := k.threads[t := k.threads[t].(stat := CLOSE, yielded := false)], defunct := [t] + k.defunct)
  }

  /** rt_thread_delete where the caller holds interrupts off or deletes itself, and rt_thread_exit. */
  function Delete(k: Kernel, t: Tid): Kernel
    requires t in k.threads
  {
    Close(Unlink(k, t), t)
  }

  /** The first section of rt_thread_delete and rt_thread_resume: out of whatever list it is in. */
  function SetAside(k: Kernel, t: Tid, what: Doing): Kernel { Unlink(k, t).(limbo := k.limbo[t := what]) }

  function TakeUp(k: Kernel, t: Tid): Kernel { k.(limbo := k.limbo - {t}) }

  /** Does the running thread keep the processor against a ready thread of priority `p`? */
  predicate Stays(r: Thread, p: nat) {
    r.stat == RUNNING && (r.prio < p || (r.prio == p && !r.yielded))
  }

  /** Hand the processor to `to`; a running thread that loses it goes to the end of its queue. */
  function Switch(k: Kernel, to: Tid): Kernel
    requires k.current in k.threads && to in k.threads && k.threads[k.current].prio < |k.queues|
  {
    var from := k.current;
    var r := k.threads[from];
    var k1 := k.(current := to);
    var k2 := if r.stat == RUNNING && from != to
              then InsertReady(SetThread(k1, from, r.(yielded := false)), from) else k1;
    var k3 := Unlink(k2, to);
    SetThread(k3, to, k3.threads[to].(stat := RUNNING))
  }

  /** rt_schedule */
  function Schedule(k: Kernel): Kernel
    requires Ready(k)
  {
    var p := Top(k.queues, 0);
    if k.lock != 0 || p == |k.queues| || Stays(k.threads[k.current], p) then k
    else Switch(k, k.queues[p][0])
  }

  /** What rt_schedule needs to be defined: every listed thread exists and has a queue. */
  predicate Ready(k: Kernel) {
    && k.current in k.threads && k.threads[k.current].prio < |k.queues|
    && forall p :: 0 <= p < |k.queues| ==> forall i :: 0 <= i < |k.queues[p]| ==> k.queues[p][i] in k.threads
  }

  lemma InvReady(k: Kernel)
    requires Inv(k)
    ensures Ready(k)
  {
    assert ThreadOk(k, k.limbo.Keys, k.current);
    forall p, i | 0 <= p < |k.queues| && 0 <= i < |k.queues[p]| ensures k.queues[p][i] in k.threads {
      assert QueueOk(k, k.limbo.Keys, p);
      var t := k.queues[p][i];
      assert t in k.queues[p];
    }
  }

  // ---- every operation keeps the invariant -------------------------------------------------------

  lemma SuspendOk(k: Kernel, t: Tid)
    requires Inv(k) && t in k.threads && t !in k.limbo
    ensures Inv(Suspend(k, t))
  {
    if k.threads[t].stat == READY || k.threads[t].stat == RUNNING {
      var hole := k.limbo.Keys;
      assert ThreadOk(k, hole, t);
      UnlinkOk(k, hole, t);
      SetHoleOk(Unlink(k, t), hole + {t}, t, k.threads[t].(stat := SUSPEND));
      SettleOk(Suspend(k, t), hole, t);
    }
  }

  lemma ResumeOk(k: Kernel, t: Tid)
    requires Inv(k) && t in k.threads && t !in k.limbo
    ensures k.threads[t].prio < |k.queues| && Inv(Resume(k, t))
  {
    var hole := k.limbo.Keys;
    assert ThreadOk(k, hole, t);
    if k.threads[t].stat == SUSPEND {
      UnlinkOk(k, hole, t);
      InsertReadyOk(Unlink(k, t), hole, t);
    }
  }

  lemma ChangePriorityOk(k: Kernel, t: Tid, p: nat)
    requires Inv(k) && t in k.threads && p < PRIORITIES && t !in k.limbo
    ensures Inv(ChangePriority(k, t, p))
  {
    var r, hole := k.threads[t].(prio := p), k.limbo.Keys;
    var k' := ChangePriority(k, t, p);
    assert ThreadOk(k, hole, t);
    if k.threads[t].stat == READY {
      UnlinkOk(k, hole, t);
      SetHoleOk(Unlink(k, t), hole + {t}, t, r);
      InsertReadyOk(SetThread(Unlink(k, t), t, r), hole, t);
    } else {
      forall u | u in k'.threads ensures ThreadOk(k', hole, u) { assert ThreadOk(k, hole, u); }
      forall q | 0 <= q < PRIORITIES ensures QueueOk(k', hole, q) { assert QueueOk(k, hole, q); }
      forall o | o in k'.waits ensures WaitOk(k', hole, o) { assert WaitOk(k, hole, o); }
    }
  }

  /** Closing a thread that is in no list. */
  lemma CloseOk(k: Kernel, hole: set<Tid>, t: Tid)
    requires Ok(k, hole + {t}) && t in k.threads && t !in hole
    ensures Ok(Close(k, t), hole)
  {
    var r, out := k.threads[t].(stat := CLOSE, yielded := false), hole + {t};
    assert ThreadOk(k, out, t);
    SetHoleOk(k, out, t, r);
    var k' := SetThread(k, t, r);
    assert t !in k'.defunct;
    SettleOk(k', hole, t);
    var d := Close(k, t);
    assert d.defunct == InsertAt(k'.defunct, 0, t);
    InsertAtElements(k'.defunct, 0, t);
    SameLists(k', d, hole, t);
  }

  lemma DeleteOk(k: Kernel, t: Tid)
    requires Inv(k) && t in k.threads && t !in k.limbo
    ensures Inv(Delete(k, t))
  {
    UnlinkOk(k, k.limbo.Keys, t);
    CloseOk(Unlink(k, t), k.limbo.Keys, t);
  }

  /** The invariant looks at the defunct list on its own. */
  lemma SameLists(k: Kernel, k': Kernel, hole: set<Tid>, t: Tid)
    requires Ok(k, hole) && k' == k.(defunct := k'.defunct) && Distinct(k'.defunct)
    requires t !in hole && t in k.threads && k.threads[t].stat == CLOSE
    requires forall u :: u in k'.defunct ==> u in k.defunct || u == t
    ensures Ok(k', hole)
  {
    forall u | u in k'.threads ensures ThreadOk(k', hole, u) { assert ThreadOk(k, hole, u); }
    forall q | 0 <= q < PRIORITIES ensures QueueOk(k', hole, q) { assert QueueOk(k, hole, q); }
    forall o | o in k'.waits ensures WaitOk(k', hole, o) { assert WaitOk(k, hole, o); }
  }

  /** Between the sections the thread is in no list at all. */
  lemma SetAsideOk(k: Kernel, t: Tid, what: Doing)
    requires Inv(k) && t in k.threads && t !in k.limbo && t != k.current && (what.Resuming? ==> k.threads[t].stat == SUSPEND)
    ensures Inv(SetAside(k, t, what))
  {
    UnlinkOk(k, k.limbo.Keys, t);
    LimboLists(Unlink(k, t), k.limbo.Keys + {t}, k.limbo[t := what]);
    assert SetAside(k, t, what).limbo.Keys == k.limbo.Keys + {t};
  }

  /** The second sections: of a deletion, and of a resumption. */
  lemma CloseAsideOk(k: Kernel, t: Tid)
    requires Inv(k) && t in k.limbo
    ensures Inv(Close(TakeUp(k, t), t))
  {
    TakenUp(k, t);
    CloseOk(TakeUp(k, t), k.limbo.Keys - {t}, t);
  }

  lemma InsertAsideOk(k: Kernel, t: Tid)
    requires Inv(k) && t in k.limbo
    ensures k.threads[t].prio < |k.queues| && Inv(InsertReady(TakeUp(k, t), t))
  {
    TakenUp(k, t);
    InsertReadyOk(TakeUp(k, t), k.limbo.Keys - {t}, t);
  }

  lemma TakenUp(k: Kernel, t: Tid)
    requires Inv(k) && t in k.limbo
    ensures Ok(TakeUp(k, t), k.limbo.Keys - {t} + {t}) && TakeUp(k, t).limbo.Keys == k.limbo.Keys - {t}
  {
    LimboLists(k, k.limbo.Keys, k.limbo - {t});
    assert k.limbo.Keys - {t} + {t} == k.limbo.Keys;
  }

  lemma BlockOk(k: Kernel, o: int)
    requires Inv(k) && k.threads[k.current].stat == RUNNING
    ensures Inv(Block(k, o))
  {
    var t, hole := k.current, k.limbo.Keys;
    assert ThreadOk(k, hole, t);
    UnlinkOk(k, hole, t);
    SetHoleOk(Unlink(k, t), hole + {t}, t, k.threads[t].(stat := SUSPEND));
    var m := Suspend(k, t);
    SettleOk(m, hole, t);
    var k' := Block(k, o);
    forall u | u in k'.threads ensures ThreadOk(k', hole, u) { assert ThreadOk(m, hole, u); }
    forall q | 0 <= q < PRIORITIES ensures QueueOk(k', hole, q) { assert QueueOk(m, hole, q); }
    forall x | x in k'.waits ensures WaitOk(k', hole, x) {
      if o in m.waits { assert WaitOk(m, hole + {t}, o); }
      if x in m.waits { assert WaitOk(m, hole + {t}, x); }
    }
  }

  /** With a thread ready and the scheduler unlocked, rt_schedule ends with a running thread that no
      ready thread outranks. */
  lemma ScheduleOk(k: Kernel)
    requires Inv(k)
    ensures Ready(k) && Inv(Schedule(k))
    ensures k.lock == 0 && Top(k.queues, 0) < PRIORITIES ==> RunsBest(Schedule(k))
  {
    InvReady(k);
    var p := Top(k.queues, 0);
    if k.lock == 0 && p < PRIORITIES {
      forall t | Queueable(k, t) ensures p <= k.threads[t].prio {
        assert ThreadOk(k, k.limbo.Keys, t);
      }
      if !Stays(k.threads[k.current], p) {
        SwitchOk(k, p);
      }
    }
  }

  /** READY, and not about to be deleted. */
  predicate Queueable(k: Kernel, t: Tid) { t in k.threads && t !in k.limbo && k.threads[t].stat == READY }

  /** The current thread is running and no ready thread outranks it. */
  ghost predicate RunsBest(k: Kernel) {
    && k.current in k.threads && k.threads[k.current].stat == RUNNING
    && forall t :: Queueable(k, t) ==> k.threads[k.current].prio <= k.threads[t].prio
  }

  lemma SwitchOk(k: Kernel, p: nat)
    requires Inv(k) && Ready(k) && p < PRIORITIES && k.queues[p] != []
    requires !Stays(k.threads[k.current], p)
    requires forall t :: Queueable(k, t) ==> p <= k.threads[t].prio
    ensures var s := Switch(k, k.queues[p][0]);
      && Inv(s) && s.current == k.queues[p][0]
      && s.threads[s.current].stat == RUNNING && s.threads[s.current].prio == p
      && forall t :: Queueable(s, t) ==> p <= s.threads[t].prio
  {
    var to, from, hole := k.queues[p][0], k.current, k.limbo.Keys;
    assert to in k.queues[p];
    assert QueueOk(k, hole, p) && ThreadOk(k, hole, to) && ThreadOk(k, hole, from);
    HandOverOk(k, to);
    var h, r := HandOver(k, to), k.threads[from];
    if r.stat == RUNNING {
      SetHoleOk(h, hole + {from}, from, r.(yielded := false));
      InsertReadyOk(SetThread(h, from, r.(yielded := false)), hole, from);
      SwitchAlt(k, to);
    } else {
      assert hole + {} == hole;
    }
  }

  /** The new thread unlinked and running, the old one not yet queued. */
  function HandOver(k: Kernel, to: Tid): Kernel
    requires to in k.threads
  {
    SetThread(Unlink(k, to), to, k.threads[to].(stat := RUNNING)).(current := to)
  }

  lemma HandOverOk(k: Kernel, to: Tid)
    requires Inv(k) && Queueable(k, to)
    ensures Ok(HandOver(k, to), k.limbo.Keys + if k.threads[k.current].stat == RUNNING then {k.current} else {})
  {
    var all := k.limbo.Keys;
    var hole := all + if k.threads[k.current].stat == RUNNING then {k.current} else {};
    assert ThreadOk(k, all, to) && ThreadOk(k, all, k.current);
    UnlinkOk(k, all, to);
    var u, h, out := Unlink(k, to), HandOver(k, to), all + {to};
    forall t | t in h.threads ensures ThreadOk(h, hole, t) { assert ThreadOk(u, out, t) && ThreadOk(k, all, t); }
    forall q | 0 <= q < PRIORITIES ensures QueueOk(h, hole, q) { assert QueueOk(u, out, q); }
    assert Ok(u, out);
    forall o | o in h.waits ensures WaitOk(h, hole, o) { assert WaitOk(u, out, o); }
  }

  lemma SwitchAlt(k: Kernel, to: Tid)
    requires Ready(k) && to in k.threads && to != k.current && k.threads[k.current].stat == RUNNING
    ensures var from := k.current;
      Switch(k, to) == InsertReady(SetThread(HandOver(k, to), from, k.threads[from].(yielded := false)), from)
  {
    var from := k.current;
    var r := k.threads[from].(yielded := false);
    var a, b := Switch(k, to), InsertReady(SetThread(HandOver(k, to), from, r), from);
    forall q | 0 <= q < |k.queues| ensures a.queues[q] == b.queues[q] {
      DropAppend(k.queues[q], to, from);
    }
    assert a.queues == b.queues && a.threads == b.threads;
  }

  // ---- runs ---------------------------------------------------------------------------------------

  datatype Event =
    | Startup(t: Tid) | SuspendIt(t: Tid) | ResumeIt(t: Tid) | BlockOn(o: int) | Timeout(t: Tid)
    | SetPriority(t: Tid, p: nat) | DeleteIt(t: Tid) | Exit | Reschedule | Enter | Leave | Tick
    | DeleteOff(t: Tid) | DeleteEnd(t: Tid) | ResumeOff(t: Tid) | ResumeEnd(t: Tid)

  /** What the source asserts of its callers, and that nobody turns to a thread in the middle of its
      deletion or resumption. */
  predicate Legal(k: Kernel, v: Event)
    requires k.current in k.threads
  {
    match v
    case Startup(t) => Free(k, t) && k.threads[t].stat == INIT
    case SuspendIt(t) => Free(k, t)
    case ResumeIt(t) => Free(k, t)
    case BlockOn(o) => k.threads[k.current].stat == RUNNING
    case Timeout(t) => Free(k, t) && k.threads[t].stat == SUSPEND
    case SetPriority(t, p) => Free(k, t) && p < PRIORITIES
    case DeleteIt(t) => Free(k, t) && k.threads[t].stat != CLOSE
    case Exit => k.threads[k.current].stat != CLOSE
    case Tick => k.threads[k.current].left > 0
    case DeleteOff(t) => Free(k, t) && t != k.current && k.threads[t].stat != CLOSE
    case DeleteEnd(t) => t in k.limbo && k.limbo[t].Deleting?
    case ResumeOff(t) => Free(k, t) && t != k.current && k.threads[t].stat == SUSPEND
    case ResumeEnd(t) => t in k.limbo && k.limbo[t].Resuming?
    case _ => true
  }

  predicate Free(k: Kernel, t: Tid) { t in k.threads && t !in k.limbo }

  /** rt_tick_increase without its timer check: charge the running thread one tick and let it yield
      when its slice is used up. */
  function Charge(k: Kernel): Kernel
    requires k.current in k.threads && k.threads[k.current].left > 0
  {
    var r := k.threads[k.current];
    SetThread(k, k.current, if r.left == 1 then r.(left := r.slice, yielded := true) else r.(left := r.left - 1))
  }

  /** What an event does before rt_schedule runs. */
  ghost function Effect(k: Kernel, v: Event): Kernel
    requires Inv(k) && Legal(k, v)
  {
    match v
    case Startup(t) =>
      StartupOk(k, t);
      var r := k.threads[t];
      Resume(SetThread(k, t, r.(prio := r.initPrio, stat := SUSPEND, yielded := false)), t)
    case SuspendIt(t) => Suspend(k, t)
    case ResumeIt(t) => ResumeOk(k, t); Resume(k, t)
    case BlockOn(o) => Block(k, o)
    case Timeout(t) => ResumeOk(k, t); Resume(k, t)
    case SetPriority(t, p) => ChangePriority(k, t, p)
    case DeleteIt(t) => Delete(k, t)
    case Exit => Delete(k, k.current)
    case Reschedule => k
    case Enter => k.(lock := k.lock + 1)
    case Leave => k.(lock := if k.lock - 1 <= 0 then 0 else k.lock - 1)
    case Tick => Charge(k)
    case DeleteOff(t) => SetAside(k, t, Deleting)
    case DeleteEnd(t) => Close(TakeUp(k, t), t)
    case ResumeOff(t) => SetAside(k, t, Resuming)
    case ResumeEnd(t) => InsertAsideOk(k, t); InsertReady(TakeUp(k, t), t)
  }

  /** Does the operation end by calling rt_schedule? */
  predicate Reschedules(k: Kernel, v: Event)
    requires k.current in k.threads
  {
    match v
    case Startup(_) => true
    case BlockOn(_) => true
    case Timeout(_) => true
    case Exit => true
    case Reschedule => true
    case Leave => k.lock - 1 <= 0
    case Tick => k.threads[k.current].left == 1
    case _ => false
  }

  lemma StartupOk(k: Kernel, t: Tid)
    requires Inv(k) && Free(k, t) && k.threads[t].stat == INIT
    ensures var r := k.threads[t];
            var k' := SetThread(k, t, r.(prio := r.initPrio, stat := SUSPEND, yielded := false));
      Inv(k') && k'.threads[t].prio < |k'.queues|
  {
    assert ThreadOk(k, k.limbo.Keys, t);
    var r := k.threads[t];
    var k' := SetThread(k, t, r.(prio := r.initPrio, stat := SUSPEND, yielded := false));
    forall u | u in k'.threads ensures ThreadOk(k', k.limbo.Keys, u) { assert ThreadOk(k, k.limbo.Keys, u); }
    forall q | 0 <= q < PRIORITIES ensures QueueOk(k', k.limbo.Keys, q) { assert QueueOk(k, k.limbo.Keys, q); }
    forall o | o in k'.waits ensures WaitOk(k', k.limbo.Keys, o) { assert WaitOk(k, k.limbo.Keys, o); }
  }

  lemma ChargeOk(k: Kernel)
    requires Inv(k) && k.threads[k.current].left > 0
    ensures Inv(Charge(k))
  {
    var k' := Charge(k);
    forall u | u in k'.threads ensures ThreadOk(k', k.limbo.Keys, u) { assert ThreadOk(k, k.limbo.Keys, u); }
    forall q | 0 <= q < PRIORITIES ensures QueueOk(k', k.limbo.Keys, q) { assert QueueOk(k, k.limbo.Keys, q); }
    forall o | o in k'.waits ensures WaitOk(k', k.limbo.Keys, o) { assert WaitOk(k, k.limbo.Keys, o); }
  }

  lemma LockOk(k: Kernel, n: int)
    requires Inv(k)
    ensures Inv(k.(lock := n))
  {
    var k' := k.(lock := n);
    forall u | u in k'.threads ensures ThreadOk(k', k.limbo.Keys, u) { assert ThreadOk(k, k.limbo.Keys, u); }
    forall q | 0 <= q < PRIORITIES ensures QueueOk(k', k.limbo.Keys, q) { assert QueueOk(k, k.limbo.Keys, q); }
    forall o | o in k'.waits ensures WaitOk(k', k.limbo.Keys, o) { assert WaitOk(k, k.limbo.Keys, o); }
  }

  lemma EffectOk(k: Kernel, v: Event)
    requires Inv(k) && Legal(k, v)
    ensures Inv(Effect(k, v))
  {
    match v
    case Startup(t) =>
      StartupOk(k, t);
      var r := k.threads[t];
      ResumeOk(SetThread(k, t, r.(prio := r.initPrio, stat := SUSPEND, yielded := false)), t);
    case SuspendIt(t) => SuspendOk(k, t);
    case ResumeIt(t) => ResumeOk(k, t);
    case BlockOn(o) => BlockOk(k, o);
    case Timeout(t) => ResumeOk(k, t);
    case SetPriority(t, p) => ChangePriorityOk(k, t, p);
    case DeleteIt(t) => DeleteOk(k, t);
    case Exit => DeleteOk(k, k.current);
    case Reschedule =>
    case Enter => LockOk(k, k.lock + 1);
    case Leave => LockOk(k, if k.lock - 1 <= 0 then 0 else k.lock - 1);
    case Tick => ChargeOk(k);
    case DeleteOff(t) => SetAsideOk(k, t, Deleting);
    case DeleteEnd(t) => CloseAsideOk(k, t);
    case ResumeOff(t) => SetAsideOk(k, t, Resuming);
    case ResumeEnd(t) => InsertAsideOk(k, t);
  }

  ghost function Step(k: Kernel, v: Event): Kernel
    requires Inv(k) && Legal(k, v)
  {
    EffectOk(k, v);
    ScheduleOk(Effect(k, v));
    if Reschedules(k, v) then Schedule(Effect(k, v)) else Effect(k, v)
  }

  ghost predicate LegalRun(k: Kernel, vs: seq<Event>)
    requires Inv(k)
    decreases |vs|
  {
    vs == [] || (Legal(k, vs[0]) && (StepOk(k, vs[0]); LegalRun(Step(k, vs[0]), vs[1..])))
  }

  lemma StepOk(k: Kernel, v: Event)
    requires Inv(k) && Legal(k, v)
    ensures Inv(Step(k, v))
  {
    EffectOk(k, v);
    ScheduleOk(Effect(k, v));
  }

  ghost function Run(k: Kernel, vs: seq<Event>): (r: Kernel)
    requires Inv(k) && LegalRun(k, vs)
    ensures Inv(r)
    decreases |vs|
  {
    if vs == [] then k else StepOk(k, vs[0]); Run(Step(k, vs[0]), vs[1..])
  }

  /** Thread `t` is queued exactly when it is READY, at its own priority and nowhere else. */
  ghost predicate QueuedIfReady(k: Kernel, t: Tid)
    requires t in k.threads
  {
    |k.queues| == PRIORITIES &&
    forall p :: 0 <= p < PRIORITIES ==> (t in k.queues[p] <==> k.threads[t].stat == READY && k.threads[t].prio == p)
  }

  lemma InvQueues(k: Kernel, t: Tid)
    requires Inv(k) && t in k.threads
    ensures QueuedIfReady(k, t) <==> !(t in k.limbo && k.threads[t].stat == READY)
    ensures t in k.limbo ==> forall p :: 0 <= p < PRIORITIES ==> t !in k.queues[p]
  {
    assert ThreadOk(k, k.limbo.Keys, t);
    forall p | 0 <= p < PRIORITIES
      ensures t in k.queues[p] <==> t !in k.limbo && k.threads[t].stat == READY && k.threads[t].prio == p
    {
      assert QueueOk(k, k.limbo.Keys, p);
    }
  }

  /** In every reachable state a thread is queued exactly when it is READY, at its own priority only,
      unless it is READY in the middle of its deletion, when it is in no queue; and an operation that
      reschedules leaves nobody ready above the running thread. */
  lemma Reachable(k: Kernel, vs: seq<Event>, v: Event, t: Tid)
    requires Inv(k) && LegalRun(k, vs) && Legal(Run(k, vs), v) && t in Run(k, vs).threads
    ensures var s := Run(k, vs); QueuedIfReady(s, t) <==> !(t in s.limbo && s.threads[t].stat == READY)
    ensures var s := Run(k, vs);
      Reschedules(s, v) && Effect(s, v).lock == 0 && Top(Effect(s, v).queues, 0) < PRIORITIES ==> RunsBest(Step(s, v))
  {
    var s := Run(k, vs);
    InvQueues(s, t);
    EffectOk(s, v);
    ScheduleOk(Effect(s, v));
  }

  /** With nothing in between, the two sections are the one step. */
  lemma Uninterrupted(k: Kernel, t: Tid)
    requires Inv(k) && Free(k, t)
    ensures Close(TakeUp(SetAside(k, t, Deleting), t), t) == Delete(k, t)
    ensures k.threads[t].prio < |k.queues|
    ensures k.threads[t].stat == SUSPEND ==> InsertReady(TakeUp(SetAside(k, t, Resuming), t), t) == Resume(k, t)
  {
    assert ThreadOk(k, k.limbo.Keys, t);
    assert k.limbo[t := Deleting] - {t} == k.limbo && k.limbo[t := Resuming] - {t} == k.limbo;
  }

  // ---- what goes wrong when somebody does turn to such a thread ----------------------------------

  /** A suspension and a resumption between the sections of a deletion: the thread is closed and listed
      as defunct while it is still in a ready queue. */
  lemma ClosedInQueue(k: Kernel, t: Tid)
    requires Inv(k) && Legal(k, DeleteOff(t)) && k.threads[t].stat == READY
    ensures var m := SetAside(k, t, Deleting);
      && m.threads[t].prio < |m.queues| && !QueuedIfReady(m, t)
      && var e := Close(TakeUp(Resume(Suspend(m, t), t), t), t);
         t in e.queues[e.threads[t].prio] && e.threads[t].stat == CLOSE && t in e.defunct && !Inv(e)
  {
    var m := SetAside(k, t, Deleting);
    SetAsideOk(k, t, Deleting);
    InvQueues(m, t);
    assert ThreadOk(k, k.limbo.Keys, t);
    var e := Close(TakeUp(Resume(Suspend(m, t), t), t), t);
    assert t in e.queues[e.threads[t].prio];
    assert !QueueOk(e, e.limbo.Keys, e.threads[t].prio);
  }

  /** A second resumption between the sections of a resumption: the thread is queued twice. */
  lemma QueuedTwice(k: Kernel, t: Tid)
    requires Inv(k) && Legal(k, ResumeOff(t))
    ensures var m := SetAside(k, t, Resuming);
      && m.threads[t].prio < |m.queues|
      && var e := InsertReady(TakeUp(Resume(m, t), t), t);
         !Distinct(e.queues[e.threads[t].prio]) && !Inv(e)
  {
    var m := SetAside(k, t, Resuming);
    assert ThreadOk(k, k.limbo.Keys, t);
    var p := m.threads[t].prio;
    var e := InsertReady(TakeUp(Resume(m, t), t), t);
    var q := e.queues[p];
    assert q[|q| - 1] == t && q[|q| - 2] == t;
    assert !QueueOk(e, e.limbo.Keys, p);
  }

  /** The kernel when its first thread runs and no other has been started. */
  function Boot(threads: map<Tid, Thread>, first: Tid): Kernel {
    Kernel(threads, seq(PRIORITIES, _ => []), map[], [], first, 0, map[])
  }

  lemma BootOk(threads: map<Tid, Thread>, first: Tid)
    requires first in threads && threads[first].stat == RUNNING
    requires forall t :: t in threads && t != first ==> threads[t].stat == INIT
    requires forall t :: t in threads ==> threads[t].prio < PRIORITIES && threads[t].initPrio < PRIORITIES
    ensures Inv(Boot(threads, first))
  {
    var k := Boot(threads, first);
    assert forall t :: t in k.threads ==> ThreadOk(k, {}, t);
    assert forall p :: 0 <= p < PRIORITIES ==> QueueOk(k, {}, p);
  }
}
