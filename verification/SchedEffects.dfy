/** What each thread operation and rt_schedule do to the thread they are about, and that they do nothing
    to any other. */
module SchedEffects {
  import opened Seqs
  import opened Sched

  // ---- what does not change ---------------------------------------------------------------

  /** All but thread `t` is as it was: the other threads, the order of the others in every list, the
      running thread and the lock. */
  ghost predicate OnlyThread(k: Kernel, e: Kernel, t: Tid) {
    && e.threads.Keys == k.threads.Keys && (forall u :: u in k.threads && u != t ==> e.threads[u] == k.threads[u])
    && OnlyLists(k, e, t) && e.current == k.current && e.lock == k.lock && e.limbo == k.limbo
  }

  ghost predicate OnlyLists(k: Kernel, e: Kernel, t: Tid) {
    && |e.queues| == |k.queues| && (forall p :: 0 <= p < |k.queues| ==> Drop(e.queues[p], t) == Drop(k.queues[p], t))
    && e.waits.Keys == k.waits.Keys && (forall o :: o in k.waits ==> Drop(e.waits[o], t) == Drop(k.waits[o], t))
    && Drop(e.defunct, t) == Drop(k.defunct, t)
  }

  ghost predicate InNoQueue(k: Kernel, t: Tid) { forall p :: 0 <= p < |k.queues| ==> t !in k.queues[p] }

  ghost predicate InNoWait(k: Kernel, t: Tid) { forall o :: o in k.waits ==> t !in k.waits[o] }

  /** Thread `t` is in no list at all. */
  ghost predicate Nowhere(k: Kernel, t: Tid) { InNoQueue(k, t) && InNoWait(k, t) && t !in k.defunct }

  /** Thread `t` is the last of ready queue `p`, and in no other list. */
  ghost predicate LastOf(k: Kernel, t: Tid, p: nat) {
    && p < |k.queues| && k.queues[p] != [] && k.queues[p][|k.queues[p]| - 1] == t && t !in k.queues[p][..|k.queues[p]| - 1]
    && (forall q :: 0 <= q < |k.queues| && q != p ==> t !in k.queues[q])
    && InNoWait(k, t) && t !in k.defunct
  }

  // ---- what does ----------------------------------------------------------------------------

  ghost predicate Suspended(k: Kernel, e: Kernel, t: Tid)
    requires t in k.threads
  {
    if k.threads[t].stat == READY || k.threads[t].stat == RUNNING then
      OnlyThread(k, e, t) && Nowhere(e, t) && e.threads[t] == k.threads[t].(stat := SUSPEND)
    else e == k
  }

  /** Ready at the end of its queue; a thread that still runs goes on running. */
  ghost predicate Awakened(k: Kernel, e: Kernel, t: Tid)
    requires t in k.threads
  {
    && OnlyThread(k, e, t)
    && if t == k.current then Nowhere(e, t) && e.threads[t] == k.threads[t].(stat := RUNNING)
       else LastOf(e, t, k.threads[t].prio) && e.threads[t] == k.threads[t].(stat := READY)
  }

  ghost predicate Resumed(k: Kernel, e: Kernel, t: Tid)
    requires t in k.threads
  {
    if k.threads[t].stat == SUSPEND then Awakened(k, e, t) else e == k
  }

  /** The new priority; a ready thread moves to the end of that queue, any other stays where it is. */
  ghost predicate Reprioritized(k: Kernel, e: Kernel, t: Tid, p: nat)
    requires t in k.threads
  {
    && OnlyThread(k, e, t) && e.threads[t] == k.threads[t].(prio := p)
    && if k.threads[t].stat == READY then LastOf(e, t, p) else e.queues == k.queues && e.waits == k.waits && e.defunct == k.defunct
  }

  /** Closed, first among the defunct and in no other list. */
  ghost predicate Closed(k: Kernel, e: Kernel, t: Tid)
    requires t in k.threads
  {
    && OnlyThread(k, e, t) && InNoQueue(e, t) && InNoWait(e, t)
    && e.defunct == [t] + Drop(k.defunct, t) && e.threads[t] == k.threads[t].(stat := CLOSE, yielded := false)
  }

  /** At its initial priority, ready at the end of that queue. */
  ghost predicate Started(k: Kernel, e: Kernel, t: Tid)
    requires t in k.threads
  {
    && OnlyThread(k, e, t) && LastOf(e, t, k.threads[t].initPrio)
    && e.threads[t] == k.threads[t].(prio := k.threads[t].initPrio, stat := READY, yielded := false)
  }

  /** Suspended, and last on wait list `o`. */
  ghost predicate BlockedOn(k: Kernel, e: Kernel, o: int)
    requires k.current in k.threads
  {
    && e.threads == k.threads[k.current := k.threads[k.current].(stat := SUSPEND)]
    && e.queues == k.queues && e.defunct == k.defunct && e.current == k.current && e.lock == k.lock && e.limbo == k.limbo
    && e.waits.Keys == k.waits.Keys + {o} && e.waits[o] == (if o in k.waits then k.waits[o] else []) + [k.current]
    && forall x :: x in k.waits && x != o ==> e.waits[x] == k.waits[x]
  }

  /** One tick less of the slice; the last one brings a new slice and the mark that it is up. */
  ghost predicate Charged(k: Kernel, e: Kernel)
    requires k.current in k.threads
  {
    var r := k.threads[k.current];
    && e.threads.Keys == k.threads.Keys && (forall u :: u in k.threads && u != k.current ==> e.threads[u] == k.threads[u])
    && e.queues == k.queues && e.waits == k.waits && e.defunct == k.defunct && e.current == k.current && e.lock == k.lock && e.limbo == k.limbo
    && var s := e.threads[k.current];
      && s.stat == r.stat && s.prio == r.prio && s.initPrio == r.initPrio && s.slice == r.slice
      && if r.left > 1 then s.left == r.left - 1 && s.yielded == r.yielded else s.left == r.slice && s.yielded
  }

  /** `p` is the best priority with a thread queued. */
  predicate Best(k: Kernel, p: nat) { p < |k.queues| && k.queues[p] != [] && forall q :: 0 <= q < p ==> k.queues[q] == [] }

  /** A running thread keeps the processor against worse threads, and against equals until its slice is
      up. */
  predicate Keeps(k: Kernel, p: nat)
    requires k.current in k.threads
  {
    var r := k.threads[k.current];
    r.stat == RUNNING && (r.prio < p || (r.prio == p && !r.yielded))
  }

  /** The processor goes to the first thread of queue `p`; a thread that was running goes to the end of its
      own. */
  ghost predicate Switched(k: Kernel, e: Kernel, p: nat)
    requires k.current in k.threads && p < |k.queues| && k.queues[p] != []
  {
    var to, from := k.queues[p][0], k.current;
    && to in k.threads && to != from && e.current == to && e.lock == k.lock && e.limbo == k.limbo
    && e.threads.Keys == k.threads.Keys && e.threads[to] == k.threads[to].(stat := RUNNING) && Nowhere(e, to)
    && (forall u :: u in k.threads && u != to && u != from ==> e.threads[u] == k.threads[u])
    && e.waits == k.waits && e.defunct == k.defunct && |e.queues| == |k.queues|
    && var r := k.threads[from];
      && e.threads[from] == (if r.stat == RUNNING then r.(stat := READY, yielded := false) else r)
      && forall q :: 0 <= q < |k.queues| ==>
           e.queues[q] == (if q == p then k.queues[q][1..] else k.queues[q]) + (if r.stat == RUNNING && q == r.prio then [from] else [])
  }

  /** rt_schedule: who runs next, and when it is somebody else. */
  ghost predicate Rescheduled(k: Kernel, e: Kernel)
    requires k.current in k.threads
  {
    if k.lock != 0 || forall q :: 0 <= q < |k.queues| ==> k.queues[q] == [] then e == k
    else exists p: nat :: Best(k, p) && if Keeps(k, p) then e == k else Switched(k, e, p)
  }

  // ---- the list edits -------------------------------------------------------------------------

  lemma DropGone(s: seq<Tid>, t: Tid)
    requires Distinct(s)
    ensures t !in Drop(s, t) && Drop(Drop(s, t), t) == Drop(s, t)
  {
    DropElements(s, t);
  }

  lemma DropLast(s: seq<Tid>, t: Tid)
    requires t !in s
    ensures Drop(s + [t], t) == s && (s + [t])[..|s|] == s
  {
    var r := s + [t];
    assert r[|s|] == t && t in r;
    assert IndexOf(r, t) == |s| by { assert forall i :: 0 <= i < |s| ==> r[i] == s[i]; }
    assert RemoveAt(r, |s|) == s;
  }

  lemma UnlinkMeans(k: Kernel, hole: set<Tid>, t: Tid)
    requires Ok(k, hole)
    ensures OnlyThread(k, Unlink(k, t), t) && Nowhere(Unlink(k, t), t)
  {
    forall p | 0 <= p < |k.queues| ensures t !in Drop(k.queues[p], t) && Drop(Drop(k.queues[p], t), t) == Drop(k.queues[p], t) {
      assert QueueOk(k, hole, p);
      DropGone(k.queues[p], t);
    }
    forall o | o in k.waits ensures t !in Drop(k.waits[o], t) && Drop(Drop(k.waits[o], t), t) == Drop(k.waits[o], t) {
      assert WaitOk(k, hole, o);
      DropGone(k.waits[o], t);
    }
    DropGone(k.defunct, t);
  }

  /** Two steps that touch only `t`. */
  lemma OnlyTwice(k: Kernel, m: Kernel, e: Kernel, t: Tid)
    requires OnlyThread(k, m, t) && OnlyThread(m, e, t)
    ensures OnlyThread(k, e, t)
  {
  }

  lemma SetOnly(k: Kernel, t: Tid, r: Thread)
    requires t in k.threads
    ensures OnlyThread(k, SetThread(k, t, r), t)
  {
  }

  /** A thread that is in no list becomes ready, or goes on running. */
  lemma InsertMeans(k: Kernel, t: Tid)
    requires t in k.threads && Nowhere(k, t) && k.threads[t].prio < |k.queues|
    ensures Awakened(k, InsertReady(k, t), t)
  {
    var e, p := InsertReady(k, t), k.threads[t].prio;
    if t != k.current {
      DropLast(k.queues[p], t);
      assert e.queues[p] == k.queues[p] + [t] && Drop(k.queues[p], t) == k.queues[p];
    }
  }

  // ---- the operations ---------------------------------------------------------------------------

  lemma SuspendMeans(k: Kernel, t: Tid)
    requires Inv(k) && Free(k, t)
    ensures Suspended(k, Suspend(k, t), t)
  {
    if k.threads[t].stat == READY || k.threads[t].stat == RUNNING {
      UnlinkMeans(k, k.limbo.Keys, t);
      SetOnly(Unlink(k, t), t, k.threads[t].(stat := SUSPEND));
      OnlyTwice(k, Unlink(k, t), Suspend(k, t), t);
    }
  }

  lemma ResumeMeans(k: Kernel, t: Tid)
    requires Inv(k) && Free(k, t)
    ensures k.threads[t].prio < |k.queues| && Resumed(k, Resume(k, t), t)
  {
    assert ThreadOk(k, k.limbo.Keys, t);
    if k.threads[t].stat == SUSPEND {
      UnlinkMeans(k, k.limbo.Keys, t);
      InsertMeans(Unlink(k, t), t);
      OnlyTwice(k, Unlink(k, t), Resume(k, t), t);
    }
  }

  lemma ChangePriorityMeans(k: Kernel, t: Tid, p: nat)
    requires Inv(k) && Free(k, t) && p < PRIORITIES
    ensures Reprioritized(k, ChangePriority(k, t, p), t, p)
  {
    assert ThreadOk(k, k.limbo.Keys, t);
    var r := k.threads[t].(prio := p);
    if k.threads[t].stat == READY {
      var u := Unlink(k, t);
      var v := SetThread(u, t, r);
      UnlinkMeans(k, k.limbo.Keys, t);
      SetOnly(u, t, r);
      OnlyTwice(k, u, v, t);
      InsertMeans(v, t);
      OnlyTwice(k, v, ChangePriority(k, t, p), t);
      assert r.(stat := READY) == r;
    }
  }

  lemma CloseMeans(k: Kernel, t: Tid)
    requires t in k.threads && Nowhere(k, t)
    ensures Closed(k, Close(k, t), t)
  {
    var e := Close(k, t);
    assert e.defunct == [t] + k.defunct && IndexOf(e.defunct, t) == 0;
    assert RemoveAt(e.defunct, 0) == k.defunct;
  }

  lemma DeleteMeans(k: Kernel, t: Tid)
    requires Inv(k) && Free(k, t)
    ensures Closed(k, Delete(k, t), t)
  {
    UnlinkMeans(k, k.limbo.Keys, t);
    CloseMeans(Unlink(k, t), t);
    OnlyTwice(k, Unlink(k, t), Delete(k, t), t);
  }

  lemma StartupMeans(k: Kernel, t: Tid)
    requires Inv(k) && Legal(k, Startup(t))
    ensures Started(k, Effect(k, Startup(t)), t)
  {
    StartupOk(k, t);
    var r := k.threads[t].(prio := k.threads[t].initPrio, stat := SUSPEND, yielded := false);
    var m := SetThread(k, t, r);
    assert ThreadOk(k, k.limbo.Keys, t);
    SetOnly(k, t, r);
    ResumeMeans(m, t);
    OnlyTwice(k, m, Effect(k, Startup(t)), t);
  }

  lemma TimeoutMeans(k: Kernel, t: Tid)
    requires Inv(k) && Legal(k, Timeout(t))
    ensures Awakened(k, Effect(k, Timeout(t)), t)
  {
    ResumeMeans(k, t);
  }

  /** The caller leaves no list, being in none, and joins the end of the wait list. */
  lemma BlockMeans(k: Kernel, o: int)
    requires Inv(k) && Legal(k, BlockOn(o))
    ensures BlockedOn(k, Block(k, o), o)
  {
    UnlinkAlone(k, k.current);
  }

  lemma ChargeMeans(k: Kernel)
    requires Inv(k) && Legal(k, Tick)
    ensures Charged(k, Effect(k, Tick))
  {
  }

  /** The first section of a deletion or a resumption only takes the thread out of its list. */
  lemma SetAsideMeans(k: Kernel, t: Tid, what: Doing)
    requires Inv(k) && Free(k, t)
    ensures var e := SetAside(k, t, what);
      OnlyThread(k, e.(limbo := k.limbo), t) && Nowhere(e, t) && e.threads == k.threads && e.limbo == k.limbo[t := what]
  {
    UnlinkMeans(k, k.limbo.Keys, t);
  }

  /** The second section of a deletion closes it, and that of a resumption makes it ready. */
  lemma TakeUpMeans(k: Kernel, t: Tid)
    requires Inv(k) && t in k.limbo
    ensures k.threads[t].prio < |k.queues| && t in k.threads
    ensures var m := TakeUp(k, t); Closed(m, Close(m, t), t) && Awakened(m, InsertReady(m, t), t) && m == k.(limbo := k.limbo - {t})
  {
    var m := TakeUp(k, t);
    assert ThreadOk(k, k.limbo.Keys, t);
    forall p | 0 <= p < |k.queues| ensures t !in m.queues[p] { assert QueueOk(k, k.limbo.Keys, p); }
    forall o | o in k.waits ensures t !in m.waits[o] { assert WaitOk(k, k.limbo.Keys, o); }
    CloseMeans(m, t);
    InsertMeans(m, t);
  }

  // ---- rt_schedule ---------------------------------------------------------------------------------

  lemma ScheduleMeans(k: Kernel)
    requires Inv(k)
    ensures Ready(k) && Rescheduled(k, Schedule(k))
  {
    InvReady(k);
    var p := Top(k.queues, 0);
    if k.lock == 0 && p < |k.queues| {
      assert Best(k, p);
      if !Keeps(k, p) { SwitchMeans(k, p); }
      assert if Keeps(k, p) then Schedule(k) == k else Switched(k, Schedule(k), p);
    }
  }

  lemma SwitchMeans(k: Kernel, p: nat)
    requires Inv(k) && Ready(k) && Best(k, p)
    ensures k.queues[p][0] in k.threads && Switched(k, Switch(k, k.queues[p][0]), p)
  {
    var to, from, hole := k.queues[p][0], k.current, k.limbo.Keys;
    assert to in k.queues[p] && QueueOk(k, hole, p) && ThreadOk(k, hole, from) && ThreadOk(k, hole, to);
    OwnQueueOnly(k, to);
    UnlinkHead(k, p, to);
    if k.threads[from].stat == RUNNING {
      SwitchAlt(k, to);
      HandedOver(k, p, to, from, Unlink(k, to));
    }
  }

  lemma HandedOver(k: Kernel, p: nat, to: Tid, from: Tid, u: Kernel)
    requires p < |k.queues| && k.queues[p] != [] && k.queues[p][0] == to && to in k.threads && from in k.threads && to != from && from == k.current
    requires HeadGone(k, u, p, to) && u == Unlink(k, to) && k.threads[from].stat == RUNNING && k.threads[from].prio < |k.queues|
    ensures Switched(k, InsertReady(SetThread(HandOver(k, to), from, k.threads[from].(yielded := false)), from), p)
  {
  }

  ghost predicate HeadGone(k: Kernel, u: Kernel, p: nat, to: Tid)
    requires p < |k.queues| && k.queues[p] != []
  {
    && Nowhere(u, to) && u.waits == k.waits && u.defunct == k.defunct && |u.queues| == |k.queues|
    && forall q :: 0 <= q < |k.queues| ==> u.queues[q] == if q == p then k.queues[q][1..] else k.queues[q]
  }

  /** Taking the head of a ready queue out of all lists. */
  lemma UnlinkHead(k: Kernel, p: nat, to: Tid)
    requires Inv(k) && p < |k.queues| && k.queues[p] != [] && k.queues[p][0] == to
    ensures HeadGone(k, Unlink(k, to), p, to)
  {
    var u, hole := Unlink(k, to), k.limbo.Keys;
    UnlinkMeans(k, hole, to);
    assert to in k.queues[p] && QueueOk(k, hole, p);
    OwnQueueOnly(k, to);
    assert IndexOf(k.queues[p], to) == 0;
    forall o | o in k.waits ensures u.waits[o] == k.waits[o] { assert WaitOk(k, hole, o); }
    assert u.waits.Keys == k.waits.Keys;
  }

  // ---- every event ---------------------------------------------------------------------------------

  /** What an event does before rt_schedule runs. */
  ghost predicate Does(k: Kernel, e: Kernel, v: Event)
    requires Inv(k) && Legal(k, v)
  {
    match v
    case Startup(t) => Started(k, e, t)
    case SuspendIt(t) => Suspended(k, e, t)
    case ResumeIt(t) => Resumed(k, e, t)
    case BlockOn(o) => BlockedOn(k, e, o)
    case Timeout(t) => Awakened(k, e, t)
    case SetPriority(t, p) => Reprioritized(k, e, t, p)
    case DeleteIt(t) => Closed(k, e, t)
    case Exit => Closed(k, e, k.current)
    case Reschedule => e == k
    case Enter => e == k.(lock := k.lock + 1)
    case Leave => e == k.(lock := if k.lock <= 1 then 0 else k.lock - 1)
    case Tick => Charged(k, e)
    case DeleteOff(t) => OnlyThread(k, e.(limbo := k.limbo), t) && Nowhere(e, t) && e.threads == k.threads && e.limbo == k.limbo[t := Deleting]
    case DeleteEnd(t) => Closed(k.(limbo := k.limbo - {t}), e, t)
    case ResumeOff(t) => OnlyThread(k, e.(limbo := k.limbo), t) && Nowhere(e, t) && e.threads == k.threads && e.limbo == k.limbo[t := Resuming]
    case ResumeEnd(t) => Awakened(k.(limbo := k.limbo - {t}), e, t)
  }

  lemma EffectMeans(k: Kernel, v: Event)
    requires Inv(k) && Legal(k, v)
    ensures Does(k, Effect(k, v), v)
  {
    match v
    case Startup(t) => StartupMeans(k, t);
    case SuspendIt(t) => SuspendMeans(k, t);
    case ResumeIt(t) => ResumeMeans(k, t);
    case BlockOn(o) => BlockMeans(k, o);
    case Timeout(t) => TimeoutMeans(k, t);
    case SetPriority(t, p) => ChangePriorityMeans(k, t, p);
    case DeleteIt(t) => DeleteMeans(k, t);
    case Exit => DeleteMeans(k, k.current);
    case DeleteOff(t) => SetAsideMeans(k, t, Deleting);
    case DeleteEnd(t) => TakeUpMeans(k, t);
    case ResumeOff(t) => SetAsideMeans(k, t, Resuming);
    case ResumeEnd(t) => TakeUpMeans(k, t);
    case _ =>
  }

  /** A whole operation: its effect, and then rt_schedule where it calls it. */
  lemma StepMeans(k: Kernel, v: Event) returns (m: Kernel)
    requires Inv(k) && Legal(k, v)
    ensures Does(k, m, v) && m.current in m.threads
    ensures var calls := v.Startup? || v.BlockOn? || v.Timeout? || v.Exit? || v.Reschedule? || (v.Leave? && k.lock <= 1) || (v.Tick? && k.threads[k.current].left == 1);
      if calls then Rescheduled(m, Step(k, v)) else Step(k, v) == m
  {
    m := Effect(k, v);
    EffectMeans(k, v);
    EffectOk(k, v);
    ScheduleMeans(m);
  }
}
