/** scheduler.c and the scheduling part of thread.c and clock.c with the ready bitmap. */
module Scheduler {
  import opened Seqs
  import opened Bits
  import opened Sched
  import opened SchedEffects

  class Scheduler {
    var threads: map<Tid, Thread>
    var mask: map<Tid, nat>          // number_mask of each thread
    var queues: seq<seq<Tid>>        // rt_thread_priority_table
    var group: nat                   // rt_thread_ready_priority_group
    var waits: map<int, seq<Tid>>
    var defunct: seq<Tid>
    var current: Tid
    var lock: int
    ghost var limbo: map<Tid, Doing>

    ghost function Abs(): Kernel
      reads this
    {
      Kernel(threads, queues, waits, defunct, current, lock, limbo)
    }

    /** Bit `p` of the group is set exactly when queue `p` is not empty. */
    ghost predicate GroupOk()
      reads `group, `queues
    {
      |queues| == PRIORITIES && forall p: nat :: HasBit(group, p) <==> p < PRIORITIES && queues[p] != []
    }

    ghost predicate MaskOk()
      reads `mask, `threads
    {
      forall t :: t in threads && threads[t].stat != INIT && threads[t].stat != CLOSE ==> t in mask && mask[t] == Mask(threads[t].prio)
    }

    ghost predicate Valid()
      reads this
    {
      Inv(Abs()) && GroupOk() && MaskOk()
    }

    /** rt_list_remove on the thread's node. */
    method UnlinkNode(t: Tid)
      modifies `queues, `waits, `defunct
      ensures Abs() == Unlink(old(Abs()), t)
    {
      queues := seq(|queues|, p requires 0 <= p < |queues| reads this => Drop(queues[p], t));
      waits := map o | o in waits :: Drop(waits[o], t);
      defunct := Drop(defunct, t);
    }

    /** rt_schedule_remove_thread */
    method RemoveThread(t: Tid)
      requires GroupOk() && t in threads && t in mask && mask[t] == Mask(threads[t].prio)
      requires forall p :: 0 <= p < PRIORITIES && t in queues[p] ==> p == threads[t].prio
      requires threads[t].prio < PRIORITIES
      modifies `queues, `waits, `defunct, `group
      ensures Abs() == Unlink(old(Abs()), t) && GroupOk()
    {
      UnlinkNode(t);
      var q := threads[t].prio;
      if queues[q] == [] {
        group := AndNot(group, mask[t]);
      }
      forall p: nat ensures HasBit(group, p) <==> p < PRIORITIES && queues[p] != [] {
        AndNotBit(old(group), mask[t], p);
        MaskBit(q, p);
      }
    }

    /** rt_schedule_insert_thread */
    method InsertThread(t: Tid)
      requires GroupOk() && t in threads && threads[t].prio < PRIORITIES
      requires t in mask && mask[t] == Mask(threads[t].prio)
      modifies `threads, `queues, `group
      ensures Abs() == InsertReady(old(Abs()), t) && GroupOk()
    {
      if t == current {
        threads := threads[t := threads[t].(stat := RUNNING)];
        return;
      }
      threads := threads[t := threads[t].(stat := READY)];
      var q := threads[t].prio;
      queues := queues[q := queues[q] + [t]];
      group := Or(group, mask[t]);
      forall p: nat ensures HasBit(group, p) <==> p < PRIORITIES && queues[p] != [] {
        OrBit(old(group), mask[t], p);
        MaskBit(q, p);
      }
    }

    /** _get_highest_priority_thread */
    method Highest() returns (t: Tid, p: nat)
      requires GroupOk() && group != 0
      ensures p == Top(queues, 0) < PRIORITIES && queues[p] != [] && t == queues[p][0]
    {
      p := Lowest(group);
      t := queues[p][0];
    }

    lemma GroupEmpty()
      requires GroupOk()
      ensures group == 0 <==> Top(queues, 0) == PRIORITIES
    {
      if group == 0 {
        forall p | 0 <= p < PRIORITIES ensures queues[p] == [] { ZeroHasNone(p); }
      } else {
        assert HasBit(group, Lowest(group));
      }
    }

    /** rt_schedule; a context switch is the assignment to `current`. */
    method Schedule()
      requires Valid()
      modifies `threads, `queues, `waits, `defunct, `group, `current
      ensures Ready(old(Abs())) && Abs() == Sched.Schedule(old(Abs()))
      ensures Valid() && Rescheduled(old(Abs()), Abs())
    {
      ghost var k := Abs();
      ScheduleOk(k);
      ScheduleMeans(k);
      GroupEmpty();
      if lock == 0 && group != 0 {
        var to, p := Highest();
        OwnQueueOnly(k, current);
        if Stays(threads[current], p) {
          UnlinkAlone(k, current);
          RemoveThread(current);
          threads := threads[current := threads[current].(stat := RUNNING)];
          assert threads == k.threads;
        } else {
          assert QueueOk(k, k.limbo.Keys, p) && to in k.queues[p];
          SwitchTo(to);
        }
      }
    }

    method SwitchTo(to: Tid)
      requires Valid() && Queueable(Abs(), to) && threads[current].prio < PRIORITIES
      modifies `threads, `queues, `waits, `defunct, `group, `current
      ensures Abs() == Switch(old(Abs()), to) && GroupOk() && MaskOk()
    {
      ghost var k := Abs();
      OwnQueueOnly(k, to);
      OwnQueueOnly(k, current);
      var from := current;
      var insert := threads[from].stat == RUNNING;
      if insert {
        threads := threads[from := threads[from].(yielded := false)];
      }
      current := to;
      if insert {
        InsertThread(from);
      }
      StartRunning(to);
    }

    method StartRunning(to: Tid)
      requires GroupOk() && MaskOk() && to in threads && threads[to].stat == READY && threads[to].prio < PRIORITIES
      requires forall p :: 0 <= p < PRIORITIES && to in queues[p] ==> p == threads[to].prio
      modifies `threads, `queues, `waits, `defunct, `group
      ensures var u := Unlink(old(Abs()), to); Abs() == SetThread(u, to, u.threads[to].(stat := RUNNING))
      ensures GroupOk() && MaskOk()
    {
      RemoveThread(to);
      threads := threads[to := threads[to].(stat := RUNNING)];
    }

    /** rt_thread_suspend */
    method SuspendThread(t: Tid) returns (ok: bool)
      requires Valid() && Sched.Free(Abs(), t)
      modifies `threads, `queues, `waits, `defunct, `group
      ensures Valid() && Abs() == Suspend(old(Abs()), t)
      ensures t in old(Abs()).threads && Suspended(old(Abs()), Abs(), t)
      ensures ok == (old(threads)[t].stat == READY || old(threads)[t].stat == RUNNING)
    {
      SuspendOk(Abs(), t);
      SuspendMeans(Abs(), t);
      OwnQueueOnly(Abs(), t);
      ok := threads[t].stat == READY || threads[t].stat == RUNNING;
      if ok {
        RemoveThread(t);
        threads := threads[t := threads[t].(stat := SUSPEND)];
      }
    }

    /** rt_thread_resume where the caller holds interrupts off. */
    method ResumeThread(t: Tid) returns (ok: bool)
      requires Valid() && Sched.Free(Abs(), t)
      modifies `threads, `queues, `waits, `defunct, `group
      ensures t in old(threads) && old(threads)[t].prio < |old(queues)| && Abs() == Resume(old(Abs()), t)
      ensures Valid() && ok == (old(threads)[t].stat == SUSPEND) && Resumed(old(Abs()), Abs(), t)
    {
      ResumeOk(Abs(), t);
      ResumeMeans(Abs(), t);
      OwnQueueOnly(Abs(), t);
      ok := threads[t].stat == SUSPEND;
      if ok {
        MakeReady(t);
      }
    }

    method MakeReady(t: Tid)
      requires GroupOk() && MaskOk() && t in threads && threads[t].prio < PRIORITIES && threads[t].stat == SUSPEND
      requires forall p :: 0 <= p < PRIORITIES ==> t !in queues[p]
      modifies `threads, `queues, `waits, `defunct, `group
      ensures t in old(threads) && old(threads)[t].prio < |old(queues)| && Abs() == InsertReady(Unlink(old(Abs()), t), t)
      ensures GroupOk() && MaskOk()
    {
      assert forall p :: 0 <= p < PRIORITIES ==> Drop(queues[p], t) == queues[p];
      UnlinkNode(t);
      InsertThread(t);
    }

    /** rt_thread_control, command RT_THREAD_CTRL_CHANGE_PRIORITY */
    method SetPriority(t: Tid, p: nat)
      requires Valid() && Sched.Free(Abs(), t) && p < PRIORITIES
      modifies `threads, `queues, `waits, `defunct, `group, `mask
      ensures Valid() && Abs() == ChangePriority(old(Abs()), t, p)
      ensures t in old(Abs()).threads && Reprioritized(old(Abs()), Abs(), t, p)
      ensures mask == old(mask)[t := Mask(p)]
    {
      ChangePriorityOk(Abs(), t, p);
      ChangePriorityMeans(Abs(), t, p);
      OwnQueueOnly(Abs(), t);
      if threads[t].stat == READY {
        Requeue(t, p);
      } else {
        threads := threads[t := threads[t].(prio := p)];
        mask := mask[t := Mask(p)];
      }
    }

    method Requeue(t: Tid, p: nat)
      requires GroupOk() && MaskOk() && t in threads && threads[t].prio < PRIORITIES && threads[t].stat == READY && p < PRIORITIES
      requires forall q :: 0 <= q < PRIORITIES && t in queues[q] ==> q == threads[t].prio
      modifies `threads, `queues, `waits, `defunct, `group, `mask
      ensures t in old(threads) && p < |old(queues)| && Abs() == ChangePriority(old(Abs()), t, p)
      ensures GroupOk() && MaskOk() && mask == old(mask)[t := Mask(p)]
    {
      RemoveThread(t);
      threads := threads[t := threads[t].(prio := p)];
      mask := mask[t := Mask(p)];
      InsertThread(t);
    }

    /** The first section of rt_thread_delete. */
    method DeleteOffSection(t: Tid)
      requires Valid() && Legal(Abs(), DeleteOff(t))
      modifies `queues, `waits, `defunct, `group, `limbo
      ensures Inv(old(Abs())) && Legal(old(Abs()), DeleteOff(t)) && Abs() == Step(old(Abs()), DeleteOff(t))
      ensures Valid()
    {
      StepOk(Abs(), DeleteOff(t));
      OwnQueueOnly(Abs(), t);
      if threads[t].stat != INIT {
        RemoveThread(t);
      } else {
        UnlinkAlone(Abs(), t);
      }
      limbo := limbo[t := Deleting];
    }

    /** Its second section. */
    method DeleteEndSection(t: Tid)
      requires Valid() && Legal(Abs(), DeleteEnd(t))
      modifies `threads, `defunct, `limbo
      ensures Inv(old(Abs())) && Legal(old(Abs()), DeleteEnd(t)) && Abs() == Step(old(Abs()), DeleteEnd(t))
      ensures Valid()
    {
      StepOk(Abs(), DeleteEnd(t));
      CloseThread(t);
      limbo := limbo - {t};
    }

    method CloseThread(t: Tid)
      requires t in threads
      modifies `threads, `defunct
      ensures Abs() == Close(old(Abs()), t) && (old(MaskOk()) ==> MaskOk())
    {
      threads := threads[t := threads[t].(stat := CLOSE, yielded := false)];
      defunct := [t] + defunct;
    }

    /** The first section of rt_thread_resume. */
    method ResumeOffSection(t: Tid)
      requires Valid() && Legal(Abs(), ResumeOff(t))
      modifies `queues, `waits, `defunct, `limbo
      ensures Inv(old(Abs())) && Legal(old(Abs()), ResumeOff(t)) && Abs() == Step(old(Abs()), ResumeOff(t))
      ensures Valid()
    {
      StepOk(Abs(), ResumeOff(t));
      OwnQueueOnly(Abs(), t);
      assert forall p :: 0 <= p < PRIORITIES ==> Drop(queues[p], t) == queues[p];
      UnlinkNode(t);
      limbo := limbo[t := Resuming];
    }

    /** Its second section, rt_schedule_insert_thread. */
    method ResumeEndSection(t: Tid)
      requires Valid() && Legal(Abs(), ResumeEnd(t))
      modifies `threads, `queues, `group, `limbo
      ensures Inv(old(Abs())) && Legal(old(Abs()), ResumeEnd(t)) && Abs() == Step(old(Abs()), ResumeEnd(t))
      ensures Valid()
    {
      StepOk(Abs(), ResumeEnd(t));
      OwnQueueOnly(Abs(), t);
      limbo := limbo - {t};
      InsertThread(t);
    }

    /** rt_thread_delete where the caller holds interrupts off or deletes itself. */
    method DeleteThread(t: Tid)
      requires Valid() && Sched.Free(Abs(), t) && threads[t].stat != CLOSE
      modifies `threads, `queues, `waits, `defunct, `group
      ensures Valid() && Abs() == Delete(old(Abs()), t)
      ensures t in old(Abs()).threads && Closed(old(Abs()), Abs(), t)
    {
      DeleteOk(Abs(), t);
      DeleteMeans(Abs(), t);
      OwnQueueOnly(Abs(), t);
      if threads[t].stat != INIT {
        RemoveThread(t);
      } else {
        UnlinkAlone(Abs(), t);
      }
      CloseThread(t);
    }

    /** rt_thread_exit */
    method ExitThread()
      requires Valid() && threads[current].stat != CLOSE
      modifies this
      ensures Inv(old(Abs())) && Legal(old(Abs()), Exit) && Abs() == Step(old(Abs()), Exit)
      ensures Valid()
    {
      DeleteThread(current);
      Schedule();
    }

    /** rt_thread_startup */
    method StartupThread(t: Tid)
      requires Valid() && Sched.Free(Abs(), t) && threads[t].stat == INIT
      modifies this
      ensures Inv(old(Abs())) && Legal(old(Abs()), Startup(t)) && Abs() == Step(old(Abs()), Startup(t))
      ensures Valid()
    {
      StartupOk(Abs(), t);
      ghost var r := threads[t];
      threads := threads[t := threads[t].(prio := threads[t].initPrio)];
      mask := mask[t := Mask(threads[t].prio)];
      threads := threads[t := threads[t].(stat := SUSPEND, yielded := false)];
      assert threads == old(threads)[t := r.(prio := r.initPrio, stat := SUSPEND, yielded := false)];
      var _ := ResumeThread(t);
      Schedule();
    }

    /** rt_thread_timeout: the thread's timer has fired. */
    method TimeoutThread(t: Tid)
      requires Valid() && Sched.Free(Abs(), t) && threads[t].stat == SUSPEND
      modifies this
      ensures Inv(old(Abs())) && Legal(old(Abs()), Timeout(t)) && Abs() == Step(old(Abs()), Timeout(t))
      ensures Valid()
    {
      var _ := ResumeThread(t);
      Schedule();
    }

    /** The blocking part of an IPC call: suspend the caller, list it, schedule. */
    method BlockCurrent(o: int)
      requires Valid() && threads[current].stat == RUNNING
      modifies this
      ensures Inv(old(Abs())) && Legal(old(Abs()), BlockOn(o)) && Abs() == Step(old(Abs()), BlockOn(o))
      ensures Valid()
    {
      BlockOk(Abs(), o);
      var t := current;
      var _ := SuspendThread(t);
      waits := waits[o := (if o in waits then waits[o] else []) + [t]];
      Schedule();
    }

    /** rt_enter_critical */
    method EnterCritical()
      requires Valid()
      modifies `lock
      ensures Valid() && Abs() == Step(old(Abs()), Enter)
    {
      LockOk(Abs(), lock + 1);
      lock := lock + 1;
    }

    /** rt_exit_critical */
    method ExitCritical()
      requires Valid()
      modifies this
      ensures Inv(old(Abs())) && Abs() == Step(old(Abs()), Leave)
      ensures Valid()
    {
      LockOk(Abs(), if lock - 1 <= 0 then 0 else lock - 1);
      lock := lock - 1;
      if lock <= 0 {
        lock := 0;
        Schedule();
      }
    }

    /** rt_tick_increase up to the timer check. */
    method TickIncrease()
      requires Valid() && threads[current].left > 0
      modifies this
      ensures Inv(old(Abs())) && Legal(old(Abs()), Tick) && Abs() == Step(old(Abs()), Tick)
      ensures Valid()
    {
      ChargeOk(Abs());
      var t := current;
      threads := threads[t := threads[t].(left := threads[t].left - 1)];
      if threads[t].left == 0 {
        threads := threads[t := threads[t].(left := threads[t].slice)];
        threads := threads[t := threads[t].(yielded := true)];
        assert threads == Charge(old(Abs())).threads;
        Schedule();
      }
    }
  }
}