/** rt_mutex_take, rt_mutex_release and rt_thread_timeout as they update the mutex and the threads. */
module Mutex {
  import opened Seqs
  import opened WaitLists
  import opened MutexModel
  import MutexEffects

  class Mutex {
    const flag: Flag
    var value: nat
    var owner: Owner
    var hold: nat
    var original: nat
    var waiters: seq<Waiter>
    var arrivals: nat
    var prio: map<Tid, nat>
    var phase: map<Tid, Phase>
    var error: map<Tid, Err>

    ghost function State(): MutexModel.State
      reads this
    {
      MutexModel.State(flag, value, owner, hold, original, waiters, arrivals, prio, phase, error)
    }

    constructor (flag: Flag, base: map<Tid, nat>)
      ensures State() == Init(flag, base) && Inv(State(), base)
    {
      this.flag := flag;
      value, owner, hold, original := 1, Nobody, 0, NO_PRIORITY;
      waiters, arrivals := [], 0;
      prio := base;
      phase := map t | t in base :: Free;
      error := map t | t in base :: EOK;
      InitOk(flag, base);
    }

    /** The owner counts one more hold; a free mutex becomes the caller's; on a taken one the caller gives
        up at once, or sleeps and lends the owner its priority. */
    method TakeFor(t: Tid, time: int, ghost base: map<Tid, nat>)
      requires Inv(State(), base) && Legal(State(), TakeBy(t, time))
      modifies this
      ensures Inv(State(), base) && State() == Take(old(State()), t, time)
      ensures Known(old(State()), t) && (old(owner).Held? ==> old(owner).t in old(prio)) && MutexEffects.Taken(old(State()), State(), t, time)
      ensures old(owner) == Held(t) ==> owner == Held(t) && hold == old(hold) + 1
      ensures old(owner) == Nobody ==> owner == Held(t) && hold == 1 && value == 0
    {
      TakeOk(State(), base, t, time);
      MutexEffects.TakeMeans(State(), base, t, time);
      Acquire(t, time);
    }

    /** The stores of rt_mutex_take. */
    method Acquire(t: Tid, time: int)
      requires Known(State(), t) && (value == 0 ==> owner.Held? && owner.t in prio)
      modifies this
      ensures State() == Take(old(State()), t, time)
    {
      error := error[t := EOK];
      if owner == Held(t) {
        hold := hold + 1;
      } else if value > 0 {
        value := value - 1;
        owner := Held(t);
        original := prio[t];
        hold := hold + 1;
      } else if time == 0 {
        error := error[t := ETIMEOUT];
      } else {
        Sleep(t, time);
      }
      assert error == Take(old(State()), t, time).error;
    }

    /** The caller joins the list, and the owner inherits its priority if that is better. */
    method Sleep(t: Tid, time: int)
      requires t in prio && t in phase && owner.Held? && owner.t in prio
      modifies `prio, `waiters, `arrivals, `phase
      ensures prio == if old(prio)[t] < old(prio)[owner.t] then old(prio)[owner.t := old(prio)[t]] else old(prio)
      ensures waiters == Enlist(flag, old(waiters), Waiter(t, old(prio)[t], old(arrivals))) && arrivals == old(arrivals) + 1
      ensures phase == old(phase)[t := Waiting(time > 0)]
    {
      var w := Waiter(t, prio[t], arrivals);
      if prio[t] < prio[owner.t] {
        prio := prio[owner.t := prio[t]];
      }
      var r := Place(flag, waiters, w);
      waiters := InsertAt(waiters, r, w);
      arrivals := arrivals + 1;
      phase := phase[t := Waiting(time > 0)];
    }

    /** The last release by the owner puts it back to its own priority and hands the mutex to the first
        waiter in wake-up order, or frees it; the release of an inner take only counts down; anybody else is
        refused. */
    method ReleaseFor(t: Tid, ghost base: map<Tid, nat>) returns (ok: bool)
      requires Inv(State(), base) && Legal(State(), ReleaseBy(t))
      modifies this
      ensures Inv(State(), base) && State() == Release(old(State()), t)
      ensures ok == (old(owner) == Held(t)) && (!ok ==> owner == old(owner) && waiters == old(waiters) && prio == old(prio))
      ensures t in base && MutexEffects.Released(old(State()), State(), base, t)
      ensures ok && old(hold) > 1 ==> owner == Held(t) && hold == old(hold) - 1 && waiters == old(waiters) && prio == old(prio) && phase == old(phase)
      ensures ok && old(hold) == 1 ==> prio[t] == base[t] && owner == (if old(waiters) == [] then Nobody else Held(old(waiters)[0].t))
      ensures ok && old(hold) == 1 && old(waiters) != [] ==> forall w :: w in waiters ==> Before(flag, old(waiters)[0], w)
    {
      ReleaseMeans(State(), base, t);
      MutexEffects.ReleaseExact(State(), base, t);
      ok := LetGo(t);
    }

    /** The stores of rt_mutex_release. */
    method LetGo(t: Tid) returns (ok: bool)
      requires Known(State(), t) && (owner == Held(t) ==> hold > 0) && forall w :: w in waiters ==> Known(State(), w.t)
      modifies this
      ensures State() == Release(old(State()), t) && ok == (old(owner) == Held(t))
    {
      ok := owner == Held(t);
      if !ok {
        error := error[t := ERROR];
        return;
      }
      hold := hold - 1;
      if hold == 0 {
        if original != prio[t] {
          prio := prio[t := original];
        }
        if waiters != [] {
          var w := waiters[0];
          assert w in waiters && Known(old(State()), w.t);
          owner := Held(w.t);
          original := prio[w.t];
          hold := hold + 1;
          waiters := waiters[1..];
          phase := phase[w.t := Resuming];
        } else {
          value := value + 1;
          owner := Nobody;
          original := NO_PRIORITY;
        }
        assert prio == Release(old(State()), t).prio;
      }
    }

    /** The thread leaves the list with an error and without the mutex; everybody else stays listed and
        the owner stays the owner. */
    method TimeoutFor(t: Tid, ghost base: map<Tid, nat>)
      requires Inv(State(), base) && Legal(State(), TimeoutOf(t))
      modifies this
      ensures Inv(State(), base) && State() == Timeout(old(State()), t)
      ensures owner == old(owner) != Held(t) && error[t] == ETIMEOUT
      ensures forall w :: w in waiters <==> w in old(waiters) && w.t != t
    {
      TimeoutOk(State(), base, t);
      DelistOk(flag, waiters, t);
      error := error[t := ETIMEOUT];
      waiters := Delist(waiters, t);
      phase := phase[t := Resuming];
    }

    /** A taker that had to wait comes back: with RT_EOK it is the owner, otherwise it is not. */
    method ReturnFrom(t: Tid, ghost base: map<Tid, nat>) returns (e: Err)
      requires Inv(State(), base) && Legal(State(), ReturnOf(t))
      modifies this
      ensures State() == Return(old(State()), t)
      ensures e == EOK <==> owner == Held(t)
    {
      ReturnOk(State(), base, t);
      e := error[t];
      phase := phase[t := Free];
    }
  }
}
