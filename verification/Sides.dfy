/** One side (the senders, or the receivers) of an IPC object that hands out counted items: the threads
    blocked on it, and those woken but not yet running again, for whom nothing is reserved. */
module Sides {
  import opened WaitLists

  datatype Side = Side(flag: Flag, waiters: seq<Waiter>, arrivals: nat, woken: set<Tid>)

  function Members(s: Side): set<Tid> { Ids(s.waiters) + s.woken }

  /** No wakeup is lost: while somebody is blocked, every item that is there has a woken thread on its
      way to it. */
  ghost predicate SideOk(s: Side, items: nat) {
    && Sorted(s.flag, s.waiters) && Once(s.waiters)
    && (forall w :: w in s.waiters ==> w.order < s.arrivals)
    && Ids(s.waiters) !! s.woken
    && (s.waiters != [] ==> items <= |s.woken|)
  }

  /** rt_ipc_list_suspend */
  function Block(s: Side, t: Tid, prio: nat): Side {
    s.(waiters := Enlist(s.flag, s.waiters, Waiter(t, prio, s.arrivals)), arrivals := s.arrivals + 1)
  }

  /** rt_ipc_list_resume, if anybody is waiting. */
  function WakeOne(s: Side): Side {
    if s.waiters == [] then s else s.(waiters := s.waiters[1..], woken := s.woken + {s.waiters[0].t})
  }

  /** rt_ipc_list_resume_all: everybody leaves with an error. */
  function WakeAll(s: Side): Side { s.(waiters := []) }

  /** A timeout takes a blocked thread off the list. */
  function Leave(s: Side, t: Tid): Side { s.(waiters := Delist(s.waiters, t)) }

  /** A woken thread runs again. */
  function Proceed(s: Side, t: Tid): Side { s.(woken := s.woken - {t}) }

  lemma NobodyOk(flag: Flag, items: nat)
    ensures SideOk(Side(flag, [], 0, {}), items) && Members(Side(flag, [], 0, {})) == {}
  {
  }

  lemma BlockOk(s: Side, t: Tid, prio: nat)
    requires SideOk(s, 0) && t !in Members(s)
    ensures SideOk(Block(s, t, prio), 0) && Members(Block(s, t, prio)) == Members(s) + {t}
    ensures Block(s, t, prio).woken == s.woken
  {
    var w, e := Waiter(t, prio, s.arrivals), Enlist(s.flag, s.waiters, Waiter(t, prio, s.arrivals));
    EnlistSorted(s.flag, s.waiters, w);
    EnlistMembers(s.flag, s.waiters, w);
    Joined(s, w, e);
  }

  lemma Joined(s: Side, w: Waiter, e: seq<Waiter>)
    requires SideOk(s, 0) && w.t !in Members(s) && w.order == s.arrivals
    requires Sorted(s.flag, e) && Once(e) && Ids(e) == Ids(s.waiters) + {w.t} && forall x :: x in e ==> x in s.waiters || x == w
    ensures var r := s.(waiters := e, arrivals := s.arrivals + 1); SideOk(r, 0) && Members(r) == Members(s) + {w.t}
  {
  }

  /** One more item is paid for by one more woken thread; it is the first of the list order. */
  lemma WakeOneOk(s: Side, items: nat)
    requires SideOk(s, items)
    ensures SideOk(WakeOne(s), items + 1) && Members(WakeOne(s)) == Members(s) && s.woken <= WakeOne(s).woken
    ensures s.waiters != [] ==> forall w :: w in s.waiters[1..] ==> Before(s.flag, s.waiters[0], w)
  {
    if s.waiters != [] {
      TailOk(s.flag, s.waiters);
      assert |s.woken + {s.waiters[0].t}| == |s.woken| + 1;
      forall w | w in s.waiters[1..] ensures Before(s.flag, s.waiters[0], w) { HeadFirst(s.flag, s.waiters, w); }
    }
  }

  lemma LeaveOk(s: Side, t: Tid, items: nat)
    requires SideOk(s, items) && t in Ids(s.waiters)
    ensures SideOk(Leave(s, t), items) && Members(Leave(s, t)) == Members(s) - {t}
  {
    DelistOk(s.flag, s.waiters, t);
  }

  /** A woken thread that runs again uses an item, unless others have taken them all. */
  lemma ProceedOk(s: Side, t: Tid, items: nat)
    requires SideOk(s, items) && t in s.woken
    ensures SideOk(Proceed(s, t), if items == 0 then 0 else items - 1) && Members(Proceed(s, t)) == Members(s) - {t}
  {
    assert |s.woken - {t}| == |s.woken| - 1;
  }

  /** The sets agree on everybody but t. */
  ghost predicate Same(a: set<Tid>, b: set<Tid>, t: Tid) { forall u :: u != t ==> (u in a <==> u in b) }

  /** What is left once one item has been used. */
  function Less(n: nat): nat { if n == 0 then 0 else n - 1 }

  lemma LeftOk(s: Side, t: Tid, items: nat)
    requires SideOk(s, items) && (t in Members(s) ==> t in Ids(s.waiters))
    ensures SideOk(Leave(s, t), items) && Same(Members(s), Members(Leave(s, t)), t) && t !in Members(Leave(s, t))
  {
    if t in Ids(s.waiters) { LeaveOk(s, t, items); }
  }

  /** Everybody in `who` is sent to phase p. */
  function SendAll<P>(phase: map<Tid, P>, who: set<Tid>, p: P): map<Tid, P> {
    map u | u in phase :: if u in who then p else phase[u]
  }

  // --- what a section does to a side ---

  /** The first of the list, if there is one, is woken. */
  ghost predicate WokeFirst(a: Side, b: Side) {
    && b.flag == a.flag && b.arrivals == a.arrivals
    && if a.waiters == [] then b == a else [a.waiters[0]] + b.waiters == a.waiters && b.woken == a.woken + {a.waiters[0].t}
  }

  ghost predicate JoinedBy(a: Side, b: Side, t: Tid, prio: nat) {
    && b.flag == a.flag && b.woken == a.woken && b.arrivals == a.arrivals + 1
    && forall w :: w in b.waiters <==> w in a.waiters || w == Waiter(t, prio, a.arrivals)
  }

  ghost predicate LeftBy(a: Side, b: Side, t: Tid) {
    b.flag == a.flag && b.woken == a.woken && b.arrivals == a.arrivals && forall w :: w in b.waiters <==> w in a.waiters && w.t != t
  }

  /** A woken thread counts as woken no more once it runs. */
  function Up(a: Side, t: Tid): Side { a.(woken := a.woken - {t}) }

  lemma WokeMeans(a: Side)
    ensures WokeFirst(a, WakeOne(a))
  {
  }

  lemma LeaveMeans(a: Side, t: Tid)
    requires Sorted(a.flag, a.waiters) && Once(a.waiters)
    ensures LeftBy(a, Leave(a, t), t)
  {
    if t in Ids(a.waiters) { DelistOk(a.flag, a.waiters, t); }
  }
}
