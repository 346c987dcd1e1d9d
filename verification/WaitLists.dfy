/** The list of threads suspended on an IPC object, and the order in which rt_ipc_list_suspend keeps
    it. */
module WaitLists {
  import opened Seqs

  type Tid = int

  datatype Flag = FIFO | PRIO

  /** A suspended thread with its priority; `order` numbers the arrivals. */
  datatype Waiter = Waiter(t: Tid, prio: nat, order: nat)

  /** `a` is to be woken before `b`: first come first served, or by priority with ties by arrival. */
  predicate Before(flag: Flag, a: Waiter, b: Waiter) {
    match flag
    case FIFO => a.order < b.order
    case PRIO => a.prio < b.prio || (a.prio == b.prio && a.order < b.order)
  }

  ghost predicate Sorted(flag: Flag, q: seq<Waiter>) {
    forall i, j :: 0 <= i < j < |q| ==> Before(flag, q[i], q[j])
  }

  function Ids(q: seq<Waiter>): set<Tid> { set w | w in q :: w.t }

  ghost predicate Once(q: seq<Waiter>) { forall i, j :: 0 <= i < j < |q| ==> q[i].t != q[j].t }

  /** How many waiters the new one goes behind. */
  function Rank(flag: Flag, q: seq<Waiter>, w: Waiter): (r: nat)
    ensures r <= |q|
    ensures flag == PRIO ==> (forall i :: 0 <= i < r ==> q[i].prio <= w.prio) && (r < |q| ==> w.prio < q[r].prio)
    ensures flag == FIFO ==> r == |q|
  {
    if q == [] then 0 else if flag == PRIO && w.prio < q[0].prio then 0 else 1 + Rank(flag, q[1..], w)
  }

  function Enlist(flag: Flag, q: seq<Waiter>, w: Waiter): seq<Waiter> { InsertAt(q, Rank(flag, q, w), w) }

  /** The search loop of rt_ipc_list_suspend. */
  method Place(flag: Flag, q: seq<Waiter>, w: Waiter) returns (r: nat)
    ensures r == Rank(flag, q, w)
  {
    if flag == FIFO {
      return |q|;
    }
    r := 0;
    while r < |q| && !(w.prio < q[r].prio)
      invariant 0 <= r <= |q|
      invariant Rank(flag, q, w) == r + Rank(flag, q[r..], w)
    {
      assert q[r..][1..] == q[r + 1..];
      r := r + 1;
    }
  }

  /** A later arrival is listed so that the list stays in wake-up order. */
  lemma EnlistSorted(flag: Flag, q: seq<Waiter>, w: Waiter)
    requires Sorted(flag, q) && forall i :: 0 <= i < |q| ==> q[i].order < w.order
    ensures Sorted(flag, Enlist(flag, q, w))
  {
    var r, s := Rank(flag, q, w), Enlist(flag, q, w);
    forall i, j | 0 <= i < j < |s| ensures Before(flag, s[i], s[j]) {
      var i', j' := if i < r then i else i - 1, if j < r then j else j - 1;
      if i == r {
        assert s[j] == q[j'];
        assert r < j' ==> Before(flag, q[r], q[j']);
      } else if j != r {
        assert s[i] == q[i'] && s[j] == q[j'];
      }
    }
  }

  lemma EnlistMembers(flag: Flag, q: seq<Waiter>, w: Waiter)
    requires Once(q) && w.t !in Ids(q)
    ensures Once(Enlist(flag, q, w))
    ensures forall x :: x in Enlist(flag, q, w) <==> x in q || x == w
    ensures Ids(Enlist(flag, q, w)) == Ids(q) + {w.t}
  {
    var r, s := Rank(flag, q, w), Enlist(flag, q, w);
    assert Distinct(q) && w !in q;
    InsertAtElements(q, r, w);
    forall i, j | 0 <= i < j < |s| ensures s[i].t != s[j].t {
      var i', j' := if i < r then i else i - 1, if j < r then j else j - 1;
      if i == r {
        assert s[j] == q[j'] && q[j'] in q;
      } else if j == r {
        assert s[i] == q[i'] && q[i'] in q;
      } else {
        assert s[i] == q[i'] && s[j] == q[j'];
      }
    }
  }

  function Find(q: seq<Waiter>, t: Tid): (i: nat)
    requires t in Ids(q)
    ensures i < |q| && q[i].t == t
  {
    if q[0].t == t then 0 else
      assert t in Ids(q[1..]) by { var w :| w in q && w.t == t; assert w in q[1..]; }
      1 + Find(q[1..], t)
  }

  /** Taking a thread off the list, wherever it is. */
  function Delist(q: seq<Waiter>, t: Tid): seq<Waiter> {
    if t in Ids(q) then RemoveAt(q, Find(q, t)) else q
  }

  lemma RemoveSorted(flag: Flag, q: seq<Waiter>, k: nat)
    requires Sorted(flag, q) && Once(q) && k < |q|
    ensures Sorted(flag, RemoveAt(q, k)) && Once(RemoveAt(q, k))
  {
    var s := RemoveAt(q, k);
    forall i, j | 0 <= i < j < |s| ensures Before(flag, s[i], s[j]) && s[i].t != s[j].t {
      var i', j' := if i < k then i else i + 1, if j < k then j else j + 1;
      assert s[i] == q[i'] && s[j] == q[j'];
    }
  }

  lemma RemoveOthers(q: seq<Waiter>, k: nat)
    requires Once(q) && k < |q|
    ensures forall x :: x in RemoveAt(q, k) <==> x in q && x.t != q[k].t
  {
    assert Distinct(q);
    RemoveAtElements(q, k);
    forall x | x in q && x != q[k] ensures x.t != q[k].t {
      var i := IndexOf(q, x);
      assert i < k || k < i;
    }
  }

  lemma DelistOk(flag: Flag, q: seq<Waiter>, t: Tid)
    requires Sorted(flag, q) && Once(q)
    ensures Sorted(flag, Delist(q, t)) && Once(Delist(q, t))
    ensures forall x :: x in Delist(q, t) <==> x in q && x.t != t
    ensures Ids(Delist(q, t)) == Ids(q) - {t}
  {
    if t in Ids(q) {
      RemoveSorted(flag, q, Find(q, t));
      RemoveOthers(q, Find(q, t));
    }
  }

  /** The head of the list comes before everybody else on it. */
  lemma HeadFirst(flag: Flag, q: seq<Waiter>, w: Waiter)
    requires Sorted(flag, q) && Once(q) && q != [] && w in q[1..]
    ensures Before(flag, q[0], w) && w.t != q[0].t
  {
    var i := IndexOf(q[1..], w);
    assert q[i + 1] == w;
  }

  lemma TailOk(flag: Flag, q: seq<Waiter>)
    requires Sorted(flag, q) && Once(q) && q != []
    ensures Sorted(flag, q[1..]) && Once(q[1..]) && Ids(q[1..]) == Ids(q) - {q[0].t}
    ensures q[0].t in Ids(q) && forall x :: x in q[1..] <==> x in q && x != q[0]
  {
    var s := q[1..];
    forall i, j | 0 <= i < j < |s| ensures Before(flag, s[i], s[j]) && s[i].t != s[j].t {
      assert s[i] == q[i + 1] && s[j] == q[j + 1];
    }
    assert q[0] in q && q == [q[0]] + s;
    forall x | x in s ensures x.t != q[0].t { HeadFirst(flag, q, x); }
  }
}
