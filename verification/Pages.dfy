/** The page allocator of slab.c: the free runs linked through their own first pages. */
module Pages {
  import opened Seqs
  import opened Chain
  import opened PageModel

  function Ats(s: seq<Run>): (r: seq<Node>)
    ensures |r| == |s| && forall i :: 0 <= i < |s| ==> r[i] == s[i].at
  {
    seq(|s|, i requires 0 <= i < |s| => s[i].at)
  }

  /** Every run's first page holds its length. */
  ghost predicate Sized(page: map<Node, nat>, s: seq<Run>) {
    forall i :: 0 <= i < |s| ==> s[i].at in page && page[s[i].at] == s[i].n
  }

  ghost predicate Rep(next: map<Node, Node>, page: map<Node, nat>, list: Node, s: seq<Run>) {
    IsChain(next, list, Ats(s)) && Sized(page, s)
  }

  function PrevOf(s: seq<Run>, k: nat): Node
    requires k <= |s|
  {
    if k == 0 then Null else s[k - 1].at
  }

  /** Nodes before position k keep their links and lengths. */
  ghost predicate Kept(was: map<Node, Node>, next: map<Node, Node>, page: map<Node, nat>, s: seq<Run>, k: nat)
    requires k <= |s|
  {
    forall i :: 0 <= i < k ==> s[i].at in was && s[i].at in next && next[s[i].at] == was[s[i].at] && s[i].at in page && page[s[i].at] == s[i].n
  }

  /** Continuing with the runs u, which start at x, from position k on: `*prev = x`. */
  lemma Relinked(was: map<Node, Node>, wasPage: map<Node, nat>, list: Node, s: seq<Run>, k: nat,
                 next: map<Node, Node>, page: map<Node, nat>, u: seq<Run>, x: Node)
    requires Rep(was, wasPage, list, s) && k <= |s| && Rep(next, page, x, u)
    requires Kept(was, next, page, s, k) && forall i :: 0 <= i < k ==> s[i].at !in Ats(u)
    ensures k == 0 ==> Rep(next, page, x, s[..k] + u)
    ensures k > 0 ==> s[k - 1].at != Null && Rep(next[s[k - 1].at := x], page, list, s[..k] + u)
  {
    var a := Ats(s);
    assert Ats(s[..k] + u) == a[..k] + Ats(u);
    if k == 0 {
      assert s[..k] + u == u;
    } else {
      assert a[k - 1] == s[k - 1].at && a[k - 1] != Null;
      Spliced(was, list, a, k, next, Ats(u));
      var e := s[..k] + u;
      forall i | 0 <= i < |e| ensures e[i].at in page && page[e[i].at] == e[i].n {
        if i < k { assert e[i] == s[i]; } else { assert e[i] == u[i - k]; }
      }
    }
  }

  class PageList {
    var next: map<Node, Node>
    var page: map<Node, nat>
    var list: Node
    ghost var runs: seq<Run>

    ghost predicate Valid()
      reads this
    {
      Coalesced(runs) && (forall i :: 0 <= i < |runs| ==> runs[i].at > Null) && Rep(next, page, list, runs)
    }

    /** rt_page_init */
    constructor (a: Node, npages: nat)
      requires a > Null && npages > 0
      ensures Valid() && runs == [Run(a, npages)]
    {
      next, page, list, runs := map[], map[], Null, [];
      new;
      PageFree(a, npages);
    }

    /** The walk of rt_page_alloc to the first run that is large enough. */
    method Seek(npages: nat) returns (prev: Node, b: Node, ghost k: nat)
      requires Rep(next, page, list, runs)
      ensures k <= |runs| && prev == PrevOf(runs, k) && b == (if k < |runs| then runs[k].at else Null) && (b == Null <==> k == |runs|)
      ensures (forall i :: 0 <= i < k ==> runs[i].n < npages) && (k < |runs| ==> runs[k].n >= npages)
    {
      prev, b, k := Null, list, 0;
      ghost var a := Ats(runs);
      while b != Null && page[b] < npages
        invariant k <= |runs| && prev == PrevOf(runs, k) && b == (if k < |runs| then a[k] else Null)
        invariant forall i :: 0 <= i < k ==> runs[i].n < npages
        decreases |runs| - k
      {
        assert runs[k].at == b && next[b] == After(a, k);
        prev, b, k := b, next[b], k + 1;
      }
      assert k < |runs| ==> a[k] != Null && runs[k].at in page;
    }

    /** rt_page_alloc */
    method PageAlloc(npages: nat) returns (r: Node)
      requires Valid()
      modifies this
      ensures npages == 0 ==> r == Null && runs == old(runs)
      ensures npages > 0 ==> runs == Alloc(old(runs), npages).0 && r == match Alloc(old(runs), npages).1 case None => Null case Some(at) => at
      ensures Valid()
    {
      if npages == 0 {
        return Null;
      }
      AllocPositive(runs, npages);
      var prev, b, k := Seek(npages);
      AllocAt(runs, npages, k);
      r := b;
      if b == Null {
        return;
      }
      if page[b] > npages {
        Split(npages, prev, b, k);
      } else {
        Unlink(prev, b, k);
      }
    }

    /** The walk of rt_page_free: past the runs that end before the pages and do not touch them. */
    method Find(a: Node, npages: nat) returns (prev: Node, b: Node, ghost k: nat)
      requires Valid() && npages > 0
      ensures k <= |runs| && prev == PrevOf(runs, k) && b == (if k < |runs| then runs[k].at else Null) && (b == Null <==> k == |runs|)
      ensures forall i :: 0 <= i < k ==> runs[i].at + runs[i].n != a && runs[i].at < a + npages
      ensures k < |runs| ==> runs[k].at + runs[k].n == a || runs[k].at >= a + npages
    {
      prev, b, k := Null, list, 0;
      ghost var ats := Ats(runs);
      while b != Null && b + page[b] != a && b != a + npages && b < a + npages
        invariant k <= |runs| && prev == PrevOf(runs, k) && b == (if k < |runs| then ats[k] else Null)
        invariant forall i :: 0 <= i < k ==> runs[i].at + runs[i].n != a && runs[i].at < a + npages
        decreases |runs| - k
      {
        assert runs[k].at == b && next[b] == After(ats, k);
        prev, b, k := b, next[b], k + 1;
      }
      assert k < |runs| ==> ats[k] != Null && runs[k].at in page;
    }

    /** rt_page_free of pages that are not free. */
    method PageFree(a: Node, npages: nat)
      requires Valid() && npages > 0 && a > Null && forall p :: a <= p < a + npages ==> !Covers(runs, p)
      modifies this
      ensures Valid() && runs == Free(old(runs), a, npages)
    {
      var prev, b, k := Find(a, npages);
      ghost var e, v := FreePlan(runs, a, npages, k);
      FreePositive(runs, a, npages);
      Put(a, npages, prev, b, k, e, v);
      runs := e;
    }

    /** The stores of rt_page_free, from the run at b on. */
    method Put(a: Node, npages: nat, prev: Node, b: Node, ghost k: nat, ghost e: seq<Run>, ghost v: seq<Run>)
      requires Rep(next, page, list, runs) && k <= |runs| && b == (if k < |runs| then runs[k].at else Null) && prev == PrevOf(runs, k)
      requires a > Null && npages > 0 && (b == Null <==> k == |runs|) && (b != Null ==> b > Null)
      requires Plan(runs, a, npages, k, e, v)
      modifies this`next, this`page, this`list
      ensures Rep(next, page, list, e)
    {
      if b != Null && b + page[b] == a {
        Extend(npages, b, k, e);
      } else {
        Before(a, npages, prev, b, k, e, v);
      }
    }

    /** The freed pages become a run of their own in front of b, or the beginning of the run there. */
    method Before(a: Node, npages: nat, prev: Node, b: Node, ghost k: nat, ghost e: seq<Run>, ghost v: seq<Run>)
      requires Rep(next, page, list, runs) && k <= |runs| && b == (if k < |runs| then runs[k].at else Null) && prev == PrevOf(runs, k)
      requires a > Null && (b == Null <==> k == |runs|)
      requires (forall i :: 0 <= i < k ==> runs[i].at < a) && (forall i :: k <= i < |runs| ==> runs[i].at > a)
      requires e == runs[..k] + v
      requires if b != Null && b == a + npages then v == [Run(a, runs[k].n + npages)] + runs[k + 1..] else v == [Run(a, npages)] + runs[k..]
      modifies this`next, this`page, this`list
      ensures Rep(next, page, list, e)
    {
      if b != Null && b == a + npages {
        TailRep(next, page, list, runs, k);
        Link(a, page[b] + npages, next[b], runs[k + 1..], prev, k, e, v);
      } else {
        SuffixRep(next, page, list, runs, k);
        Link(a, npages, b, runs[k..], prev, k, e, v);
      }
    }

    /** The freed pages follow the run at b, and may close the gap to the next one. */
    method Extend(npages: nat, b: Node, ghost k: nat, ghost e: seq<Run>)
      requires Rep(next, page, list, runs) && k < |runs| && b == runs[k].at > Null && npages > 0
      requires if k + 1 < |runs| && b + runs[k].n + npages == runs[k + 1].at then e == Swallowed(With(runs, k, runs[k].n + npages), k)
               else e == With(runs, k, runs[k].n + npages)
      modifies this`next, this`page
      ensures Rep(next, page, list, e)
    {
      ghost var s := With(runs, k, runs[k].n + npages);
      Linked(next, page, list, runs, k);
      Grown(next, page, list, runs, k, runs[k].n + npages);
      assert page[b] == runs[k].n;
      page := page[b := page[b] + npages];
      if b + page[b] == next[b] {
        Absorb(b, k, s, e);
      }
    }

    /** The run at b swallows the one behind it. */
    method Absorb(b: Node, ghost k: nat, ghost s: seq<Run>, ghost e: seq<Run>)
      requires Rep(next, page, list, s) && k + 1 < |s| && b == s[k].at > Null && e == Swallowed(s, k)
      modifies this`next, this`page
      ensures Rep(next, page, list, e)
    {
      Linked(next, page, list, s, k);
      Grown(next, page, list, s, k, s[k].n + s[k + 1].n);
      ghost var w := With(s, k, s[k].n + s[k + 1].n);
      page := page[b := page[b] + page[next[b]]];
      Bypassed(next, page, list, w, k, b);
      next := next[b := next[next[b]]];
    }

    /** A run of m pages at a, leading to x, becomes what `*prev` leads to. */
    method Link(a: Node, m: nat, x: Node, ghost u: seq<Run>, prev: Node, ghost k: nat, ghost e: seq<Run>, ghost v: seq<Run>)
      requires Rep(next, page, list, runs) && k <= |runs| && prev == PrevOf(runs, k) && e == runs[..k] + v && v == [Run(a, m)] + u
      requires Rep(next, page, x, u) && Kept(next, next, page, runs, k) && a != Null
      requires (forall i :: 0 <= i < |u| ==> u[i].at > a) && (forall i :: 0 <= i < k ==> runs[i].at < a)
      modifies this`next, this`page, this`list
      ensures Rep(next, page, list, e)
    {
      ghost var was, wasPage := next, page;
      Fronted(next, page, x, u, a, m);
      page, next := page[a := m], next[a := x];
      Relinked(was, wasPage, list, runs, k, next, page, v, a);
      Redirect(prev, a);
    }

    /** `*prev = x`, where prev is the list head or the next field of a node. */
    method Redirect(prev: Node, x: Node)
      modifies this`next, this`list
      ensures if prev == Null then next == old(next) && list == x else next == old(next)[prev := x] && list == old(list)
    {
      if prev == Null {
        list := x;
      } else {
        next := next[prev := x];
      }
    }

    method Split(npages: nat, prev: Node, b: Node, ghost k: nat)
      requires Coalesced(runs) && Rep(next, page, list, runs) && k < |runs| && b == runs[k].at > Null && prev == PrevOf(runs, k)
      requires 0 < npages < runs[k].n
      modifies this
      ensures Rep(next, page, list, runs) && runs == old(runs)[..k] + Shrunk(old(runs), k, npages)
    {
      var n := b + npages;
      TailRep(next, page, list, runs, k);
      SplitRep(next, page, runs, k, npages, n);
      ghost var s, u, was, wasPage := runs, Shrunk(runs, k, npages), next, page;
      next, page, runs := next[n := next[b]], page[n := page[b] - npages], s[..k] + u;
      Relinked(was, wasPage, list, s, k, next, page, u, n);
      Redirect(prev, n);
    }

    method Unlink(prev: Node, b: Node, ghost k: nat)
      requires Rep(next, page, list, runs) && k < |runs| && b == runs[k].at && prev == PrevOf(runs, k)
      modifies this
      ensures Rep(next, page, list, runs) && runs == RemoveAt(old(runs), k)
    {
      TailRep(next, page, list, runs, k);
      Relinked(next, page, list, runs, k, next, page, runs[k + 1..], next[b]);
      Redirect(prev, next[b]);
      runs := runs[..k] + runs[k + 1..];
    }
  }

  lemma AllocPositive(s: seq<Run>, n: nat)
    requires Coalesced(s) && n > 0 && forall i :: 0 <= i < |s| ==> s[i].at > Null
    ensures var e := Alloc(s, n).0; Coalesced(e) && forall i :: 0 <= i < |e| ==> e[i].at > Null
  {
    AllocOk(s, n);
    var e := Alloc(s, n).0;
    forall i | 0 <= i < |e| ensures e[i].at > Null { assert e[i].at >= e[0].at; }
  }

  /** The runs behind position k, and where the run there leads. */
  lemma TailRep(next: map<Node, Node>, page: map<Node, nat>, list: Node, s: seq<Run>, k: nat)
    requires Rep(next, page, list, s) && k < |s|
    ensures s[k].at in next && s[k].at in page && page[s[k].at] == s[k].n && Rep(next, page, next[s[k].at], s[k + 1..])
    ensures Kept(next, next, page, s, k) && forall i :: 0 <= i <= k ==> s[i].at !in Ats(s[k + 1..])
  {
    var u := s[k + 1..];
    assert Ats(s)[k + 1..] == Ats(u);
    Suffix(next, list, Ats(s), k + 1);
    assert Ats(s)[k] == s[k].at && After(Ats(s), k) == First(Ats(u));
    forall i | 0 <= i <= k ensures s[i].at !in Ats(u) && s[i].at in next { assert Ats(s)[i] == s[i].at; }
  }

  /** A new run inside the old one at position k, in front of the runs behind it. */
  lemma SplitRep(next: map<Node, Node>, page: map<Node, nat>, s: seq<Run>, k: nat, npages: nat, n: Node)
    requires Coalesced(s) && k < |s| && 0 < npages < s[k].n && s[k].at > Null && n == s[k].at + npages
    requires s[k].at in next && Rep(next, page, next[s[k].at], s[k + 1..]) && Kept(next, next, page, s, k)
    requires forall i :: 0 <= i <= k ==> s[i].at !in Ats(s[k + 1..])
    ensures Rep(next[n := next[s[k].at]], page[n := s[k].n - npages], n, Shrunk(s, k, npages))
    ensures Kept(next, next[n := next[s[k].at]], page[n := s[k].n - npages], s, k)
    ensures forall i :: 0 <= i < k ==> s[i].at !in Ats(Shrunk(s, k, npages))
  {
    var u, v := s[k + 1..], Shrunk(s, k, npages);
    assert Ats(v) == [n] + Ats(u);
    forall i | 0 <= i < |u| ensures u[i].at > n { assert u[i] == s[k + 1 + i]; }
    forall i | 0 <= i < k ensures s[i].at < n { assert s[i].at + s[i].n < s[k].at; }
    Pushed(next, next[s[k].at], Ats(u), n);
    var page' := page[n := s[k].n - npages];
    forall i | 0 <= i < |v| ensures v[i].at in page' && page'[v[i].at] == v[i].n {
      if i > 0 { assert v[i] == u[i - 1]; }
    }
  }

  function With(s: seq<Run>, k: nat, m: nat): seq<Run>
    requires k < |s|
  {
    s[k := Run(s[k].at, m)]
  }

  /** Changing the length of a run. */
  lemma Grown(next: map<Node, Node>, page: map<Node, nat>, list: Node, s: seq<Run>, k: nat, m: nat)
    requires Rep(next, page, list, s) && k < |s|
    ensures Rep(next, page[s[k].at := m], list, With(s, k, m))
  {
    var e, a := With(s, k, m), Ats(s);
    assert Ats(e) == a;
    forall i | 0 <= i < |e| && i != k ensures e[i].at != s[k].at { assert a[i] != a[k]; }
  }

  lemma Linked(next: map<Node, Node>, page: map<Node, nat>, list: Node, s: seq<Run>, k: nat)
    requires Rep(next, page, list, s) && k < |s|
    ensures s[k].at in next && next[s[k].at] == if k + 1 < |s| then s[k + 1].at else Null
  {
    assert Ats(s)[k] == s[k].at && next[s[k].at] == After(Ats(s), k);
  }

  /** `b->next = b->next->next` */
  lemma Bypassed(next: map<Node, Node>, page: map<Node, nat>, list: Node, s: seq<Run>, k: nat, b: Node)
    requires Rep(next, page, list, s) && k + 1 < |s| && b == s[k].at
    ensures b in next && next[b] in next && Rep(next[b := next[next[b]]], page, list, RemoveAt(s, k + 1))
  {
    Linked(next, page, list, s, k);
    Linked(next, page, list, s, k + 1);
    TailRep(next, page, list, s, k + 1);
    KeptMore(next, page, list, s, k);
    Relinked(next, page, list, s, k + 1, next, page, s[k + 2..], next[next[b]]);
  }

  lemma KeptMore(next: map<Node, Node>, page: map<Node, nat>, list: Node, s: seq<Run>, k: nat)
    requires Rep(next, page, list, s) && k + 1 < |s|
    ensures Kept(next, next, page, s, k + 1)
  {
    forall i | 0 <= i < k + 1 ensures s[i].at in next { Linked(next, page, list, s, i); }
  }

  function Swallowed(s: seq<Run>, k: nat): seq<Run>
    requires k + 1 < |s|
  {
    RemoveAt(With(s, k, s[k].n + s[k + 1].n), k + 1)
  }

  /** What rt_page_free makes of the runs from position k on when the pages follow the run there. */
  lemma Extended(s: seq<Run>, k: nat, a: int, n: nat, e: seq<Run>)
    requires k < |s| && s[k].at + s[k].n == a && n > 0 && e == s[..k] + Free(s[k..], a, n)
    ensures if k + 1 < |s| && a + n == s[k + 1].at then e == Swallowed(With(s, k, s[k].n + n), k) else e == With(s, k, s[k].n + n)
  {
    var t := s[k..];
    assert t[0] == s[k] && t[1..] == s[k + 1..];
    if k + 1 < |s| && a + n == s[k + 1].at {
      assert t[1] == s[k + 1] && t[2..] == s[k + 2..];
      assert e == s[..k] + ([Run(s[k].at, s[k].n + n + s[k + 1].n)] + s[k + 2..]);
    } else {
      assert |t| > 1 ==> t[1] == s[k + 1];
      assert e == s[..k] + ([Run(s[k].at, s[k].n + n)] + s[k + 1..]);
    }
  }

  /** What it makes of them when the pages come before that run. */
  lemma Inserted(s: seq<Run>, k: nat, a: int, n: nat)
    requires k <= |s| && n > 0 && (k < |s| ==> s[k].at >= a + n)
    ensures k < |s| && s[k].at == a + n ==> Free(s[k..], a, n) == [Run(a, s[k].n + n)] + s[k + 1..]
    ensures !(k < |s| && s[k].at == a + n) ==> Free(s[k..], a, n) == [Run(a, n)] + s[k..]
  {
    if k < |s| { assert s[k..][0] == s[k] && s[k..][1..] == s[k + 1..]; }
  }

  /** What rt_page_free is to make of the runs s when it stops at position k. */
  ghost predicate Plan(s: seq<Run>, a: int, n: nat, k: nat, e: seq<Run>, v: seq<Run>)
    requires k <= |s|
  {
    if k < |s| && s[k].at + s[k].n == a then
      if k + 1 < |s| && s[k].at + s[k].n + n == s[k + 1].at then e == Swallowed(With(s, k, s[k].n + n), k) else e == With(s, k, s[k].n + n)
    else
      && (forall i :: 0 <= i < k ==> s[i].at < a) && (forall i :: k <= i < |s| ==> s[i].at > a) && e == s[..k] + v
      && if k < |s| && s[k].at == a + n then v == [Run(a, s[k].n + n)] + s[k + 1..] else v == [Run(a, n)] + s[k..]
  }

  lemma FreePlan(s: seq<Run>, a: int, n: nat, k: nat) returns (e: seq<Run>, v: seq<Run>)
    requires Coalesced(s) && n > 0 && (forall p :: a <= p < a + n ==> !Covers(s, p)) && k <= |s|
    requires forall i :: 0 <= i < k ==> s[i].at + s[i].n != a && s[i].at < a + n
    requires k < |s| ==> s[k].at + s[k].n == a || s[k].at >= a + n
    ensures e == Free(s, a, n)
    ensures Plan(s, a, n, k, e, v)
  {
    e, v := Free(s, a, n), Free(s[k..], a, n);
    FreeSkip(s, a, n, k);
    if k < |s| && s[k].at + s[k].n == a {
      Extended(s, k, a, n, e);
    } else {
      Inserted(s, k, a, n);
      Apart(s, a, n);
      forall i | k <= i < |s| ensures s[i].at > a { assert s[i].at >= s[k].at; }
    }
  }

  lemma SuffixRep(next: map<Node, Node>, page: map<Node, nat>, list: Node, s: seq<Run>, k: nat)
    requires Rep(next, page, list, s) && k <= |s|
    ensures Rep(next, page, if k < |s| then s[k].at else Null, s[k..]) && Kept(next, next, page, s, k)
  {
    assert Ats(s)[k..] == Ats(s[k..]);
    Suffix(next, list, Ats(s), k);
    forall i | 0 <= i < k ensures s[i].at in next { assert Ats(s)[i] == s[i].at; }
  }

  /** A new run in front of others. */
  lemma Fronted(next: map<Node, Node>, page: map<Node, nat>, x: Node, u: seq<Run>, a: Node, m: nat)
    requires Rep(next, page, x, u) && a != Null && forall i :: 0 <= i < |u| ==> u[i].at != a
    ensures Rep(next[a := x], page[a := m], a, [Run(a, m)] + u)
  {
    var v := [Run(a, m)] + u;
    assert Ats(v) == [a] + Ats(u);
    Pushed(next, x, Ats(u), a);
    forall i | 0 <= i < |v| ensures v[i].at in page[a := m] && page[a := m][v[i].at] == v[i].n {
      if i > 0 { assert v[i] == u[i - 1]; }
    }
  }

  lemma FreePositive(s: seq<Run>, a: Node, n: nat)
    requires Coalesced(s) && n > 0 && a > Null && (forall i :: 0 <= i < |s| ==> s[i].at > Null)
    requires forall p :: a <= p < a + n ==> !Covers(s, p)
    ensures var e := Free(s, a, n); Coalesced(e) && forall i :: 0 <= i < |e| ==> e[i].at > Null
  {
    FreeOk(s, a, n);
    var e := Free(s, a, n);
    forall i | 0 <= i < |e| ensures e[i].at > Null { assert e[i].at >= e[0].at; }
  }
}
