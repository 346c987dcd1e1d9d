/** The circular doubly linked lists of rtservice.h, and the same shape threaded through
    memory-heap headers.  `next` and `prev` hold one link per node address; a ring is the
    sequence of nodes met by following `next` from its head. */
module Ring {
  import opened Seqs

  type Node = int
  type Links = map<Node, Node>

  function Succ(i: nat, n: nat): (j: nat)
    requires i < n
    ensures j < n
  {
    if i + 1 == n then 0 else i + 1
  }

  function Pred(i: nat, n: nat): (j: nat)
    requires i < n
    ensures j < n
  {
    if i == 0 then n - 1 else i - 1
  }

  /** Both links of the `i`-th node lead to its neighbours in `r`. */
  ghost predicate LinkedAt(next: Links, prev: Links, r: seq<Node>, i: nat)
    requires i < |r|
  {
    && r[i] in next && next[r[i]] == r[Succ(i, |r|)]
    && r[i] in prev && prev[r[i]] == r[Pred(i, |r|)]
  }

  ghost predicate IsRing(next: Links, prev: Links, r: seq<Node>) {
    && |r| > 0
    && Distinct(r)
    && forall i {:trigger LinkedAt(next, prev, r, i)} :: 0 <= i < |r| ==> LinkedAt(next, prev, r, i)
  }

  /** A ring depends only on the links of its own members. */
  lemma Frame(next: Links, prev: Links, next': Links, prev': Links, r: seq<Node>)
    requires IsRing(next, prev, r)
    requires forall x :: x in r ==> x in next' && x in next && next'[x] == next[x]
    requires forall x :: x in r ==> x in prev' && x in prev && prev'[x] == prev[x]
    ensures IsRing(next', prev', r)
  {
    forall i | 0 <= i < |r| ensures LinkedAt(next', prev', r, i) {
      var x := r[i];
      assert x in r && LinkedAt(next, prev, r, i);
    }
  }

  lemma Members(next: Links, prev: Links, r: seq<Node>, x: Node)
    requires IsRing(next, prev, r) && x in r
    ensures x in next && next[x] in r && next[x] in prev && prev[next[x]] == x
    ensures x in prev && prev[x] in r && prev[x] in next && next[prev[x]] == x
  {
    var i := IndexOf(r, x);
    assert LinkedAt(next, prev, r, i);
    assert LinkedAt(next, prev, r, Succ(i, |r|));
    assert LinkedAt(next, prev, r, Pred(i, |r|));
  }

  /** Linking `x` between `r[k]` and its successor. */
  lemma Linked(next: Links, prev: Links, r: seq<Node>, k: nat, x: Node, next': Links, prev': Links)
    requires IsRing(next, prev, r) && k < |r| && x !in r
    requires r[k] in next
    requires next' == next[x := next[r[k]]][r[k] := x]
    requires prev' == prev[next[r[k]] := x][x := r[k]]
    ensures IsRing(next', prev', InsertAt(r, k + 1, x))
  {
    var t := InsertAt(r, k + 1, x);
    InsertAtElements(r, k + 1, x);
    assert LinkedAt(next, prev, r, k);
    forall i | 0 <= i < |t| ensures LinkedAt(next', prev', t, i) {
      if i <= k {
        assert t[i] == r[i] && LinkedAt(next, prev, r, i);
      } else if i > k + 1 {
        assert t[i] == r[i - 1] && LinkedAt(next, prev, r, i - 1);
      }
    }
  }

  /** Bypassing `r[k]`, whose own links may be anything afterwards. */
  lemma Unlinked(next: Links, prev: Links, r: seq<Node>, k: nat, next': Links, prev': Links)
    requires IsRing(next, prev, r) && 0 < k < |r|
    requires r[k] in next && r[k] in prev
    requires next'.Keys == next.Keys && prev'.Keys == prev.Keys
    requires forall y :: y in next && y != r[k] && y != prev[r[k]] ==> next'[y] == next[y]
    requires forall y :: y in prev && y != r[k] && y != next[r[k]] ==> prev'[y] == prev[y]
    requires prev[r[k]] in next && next'[prev[r[k]]] == next[r[k]]
    requires next[r[k]] in prev && prev'[next[r[k]]] == prev[r[k]]
    ensures IsRing(next', prev', RemoveAt(r, k))
  {
    var t := RemoveAt(r, k);
    RemoveAtElements(r, k);
    assert LinkedAt(next, prev, r, k);
    forall i | 0 <= i < |t| ensures LinkedAt(next', prev', t, i) {
      var j := if i < k then i else i + 1;
      assert t[i] == r[j] && LinkedAt(next, prev, r, j);
    }
  }
}
