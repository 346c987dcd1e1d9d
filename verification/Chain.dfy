/** Null-terminated chains threaded through a `next` field, as in message queues and memory pools. */
module Chain {
  import opened Seqs

  type Node = int

  const Null: Node := 0

  function First(s: seq<Node>): Node { if s == [] then Null else s[0] }

  function Last(s: seq<Node>): Node { if s == [] then Null else s[|s| - 1] }

  function After(s: seq<Node>, i: nat): Node { if i + 1 < |s| then s[i + 1] else Null }

  /** Following `next` from `head` visits exactly `s` and then ends. */
  ghost predicate IsChain(next: map<Node, Node>, head: Node, s: seq<Node>) {
    && Distinct(s) && head == First(s)
    && forall i :: 0 <= i < |s| ==> s[i] in next && s[i] != Null && next[s[i]] == After(s, i)
  }

  /** Rewriting the next field of a node elsewhere leaves a chain alone. */
  lemma Elsewhere(next: map<Node, Node>, head: Node, s: seq<Node>, n: Node, to: Node)
    requires IsChain(next, head, s) && n !in s
    ensures IsChain(next[n := to], head, s)
  {
  }

  lemma Pushed(next: map<Node, Node>, head: Node, s: seq<Node>, n: Node)
    requires IsChain(next, head, s) && n !in s && n != Null
    ensures IsChain(next[n := head], n, [n] + s)
  {
    var m, q := next[n := head], [n] + s;
    forall i | 0 <= i < |q| ensures q[i] in m && q[i] != Null && m[q[i]] == After(q, i) {
      if i > 0 {
        assert q[i] == s[i - 1] && s[i - 1] in s;
        assert next[s[i - 1]] == After(s, i - 1) == After(q, i);
      } else {
        assert After(q, 0) == First(s);
      }
    }
  }

  lemma Popped(next: map<Node, Node>, head: Node, s: seq<Node>)
    requires IsChain(next, head, s) && s != []
    ensures head == s[0] && head in next && IsChain(next, next[head], s[1..]) && head !in s[1..]
  {
    var q := s[1..];
    assert next[s[0]] == After(s, 0) == First(q);
    forall i | 0 <= i < |q| ensures q[i] in next && q[i] != Null && next[q[i]] == After(q, i) {
      assert q[i] == s[i + 1] && After(q, i) == After(s, i + 1);
    }
  }

  /** Linking a node whose own next is null behind the last one. */
  lemma Appended(next: map<Node, Node>, head: Node, s: seq<Node>, n: Node)
    requires IsChain(next, head, s) && n !in s && n != Null && n in next && next[n] == Null
    ensures s == [] ==> IsChain(next, n, [n])
    ensures s != [] ==> Last(s) in next && IsChain(next[Last(s) := n], head, s + [n])
  {
    if s != [] {
      var m, q := next[Last(s) := n], s + [n];
      assert Last(s) == s[|s| - 1];
      forall i | 0 <= i < |q| ensures q[i] in m && q[i] != Null && m[q[i]] == After(q, i) {
        if i < |s| - 1 { assert s[i] != s[|s| - 1]; }
      }
    }
  }

  /** Keeping the first k nodes and continuing with the chain u: with k > 0 the k-th node is redirected. */
  lemma Spliced(was: map<Node, Node>, head: Node, s: seq<Node>, k: nat, next: map<Node, Node>, u: seq<Node>)
    requires IsChain(was, head, s) && 0 < k <= |s| && IsChain(next, First(u), u)
    requires forall i :: 0 <= i < k ==> s[i] !in u && s[i] in next && next[s[i]] == was[s[i]]
    ensures IsChain(next[s[k - 1] := First(u)], head, s[..k] + u)
  {
    var m, q := next[s[k - 1] := First(u)], s[..k] + u;
    forall i, j | 0 <= i < j < |q| ensures q[i] != q[j] {
      if i < k <= j { assert s[i] !in u && q[j] == u[j - k] && u[j - k] in u; }
      if k <= i { assert q[i] == u[i - k] && q[j] == u[j - k]; }
    }
    forall i | 0 <= i < |q| ensures q[i] in m && q[i] != Null && m[q[i]] == After(q, i) {
      if i < k - 1 {
        assert q[i] == s[i] && After(s, i) == s[i + 1] == q[i + 1] && s[i] != s[k - 1];
      } else if i == k - 1 {
        assert After(q, i) == First(u);
      } else {
        assert q[i] == u[i - k] && u[i - k] in u && After(q, i) == After(u, i - k) && s[k - 1] !in u;
      }
    }
  }

  lemma Suffix(next: map<Node, Node>, head: Node, s: seq<Node>, k: nat)
    requires IsChain(next, head, s) && k <= |s|
    ensures IsChain(next, First(s[k..]), s[k..]) && forall i :: 0 <= i < k ==> s[i] !in s[k..]
  {
    var u := s[k..];
    forall i | 0 <= i < |u| ensures u[i] in next && u[i] != Null && next[u[i]] == After(u, i) {
      assert u[i] == s[i + k] && After(u, i) == After(s, i + k);
    }
  }
}
