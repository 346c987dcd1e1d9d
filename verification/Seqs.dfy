/** Sequence edits shared by every list in the kernel model: inserting at a position,
    removing a position, and looking an element up. */
module Seqs {

  ghost predicate Distinct<T>(s: seq<T>) {
    forall i, j :: 0 <= i < j < |s| ==> s[i] != s[j]
  }

  function InsertAt<T>(s: seq<T>, k: nat, x: T): seq<T>
    requires k <= |s|
  {
    s[..k] + [x] + s[k..]
  }

  function RemoveAt<T>(s: seq<T>, k: nat): seq<T>
    requires k < |s|
  {
    s[..k] + s[k + 1..]
  }

  /** The first position of `x` in `s`. */
  function IndexOf<T(==)>(s: seq<T>, x: T): (i: nat)
    requires x in s
    ensures i < |s| && s[i] == x
    ensures x !in s[..i]
  {
    if s[0] == x then 0 else 1 + IndexOf(s[1..], x)
  }

  function Remove<T(==)>(s: seq<T>, x: T): seq<T>
    requires x in s
  {
    RemoveAt(s, IndexOf(s, x))
  }

  lemma IndexOfAt<T>(s: seq<T>, i: nat)
    requires Distinct(s) && i < |s|
    ensures IndexOf(s, s[i]) == i
  {
  }

  /** Removing one element of a duplicate-free list deletes exactly that element. */
  lemma RemoveAtElements<T>(s: seq<T>, k: nat)
    requires k < |s| && Distinct(s)
    ensures Distinct(RemoveAt(s, k))
    ensures forall x :: x in RemoveAt(s, k) <==> x in s && x != s[k]
  {
    var t := RemoveAt(s, k);
    forall x ensures x in t <==> x in s && x != s[k] {
      if x in s && x != s[k] {
        var i := IndexOf(s, x);
        assert t[if i < k then i else i - 1] == x;
      }
    }
  }

  lemma InsertKeeps<T>(s: seq<T>, k: nat, x: T)
    requires k <= |s|
    ensures forall y :: y in s ==> y in InsertAt(s, k, x)
  {
    forall y | y in s ensures y in InsertAt(s, k, x) {
      var i :| 0 <= i < |s| && s[i] == y;
      assert InsertAt(s, k, x)[if i < k then i else i + 1] == y;
    }
  }

  lemma InsertAtElements<T>(s: seq<T>, k: nat, x: T)
    requires k <= |s| && Distinct(s) && x !in s
    ensures Distinct(InsertAt(s, k, x))
    ensures forall y :: y in InsertAt(s, k, x) <==> y in s || y == x
  {
    var t := InsertAt(s, k, x);
    forall y ensures y in t <==> y in s || y == x {
      if y in s {
        var i := IndexOf(s, y);
        assert t[if i < k then i else i + 1] == y;
      }
      assert t[k] == x;
    }
  }

  lemma RemoveTwo<T>(s: seq<T>, i: nat)
    requires i + 1 < |s|
    ensures RemoveAt(RemoveAt(s, i + 1), i) == RemoveAt(RemoveAt(s, i), i)
  {
  }

  lemma InsertThenRemove<T>(s: seq<T>, i: nat, x: T)
    requires i < |s|
    ensures RemoveAt(InsertAt(s, i, x), i + 1) == InsertAt(RemoveAt(s, i), i, x)
  {
  }

  lemma Assoc<T>(a: seq<T>, b: seq<T>, c: seq<T>)
    ensures a + (b + c) == (a + b) + c
  {
  }

  lemma InsertMid<T>(a: seq<T>, b: seq<T>, x: T)
    ensures InsertAt(a + b, |a|, x) == a + ([x] + b)
  {
    assert (a + b)[..|a|] == a && (a + b)[|a|..] == b;
  }

  /** `s` without the first `x`, if there is one. */
  function Drop<T(==)>(s: seq<T>, x: T): seq<T> { if x in s then Remove(s, x) else s }

  lemma DropCons<T>(s: seq<T>, y: T, x: T)
    ensures Drop([y] + s, x) == if x == y then s else [y] + Drop(s, x)
  {
    var t := [y] + s;
    assert t[1..] == s && t[0] == y;
    if x == y {
      assert IndexOf(t, x) == 0;
    } else if x in s {
      var i := IndexOf(s, x);
      assert IndexOf(t, x) == 1 + i;
      assert t[..1 + i] == [y] + s[..i] && t[2 + i..] == s[i + 1..];
    }
  }

  lemma {:induction false} IndexInPrefix<T>(a: seq<T>, b: seq<T>, x: T)
    requires x in a
    ensures IndexOf(a + b, x) == IndexOf(a, x)
  {
    if a[0] != x {
      assert (a + b)[1..] == a[1..] + b;
      IndexInPrefix(a[1..], b, x);
    }
  }

  lemma DropAppend<T>(s: seq<T>, x: T, y: T)
    requires x != y
    ensures Drop(s + [y], x) == Drop(s, x) + [y]
  {
    if x in s {
      IndexInPrefix(s, [y], x);
    }
  }
}
