/** The page allocator of slab.c on values: the free pages as an address-ordered list of runs. */
module PageModel {

  datatype Option<T> = None | Some(value: T)

  /** `n` free pages from page number `at` on. */
  datatype Run = Run(at: int, n: nat)

  predicate In(r: Run, p: int) { r.at <= p < r.at + r.n }

  ghost predicate Covers(s: seq<Run>, p: int) { exists i :: 0 <= i < |s| && In(s[i], p) }

  /** Sorted by address, disjoint, and with a page in use between any two runs. */
  ghost predicate Coalesced(s: seq<Run>) {
    && (forall i :: 0 <= i < |s| ==> s[i].n > 0)
    && (forall i, j :: 0 <= i < j < |s| ==> s[i].at + s[i].n < s[j].at)
  }

  /** rt_page_alloc: the list afterwards, and the page it returns. */
  function Alloc(s: seq<Run>, n: nat): (seq<Run>, Option<int>) {
    if s == [] then ([], None)
    else if s[0].n > n then ([Run(s[0].at + n, s[0].n - n)] + s[1..], Some(s[0].at))
    else if s[0].n == n then (s[1..], Some(s[0].at))
    else var (rest, r) := Alloc(s[1..], n); ([s[0]] + rest, r)
  }

  /** rt_page_free */
  function Free(s: seq<Run>, a: int, n: nat): seq<Run> {
    if s == [] then [Run(a, n)] else
      var b := s[0];
      if b.at + b.n == a then
        if |s| > 1 && b.at + b.n + n == s[1].at then [Run(b.at, b.n + n + s[1].n)] + s[2..]
        else [Run(b.at, b.n + n)] + s[1..]
      else if b.at == a + n then [Run(a, n + b.n)] + s[1..]
      else if b.at > a + n then [Run(a, n)] + s
      else [b] + Free(s[1..], a, n)
  }

  lemma CoversCons(r: Run, s: seq<Run>, p: int)
    ensures Covers([r] + s, p) <==> In(r, p) || Covers(s, p)
  {
    var t := [r] + s;
    if Covers(s, p) { var i :| 0 <= i < |s| && In(s[i], p); assert t[i + 1] == s[i]; }
    if Covers(t, p) { var i :| 0 <= i < |t| && In(t[i], p); assert i > 0 ==> s[i - 1] == t[i]; }
    if In(r, p) { assert t[0] == r; }
  }

  lemma CoversSplit(s: seq<Run>, p: int)
    requires s != []
    ensures Covers(s, p) <==> In(s[0], p) || Covers(s[1..], p)
  {
    assert s == [s[0]] + s[1..];
    CoversCons(s[0], s[1..], p);
  }

  lemma TailCoalesced(s: seq<Run>)
    requires Coalesced(s) && s != []
    ensures Coalesced(s[1..]) && forall p :: Covers(s[1..], p) ==> s[0].at + s[0].n < p
  {
    forall p | Covers(s[1..], p) ensures s[0].at + s[0].n < p {
      var i :| 0 <= i < |s[1..]| && In(s[1..][i], p);
      assert s[1..][i] == s[i + 1];
    }
  }

  lemma ConsCoalesced(r: Run, s: seq<Run>)
    requires Coalesced(s) && r.n > 0 && (s != [] ==> r.at + r.n < s[0].at)
    ensures Coalesced([r] + s)
  {
    var t := [r] + s;
    forall i, j | 0 <= i < j < |t| ensures t[i].at + t[i].n < t[j].at {
      assert t[j] == s[j - 1];
      if i == 0 { assert j > 1 ==> s[0].at + s[0].n < s[j - 1].at; } else { assert t[i] == s[i - 1]; }
    }
  }

  /** A stretch of free pages. */
  ghost predicate Stretch(s: seq<Run>, a: int, n: nat) { forall p :: a <= p < a + n ==> Covers(s, p) }

  /** A stretch lies in one run, because runs do not touch. */
  lemma {:induction false} StretchInRun(s: seq<Run>, a: int, n: nat)
    requires Coalesced(s) && n > 0 && Stretch(s, a, n) && s != []
    ensures (s[0].at <= a && a + n <= s[0].at + s[0].n) || (Stretch(s[1..], a, n) && s[0].at + s[0].n < a)
  {
    var end := s[0].at + s[0].n;
    TailCoalesced(s);
    CoversSplit(s, a);
    if In(s[0], a) {
      if a + n > end {
        CoversSplit(s, end);
      }
    } else {
      forall p | a <= p < a + n ensures Covers(s[1..], p) { assert Covers(s, p); CoversSplit(s, p); }
    }
  }

  lemma {:induction false} AllocOk(s: seq<Run>, n: nat)
    requires Coalesced(s) && n > 0
    ensures var (e, r) := Alloc(s, n);
      && Coalesced(e) && (e != [] ==> s != [] && s[0].at <= e[0].at)
      && match r
         case None => e == s
         case Some(a) => forall p :: (Covers(s, p) <==> Covers(e, p) || a <= p < a + n) && !(Covers(e, p) && a <= p < a + n)
  {
    if s != [] {
      var (e, r) := Alloc(s, n);
      TailCoalesced(s);
      var tail := s[1..];
      if s[0].n >= n {
        AllocHere(s, n);
      } else {
        AllocOk(tail, n);
        ConsCoalesced(s[0], Alloc(tail, n).0);
        if r.Some? { AllocLater(s, n, e, r.value); } else { AllocNone(s, n); }
      }
    }
  }

  lemma AllocNone(s: seq<Run>, n: nat)
    requires s != [] && s[0].n < n && Alloc(s[1..], n) == (s[1..], None)
    ensures Alloc(s, n) == (s, None)
  {
    assert s == [s[0]] + s[1..];
  }

  lemma AllocHere(s: seq<Run>, n: nat)
    requires Coalesced(s) && n > 0 && s != [] && s[0].n >= n
    ensures var e, a := Alloc(s, n).0, s[0].at;
      && Coalesced(e) && (e != [] ==> a <= e[0].at)
      && forall p :: (Covers(s, p) <==> Covers(e, p) || a <= p < a + n) && !(Covers(e, p) && a <= p < a + n)
  {
    var e, a, tail, rest := Alloc(s, n).0, s[0].at, s[1..], Run(s[0].at + n, s[0].n - n);
    TailCoalesced(s);
    if s[0].n > n { ConsCoalesced(rest, tail); }
    forall p ensures (Covers(s, p) <==> Covers(e, p) || a <= p < a + n) && !(Covers(e, p) && a <= p < a + n) {
      CoversSplit(s, p);
      CoversCons(rest, tail, p);
    }
  }

  lemma AllocLater(s: seq<Run>, n: nat, e: seq<Run>, a: int)
    requires Coalesced(s) && n > 0 && s != [] && s[0].n < n && (e, Some(a)) == Alloc(s, n)
    requires var t := Alloc(s[1..], n).0; forall p :: (Covers(s[1..], p) <==> Covers(t, p) || a <= p < a + n) && !(Covers(t, p) && a <= p < a + n)
    ensures forall p :: (Covers(s, p) <==> Covers(e, p) || a <= p < a + n) && !(Covers(e, p) && a <= p < a + n)
  {
    var t := Alloc(s[1..], n).0;
    TailCoalesced(s);
    forall p ensures (Covers(s, p) <==> Covers(e, p) || a <= p < a + n) && !(Covers(e, p) && a <= p < a + n) {
      CoversSplit(s, p);
      CoversCons(s[0], t, p);
      assert Covers(s[1..], p) <==> Covers(t, p) || a <= p < a + n;
    }
  }

  /** First fit is exact: it fails only if there is no stretch of n free pages anywhere, and otherwise
      returns the lowest one. */
  lemma {:induction false} AllocFirst(s: seq<Run>, n: nat, a: int)
    requires Coalesced(s) && n > 0 && Stretch(s, a, n)
    ensures Alloc(s, n).1.Some? && Alloc(s, n).1.value <= a
  {
    assert s != [] by { assert Covers(s, a); }
    StretchInRun(s, a, n);
    if s[0].n < n {
      TailCoalesced(s);
      AllocFirst(s[1..], n, a);
    }
  }

  /** The allocation fails exactly when there is no stretch of n free pages. */
  lemma AllocFails(s: seq<Run>, n: nat)
    requires Coalesced(s) && n > 0
    ensures Alloc(s, n).1.None? <==> forall a :: !Stretch(s, a, n)
  {
    if Alloc(s, n).1.None? {
      forall a ensures !Stretch(s, a, n) { if Stretch(s, a, n) { AllocFirst(s, n, a); } }
    } else {
      AllocOk(s, n);
      assert Stretch(s, Alloc(s, n).1.value, n);
    }
  }

  /** Freed pages join their neighbours: the list stays coalesced and gains exactly those pages. */
  lemma {:induction false} FreeOk(s: seq<Run>, a: int, n: nat)
    requires Coalesced(s) && n > 0 && forall p :: a <= p < a + n ==> !Covers(s, p)
    ensures Coalesced(Free(s, a, n)) && forall p :: Covers(Free(s, a, n), p) <==> Covers(s, p) || a <= p < a + n
    ensures Free(s, a, n)[0].at == if s == [] || a < s[0].at then a else s[0].at
  {
    var e := Free(s, a, n);
    if s == [] {
      forall p ensures Covers(e, p) <==> a <= p < a + n { CoversCons(Run(a, n), [], p); }
    } else {
      var b, tail := s[0], s[1..];
      TailCoalesced(s);
      Apart(s, a, n);
      if b.at + b.n == a {
        FreeBehind(s, a, n);
      } else if b.at >= a + n {
        FreeBefore(s, a, n);
      } else {
        forall p | a <= p < a + n ensures !Covers(tail, p) { CoversSplit(s, p); }
        FreeOk(tail, a, n);
        ConsCoalesced(b, Free(tail, a, n));
        forall p ensures Covers(e, p) <==> Covers(s, p) || a <= p < a + n {
          CoversSplit(s, p);
          CoversCons(b, Free(tail, a, n), p);
        }
      }
    }
  }

  /** Pages in use lie wholly before or wholly behind every run. */
  lemma Apart(s: seq<Run>, a: int, n: nat)
    requires Coalesced(s) && n > 0 && forall p :: a <= p < a + n ==> !Covers(s, p)
    ensures forall i :: 0 <= i < |s| ==> s[i].at + s[i].n <= a || a + n <= s[i].at
  {
    forall i | 0 <= i < |s| ensures s[i].at + s[i].n <= a || a + n <= s[i].at {
      if s[i].at < a + n && a < s[i].at + s[i].n {
        var p := if a <= s[i].at then s[i].at else a;
        RunCovers(s, i, p);
      }
    }
  }

  lemma RunCovers(s: seq<Run>, i: nat, p: int)
    requires i < |s| && In(s[i], p)
    ensures Covers(s, p)
  {
  }

  lemma FreeBehind(s: seq<Run>, a: int, n: nat)
    requires Coalesced(s) && n > 0 && s != [] && s[0].at + s[0].n == a
    requires forall i :: 0 <= i < |s| ==> s[i].at + s[i].n <= a || a + n <= s[i].at
    ensures Coalesced(Free(s, a, n)) && forall p :: Covers(Free(s, a, n), p) <==> Covers(s, p) || a <= p < a + n
  {
    var b, tail := s[0], s[1..];
    TailCoalesced(s);
    if |s| > 1 && a + n == s[1].at {
      FreeBetween(s, a, n);
    } else {
      var r := Run(b.at, b.n + n);
      assert |s| > 1 ==> tail[0] == s[1] && a + n <= s[1].at;
      ConsCoalesced(r, tail);
      forall p ensures Covers(Free(s, a, n), p) <==> Covers(s, p) || a <= p < a + n {
        CoversSplit(s, p);
        CoversCons(r, tail, p);
      }
    }
  }

  lemma FreeBetween(s: seq<Run>, a: int, n: nat)
    requires Coalesced(s) && n > 0 && |s| > 1 && s[0].at + s[0].n == a && a + n == s[1].at
    ensures Coalesced(Free(s, a, n)) && forall p :: Covers(Free(s, a, n), p) <==> Covers(s, p) || a <= p < a + n
  {
    var tail, rest, r := s[1..], s[2..], Run(s[0].at, s[0].n + n + s[1].n);
    assert tail[0] == s[1] && tail[1..] == rest;
    TailCoalesced(s);
    TailCoalesced(tail);
    ConsCoalesced(r, rest);
    forall p ensures Covers(Free(s, a, n), p) <==> Covers(s, p) || a <= p < a + n {
      CoversSplit(s, p);
      CoversSplit(tail, p);
      CoversCons(r, rest, p);
    }
  }

  lemma FreeBefore(s: seq<Run>, a: int, n: nat)
    requires Coalesced(s) && n > 0 && s != [] && s[0].at >= a + n
    ensures Coalesced(Free(s, a, n)) && forall p :: Covers(Free(s, a, n), p) <==> Covers(s, p) || a <= p < a + n
  {
    var b, tail := s[0], s[1..];
    TailCoalesced(s);
    if b.at == a + n {
      var r := Run(a, n + b.n);
      ConsCoalesced(r, tail);
      forall p ensures Covers(Free(s, a, n), p) <==> Covers(s, p) || a <= p < a + n {
        CoversSplit(s, p);
        CoversCons(r, tail, p);
      }
    } else {
      ConsCoalesced(Run(a, n), s);
      forall p ensures Covers(Free(s, a, n), p) <==> Covers(s, p) || a <= p < a + n { CoversCons(Run(a, n), s, p); }
    }
  }

  /** A coalesced list is determined by the pages it covers. */
  lemma {:induction false} Canonical(s: seq<Run>, t: seq<Run>)
    requires Coalesced(s) && Coalesced(t) && forall p :: Covers(s, p) <==> Covers(t, p)
    ensures s == t
  {
    if s != [] && t != [] {
      TailCoalesced(s);
      TailCoalesced(t);
      HeadWithin(s, t);
      HeadWithin(t, s);
      forall p ensures Covers(s[1..], p) <==> Covers(t[1..], p) {
        assert Covers(s, p) <==> Covers(t, p);
        CoversSplit(s, p);
        CoversSplit(t, p);
      }
      Canonical(s[1..], t[1..]);
      assert s == [s[0]] + s[1..] && t == [t[0]] + t[1..];
    } else if s != [] {
      HeadCovers(s, s[0].at);
    } else if t != [] {
      HeadCovers(t, t[0].at);
    }
  }

  lemma HeadCovers(s: seq<Run>, p: int)
    requires s != [] && In(s[0], p)
    ensures Covers(s, p)
  {
  }

  /** The first run of s lies in the first run of t. */
  lemma HeadWithin(s: seq<Run>, t: seq<Run>)
    requires Coalesced(s) && Coalesced(t) && s != [] && t != [] && forall p :: Covers(s, p) <==> Covers(t, p)
    ensures t[0].at <= s[0].at && s[0].at + s[0].n <= t[0].at + t[0].n
  {
    TailCoalesced(t);
    TailCoalesced(s);
    assert In(t[0], t[0].at);
    assert Covers(t, t[0].at) && Covers(s, t[0].at);
    CoversSplit(s, t[0].at);
    assert s[0].at <= t[0].at;
    assert In(s[0], s[0].at);
    assert Covers(s, s[0].at) && Covers(t, s[0].at);
    CoversSplit(t, s[0].at);
    assert t[0].at <= s[0].at;
    var end := t[0].at + t[0].n;
    if end < s[0].at + s[0].n {
      HeadCovers(s, end);
      CoversSplit(t, end);
    }
  }

  /** Giving back what was just taken restores the list exactly. */
  lemma AllocThenFree(s: seq<Run>, n: nat)
    requires Coalesced(s) && n > 0 && Alloc(s, n).1.Some?
    ensures Free(Alloc(s, n).0, Alloc(s, n).1.value, n) == s
  {
    var e, a := Alloc(s, n).0, Alloc(s, n).1.value;
    AllocOk(s, n);
    FreeOk(e, a, n);
    forall p ensures Covers(Free(e, a, n), p) <==> Covers(s, p) {
      assert Covers(s, p) <==> Covers(e, p) || a <= p < a + n;
    }
    Canonical(Free(e, a, n), s);
  }

  /** What is left from position k on once n pages of the run there are taken. */
  function Shrunk(s: seq<Run>, k: nat, n: nat): seq<Run>
    requires k < |s| && n <= s[k].n
  {
    if s[k].n > n then [Run(s[k].at + n, s[k].n - n)] + s[k + 1..] else s[k + 1..]
  }

  lemma {:induction false} AllocSkip(s: seq<Run>, n: nat, k: nat)
    requires k <= |s| && forall i :: 0 <= i < k ==> s[i].n < n
    ensures Alloc(s, n).0 == s[..k] + Alloc(s[k..], n).0 && Alloc(s, n).1 == Alloc(s[k..], n).1
  {
    if k == 0 {
      assert s[0..] == s;
    } else {
      var t := s[1..];
      AllocSkip(t, n, k - 1);
      assert s[..k] == [s[0]] + t[..k - 1] && t[k - 1..] == s[k..];
    }
  }

  /** The first run that is large enough is the one that shrinks or goes. */
  lemma AllocAt(s: seq<Run>, n: nat, k: nat)
    requires k <= |s| && (forall i :: 0 <= i < k ==> s[i].n < n) && (k < |s| ==> s[k].n >= n)
    ensures k == |s| ==> Alloc(s, n) == (s, None)
    ensures k < |s| ==> Alloc(s, n).0 == s[..k] + Shrunk(s, k, n) && Alloc(s, n).1 == Some(s[k].at)
  {
    AllocSkip(s, n, k);
    var rest := s[k..];
    if k < |s| {
      assert rest[0] == s[k] && rest[1..] == s[k + 1..];
      assert Alloc(rest, n) == (Shrunk(s, k, n), Some(s[k].at));
    } else {
      assert rest == [] && s[..k] + [] == s;
    }
  }

  /** The runs before the freed pages and not touching them stay as they are. */
  lemma {:induction false} FreeSkip(s: seq<Run>, a: int, n: nat, k: nat)
    requires k <= |s| && forall i :: 0 <= i < k ==> s[i].at + s[i].n != a && s[i].at < a + n
    ensures Free(s, a, n) == s[..k] + Free(s[k..], a, n)
  {
    if k == 0 {
      assert s[0..] == s;
    } else {
      var t := s[1..];
      FreeSkip(t, a, n, k - 1);
      assert s[..k] == [s[0]] + t[..k - 1] && t[k - 1..] == s[k..];
    }
  }
}
