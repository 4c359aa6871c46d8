/** The early-exit bubble sort of the IRQ balancer (hardware/irqbalance/irqbalance.c). */
module IrqSort {
  /**
   One core's record.  `times` holds the ten counters of /proc/stat in file order: user, nice, system,
   idle, iowait, irq, softirq, steal, guest and guest_nice.
   */
  datatype CpuData = CpuData(core: nat, online: bool, times: seq<nat>, util: nat)

  ghost predicate Ascending(s: seq<CpuData>) {
    forall i, j :: 0 <= i < j < |s| ==> s[i].util <= s[j].util
  }

  /** The records with utilisation u, in order. */
  function Ties(s: seq<CpuData>, u: nat): seq<CpuData> {
    if s == [] then [] else (if s[0].util == u then [s[0]] else []) + Ties(s[1..], u)
  }

  /** `after` is `before` put in order, records of equal utilisation keeping their relative order. */
  ghost predicate Arranged(before: seq<CpuData>, after: seq<CpuData>) {
    Ascending(after) && TiesAgree(before, after)
  }

  ghost predicate TiesAgree(a: seq<CpuData>, b: seq<CpuData>) { forall u :: Ties(b, u) == Ties(a, u) }

  lemma {:induction false} TiesConcat(a: seq<CpuData>, b: seq<CpuData>, u: nat)
    ensures Ties(a + b, u) == Ties(a, u) + Ties(b, u)
  {
    if a == [] {
      assert a + b == b;
    } else {
      var first := if a[0].util == u then [a[0]] else [];
      assert (a + b)[0] == a[0] && (a + b)[1..] == a[1..] + b;
      TiesConcat(a[1..], b, u);
      assert Ties(a + b, u) == first + (Ties(a[1..], u) + Ties(b, u));
    }
  }

  /** Exchanging neighbours of different utilisation disturbs no ties. */
  lemma {:induction false} TiesSwap(s: seq<CpuData>, i: nat, u: nat)
    requires i + 1 < |s| && s[i].util != s[i + 1].util
    ensures Ties(s[i := s[i + 1]][i + 1 := s[i]], u) == Ties(s, u)
  {
    var x, y := s[i], s[i + 1];
    var front, back := s[..i], s[i + 2..];
    assert s == front + ([x, y] + back);
    assert s[i := y][i + 1 := x] == front + ([y, x] + back);
    TiesConcat(front, [x, y] + back, u);
    TiesConcat(front, [y, x] + back, u);
    TiesConcat([x, y], back, u);
    TiesConcat([y, x], back, u);
    assert [x, y][1..] == [y] && [y, x][1..] == [x];
  }

  lemma SwapKeepsTies(before: seq<CpuData>, s: seq<CpuData>, i: nat)
    requires TiesAgree(before, s) && i + 1 < |s| && s[i].util != s[i + 1].util
    ensures TiesAgree(before, s[i := s[i + 1]][i + 1 := s[i]])
  {
    forall u { TiesSwap(s, i, u); }
  }

  lemma AgreesWithItself(s: seq<CpuData>)
    ensures TiesAgree(s, s)
  {
  }

  method SortByUtil(a: array<CpuData>)
    modifies a
    ensures Arranged(old(a[..]), a[..])
  {
    hide TiesAgree;
    AgreesWithItself(a[..]);
    var n := a.Length;
    var swp := true;
    while swp
      invariant n <= a.Length && (swp ==> 0 <= n)
      invariant forall i, j :: 0 <= i < j < a.Length && n <= j ==> a[i].util <= a[j].util
      invariant !swp ==> Ascending(a[..])
      invariant TiesAgree(old(a[..]), a[..])
      decreases n
    {
      swp := false;
      var i := 0;
      while i < n - 1
        invariant 0 <= i && (n > 0 ==> i < n)
        invariant forall k :: 0 <= k < i && i < a.Length ==> a[k].util <= a[i].util
        invariant forall i, j :: 0 <= i < j < a.Length && n <= j ==> a[i].util <= a[j].util
        invariant !swp ==> forall k, l :: 0 <= k < l <= i && l < a.Length ==> a[k].util <= a[l].util
        invariant swp ==> 2 <= n
        invariant TiesAgree(old(a[..]), a[..])
      {
        if a[i].util > a[i + 1].util {
          ghost var was := a[..];
          a[i], a[i + 1] := a[i + 1], a[i];
          assert a[..] == was[i := was[i + 1]][i + 1 := was[i]];
          SwapKeepsTies(old(a[..]), was, i);
          swp := true;
        }
        i := i + 1;
      }
      n := n - 1;
    }
  }

  // -------------------------------------------------------------------------------------
  // What Arranged means.

  lemma {:induction false} TiesHoldAll(s: seq<CpuData>, x: CpuData)
    ensures multiset(Ties(s, x.util))[x] == multiset(s)[x]
  {
    if s != [] {
      TiesHoldAll(s[1..], x);
      assert s == [s[0]] + s[1..];
    }
  }

  /** The records are permuted, none is lost, changed or doubled: each core id stays with its own record. */
  lemma ArrangedPermutes(before: seq<CpuData>, after: seq<CpuData>)
    requires Arranged(before, after)
    ensures multiset(after) == multiset(before)
  {
    forall x
      ensures multiset(after)[x] == multiset(before)[x]
    {
      TiesHoldAll(before, x);
      TiesHoldAll(after, x);
    }
  }

  lemma {:induction false} TiesFirst(s: seq<CpuData>)
    requires s != [] && Ascending(s)
    ensures |Ties(s, s[0].util)| > 0 && Ties(s, s[0].util)[0] == s[0]
    ensures forall u :: Ties(s, u) != [] ==> s[0].util <= u
    ensures forall u :: Ties(s[1..], u) == if u == s[0].util then Ties(s, u)[1..] else Ties(s, u)
  {
    forall u
      ensures Ties(s, u) != [] ==> s[0].util <= u
    {
      if Ties(s, u) != [] { TiesMember(s, u); }
    }
  }

  lemma {:induction false} TiesMember(s: seq<CpuData>, u: nat)
    requires Ties(s, u) != []
    ensures exists i :: 0 <= i < |s| && s[i].util == u
  {
    if s[0].util != u {
      TiesMember(s[1..], u);
      var i :| 0 <= i < |s[1..]| && s[1..][i].util == u;
      assert s[i + 1].util == u;
    }
  }

  /** There is only one such arrangement, so the sort is a function of the records. */
  lemma {:induction false} ArrangedIsUnique(before: seq<CpuData>, a: seq<CpuData>, b: seq<CpuData>)
    requires Arranged(before, a) && Arranged(before, b)
    ensures a == b
    decreases |a|
  {
    assert forall u :: Ties(a, u) == Ties(b, u);
    SameTies(a, b);
  }

  lemma {:induction false} SameTies(a: seq<CpuData>, b: seq<CpuData>)
    requires Ascending(a) && Ascending(b) && forall u :: Ties(a, u) == Ties(b, u)
    ensures a == b
    decreases |a|
  {
    if a == [] {
      if b != [] { TiesFirst(b); }
    } else {
      TiesFirst(a);
      assert Ties(b, a[0].util) != [];
      TiesMember(b, a[0].util);
      TiesFirst(b);
      assert Ties(a, b[0].util) != [];
      assert a[0] == b[0];
      assert forall u :: Ties(a[1..], u) == Ties(b[1..], u);
      SameTies(a[1..], b[1..]);
      assert a == [a[0]] + a[1..] && b == [b[0]] + b[1..];
    }
  }
}
