/** Sharing the IRQs out to the cores (hardware/irqbalance/irqbalance.c, irqbalance_main). */
module IrqAllot {
  import opened CText
  import opened IrqSort
  import opened Options

  // -------------------------------------------------------------------------------------
  // The share of one core.

  /** The least integer not below x. */
  function Ceil(x: real): int { -((-x).Floor) }

  /** root(u) is the square root of u/100; the rounding of sqrt is not modelled. */
  ghost predicate Roots(root: nat -> real) {
    forall u: nat :: 0.0 <= root(u) && root(u) * root(u) == u as real / 100.0
  }

  /** The source's formula for a core of utilisation u when `others` online cores follow. */
  function Formula(left: nat, others: nat, root: real): int
    requires others > 0
  {
    Ceil((left as real - root * left as real) / others as real)
  }

  function Square(x: int): int { x * x }

  /** `m` IRQs for each of the other cores leave at most the fraction sqrt(u/100) of `left`. */
  predicate Covers(m: int, left: nat, others: nat, u: nat) {
    left <= m * others || 100 * Square(left - m * others) <= u * Square(left)
  }

  lemma AllCovers(left: nat, others: nat, u: nat)
    requires others > 0
    ensures Covers(left, left, others, u)
  {
    assert left <= left * others;
  }

  /** The least m at or above `from` that covers. */
  function LeastFrom(from: int, left: nat, others: nat, u: nat): (m: int)
    requires others > 0 && from <= left
    ensures from <= m <= left && Covers(m, left, others, u)
    ensures forall k :: from <= k < m ==> !Covers(k, left, others, u)
    decreases left - from
  {
    AllCovers(left, others, u);
    if Covers(from, left, others, u) then from else LeastFrom(from + 1, left, others, u)
  }

  /** Low enough for any share. */
  function Lowest(left: nat, u: nat): (r: int)
    ensures r < 0
  {
    -(left * u) - 1
  }

  /** The share in integers alone; it is negative for some utilisations above 100. */
  function Share(left: nat, others: nat, u: nat): (m: int)
    requires others > 0
    ensures m <= left
  {
    LeastFrom(Lowest(left, u), left, others, u)
  }

  lemma LowestCoversNot(left: nat, others: nat, u: nat)
    requires others > 0
    ensures !Covers(Lowest(left, u), left, others, u)
  {
    var low := Lowest(left, u);
    var p := left * u;
    assert low * others <= low by { assert (-low) * (others - 1) >= 0; }
    var d := left - low * others;
    assert d >= p + 1;
    SquareGrows(p + 1, d);
    assert Square(p + 1) > Square(p);
    SquareOfMultiple(left, u);
  }

  lemma SquareGrows(a: int, b: int)
    requires 0 <= a <= b
    ensures Square(a) <= Square(b)
  {
    assert a * a <= a * b <= b * b;
  }

  lemma SquareOfMultiple(left: nat, u: nat)
    ensures u * Square(left) <= Square(left * u)
  {
    var q := left * left;
    var x := left * u;
    assert left * x == q * u;
    assert x * x == u * (left * x);
    ProductAtLeast(u, q * u);
  }

  lemma ProductAtLeast(a: nat, b: nat)
    requires b > 0 ==> a > 0
    ensures a * b >= b
  {
    if a > 0 { assert (a - 1) * b >= 0; }
  }

  /** Share is the least m that covers. */
  lemma ShareIsLeast(left: nat, others: nat, u: nat)
    requires others > 0
    ensures Covers(Share(left, others, u), left, others, u) && !Covers(Share(left, others, u) - 1, left, others, u)
  {
    LowestCoversNot(left, others, u);
  }

  lemma CoversUpwards(m: int, k: int, left: nat, others: nat, u: nat)
    requires m <= k && Covers(m, left, others, u)
    ensures Covers(k, left, others, u)
  {
    assert m * others <= k * others;
    if left > k * others { SquareGrows(left - k * others, left - m * others); }
  }

  /** The core gets less than nothing. */
  predicate Negative(left: nat, others: nat, u: nat) { 100 * Square(left + others) <= u * Square(left) }

  /** The share is negative exactly if the utilisation is that far above 100 for the IRQs left. */
  lemma NegativeIff(left: nat, others: nat, u: nat)
    requires others > 0
    ensures Share(left, others, u) < 0 <==> Negative(left, others, u)
  {
    hide Square;
    ShareIsLeast(left, others, u);
    var m := Share(left, others, u);
    assert Covers(-1, left, others, u) <==> Negative(left, others, u) by { assert left - (-1) * others == left + others; }
    if m < 0 {
      CoversUpwards(m, -1, left, others, u);
    } else if Negative(left, others, u) {
      CoversUpwards(-1, m - 1, left, others, u);
    }
  }

  /** Up to 100 it never is. */
  lemma NotNegative(left: nat, others: nat, u: nat)
    requires others > 0 && u <= 100
    ensures !Negative(left, others, u)
  {
    var q := Square(left);
    assert Square(left + others) == q + 2 * (left * others) + others * others;
    assert u * q <= 100 * q;
  }

  /** From 100 on a core gets nothing, or less, while others follow. */
  lemma BusyShare(left: nat, others: nat, u: nat)
    requires others > 0 && u >= 100
    ensures Share(left, others, u) <= 0
  {
    ShareIsLeast(left, others, u);
    var m := Share(left, others, u);
    assert left - 0 * others == left;
    assert 100 * Square(left) <= u * Square(left);
    if m > 0 { CoversUpwards(0, m - 1, left, others, u); }
  }

  lemma ProductPositive(x: real, y: real)
    requires 0.0 < x && 0.0 < y
    ensures 0.0 < x * y
  {
  }

  lemma SquaresOrder(a: real, b: real)
    requires 0.0 <= a && 0.0 <= b
    ensures a <= b <==> a * a <= b * b
  {
    if a <= b {
      assert a * a <= a * b <= b * b;
    } else {
      ProductPositive(a - b, a + b);
      assert (a - b) * (a + b) == a * a - b * b;
    }
  }

  /** The comparison of squares that Covers makes is the comparison with the root. */
  lemma SquaredTest(d: nat, left: nat, u: nat, root: real)
    requires 0.0 <= root && root * root == u as real / 100.0
    ensures 100 * Square(d) <= u * Square(left) <==> d as real <= root * left as real
  {
    var l, r := left as real, d as real;
    RootNonNegative(root, l);
    SquaresOrder(r, root * l);
    SquareOfProduct(root, l, u);
    SquareAsReal(d);
    SquareAsReal(left);
    HundredTimes(Square(d), u, Square(left));
  }

  lemma SquareAsReal(x: int)
    ensures Square(x) as real == x as real * x as real
  {
  }

  lemma ProductAsReal(x: int, y: int)
    ensures (x * y) as real == x as real * y as real
  {
  }

  /** The test of the real formula, squared and cleared of the root. */
  lemma CoversIsCeil(m: int, left: nat, others: nat, u: nat, root: real)
    requires others > 0 && 0.0 <= root && root * root == u as real / 100.0
    ensures Covers(m, left, others, u) <==> (left as real - root * left as real) / others as real <= m as real
  {
    hide Square;
    var l, n, k := left as real, others as real, m as real;
    var p := m * others;
    ProductAsReal(m, others);
    QuotientOrder(l - root * l, n, k);
    RootNonNegative(root, l);
    if left > p { SquaredTest(left - p, left, u, root); }
  }

  lemma QuotientOrder(x: real, n: real, k: real)
    requires n > 0.0
    ensures x / n <= k <==> x <= k * n
  {
    var y := x / n;
    assert y * n == x;
    if y <= k { assert y * n <= k * n; } else { assert k * n < y * n; }
  }

  lemma RootNonNegative(root: real, l: real)
    requires 0.0 <= root && 0.0 <= l
    ensures 0.0 <= root * l
  {
  }

  lemma SquareOfProduct(root: real, l: real, u: nat)
    requires root * root == u as real / 100.0
    ensures (root * l) * (root * l) == u as real / 100.0 * (l * l)
  {
    assert (root * l) * (root * l) == (root * root) * (l * l);
  }

  lemma HundredTimes(a: int, u: nat, b: int)
    ensures 100 * a <= u * b <==> a as real <= u as real / 100.0 * b as real
  {
    var x := u as real / 100.0 * b as real;
    assert (u * b) as real == u as real * b as real;
    assert x * 100.0 == u as real * b as real;
  }

  lemma CeilIsLeast(x: real, m: int)
    ensures x <= m as real <==> Ceil(x) <= m
  {
    var f := (-x).Floor;
    assert f as real <= -x < f as real + 1.0;
  }

  /** The floating-point share, rounding aside, is the integer one, whatever the utilisation. */
  lemma FormulaIsShare(left: nat, others: nat, u: nat, root: real)
    requires others > 0 && 0.0 <= root && root * root == u as real / 100.0
    ensures Formula(left, others, root) == Share(left, others, u)
  {
    hide Share, Covers, Ceil;
    var x := (left as real - root * left as real) / others as real;
    var m := Share(left, others, u);
    ShareIsLeast(left, others, u);
    CoversIsCeil(m, left, others, u, root);
    CeilIsLeast(x, m);
    CoversIsCeil(m - 1, left, others, u, root);
    CeilIsLeast(x, m - 1);
  }

  /** It lies in 0..left for every utilisation up to 100. */
  lemma ShareInRange(left: nat, others: nat, u: nat)
    requires others > 0 && u <= 100
    ensures 0 <= Share(left, others, u) <= left
  {
    NegativeIff(left, others, u);
    NotNegative(left, others, u);
  }

  // -------------------------------------------------------------------------------------
  // The allotment.

  /** irqs[index] is bound to `core`; `rank` is the place of that core in the sorted records. */
  datatype Binding = Binding(index: int, irq: int, core: nat, rank: int)

  function Online(cpus: seq<CpuData>): (n: nat)
    ensures n <= |cpus|
  {
    if cpus == [] then 0 else Online(cpus[..|cpus| - 1]) + if cpus[|cpus| - 1].online then 1 else 0
  }

  function Block(irqs: seq<int>, from: nat, n: nat, core: nat, rank: int): (r: seq<Binding>)
    requires from + n <= |irqs|
    ensures |r| == n
    ensures forall k :: 0 <= k < n ==> r[k] == Binding(from + k, irqs[from + k], core, rank)
  {
    seq(n, k requires 0 <= k < n => Binding(from + k, irqs[from + k], core, rank))
  }

  /** `(int)cpu_util`, which the walk computes with. */
  function Cast(u: nat): int { ToInt32(u) }

  /**
   The number of IRQs that go to cpus[i]: its share, or all that is left if it is the last online core.
   None: the cast made the utilisation negative, and the root is not a number.
   */
  function Given(cpus: seq<CpuData>, i: nat, left: nat): (n: Option<int>)
    requires i < |cpus|
    ensures n.Some? ==> n.value <= left
  {
    var others := Online(cpus[..i]);
    if others == 0 then Some(left)
    else if Cast(cpus[i].util) < 0 then None
    else Some(Share(left, others, Cast(cpus[i].util)))
  }

  /** OutOfArray: an element before the first of irqs is read.  Undefined: not a number is converted to int. */
  datatype Outcome = Balanced(bindings: seq<Binding>) | OutOfArray | Undefined

  function After(bound: seq<Binding>, rest: Outcome): Outcome {
    if rest.Balanced? then Balanced(bound + rest.bindings) else rest
  }

  /** What the walk from the `i`-th sorted core downwards does when `done` IRQs are processed. */
  function Allotment(cpus: seq<CpuData>, i: nat, irqs: seq<int>, done: int): Outcome
    requires i <= |cpus| && done <= |irqs|
    decreases i
  {
    if i == 0 || done == |irqs| then Balanced([])
    else if !cpus[i - 1].online then Allotment(cpus, i - 1, irqs, done)
    else match Given(cpus, i - 1, |irqs| - done)
      case None => Undefined
      case Some(n) =>
        if n <= 0 then Allotment(cpus, i - 1, irqs, done + n)
        else if done < 0 then OutOfArray
        else After(Block(irqs, done, n, cpus[i - 1].core, i - 1), Allotment(cpus, i - 1, irqs, done + n))
  }

  /** Every IRQ from `done` on is bound once, in order, to an online core, busier cores first. */
  ghost predicate Partitions(cpus: seq<CpuData>, irqs: seq<int>, done: nat, below: int, bs: seq<Binding>) {
    && |bs| == |irqs| - done
    && (forall k :: 0 <= k < |bs| ==>
          && bs[k].index == done + k && 0 <= done + k < |irqs| && bs[k].irq == irqs[done + k]
          && 0 <= bs[k].rank < below && bs[k].rank < |cpus|
          && cpus[bs[k].rank].online && cpus[bs[k].rank].core == bs[k].core)
    && (forall k, l :: 0 <= k < l < |bs| ==> bs[l].rank <= bs[k].rank)
  }

  lemma OnlineNext(cpus: seq<CpuData>, i: nat)
    requires 0 < i <= |cpus|
    ensures Online(cpus[..i]) == Online(cpus[..i - 1]) + if cpus[i - 1].online then 1 else 0
  {
    assert cpus[..i][..i - 1] == cpus[..i - 1];
  }

  lemma PrependBlock(cpus: seq<CpuData>, irqs: seq<int>, done: nat, n: nat, i: nat, tail: seq<Binding>)
    requires i < |cpus| && cpus[i].online && done + n <= |irqs| && Partitions(cpus, irqs, done + n, i, tail)
    ensures Partitions(cpus, irqs, done, i + 1, Block(irqs, done, n, cpus[i].core, i) + tail)
  {
    hide Block;
  }

  lemma PartitionsWiden(cpus: seq<CpuData>, irqs: seq<int>, done: nat, i: nat, bs: seq<Binding>)
    requires Partitions(cpus, irqs, done, i, bs)
    ensures Partitions(cpus, irqs, done, i + 1, bs)
  {
  }

  /**
   The walk from the i-th sorted core downwards goes wrong when `done` of n IRQs are processed: a core
   that others follow has no root, or gets less than nothing, or so has one of those after it.
   */
  predicate Fails(cpus: seq<CpuData>, i: nat, n: nat, done: nat)
    requires i <= |cpus| && done <= n
    decreases i
  {
    if i == 0 || done == n then false
    else if !cpus[i - 1].online then Fails(cpus, i - 1, n, done)
    else
      var others, u := Online(cpus[..i - 1]), Cast(cpus[i - 1].util);
      others > 0 && (u < 0 || Negative(n - done, others, u) ||
        (NegativeIff(n - done, others, u); Fails(cpus, i - 1, n, done + Share(n - done, others, u))))
  }

  lemma FailsStep(cpus: seq<CpuData>, i: nat, n: nat, done: nat)
    requires 0 < i <= |cpus| && done < n
    ensures Fails(cpus, i, n, done) ==
      if !cpus[i - 1].online then Fails(cpus, i - 1, n, done)
      else
        var others, u := Online(cpus[..i - 1]), Cast(cpus[i - 1].util);
        others > 0 && (u < 0 || Negative(n - done, others, u) ||
          (NegativeIff(n - done, others, u); Fails(cpus, i - 1, n, done + Share(n - done, others, u))))
  {
    hide Negative, Share, Online, Cast;
  }

  /** If nothing goes wrong, every IRQ left is bound once. */
  lemma {:induction false} AllotmentPartitions(cpus: seq<CpuData>, i: nat, irqs: seq<int>, done: nat)
    requires i <= |cpus| && done <= |irqs| && !Fails(cpus, i, |irqs|, done)
    requires Online(cpus[..i]) > 0 || done == |irqs|
    ensures var o := Allotment(cpus, i, irqs, done); o.Balanced? && Partitions(cpus, irqs, done, i, o.bindings)
    decreases i
  {
    hide Partitions, Share, Online, Block, Allotment, Given, Fails, Negative, Cast;
    OnlineNone(cpus);
    if done == |irqs| {
      AllBound(cpus, i, irqs);
    } else {
      AllotmentStep(cpus, i, irqs, done);
      FailsStep(cpus, i, |irqs|, done);
      OnlineNext(cpus, i);
      if !cpus[i - 1].online {
        AllotmentPartitions(cpus, i - 1, irqs, done);
        PartitionsWiden(cpus, irqs, done, i - 1, Allotment(cpus, i - 1, irqs, done).bindings);
      } else {
        GivenIs(cpus, i - 1, |irqs| - done);
        var n := Given(cpus, i - 1, |irqs| - done).value;
        if done + n == |irqs| { DoneNeverFails(cpus, i - 1, |irqs|); }
        AllotmentPartitions(cpus, i - 1, irqs, done + n);
        var rest := Allotment(cpus, i - 1, irqs, done + n).bindings;
        PrependBlock(cpus, irqs, done, n, i - 1, rest);
        if n == 0 { NothingBound(irqs, done, cpus[i - 1].core, i - 1, rest); }
      }
    }
  }

  lemma DoneNeverFails(cpus: seq<CpuData>, i: nat, n: nat)
    requires i <= |cpus|
    ensures !Fails(cpus, i, n, n)
  {
    hide Negative, Share, Online, Cast;
    if i > 0 { DoneNeverFails(cpus, i - 1, n); }
  }

  /** What Given is, and when it is negative. */
  lemma GivenIs(cpus: seq<CpuData>, i: nat, left: nat)
    requires i < |cpus|
    ensures var others, u, g := Online(cpus[..i]), Cast(cpus[i].util), Given(cpus, i, left);
      if others == 0 then g == Some(left)
      else if u < 0 then g == None
      else g == Some(Share(left, others, u)) && (g.value < 0 <==> Negative(left, others, u)) && g.value <= left
  {
    hide Share, Negative, Cast;
    var others, u := Online(cpus[..i]), Cast(cpus[i].util);
    if others > 0 && u >= 0 { NegativeIff(left, others, u); }
  }

  /** A count below zero is never made good: some core still to come leaves the array, or has no root. */
  lemma {:induction false} BelowZeroIsLost(cpus: seq<CpuData>, i: nat, irqs: seq<int>, done: int)
    requires i <= |cpus| && done < 0 && Online(cpus[..i]) > 0
    ensures !Allotment(cpus, i, irqs, done).Balanced?
    ensures Castable(cpus) ==> Allotment(cpus, i, irqs, done) == OutOfArray
    decreases i
  {
    hide Share, Online, Allotment, Given, Negative, Cast;
    OnlineNone(cpus);
    OnlineNext(cpus, i);
    AllotmentStep(cpus, i, irqs, done);
    if !cpus[i - 1].online {
      BelowZeroIsLost(cpus, i - 1, irqs, done);
    } else {
      GivenIs(cpus, i - 1, |irqs| - done);
      CastKeeps(cpus[i - 1].util);
      var n := Given(cpus, i - 1, |irqs| - done);
      if n.Some? && n.value <= 0 { BelowZeroIsLost(cpus, i - 1, irqs, done + n.value); }
    }
  }

  lemma CastKeeps(u: nat)
    ensures u <= INT_MAX ==> Cast(u) == u
  {
  }

  /** A walk that ends inside the array has made at least one binding for each IRQ left. */
  lemma {:induction false} BindsEnough(cpus: seq<CpuData>, i: nat, irqs: seq<int>, done: int)
    requires i <= |cpus| && done <= |irqs| && Online(cpus[..i]) > 0 && Allotment(cpus, i, irqs, done).Balanced?
    ensures |Allotment(cpus, i, irqs, done).bindings| >= |irqs| - done
    decreases i
  {
    hide Share, Online, Allotment, Given, Negative, Cast, Block;
    OnlineNone(cpus);
    OnlineNext(cpus, i);
    if done < |irqs| {
      AllotmentStep(cpus, i, irqs, done);
      if !cpus[i - 1].online {
        BindsEnough(cpus, i - 1, irqs, done);
      } else {
        GivenIs(cpus, i - 1, |irqs| - done);
        var n := Given(cpus, i - 1, |irqs| - done).value;
        if Online(cpus[..i - 1]) > 0 { BindsEnough(cpus, i - 1, irqs, done + n); }
      }
    }
  }

  /** If something goes wrong, the walk does not end with one binding for each IRQ left. */
  lemma {:induction false} FailureMiscounts(cpus: seq<CpuData>, i: nat, irqs: seq<int>, done: nat)
    requires i <= |cpus| && done <= |irqs| && Fails(cpus, i, |irqs|, done)
    ensures var o := Allotment(cpus, i, irqs, done); !(o.Balanced? && |o.bindings| == |irqs| - done)
    decreases i
  {
    hide Share, Online, Allotment, Given, Negative, Cast, Block, Fails;
    FailsUnfinished(cpus, i, |irqs|, done);
    AllotmentStep(cpus, i, irqs, done);
    FailsStep(cpus, i, |irqs|, done);
    if !cpus[i - 1].online {
      FailureMiscounts(cpus, i - 1, irqs, done);
    } else {
      GivenIs(cpus, i - 1, |irqs| - done);
      var g := Given(cpus, i - 1, |irqs| - done);
      if g.Some? {
        var n := g.value;
        if n >= 0 {
          FailureMiscounts(cpus, i - 1, irqs, done + n);
        } else if done + n < 0 {
          BelowZeroIsLost(cpus, i - 1, irqs, done + n);
        } else if Allotment(cpus, i - 1, irqs, done + n).Balanced? {
          BindsEnough(cpus, i - 1, irqs, done + n);
        }
      }
    }
  }

  lemma FailsUnfinished(cpus: seq<CpuData>, i: nat, n: nat, done: nat)
    requires i <= |cpus| && done <= n && Fails(cpus, i, n, done)
    ensures i > 0 && done < n
  {
    hide Negative, Share, Online, Cast;
    if done == n { DoneNeverFails(cpus, i, n); }
  }

  /**
   From any point of the walk on, over records in any order and of any utilisation, with an online core
   to come: every IRQ left is bound exactly once, in order, exactly if nothing goes wrong.
   */
  lemma WalkIff(cpus: seq<CpuData>, i: nat, irqs: seq<int>, done: nat)
    requires i <= |cpus| && done <= |irqs| && Online(cpus[..i]) > 0
    ensures var o := Allotment(cpus, i, irqs, done);
      && (o.Balanced? && Partitions(cpus, irqs, done, i, o.bindings) <==> !Fails(cpus, i, |irqs|, done))
      && (o.Balanced? && |o.bindings| == |irqs| - done <==> !Fails(cpus, i, |irqs|, done))
  {
    hide Allotment, Online, Fails;
    if Fails(cpus, i, |irqs|, done) {
      FailureMiscounts(cpus, i, irqs, done);
    } else {
      AllotmentPartitions(cpus, i, irqs, done);
    }
  }

  /** Utilisations within 100 never go wrong. */
  lemma {:induction false} BoundedNeverFails(cpus: seq<CpuData>, i: nat, n: nat, done: nat)
    requires i <= |cpus| && done <= n && forall k :: 0 <= k < i ==> cpus[k].util <= 100
    ensures !Fails(cpus, i, n, done)
    decreases i
  {
    hide Negative, Share, Online, Cast;
    if i > 0 && done < n {
      if !cpus[i - 1].online {
        BoundedNeverFails(cpus, i - 1, n, done);
      } else if Online(cpus[..i - 1]) > 0 {
        var others, u := Online(cpus[..i - 1]), cpus[i - 1].util;
        CastKeeps(u);
        NotNegative(n - done, others, u);
        NegativeIff(n - done, others, u);
        BoundedNeverFails(cpus, i - 1, n, done + Share(n - done, others, u));
      }
    }
  }

  lemma NothingBound(irqs: seq<int>, done: nat, core: nat, rank: int, rest: seq<Binding>)
    requires done <= |irqs|
    ensures Block(irqs, done, 0, core, rank) + rest == rest
  {
  }

  lemma OnlineNone(cpus: seq<CpuData>)
    ensures Online(cpus[..0]) == 0
  {
  }

  /** With no core online nothing is bound. */
  lemma {:induction false} NoCoreNoBinding(cpus: seq<CpuData>, i: nat, irqs: seq<int>, done: nat)
    requires i <= |cpus| && done <= |irqs|
    requires Online(cpus[..i]) == 0
    ensures Allotment(cpus, i, irqs, done) == Balanced([])
    decreases i
  {
    hide Share, Online;
    if i > 0 {
      OnlineNext(cpus, i);
      NoCoreNoBinding(cpus, i - 1, irqs, done);
    }
  }

  predicate Bounded(cpus: seq<CpuData>) { forall k :: 0 <= k < |cpus| ==> cpus[k].util <= 100 }

  const INT_MAX := 0x7FFF_FFFF

  /** The cast to int keeps every utilisation. */
  predicate Castable(cpus: seq<CpuData>) { forall k :: 0 <= k < |cpus| ==> cpus[k].util <= INT_MAX }

  /** The k-th sorted core takes the count of processed IRQs below zero. */
  predicate Overdraws(cpus: seq<CpuData>, k: nat, irqs: nat)
    requires k < |cpus|
  {
    cpus[k].online && Online(cpus[..k]) > 0 && Negative(irqs, Online(cpus[..k]), cpus[k].util)
  }

  predicate Overdrawn(cpus: seq<CpuData>, i: nat, irqs: nat)
    requires i <= |cpus|
  {
    exists k :: 0 <= k < i && Overdraws(cpus, k, irqs)
  }

  lemma {:induction false} NobodyBefore(cpus: seq<CpuData>, i: nat, irqs: nat)
    requires i < |cpus| && Online(cpus[..i]) == 0
    ensures !Overdrawn(cpus, i + 1, irqs)
  {
    if k :| 0 <= k < i && Overdraws(cpus, k, irqs) {
      assert cpus[..i][k] == cpus[k];
      SomeOnline(cpus[..i], k);
    }
  }

  lemma BoundedIsNotOverdrawn(cpus: seq<CpuData>, i: nat, irqs: nat)
    requires i <= |cpus| && forall k :: 0 <= k < i ==> cpus[k].util <= 100
    ensures !Overdrawn(cpus, i, irqs)
  {
    hide Negative, Online;
    forall k | 0 <= k < i
      ensures !Overdraws(cpus, k, irqs)
    {
      if Online(cpus[..k]) > 0 { NotNegative(irqs, Online(cpus[..k]), cpus[k].util); }
    }
  }

  lemma NothingToOverdraw(cpus: seq<CpuData>, i: nat)
    requires i <= |cpus|
    ensures !Overdrawn(cpus, i, 0)
  {
    forall k | 0 <= k < i && Online(cpus[..k]) > 0
      ensures !Negative(0, Online(cpus[..k]), cpus[k].util)
    {
      assert Square(0) == 0 && Square(Online(cpus[..k])) > 0;
    }
  }

  lemma OverdrawnNext(cpus: seq<CpuData>, i: nat, irqs: nat)
    requires 0 < i <= |cpus|
    ensures Overdrawn(cpus, i, irqs) <==> Overdraws(cpus, i - 1, irqs) || Overdrawn(cpus, i - 1, irqs)
  {
  }

  /**
   For sorted records whose utilisations survive the cast, the condition is on each core by itself: the
   walk stays inside the array, and then binds every IRQ once, exactly if no core overdraws.
   */
  lemma {:induction false} SortedWalkIff(cpus: seq<CpuData>, i: nat, irqs: seq<int>)
    requires i <= |cpus| && Ascending(cpus) && Castable(cpus) && Online(cpus[..i]) > 0
    ensures var o := Allotment(cpus, i, irqs, 0);
      && o != Undefined
      && (o.Balanced? <==> !Overdrawn(cpus, i, |irqs|))
      && (o.Balanced? ==> Partitions(cpus, irqs, 0, i, o.bindings))
    decreases i
  {
    hide Share, Online, Allotment, Negative, Overdrawn, Overdraws, Partitions, Block, Fails, Given;
    OnlineNone(cpus);
    if irqs == [] {
      NothingToOverdraw(cpus, i);
      NoIrqs(cpus, i);
    } else {
      OnlineNext(cpus, i);
      OverdrawnNext(cpus, i, |irqs|);
      AllotmentStep(cpus, i, irqs, 0);
      if !cpus[i - 1].online {
        OfflineDrawsNothing(cpus, i - 1, |irqs|);
        SortedWalkIff(cpus, i - 1, irqs);
        if Allotment(cpus, i - 1, irqs, 0).Balanced? {
          PartitionsWiden(cpus, irqs, 0, i - 1, Allotment(cpus, i - 1, irqs, 0).bindings);
        }
      } else if cpus[i - 1].util <= 100 {
        BoundedIsNotOverdrawn(cpus, i, |irqs|);
        BoundedNeverFails(cpus, i, |irqs|, 0);
        AllotmentPartitions(cpus, i, irqs, 0);
      } else {
        WalkPastBusy(cpus, i, irqs);
      }
    }
  }

  lemma OfflineDrawsNothing(cpus: seq<CpuData>, k: nat, irqs: nat)
    requires k < |cpus| && !cpus[k].online
    ensures !Overdraws(cpus, k, irqs)
  {
  }

  lemma NoIrqs(cpus: seq<CpuData>, i: nat)
    requires i <= |cpus|
    ensures Allotment(cpus, i, [], 0) == Balanced([]) && Partitions(cpus, [], 0, i, [])
  {
  }

  /** The step of SortedWalkIff at a core above 100. */
  lemma {:induction false} WalkPastBusy(cpus: seq<CpuData>, i: nat, irqs: seq<int>)
    requires 0 < i <= |cpus| && Ascending(cpus) && Castable(cpus) && irqs != []
    requires cpus[i - 1].online && cpus[i - 1].util > 100
    ensures var o := Allotment(cpus, i, irqs, 0);
      && o != Undefined
      && (o.Balanced? <==> !Overdrawn(cpus, i, |irqs|))
      && (o.Balanced? ==> Partitions(cpus, irqs, 0, i, o.bindings))
    decreases i, 0
  {
    hide Share, Online, Allotment, Negative, Overdrawn, Partitions, Block;
    var others, u := Online(cpus[..i - 1]), cpus[i - 1].util;
    OverdrawnNext(cpus, i, |irqs|);
    AllotmentStep(cpus, i, irqs, 0);
    if others == 0 {
      NobodyBefore(cpus, i - 1, |irqs|);
      AllBound(cpus, i - 1, irqs);
      PrependBlock(cpus, irqs, 0, |irqs|, i - 1, []);
    } else {
      BusyShare(|irqs|, others, u);
      NegativeIff(|irqs|, others, u);
      if Share(|irqs|, others, u) < 0 {
        BelowZeroIsLost(cpus, i - 1, irqs, Share(|irqs|, others, u));
      } else {
        SortedWalkIff(cpus, i - 1, irqs);
        if Allotment(cpus, i - 1, irqs, 0).Balanced? {
          PartitionsWiden(cpus, irqs, 0, i - 1, Allotment(cpus, i - 1, irqs, 0).bindings);
        }
      }
    }
  }

  lemma AllBound(cpus: seq<CpuData>, i: nat, irqs: seq<int>)
    requires i <= |cpus|
    ensures Allotment(cpus, i, irqs, |irqs|) == Balanced([]) && Partitions(cpus, irqs, |irqs|, i, [])
  {
  }

  /** What balancing does: the walk over the records put in order. */
  ghost predicate IsBalance(cpus: seq<CpuData>, irqs: seq<int>, outcome: Outcome) {
    exists sorted :: Arranged(cpus, sorted) && outcome == Allotment(sorted, |sorted|, irqs, 0)
  }

  /** The local copy of the records, sorted; the records themselves stay as they are. */
  method SortedCopy(cpudata: array<CpuData>) returns (c: array<CpuData>)
    ensures fresh(c) && Arranged(cpudata[..], c[..])
  {
    c := new CpuData[cpudata.Length](i requires 0 <= i < cpudata.Length reads cpudata => cpudata[i]);
    assert c[..] == cpudata[..];
    SortByUtil(c);
  }

  /** The number of IRQs for a core when `others` online cores come after it. */
  method IrqNum(left: nat, others: nat, util: nat, root: nat -> real) returns (irqnum: Option<int>)
    requires Roots(root)
    ensures irqnum == if others == 0 then Some(left) else if Cast(util) < 0 then None else Some(Share(left, others, Cast(util)))
  {
    hide Share, ToInt32;
    if others == 0 {
      return Some(left);
    }
    var u := Cast(util);
    if u < 0 {
      return None;
    }
    FormulaIsShare(left, others, u, root(u));
    irqnum := Some(Formula(left, others, root(u)));
  }

  /** The loop that writes one core's affinity for the next `irqnum` IRQs, if that is a positive number. */
  method Bind(irqs: array<int>, processed: int, irqnum: int, core: nat, rank: int) returns (bound: seq<Binding>)
    requires irqnum > 0 ==> 0 <= processed && processed + irqnum <= irqs.Length
    ensures bound == if irqnum <= 0 then [] else Block(irqs[..], processed, irqnum, core, rank)
  {
    bound := [];
    var j := 0;
    while j < irqnum && processed < irqs.Length
      invariant 0 <= j == |bound| && if irqnum > 0 then j <= irqnum else j == 0
      invariant forall k :: 0 <= k < j ==> irqnum > 0 && bound[k] == Binding(processed + k, irqs[processed + k], core, rank)
    {
      bound := bound + [Binding(processed + j, irqs[processed + j], core, rank)];
      j := j + 1;
    }
  }

  /** The walk over the sorted cores, from the busiest down. */
  method Walk(c: array<CpuData>, irqs: array<int>, root: nat -> real) returns (outcome: Outcome)
    requires Roots(root)
    ensures outcome == Allotment(c[..], c.Length, irqs[..], 0)
  {
    hide Share, Online, Block, Roots, Allotment, Cast, After;
    ghost var sorted, list := c[..], irqs[..];
    assert sorted[..c.Length] == sorted;
    var onlineCpus := CountOnline(c);
    var bindings := [];
    var processed := 0;
    var i := c.Length - 1;
    ghost var due := Allotment(sorted, c.Length, list, 0);
    NothingAfter(due);
    while i >= 0 && processed < irqs.Length
      invariant -1 <= i < c.Length && processed <= irqs.Length
      invariant onlineCpus == Online(sorted[..i + 1])
      invariant After(bindings, Allotment(sorted, i + 1, list, processed)) == due
    {
      AllotmentStep(sorted, i + 1, list, processed);
      OnlineNext(sorted, i + 1);
      AfterEnd(bindings);
      if c[i].online {
        assert onlineCpus > 0;    // so the source's early exit for online_cpus <= 0 is never taken
        var irqnum := IrqNum(irqs.Length - processed, onlineCpus - 1, c[i].util, root);
        if irqnum.None? {
          return Undefined;
        }
        if irqnum.value > 0 && processed < 0 {
          return OutOfArray;
        }
        var bound := Bind(irqs, processed, irqnum.value, c[i].core, i);
        AfterBoth(bindings, bound, Allotment(sorted, i, list, processed + irqnum.value));
        bindings := bindings + bound;
        processed := processed + irqnum.value;
        onlineCpus := onlineCpus - 1;
      }
      i := i - 1;
    }
    AllotmentEnds(sorted, i + 1, list, processed);
    outcome := Balanced(bindings);
    AfterEnd(bindings);
  }

  lemma AfterEnd(b: seq<Binding>)
    ensures After(b, Undefined) == Undefined && After(b, OutOfArray) == OutOfArray && After(b, Balanced([])) == Balanced(b)
  {
    assert b + [] == b;
  }

  lemma NothingAfter(o: Outcome)
    ensures After([], o) == o
  {
    if o.Balanced? { assert [] + o.bindings == o.bindings; }
  }

  lemma AfterBoth(a: seq<Binding>, b: seq<Binding>, o: Outcome)
    ensures After(a, After(b, o)) == After(a + b, o)
    ensures b == [] ==> After(b, o) == o
  {
    NothingAfter(o);
    if o.Balanced? { assert a + (b + o.bindings) == (a + b) + o.bindings; }
  }

  /**
   irqbalance_main: sort a copy and walk it.  The bindings stand for the writes to
   /proc/irq/N/smp_affinity.
   */
  method Balance(cpudata: array<CpuData>, irqs: array<int>, root: nat -> real) returns (outcome: Outcome)
    requires Roots(root)
    ensures IsBalance(cpudata[..], irqs[..], outcome)
  {
    hide Allotment, Roots;
    var c := SortedCopy(cpudata);
    outcome := Walk(c, irqs, root);
    assert Arranged(cpudata[..], c[..]);
  }

  lemma AllotmentStep(cpus: seq<CpuData>, i: nat, irqs: seq<int>, done: int)
    requires 0 < i <= |cpus| && done < |irqs|
    ensures Allotment(cpus, i, irqs, done) ==
      if !cpus[i - 1].online then Allotment(cpus, i - 1, irqs, done)
      else match Given(cpus, i - 1, |irqs| - done)
        case None => Undefined
        case Some(n) =>
          if n <= 0 then Allotment(cpus, i - 1, irqs, done + n)
          else if done < 0 then OutOfArray
          else After(Block(irqs, done, n, cpus[i - 1].core, i - 1), Allotment(cpus, i - 1, irqs, done + n))
  {
  }

  lemma AllotmentEnds(cpus: seq<CpuData>, i: nat, irqs: seq<int>, done: int)
    requires i <= |cpus| && done <= |irqs| && (i == 0 || done == |irqs|)
    ensures Allotment(cpus, i, irqs, done) == Balanced([])
  {
  }

  lemma SameBounds(a: seq<CpuData>, b: seq<CpuData>)
    requires Arranged(a, b) && Bounded(a)
    ensures Bounded(b)
  {
    ArrangedPermutes(a, b);
    forall k | 0 <= k < |b|
      ensures b[k].util <= 100
    {
      assert b[k] in multiset(a);
    }
  }

  lemma SameCasts(a: seq<CpuData>, b: seq<CpuData>)
    requires Arranged(a, b) && Castable(a)
    ensures Castable(b)
  {
    ArrangedPermutes(a, b);
    forall k | 0 <= k < |b|
      ensures b[k].util <= INT_MAX
    {
      assert b[k] in multiset(a);
    }
  }

  method CountOnline(c: array<CpuData>) returns (n: nat)
    ensures n == Online(c[..])
  {
    n := 0;
    var i := 0;
    while i < c.Length
      invariant 0 <= i <= c.Length && n == Online(c[..i])
    {
      OnlineNext(c[..], i + 1);
      assert c[..][..i + 1] == c[..i + 1] && c[..][..i] == c[..i];
      if c[i].online {
        n := n + 1;
      }
      i := i + 1;
    }
    assert c[..c.Length] == c[..];
  }

  lemma {:induction false} SomeOnline(cpus: seq<CpuData>, k: nat)
    requires k < |cpus| && cpus[k].online
    ensures Online(cpus) > 0
    decreases |cpus|
  {
    if k < |cpus| - 1 { SomeOnline(cpus[..|cpus| - 1], k); }
  }

  lemma SortedHasOnline(cpus: seq<CpuData>, sorted: seq<CpuData>, k: nat)
    requires Arranged(cpus, sorted) && k < |cpus| && cpus[k].online
    ensures Online(sorted) > 0
  {
    ArrangedPermutes(cpus, sorted);
    assert cpus[k] in multiset(sorted);
    var p :| 0 <= p < |sorted| && sorted[p] == cpus[k];
    SomeOnline(sorted, p);
  }

  /** Every IRQ of the list is bound exactly once, to an online core, and never after a less busy core was served. */
  ghost predicate BindsAll(cpus: seq<CpuData>, irqs: seq<int>, bindings: seq<Binding>) {
    && |bindings| == |irqs|
    && (forall i :: 0 <= i < |irqs| ==> bindings[i].index == i && bindings[i].irq == irqs[i])
    && exists utils :: BusierFirst(cpus, bindings, utils)
  }

  /**
   With a core online, whatever the utilisations: balancing binds every IRQ of the list exactly once
   exactly if nothing goes wrong on the walk over the records put in order.  If the cast keeps the
   utilisations, what goes wrong is that the array is left, because some core overdraws.
   */
  lemma BalancesIff(cpus: seq<CpuData>, sorted: seq<CpuData>, irqs: seq<int>, outcome: Outcome, k: nat)
    requires IsBalance(cpus, irqs, outcome) && Arranged(cpus, sorted) && k < |cpus| && cpus[k].online
    ensures outcome.Balanced? && BindsAll(cpus, irqs, outcome.bindings) <==> !Fails(sorted, |sorted|, |irqs|, 0)
    ensures Castable(cpus) ==> (outcome == OutOfArray <==> Overdrawn(sorted, |sorted|, |irqs|))
    ensures Castable(cpus) && outcome != OutOfArray ==> outcome.Balanced? && BindsAll(cpus, irqs, outcome.bindings)
  {
    hide Allotment, Online, Overdrawn, Partitions, BusierFirst, Fails, Castable;
    var s: seq<CpuData> :| Arranged(cpus, s) && outcome == Allotment(s, |s|, irqs, 0);
    ArrangedIsUnique(cpus, s, sorted);
    SortedHasOnline(cpus, sorted, k);
    assert sorted[..|sorted|] == sorted;
    WalkIff(sorted, |sorted|, irqs, 0);
    if outcome.Balanced? && Partitions(sorted, irqs, 0, |sorted|, outcome.bindings) {
      LoadsFall(cpus, sorted, irqs, outcome.bindings);
      PartitionsIndex(sorted, irqs, outcome.bindings);
    }
    if Castable(cpus) {
      SameCasts(cpus, sorted);
      SortedWalkIff(sorted, |sorted|, irqs);
    }
  }

  lemma PartitionsIndex(sorted: seq<CpuData>, irqs: seq<int>, bs: seq<Binding>)
    requires Partitions(sorted, irqs, 0, |sorted|, bs)
    ensures |bs| == |irqs| && forall i :: 0 <= i < |irqs| ==> bs[i].index == i && bs[i].irq == irqs[i]
  {
  }

  /** With a core online and no utilisation above 100, balancing binds every IRQ of the list. */
  lemma BalancePartitions(cpus: seq<CpuData>, irqs: seq<int>, outcome: Outcome, k: nat)
    requires IsBalance(cpus, irqs, outcome) && Bounded(cpus) && k < |cpus| && cpus[k].online
    ensures outcome.Balanced? && BindsAll(cpus, irqs, outcome.bindings)
  {
    hide Allotment, Overdrawn, BindsAll, Fails;
    var s: seq<CpuData> :| Arranged(cpus, s) && outcome == Allotment(s, |s|, irqs, 0);
    SameBounds(cpus, s);
    BoundedNeverFails(s, |s|, |irqs|, 0);
    BalancesIff(cpus, s, irqs, outcome, k);
  }

  /** Share is the only number with the two properties of ShareIsLeast. */
  lemma ShareIs(left: nat, others: nat, u: nat, m: int)
    requires others > 0 && Covers(m, left, others, u) && !Covers(m - 1, left, others, u)
    ensures Share(left, others, u) == m
  {
    hide Covers;
    ShareIsLeast(left, others, u);
    var s := Share(left, others, u);
    if s < m { CoversUpwards(s, m - 1, left, others, u); }
    if m < s { CoversUpwards(m, s - 1, left, others, u); }
  }

  /**
   A third way to go wrong, inside the array: at 2^32, which sorts last and which the cast makes 0, a core
   takes four of eight IRQs; the core at 200 then lowers the count by one, and the last core binds
   irqs[3] again.
   */
  lemma CastBindsTwice(a: CpuData, b: CpuData, c: CpuData, irqs: seq<int>)
    requires a.online && b.online && c.online && |irqs| == 8
    requires a.util <= 200 && b.util == 200 && c.util == 0x1_0000_0000
    ensures var o := Allotment([a, b, c], 3, irqs, 0);
      && o.Balanced? && |o.bindings| == 9
      && o.bindings[3] == Binding(3, irqs[3], c.core, 2) && o.bindings[4] == Binding(3, irqs[3], a.core, 0)
  {
    hide Allotment, Share, Online, Block;
    var cpus := [a, b, c];
    ThreeOnline(a, b, c);
    assert Cast(c.util) == 0 && Cast(b.util) == 200;
    assert Square(0) == 0 && Square(2) == 4 && Square(5) == 25 && Square(6) == 36 && Square(4) == 16;
    ShareIs(8, 2, 0, 4);
    ShareIs(4, 1, 200, -1);
    AllotmentStep(cpus, 3, irqs, 0);
    AllotmentStep(cpus, 2, irqs, 4);
    AllotmentStep(cpus, 1, irqs, 3);
    AllotmentEnds(cpus, 0, irqs, 8);
  }

  lemma ThreeOnline(a: CpuData, b: CpuData, c: CpuData)
    requires a.online && b.online
    ensures var cpus := [a, b, c]; Online(cpus[..0]) == 0 && Online(cpus[..1]) == 1 && Online(cpus[..2]) == 2
  {
    var cpus := [a, b, c];
    OnlineNone(cpus);
    OnlineNext(cpus, 1);
    OnlineNext(cpus, 2);
  }

  /** A core at 200 with one other online core and four IRQs: the walk reads before the array. */
  lemma TwoHundredLeavesArray(a: CpuData, b: CpuData, irqs: seq<int>)
    requires a.online && b.online && a.util <= b.util == 200 && |irqs| == 4
    ensures Allotment([a, b], 2, irqs, 0) == OutOfArray
  {
    hide Allotment, Share;
    var cpus := [a, b];
    assert cpus[..1] == [a] && [a][..0] == [] && cpus[..2] == cpus;
    assert Online(cpus[..1]) == 1 && Online(cpus[..2]) == 2;
    assert Square(5) == 25 && Square(4) == 16;
    assert Overdraws(cpus, 1, 4);
    SortedWalkIff(cpus, 2, irqs);
  }

  lemma LoadsFall(cpus: seq<CpuData>, sorted: seq<CpuData>, irqs: seq<int>, bindings: seq<Binding>)
    requires Arranged(cpus, sorted) && Partitions(sorted, irqs, 0, |sorted|, bindings)
    ensures exists utils :: BusierFirst(cpus, bindings, utils)
  {
    ArrangedPermutes(cpus, sorted);
    var n := |bindings|;
    var utils := seq(n, i requires 0 <= i < n => sorted[bindings[i].rank].util);
    forall i | 0 <= i < n
      ensures HasRecord(cpus, bindings[i].core, utils[i])
    {
      assert sorted[bindings[i].rank] in multiset(sorted);
      assert sorted[bindings[i].rank] in cpus;
    }
    assert BusierFirst(cpus, bindings, utils);
  }

  /** utils[i] is the utilisation of the core that gets the i-th binding; it never rises. */
  ghost predicate BusierFirst(cpus: seq<CpuData>, bindings: seq<Binding>, utils: seq<nat>) {
    && |utils| == |bindings|
    && (forall i :: 0 <= i < |utils| ==> HasRecord(cpus, bindings[i].core, utils[i]))
    && (forall i, j :: 0 <= i < j < |utils| ==> utils[j] <= utils[i])
  }

  /** An online record of this core with this utilisation. */
  ghost predicate HasRecord(cpus: seq<CpuData>, core: nat, util: nat) {
    exists c :: c in cpus && c.online && c.core == core && c.util == util
  }

  /** At a quarter busy the root is one half: half of what is left is shared among the cores that follow, rounded up. */
  lemma QuarterBusySharesHalf(left: nat, others: nat)
    requires others > 0
    ensures Share(left, others, 25) == (left + 2 * others - 1) / (2 * others)
  {
    hide Square;
    var m := (left + 2 * others - 1) / (2 * others);
    var d := 2 * others;
    assert d * (m - 1) < left <= d * m by {
      assert m * d <= left + d - 1 < (m + 1) * d;
      assert d * (m - 1) == m * d - d && (m + 1) * d == d * m + d;
    }
    assert (m - 1) * others * 2 == d * (m - 1) && m * others * 2 == d * m;
    HalfCovers(left - m * others, left);
    HalfCovers(left - (m - 1) * others, left);
    ShareIs(left, others, 25, m);
  }

  lemma HalfCovers(rest: int, left: nat)
    ensures rest > 0 ==> (100 * Square(rest) <= 25 * Square(left) <==> 2 * rest <= left)
  {
    if rest > 0 {
      assert 4 * Square(rest) == Square(2 * rest);
      if 2 * rest <= left {
        SquareGrows(2 * rest, left);
      } else {
        SquareGrows(left + 1, 2 * rest);
        assert Square(left + 1) > Square(left);
      }
    }
  }

  /** Every binding of a walk that stays inside the array is to a record that is online, and to its core. */
  lemma {:induction false} BindingsAreOnline(cpus: seq<CpuData>, i: nat, irqs: seq<int>, done: int)
    requires i <= |cpus| && done <= |irqs| && Allotment(cpus, i, irqs, done).Balanced?
    ensures forall b :: b in Allotment(cpus, i, irqs, done).bindings ==>
      0 <= b.rank < i && cpus[b.rank].online && cpus[b.rank].core == b.core
    decreases i
  {
    hide Share, Online, Allotment, Given, Block;
    if i == 0 || done == |irqs| {
      AllotmentEnds(cpus, i, irqs, done);
    } else {
      AllotmentStep(cpus, i, irqs, done);
      if !cpus[i - 1].online {
        BindingsAreOnline(cpus, i - 1, irqs, done);
      } else {
        var n := Given(cpus, i - 1, |irqs| - done).value;
        BindingsAreOnline(cpus, i - 1, irqs, done + n);
      }
    }
  }

  /** Whatever the utilisations: no IRQ is bound to a core that has no online record. */
  lemma OfflineCoreGetsNothing(cpus: seq<CpuData>, irqs: seq<int>, outcome: Outcome, core: nat)
    requires IsBalance(cpus, irqs, outcome) && outcome.Balanced?
    requires forall k :: 0 <= k < |cpus| && cpus[k].core == core ==> !cpus[k].online
    ensures forall b :: b in outcome.bindings ==> b.core != core
  {
    hide Allotment;
    var sorted: seq<CpuData> :| Arranged(cpus, sorted) && outcome == Allotment(sorted, |sorted|, irqs, 0);
    ArrangedPermutes(cpus, sorted);
    BindingsAreOnline(sorted, |sorted|, irqs, 0);
    forall b | b in outcome.bindings
      ensures b.core != core
    {
      assert sorted[b.rank] in multiset(sorted);
      assert sorted[b.rank] in cpus;
    }
  }

  /** A fully busy core gets nothing while another online core is left. */
  lemma BusyCoreGetsNothing(cpus: seq<CpuData>, i: nat, left: nat)
    requires i < |cpus| && cpus[i].online && cpus[i].util == 100 && Online(cpus[..i]) > 0
    ensures Given(cpus, i, left) == Some(0)
  {
    BusyShare(left, Online(cpus[..i]), 100);
    ShareInRange(left, Online(cpus[..i]), 100);
  }

  /** An idle core with one online core after it takes everything, so the last core gets nothing. */
  lemma IdleCoreBeforeLastTakesAll(cpus: seq<CpuData>, i: nat, left: nat)
    requires i < |cpus| && cpus[i].online && cpus[i].util == 0 && Online(cpus[..i]) == 1
    ensures Given(cpus, i, left) == Some(left)
  {
    var m := Share(left, 1, 0);
    ShareIsLeast(left, 1, 0);
    assert left - m * 1 == left - m;
    assert m != left ==> Square(left - m) > 0;
  }
}
