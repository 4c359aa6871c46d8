/** Reading the CPU times and computing the utilisation (hardware/irqbalance/irqbalance.c). */
module IrqWatchdog {
  import opened CText
  import opened IrqSort
  import opened IrqAllot

  /** Counters are 64-bit and wrap. */
  const U64 := 0x1_0000_0000_0000_0000

  const COUNTERS := 10
  const IDLE := 3

  /** What read_cpudata finds: no file, a line that stops matching after some counters, or all ten. */
  datatype Reading = NoFile | Short(some: seq<nat>) | Full(times: seq<nat>)

  predicate Wellformed(r: Reading) {
    match r
    case NoFile => true
    case Short(some) => |some| < COUNTERS
    case Full(times) => |times| == COUNTERS
  }

  function Sum(ts: seq<nat>): nat { if ts == [] then 0 else Sum(ts[..|ts| - 1]) + ts[|ts| - 1] }

  /** All counters but idle. */
  function BusyTimes(times: seq<nat>): seq<nat>
    requires |times| == COUNTERS
  {
    times[..IDLE] + times[IDLE + 1..]
  }

  /** The unbounded sum of the busy counters. */
  function Busy(times: seq<nat>): nat
    requires |times| == COUNTERS
  {
    Sum(BusyTimes(times))
  }

  function Total(times: seq<nat>): nat
    requires |times| == COUNTERS
  {
    Busy(times) + times[IDLE]
  }

  /** The remainder modulo 2^64. */
  function Wrap(x: int): (r: nat)
    ensures r < U64
  {
    x % U64
  }

  function Quotient(x: nat, y: nat): nat
    requires y != 0
  {
    x / y
  }

  function BusyDelta(before: seq<nat>, cur: seq<nat>): nat
    requires |before| == |cur| == COUNTERS
  {
    Wrap(Wrap(Busy(cur)) - Wrap(Busy(before)))
  }

  function TotalDelta(before: seq<nat>, cur: seq<nat>): nat
    requires |before| == |cur| == COUNTERS
  {
    Wrap(Wrap(Total(cur)) - Wrap(Total(before)))
  }

  /** The utilisation as the source computes it: every sum, difference and product wraps. */
  function Util(before: seq<nat>, cur: seq<nat>): nat
    requires |before| == |cur| == COUNTERS && TotalDelta(before, cur) != 0
  {
    Quotient(Wrap(BusyDelta(before, cur) * 100), TotalDelta(before, cur))
  }

  /** No counter falls, at least one rises, and together they rise by less than 2^64. */
  predicate Grows(before: seq<nat>, cur: seq<nat>) {
    && |before| == |cur| == COUNTERS
    && (forall i :: 0 <= i < COUNTERS ==> before[i] <= cur[i])
    && 0 < Total(cur) - Total(before) < U64
  }

  lemma WrapIs(x: int, q: int, r: int)
    requires x == q * U64 + r && 0 <= r < U64
    ensures Wrap(x) == r
  {
  }

  /** Wrapped sums differ by the wrapped difference. */
  lemma WrapDifference(a: int, b: int)
    requires 0 <= a - b < U64
    ensures Wrap(Wrap(a) - Wrap(b)) == a - b
  {
    var q := a / U64 - b / U64;
    WrapIs(Wrap(a) - Wrap(b), -q, a - b);
  }

  lemma {:induction false} SumMonotone(a: seq<nat>, b: seq<nat>)
    requires |a| == |b| && forall i :: 0 <= i < |a| ==> a[i] <= b[i]
    ensures Sum(a) <= Sum(b)
  {
    if a != [] { SumMonotone(a[..|a| - 1], b[..|b| - 1]); }
  }

  lemma BusyMonotone(before: seq<nat>, cur: seq<nat>)
    requires |before| == |cur| == COUNTERS && forall i :: 0 <= i < COUNTERS ==> before[i] <= cur[i]
    ensures Busy(before) <= Busy(cur) && before[IDLE] <= cur[IDLE]
  {
    SumMonotone(BusyTimes(before), BusyTimes(cur));
  }

  lemma WrapAtMost(x: nat)
    ensures Wrap(x) <= x
  {
  }

  /** Wrapped differences of wrapped sums are the true differences. */
  lemma DeltasAreTrue(before: seq<nat>, cur: seq<nat>)
    requires |before| == |cur| == COUNTERS
    requires 0 <= Busy(cur) - Busy(before) < U64 && 0 <= Total(cur) - Total(before) < U64
    ensures BusyDelta(before, cur) == Busy(cur) - Busy(before)
    ensures TotalDelta(before, cur) == Total(cur) - Total(before)
  {
    hide Busy, Total, Wrap;
    WrapDifference(Busy(cur), Busy(before));
    WrapDifference(Total(cur), Total(before));
  }

  lemma GrowthOfBusy(before: seq<nat>, cur: seq<nat>)
    requires Grows(before, cur)
    ensures 0 <= Busy(cur) - Busy(before) <= Total(cur) - Total(before)
  {
    hide Busy;
    BusyMonotone(before, cur);
  }

  /** By how much the sums have moved; either may have fallen. */
  function BusyMove(before: seq<nat>, cur: seq<nat>): int
    requires |before| == |cur| == COUNTERS
  {
    Busy(cur) - Busy(before)
  }

  function IdleMove(before: seq<nat>, cur: seq<nat>): int
    requires |before| == |cur| == COUNTERS
  {
    cur[IDLE] as int - before[IDLE] as int
  }

  function TotalMove(before: seq<nat>, cur: seq<nat>): int
    requires |before| == |cur| == COUNTERS
  {
    Total(cur) - Total(before)
  }

  /** What the counters must satisfy: the wrapped hundredfold busy time stays below 101 times the wrapped total. */
  predicate InRange(before: seq<nat>, cur: seq<nat>)
    requires |before| == |cur| == COUNTERS
  {
    Wrap(100 * BusyMove(before, cur)) < 101 * Wrap(TotalMove(before, cur))
  }

  lemma WrapOfWrap(x: int, y: int)
    ensures Wrap(Wrap(x) - Wrap(y)) == Wrap(x - y)
    ensures Wrap(100 * Wrap(x)) == Wrap(100 * x)
    ensures Wrap(Wrap(x) * 100) == Wrap(100 * x)
  {
    var a, b := x / U64, y / U64;
    assert Wrap(x) == x - a * U64 && Wrap(y) == y - b * U64;
    WrapShift(x - y, b - a);
    WrapShift(100 * x, -100 * a);
    assert 100 * Wrap(x) == 100 * x + (-100 * a) * U64;
  }

  lemma WrapShift(x: int, k: int)
    ensures Wrap(x + k * U64) == Wrap(x)
  {
    var q := x / U64;
    WrapIs(x + k * U64, q + k, Wrap(x));
  }

  lemma AtMostIff(x: nat, y: nat, c: nat)
    requires 0 < y
    ensures Quotient(x, y) <= c <==> x < (c + 1) * y
  {
    var q, r := x / y, x % y;
    assert x == q * y + r;
    if q <= c { assert q * y <= c * y; } else { assert (c + 1) * y <= q * y; }
  }

  /** For every pair of readings: no division by zero exactly if the total moved, and at most 100 exactly if in range. */
  lemma UtilWithinHundred(before: seq<nat>, cur: seq<nat>)
    requires |before| == |cur| == COUNTERS
    ensures TotalDelta(before, cur) != 0 <==> Wrap(TotalMove(before, cur)) != 0
    ensures TotalDelta(before, cur) != 0 ==> (Util(before, cur) <= 100 <==> InRange(before, cur))
  {
    hide Busy, Total, Wrap, Quotient;
    WrapOfWrap(Total(cur), Total(before));
    WrapOfWrap(Busy(cur), Busy(before));
    WrapOfWrap(Busy(cur) - Busy(before), 0);
    if TotalDelta(before, cur) != 0 {
      AtMostIff(Wrap(BusyDelta(before, cur) * 100), TotalDelta(before, cur), 100);
    }
  }

  lemma WrapOfSmall(x: int)
    requires -U64 < x < U64
    ensures Wrap(x) == if x < 0 then U64 + x else x
  {
    WrapIs(x, if x < 0 then -1 else 0, if x < 0 then U64 + x else x);
  }

  /** The moves are small enough not to overflow when multiplied. */
  predicate Moderate(before: seq<nat>, cur: seq<nat>)
    requires |before| == |cur| == COUNTERS
  {
    -U64 < 100 * BusyMove(before, cur) < U64 && -U64 < 101 * TotalMove(before, cur) && TotalMove(before, cur) < U64
  }

  /**
   The total fell, or busy time did not fall and idle time fell by less than a 101st of it, or busy time
   fell but so much, or so much time passed, that 100 times the one and 101 times the other exceed 2^64.
   */
  predicate Sound(before: seq<nat>, cur: seq<nat>)
    requires |before| == |cur| == COUNTERS
  {
    var busy, total, idle := BusyMove(before, cur), TotalMove(before, cur), IdleMove(before, cur);
    total < 0 || (busy >= 0 && 101 * -idle < busy) || (busy < 0 && U64 < 101 * total - 100 * busy)
  }

  /** For moderate moves of the counters, rising and falling alike, the utilisation is within 100 exactly if they are sound. */
  lemma UtilWithinHundredIff(before: seq<nat>, cur: seq<nat>)
    requires |before| == |cur| == COUNTERS && Moderate(before, cur) && TotalMove(before, cur) != 0
    ensures TotalDelta(before, cur) != 0
    ensures Util(before, cur) <= 100 <==> Sound(before, cur)
    ensures InRange(before, cur) <==> Sound(before, cur)
  {
    hide Busy, Wrap, Util, TotalDelta;
    UtilWithinHundred(before, cur);
    WrapOfSmall(TotalMove(before, cur));
    WrapOfSmall(100 * BusyMove(before, cur));
  }

  /**
   In particular it is at most 100 whenever no counter falls and time passes, even where the sums wrap
   and even if the product with 100 wraps; if the product does not wrap it is the exact percentage,
   rounded down.
   */
  lemma UtilIsPercentage(before: seq<nat>, cur: seq<nat>)
    requires Grows(before, cur)
    ensures TotalDelta(before, cur) != 0 && Util(before, cur) <= 100 && InRange(before, cur)
    ensures Busy(before) <= Busy(cur) && Total(before) < Total(cur)
    ensures (Busy(cur) - Busy(before)) * 100 < U64 ==>
      Util(before, cur) == Quotient((Busy(cur) - Busy(before)) * 100, Total(cur) - Total(before))
  {
    hide Busy, Total, Wrap, Quotient, BusyDelta, TotalDelta, InRange;
    GrowthOfBusy(before, cur);
    DeltasAreTrue(before, cur);
    var busy, total := BusyDelta(before, cur), TotalDelta(before, cur);
    WrapAtMost(busy * 100);
    AtMostIff(Wrap(busy * 100), total, 100);
    if busy * 100 < U64 { WrapIs(busy * 100, 0, busy * 100); }
    UtilWithinHundred(before, cur);
  }

  const CALM := [0, 0, 0, 10, 0, 0, 0, 0, 0, 0]
  const IDLE_FELL := [2, 0, 0, 9, 0, 0, 0, 0, 0, 0]

  /** Idle time counted back by one while two ticks were busy gives 200. */
  lemma FallingIdleExceedsHundred()
    ensures TotalDelta(CALM, IDLE_FELL) != 0 && Util(CALM, IDLE_FELL) == 200
  {
    hide Wrap, BusyDelta, TotalDelta;
    BusyOfExamples();
    DeltasAreTrue(CALM, IDLE_FELL);
    WrapIs(200, 0, 200);
  }

  const ONE_BUSY := [1, 0, 0, 0, 0, 0, 0, 0, 0, 0]

  /** A busy counter counted back by one makes the wrapped difference huge, and the result exceeds 100. */
  lemma FallingBusyExceedsHundred()
    ensures TotalDelta(ONE_BUSY, CALM) != 0 && Util(ONE_BUSY, CALM) > 100
  {
    hide Wrap, Util, TotalDelta, Busy;
    BusyOfExamples();
    UtilWithinHundredIff(ONE_BUSY, CALM);
  }

  const LATER := [0, 0, 0, 11, 0, 0, 0, 0, 0, 0]

  /**
   The same fall can leave the walk without a root: here the utilisation is a number whose cast to int is
   negative, and the core with it, not being the last, makes the outcome undefined.
   */
  lemma FallingBusyHasNoRoot(a: CpuData, b: CpuData, irqs: seq<int>)
    requires a.online && b.online && irqs != []
    requires b.times == ONE_BUSY && b.util <= 100
    ensures TotalDelta(ONE_BUSY, LATER) != 0
    ensures Allotment([a, Updated(b, Full(LATER))], 2, irqs, 0) == Undefined
  {
    hide Util, TotalDelta, Allotment, Cast;
    UtilOfLater();
    var c := Updated(b, Full(LATER));
    var cpus := [a, c];
    assert cpus[..1] == [a] && [a][..0] == [];
    CastOfLater();
    AllotmentStep(cpus, 2, irqs, 0);
  }

  lemma UtilOfLater()
    ensures TotalDelta(ONE_BUSY, LATER) != 0 && Util(ONE_BUSY, LATER) == 1844674407370955151
  {
    hide Busy, Total, Wrap;
    BusyOfExamples();
    WrapOfWrap(Busy(LATER), Busy(ONE_BUSY));
    WrapOfWrap(Total(LATER), Total(ONE_BUSY));
    WrapOfWrap(-1, 0);
    WrapOfSmall(-100);
    WrapOfSmall(10);
  }

  lemma CastOfLater()
    ensures Cast(1844674407370955151) == -1717986929
  {
    hide ToInt32;
    ToInt32Wraps(1844674407370955151);
  }

  lemma BusyOfExamples()
    ensures Busy(CALM) == 0 && Busy(IDLE_FELL) == 2 && Total(CALM) == 10 && Total(IDLE_FELL) == 11
    ensures Busy(ONE_BUSY) == 1 && Total(ONE_BUSY) == 1 && Busy(LATER) == 0 && Total(LATER) == 11
  {
    hide Sum;
    assert BusyTimes(LATER) == [0, 0, 0, 0, 0, 0, 0, 0, 0];
    assert BusyTimes(ONE_BUSY) == [1] + [0, 0, 0, 0, 0, 0, 0, 0];
    LeadingSum(1, [0, 0, 0, 0, 0, 0, 0, 0]);
    assert BusyTimes(CALM) == [0, 0, 0, 0, 0, 0, 0, 0, 0];
    ZeroSum([0, 0, 0, 0, 0, 0, 0, 0, 0]);
    assert BusyTimes(IDLE_FELL) == [2] + [0, 0, 0, 0, 0, 0, 0, 0];
    LeadingSum(2, [0, 0, 0, 0, 0, 0, 0, 0]);
  }

  lemma {:induction false} ZeroSum(ts: seq<nat>)
    requires forall i :: 0 <= i < |ts| ==> ts[i] == 0
    ensures Sum(ts) == 0
  {
    if ts != [] { ZeroSum(ts[..|ts| - 1]); }
  }

  lemma {:induction false} LeadingSum(x: nat, ts: seq<nat>)
    requires forall i :: 0 <= i < |ts| ==> ts[i] == 0
    ensures Sum([x] + ts) == x
  {
    var s := [x] + ts;
    if ts == [] {
      assert s[..0] == [];
    } else {
      assert s[..|s| - 1] == [x] + ts[..|ts| - 1];
      LeadingSum(x, ts[..|ts| - 1]);
    }
  }

  // -------------------------------------------------------------------------------------
  // One pass and many.

  /** read_cpudata and the update of one record; the pass ends when it fails. */
  function Updated(c: CpuData, r: Reading): CpuData
    requires |c.times| == COUNTERS && Wellformed(r) && (r.Full? ==> TotalDelta(c.times, r.times) != 0)
  {
    match r
    case NoFile => c
    case Short(some) => c.(times := some + c.times[|some|..], online := false)
    case Full(times) => c.(times := times, online := true, util := Util(c.times, times))
  }

  ghost predicate Records(cpus: seq<CpuData>) { forall k :: 0 <= k < |cpus| ==> |cpus[k].times| == COUNTERS }

  /**
   The readings a pass uses: one per record up to the first failure.  The source divides by the time
   passed, so a complete reading must show some.
   */
  ghost predicate Timed(cpus: seq<CpuData>, rs: seq<Reading>, i: nat)
    requires Records(cpus)
    decreases |cpus| - i
  {
    i >= |cpus| ||
    (&& i < |rs| && Wellformed(rs[i])
     && (rs[i].Full? ==> TotalDelta(cpus[i].times, rs[i].times) != 0 && Timed(cpus, rs, i + 1)))
  }

  /** Every complete reading of the pass is in range. */
  ghost predicate Calm(cpus: seq<CpuData>, rs: seq<Reading>, i: nat)
    requires Records(cpus) && Timed(cpus, rs, i)
    decreases |cpus| - i
  {
    i >= |cpus| || (rs[i].Full? ==> InRange(cpus[i].times, rs[i].times) && Calm(cpus, rs, i + 1))
  }

  /** The records after a pass that has reached the i-th. */
  ghost function Passed(cpus: seq<CpuData>, rs: seq<Reading>, i: nat): (r: seq<CpuData>)
    requires Records(cpus) && Timed(cpus, rs, i)
    ensures |r| == |cpus| && forall k :: 0 <= k < i && k < |cpus| ==> r[k] == cpus[k]
    decreases |cpus| - i
  {
    if i >= |cpus| then cpus
    else if !rs[i].Full? then cpus[i := Updated(cpus[i], rs[i])]
    else Passed(cpus, rs, i + 1)[i := Updated(cpus[i], rs[i])]
  }

  /** One round of the loop: read the counters of a core in place and work out its utilisation. */
  method LoadOne(cpudata: array<CpuData>, i: nat, r: Reading) returns (ok: bool)
    requires i < cpudata.Length && |cpudata[i].times| == COUNTERS && Wellformed(r)
    requires r.Full? ==> TotalDelta(cpudata[i].times, r.times) != 0
    modifies cpudata
    ensures cpudata[..] == old(cpudata[..])[i := Updated(old(cpudata[i]), r)]
    ensures ok == r.Full?
  {
    hide TotalDelta, Util;
    var before := cpudata[i];
    match r {
      case NoFile =>
      case Short(some) =>
        cpudata[i] := before.(times := some + before.times[|some|..], online := false);
      case Full(times) =>
        cpudata[i] := before.(times := times, online := true, util := Util(before.times, times));
    }
    ok := r.Full?;
  }

  method LoadWatchdog(cpudata: array<CpuData>, rs: seq<Reading>)
    requires Records(cpudata[..]) && Timed(cpudata[..], rs, 0)
    modifies cpudata
    ensures cpudata[..] == Passed(old(cpudata[..]), rs, 0)
  {
    hide Updated, Passed, Timed, TotalDelta;
    ghost var before, due := cpudata[..], Passed(cpudata[..], rs, 0);
    var i := 0;
    while i < cpudata.Length
      invariant 0 <= i <= cpudata.Length
      invariant cpudata[i..] == before[i..]
      invariant Records(before) && Timed(before, rs, i)
      invariant cpudata[..i] + Passed(before, rs, i)[i..] == due
    {
      ghost var was := cpudata[..];
      assert cpudata[i] == cpudata[i..][0] == before[i];
      PassedStep(before, rs, i);
      ghost var now := Updated(before[i], rs[i]);
      UpdateSplits(was, before, i, now);
      var ok := LoadOne(cpudata, i, rs[i]);
      if !ok {
        return;
      }
      Regroup(was[..i], now, Passed(before, rs, i + 1)[i + 1..]);
      assert cpudata[..i + 1] == cpudata[..][..i + 1] && cpudata[i + 1..] == cpudata[..][i + 1..];
      i := i + 1;
    }
    PassedAll(before, rs);
  }

  lemma UpdateSplits(was: seq<CpuData>, before: seq<CpuData>, i: nat, now: CpuData)
    requires i < |was| == |before| && was[i..] == before[i..]
    ensures var r := was[i := now];
      r == was[..i] + ([now] + before[i + 1..]) && r[..i + 1] == was[..i] + [now] && r[i + 1..] == before[i + 1..]
  {
    assert was[i..][1..] == was[i + 1..] && before[i..][1..] == before[i + 1..];
  }

  lemma Regroup(a: seq<CpuData>, x: CpuData, b: seq<CpuData>)
    ensures a + ([x] + b) == (a + [x]) + b
  {
  }

  lemma PassedAll(cpus: seq<CpuData>, rs: seq<Reading>)
    requires Records(cpus) && Timed(cpus, rs, |cpus|)
    ensures Passed(cpus, rs, |cpus|) == cpus
  {
  }

  lemma PassedStep(cpus: seq<CpuData>, rs: seq<Reading>, i: nat)
    requires Records(cpus) && Timed(cpus, rs, i) && i < |cpus|
    ensures i < |rs| && Wellformed(rs[i]) && |cpus[i].times| == COUNTERS
    ensures rs[i].Full? ==> TotalDelta(cpus[i].times, rs[i].times) != 0 && Timed(cpus, rs, i + 1)
    ensures Passed(cpus, rs, i)[i..] == [Updated(cpus[i], rs[i])] +
      if rs[i].Full? then Passed(cpus, rs, i + 1)[i + 1..] else cpus[i + 1..]
  {
    hide Updated, TotalDelta;
  }

  /** A pass keeps the number of records and the core ids. */
  lemma {:induction false} PassKeepsRecords(cpus: seq<CpuData>, rs: seq<Reading>, i: nat)
    requires Records(cpus) && Timed(cpus, rs, i)
    ensures Records(Passed(cpus, rs, i))
    ensures forall k :: 0 <= k < |cpus| ==> Passed(cpus, rs, i)[k].core == cpus[k].core
    decreases |cpus| - i
  {
    hide TotalDelta, Util;
    if i < |cpus| && rs[i].Full? { PassKeepsRecords(cpus, rs, i + 1); }
  }

  /** A pass, cut short or not, leaves all utilisations within 100 exactly if every complete reading is in range. */
  lemma {:induction false} PassBoundedIff(cpus: seq<CpuData>, rs: seq<Reading>, i: nat)
    requires Records(cpus) && Timed(cpus, rs, i) && Bounded(cpus)
    ensures Bounded(Passed(cpus, rs, i)) <==> Calm(cpus, rs, i)
    decreases |cpus| - i
  {
    hide TotalDelta, Util, InRange;
    if i < |cpus| && rs[i].Full? {
      UtilWithinHundred(cpus[i].times, rs[i].times);
      PassBoundedIff(cpus, rs, i + 1);
      BoundedUpdate(Passed(cpus, rs, i + 1), i, Updated(cpus[i], rs[i]));
    }
  }

  /** Replacing a record within 100 leaves the others to decide. */
  lemma BoundedUpdate(cpus: seq<CpuData>, i: nat, c: CpuData)
    requires i < |cpus| && cpus[i].util <= 100
    ensures Bounded(cpus[i := c]) <==> c.util <= 100 && Bounded(cpus)
  {
    var r := cpus[i := c];
    if Bounded(r) {
      assert r[i].util <= 100;
      forall k | 0 <= k < |cpus|
        ensures cpus[k].util <= 100
      {
        assert k != i ==> r[k] == cpus[k] && r[k].util <= 100;
      }
    }
  }

  /** user, nice, system, iowait, irq, softirq, steal, guest and guest_nice. */
  function BusyTicks(t: seq<nat>): int
    requires |t| == 10
  {
    t[0] + t[1] + t[2] + t[4] + t[5] + t[6] + t[7] + t[8] + t[9]
  }

  /** All these, and idle. */
  function AllTicks(t: seq<nat>): int
    requires |t| == 10
  {
    t[0] + t[1] + t[2] + t[3] + t[4] + t[5] + t[6] + t[7] + t[8] + t[9]
  }

  lemma BusyIs(t: seq<nat>)
    requires |t| == 10
    ensures Busy(t) == BusyTicks(t) && Total(t) == AllTicks(t)
  {
    var b := BusyTimes(t);
    assert b == [t[0], t[1], t[2], t[4], t[5], t[6], t[7], t[8], t[9]];
    SumLast(b[..1]); SumLast(b[..2]); SumLast(b[..3]); SumLast(b[..4]); SumLast(b[..5]);
    SumLast(b[..6]); SumLast(b[..7]); SumLast(b[..8]); SumLast(b);
    assert b[..2][..1] == b[..1] && b[..3][..2] == b[..2] && b[..4][..3] == b[..3] && b[..5][..4] == b[..4];
    assert b[..6][..5] == b[..5] && b[..7][..6] == b[..6] && b[..8][..7] == b[..7];
    assert b[..1][..0] == [];
  }

  lemma SumLast(ts: seq<nat>)
    requires ts != []
    ensures Sum(ts) == Sum(ts[..|ts| - 1]) + ts[|ts| - 1]
    ensures Sum([]) == 0
  {
  }

  /** What the counters say: the quotient of the hundredfold busy time and the total time, both taken modulo 2^64. */
  function Percentage(before: seq<nat>, cur: seq<nat>): nat
    requires |before| == |cur| == 10 && (AllTicks(cur) - AllTicks(before)) % 0x1_0000_0000_0000_0000 != 0
  {
    (100 * (BusyTicks(cur) - BusyTicks(before))) % 0x1_0000_0000_0000_0000
      / ((AllTicks(cur) - AllTicks(before)) % 0x1_0000_0000_0000_0000)
  }

  lemma UtilIs(before: seq<nat>, cur: seq<nat>)
    requires |before| == |cur| == 10 && TotalDelta(before, cur) != 0
    ensures (AllTicks(cur) - AllTicks(before)) % 0x1_0000_0000_0000_0000 != 0
    ensures Util(before, cur) == Percentage(before, cur)
  {
    hide Busy, Total, BusyTicks, AllTicks, Wrap, Quotient, Percentage;
    BusyIs(before);
    BusyIs(cur);
    WrapOfWrap(Total(cur), Total(before));
    WrapOfWrap(Busy(cur), Busy(before));
    WrapOfWrap(Busy(cur) - Busy(before), 0);
    WrapIsRemainder(Total(cur) - Total(before));
    PercentageIs(before, cur);
  }

  lemma WrapIsRemainder(x: int)
    ensures Wrap(x) == x % 0x1_0000_0000_0000_0000
  {
  }

  lemma PercentageIs(before: seq<nat>, cur: seq<nat>)
    requires |before| == |cur| == 10 && (AllTicks(cur) - AllTicks(before)) % 0x1_0000_0000_0000_0000 != 0
    ensures var busy, total := BusyTicks(cur) - BusyTicks(before), AllTicks(cur) - AllTicks(before);
      Wrap(total) != 0 && Percentage(before, cur) == Quotient(Wrap(100 * busy), Wrap(total))
  {
    hide BusyTicks, AllTicks;
  }

  /** The pass ends at reading j, or reads all. */
  predicate EndsAt(rs: seq<Reading>, j: nat, n: nat) {
    j <= n <= |rs| && (forall k :: 0 <= k < j ==> rs[k].Full?) && (j < n ==> !rs[j].Full?)
  }

  /** A record after a complete reading: online, with the counters read and the percentage they make. */
  ghost predicate Refreshed(was: CpuData, now: CpuData, times: seq<nat>)
    requires |was.times| == |times| == 10 && TotalDelta(was.times, times) != 0
  {
    UtilIs(was.times, times);
    now.core == was.core && now.online && now.times == times && now.util == Percentage(was.times, times)
  }

  /** A record whose line stopped matching: offline, the counters that matched overwritten, the utilisation kept. */
  predicate Failed(was: CpuData, now: CpuData, some: seq<nat>)
    requires |was.times| == 10 && |some| < 10
  {
    now.core == was.core && !now.online && now.util == was.util && |now.times| == 10 &&
    now.times[..|some|] == some && now.times[|some|..] == was.times[|some|..]
  }

  lemma {:induction false} PassFrom(cpus: seq<CpuData>, rs: seq<Reading>, i: nat, j: nat)
    requires Records(cpus) && Timed(cpus, rs, i) && i <= j && EndsAt(rs, j, |cpus|)
    ensures var after := Passed(cpus, rs, i);
      && (forall k :: i <= k < j ==> |rs[k].times| == 10)
      && (forall k :: i <= k < j ==> TotalDelta(cpus[k].times, rs[k].times) != 0)
      && (forall k :: i <= k < j ==> Refreshed(cpus[k], after[k], rs[k].times))
      && (j < |cpus| && rs[j].Short? ==> |rs[j].some| < 10 && Failed(cpus[j], after[j], rs[j].some))
      && (j < |cpus| && rs[j].NoFile? ==> after[j] == cpus[j])
      && (forall k :: j < k < |cpus| ==> after[k] == cpus[k])
    decreases |cpus| - i
  {
    hide TotalDelta, Util, Refreshed;
    if i < j {
      PassFrom(cpus, rs, i + 1, j);
      UpdatedIsRefreshed(cpus[i], rs[i].times);
    }
  }

  lemma UpdatedIsRefreshed(c: CpuData, times: seq<nat>)
    requires |c.times| == |times| == 10 && TotalDelta(c.times, times) != 0
    ensures Refreshed(c, Updated(c, Full(times)), times)
  {
    UtilIs(c.times, times);
  }

  /**
   What a pass that ends at reading j does: the records before j are refreshed, the record whose line
   stopped matching goes offline, and all others are as they were.
   */
  lemma PassIs(cpus: seq<CpuData>, rs: seq<Reading>, j: nat)
    requires Records(cpus) && Timed(cpus, rs, 0) && EndsAt(rs, j, |cpus|)
    ensures var after := Passed(cpus, rs, 0);
      && (forall k :: 0 <= k < j ==> |rs[k].times| == 10)
      && (forall k :: 0 <= k < j ==> TotalDelta(cpus[k].times, rs[k].times) != 0)
      && (forall k :: 0 <= k < j ==> Refreshed(cpus[k], after[k], rs[k].times))
      && (j < |cpus| && rs[j].Short? ==> |rs[j].some| < 10 && Failed(cpus[j], after[j], rs[j].some))
      && (j < |cpus| && rs[j].NoFile? ==> after[j] == cpus[j])
      && (forall k :: j < k < |cpus| ==> after[k] == cpus[k])
  {
    PassFrom(cpus, rs, 0, j);
  }

  /** A core whose line no longer matches gets no IRQ at the balancing that follows. */
  lemma FailedCoreGetsNothing(cpus: seq<CpuData>, rs: seq<Reading>, j: nat, irqs: seq<int>, outcome: Outcome)
    requires Records(cpus) && Timed(cpus, rs, 0) && EndsAt(rs, j, |cpus|) && j < |cpus| && rs[j].Short?
    requires forall k, l :: 0 <= k < l < |cpus| ==> cpus[k].core != cpus[l].core
    requires IsBalance(Passed(cpus, rs, 0), irqs, outcome) && outcome.Balanced?
    ensures forall b :: b in outcome.bindings ==> b.core != cpus[j].core
  {
    hide IsBalance, Passed, Timed, TotalDelta, Refreshed;
    PassKeepsRecords(cpus, rs, 0);
    PassIs(cpus, rs, j);
    OfflineCoreGetsNothing(Passed(cpus, rs, 0), irqs, outcome, cpus[j].core);
  }

  /** Many passes, each starting from where the last one left the records. */
  ghost predicate TimedRun(cpus: seq<CpuData>, passes: seq<seq<Reading>>)
    requires Records(cpus)
    decreases |passes|
  {
    passes == [] ||
    (&& Timed(cpus, passes[0], 0)
     && (PassKeepsRecords(cpus, passes[0], 0); TimedRun(Passed(cpus, passes[0], 0), passes[1..])))
  }

  ghost predicate CalmRun(cpus: seq<CpuData>, passes: seq<seq<Reading>>)
    requires Records(cpus) && TimedRun(cpus, passes)
    decreases |passes|
  {
    passes == [] ||
    (&& Calm(cpus, passes[0], 0)
     && (PassKeepsRecords(cpus, passes[0], 0); CalmRun(Passed(cpus, passes[0], 0), passes[1..])))
  }

  ghost function AfterRun(cpus: seq<CpuData>, passes: seq<seq<Reading>>): seq<CpuData>
    requires Records(cpus) && TimedRun(cpus, passes)
    decreases |passes|
  {
    if passes == [] then cpus
    else PassKeepsRecords(cpus, passes[0], 0); AfterRun(Passed(cpus, passes[0], 0), passes[1..])
  }

  /** All utilisations are within 100 whenever the loop balances: before the run and after every pass of it. */
  ghost predicate AlwaysBounded(cpus: seq<CpuData>, passes: seq<seq<Reading>>)
    requires Records(cpus) && TimedRun(cpus, passes)
    decreases |passes|
  {
    && Bounded(cpus)
    && (passes == [] || (PassKeepsRecords(cpus, passes[0], 0); AlwaysBounded(Passed(cpus, passes[0], 0), passes[1..])))
  }

  /** Over every run of the loop, utilisations stay within 100 exactly if every complete reading is in range. */
  lemma {:induction false} RunBoundedIff(cpus: seq<CpuData>, passes: seq<seq<Reading>>)
    requires Records(cpus) && TimedRun(cpus, passes) && Bounded(cpus)
    ensures AlwaysBounded(cpus, passes) <==> CalmRun(cpus, passes)
    decreases |passes|
  {
    hide Passed, Timed, Calm;
    if passes != [] {
      PassKeepsRecords(cpus, passes[0], 0);
      PassBoundedIff(cpus, passes[0], 0);
      if Calm(cpus, passes[0], 0) { RunBoundedIff(Passed(cpus, passes[0], 0), passes[1..]); }
    }
  }

  /** Two successive complete readings of one core. */
  datatype Move = Move(before: seq<nat>, cur: seq<nat>)

  ghost predicate Moves(ms: seq<Move>) {
    forall m :: 0 <= m < |ms| ==> |ms[m].before| == |ms[m].cur| == COUNTERS
  }

  /** The moves that a pass, and a run, computes utilisations from. */
  ghost function MovesOfPass(cpus: seq<CpuData>, rs: seq<Reading>, i: nat): (ms: seq<Move>)
    requires Records(cpus) && Timed(cpus, rs, i)
    ensures Moves(ms)
    decreases |cpus| - i
  {
    if i >= |cpus| || !rs[i].Full? then [] else [Move(cpus[i].times, rs[i].times)] + MovesOfPass(cpus, rs, i + 1)
  }

  ghost function MovesOfRun(cpus: seq<CpuData>, passes: seq<seq<Reading>>): (ms: seq<Move>)
    requires Records(cpus) && TimedRun(cpus, passes)
    ensures Moves(ms)
    decreases |passes|
  {
    if passes == [] then []
    else PassKeepsRecords(cpus, passes[0], 0); MovesOfPass(cpus, passes[0], 0) + MovesOfRun(Passed(cpus, passes[0], 0), passes[1..])
  }

  ghost predicate AllInRange(ms: seq<Move>)
    requires Moves(ms)
  {
    forall m :: 0 <= m < |ms| ==> InRange(ms[m].before, ms[m].cur)
  }

  ghost predicate AllSound(ms: seq<Move>)
    requires Moves(ms)
  {
    forall m :: 0 <= m < |ms| ==> Sound(ms[m].before, ms[m].cur)
  }

  ghost predicate AllModerate(ms: seq<Move>)
    requires Moves(ms)
  {
    forall m :: 0 <= m < |ms| ==> Moderate(ms[m].before, ms[m].cur)
  }

  ghost predicate AllTimed(ms: seq<Move>)
    requires Moves(ms)
  {
    forall m :: 0 <= m < |ms| ==> TotalDelta(ms[m].before, ms[m].cur) != 0
  }

  lemma InRangeConcat(a: seq<Move>, b: seq<Move>)
    requires Moves(a) && Moves(b)
    ensures Moves(a + b)
    ensures AllInRange(a + b) <==> AllInRange(a) && AllInRange(b)
    ensures AllTimed(a + b) <==> AllTimed(a) && AllTimed(b)
  {
    hide InRange, TotalDelta;
    var c := a + b;
    assert forall m :: 0 <= m < |a| ==> c[m] == a[m];
    assert forall m :: 0 <= m < |b| ==> c[|a| + m] == b[m];
  }

  lemma OneMove(m: Move)
    requires |m.before| == |m.cur| == COUNTERS
    ensures AllInRange([m]) <==> InRange(m.before, m.cur)
    ensures AllTimed([m]) <==> TotalDelta(m.before, m.cur) != 0
  {
    hide InRange, TotalDelta;
    assert [m][0] == m;
  }

  lemma {:induction false} CalmMoves(cpus: seq<CpuData>, rs: seq<Reading>, i: nat)
    requires Records(cpus) && Timed(cpus, rs, i)
    ensures Calm(cpus, rs, i) <==> AllInRange(MovesOfPass(cpus, rs, i))
    ensures AllTimed(MovesOfPass(cpus, rs, i))
    decreases |cpus| - i
  {
    hide InRange, TotalDelta;
    if i < |cpus| && rs[i].Full? {
      CalmMoves(cpus, rs, i + 1);
      InRangeConcat([Move(cpus[i].times, rs[i].times)], MovesOfPass(cpus, rs, i + 1));
      OneMove(Move(cpus[i].times, rs[i].times));
    }
  }

  lemma {:induction false} CalmRunMoves(cpus: seq<CpuData>, passes: seq<seq<Reading>>)
    requires Records(cpus) && TimedRun(cpus, passes)
    ensures CalmRun(cpus, passes) <==> AllInRange(MovesOfRun(cpus, passes))
    ensures AllTimed(MovesOfRun(cpus, passes))
    decreases |passes|
  {
    hide Passed, Timed, Calm, AllInRange, AllTimed, MovesOfPass;
    if passes == [] {
      NoMoves();
    } else {
      PassKeepsRecords(cpus, passes[0], 0);
      var next := Passed(cpus, passes[0], 0);
      CalmMoves(cpus, passes[0], 0);
      CalmRunMoves(next, passes[1..]);
      InRangeConcat(MovesOfPass(cpus, passes[0], 0), MovesOfRun(next, passes[1..]));
    }
  }

  lemma NoMoves()
    ensures AllInRange([]) && AllTimed([])
  {
  }

  lemma StillMove(before: seq<nat>, cur: seq<nat>)
    requires |before| == |cur| == COUNTERS && TotalDelta(before, cur) != 0
    ensures TotalMove(before, cur) != 0
  {
    hide Wrap, Busy;
    UtilWithinHundred(before, cur);
    WrapOfSmall(0);
  }

  /**
   Over every run of the loop whose moves do not overflow: utilisations are within 100 at every balancing
   exactly if every move is sound, which the raw counters show.
   */
  lemma RunSoundIff(cpus: seq<CpuData>, passes: seq<seq<Reading>>)
    requires Records(cpus) && TimedRun(cpus, passes) && Bounded(cpus) && AllModerate(MovesOfRun(cpus, passes))
    ensures AlwaysBounded(cpus, passes) <==> AllSound(MovesOfRun(cpus, passes))
  {
    hide TimedRun, CalmRun, AlwaysBounded, MovesOfRun, Sound, InRange, Moderate, TotalDelta, TotalMove;
    RunBoundedIff(cpus, passes);
    CalmRunMoves(cpus, passes);
    var ms := MovesOfRun(cpus, passes);
    forall m | 0 <= m < |ms|
      ensures InRange(ms[m].before, ms[m].cur) <==> Sound(ms[m].before, ms[m].cur)
    {
      StillMove(ms[m].before, ms[m].cur);
      UtilWithinHundredIff(ms[m].before, ms[m].cur);
    }
  }

  /** Every run, cut-short passes included, keeps the number of records and the core ids. */
  lemma {:induction false} RunKeepsRecords(cpus: seq<CpuData>, passes: seq<seq<Reading>>)
    requires Records(cpus) && TimedRun(cpus, passes)
    ensures Records(AfterRun(cpus, passes)) && |AfterRun(cpus, passes)| == |cpus|
    ensures AlwaysBounded(cpus, passes) ==> Bounded(AfterRun(cpus, passes))
    ensures forall k :: 0 <= k < |cpus| ==> AfterRun(cpus, passes)[k].core == cpus[k].core
    decreases |passes|
  {
    hide Passed, Timed;
    if passes != [] {
      PassKeepsRecords(cpus, passes[0], 0);
      RunKeepsRecords(Passed(cpus, passes[0], 0), passes[1..]);
    }
  }

  /** The readings of a pass that can be relied on to be in range: no counter falls. */
  ghost predicate Growing(cpus: seq<CpuData>, rs: seq<Reading>, i: nat)
    requires Records(cpus)
    decreases |cpus| - i
  {
    i >= |cpus| ||
    (&& i < |rs| && Wellformed(rs[i])
     && (rs[i].Full? ==> Grows(cpus[i].times, rs[i].times) && Growing(cpus, rs, i + 1)))
  }

  lemma {:induction false} GrowingIsCalm(cpus: seq<CpuData>, rs: seq<Reading>, i: nat)
    requires Records(cpus) && Growing(cpus, rs, i)
    ensures Timed(cpus, rs, i) && Calm(cpus, rs, i)
    decreases |cpus| - i
  {
    hide TotalDelta, InRange, Grows, Util;
    if i < |cpus| && rs[i].Full? {
      UtilIsPercentage(cpus[i].times, rs[i].times);
      GrowingIsCalm(cpus, rs, i + 1);
    }
  }

  /** main: records zeroed, cores numbered from the offset in eight bits, each first reading complete. */
  function Started(offset: int, first: seq<seq<nat>>): (r: seq<CpuData>)
    requires forall k :: 0 <= k < |first| ==> |first[k]| == COUNTERS
    ensures |r| == |first| && Records(r) && Bounded(r)
  {
    seq(|first|, i requires 0 <= i < |first| => CpuData((i + offset) % 256, true, first[i], 0))
  }

  /** The cores are numbered upwards from the offset, no two alike while there are at most 256, and all start online and idle. */
  lemma StartedIs(offset: nat, first: seq<seq<nat>>)
    requires forall k :: 0 <= k < |first| ==> |first[k]| == COUNTERS
    ensures forall k :: 0 <= k < |first| && offset + k < 256 ==> Started(offset, first)[k] == CpuData(offset + k, true, first[k], 0)
    ensures |first| <= 256 ==>
      forall k, l :: 0 <= k < l < |first| ==> Started(offset, first)[k].core != Started(offset, first)[l].core
  {
    if |first| <= 256 {
      forall k, l | 0 <= k < l < |first|
        ensures Started(offset, first)[k].core != Started(offset, first)[l].core
      {
        RemaindersDiffer(k + offset, l + offset);
      }
    }
  }

  lemma RemaindersDiffer(a: nat, b: nat)
    requires a < b < a + 256
    ensures a % 256 != b % 256
  {
    var x, y := a / 256, b / 256;
    assert b - a == 256 * (y - x) + (b % 256 - a % 256);
  }

  /**
   From the start of the program, after any run of passes whose complete readings are in range, whatever
   balancing then does binds each IRQ exactly once, provided a core is still online.
   */
  lemma EveryBalancePartitions(offset: int, first: seq<seq<nat>>, passes: seq<seq<Reading>>, irqs: seq<int>,
                               outcome: Outcome, k: nat)
    requires forall i :: 0 <= i < |first| ==> |first[i]| == COUNTERS
    requires TimedRun(Started(offset, first), passes) && CalmRun(Started(offset, first), passes)
    requires var cpus := AfterRun(Started(offset, first), passes);
      k < |cpus| && cpus[k].online && IsBalance(cpus, irqs, outcome)
    ensures outcome.Balanced? && BindsAll(AfterRun(Started(offset, first), passes), irqs, outcome.bindings)
  {
    hide AfterRun, TimedRun, CalmRun, AlwaysBounded, IsBalance, BindsAll;
    var cpus := Started(offset, first);
    RunBoundedIff(cpus, passes);
    RunKeepsRecords(cpus, passes);
    BalancePartitions(AfterRun(cpus, passes), irqs, outcome, k);
  }
}
