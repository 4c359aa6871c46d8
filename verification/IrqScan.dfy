/** Listing the IRQs to balance (hardware/irqbalance/irqbalance.c, scan_for_irqs). */
module IrqScan {
  import opened Options

  /** A line of /proc/interrupts below the header: the IRQ number it starts with, if it starts with one. */
  type Line = Option<int>

  /**
   NoMemory: a negative count asks malloc for more than the address space holds.
   Starved: the lines counted in the first pass do not fill the slots.
   Hangs: the file is at its end and the slot to be filled holds a blacklisted number for ever.
   */
  datatype ScanResult = Listed(irqs: seq<int>) | NoMemory | Starved | Hangs

  /** The lines the first pass counts: those before the first without a number. */
  function Numbered(lines: seq<Line>): (ns: seq<int>)
    ensures |ns| <= |lines|
  {
    if lines == [] || lines[0].None? then [] else [lines[0].value] + Numbered(lines[1..])
  }

  /** The entries that are not blacklisted, in order. */
  function Wanted(ns: seq<int>, blacklist: seq<int>): seq<int> {
    if ns == [] then []
    else Wanted(ns[..|ns| - 1], blacklist) + if ns[|ns| - 1] in blacklist then [] else [ns[|ns| - 1]]
  }

  /** How many of the counted lines are blacklisted. */
  function Blocked(ns: seq<int>, blacklist: seq<int>): nat {
    if ns == [] then 0 else Blocked(ns[..|ns| - 1], blacklist) + if ns[|ns| - 1] in blacklist then 1 else 0
  }

  lemma {:induction false} WantedAndBlocked(ns: seq<int>, blacklist: seq<int>)
    ensures |Wanted(ns, blacklist)| + Blocked(ns, blacklist) == |ns|
  {
    if ns != [] { WantedAndBlocked(ns[..|ns| - 1], blacklist); }
  }

  method CountNumbered(lines: seq<Line>) returns (n: nat)
    ensures n == |Numbered(lines)|
  {
    n := 0;
    var pos := 0;
    while pos < |lines| && lines[pos].Some?
      invariant n == pos <= |lines|
      invariant n + |Numbered(lines[pos..])| == |Numbered(lines)|
    {
      assert lines[pos..][1..] == lines[pos + 1..];
      n := n + 1;
      pos := pos + 1;
    }
  }

  /**
   The second pass over the remaining lines: `got` are the slots filled, `raw` what the others hold.
   A line without a number, or the end of the file, leaves the slot as it is.
   */
  function FillFrom(lines: seq<Line>, got: seq<int>, raw: seq<int>, blacklist: seq<int>): ScanResult
    decreases |lines| + |raw|
  {
    if raw == [] then Listed(got)
    else if lines == [] then
      if raw[0] in blacklist then Hangs else FillFrom([], got + [raw[0]], raw[1..], blacklist)
    else
      var v := if lines[0].Some? then lines[0].value else raw[0];
      if v in blacklist then FillFrom(lines[1..], got, [v] + raw[1..], blacklist)
      else FillFrom(lines[1..], got + [v], raw[1..], blacklist)
  }

  method IsBlacklisted(irq: int, blacklist: seq<int>) returns (b: bool)
    ensures b <==> irq in blacklist
  {
    var j := 0;
    while j < |blacklist|
      invariant 0 <= j <= |blacklist| && irq !in blacklist[..j]
    {
      if blacklist[j] == irq {
        return true;
      }
      j := j + 1;
    }
    b := false;
  }

  /** The slots as malloc left them. */
  function Raw(n: nat, malloced: nat -> int): (r: seq<int>)
    ensures |r| == n && forall k :: 0 <= k < n ==> r[k] == malloced(k)
  {
    seq(n, k requires 0 <= k < n => malloced(k))
  }

  method Scan(lines: seq<Line>, blacklist: seq<int>, malloced: nat -> int) returns (r: ScanResult)
    ensures var room := |Numbered(lines)| - |blacklist|;
      r == if room < 0 then NoMemory else FillFrom(lines, [], Raw(room, malloced), blacklist)
  {
    var counted := CountNumbered(lines);
    var irqsNum := counted - |blacklist|;
    if irqsNum < 0 {
      return NoMemory;
    }
    var irqs := new int[irqsNum](i requires 0 <= i => malloced(i));
    assert irqs[..] == Raw(irqsNum, malloced);
    ghost var due := FillFrom(lines, [], irqs[..], blacklist);
    assert irqs[0..] == irqs[..];
    var i, pos := 0, 0;
    while i < irqsNum
      invariant 0 <= i <= irqsNum && 0 <= pos <= |lines|
      invariant FillFrom(lines[pos..], irqs[..i], irqs[i..], blacklist) == due
      decreases |lines| - pos, irqsNum - i
    {
      ghost var rest, got, raw := lines[pos..], irqs[..i], irqs[i..];
      if pos < |lines| && lines[pos].Some? {
        irqs[i] := lines[pos].value;
      }
      assert irqs[..i] == got && irqs[i..] == [irqs[i]] + raw[1..];
      assert irqs[..i + 1] == got + [irqs[i]] && irqs[i + 1..] == raw[1..];
      var skip := IsBlacklisted(irqs[i], blacklist);
      if skip && pos == |lines| {
        return Hangs;
      }
      if pos < |lines| {
        assert rest[1..] == lines[pos + 1..];
        pos := pos + 1;
      }
      if !skip {
        i := i + 1;
      }
    }
    r := Listed(irqs[..]);
    assert irqs[..i] == irqs[..];
  }

  /** What the counted lines give: the first |ns| - |blacklist| wanted ones. */
  function ScanOf(ns: seq<int>, blacklist: seq<int>): ScanResult {
    var room := |ns| - |blacklist|;
    var wanted := Wanted(ns, blacklist);
    if room < 0 then NoMemory else if |wanted| < room then Starved else Listed(wanted[..room])
  }

  lemma {:induction false} WantedCons(n: int, ns: seq<int>, blacklist: seq<int>)
    ensures Wanted([n] + ns, blacklist) == (if n in blacklist then [] else [n]) + Wanted(ns, blacklist)
    decreases |ns|
  {
    var all := [n] + ns;
    if ns == [] {
      assert all[..0] == [];
    } else {
      assert all[..|all| - 1] == [n] + ns[..|ns| - 1];
      WantedCons(n, ns[..|ns| - 1], blacklist);
    }
  }

  lemma {:induction false} FillWithin(lines: seq<Line>, got: seq<int>, raw: seq<int>, blacklist: seq<int>)
    requires |raw| <= |Wanted(Numbered(lines), blacklist)|
    ensures FillFrom(lines, got, raw, blacklist) == Listed(got + Wanted(Numbered(lines), blacklist)[..|raw|])
    decreases |lines|
  {
    hide Wanted;
    if raw == [] {
      assert got + Wanted(Numbered(lines), blacklist)[..0] == got;
    } else {
      NothingWanted(blacklist);
      var n, rest := lines[0].value, Numbered(lines[1..]);
      WantedCons(n, rest, blacklist);
      if n in blacklist {
        assert [] + Wanted(rest, blacklist) == Wanted(rest, blacklist);
        FillWithin(lines[1..], got, [n] + raw[1..], blacklist);
      } else {
        FillWithin(lines[1..], got + [n], raw[1..], blacklist);
        assert got + ([n] + Wanted(rest, blacklist))[..|raw|] == (got + [n]) + Wanted(rest, blacklist)[..|raw| - 1];
      }
    }
  }

  lemma NothingWanted(blacklist: seq<int>)
    ensures Wanted([], blacklist) == []
  {
  }

  /** Where the counted lines suffice, they alone decide the result, whatever memory malloc returned. */
  lemma ScanIsScanOf(lines: seq<Line>, blacklist: seq<int>, raw: seq<int>)
    requires |raw| == |Numbered(lines)| - |blacklist| && ScanOf(Numbered(lines), blacklist).Listed?
    ensures FillFrom(lines, [], raw, blacklist) == ScanOf(Numbered(lines), blacklist)
  {
    FillWithin(lines, [], raw, blacklist);
    assert [] + Wanted(Numbered(lines), blacklist)[..|raw|] == Wanted(Numbered(lines), blacklist)[..|raw|];
  }

  /** No numbers follow the counted lines. */
  predicate NumbersFirst(lines: seq<Line>) {
    if lines != [] && lines[0].Some? then NumbersFirst(lines[1..]) else forall k :: 0 <= k < |lines| ==> lines[k].None?
  }

  /** With no numbers left the slots keep what they hold, and a blacklisted one is never passed. */
  lemma {:induction false} NoNumbersHangIff(lines: seq<Line>, got: seq<int>, raw: seq<int>, blacklist: seq<int>)
    requires forall k :: 0 <= k < |lines| ==> lines[k].None?
    ensures FillFrom(lines, got, raw, blacklist) == Hangs <==> exists k :: 0 <= k < |raw| && raw[k] in blacklist
    decreases |lines| + |raw|
  {
    if raw != [] {
      assert [raw[0]] + raw[1..] == raw;
      assert forall k :: 0 < k < |raw| ==> raw[k] == raw[1..][k - 1];
      if raw[0] !in blacklist {
        NoNumbersHangIff(if lines == [] then [] else lines[1..], got + [raw[0]], raw[1..], blacklist);
      } else if lines != [] {
        NoNumbersHangIff(lines[1..], got, raw, blacklist);
      }
    }
  }

  predicate LastBlocked(ns: seq<int>, blacklist: seq<int>) { ns != [] && ns[|ns| - 1] in blacklist }

  predicate SomeBlocked(raw: seq<int>, from: nat, blacklist: seq<int>) {
    exists k :: from <= k < |raw| && raw[k] in blacklist
  }

  /**
   The wanted lines do not fill the slots, and the next slot holds the last line, which is blacklisted, or
   some slot that no line fills was left blacklisted by malloc.
   */
  predicate Stuck(ns: seq<int>, raw: seq<int>, blacklist: seq<int>) {
    var w := |Wanted(ns, blacklist)|;
    w < |raw| && (LastBlocked(ns, blacklist) || SomeBlocked(raw, w, blacklist))
  }

  lemma LastWanted(ns: seq<int>, blacklist: seq<int>)
    requires ns != [] && !LastBlocked(ns, blacklist)
    ensures |Wanted(ns, blacklist)| > 0
  {
  }

  /** The first counted line does not decide whether the pass gets stuck. */
  lemma StuckNext(n: int, rest: seq<int>, raw: seq<int>, blacklist: seq<int>)
    requires raw != []
    ensures Stuck([n] + rest, raw, blacklist) <==>
      if n in blacklist then rest == [] || Stuck(rest, [n] + raw[1..], blacklist) else Stuck(rest, raw[1..], blacklist)
  {
    hide Wanted;
    var ns, w := [n] + rest, |Wanted(rest, blacklist)|;
    WantedCons(n, rest, blacklist);
    NothingWanted(blacklist);
    assert LastBlocked(ns, blacklist) <==> if rest == [] then n in blacklist else LastBlocked(rest, blacklist);
    if n in blacklist {
      if rest != [] && !LastBlocked(rest, blacklist) {
        LastWanted(rest, blacklist);
        var raw' := [n] + raw[1..];
        assert forall k :: w <= k < |raw| ==> raw'[k] == raw[k];
      }
    } else {
      SomeBlockedNext(raw, w, blacklist);
    }
  }

  lemma SomeBlockedNext(raw: seq<int>, from: nat, blacklist: seq<int>)
    requires raw != []
    ensures SomeBlocked(raw, from + 1, blacklist) <==> SomeBlocked(raw[1..], from, blacklist)
  {
    if k :| from + 1 <= k < |raw| && raw[k] in blacklist { assert raw[1..][k - 1] == raw[k]; }
    if k :| from <= k < |raw[1..]| && raw[1..][k] in blacklist { assert raw[k + 1] == raw[1..][k]; }
  }

  /** The second pass never ends exactly if it gets stuck, whatever memory malloc returned. */
  lemma {:induction false} FillHangsIff(lines: seq<Line>, got: seq<int>, raw: seq<int>, blacklist: seq<int>)
    requires NumbersFirst(lines)
    ensures FillFrom(lines, got, raw, blacklist) == Hangs <==> Stuck(Numbered(lines), raw, blacklist)
    decreases |lines|
  {
    hide Stuck;
    if raw == [] {
      NeverStuck(Numbered(lines), blacklist);
    } else if lines == [] || lines[0].None? {
      NoNumbersHangIff(lines, got, raw, blacklist);
      StuckWithoutLines(raw, blacklist);
    } else {
      var n, rest := lines[0].value, Numbered(lines[1..]);
      StuckNext(n, rest, raw, blacklist);
      if n in blacklist {
        FillHangsIff(lines[1..], got, [n] + raw[1..], blacklist);
        if rest == [] { StuckWithoutLines([n] + raw[1..], blacklist); }
      } else {
        FillHangsIff(lines[1..], got + [n], raw[1..], blacklist);
      }
    }
  }

  lemma NeverStuck(ns: seq<int>, blacklist: seq<int>)
    ensures !Stuck(ns, [], blacklist)
  {
  }

  lemma StuckWithoutLines(raw: seq<int>, blacklist: seq<int>)
    ensures Stuck([], raw, blacklist) <==> exists k :: 0 <= k < |raw| && raw[k] in blacklist
    ensures raw != [] && raw[0] in blacklist ==> Stuck([], raw, blacklist)
  {
  }

  /** In particular: where the counted lines do not suffice and the last of them is blacklisted. */
  lemma StarvedScanHangs(lines: seq<Line>, blacklist: seq<int>, raw: seq<int>)
    requires var ns := Numbered(lines);
      |raw| == |ns| - |blacklist| && ScanOf(ns, blacklist) == Starved && ns[|ns| - 1] in blacklist
    requires NumbersFirst(lines)
    ensures FillFrom(lines, [], raw, blacklist) == Hangs
  {
    FillHangsIff(lines, [], raw, blacklist);
  }

  lemma NumberFirst(n: int, rest: seq<Line>)
    ensures Numbered([Some(n)] + rest) == [n] + Numbered(rest)
    ensures NumbersFirst([Some(n)] + rest) == NumbersFirst(rest)
  {
    assert ([Some(n)] + rest)[1..] == rest;
  }

  /** The count stops at the first line without a number, whatever follows. */
  lemma CountStops(ns: seq<int>, rest: seq<Line>)
    ensures Numbered(seq(|ns|, i requires 0 <= i < |ns| => Some(ns[i])) + ([None] + rest)) == ns
    decreases |ns|
  {
    var lines: seq<Line> := seq(|ns|, i requires 0 <= i < |ns| => Some(ns[i]));
    if ns == [] {
      assert lines + ([None] + rest) == [None] + rest;
    } else {
      var tail: seq<Line> := seq(|ns| - 1, i requires 0 <= i < |ns| - 1 => Some(ns[1..][i]));
      assert lines + ([None] + rest) == [Some(ns[0])] + (tail + ([None] + rest));
      CountStops(ns[1..], rest);
      NumberFirst(ns[0], tail + ([None] + rest));
    }
  }

  /** A slot that malloc left blacklisted hangs the pass although the last line is wanted. */
  lemma LeftoverHangs(n: int, m: int, raw: int)
    requires n != m
    ensures FillFrom([Some(n), Some(n), Some(m)], [], [raw, n], [n]) == Hangs
  {
    hide Wanted, FillFrom, Numbered, NumbersFirst;
    NoLines();
    NumberFirst(m, []);
    NumberFirst(n, [Some(m)] + []);
    NumberFirst(n, [Some(n)] + ([Some(m)] + []));
    assert [Some(n)] + ([Some(n)] + ([Some(m)] + [])) == [Some(n), Some(n), Some(m)];
    NothingWanted([n]);
    WantedCons(m, [], [n]);
    WantedCons(n, [m] + [], [n]);
    WantedCons(n, [n] + ([m] + []), [n]);
    assert [raw, n][1] in [n];
    FillHangsIff([Some(n), Some(n), Some(m)], [], [raw, n], [n]);
  }

  lemma NoLines()
    ensures Numbered([]) == [] && NumbersFirst([])
  {
  }

  /** The second pass stays within the counted lines exactly when no more of them are blocked than the blacklist is long. */
  lemma ScanSucceedsIff(ns: seq<int>, blacklist: seq<int>)
    ensures ScanOf(ns, blacklist).Listed? <==> |blacklist| <= |ns| && Blocked(ns, blacklist) <= |blacklist|
  {
    WantedAndBlocked(ns, blacklist);
  }

  predicate Distinct(ns: seq<int>) { forall i, j :: 0 <= i < j < |ns| ==> ns[i] != ns[j] }

  predicate AllIn(a: seq<int>, b: seq<int>) { forall i :: 0 <= i < |a| ==> a[i] in b }

  function Remove(s: seq<int>, x: int): seq<int> {
    if s == [] then [] else if s[0] == x then Remove(s[1..], x) else [s[0]] + Remove(s[1..], x)
  }

  lemma {:induction false} RemoveShrinks(s: seq<int>, x: int)
    ensures |Remove(s, x)| <= |s| && (x in s ==> |Remove(s, x)| < |s|)
    ensures forall y :: y in Remove(s, x) <==> y in s && y != x
  {
    if s != [] { RemoveShrinks(s[1..], x); }
  }

  /** Only membership in the blacklist matters. */
  lemma {:induction false} BlockedSame(ns: seq<int>, a: seq<int>, b: seq<int>)
    requires forall i :: 0 <= i < |ns| ==> (ns[i] in a <==> ns[i] in b)
    ensures Blocked(ns, a) == Blocked(ns, b)
  {
    if ns != [] { BlockedSame(ns[..|ns| - 1], a, b); }
  }

  /** Distinct lines lose at most one line to each blacklist entry. */
  lemma {:induction false} DistinctLoseFew(ns: seq<int>, blacklist: seq<int>)
    requires Distinct(ns)
    ensures Blocked(ns, blacklist) <= |blacklist|
    decreases |ns|
  {
    if ns != [] {
      var front, n := ns[..|ns| - 1], ns[|ns| - 1];
      if n in blacklist {
        RemoveShrinks(blacklist, n);
        BlockedSame(front, blacklist, Remove(blacklist, n));
        DistinctLoseFew(front, Remove(blacklist, n));
      } else {
        DistinctLoseFew(front, blacklist);
      }
    }
  }

  /** Distinct IRQ lines and a blacklist no longer than their number: the scan fills every slot. */
  lemma DistinctLinesAreListed(ns: seq<int>, blacklist: seq<int>)
    requires Distinct(ns) && |blacklist| <= |ns|
    ensures |ns| - |blacklist| <= |Wanted(ns, blacklist)|
    ensures ScanOf(ns, blacklist) == Listed(Wanted(ns, blacklist)[..|ns| - |blacklist|])
  {
    DistinctLoseFew(ns, blacklist);
    ScanSucceedsIff(ns, blacklist);
  }

  lemma {:induction false} BlockedAll(ns: seq<int>, blacklist: seq<int>)
    requires Distinct(ns) && Distinct(blacklist) && AllIn(blacklist, ns)
    ensures Blocked(ns, blacklist) == |blacklist|
    decreases |ns|
  {
    if ns != [] {
      var front, n := ns[..|ns| - 1], ns[|ns| - 1];
      assert forall b :: b in ns ==> b in front || b == n;
      assert n !in front;
      if n in blacklist {
        RemoveShrinks(blacklist, n);
        assert AllIn(Remove(blacklist, n), front) by {
          forall i | 0 <= i < |Remove(blacklist, n)|
            ensures Remove(blacklist, n)[i] in front
          {
            var x := Remove(blacklist, n)[i];
            assert x in Remove(blacklist, n);
            assert x in blacklist && x != n;
            var k :| 0 <= k < |blacklist| && blacklist[k] == x;
            assert blacklist[k] in ns;
          }
        }
        RemoveOne(blacklist, n);
        BlockedSame(front, blacklist, Remove(blacklist, n));
        BlockedAll(front, Remove(blacklist, n));
      } else {
        BlockedAll(front, blacklist);
      }
    }
  }

  lemma {:induction false} RemoveOne(s: seq<int>, x: int)
    requires Distinct(s)
    ensures Distinct(Remove(s, x)) && |Remove(s, x)| == |s| - if x in s then 1 else 0
  {
    if s != [] {
      RemoveOne(s[1..], x);
      RemoveShrinks(s[1..], x);
      if s[0] == x {
        assert x !in s[1..];
      } else {
        assert s[0] !in s[1..];
      }
    }
  }

  lemma {:induction false} WantedMembers(ns: seq<int>, blacklist: seq<int>)
    ensures forall n :: n in Wanted(ns, blacklist) <==> n in ns && n !in blacklist
  {
    if ns != [] {
      WantedMembers(ns[..|ns| - 1], blacklist);
      assert ns == ns[..|ns| - 1] + [ns[|ns| - 1]];
    }
  }

  /**
   If moreover the blacklist names each of some listed lines once, the result is exactly the lines not
   named, in file order; no IRQ is lost.
   */
  lemma ExactBlacklistLosesNothing(ns: seq<int>, blacklist: seq<int>)
    requires Distinct(ns) && Distinct(blacklist) && AllIn(blacklist, ns)
    ensures ScanOf(ns, blacklist) == Listed(Wanted(ns, blacklist))
    ensures forall n :: n in Wanted(ns, blacklist) <==> n in ns && n !in blacklist
  {
    BlockedAll(ns, blacklist);
    WantedAndBlocked(ns, blacklist);
    WantedMembers(ns, blacklist);
    assert Wanted(ns, blacklist)[..|ns| - |blacklist|] == Wanted(ns, blacklist);
  }

  /** s without the entry at position i. */
  function Without(s: seq<int>, i: nat): (r: seq<int>)
    requires i < |s|
    ensures |r| == |s| - 1
  {
    s[..i] + s[i + 1..]
  }

  lemma WithoutMembers(s: seq<int>, i: nat, y: int)
    requires i < |s|
    ensures y in s <==> y == s[i] || y in Without(s, i)
  {
    assert s == s[..i] + ([s[i]] + s[i + 1..]);
  }

  /** A blacklist entry that is no line, or is there twice, leaves fewer lines blocked than there are entries. */
  lemma WastedEntry(ns: seq<int>, blacklist: seq<int>, i: nat)
    requires Distinct(ns) && i < |blacklist|
    requires blacklist[i] !in ns || blacklist[i] in Without(blacklist, i)
    ensures Blocked(ns, blacklist) < |blacklist|
  {
    var rest := Without(blacklist, i);
    forall k | 0 <= k < |ns|
      ensures ns[k] in blacklist <==> ns[k] in rest
    {
      WithoutMembers(blacklist, i, ns[k]);
      assert ns[k] in ns;
    }
    BlockedSame(ns, blacklist, rest);
    DistinctLoseFew(ns, rest);
  }

  /** Every entry blocks a line of its own exactly if the blacklist is a duplicate-free part of the lines. */
  lemma BlockedAllIff(ns: seq<int>, blacklist: seq<int>)
    requires Distinct(ns)
    ensures Blocked(ns, blacklist) == |blacklist| <==> Distinct(blacklist) && AllIn(blacklist, ns)
  {
    if Distinct(blacklist) && AllIn(blacklist, ns) {
      BlockedAll(ns, blacklist);
    } else if !AllIn(blacklist, ns) {
      var i :| 0 <= i < |blacklist| && blacklist[i] !in ns;
      WastedEntry(ns, blacklist, i);
    } else {
      var i, j :| 0 <= i < j < |blacklist| && blacklist[i] == blacklist[j];
      assert Without(blacklist, i)[j - 1] == blacklist[i];
      WastedEntry(ns, blacklist, i);
    }
  }

  /** For distinct lines: no IRQ is lost exactly if the blacklist is a duplicate-free part of the lines. */
  lemma NothingIsLostIff(ns: seq<int>, blacklist: seq<int>)
    requires Distinct(ns)
    ensures ScanOf(ns, blacklist) == Listed(Wanted(ns, blacklist)) <==> Distinct(blacklist) && AllIn(blacklist, ns)
  {
    WantedAndBlocked(ns, blacklist);
    BlockedAllIff(ns, blacklist);
    var room := |ns| - |blacklist|;
    if 0 <= room <= |Wanted(ns, blacklist)| {
      assert |Wanted(ns, blacklist)[..room]| == room;
      if room == |Wanted(ns, blacklist)| { assert Wanted(ns, blacklist)[..room] == Wanted(ns, blacklist); }
    }
  }

  /** A line listed twice and blacklisted once starves the second pass, and it hangs. */
  lemma RepeatedLineHangs(n: int, raw: int)
    ensures ScanOf([n, n], [n]) == Starved
    ensures FillFrom([Some(n), Some(n)], [], [raw], [n]) == Hangs
  {
    var lines: seq<Line> := [Some(n), Some(n)];
    assert lines[1..] == [Some(n)] && lines[1..][1..] == [];
    assert Numbered(lines[1..]) == [n] && Numbered(lines) == [n, n];
    assert [n, n][..1] == [n] && [n][..0] == [];
    assert Wanted([n], [n]) == [];
    StarvedScanHangs(lines, [n], [raw]);
  }
}
