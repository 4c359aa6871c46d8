/**
 The sorted parameter map behind android::CameraParameters, its text form, and what the two
 conversions do to each other (camera/CameraParameters.cpp).

 KeyedVector<String8, String8> keeps its entries in strictly increasing key order; adding a key
 that is present replaces its value.
 */
module ParameterMap {
  import opened Options

  datatype Entry = Entry(key: string, value: string)

  /** Byte-wise order of strings, as strcmp gives it. */
  predicate Less(a: string, b: string) {
    b != [] && (a == [] || a[0] < b[0] || (a[0] == b[0] && Less(a[1..], b[1..])))
  }

  lemma {:induction false} LessTotal(a: string, b: string)
    ensures Less(a, b) || a == b || Less(b, a)
  {
    if a != [] && b != [] && a[0] == b[0] {
      LessTotal(a[1..], b[1..]);
      assert a == [a[0]] + a[1..] && b == [b[0]] + b[1..];
    }
  }

  lemma {:induction false} LessIrreflexive(a: string)
    ensures !Less(a, a)
  {
    if a != [] { LessIrreflexive(a[1..]); }
  }

  lemma {:induction false} LessTransitive(a: string, b: string, c: string)
    requires Less(a, b) && Less(b, c)
    ensures Less(a, c)
  {
    if a != [] && a[0] == b[0] && b[0] == c[0] { LessTransitive(a[1..], b[1..], c[1..]); }
  }

  /** The strings agree up to place i, where the first ends or has the smaller character. */
  predicate SmallerAt(a: string, b: string, i: nat) {
    i <= |a| && i < |b| && a[..i] == b[..i] && (i == |a| || a[i] < b[i])
  }

  lemma {:induction false} PlaceOfLess(a: string, b: string) returns (i: nat)
    requires Less(a, b)
    ensures SmallerAt(a, b, i)
  {
    i := 0;
    if a != [] && a[0] == b[0] {
      i := PlaceOfLess(a[1..], b[1..]);
      assert a[..i + 1] == [a[0]] + a[1..][..i] && b[..i + 1] == [b[0]] + b[1..][..i];
      i := i + 1;
    }
  }

  lemma {:induction false} SmallerIsLess(a: string, b: string, i: nat)
    requires SmallerAt(a, b, i)
    ensures Less(a, b)
  {
    if i > 0 {
      assert a[0] == a[..i][0] == b[..i][0] == b[0];
      assert a[1..][..i - 1] == a[..i][1..] && b[1..][..i - 1] == b[..i][1..];
      SmallerIsLess(a[1..], b[1..], i - 1);
    }
  }

  /** The order of the keys is that of strcmp. */
  lemma LessIff(a: string, b: string)
    ensures Less(a, b) <==> exists i: nat :: SmallerAt(a, b, i)
  {
    if Less(a, b) {
      var i := PlaceOfLess(a, b);
    } else if i: nat :| SmallerAt(a, b, i) {
      SmallerIsLess(a, b, i);
    }
  }

  ghost predicate Sorted(m: seq<Entry>) {
    forall i, j :: 0 <= i < j < |m| ==> Less(m[i].key, m[j].key)
  }

  /** KeyedVector::add and replaceValueFor. */
  function Put(m: seq<Entry>, k: string, v: string): (r: seq<Entry>)
    ensures |r| > 0
  {
    if m == [] || Less(k, m[0].key) then [Entry(k, v)] + m
    else if k == m[0].key then [Entry(k, v)] + m[1..]
    else [m[0]] + Put(m[1..], k, v)
  }

  function Lookup(m: seq<Entry>, k: string): Option<string> {
    if m == [] then None else if m[0].key == k then Some(m[0].value) else Lookup(m[1..], k)
  }

  lemma {:induction false} PutKeys(m: seq<Entry>, k: string, v: string)
    ensures forall e :: e in Put(m, k, v) ==> e == Entry(k, v) || e in m
  {
    if m != [] && !Less(k, m[0].key) && k != m[0].key { PutKeys(m[1..], k, v); }
  }

  lemma {:induction false} PutKeepsOrder(m: seq<Entry>, k: string, v: string)
    requires Sorted(m)
    ensures Sorted(Put(m, k, v))
  {
    if m == [] {
    } else if Less(k, m[0].key) {
      forall j | 0 <= j < |m|
        ensures Less(k, m[j].key)
      {
        if j > 0 { LessTransitive(k, m[0].key, m[j].key); }
      }
    } else if k != m[0].key {
      LessTotal(k, m[0].key);
      PutKeepsOrder(m[1..], k, v);
      PutKeys(m[1..], k, v);
      var rest := Put(m[1..], k, v);
      forall j | 0 <= j < |rest|
        ensures Less(m[0].key, rest[j].key)
      {
        assert rest[j] in rest;
        if rest[j] != Entry(k, v) {
          var i :| 0 <= i < |m[1..]| && m[1..][i] == rest[j];
          assert m[i + 1] == rest[j];
        }
      }
    }
  }

  /** Adding a key changes that key only. */
  lemma {:induction false} LookupAfterPut(m: seq<Entry>, k: string, v: string, other: string)
    requires Sorted(m)
    ensures Lookup(Put(m, k, v), other) == if other == k then Some(v) else Lookup(m, other)
  {
    if m == [] || Less(k, m[0].key) {
      assert Put(m, k, v)[1..] == m;
    } else if k == m[0].key {
      assert Put(m, k, v)[1..] == m[1..];
    } else {
      assert Put(m, k, v)[1..] == Put(m[1..], k, v);
      LookupAfterPut(m[1..], k, v, other);
    }
  }

  lemma {:induction false} LookupSmall(m: seq<Entry>, k: string)
    requires Sorted(m) && m != [] && Less(k, m[0].key)
    ensures Lookup(m, k) == None
  {
    LessIrreflexive(k);
    if |m| > 1 {
      LessTransitive(k, m[0].key, m[1].key);
      LookupSmall(m[1..], k);
    }
  }

  /** A sorted map is determined by its lookups. */
  lemma {:induction false} SameLookupsSameMap(m: seq<Entry>, n: seq<Entry>)
    requires Sorted(m) && Sorted(n) && forall k :: Lookup(m, k) == Lookup(n, k)
    ensures m == n
    decreases |m| + |n|
  {
    assert m != [] ==> Lookup(m, m[0].key) == Lookup(n, m[0].key);
    assert n != [] ==> Lookup(m, n[0].key) == Lookup(n, n[0].key);
    if m != [] && n != [] {
      LessTotal(m[0].key, n[0].key);
      if Less(m[0].key, n[0].key) {
        LookupSmall(n, m[0].key);
      } else if Less(n[0].key, m[0].key) {
        LookupSmall(m, n[0].key);
      }
      forall k
        ensures Lookup(m[1..], k) == Lookup(n[1..], k)
      {
        assert Lookup(m, k) == Lookup(n, k);
        if k == m[0].key {
          if |m| > 1 { LookupSmall(m[1..], k); }
          if |n| > 1 { LookupSmall(n[1..], k); }
        }
      }
      SameLookupsSameMap(m[1..], n[1..]);
      assert m == [m[0]] + m[1..] && n == [n[0]] + n[1..];
    }
  }

  // -------------------------------------------------------------------------------------
  // The text form.

  /** Position of the first `c`, or the length of the text: what strchr finds. */
  function Find(s: string, c: char): (i: nat)
    ensures i <= |s|
    ensures i < |s| ==> s[i] == c
  {
    if s == [] || s[0] == c then 0 else 1 + Find(s[1..], c)
  }

  lemma {:induction false} FindAfter(a: string, c: char, b: string)
    requires c !in a
    ensures Find(a + b, c) == |a| + Find(b, c)
  {
    if a == [] {
      assert a + b == b;
    } else {
      assert (a + b)[1..] == a[1..] + b && (a + b)[0] == a[0];
      assert c !in a[1..];
      FindAfter(a[1..], c, b);
    }
  }

  lemma {:induction false} NotBeforeFind(s: string, c: char)
    ensures c !in s[..Find(s, c)]
  {
    if s != [] && s[0] != c {
      NotBeforeFind(s[1..], c);
      assert s[..Find(s, c)] == [s[0]] + s[1..][..Find(s[1..], c)];
    }
  }

  function FlattenOf(m: seq<Entry>): string {
    if m == [] then ""
    else m[0].key + "=" + m[0].value + (if |m| == 1 then "" else ";" + FlattenOf(m[1..]))
  }

  /** The first pair of a text and what follows it. */
  function Rest(s: string): (r: Option<string>)
    requires Find(s, '=') < |s|
    ensures r.Some? ==> |r.value| < |s|
  {
    var rest := s[Find(s, '=') + 1..];
    var semi := Find(rest, ';');
    if semi == |rest| then None else Some(rest[semi + 1..])
  }

  function First(s: string): (e: Entry)
    requires Find(s, '=') < |s|
  {
    var eq := Find(s, '=');
    Entry(s[..eq], s[eq + 1..][..Find(s[eq + 1..], ';')])
  }

  /** The pairs written in a text, in order; text without '=' at the end is dropped. */
  function Pairs(s: string): seq<Entry>
    decreases |s|
  {
    if Find(s, '=') == |s| then []
    else [First(s)] + if Rest(s).None? then [] else Pairs(Rest(s).value)
  }

  function AddAll(m: seq<Entry>, ps: seq<Entry>): seq<Entry>
    decreases |ps|
  {
    if ps == [] then m else AddAll(Put(m, ps[0].key, ps[0].value), ps[1..])
  }

  /** One round of the parser: the first pair is added, then the rest of the text is read. */
  lemma {:induction false} AddFirst(m: seq<Entry>, s: string)
    requires Find(s, '=') < |s|
    ensures var m' := Put(m, First(s).key, First(s).value);
      AddAll(m, Pairs(s)) == if Rest(s).None? then m' else AddAll(m', Pairs(Rest(s).value))
  {
    var tail := if Rest(s).None? then [] else Pairs(Rest(s).value);
    assert ([First(s)] + tail)[1..] == tail;
  }

  /** What the parser makes of a text. */
  function UnflattenOf(s: string): seq<Entry> { AddAll([], Pairs(s)) }

  /** The entry that the parser can produce and the printer can keep apart. */
  predicate Legal(e: Entry) { '=' !in e.key && ';' !in e.value }

  ghost predicate WellFormed(m: seq<Entry>) { Sorted(m) && forall i :: 0 <= i < |m| ==> Legal(m[i]) }

  lemma FirstIsLegal(s: string)
    requires Find(s, '=') < |s|
    ensures Legal(First(s))
  {
    NotBeforeFind(s, '=');
    NotBeforeFind(s[Find(s, '=') + 1..], ';');
  }

  lemma {:induction false} PairsAreLegal(s: string)
    ensures forall i :: 0 <= i < |Pairs(s)| ==> Legal(Pairs(s)[i])
    decreases |s|
  {
    if Find(s, '=') < |s| {
      FirstIsLegal(s);
      if Rest(s).Some? { PairsAreLegal(Rest(s).value); }
    }
  }

  lemma PutKeepsLegal(m: seq<Entry>, k: string, v: string)
    requires WellFormed(m) && Legal(Entry(k, v))
    ensures WellFormed(Put(m, k, v))
  {
    PutKeepsOrder(m, k, v);
    PutKeys(m, k, v);
    var r := Put(m, k, v);
    assert forall i :: 0 <= i < |r| ==> r[i] in r;
  }

  lemma {:induction false} AddAllKeepsLegal(m: seq<Entry>, ps: seq<Entry>)
    requires WellFormed(m) && forall i :: 0 <= i < |ps| ==> Legal(ps[i])
    ensures WellFormed(AddAll(m, ps))
    decreases |ps|
  {
    if ps != [] {
      PutKeepsLegal(m, ps[0].key, ps[0].value);
      AddAllKeepsLegal(Put(m, ps[0].key, ps[0].value), ps[1..]);
    }
  }

  /** Whatever the text, the map is sorted, no key holds '=' and no value holds ';'. */
  lemma ParsedIsWellFormed(s: string)
    ensures WellFormed(UnflattenOf(s))
  {
    PairsAreLegal(s);
    AddAllKeepsLegal([], Pairs(s));
  }

  /** A text cut at its first `c`. */
  lemma CutAtFind(a: string, c: char, b: string)
    requires c !in a && (b == "" || b[0] == c)
    ensures Find(a + b, c) == |a| && (a + b)[..|a|] == a && (a + b)[|a|..] == b
  {
    FindAfter(a, c, b);
  }

  lemma NoPairsInEmpty()
    ensures Pairs("") == []
  {
  }

  lemma Regroup(a: string, b: string, c: string, d: string)
    ensures a + b + c + d == a + (b + (c + d))
  {
  }

  /** How a printed entry is read, alone or followed by more. */
  lemma FirstOfPrinted(e: Entry, tail: string)
    requires Legal(e) && (tail == "" || tail[0] == ';')
    ensures var s := e.key + "=" + e.value + tail;
      Find(s, '=') < |s| && First(s) == e && Rest(s) == if tail == "" then None else Some(tail[1..])
  {
    hide Find;
    var s, vt := e.key + "=" + e.value + tail, e.value + tail;
    var n := |e.key|;
    Regroup(e.key, "=", e.value, tail);
    CutAtFind(e.key, '=', "=" + vt);
    assert s[n..] == "=" + vt && s[n + 1..] == s[n..][1..] == vt;
    CutAtFind(e.value, ';', tail);
    if tail != "" { assert vt[|e.value| + 1..] == vt[|e.value|..][1..]; }
  }

  /** Printing and parsing gives back the entries, in order. */
  lemma {:induction false} PairsOfFlatten(m: seq<Entry>)
    requires forall i :: 0 <= i < |m| ==> Legal(m[i])
    ensures Pairs(FlattenOf(m)) == m
  {
    hide Find, First, Rest;
    if m == [] {
      NoPairsInEmpty();
    } else {
      var tail := if |m| == 1 then "" else ";" + FlattenOf(m[1..]);
      FirstOfPrinted(m[0], tail);
      if |m| > 1 {
        assert tail[1..] == FlattenOf(m[1..]);
        PairsOfFlatten(m[1..]);
        assert m == [m[0]] + m[1..];
      }
    }
  }

  lemma {:induction false} PutAtEnd(m: seq<Entry>, e: Entry)
    requires Sorted(m + [e])
    ensures Put(m, e.key, e.value) == m + [e]
  {
    if m != [] {
      var all := m + [e];
      assert all[0] == m[0] && all[|m|] == e;
      if Less(e.key, m[0].key) { LessTransitive(e.key, m[0].key, e.key); }
      LessIrreflexive(e.key);
      assert m[1..] + [e] == all[1..];
      PutAtEnd(m[1..], e);
    }
  }

  lemma {:induction false} AddAllSorted(m: seq<Entry>, ps: seq<Entry>)
    requires Sorted(m + ps)
    ensures AddAll(m, ps) == m + ps
    decreases |ps|
  {
    if ps != [] {
      assert (m + ps)[..|m| + 1] == m + [ps[0]];
      PutAtEnd(m, ps[0]);
      assert (m + [ps[0]]) + ps[1..] == m + ps;
      AddAllSorted(m + [ps[0]], ps[1..]);
    }
  }

  /** Parsing undoes printing on every map that parsing or setting can build. */
  lemma UnflattenFlatten(m: seq<Entry>)
    requires WellFormed(m)
    ensures UnflattenOf(FlattenOf(m)) == m
  {
    PairsOfFlatten(m);
    AddAllSorted([], m);
  }

  /** For every text, well formed or not: rewriting it through the map does not change what it means. */
  lemma RewritingKeepsMeaning(s: string)
    ensures UnflattenOf(FlattenOf(UnflattenOf(s))) == UnflattenOf(s)
  {
    ParsedIsWellFormed(s);
    UnflattenFlatten(UnflattenOf(s));
  }

  /** The value written last for key k. */
  function LastValue(ps: seq<Entry>, k: string): Option<string> {
    if ps == [] then None
    else if ps[|ps| - 1].key == k then Some(ps[|ps| - 1].value) else LastValue(ps[..|ps| - 1], k)
  }

  lemma {:induction false} AddAllSplit(m: seq<Entry>, ps: seq<Entry>, e: Entry)
    ensures AddAll(m, ps + [e]) == Put(AddAll(m, ps), e.key, e.value)
    decreases |ps|
  {
    if ps != [] {
      assert (ps + [e])[1..] == ps[1..] + [e] && (ps + [e])[0] == ps[0];
      AddAllSplit(Put(m, ps[0].key, ps[0].value), ps[1..], e);
    } else {
      assert (ps + [e])[1..] == [];
    }
  }

  lemma {:induction false} AddAllIsSorted(m: seq<Entry>, ps: seq<Entry>)
    requires Sorted(m)
    ensures Sorted(AddAll(m, ps))
    decreases |ps|
  {
    if ps != [] {
      PutKeepsOrder(m, ps[0].key, ps[0].value);
      AddAllIsSorted(Put(m, ps[0].key, ps[0].value), ps[1..]);
    }
  }

  lemma {:induction false} AddAllLookup(ps: seq<Entry>, k: string)
    ensures Lookup(AddAll([], ps), k) == LastValue(ps, k)
    decreases |ps|
  {
    if ps != [] {
      var front, e := ps[..|ps| - 1], ps[|ps| - 1];
      assert front + [e] == ps;
      AddAllSplit([], front, e);
      AddAllIsSorted([], front);
      LookupAfterPut(AddAll([], front), e.key, e.value, k);
      AddAllLookup(front, k);
    }
  }

  /** A key's value in the map is the one written last for it in the text. */
  lemma ParsedTakesLastValue(s: string, k: string)
    ensures Lookup(UnflattenOf(s), k) == LastValue(Pairs(s), k)
  {
    AddAllLookup(Pairs(s), k);
  }

  lemma {:induction false} PairsBeforeJunk(m: seq<Entry>, junk: string)
    requires m != [] && '=' !in junk && forall i :: 0 <= i < |m| ==> Legal(m[i])
    ensures Pairs(FlattenOf(m) + ";" + junk) == m
  {
    hide Find, First, Rest;
    var tail := if |m| == 1 then ";" + junk else ";" + (FlattenOf(m[1..]) + ";" + junk);
    FirstOfPrinted(m[0], tail);
    assert FlattenOf(m) + ";" + junk == m[0].key + "=" + m[0].value + tail;
    if |m| == 1 {
      assert tail[1..] == junk;
      NoPairsInJunk(junk);
      assert m == [m[0]];
    } else {
      assert tail[1..] == FlattenOf(m[1..]) + ";" + junk;
      PairsBeforeJunk(m[1..], junk);
      assert m == [m[0]] + m[1..];
    }
  }

  lemma NoPairsInJunk(junk: string)
    requires '=' !in junk
    ensures Pairs(junk) == []
  {
    FindAfter(junk, '=', "");
    assert junk + "" == junk;
  }

  /** The text of two entries, and how a text is read that repeats a key, is out of order, and ends in text without '='. */
  lemma TextExample(a: Entry, b: Entry, value: string)
    requires Legal(a) && Legal(b) && Less(a.key, b.key) && ';' !in value
    ensures FlattenOf([a, b]) == a.key + "=" + a.value + ";" + b.key + "=" + b.value
    ensures UnflattenOf(b.key + "=" + value + ";" + a.key + "=" + a.value + ";" + b.key + "=" + b.value + ";" + "rest") == [a, b]
  {
    hide Pairs;
    var c := Entry(b.key, value);
    var ps := [c, a, b];
    assert ps[1..] == [a, b] && ps[1..][1..] == [b] && [a, b][1..] == [b];
    FlattenThree(c, a, b);
    PairsBeforeJunk(ps, "rest");
    assert b.key + "=" + value + ";" + a.key + "=" + a.value + ";" + b.key + "=" + b.value + ";" + "rest" == FlattenOf(ps) + ";" + "rest";
    LessIrreflexive(a.key);
    LessIrreflexive(b.key);
    if Less(b.key, a.key) { LessTransitive(a.key, b.key, a.key); }
    assert Put([], c.key, c.value) == [c];
    assert Put([c], a.key, a.value) == [a, c];
    assert [a, c][1..] == [c] && Put([c], b.key, b.value) == [b];
    assert Put([a, c], b.key, b.value) == [a, b];
    AddThree(c, a, b);
  }

  lemma AddThree(x: Entry, y: Entry, z: Entry)
    ensures AddAll([], [x, y, z]) == Put(Put(Put([], x.key, x.value), y.key, y.value), z.key, z.value)
  {
    hide Put;
    assert [x, y, z][1..] == [y, z] && [y, z][1..] == [z] && [z][1..] == [];
    var one := Put([], x.key, x.value);
    assert AddAll([], [x, y, z]) == AddAll(one, [y, z]);
    assert AddAll(one, [y, z]) == AddAll(Put(one, y.key, y.value), [z]);
  }

  lemma FlattenThree(x: Entry, y: Entry, z: Entry)
    ensures FlattenOf([x, y, z]) == x.key + "=" + x.value + ";" + y.key + "=" + y.value + ";" + z.key + "=" + z.value
    ensures FlattenOf([y, z]) == y.key + "=" + y.value + ";" + z.key + "=" + z.value
  {
    assert [x, y, z][1..] == [y, z] && [y, z][1..] == [z];
    assert FlattenOf([z]) == z.key + "=" + z.value;
    assert FlattenOf([y, z]) == y.key + "=" + y.value + ";" + z.key + "=" + z.value;
  }
}
