/** Pairs "640x480" and comma lists of them, as camera/CameraParameters.cpp parses and prints them. */
module SizeText {
  import opened Options
  import opened CText

  datatype Size = Size(width: int, height: int)

  datatype PairScan = PairScan(size: Size, end: nat)

  /** parse_pair on s + pos: None when the delimiter does not follow the first number. */
  function ParsePair(s: string, pos: nat, delim: char, abi: Abi): (r: Option<PairScan>)
    requires pos <= |s|
    ensures r.Some? ==> pos < r.value.end <= |s|
  {
    var w := Strtol(s, pos, abi);
    if w.end == |s| || s[w.end] != delim then None
    else
      var h := Strtol(s, w.end + 1, abi);
      Some(PairScan(Size(ToInt32(w.value), ToInt32(h.value)), h.end))
  }

  /** What parseSizesList pushes for the text from `pos` on. */
  function SizesFrom(s: string, pos: nat, abi: Abi): seq<Size>
    requires pos <= |s|
    decreases |s| - pos
  {
    match ParsePair(s, pos, 'x', abi)
    case None => []
    case Some(p) =>
      if p.end == |s| then [p.size]
      else if s[p.end] != ',' then []
      else [p.size] + SizesFrom(s, p.end + 1, abi)
  }

  method ParseSizesList(s: string, abi: Abi, before: seq<Size>) returns (sizes: seq<Size>)
    ensures sizes == before + SizesFrom(s, 0, abi)
  {
    hide Strtol, ToInt32;
    sizes := before;
    var pos := 0;
    while true
      invariant pos <= |s|
      invariant sizes + SizesFrom(s, pos, abi) == before + SizesFrom(s, 0, abi)
      decreases |s| - pos
    {
      var p := ParsePair(s, pos, 'x', abi);
      if p.None? || (p.value.end < |s| && s[p.value.end] != ',') {
        return;
      }
      sizes := sizes + [p.value.size];
      if p.value.end == |s| {
        return;
      }
      pos := p.value.end + 1;
    }
  }

  // -------------------------------------------------------------------------------------
  // Reference: split at the commas first, then read each item by itself.

  /** The position of the first comma at or after `pos`, or the end. */
  function CommaFrom(s: string, pos: nat): (r: nat)
    requires pos <= |s|
    ensures pos <= r <= |s| && (r == |s| || s[r] == ',')
    ensures forall k :: pos <= k < r ==> s[k] != ','
    decreases |s| - pos
  {
    if pos == |s| || s[pos] == ',' then pos else CommaFrom(s, pos + 1)
  }

  function Items(s: string, pos: nat): (r: seq<string>)
    requires pos <= |s|
    ensures |r| > 0
    decreases |s| - pos
  {
    var b := CommaFrom(s, pos);
    [s[pos..b]] + if b == |s| then [] else Items(s, b + 1)
  }

  /** An item is good when a pair is all there is in it. */
  function ItemSize(item: string, abi: Abi): Option<Size> {
    match ParsePair(item, 0, 'x', abi)
    case Some(p) => if p.end == |item| then Some(p.size) else None
    case None => None
  }

  /** The sizes of the items before the first bad one. */
  function GoodSizes(items: seq<string>, abi: Abi): seq<Size> {
    if items == [] || ItemSize(items[0], abi).None? then []
    else [ItemSize(items[0], abi).value] + GoodSizes(items[1..], abi)
  }

  /** A pair is read inside its item; it never reaches past the comma that ends the item. */
  lemma {:induction false} PairInField(s: string, a: nat, f: string, abi: Abi)
    requires IsField(s, a, f)
    ensures var whole, item := ParsePair(s, a, 'x', abi), ParsePair(f, 0, 'x', abi);
      && (whole.Some? <==> item.Some?)
      && (whole.Some? ==> whole.value.size == item.value.size && whole.value.end == a + item.value.end)
  {
    hide Strtol, ToInt32;
    StrtolInField(s, a, f, 0, abi);
    var w := Strtol(f, 0, abi);
    if w.end < |f| && f[w.end] == 'x' { StrtolInField(s, a, f, w.end + 1, abi); }
  }

  lemma {:induction false} GoodSizesCons(item: string, rest: seq<string>, abi: Abi)
    ensures GoodSizes([item] + rest, abi)
         == if ItemSize(item, abi).None? then [] else [ItemSize(item, abi).value] + GoodSizes(rest, abi)
  {
    hide ParsePair;
    assert ([item] + rest)[1..] == rest;
  }

  /** The pointer-walking parser keeps exactly the items before the first malformed one. */
  lemma {:induction false} SizesAreGoodItems(s: string, pos: nat, abi: Abi)
    requires pos <= |s|
    ensures SizesFrom(s, pos, abi) == GoodSizes(Items(s, pos), abi)
    decreases |s| - pos
  {
    hide ParsePair, GoodSizes, CommaFrom, Items;
    var b := CommaFrom(s, pos);
    var item := s[pos..b];
    ItemsAt(s, pos, b);
    PairInField(s, pos, item, abi);
    GoodSizesCons(item, if b == |s| then [] else Items(s, b + 1), abi);
    if b < |s| {
      SizesAreGoodItems(s, b + 1, abi);
    } else {
      GoodSizesNone(abi);
    }
  }

  lemma GoodSizesNone(abi: Abi)
    ensures GoodSizes([], abi) == []
  {
  }

  // -------------------------------------------------------------------------------------
  // Round trips.

  /** sprintf("%dx%d") */
  function PrintSize(z: Size): (s: string)
    ensures |s| > 0
    ensures forall k :: 0 <= k < |s| ==> '0' <= s[k] <= '9' || s[k] == '-' || s[k] == 'x'
  {
    PrintInt(z.width) + "x" + PrintInt(z.height)
  }

  predicate IsSize32(z: Size) { IsInt32(z.width) && IsInt32(z.height) }

  lemma PrintSizeFits(z: Size)
    requires IsSize32(z)
    ensures |PrintSize(z)| < 32
  {
    PrintIntFits(z.width);
    PrintIntFits(z.height);
  }

  /** Any two 32-bit ints, zero and negative included, are read back from their text. */
  lemma {:induction false} PairReadsPrinted(z: Size, abi: Abi)
    requires IsSize32(z)
    ensures ParsePair(PrintSize(z), 0, 'x', abi) == Some(PairScan(z, |PrintSize(z)|))
  {
    hide Strtol, PrintInt;
    var s, w := PrintSize(z), PrintInt(z.width);
    var tail := "x" + PrintInt(z.height);
    assert s == [] + w + tail;
    assert tail[0] == 'x';
    StrtolReadsPrinted([], z.width, tail, abi);
    assert s == (w + "x") + PrintInt(z.height) + [];
    StrtolReadsPrinted(w + "x", z.height, [], abi);
    assert s[|w|] == 'x';
  }

  /** Numbers of any size are read: held to a long, and cut to 32 bits. */
  lemma {:induction false} PairReadsAny(w: int, h: int, abi: Abi)
    ensures var s := PrintInt(w) + "x" + PrintInt(h);
      ParsePair(s, 0, 'x', abi) == Some(PairScan(Size(ToInt32(Clamped(w, abi)), ToInt32(Clamped(h, abi))), |s|))
  {
    hide Strtol, PrintInt, ToInt32;
    var s := PrintInt(w) + "x" + PrintInt(h);
    assert s == [] + PrintInt(w) + ("x" + PrintInt(h));
    StrtolReadsAny([], w, "x" + PrintInt(h), abi);
    assert s == (PrintInt(w) + "x") + PrintInt(h) + [];
    StrtolReadsAny(PrintInt(w) + "x", h, [], abi);
  }

  /** Without the delimiter right behind the first number there is no pair. */
  lemma {:induction false} PairNeedsDelimiter(w: int, rest: string, delim: char, abi: Abi)
    requires rest == "" || (!('0' <= rest[0] <= '9') && rest[0] != delim && Digit(rest[0]) >= 10)
    ensures ParsePair(PrintInt(w) + rest, 0, delim, abi) == None
  {
    hide Strtol, PrintInt, ToInt32;
    assert PrintInt(w) + rest == [] + PrintInt(w) + rest;
    StrtolReadsAny([], w, rest, abi);
  }

  function JoinSizes(zs: seq<Size>): string
    requires zs != []
  {
    PrintSize(zs[0]) + if |zs| == 1 then "" else "," + JoinSizes(zs[1..])
  }

  lemma {:induction false} CommaAfter(before: string, item: string, rest: string)
    requires ',' !in item && (rest == "" || rest[0] == ',')
    ensures CommaFrom(before + item + rest, |before|) == |before| + |item|
    decreases |item|
  {
    var s := before + item + rest;
    if item != "" {
      assert s[|before|] == item[0];
      assert before + [item[0]] + item[1..] + rest == s;
      CommaAfter(before + [item[0]], item[1..], rest);
    }
  }

  function Texts(zs: seq<Size>): (r: seq<string>) {
    if zs == [] then [] else [PrintSize(zs[0])] + Texts(zs[1..])
  }

  lemma {:induction false} GoodTexts(zs: seq<Size>, abi: Abi)
    requires forall i :: 0 <= i < |zs| ==> IsSize32(zs[i])
    ensures GoodSizes(Texts(zs), abi) == zs
  {
    hide ParsePair, PrintSize, GoodSizes;
    if zs == [] {
      GoodSizesNone(abi);
    } else {
      PairReadsPrinted(zs[0], abi);
      GoodSizesCons(PrintSize(zs[0]), Texts(zs[1..]), abi);
      GoodTexts(zs[1..], abi);
      assert zs == [zs[0]] + zs[1..];
    }
  }

  lemma {:induction false} ItemsAt(s: string, p: nat, b: nat)
    requires p <= |s| && CommaFrom(s, p) == b
    ensures Items(s, p) == [s[p..b]] + if b == |s| then [] else Items(s, b + 1)
  {
    hide CommaFrom;
  }

  /** Splitting `before item rest` after `before`. */
  lemma {:induction false} ItemsCons(before: string, item: string, rest: string)
    requires ',' !in item && (rest == "" || rest[0] == ',')
    ensures var s := before + item + rest;
      Items(s, |before|) == [item] + if rest == "" then [] else Items(s, |before| + |item| + 1)
  {
    hide CommaFrom, Items;
    var s, b := before + item + rest, |before| + |item|;
    assert |s| == b + |rest|;
    CommaAfter(before, item, rest);
    MiddleOf(before, item, rest);
    ItemsAt(s, |before|, b);
  }

  lemma {:induction false} MiddleOf(before: string, item: string, rest: string)
    ensures (before + item + rest)[|before|..|before| + |item|] == item
  {
  }

  /** Splitting the joined text gives the texts of the sizes. */
  lemma {:induction false} ItemsOfJoined(before: string, zs: seq<Size>)
    requires zs != []
    ensures Items(before + JoinSizes(zs), |before|) == Texts(zs)
    decreases |zs|
  {
    hide PrintSize, Items;
    var item := PrintSize(zs[0]);
    if |zs| == 1 {
      ItemsCons(before, item, "");
      assert before + JoinSizes(zs) == before + item + "";
    } else {
      var rest := "," + JoinSizes(zs[1..]);
      assert rest[0] == ',';
      ItemsCons(before, item, rest);
      var next := before + item + ",";
      assert before + JoinSizes(zs) == before + item + rest == next + JoinSizes(zs[1..]);
      ItemsOfJoined(next, zs[1..]);
    }
  }

  /** For every non-empty list of 32-bit pairs, parseSizesList on their comma-joined text yields the list. */
  lemma SizesRoundTrip(zs: seq<Size>, abi: Abi)
    requires zs != [] && forall i :: 0 <= i < |zs| ==> IsSize32(zs[i])
    ensures SizesFrom(JoinSizes(zs), 0, abi) == zs
  {
    hide JoinSizes, SizesFrom, GoodSizes, Items, Texts;
    SizesAreGoodItems(JoinSizes(zs), 0, abi);
    ItemsOfJoined("", zs);
    assert "" + JoinSizes(zs) == JoinSizes(zs);
    GoodTexts(zs, abi);
  }
}
