/** android::CameraParameters (camera/CameraParameters.cpp) and the wrapper's two fix-ups (camera/Camera2Wrapper.cpp). */
module CameraParameters {
  import opened Options
  import opened CText
  import opened ParameterMap
  import opened SizeText

  const KEY_PREVIEW_SIZE := "preview-size"
  const KEY_SUPPORTED_VIDEO_SIZES := "video-size-values"

  /** set refuses a key or a value that holds '=' or ';'. */
  predicate Settable(k: string, v: string) { '=' !in k && ';' !in k && '=' !in v && ';' !in v }

  function SetOf(m: seq<Entry>, k: string, v: string): seq<Entry> { if Settable(k, v) then Put(m, k, v) else m }

  /** get: an empty value reads as missing. */
  function GetOf(m: seq<Entry>, k: string): Option<string> {
    if Lookup(m, k) == Some("") then None else Lookup(m, k)
  }

  function GetIntOf(m: seq<Entry>, k: string, abi: Abi): int {
    match GetOf(m, k) case None => -1 case Some(v) => ToInt32(StrtolAuto(v, abi))
  }

  /** getPreviewSize: -1 by -1 when the value is missing or is no pair. */
  function GetSizeOf(m: seq<Entry>, k: string, abi: Abi): Size {
    match GetOf(m, k)
    case None => Size(-1, -1)
    case Some(v) => (match ParsePair(v, 0, 'x', abi) case None => Size(-1, -1) case Some(p) => p.size)
  }

  function GetSizesOf(m: seq<Entry>, k: string, abi: Abi): seq<Size> {
    match GetOf(m, k) case None => [] case Some(v) => SizesFrom(v, 0, abi)
  }

  lemma FlattenFrom(m: seq<Entry>, i: nat)
    requires i < |m|
    ensures FlattenOf(m[i..])
         == m[i].key + "=" + m[i].value + (if i == |m| - 1 then "" else ";") + FlattenOf(m[i + 1..])
  {
    assert m[i..][1..] == m[i + 1..];
    if i == |m| - 1 { FlattenNothing(); }
  }

  lemma FlattenNothing()
    ensures FlattenOf([]) == ""
  {
  }

  lemma NoPairs(m: seq<Entry>, s: string)
    requires Find(s, '=') == |s|
    ensures AddAll(m, Pairs(s)) == m
  {
  }

  class Parameters {
    var mMap: seq<Entry>

    ghost predicate Valid()
      reads this
    {
      WellFormed(mMap)
    }

    constructor ()
      ensures Valid() && mMap == []
    {
      mMap := [];
    }

    method Flatten() returns (flattened: string)
      requires Valid()
      ensures flattened == FlattenOf(mMap)
      ensures UnflattenOf(flattened) == mMap
    {
      hide FlattenOf, UnflattenOf;
      flattened := "";
      var i := 0;
      assert mMap[0..] == mMap;
      while i < |mMap|
        invariant 0 <= i <= |mMap|
        invariant flattened + FlattenOf(mMap[i..]) == FlattenOf(mMap)
      {
        var e := mMap[i];
        FlattenFrom(mMap, i);
        flattened := flattened + e.key + "=" + e.value;
        if i != |mMap| - 1 {
          flattened := flattened + ";";
        }
        i := i + 1;
      }
      assert mMap[i..] == [];
      FlattenNothing();
      UnflattenFlatten(mMap);
    }

    /** `a` is the text that the source's pointer points at. */
    method Unflatten(params: string)
      modifies this
      ensures mMap == UnflattenOf(params) && Valid()
    {
      hide Pairs, AddAll, Put;
      ParsedIsWellFormed(params);
      mMap := [];
      var a := params;
      while true
        invariant AddAll(mMap, Pairs(a)) == UnflattenOf(params)
        decreases |a|
      {
        var b := Find(a, '=');
        if b == |a| {
          NoPairs(mMap, a);
          return;
        }
        var k := a[..b];
        AddFirst(mMap, a);
        a := a[b + 1..];
        b := Find(a, ';');
        mMap := Put(mMap, k, a[..b]);
        if b == |a| {
          return;
        }
        a := a[b + 1..];
      }
    }

    method Set(key: string, value: string)
      requires Valid()
      modifies this
      ensures Valid() && mMap == SetOf(old(mMap), key, value)
    {
      if '=' in key || ';' in key {
        return;
      }
      if '=' in value || ';' in value {
        return;
      }
      PutKeepsLegal(mMap, key, value);
      mMap := Put(mMap, key, value);
    }

    /** The printed number goes through a 16-byte buffer. */
    method SetInt(key: string, value: int)
      requires Valid() && IsInt32(value)
      modifies this
      ensures Valid() && mMap == SetOf(old(mMap), key, PrintInt(value))
    {
      var str := PrintInt(value);
      PrintIntFits(value);
      assert |str| + 1 <= 16;
      Set(key, str);
    }

    method Get(key: string) returns (value: Option<string>)
      ensures value == GetOf(mMap, key)
      ensures value.Some? ==> value.value != ""
    {
      value := Lookup(mMap, key);
      if value.Some? && |value.value| == 0 {
        value := None;
      }
    }

    method GetInt(key: string, abi: Abi) returns (n: int)
      ensures n == GetIntOf(mMap, key, abi)
    {
      var v := Get(key);
      n := if v.None? then -1 else ToInt32(StrtolAuto(v.value, abi));
    }

    /** The printed pair goes through a 32-byte buffer. */
    method SetPreviewSize(width: int, height: int)
      requires Valid() && IsInt32(width) && IsInt32(height)
      modifies this
      ensures Valid() && mMap == SetOf(old(mMap), KEY_PREVIEW_SIZE, PrintSize(Size(width, height)))
      ensures Lookup(mMap, "preview-size") == Some(PrintInt(width) + "x" + PrintInt(height))
    {
      hide Put, Lookup, PrintInt;
      assert '=' !in KEY_PREVIEW_SIZE && ';' !in KEY_PREVIEW_SIZE;
      LookupAfterPut(mMap, KEY_PREVIEW_SIZE, PrintSize(Size(width, height)), KEY_PREVIEW_SIZE);
      var str := PrintSize(Size(width, height));
      PrintSizeFits(Size(width, height));
      assert |str| + 1 <= 32;
      Set(KEY_PREVIEW_SIZE, str);
    }

    method GetPreviewSize(abi: Abi) returns (width: int, height: int)
      ensures Size(width, height) == GetSizeOf(mMap, "preview-size", abi)
    {
      width, height := -1, -1;
      var v := Get(KEY_PREVIEW_SIZE);
      if v.Some? {
        var p := ParsePair(v.value, 0, 'x', abi);
        if p.Some? {
          width, height := p.value.size.width, p.value.size.height;
        }
      }
    }

    method GetSupportedVideoSizes(abi: Abi, before: seq<Size>) returns (sizes: seq<Size>)
      ensures sizes == before + GetSizesOf(mMap, "video-size-values", abi)
    {
      sizes := before;
      var v := Get(KEY_SUPPORTED_VIDEO_SIZES);
      if v.Some? {
        sizes := ParseSizesList(v.value, abi, before);
      }
    }
  }

  // -------------------------------------------------------------------------------------
  // What is set is what is got.

  lemma PrintedIsSettable(k: string, n: int)
    requires '=' !in k && ';' !in k
    ensures Settable(k, PrintInt(n))
  {
  }

  /** Every 32-bit int survives set and getInt under every legal key, though it is read in base 0. */
  lemma GetIntAfterSetInt(m: seq<Entry>, k: string, n: int, abi: Abi)
    requires WellFormed(m) && IsInt32(n) && '=' !in k && ';' !in k
    ensures GetIntOf(SetOf(m, k, PrintInt(n)), k, abi) == n
  {
    hide StrtolAuto, PrintInt, Put, Lookup;
    PrintedIsSettable(k, n);
    LookupAfterPut(m, k, PrintInt(n), k);
    StrtolAutoReadsPrinted(n, abi);
  }

  /** Every pair of 32-bit ints survives setPreviewSize and getPreviewSize. */
  lemma GetSizeAfterSetSize(m: seq<Entry>, z: Size, abi: Abi)
    requires WellFormed(m) && IsSize32(z)
    ensures GetSizeOf(SetOf(m, KEY_PREVIEW_SIZE, PrintSize(z)), KEY_PREVIEW_SIZE, abi) == z
  {
    hide ParsePair, PrintSize, Put, Lookup;
    assert '=' !in KEY_PREVIEW_SIZE && ';' !in KEY_PREVIEW_SIZE;
    LookupAfterPut(m, KEY_PREVIEW_SIZE, PrintSize(z), KEY_PREVIEW_SIZE);
    PairReadsPrinted(z, abi);
  }

  /** Setting a key leaves every other key as it was. */
  lemma SetKeepsOthers(m: seq<Entry>, k: string, v: string, other: string)
    requires WellFormed(m) && other != k
    ensures Lookup(SetOf(m, k, v), other) == Lookup(m, other)
  {
    LookupAfterPut(m, k, v, other);
  }

  /** set takes a key and a value that hold neither '=' nor ';', and refuses all others without a trace. */
  lemma SetTakesIff(m: seq<Entry>, k: string, v: string)
    requires WellFormed(m)
    ensures if '=' in k || ';' in k || '=' in v || ';' in v then SetOf(m, k, v) == m else Lookup(SetOf(m, k, v), k) == Some(v)
  {
    hide Put, Lookup;
    LookupAfterPut(m, k, v, k);
  }

  /** What is read for a key that is missing or empty, and for a size that is none. */
  lemma MissingReads(m: seq<Entry>, k: string, abi: Abi)
    requires Lookup(m, k) == None || Lookup(m, k) == Some("")
    ensures GetOf(m, k) == None && GetIntOf(m, k, abi) == -1
    ensures GetSizeOf(m, k, abi) == Size(-1, -1) && GetSizesOf(m, k, abi) == []
  {
  }

  lemma MalformedSizeReads(m: seq<Entry>, k: string, w: int, rest: string, abi: Abi)
    requires Lookup(m, k) == Some(PrintInt(w) + rest)
    requires rest == "" || (Digit(rest[0]) >= 10 && rest[0] != 'x')
    ensures GetSizeOf(m, k, abi) == Size(-1, -1)
  {
    hide ParsePair, PrintInt;
    PairNeedsDelimiter(w, rest, 'x', abi);
  }

  /** Any other value is read as it stands: an int in base 0, a pair in base 10. */
  lemma PresentReads(m: seq<Entry>, k: string, v: string, abi: Abi)
    requires Lookup(m, k) == Some(v) && v != ""
    ensures GetOf(m, k) == Some(v) && GetIntOf(m, k, abi) == ToInt32(StrtolAuto(v, abi))
    ensures GetSizesOf(m, k, abi) == GoodSizes(Items(v, 0), abi)
  {
    hide Items, GoodSizes, SizesFrom, StrtolAuto, ToInt32;
    SizesAreGoodItems(v, 0, abi);
  }

  lemma NumbersOfExamples()
    ensures Number("10", 16) == 16 && Number("10", 10) == 10 && Number("0", 10) == 0
  {
    assert "10"[..1] == "1" && "1"[..0] == "" && "0"[..0] == "";
  }

  lemma DigitsOfExample(s: string)
    requires s == "0x10"
    ensures SkipDigits(s, 2, 16) == 4 && SkipDigits(s, 0, 10) == 1 && SkipDigits(s, 2, 10) == 4
  {
  }

  /** The two readers differ: 0x10 is 16 as an int, and 0 as the width of a size. */
  lemma HexReadsAsIntNotAsSize(abi: Abi)
    ensures StrtolAuto("0x10", abi) == 16
    ensures ParsePair("0x10", 0, 'x', abi) == Some(PairScan(Size(0, 10), 4))
  {
    hide Number, SkipDigits;
    var s := "0x10";
    assert s[2..4] == "10" && s[0..1] == "0";
    NumbersOfExamples();
    DigitsOfExample(s);
    assert Strtol(s, 0, abi) == Scan(0, 1);
    assert Strtol(s, 2, abi) == Scan(10, 4);
  }
}
