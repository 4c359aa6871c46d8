/**
 The C library's view of text that the camera parameters rely on: strtol, and sprintf with %d.
 A string here is NUL-free; the position |s| is where the terminating NUL stands.
 */
module CText {
  /** The two sizes of `long` the HAL is built for. */
  datatype Abi = Ilp32 | Lp64

  function LongMax(abi: Abi): int { if abi.Ilp32? then 0x7FFF_FFFF else 0x7FFF_FFFF_FFFF_FFFF }

  predicate IsInt32(n: int) { -0x8000_0000 <= n <= 0x7FFF_FFFF }

  /** The cast from long to a 32-bit int: the representative modulo 2^32. */
  function ToInt32(n: int): (r: int)
    decreases if IsInt32(n) then 0 else if n < 0 then -n else n
  {
    if IsInt32(n) then n else if n < 0 then ToInt32(n + 0x1_0000_0000) else ToInt32(n - 0x1_0000_0000)
  }

  lemma {:induction false} ToInt32Wraps(n: int)
    ensures IsInt32(ToInt32(n)) && (ToInt32(n) - n) % 0x1_0000_0000 == 0
    decreases if IsInt32(n) then 0 else if n < 0 then -n else n
  {
    if !IsInt32(n) { ToInt32Wraps(if n < 0 then n + 0x1_0000_0000 else n - 0x1_0000_0000); }
  }

  predicate IsSpace(c: char) { c == ' ' || '\t' <= c <= '\r' }

  /** The value of a digit in bases up to 36; 36 for any other character. */
  function Digit(c: char): (d: nat)
    ensures d <= 36
  {
    if '0' <= c <= '9' then (c - '0') as nat
    else if 'a' <= c <= 'z' then (c - 'a') as nat + 10
    else if 'A' <= c <= 'Z' then (c - 'A') as nat + 10
    else 36
  }

  /** First position at or after `i` that holds no white space. */
  function SkipSpace(s: string, i: nat): (r: nat)
    requires i <= |s|
    ensures i <= r <= |s|
    decreases |s| - i
  {
    if i < |s| && IsSpace(s[i]) then SkipSpace(s, i + 1) else i
  }

  /** First position at or after `i` that holds no digit of the base. */
  function SkipDigits(s: string, i: nat, base: nat): (r: nat)
    requires i <= |s|
    ensures i <= r <= |s|
    decreases |s| - i
  {
    if i < |s| && Digit(s[i]) < base then SkipDigits(s, i + 1, base) else i
  }

  /** n * radix for the radices that occur. */
  function Shift(n: nat, radix: nat): nat { if radix == 8 then 8 * n else if radix == 16 then 16 * n else 10 * n }

  function Number(ds: string, radix: nat): nat {
    if ds == [] then 0 else Shift(Number(ds[..|ds| - 1], radix), radix) + Digit(ds[|ds| - 1])
  }

  function Saturate(n: int, abi: Abi): int {
    if n > LongMax(abi) then LongMax(abi) else if n < -LongMax(abi) - 1 then -LongMax(abi) - 1 else n
  }

  datatype Scan = Scan(value: int, end: nat)

  predicate HexPrefix(s: string, i: nat) {
    i + 2 < |s| && s[i] == '0' && (s[i + 1] == 'x' || s[i + 1] == 'X') && Digit(s[i + 2]) < 16
  }

  function Signed(negative: bool, n: nat): int { if negative then 0 - n else n }

  /** The number at `first`, up to its last digit; with no digits, 0 and no advance from `pos`. */
  function ScanDigits(s: string, pos: nat, first: nat, radix: nat, negative: bool, abi: Abi): (r: Scan)
    requires pos <= first <= |s|
    ensures pos <= r.end <= |s|
  {
    var end := SkipDigits(s, first, radix);
    var n := Number(s[first..end], radix);
    if end == first then Scan(0, pos) else Scan(Saturate(Signed(negative, n), abi), end)
  }

  /** The position after white space and an optional sign. */
  function SkipSign(s: string, i: nat): (r: nat)
    requires i <= |s|
    ensures i <= r <= |s|
  {
    if i < |s| && (s[i] == '-' || s[i] == '+') then i + 1 else i
  }

  predicate IsMinus(s: string, i: nat) { i < |s| && s[i] == '-' }

  /** strtol(s + pos, &end, 10) */
  function Strtol(s: string, pos: nat, abi: Abi): (r: Scan)
    requires pos <= |s|
    ensures pos <= r.end <= |s|
  {
    var i := SkipSpace(s, pos);
    ScanDigits(s, pos, SkipSign(s, i), 10, IsMinus(s, i), abi)
  }

  /** strtol(s, 0, 0), which takes the radix from the prefix 0x or 0. */
  function StrtolAuto(s: string, abi: Abi): int {
    var i := SkipSpace(s, 0);
    var j := SkipSign(s, i);
    if HexPrefix(s, j) then ScanDigits(s, 0, j + 2, 16, IsMinus(s, i), abi).value
    else if j < |s| && s[j] == '0' then ScanDigits(s, 0, j, 8, IsMinus(s, i), abi).value
    else ScanDigits(s, 0, j, 10, IsMinus(s, i), abi).value
  }

  // -------------------------------------------------------------------------------------
  // Printing.

  function DigitChar(d: nat): (c: char)
    requires d < 10
    ensures Digit(c) == d && '0' <= c <= '9'
  {
    ('0' as int + d) as char
  }

  function Decimal(n: nat): (s: string)
    ensures |s| > 0
    ensures forall k :: 0 <= k < |s| ==> '0' <= s[k] <= '9'
  {
    if n < 10 then [DigitChar(n)] else Decimal(n / 10) + [DigitChar(n % 10)]
  }

  /** sprintf("%d", n) */
  function PrintInt(n: int): (s: string)
    ensures |s| > 0
    ensures forall k :: 0 <= k < |s| ==> '0' <= s[k] <= '9' || s[k] == '-'
  {
    if n < 0 then "-" + Decimal(-n) else Decimal(n)
  }

  lemma DecimalStep(n: nat, d: nat)
    requires n > 0 && d < 10
    ensures Decimal(10 * n + d) == Decimal(n) + [DigitChar(d)]
  {
  }

  lemma {:induction false} NumberOfDecimal(n: nat)
    ensures Number(Decimal(n), 10) == n
  {
    if n >= 10 {
      var s := Decimal(n);
      assert s[..|s| - 1] == Decimal(n / 10);
      NumberOfDecimal(n / 10);
    }
  }

  lemma {:induction false} DecimalHasNoLeadingZero(n: nat)
    requires n > 0
    ensures Decimal(n)[0] != '0'
  {
    if n >= 10 {
      DecimalHasNoLeadingZero(n / 10);
      assert Decimal(n)[0] == Decimal(n / 10)[0];
    }
  }

  function Pow10(k: nat): (r: nat)
    ensures r > 0
  {
    if k == 0 then 1 else 10 * Pow10(k - 1)
  }

  lemma {:induction false} DecimalLength(n: nat, k: nat)
    requires k > 0 && n < Pow10(k)
    ensures |Decimal(n)| <= k
  {
    if n >= 10 {
      assert k > 1 by { assert Pow10(1) == 10; }
      DecimalLength(n / 10, k - 1);
    }
  }

  /** A printed int takes at most 11 characters, so it fits the 16-byte buffers with its NUL. */
  lemma PrintIntFits(n: int)
    requires IsInt32(n)
    ensures |PrintInt(n)| <= 11
  {
    var m := if n < 0 then -n else n;
    assert Pow10(5) == 100000;
    assert Pow10(10) == 100000 * Pow10(5);
    DecimalLength(m, 10);
  }

  /** Digits are scanned up to the first character that is none. */
  lemma {:induction false} SkipDigitsSpan(s: string, i: nat, j: nat, base: nat)
    requires i <= j <= |s|
    requires forall k :: i <= k < j ==> Digit(s[k]) < base
    requires j < |s| ==> Digit(s[j]) >= base
    ensures SkipDigits(s, i, base) == j
    decreases j - i
  {
    if i < j { SkipDigitsSpan(s, i + 1, j, base); }
  }

  lemma DecimalZero()
    ensures Decimal(0) == ['0'] && Number(Decimal(0), 8) == 0
  {
  }

  /** A run of decimal digits that ends where the digits of the radix end is scanned to its value. */
  lemma ScanDigitsReads(s: string, pos: nat, first: nat, m: nat, radix: nat, negative: bool, abi: Abi)
    requires pos <= first && first + |Decimal(m)| <= |s| && s[first..first + |Decimal(m)|] == Decimal(m)
    requires first + |Decimal(m)| < |s| ==> Digit(s[first + |Decimal(m)|]) >= 10
    requires radix == 10 || (radix == 8 && m == 0 && first + 1 == |s|)
    ensures ScanDigits(s, pos, first, radix, negative, abi)
         == Scan(Saturate(Signed(negative, m), abi), first + |Decimal(m)|)
  {
    hide Decimal;
    var end := first + |Decimal(m)|;
    if radix == 8 { DecimalZero(); }
    forall k | first <= k < end
      ensures Digit(s[k]) < radix
    {
      assert s[k] == s[first..end][k - first];
    }
    SkipDigitsSpan(s, first, end, radix);
    NumberOfDecimal(m);
  }

  /** A number held between the least and the greatest long. */
  function Clamped(n: int, abi: Abi): int {
    match abi
    case Ilp32 => if n < -2147483648 then -2147483648 else if n > 2147483647 then 2147483647 else n
    case Lp64 =>
      if n < -9223372036854775808 then -9223372036854775808 else if n > 9223372036854775807 then 9223372036854775807 else n
  }

  /** strtol on the decimal text of any number at all: the number, or the nearest long, and the scan ends behind it. */
  lemma StrtolReadsAny(before: string, n: int, after: string, abi: Abi)
    requires after == [] || Digit(after[0]) >= 10
    ensures Strtol(before + PrintInt(n) + after, |before|, abi) == Scan(Clamped(n, abi), |before| + |PrintInt(n)|)
  {
    hide Number, SkipDigits, Decimal, ScanDigits;
    var s := before + PrintInt(n) + after;
    var p, m := |before|, if n < 0 then -n else n;
    var first := if n < 0 then p + 1 else p;
    assert s[p] == PrintInt(n)[0];
    assert SkipSpace(s, p) == p && SkipSign(s, p) == first;
    assert s[first..first + |Decimal(m)|] == Decimal(m);
    ScanDigitsReads(s, p, first, m, 10, n < 0, abi);
  }

  /** strtol reads back what sprintf printed, wherever it stands, up to the following non-digit. */
  lemma StrtolReadsPrinted(before: string, n: int, after: string, abi: Abi)
    requires IsInt32(n) && (after == [] || Digit(after[0]) >= 10)
    ensures Strtol(before + PrintInt(n) + after, |before|, abi) == Scan(n, |before| + |PrintInt(n)|)
  {
    hide Strtol, PrintInt;
    StrtolReadsAny(before, n, after, abi);
  }

  lemma IsSpaceIs(c: char)
    ensures IsSpace(c) <==> c as int == 9 || c as int == 10 || c as int == 11 || c as int == 12 || c as int == 13 || c as int == 32
  {
  }

  lemma {:induction false} SkipSpaceRun(ws: string, s: string, i: nat)
    requires i <= |ws| && forall k :: 0 <= k < |ws| ==> IsSpace(ws[k])
    ensures SkipSpace(ws + s, i) == |ws| + SkipSpace(s, 0)
    decreases |ws| - i
  {
    if i < |ws| {
      SkipSpaceRun(ws, s, i + 1);
    } else {
      SkipSpaceShift(ws, s, 0);
    }
  }

  lemma {:induction false} SkipSpaceShift(before: string, s: string, i: nat)
    requires i <= |s|
    ensures SkipSpace(before + s, |before| + i) == |before| + SkipSpace(s, i)
    decreases |s| - i
  {
    if i < |s| && IsSpace(s[i]) { SkipSpaceShift(before, s, i + 1); }
  }

  /** White space and a plus sign in front make no difference to the number. */
  lemma StrtolSkipsSpace(ws: string, plus: bool, n: nat, after: string, abi: Abi)
    requires forall k :: 0 <= k < |ws| ==> ws[k] as int == 32 || 9 <= ws[k] as int <= 13
    requires after == [] || Digit(after[0]) >= 10
    ensures var text := (if plus then "+" else "") + Decimal(n);
      Strtol(ws + (text + after), 0, abi) == Scan(Clamped(n, abi), |ws| + |text|)
  {
    hide Number, SkipDigits, Decimal, ScanDigits;
    var text := (if plus then "+" else "") + Decimal(n);
    var s := ws + (text + after);
    SkipSpaceRun(ws, text + after, 0);
    assert (text + after)[0] == text[0];
    assert SkipSpace(text + after, 0) == 0;
    var first := |ws| + if plus then 1 else 0;
    assert SkipSign(s, |ws|) == first && !IsMinus(s, |ws|);
    assert s[first..first + |Decimal(n)|] == Decimal(n);
    ScanDigitsReads(s, 0, first, n, 10, false, abi);
  }

  /** With no digit where the number should be, strtol gives 0 and does not advance, whatever comes before. */
  lemma NoDigitsNoAdvance(ws: string, sign: string, rest: string, abi: Abi)
    requires forall k :: 0 <= k < |ws| ==> IsSpace(ws[k])
    requires sign == "" || sign == "-" || sign == "+"
    requires rest != "" ==> !('0' <= rest[0] <= '9') && !IsSpace(rest[0]) && rest[0] != '-' && rest[0] != '+'
    ensures Strtol(ws + (sign + rest), 0, abi) == Scan(0, 0)
  {
    var t := sign + rest;
    SkipSpaceRun(ws, t, 0);
    assert SkipSpace(t, 0) == 0;
    var s := ws + t;
    assert forall k :: 0 <= k < |t| ==> s[|ws| + k] == t[k];
    assert SkipSign(s, |ws|) == |ws| + |sign|;
    if rest != "" { assert Digit(rest[0]) >= 10; }
  }

  /** With base 0 too: a printed int starts neither with 0x nor, unless it is 0, with the octal 0. */
  lemma StrtolAutoReadsPrinted(n: int, abi: Abi)
    requires IsInt32(n)
    ensures StrtolAuto(PrintInt(n), abi) == n
  {
    hide Number, SkipDigits, ScanDigits;
    var s, m := PrintInt(n), if n < 0 then -n else n;
    var first := if n < 0 then 1 else 0;
    assert SkipSpace(s, 0) == 0 && SkipSign(s, 0) == first;
    assert s[first..first + |Decimal(m)|] == Decimal(m);
    assert s[first] == Decimal(m)[0];
    if m > 0 { DecimalHasNoLeadingZero(m); }
    ScanDigitsReads(s, 0, first, m, if m == 0 then 8 else 10, n < 0, abi);
  }

  function RadixChar(d: nat): (c: char)
    requires d < 16
    ensures Digit(c) == d && c != 'x' && c != 'X'
  {
    if d < 10 then ('0' as int + d) as char else ('a' as int + (d - 10)) as char
  }

  /** n in base 8 or 16. */
  function InRadix(n: nat, radix: nat): (s: string)
    requires radix == 8 || radix == 16
    ensures |s| > 0
    ensures forall k :: 0 <= k < |s| ==> Digit(s[k]) < radix && s[k] != 'x' && s[k] != 'X'
    decreases n
  {
    if n < radix then [RadixChar(n)] else InRadix(n / radix, radix) + [RadixChar(n % radix)]
  }

  lemma {:induction false} NumberOfInRadix(n: nat, radix: nat)
    requires radix == 8 || radix == 16
    ensures Number(InRadix(n, radix), radix) == n
    decreases n
  {
    var s := InRadix(n, radix);
    if n < radix {
      assert s[..0] == [];
    } else {
      assert s[..|s| - 1] == InRadix(n / radix, radix);
      NumberOfInRadix(n / radix, radix);
    }
  }

  lemma {:induction false} LeadingZero(ds: string, radix: nat)
    ensures Number("0" + ds, radix) == Number(ds, radix)
    decreases |ds|
  {
    if ds == [] {
      assert "0" + ds == "0" && "0"[..0] == [];
    } else {
      assert ("0" + ds)[..|ds|] == "0" + ds[..|ds| - 1];
      LeadingZero(ds[..|ds| - 1], radix);
    }
  }

  /** In base 0 a leading 0 makes the number octal, and 0x or 0X hexadecimal. */
  lemma StrtolAutoReadsOctal(n: nat, abi: Abi)
    ensures StrtolAuto("0" + InRadix(n, 8), abi) == Clamped(n, abi)
  {
    hide InRadix, Number;
    var ds := InRadix(n, 8);
    var s := "0" + ds;
    assert s[1] == ds[0];
    assert SkipSpace(s, 0) == 0 && SkipSign(s, 0) == 0 && !HexPrefix(s, 0);
    SkipDigitsSpan(s, 0, |s|, 8);
    assert s[0..|s|] == s;
    NumberOfInRadix(n, 8);
    LeadingZero(ds, 8);
  }

  lemma StrtolAutoReadsHex(n: nat, upper: bool, abi: Abi)
    ensures StrtolAuto((if upper then "0X" else "0x") + InRadix(n, 16), abi) == Clamped(n, abi)
  {
    hide InRadix, Number;
    var ds := InRadix(n, 16);
    var s := (if upper then "0X" else "0x") + ds;
    assert s[2] == ds[0];
    assert SkipSpace(s, 0) == 0 && SkipSign(s, 0) == 0 && HexPrefix(s, 0);
    SkipDigitsSpan(s, 2, |s|, 16);
    assert s[2..|s|] == ds;
    NumberOfInRadix(n, 16);
  }

  // -------------------------------------------------------------------------------------
  // A base-10 scan cannot look past a comma.

  /** f stands in s at position a, and the end of the text or a comma follows. */
  ghost predicate IsField(s: string, a: nat, f: string) {
    && a + |f| <= |s| && (a + |f| == |s| || s[a + |f|] == ',')
    && forall k :: 0 <= k < |f| ==> f[k] == s[a + k]
  }

  lemma {:induction false} SkipSpaceInField(s: string, a: nat, f: string, i: nat)
    requires IsField(s, a, f) && i <= |f|
    ensures SkipSpace(s, a + i) == a + SkipSpace(f, i)
    decreases |f| - i
  {
    if i < |f| && IsSpace(f[i]) { SkipSpaceInField(s, a, f, i + 1); }
  }

  lemma {:induction false} SkipDigitsInField(s: string, a: nat, f: string, i: nat)
    requires IsField(s, a, f) && i <= |f|
    ensures SkipDigits(s, a + i, 10) == a + SkipDigits(f, i, 10)
    decreases |f| - i
  {
    if i < |f| && Digit(f[i]) < 10 { SkipDigitsInField(s, a, f, i + 1); }
  }

  lemma {:induction false} SignInField(s: string, a: nat, f: string, k: nat)
    requires IsField(s, a, f) && k <= |f|
    ensures SkipSign(s, a + k) == a + SkipSign(f, k) && IsMinus(s, a + k) == IsMinus(f, k)
  {
  }

  lemma {:induction false} ScanDigitsInField(s: string, a: nat, f: string, i: nat, j: nat, negative: bool, abi: Abi)
    requires IsField(s, a, f) && i <= j <= |f|
    ensures var whole, field := ScanDigits(s, a + i, a + j, 10, negative, abi), ScanDigits(f, i, j, 10, negative, abi);
      whole.value == field.value && whole.end == a + field.end
  {
    SkipDigitsInField(s, a, f, j);
    var e := SkipDigits(f, j, 10);
    assert s[a + j..a + e] == f[j..e];
  }

  /** A base-10 scan inside a field gives the same number and ends at the same place as in the field alone. */
  lemma {:induction false} StrtolInField(s: string, a: nat, f: string, i: nat, abi: Abi)
    requires IsField(s, a, f) && i <= |f|
    ensures var whole, field := Strtol(s, a + i, abi), Strtol(f, i, abi);
      whole.value == field.value && whole.end == a + field.end
  {
    var k := SkipSpace(f, i);
    SkipSpaceInField(s, a, f, i);
    SignInField(s, a, f, k);
    ScanDigitsInField(s, a, f, i, SkipSign(f, k), IsMinus(f, k), abi);
  }
}
