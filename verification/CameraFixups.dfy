/** The two functions that rewrite parameter strings between client and vendor (camera/Camera2Wrapper.cpp). */
module CameraFixups {
  import opened CText
  import opened ParameterMap
  import opened SizeText
  import opened CameraParameters

  const VIDEO_TEXTS := [
    "3840x2160", "2560x1440", "1920x1080", "1440x1080", "1088x1088", "1280x720", "960x720", "800x450",
    "720x480", "640x480", "480x320", "352x288", "320x240", "256x144", "176x144"]

  function JoinTexts(ts: seq<string>): string {
    if ts == [] then "" else if |ts| == 1 then ts[0] else ts[0] + "," + JoinTexts(ts[1..])
  }

  /** The text that the wrapper writes: the fifteen pieces with commas between them. */
  const VIDEO_SIZE_VALUES := JoinTexts(VIDEO_TEXTS)

  const VIDEO_SIZES := [
    Size(3840, 2160), Size(2560, 1440), Size(1920, 1080), Size(1440, 1080), Size(1088, 1088),
    Size(1280, 720), Size(960, 720), Size(800, 450), Size(720, 480), Size(640, 480),
    Size(480, 320), Size(352, 288), Size(320, 240), Size(256, 144), Size(176, 144)]

  // -------------------------------------------------------------------------------------
  // The constant text.

  lemma Digits3(a: nat, b: nat, c: nat)
    requires 0 < a < 10 && b < 10 && c < 10
    ensures PrintInt(100 * a + 10 * b + c) == [DigitChar(a), DigitChar(b), DigitChar(c)]
  {
    assert Decimal(10 * a + b) == [DigitChar(a), DigitChar(b)];
  }

  lemma Digits4(a: nat, b: nat, c: nat, d: nat)
    requires 0 < a < 10 && b < 10 && c < 10 && d < 10
    ensures PrintInt(1000 * a + 100 * b + 10 * c + d) == [DigitChar(a), DigitChar(b), DigitChar(c), DigitChar(d)]
  {
    hide Decimal;
    Digits3(a, b, c);
    DecimalStep(100 * a + 10 * b + c, d);
  }

  lemma PrintedWidths()
    ensures PrintInt(3840) == "3840" && PrintInt(2560) == "2560" && PrintInt(1920) == "1920" && PrintInt(1440) == "1440"
    ensures PrintInt(1088) == "1088" && PrintInt(1280) == "1280" && PrintInt(960) == "960" && PrintInt(800) == "800"
    ensures PrintInt(720) == "720" && PrintInt(640) == "640" && PrintInt(480) == "480" && PrintInt(352) == "352"
    ensures PrintInt(320) == "320" && PrintInt(256) == "256" && PrintInt(176) == "176"
  {
    hide PrintInt;
    Digits4(3, 8, 4, 0); Digits4(2, 5, 6, 0); Digits4(1, 9, 2, 0); Digits4(1, 4, 4, 0); Digits4(1, 0, 8, 8);
    Digits4(1, 2, 8, 0); Digits3(9, 6, 0); Digits3(8, 0, 0); Digits3(7, 2, 0); Digits3(6, 4, 0);
    Digits3(4, 8, 0); Digits3(3, 5, 2); Digits3(3, 2, 0); Digits3(2, 5, 6); Digits3(1, 7, 6);
  }

  lemma PrintedHeights()
    ensures PrintInt(2160) == "2160" && PrintInt(1440) == "1440" && PrintInt(1080) == "1080" && PrintInt(1088) == "1088"
    ensures PrintInt(720) == "720" && PrintInt(450) == "450" && PrintInt(480) == "480" && PrintInt(320) == "320"
    ensures PrintInt(288) == "288" && PrintInt(240) == "240" && PrintInt(144) == "144"
  {
    hide PrintInt;
    Digits4(2, 1, 6, 0); Digits4(1, 4, 4, 0); Digits4(1, 0, 8, 0); Digits4(1, 0, 8, 8); Digits3(7, 2, 0);
    Digits3(4, 5, 0); Digits3(4, 8, 0); Digits3(3, 2, 0); Digits3(2, 8, 8); Digits3(2, 4, 0); Digits3(1, 4, 4);
  }

  lemma LargeTextsArePrinted()
    ensures forall i :: 0 <= i < 8 ==> PrintSize(VIDEO_SIZES[i]) == VIDEO_TEXTS[i]
  {
    hide PrintInt;
    PrintedWidths();
    PrintedHeights();
  }

  lemma SmallTextsArePrinted()
    ensures forall i :: 8 <= i < 15 ==> PrintSize(VIDEO_SIZES[i]) == VIDEO_TEXTS[i]
  {
    hide PrintInt;
    PrintedWidths();
    PrintedHeights();
  }

  lemma VideoTextsArePrinted()
    ensures |VIDEO_TEXTS| == |VIDEO_SIZES|
    ensures forall i :: 0 <= i < |VIDEO_SIZES| ==> PrintSize(VIDEO_SIZES[i]) == VIDEO_TEXTS[i]
  {
    hide PrintSize;
    LargeTextsArePrinted();
    SmallTextsArePrinted();
  }

  lemma {:induction false} JoinedSizesAreTexts(zs: seq<Size>, ts: seq<string>)
    requires zs != [] && |zs| == |ts| && forall i :: 0 <= i < |zs| ==> PrintSize(zs[i]) == ts[i]
    ensures JoinSizes(zs) == JoinTexts(ts)
  {
    if |zs| > 1 {
      assert forall i :: 0 <= i < |zs[1..]| ==> PrintSize(zs[1..][i]) == ts[1..][i];
      JoinedSizesAreTexts(zs[1..], ts[1..]);
    }
  }

  /** The wrapper's text is the printed form of the fifteen sizes. */
  lemma VideoSizesText()
    ensures JoinSizes(VIDEO_SIZES) == VIDEO_SIZE_VALUES
  {
    hide PrintSize, JoinSizes, JoinTexts;
    VideoTextsArePrinted();
    JoinedSizesAreTexts(VIDEO_SIZES, VIDEO_TEXTS);
  }

  /** Joined sizes hold neither of the characters that set refuses. */
  lemma {:induction false} JoinedIsSettable(zs: seq<Size>)
    requires zs != []
    ensures '=' !in JoinSizes(zs) && ';' !in JoinSizes(zs) && JoinSizes(zs) != ""
  {
    hide PrintSize;
    if |zs| > 1 { JoinedIsSettable(zs[1..]); }
  }

  lemma VideoSizesSettable()
    ensures Settable(KEY_SUPPORTED_VIDEO_SIZES, VIDEO_SIZE_VALUES) && VIDEO_SIZE_VALUES != ""
  {
    hide JoinSizes, JoinTexts;
    VideoSizesText();
    JoinedIsSettable(VIDEO_SIZES);
  }

  // -------------------------------------------------------------------------------------
  // The fix-ups.

  /** set_parameters: the vendor gets a text with the same parameters as the client's. */
  method FixupSetParams(settings: string) returns (ret: string)
    ensures UnflattenOf(ret) == UnflattenOf(settings)
    ensures ret == FlattenOf(UnflattenOf(settings))
  {
    var params := new Parameters();
    params.Unflatten(settings);
    ret := params.Flatten();
  }

  /** get_parameters: the client gets the vendor's parameters with one replaced. */
  method FixupGetParams(settings: string) returns (ret: string)
    ensures UnflattenOf(ret) == Put(UnflattenOf(settings), "video-size-values", VIDEO_SIZE_VALUES)
  {
    hide JoinTexts, Put, UnflattenOf, FlattenOf;
    var params := new Parameters();
    params.Unflatten(settings);
    VideoSizesSettable();
    params.Set(KEY_SUPPORTED_VIDEO_SIZES, VIDEO_SIZE_VALUES);
    ret := params.Flatten();
  }

  /** Whatever the vendor sent, the client reads the fifteen sizes, and every other parameter unchanged. */
  lemma FixedParamsRead(settings: string, fixed: string, k: string, abi: Abi)
    requires UnflattenOf(fixed) == Put(UnflattenOf(settings), "video-size-values", VIDEO_SIZE_VALUES)
    ensures GetSizesOf(UnflattenOf(fixed), "video-size-values", abi) == VIDEO_SIZES
    ensures k != "video-size-values" ==> Lookup(UnflattenOf(fixed), k) == Lookup(UnflattenOf(settings), k)
  {
    hide JoinTexts, JoinSizes, Put, Lookup, UnflattenOf, SizesFrom;
    var m := UnflattenOf(settings);
    ParsedIsWellFormed(settings);
    LookupAfterPut(m, KEY_SUPPORTED_VIDEO_SIZES, VIDEO_SIZE_VALUES, k);
    LookupAfterPut(m, KEY_SUPPORTED_VIDEO_SIZES, VIDEO_SIZE_VALUES, KEY_SUPPORTED_VIDEO_SIZES);
    VideoSizesSettable();
    VideoSizesText();
    SizesRoundTrip(VIDEO_SIZES, abi);
  }

  /** Rewriting a text that was already rewritten for the vendor changes nothing at all. */
  lemma SetFixupIsIdempotent(settings: string)
    ensures FlattenOf(UnflattenOf(FlattenOf(UnflattenOf(settings)))) == FlattenOf(UnflattenOf(settings))
  {
    RewritingKeepsMeaning(settings);
  }
}
