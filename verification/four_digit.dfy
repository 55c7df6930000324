/**
 * `four_digit_segment7` of `src/output.rs`: four seven-segment places share
 * one 74HC595; four place lines select which place the latched glyph
 * lights. One refresh pass lights places 0 to 3 in turn, each showing its
 * decimal digit of the count.
 */
module FourDigit {
  import opened Pins
  import opened Serial
  import opened ShiftRegister
  import opened Hc595
  import opened Decimal
  import opened CodeTables

  /** `seg_code` of `four_digit_segment7`: glyphs 0-9 for a display whose
      segments light on a low line (0xc0 draws "0"). */
  const AnodeCodes: seq<bv8> := [0xc0, 0xf9, 0xa4, 0xb0, 0x99, 0x92, 0x82, 0xf8, 0x80, 0x90]

  /** What `clear_display(.., false)` latches: every segment line high, so
      every segment of this display dark. */
  const AnodeBlank: bv8 := 0xFF

  /** The `is_anode` flag this routine passes to `clear_display`. */
  const ClearFlag: bool := false

  /** The loop over `place_pins` in `pick_digit`: every place line low, in
      array order. */
  function PlacesLow(): (r: Trace)
    ensures |r| == 4
    ensures forall j :: 0 <= j < 4 ==> r[j] == Write(Place(j), Low)
  {
    [Write(Place(0), Low), Write(Place(1), Low), Write(Place(2), Low), Write(Place(3), Low)]
  }

  /** `pick_digit`: drive every place line low, then the chosen one high.
      `place_pins[digit]` is out of bounds for `digit >= 4`, which panics
      after the four low writes. Afterwards exactly the chosen place is high
      (one-hot); a panicked pick leaves all four low. Only place lines are
      written. */
  function PickDigit(digit: nat): (r: Exec)
    ensures r.Completed? <==> digit < 4
    ensures forall k, x :: 0 <= k < 4 ==>
      LevelAfter(r.trace, Place(k), x) == if r.Completed? && k == digit then High else Low
    ensures forall j :: 0 <= j < |r.trace| ==> r.trace[j].line.Place?
  {
    var lows := PlacesLow();
    forall k, x | 0 <= k < 4
      ensures LevelAfter(lows, Place(k), x) == Low
    {
      PlacesLowLeaveLow(k, x);
    }
    if digit < 4 then
      var t := lows + [Write(Place(digit), High)];
      forall k, x | 0 <= k < 4
        ensures LevelAfter(t, Place(k), x) == if k == digit then High else Low
      {
        LevelAfterAppend(lows, [Write(Place(digit), High)], Place(k), x);
      }
      Completed(t)
    else
      Panicked(lows)
  }

  lemma PlacesLowLeaveLow(k: nat, x: Level)
    requires k < 4
    ensures LevelAfter(PlacesLow(), Place(k), x) == Low
  {
    var t := PlacesLow();
    assert t == t[..k + 1] + t[k + 1..];
    LevelAfterAppend(t[..k + 1], t[k + 1..], Place(k), x);
    LevelAfterLastWrite(t[..k + 1], Place(k), Low, x);
    LevelAfterUntouched(t[k + 1..], Place(k), Low);
  }

  /** `light_1digit(count, digit)`: blank the display, select the place,
      then shift out the glyph of `count / 10^digit % 10`. The pick panics
      for `digit >= 4` before the glyph lookup; for `digit < 4` the lookup
      is within the ten-entry table, since `DigitIndex` is below 10. */
  function Light1Digit(count: nat, digit: nat): (r: Exec)
    ensures r.Completed? <==> digit < 4
  {
    var clear := ClearDisplay(ClearFlag);
    var pick := PickDigit(digit);
    if pick.Panicked? then Panicked(clear + pick.trace)
    else Completed(clear + pick.trace + Hc595Shift(AnodeCodes[DigitIndex(count, digit)]))
  }

  /** After lighting a place, that place is the only one selected. */
  lemma Light1OneHot(count: nat, digit: nat, k: nat, x: Level)
    requires digit < 4 && k < 4
    ensures LevelAfter(Light1Digit(count, digit).trace, Place(k), x) == if k == digit then High else Low
  {
    var clear := ClearDisplay(ClearFlag);
    var pick := PickDigit(digit).trace;
    var shift := Hc595Shift(AnodeCodes[DigitIndex(count, digit)]);
    LevelAfterAppend(clear + pick, shift, Place(k), x);
    LevelAfterAppend(clear, pick, Place(k), x);
    ShiftLeavesPlaces(AnodeCodes[DigitIndex(count, digit)], Place(k), LevelAfter(clear + pick, Place(k), x));
  }

  /** `hc595_shift` writes only SDI, SRCLK and RCLK. */
  lemma ShiftLeavesPlaces(code: bv8, line: Line, x: Level)
    requires line.Place?
    ensures LevelAfter(Hc595Shift(code), line, x) == x
  {
    FrameUntouched(BitLevels(code), line);
    LevelAfterUntouched(Hc595Shift(code), line, x);
  }

  /** Places `digit` to 3 lit in turn. The loop body reads the counter
      afresh for every place, so place `d` is lit with the value `counts[d]`. */
  function RefreshFrom(counts: seq<nat>, digit: nat): (r: Trace)
    requires |counts| == 4 && digit <= 4
    ensures |r| == 50 * (4 - digit)
    decreases 4 - digit
  {
    if digit == 4 then []
    else
      Light1Length(counts[digit], digit);
      Light1Digit(counts[digit], digit).trace + RefreshFrom(counts, digit + 1)
  }

  /** One pass of the `while` loop of `four_digit_segment7`: places 0 to 3,
      each lit with the counter value read for it, fifty events per place. */
  function RefreshPass(counts: seq<nat>): (r: Trace)
    requires |counts| == 4
    ensures |r| == 200
  {
    RefreshFrom(counts, 0)
  }

  /** Lighting a place is fifty writes: 19 for the clear, 5 for the pick,
      26 for the glyph. */
  lemma Light1Length(count: nat, digit: nat)
    requires digit < 4
    ensures |Light1Digit(count, digit).trace| == 50
  {
  }

  /** At the end of place `d`'s step, whatever the place lines showed
      before, place `d` is the only high place line. */
  lemma SelectedPlaceLines(count: nat, d: nat)
    requires d < 4
    ensures forall k, x :: 0 <= k < 4 ==>
      LevelAfter(Light1Digit(count, d).trace, Place(k), x) == if k == d then High else Low
  {
    forall k, x | 0 <= k < 4
      ensures LevelAfter(Light1Digit(count, d).trace, Place(k), x) == if k == d then High else Low
    {
      Light1OneHot(count, d, k, x);
    }
  }

  /** From an idle chip, place `d`'s step latches twice, and the last latch,
      the one the outputs show, holds the glyph of the `d`-th decimal digit
      of `count`. */
  lemma StepLatchesDigit(c: Chip, count: nat, d: nat)
    requires Idle(c) && d < 4
    ensures Idle(Run(c, Light1Digit(count, d).trace))
    ensures |Run(c, Light1Digit(count, d).trace).latches| == |c.latches| + 2
    ensures |EndLatch(Run(c, Light1Digit(count, d).trace))| >= 8
    ensures Window(EndLatch(Run(c, Light1Digit(count, d).trace)), 8) == BitLevels(AnodeCodes[DigitIndex(count, d)])
  {
    var glyph := BitLevels(AnodeCodes[DigitIndex(count, d)]);
    Light1Latches(c, count, d);
    EndLatchOfTwo(c, Light1Digit(count, d).trace, BitLevels(AnodeBlank), glyph);
  }

  /** While place `d` is selected, the outputs show the glyph of its digit:
      at the end of place `d`'s step place `d` is the only high place line,
      and the latch the outputs show reads back as the `d`-th decimal digit
      of `count`. The glyph is latched after the pick, so the selection and
      the glyph coincide until the next step's clear. */
  lemma SelectedPlaceShowsDigit(c: Chip, count: nat, d: nat)
    requires Idle(c) && d < 4
    ensures forall k, x :: 0 <= k < 4 ==>
      LevelAfter(Light1Digit(count, d).trace, Place(k), x) == if k == d then High else Low
    ensures Idle(Run(c, Light1Digit(count, d).trace))
    ensures |EndLatch(Run(c, Light1Digit(count, d).trace))| >= 8
    ensures GlyphDigit(Window(EndLatch(Run(c, Light1Digit(count, d).trace)), 8)) == Some(DigitIndex(count, d))
  {
    SelectedPlaceLines(count, d);
    StepLatchesDigit(c, count, d);
    GlyphDigitOf(DigitIndex(count, d));
  }

  /** A digit past the last place panics in the pick: the display has been
      cleared and every place line driven low, and no glyph is shifted. */
  lemma Light1Panics(count: nat, digit: nat)
    requires digit >= 4
    ensures Light1Digit(count, digit) == Panicked(ClearDisplay(ClearFlag) + PlacesLow())
  {
  }

  /** The digit each of places `digit` to 3 shows: the place's own decimal
      digit of the value read for it. */
  function PlaceDigits(counts: seq<nat>, digit: nat): (r: seq<nat>)
    requires |counts| == 4 && digit <= 4
    ensures |r| == 4 - digit
    ensures forall i :: 0 <= i < |r| ==> r[i] < 10
    decreases 4 - digit
  {
    if digit == 4 then [] else [DigitIndex(counts[digit], digit)] + PlaceDigits(counts, digit + 1)
  }

  lemma {:induction false} PlaceDigitsAt(counts: seq<nat>, digit: nat, k: nat)
    requires |counts| == 4 && digit <= k < 4
    ensures PlaceDigits(counts, digit)[k - digit] == DigitIndex(counts[k], k)
    decreases k - digit
  {
    if k > digit {
      PlaceDigitsAt(counts, digit + 1, k);
    }
  }

  /** The register contents a pass latches for places whose digits are
      `ds`: per place the blank, then the place's glyph. */
  function PassFrames(codes: seq<bv8>, blank: bv8, ds: seq<nat>): (r: seq<seq<Level>>)
    requires forall i :: 0 <= i < |ds| ==> ds[i] < |codes|
    ensures |r| == 2 * |ds|
  {
    if |ds| == 0 then []
    else [BitLevels(blank)] + [BitLevels(codes[ds[0]])] + PassFrames(codes, blank, ds[1..])
  }

  /** Latch 2k of a pass holds the blank and latch 2k+1 the glyph of the
      k-th digit. */
  lemma {:induction false} PassFramesAt(codes: seq<bv8>, blank: bv8, ds: seq<nat>, k: nat)
    requires forall i :: 0 <= i < |ds| ==> ds[i] < |codes|
    requires k < |ds|
    ensures PassFrames(codes, blank, ds)[2 * k] == BitLevels(blank)
    ensures PassFrames(codes, blank, ds)[2 * k + 1] == BitLevels(codes[ds[k]])
  {
    var r := PassFrames(codes, blank, ds);
    var head := [BitLevels(blank)] + [BitLevels(codes[ds[0]])];
    assert r == head + PassFrames(codes, blank, ds[1..]);
    if k > 0 {
      PassFramesAt(codes, blank, ds[1..], k - 1);
      assert ds[1..][k - 1] == ds[k];
      assert r[2 * k] == PassFrames(codes, blank, ds[1..])[2 * (k - 1)];
      assert r[2 * k + 1] == PassFrames(codes, blank, ds[1..])[2 * (k - 1) + 1];
    } else {
      assert r[0] == head[0] && r[1] == head[1];
    }
  }

  /** Blank, select a place, shift a glyph: to an idle chip that is two
      latches, the blank and then the glyph, since the place writes do not
      reach it. */
  lemma ClearPickShiftLatches(c: Chip, isAnode: bool, blankCode: bv8, pick: Trace, code: bv8)
    requires Idle(c)
    requires blankCode == if isAnode then 0x00 else 0xFF
    requires Untouched(pick, Sdi) && Untouched(pick, Srclk) && Untouched(pick, Rclk)
    ensures Idle(Run(c, ClearDisplay(isAnode) + pick + Hc595Shift(code)))
    ensures |Run(c, ClearDisplay(isAnode) + pick + Hc595Shift(code)).latches| == |c.latches| + 2
    ensures ShowsAll(Run(c, ClearDisplay(isAnode) + pick + Hc595Shift(code)).latches, |c.latches|,
                     [BitLevels(blankCode)] + [BitLevels(code)])
  {
    var clear := ClearDisplay(isAnode);
    RunAppend(c, clear + pick, Hc595Shift(code));
    RunAppend(c, clear, pick);
    ClearMatchesShift(c, isAnode);
    FrameStartsShows(c, |c.latches|, BitLevels(blankCode));
    var c1 := Run(c, clear);
    RunIgnoresOtherLines(c1, pick);
    FrameExtendsShows(c1, |c.latches|, [BitLevels(blankCode)], BitLevels(code));
  }

  /** To an idle chip, lighting one place is two latches: the blank from
      `clear_display(.., false)`, then the glyph of the place's digit. */
  lemma Light1Latches(c: Chip, count: nat, digit: nat)
    requires Idle(c) && digit < 4
    ensures LatchesFrames(c, Light1Digit(count, digit).trace,
                          [BitLevels(AnodeBlank)] + [BitLevels(AnodeCodes[DigitIndex(count, digit)])])
  {
    var pick := PickDigit(digit).trace;
    assert Untouched(pick, Sdi) && Untouched(pick, Srclk) && Untouched(pick, Rclk);
    ClearPickShiftLatches(c, ClearFlag, AnodeBlank, pick, AnodeCodes[DigitIndex(count, digit)]);
  }

  /** Places `digit` to 3 make an idle chip latch twice each: the blank,
      then the glyph of the place's digit. */
  lemma {:induction false} RefreshLatches(c: Chip, counts: seq<nat>, digit: nat)
    requires Idle(c) && |counts| == 4 && digit <= 4
    ensures LatchesFrames(c, RefreshFrom(counts, digit), PassFrames(AnodeCodes, AnodeBlank, PlaceDigits(counts, digit)))
    decreases 4 - digit
  {
    if digit < 4 {
      var t := Light1Digit(counts[digit], digit).trace;
      var rest := RefreshFrom(counts, digit + 1);
      assert RefreshFrom(counts, digit) == t + rest;
      Light1Latches(c, counts[digit], digit);
      RefreshLatches(Run(c, t), counts, digit + 1);
      var ds := PlaceDigits(counts, digit);
      assert ds[0] == DigitIndex(counts[digit], digit) && ds[1..] == PlaceDigits(counts, digit + 1);
      var head := [BitLevels(AnodeBlank)] + [BitLevels(AnodeCodes[ds[0]])];
      assert PassFrames(AnodeCodes, AnodeBlank, ds) == head + PassFrames(AnodeCodes, AnodeBlank, ds[1..]);
      LatchesThen(c, t, rest, head, PassFrames(AnodeCodes, AnodeBlank, ds[1..]));
    } else {
      assert ShowsAll(c.latches, |c.latches|, []);
    }
  }

  /** Whatever trace latched a pass's frames, the latch of each place's
      blank holds the blank code and the next one the place's glyph. */
  lemma PassBytes(c: Chip, t: Trace, codes: seq<bv8>, blank: bv8, ds: seq<nat>, d: nat)
    requires |codes| == 10 && forall i :: 0 <= i < |ds| ==> ds[i] < 10
    requires LatchesFrames(c, t, PassFrames(codes, blank, ds)) && d < |ds|
    ensures |c.latches| + 2 * d + 1 < |Run(c, t).latches|
    ensures |Run(c, t).latches[|c.latches| + 2 * d]| >= 8
    ensures |Run(c, t).latches[|c.latches| + 2 * d + 1]| >= 8
    ensures Window(Run(c, t).latches[|c.latches| + 2 * d], 8) == BitLevels(blank)
    ensures Window(Run(c, t).latches[|c.latches| + 2 * d + 1], 8) == BitLevels(codes[ds[d]])
  {
    PassFramesAt(codes, blank, ds, d);
  }

  /** During a pass, the second latch of place `d`'s step holds the glyph
      of the `d`-th decimal digit of the value read for that place, and the
      first holds the blank. That place `d` is the selected place at the
      end of its step is `SelectedPlaceShowsDigit`. */
  lemma PlaceShowsDigit(c: Chip, counts: seq<nat>, d: nat)
    requires Idle(c) && |counts| == 4 && d < 4
    ensures |c.latches| + 2 * d + 1 < |Run(c, RefreshPass(counts)).latches|
    ensures |Run(c, RefreshPass(counts)).latches[|c.latches| + 2 * d]| >= 8
    ensures |Run(c, RefreshPass(counts)).latches[|c.latches| + 2 * d + 1]| >= 8
    ensures Window(Run(c, RefreshPass(counts)).latches[|c.latches| + 2 * d], 8) == BitLevels(AnodeBlank)
    ensures Window(Run(c, RefreshPass(counts)).latches[|c.latches| + 2 * d + 1], 8)
         == BitLevels(AnodeCodes[DigitIndex(counts[d], d)])
  {
    RefreshLatches(c, counts, 0);
    PassBytes(c, RefreshPass(counts), AnodeCodes, AnodeBlank, PlaceDigits(counts, 0), d);
    PlaceDigitsAt(counts, 0, d);
  }

  /** A digit read off a pattern, or none. */
  datatype Option<T> = None | Some(value: T)

  /** The first table entry from `k` on whose glyph has the levels
      `levels`, if there is one. */
  function FindGlyph(levels: seq<Level>, k: nat): (r: Option<nat>)
    requires k <= 10
    ensures r.Some? ==> k <= r.value < 10 && BitLevels(AnodeCodes[r.value]) == levels
    ensures r.None? ==> forall j :: k <= j < 10 ==> BitLevels(AnodeCodes[j]) != levels
    decreases 10 - k
  {
    if k == 10 then None
    else if BitLevels(AnodeCodes[k]) == levels then Some(k)
    else FindGlyph(levels, k + 1)
  }

  /** Reading a place by eye: the digit whose glyph the register outputs
      show, or `None` for a pattern that is no digit. */
  function GlyphDigit(levels: seq<Level>): Option<nat> {
    FindGlyph(levels, 0)
  }

  /** No two digits share a glyph. */
  lemma AnodeCodesDistinct(i: nat, j: nat)
    requires i < 10 && j < 10 && i != j
    ensures AnodeCodes[i] != AnodeCodes[j]
  {
  }

  /** The glyph of a digit reads back as that digit. */
  lemma GlyphDigitOf(k: nat)
    requires k < 10
    ensures GlyphDigit(BitLevels(AnodeCodes[k])) == Some(k)
  {
    var r := GlyphDigit(BitLevels(AnodeCodes[k]));
    assert r.Some?;
    if r.value != k {
      BitLevelsInjective(AnodeCodes[r.value], AnodeCodes[k]);
      AnodeCodesDistinct(r.value, k);
    }
  }

  /** The blank is no digit's glyph. */
  lemma BlankIsNoDigit()
    ensures GlyphDigit(BitLevels(AnodeBlank)) == None
  {
    var r := GlyphDigit(BitLevels(AnodeBlank));
    if r.Some? {
      BitLevelsInjective(AnodeCodes[r.value], AnodeBlank);
      BlankNotACode(r.value);
    }
  }

  lemma BlankNotACode(j: nat)
    requires j < 10
    ensures AnodeCodes[j] != AnodeBlank
  {
  }

  /** During a pass, the second latch of place `d`'s step reads as the
      `d`-th decimal digit of the value read for it, and the first reads as
      no digit at all. For the selection of place `d` at that point, see
      `SelectedPlaceShowsDigit`. */
  lemma PlaceReadsDigit(c: Chip, counts: seq<nat>, d: nat)
    requires Idle(c) && |counts| == 4 && d < 4
    ensures |c.latches| + 2 * d + 1 < |Run(c, RefreshPass(counts)).latches|
    ensures |Run(c, RefreshPass(counts)).latches[|c.latches| + 2 * d]| >= 8
    ensures |Run(c, RefreshPass(counts)).latches[|c.latches| + 2 * d + 1]| >= 8
    ensures GlyphDigit(Window(Run(c, RefreshPass(counts)).latches[|c.latches| + 2 * d + 1], 8))
         == Some(DigitIndex(counts[d], d))
    ensures GlyphDigit(Window(Run(c, RefreshPass(counts)).latches[|c.latches| + 2 * d], 8)) == None
  {
    PlaceShowsDigit(c, counts, d);
    GlyphDigitOf(DigitIndex(counts[d], d));
    BlankIsNoDigit();
  }

  /** When the counter holds still at a value below 10000 for a whole
      pass, the four places read back, least significant first, the
      decimal digits that spell exactly that value. */
  lemma PassShowsCount(c: Chip, counts: seq<nat>, count: nat, d: nat)
    requires Idle(c) && |counts| == 4 && d < 4
    requires forall i :: 0 <= i < 4 ==> counts[i] == count
    requires count < 10000
    ensures |c.latches| + 2 * d + 1 < |Run(c, RefreshPass(counts)).latches|
    ensures |Run(c, RefreshPass(counts)).latches[|c.latches| + 2 * d + 1]| >= 8
    ensures GlyphDigit(Window(Run(c, RefreshPass(counts)).latches[|c.latches| + 2 * d + 1], 8))
         == Some(Digits(count, 4)[d])
    ensures ValueOf(Digits(count, 4)) == count
  {
    PlaceReadsDigit(c, counts, d);
    DigitsAreIndices(count, 4);
    FourPlacesExact(count);
  }

  /** The passes the `while` loop makes, each with its four counter reads. */
  function Passes(passes: seq<seq<nat>>): Trace
    requires forall p :: p in passes ==> |p| == 4
  {
    if |passes| == 0 then [] else RefreshPass(passes[0]) + Passes(passes[1..])
  }

  /** `four_digit_segment7` once its pins are acquired: the refresh passes
      made while the counter stays below 10000, then the display cleared. */
  function FourDigitSegment7(passes: seq<seq<nat>>): (r: Trace)
    requires forall p :: p in passes ==> |p| == 4
    ensures |r| == 200 * |passes| + 19
    ensures r[|r| - 19..] == ClearDisplay(ClearFlag)
  {
    PassesLength(passes);
    var t := Passes(passes) + ClearDisplay(ClearFlag);
    assert t[|t| - 19..] == ClearDisplay(ClearFlag);
    t
  }

  lemma {:induction false} PassesLength(passes: seq<seq<nat>>)
    requires forall p :: p in passes ==> |p| == 4
    ensures |Passes(passes)| == 200 * |passes|
  {
    if |passes| > 0 {
      PassesLength(passes[1..]);
    }
  }

  /** Refresh passes leave an idle chip idle. */
  lemma {:induction false} PassesIdle(c: Chip, passes: seq<seq<nat>>)
    requires Idle(c)
    requires forall p :: p in passes ==> |p| == 4
    ensures Idle(Run(c, Passes(passes)))
    decreases |passes|
  {
    if |passes| > 0 {
      PassesFirst(c, passes);
      PassIdle(c, passes[0]);
      PassesIdle(Run(c, RefreshPass(passes[0])), passes[1..]);
    }
  }

  lemma PassesFirst(c: Chip, passes: seq<seq<nat>>)
    requires |passes| > 0
    requires forall p :: p in passes ==> |p| == 4
    ensures Run(c, Passes(passes)) == Run(Run(c, RefreshPass(passes[0])), Passes(passes[1..]))
  {
    var t := RefreshPass(passes[0]);
    var rest := Passes(passes[1..]);
    assert Passes(passes) == t + rest;
    RunAppend(c, t, rest);
  }

  lemma PassIdle(c: Chip, counts: seq<nat>)
    requires Idle(c) && |counts| == 4
    ensures Idle(Run(c, RefreshPass(counts)))
  {
    RefreshLatches(c, counts, 0);
  }

  /** However many passes ran, the routine ends with the register showing
      the blank, which reads as no digit: the display goes dark. */
  lemma FourDigitEndsDark(c: Chip, passes: seq<seq<nat>>)
    requires Idle(c)
    requires forall p :: p in passes ==> |p| == 4
    ensures |Run(c, FourDigitSegment7(passes)).latches| > 0
    ensures |Run(c, FourDigitSegment7(passes)).latches[|Run(c, FourDigitSegment7(passes)).latches| - 1]| >= 8
    ensures Window(Run(c, FourDigitSegment7(passes)).latches[|Run(c, FourDigitSegment7(passes)).latches| - 1], 8)
         == BitLevels(AnodeBlank)
    ensures GlyphDigit(Window(Run(c, FourDigitSegment7(passes)).latches[|Run(c, FourDigitSegment7(passes)).latches| - 1], 8))
         == None
  {
    var p := Passes(passes);
    PassesIdle(c, passes);
    RunAppend(c, p, ClearDisplay(ClearFlag));
    var c1 := Run(c, p);
    ClearLatchesBlank(c1, ClearFlag, AnodeBlank);
    WindowOfAppend(c1.shifted, BitLevels(AnodeBlank));
    BlankIsNoDigit();
  }
}
