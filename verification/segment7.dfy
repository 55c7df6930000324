/**
 * `segment7` of `src/output.rs`: a single seven-segment display behind one
 * 74HC595. It drives all three lines low, shows the sixteen glyphs 0-9 and
 * A-F in turn, and clears the display.
 */
module Segment7 {
  import opened Pins
  import opened Serial
  import opened ShiftRegister
  import opened Hc595
  import opened CodeTables

  /** `seg_code` of `segment7`: glyphs 0-9 and A-F for a display whose
      segments light on a high line (0x3f draws "0"). */
  const CathodeCodes: seq<bv8> :=
    [0x3f, 0x06, 0x5b, 0x4f, 0x66, 0x6d, 0x7d, 0x07, 0x7f, 0x6f, 0x77, 0x7c, 0x39, 0x5e, 0x79, 0x71]

  /** `for code in seg_code`: each code clocked out by the bit loop and
      latched by the RCLK pulse after it, which is one latched frame of its
      levels per code. */
  function ShowCodes(codes: seq<bv8>): (r: Trace)
    ensures |r| == 26 * |codes|
    ensures r == ShowFrames(Glyphs(codes))
  {
    if |codes| == 0 then []
    else
      assert Glyphs(codes)[1..] == Glyphs(codes[1..]);
      Hc595Shift(codes[0]) + ShowCodes(codes[1..])
  }

  /** The opening writes of `segment7`: all three lines low. */
  function AllLow(): Trace {
    [Write(Sdi, Low), Write(Rclk, Low), Write(Srclk, Low)]
  }

  /** The pin activity of `segment7` once its pins are acquired, for a
      table `codes`: all three lines low, every code shown in turn, then the
      display cleared. */
  function ShowTable(codes: seq<bv8>): (r: Trace)
    ensures |r| == 26 * |codes| + 22
    ensures r[..3] == AllLow()
    ensures r[3..|r| - 19] == ShowFrames(Glyphs(codes))
    ensures r[|r| - 19..] == ClearDisplay(true)
  {
    var low := AllLow();
    var shown := ShowCodes(codes);
    var clear := ClearDisplay(true);
    ThreeParts(low, shown, clear);
    low + shown + clear
  }

  /** `segment7` once its pins are acquired: 438 writes, the three opening
      writes, sixteen frames of 26 writes, and the 19 writes of the clear. */
  function Segment7(): (r: Trace)
    ensures |r| == 438
  {
    ShowTable(CathodeCodes)
  }

  /** Whatever state the chip was in, the opening writes leave it idle and
      keep what it had latched. */
  lemma RunAllLow(c: Chip)
    ensures Idle(Run(c, AllLow()))
    ensures Run(c, AllLow()).latches == c.latches
  {
    assert Run(c, AllLow()) == c.(sdi := Low, rclk := Low, srclk := Low);
  }

  /** From an idle chip, the code loop latches each code in turn. */
  lemma ShowCodesLatches(c: Chip, codes: seq<bv8>)
    requires Idle(c)
    ensures Idle(Run(c, ShowCodes(codes)))
    ensures |Run(c, ShowCodes(codes)).latches| == |c.latches| + |codes|
    ensures ShowsAll(Run(c, ShowCodes(codes)).latches, |c.latches|, Glyphs(codes))
  {
    RunShowFrames(c, Glyphs(codes));
  }

  /** Whatever state the chip starts in, showing a table latches once per
      code, in table order, and then once more with 0x00. */
  lemma ShowTableLatches(c: Chip, codes: seq<bv8>)
    ensures |Run(c, ShowTable(codes)).latches| == |c.latches| + |codes| + 1
    ensures ShowsAll(Run(c, ShowTable(codes)).latches, |c.latches|, Glyphs(codes + [0x00]))
  {
    RunAppend(c, AllLow() + ShowCodes(codes), ClearDisplay(true));
    RunAppend(c, AllLow(), ShowCodes(codes));
    RunAllLow(c);
    var c0 := Run(c, AllLow());
    ShowCodesLatches(c0, codes);
    var z: bv8 := 0x00;
    ClearExtendsShows(Run(c0, ShowCodes(codes)), |c.latches|, Glyphs(codes), true, z);
    GlyphsSnoc(codes, z);
  }

  /** `segment7` makes the chip latch 17 times: the sixteen glyphs of
      `seg_code` in table order, then 0x00, which lights no segment of this
      display. */
  lemma Segment7ShowsEveryGlyph(c: Chip)
    ensures |Run(c, Segment7()).latches| == |c.latches| + 17
    ensures ShowsAll(Run(c, Segment7()).latches, |c.latches|, Glyphs(CathodeCodes + [0x00]))
  {
    ShowTableLatches(c, CathodeCodes);
  }
}
