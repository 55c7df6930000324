/**
 * `light_led_dot_matrix` of `src/output.rs`: an LED matrix behind two
 * cascaded 74HC595s. Each step clocks in `code_l[i]` and then `code_h[i]`,
 * sixteen levels in all, and latches once, so the chip fed by SDI ends up
 * holding `code_h[i]` and the chip after it `code_l[i]`. A pass visits the
 * twenty steps forwards and then backwards.
 */
module DotMatrix {
  import opened Pins
  import opened Serial
  import opened ShiftRegister
  import opened Hc595

  const CodeH: seq<bv8> :=
    [0x01, 0xff, 0x80, 0xff, 0x01, 0x02, 0x04, 0x08, 0x10, 0x20,
     0x40, 0x80, 0xff, 0xff, 0xff, 0xff, 0xff, 0xff, 0xff, 0xff]

  const CodeL: seq<bv8> :=
    [0x00, 0x7f, 0x00, 0xfe, 0x00, 0x00, 0x00, 0x00, 0x00, 0x00,
     0x00, 0x00, 0xfe, 0xfd, 0xfb, 0xf7, 0xef, 0xdf, 0xbf, 0x7f]

  /** The `is_anode` flag this routine passes to `clear_display`. */
  const ClearFlag: bool := true

  /** `0..n`: the indices in increasing order. */
  function Up(n: nat): (r: seq<nat>)
    ensures |r| == n
    ensures forall k :: 0 <= k < n ==> r[k] == k
  {
    if n == 0 then [] else Up(n - 1) + [n - 1]
  }

  /** `(0..n).rev()`: the indices in decreasing order. */
  function Down(n: nat): (r: seq<nat>)
    ensures |r| == n
    ensures forall k :: 0 <= k < n ==> r[k] == n - 1 - k
  {
    if n == 0 then [] else [n - 1] + Down(n - 1)
  }

  /** The index order of one pass over `n` columns: forwards, then back. */
  function SweepOrder(n: nat): (r: seq<nat>)
    ensures |r| == 2 * n
    ensures forall k :: 0 <= k < n ==> r[k] == k
    ensures forall k :: n <= k < 2 * n ==> r[k] == 2 * n - 1 - k
    ensures forall k :: 0 <= k < |r| ==> r[k] < n
  {
    var r := Up(n) + Down(n);
    assert forall k :: n <= k < 2 * n ==> r[k] == Down(n)[k - n];
    r
  }

  /** The tables have one entry per column, and `order` names only columns. */
  predicate Indexes(codeL: seq<bv8>, codeH: seq<bv8>, order: seq<nat>) {
    |codeL| == |codeH| && forall k :: 0 <= k < |order| ==> order[k] < |codeH|
  }

  /** The sixteen levels of one step: the low byte's bits, then the high
      byte's, each most significant first. */
  function StepLevels(lo: bv8, hi: bv8): (r: seq<Level>)
    ensures |r| == 16
  {
    BitLevels(lo) + BitLevels(hi)
  }

  /** One step of the sweep: `hc595_in(lo)`, `hc595_in(hi)`, `hc595_out()`.
      That is one frame of sixteen levels, low byte first. */
  function ColumnStep(lo: bv8, hi: bv8): (r: Trace)
    ensures |r| == 50
    ensures r == Frame(StepLevels(lo, hi))
  {
    CyclesConcat(BitLevels(lo), BitLevels(hi));
    Hc595In(lo) + Hc595In(hi) + Hc595Out()
  }

  /** The frame of each step of `order`, in order. */
  function ColumnFrames(codeL: seq<bv8>, codeH: seq<bv8>, order: seq<nat>): (r: seq<seq<Level>>)
    requires Indexes(codeL, codeH, order)
    ensures |r| == |order|
    ensures forall k :: 0 <= k < |order| ==> r[k] == StepLevels(codeL[order[k]], codeH[order[k]])
  {
    if |order| == 0 then []
    else [StepLevels(codeL[order[0]], codeH[order[0]])] + ColumnFrames(codeL, codeH, order[1..])
  }

  /** The steps of `order`, one after another: their frames, each clocked
      in and latched. */
  function Sweep(codeL: seq<bv8>, codeH: seq<bv8>, order: seq<nat>): (r: Trace)
    requires Indexes(codeL, codeH, order)
    ensures |r| == 50 * |order|
    ensures r == ShowFrames(ColumnFrames(codeL, codeH, order))
  {
    if |order| == 0 then []
    else
      assert ColumnFrames(codeL, codeH, order)[1..] == ColumnFrames(codeL, codeH, order[1..]);
      ColumnStep(codeL[order[0]], codeH[order[0]]) + Sweep(codeL, codeH, order[1..])
  }

  /** One pass of the `while running` loop: every column of the tables
      forwards, then backwards. */
  function MatrixPass(codeL: seq<bv8>, codeH: seq<bv8>): (r: Trace)
    requires |codeL| == |codeH|
    ensures |r| == 100 * |codeH|
    ensures r == ShowFrames(ColumnFrames(codeL, codeH, SweepOrder(|codeH|)))
  {
    Sweep(codeL, codeH, SweepOrder(|codeH|))
  }

  /** `passes` passes of the loop, the first one first. */
  function MatrixPasses(codeL: seq<bv8>, codeH: seq<bv8>, passes: nat): (r: Trace)
    requires |codeL| == |codeH|
    ensures |r| == passes * (100 * |codeH|)
  {
    RepeatLength(MatrixPass(codeL, codeH), passes);
    Repeat(MatrixPass(codeL, codeH), passes)
  }

  /** `light_led_dot_matrix` once its pins are acquired: the passes made
      until the interrupt flag is seen, then `clear_display(.., true)`. */
  function LightLedDotMatrix(passes: nat): (r: Trace)
    ensures |r| == 2000 * passes + 19
    ensures r[|r| - 19..] == ClearDisplay(ClearFlag)
  {
    assert |CodeH| == 20;
    MatrixPasses(CodeL, CodeH, passes) + ClearDisplay(ClearFlag)
  }

  /** From an idle chip, a sweep latches once per step, and the latch of
      step `k` shows the low byte of that step's column on the far chip
      and the high byte on the near chip. */
  lemma SweepShowsColumn(c: Chip, codeL: seq<bv8>, codeH: seq<bv8>, order: seq<nat>, k: nat)
    requires Idle(c) && Indexes(codeL, codeH, order) && k < |order|
    ensures |Run(c, Sweep(codeL, codeH, order)).latches| == |c.latches| + |order|
    ensures |Run(c, Sweep(codeL, codeH, order)).latches[|c.latches| + k]| >= 16
    ensures FarChip(Run(c, Sweep(codeL, codeH, order)).latches[|c.latches| + k]) == BitLevels(codeL[order[k]])
    ensures NearChip(Run(c, Sweep(codeL, codeH, order)).latches[|c.latches| + k]) == BitLevels(codeH[order[k]])
  {
    var frames := ColumnFrames(codeL, codeH, order);
    RunShowFrames(c, frames);
    var latches := Run(c, Sweep(codeL, codeH, order)).latches;
    assert |latches[|c.latches| + k]| >= |frames[k]| && Window(latches[|c.latches| + k], |frames[k]|) == frames[k];
    assert frames[k] == BitLevels(codeL[order[k]]) + BitLevels(codeH[order[k]]);
    CascadeSplit(latches[|c.latches| + k], BitLevels(codeL[order[k]]), BitLevels(codeH[order[k]]));
  }

  /** Step `k` of a pass over `n` columns shows column `k` on the way out
      and column `2n - 1 - k` on the way back. */
  lemma PassShowsColumn(c: Chip, codeL: seq<bv8>, codeH: seq<bv8>, k: nat)
    requires Idle(c) && |codeL| == |codeH| && k < 2 * |codeH|
    ensures |Run(c, MatrixPass(codeL, codeH)).latches| == |c.latches| + 2 * |codeH|
    ensures |Run(c, MatrixPass(codeL, codeH)).latches[|c.latches| + k]| >= 16
    ensures FarChip(Run(c, MatrixPass(codeL, codeH)).latches[|c.latches| + k])
         == BitLevels(codeL[if k < |codeH| then k else 2 * |codeH| - 1 - k])
    ensures NearChip(Run(c, MatrixPass(codeL, codeH)).latches[|c.latches| + k])
         == BitLevels(codeH[if k < |codeH| then k else 2 * |codeH| - 1 - k])
  {
    var o := SweepOrder(|codeH|);
    assert o[k] == if k < |codeH| then k else 2 * |codeH| - 1 - k;
    SweepShowsColumn(c, codeL, codeH, o, k);
  }

  /** A pass leaves an idle chip idle, with the sixteen levels of column 0,
      the last step of the backward sweep, at the end of the register. */
  lemma PassEnd(c: Chip, codeL: seq<bv8>, codeH: seq<bv8>)
    requires Idle(c) && |codeL| == |codeH| > 0
    ensures Idle(Run(c, MatrixPass(codeL, codeH)))
    ensures |Run(c, MatrixPass(codeL, codeH)).shifted| >= 16
    ensures Window(Run(c, MatrixPass(codeL, codeH)).shifted, 16) == StepLevels(codeL[0], codeH[0])
  {
    var n := |codeH|;
    var o := SweepOrder(n);
    var frames := ColumnFrames(codeL, codeH, o);
    assert o[|o| - 1] == o[n + (n - 1)] == 0;
    ShowFramesEnd(c, frames);
  }

  /** Every pass leaves an idle chip idle, so any number of them does. */
  lemma PassesIdle(c: Chip, codeL: seq<bv8>, codeH: seq<bv8>, passes: nat)
    requires Idle(c) && |codeL| == |codeH| > 0
    ensures Idle(Run(c, MatrixPasses(codeL, codeH, passes)))
  {
    var pass := MatrixPass(codeL, codeH);
    forall c' | Idle(c')
      ensures Idle(Run(c', pass))
    {
      PassEnd(c', codeL, codeH);
    }
    RepeatIdle(c, pass, passes);
  }

  /** Any positive number of passes ends like a single pass: idle, with
      column 0's sixteen levels last in the register. */
  lemma PassesEnd(c: Chip, codeL: seq<bv8>, codeH: seq<bv8>, passes: nat)
    requires Idle(c) && |codeL| == |codeH| > 0 && passes > 0
    ensures Idle(Run(c, MatrixPasses(codeL, codeH, passes)))
    ensures |Run(c, MatrixPasses(codeL, codeH, passes)).shifted| >= 16
    ensures Window(Run(c, MatrixPasses(codeL, codeH, passes)).shifted, 16) == StepLevels(codeL[0], codeH[0])
  {
    var pass := MatrixPass(codeL, codeH);
    forall c' | Idle(c')
      ensures Idle(Run(c', pass))
      ensures |Run(c', pass).shifted| >= 16
      ensures Window(Run(c', pass).shifted, 16) == StepLevels(codeL[0], codeH[0])
    {
      PassEnd(c', codeL, codeH);
    }
    RepeatEndsWith(c, pass, passes, StepLevels(codeL[0], codeH[0]));
  }

  /** `clear_display` shifts only eight levels into the cascade: after a
      step `(lo, hi)` the near chip gets the blank and the far chip is
      handed `hi`, which the near chip held. */
  lemma ClearAfterStep(c: Chip, lo: bv8, hi: bv8, blank: bv8)
    requires Idle(c) && |c.shifted| >= 16 && Window(c.shifted, 16) == StepLevels(lo, hi)
    requires blank == if ClearFlag then 0x00 else 0xFF
    ensures |Run(c, ClearDisplay(ClearFlag)).latches| > 0
    ensures |EndLatch(Run(c, ClearDisplay(ClearFlag)))| >= 16
    ensures NearChip(EndLatch(Run(c, ClearDisplay(ClearFlag)))) == BitLevels(blank)
    ensures FarChip(EndLatch(Run(c, ClearDisplay(ClearFlag)))) == BitLevels(hi)
  {
    ClearLatchesBlank(c, ClearFlag, blank);
    WindowTail(c.shifted, 16, 8);
    assert StepLevels(lo, hi)[8..] == BitLevels(hi);
    WindowShift(c.shifted, BitLevels(blank));
    CascadeSplit(c.shifted + BitLevels(blank), BitLevels(hi), BitLevels(blank));
  }

  /** After passes over non-empty tables and the final clear, the near chip
      holds the blank and the far chip the high byte of column 0. */
  lemma PassesEndState(c: Chip, codeL: seq<bv8>, codeH: seq<bv8>, passes: nat, blank: bv8)
    requires Idle(c) && |codeL| == |codeH| > 0 && passes > 0
    requires blank == if ClearFlag then 0x00 else 0xFF
    ensures |Run(c, MatrixPasses(codeL, codeH, passes) + ClearDisplay(ClearFlag)).latches| > 0
    ensures |EndLatch(Run(c, MatrixPasses(codeL, codeH, passes) + ClearDisplay(ClearFlag)))| >= 16
    ensures NearChip(EndLatch(Run(c, MatrixPasses(codeL, codeH, passes) + ClearDisplay(ClearFlag))))
         == BitLevels(blank)
    ensures FarChip(EndLatch(Run(c, MatrixPasses(codeL, codeH, passes) + ClearDisplay(ClearFlag))))
         == BitLevels(codeH[0])
  {
    var t := MatrixPasses(codeL, codeH, passes);
    PassesEnd(c, codeL, codeH, passes);
    RunAppend(c, t, ClearDisplay(ClearFlag));
    ClearAfterStep(Run(c, t), codeL[0], codeH[0], blank);
  }

  /** How `light_led_dot_matrix` leaves the display after at least one
      pass: the near chip cleared to 0x00, the far chip still holding
      `code_h[0]`. */
  lemma MatrixEndState(c: Chip, passes: nat)
    requires Idle(c) && passes > 0
    ensures |Run(c, LightLedDotMatrix(passes)).latches| > 0
    ensures |EndLatch(Run(c, LightLedDotMatrix(passes)))| >= 16
    ensures NearChip(EndLatch(Run(c, LightLedDotMatrix(passes)))) == BitLevels(0x00)
    ensures FarChip(EndLatch(Run(c, LightLedDotMatrix(passes)))) == BitLevels(CodeH[0])
  {
    var z: bv8 := 0x00;
    PassesEndState(c, CodeL, CodeH, passes, z);
  }

  /** Whatever follows the passes, the latches of the first pass stay on
      record: step `k` of it shows its column on both chips. */
  lemma FirstPassShows(c: Chip, codeL: seq<bv8>, codeH: seq<bv8>, passes: nat, after: Trace, k: nat)
    requires Idle(c) && |codeL| == |codeH| && passes > 0 && k < 2 * |codeH|
    ensures |Run(c, MatrixPasses(codeL, codeH, passes) + after).latches| > |c.latches| + k
    ensures |Run(c, MatrixPasses(codeL, codeH, passes) + after).latches[|c.latches| + k]| >= 16
    ensures FarChip(Run(c, MatrixPasses(codeL, codeH, passes) + after).latches[|c.latches| + k])
         == BitLevels(codeL[if k < |codeH| then k else 2 * |codeH| - 1 - k])
    ensures NearChip(Run(c, MatrixPasses(codeL, codeH, passes) + after).latches[|c.latches| + k])
         == BitLevels(codeH[if k < |codeH| then k else 2 * |codeH| - 1 - k])
  {
    PassShowsColumn(c, codeL, codeH, k);
    RepeatKeepsFirst(c, MatrixPass(codeL, codeH), passes, after, |c.latches| + k);
  }

  /** The first pass of `light_led_dot_matrix` lights the twenty columns
      of the tables forwards, then backwards. */
  lemma MatrixFirstPass(c: Chip, passes: nat, k: nat)
    requires Idle(c) && passes > 0 && k < 40
    ensures |Run(c, LightLedDotMatrix(passes)).latches| > |c.latches| + k
    ensures |Run(c, LightLedDotMatrix(passes)).latches[|c.latches| + k]| >= 16
    ensures FarChip(Run(c, LightLedDotMatrix(passes)).latches[|c.latches| + k])
         == BitLevels(CodeL[if k < 20 then k else 39 - k])
    ensures NearChip(Run(c, LightLedDotMatrix(passes)).latches[|c.latches| + k])
         == BitLevels(CodeH[if k < 20 then k else 39 - k])
  {
    FirstPassShows(c, CodeL, CodeH, passes, ClearDisplay(ClearFlag), k);
  }

  /** Both tables have twenty entries, and every index a pass visits is
      below twenty, so neither `code_l[i]` nor `code_h[i]` can go out of
      bounds. */
  lemma MatrixIndexesInRange()
    ensures |CodeL| == |CodeH| == 20
    ensures |SweepOrder(|CodeH|)| == 40
    ensures Indexes(CodeL, CodeH, SweepOrder(|CodeH|))
  {
  }
}
