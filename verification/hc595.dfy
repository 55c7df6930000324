/**
 * The bit serialiser of `src/output.rs`: `hc595_shift`, `hc595_in`,
 * `hc595_out` and `clear_display`. A byte leaves as eight SDI levels, most
 * significant bit first, each clocked by an SRCLK pulse; one RCLK pulse
 * latches it. The source's own bit test, `0x80 & (code << i) != 0` on a u8,
 * is kept as written on `bv8`, whose `<<` discards the bits shifted out.
 */
module Hc595 {
  import opened Pins
  import opened Serial
  import opened ShiftRegister

  /** Bit `k` of `code` (bit 0 is the least significant): the reference
      reading of a byte that the encoder is checked against. */
  predicate Bit(code: bv8, k: nat)
    requires k < 8
  {
    (code >> k) & 1 == 1
  }

  /** Bits k-1 down to 0 of `code`, as levels. */
  function LowBits(code: bv8, k: nat): (r: seq<Level>)
    requires k <= 8
    ensures |r| == k
  {
    if k == 0 then [] else [LevelOf(Bit(code, k - 1))] + LowBits(code, k - 1)
  }

  lemma {:induction false} LowBitsAt(code: bv8, k: nat, j: nat)
    requires j < k <= 8
    ensures LowBits(code, k)[j] == LevelOf(Bit(code, k - 1 - j))
  {
    if j > 0 {
      LowBitsAt(code, k - 1, j - 1);
    }
  }

  /** The eight levels of `code`, most significant bit first. */
  function BitLevels(code: bv8): (r: seq<Level>)
    ensures |r| == 8
  {
    LowBits(code, 8)
  }

  lemma BitLevelsAt(code: bv8, k: nat)
    requires k < 8
    ensures BitLevels(code)[k] == LevelOf(Bit(code, 7 - k))
  {
    LowBitsAt(code, 8, k);
  }

  /** The SDI level of iteration `i` of the bit loop, computed as the source
      does. It is high exactly when bit 7 - i of `code` is set. */
  function SdiLevel(code: bv8, i: nat): (r: Level)
    requires i < 8
    ensures r == High <==> Bit(code, 7 - i)
    ensures r == BitLevels(code)[i]
  {
    BitLevelsAt(code, i);
    if 0x80 & (code << i) != 0 then High else Low
  }

  /** Iterations i, i+1, ..., 7 of the bit loop (`for i in 0..8`): set SDI
      from the tested bit, then pulse SRCLK. The loop is written three
      times in the source, in `segment7`, `hc595_shift` and `hc595_in`. */
  function ShiftLoop(code: bv8, i: nat): (r: Trace)
    requires i <= 8
    ensures r == Cycles(BitLevels(code), i)
    decreases 8 - i
  {
    if i == 8 then []
    else [Write(Sdi, SdiLevel(code, i))] + Pulse(Srclk) + ShiftLoop(code, i + 1)
  }

  /** `hc595_in`: clock the eight bits of `code` in, most significant first,
      without latching. */
  function Hc595In(code: bv8): (r: Trace)
    ensures |r| == 24
    ensures r == Cycles(BitLevels(code), 0)
  {
    ShiftLoop(code, 0)
  }

  /** `hc595_out`: one latch pulse, which is a frame that clocks no level
      in and only latches. */
  function Hc595Out(): (r: Trace)
    ensures r == Frame([])
  {
    Pulse(Rclk)
  }

  /** `hc595_shift`: exactly eight (SDI write, SRCLK pulse) pairs carrying the
      bits of `code` most significant first, then one RCLK pulse; both
      clocks end low. The bit loop of `segment7` followed by its RCLK pulse
      is this same trace, and so is `hc595_in` followed by `hc595_out`. */
  function Hc595Shift(code: bv8): (r: Trace)
    ensures |r| == 26
    ensures r == Frame(BitLevels(code))
    ensures r == Hc595In(code) + Hc595Out()
    ensures forall x :: LevelAfter(r, Srclk, x) == Low && LevelAfter(r, Rclk, x) == Low
  {
    forall x ensures LevelAfter(Cycles(BitLevels(code), 0), Srclk, x) == Low {
      CyclesEndLow(BitLevels(code), x);
    }
    ShiftLoop(code, 0) + Pulse(Rclk)
  }

  /** The SDI write before the i-th SRCLK pulse of `Hc595Shift(code)` carries
      bit 7 - i of `code`. */
  lemma SdiBeforeEachPulse(code: bv8)
    ensures forall i :: 0 <= i < 8 ==>
      Hc595Shift(code)[3 * i] == Write(Sdi, BitLevels(code)[i]) &&
      Hc595Shift(code)[3 * i + 1] == Write(Srclk, High) &&
      Hc595Shift(code)[3 * i + 2] == Write(Srclk, Low)
  {
    FrameCycleAt(BitLevels(code));
  }

  /** `clear_display`: one SDI level, held across eight SRCLK pulses, then a
      latch. Low when `isAnode`, high otherwise; both clocks end low. */
  function ClearDisplay(isAnode: bool): (r: Trace)
    ensures |r| == 19
    ensures r[0] == Write(Sdi, if isAnode then Low else High)
    ensures Untouched(r[1..], Sdi)
    ensures forall x :: LevelAfter(r, Srclk, x) == Low && LevelAfter(r, Rclk, x) == Low
  {
    var head := [Write(Sdi, if isAnode then Low else High)] + Pulses(Srclk, 8);
    var latch := Pulse(Rclk);
    var r := head + latch;
    forall x ensures LevelAfter(r, Srclk, x) == Low && LevelAfter(r, Rclk, x) == Low {
      LevelAfterLastWrite(r, Rclk, Low, x);
      LevelAfterAppend(head, latch, Srclk, x);
      LevelAfterLastWrite(head, Srclk, Low, x);
      LevelAfterUntouched(latch, Srclk, Low);
    }
    r
  }

  /** A write followed by `n` SRCLK pulses and one RCLK pulse: event
      2j-1 raises SRCLK and event 2j lowers it, the last two pulse RCLK. */
  lemma WritePulsesLatch(w: Event, n: nat, t: Trace)
    requires t == [w] + Pulses(Srclk, n) + Pulse(Rclk)
    ensures |t| == 2 * n + 3
    ensures forall j :: 1 <= j < 2 * n + 1 ==> t[j] == Write(Srclk, if j % 2 == 1 then High else Low)
    ensures t[2 * n + 1] == Write(Rclk, High) && t[2 * n + 2] == Write(Rclk, Low)
  {
  }

  /** After its SDI write, `clear_display` is eight SRCLK pulses, then one
      RCLK pulse. */
  lemma ClearDisplayPulses(isAnode: bool)
    ensures forall j :: 1 <= j < 17 ==>
      ClearDisplay(isAnode)[j] == Write(Srclk, if j % 2 == 1 then High else Low)
    ensures ClearDisplay(isAnode)[17] == Write(Rclk, High) && ClearDisplay(isAnode)[18] == Write(Rclk, Low)
  {
    WritePulsesLatch(Write(Sdi, if isAnode then Low else High), 8, ClearDisplay(isAnode));
  }

  /** The top `n` bits of `code`, as a number. */
  function TopBits(code: bv8, n: nat): nat
    requires n <= 8
  {
    (code >> (8 - n)) as int
  }

  /** Dropping the low bit of `x` halves it. */
  lemma ShiftRightHalves(x: bv8)
    ensures x as int == 2 * ((x >> 1) as int) + ((x & 1) as int)
  {
  }

  lemma ShiftOneMore(code: bv8, n: nat)
    requires 0 < n <= 8
    ensures (code >> (8 - n)) >> 1 == code >> (9 - n)
  {
  }

  /** Level `n - 1` on the wire is the low bit of the top `n` bits. */
  lemma LevelIsLowBit(code: bv8, n: nat)
    requires 0 < n <= 8
    ensures BitValue(BitLevels(code)[n - 1]) == ((code >> (8 - n)) & 1) as int
  {
    BitLevelsAt(code, n - 1);
  }

  lemma TopBitsStep(code: bv8, n: nat)
    requires 0 < n <= 8
    ensures TopBits(code, n) == 2 * TopBits(code, n - 1) + BitValue(BitLevels(code)[n - 1])
  {
    ShiftOneMore(code, n);
    ShiftRightHalves(code >> (8 - n));
    LevelIsLowBit(code, n);
  }

  /** The first `n` levels of `code` fold to its top `n` bits. */
  lemma {:induction false} ByteOfPrefix(code: bv8, n: nat)
    requires n <= 8
    ensures ByteOf(BitLevels(code)[..n]) == TopBits(code, n)
  {
    if n > 0 {
      var ls := BitLevels(code)[..n];
      assert ls[..n - 1] == BitLevels(code)[..n - 1];
      assert ls[n - 1] == BitLevels(code)[n - 1];
      ByteOfPrefix(code, n - 1);
      TopBitsStep(code, n);
    } else {
      assert TopBits(code, 0) == 0;
    }
  }

  /** Round trip: folding the eight levels the encoder emits, most
      significant first, gives back `code`, for every byte. */
  lemma RoundTrip(code: bv8)
    ensures ByteOf(BitLevels(code)) == code as int
  {
    ByteOfPrefix(code, 8);
    assert BitLevels(code)[..8] == BitLevels(code);
  }

  /** Distinct bytes are sent as distinct level sequences. */
  lemma BitLevelsInjective(a: bv8, b: bv8)
    requires BitLevels(a) == BitLevels(b)
    ensures a == b
  {
    RoundTrip(a);
    RoundTrip(b);
  }

  /** An idle 74HC595 that receives `hc595_shift(code)` ends idle, has the
      bits of `code` appended to its shift register, latches once, and then
      shows `code`, whatever it held before. */
  lemma ShiftLatchesCode(c: Chip, code: bv8)
    requires Idle(c)
    ensures Run(c, Hc595Shift(code))
         == Chip(BitLevels(code)[7], Low, Low, c.shifted + BitLevels(code), c.latches + [c.shifted + BitLevels(code)])
    ensures Window(Run(c, Hc595Shift(code)).latches[|c.latches|], 8) == BitLevels(code)
  {
    FrameLatches(c, BitLevels(code), Hc595Shift(code));
  }

  /** A trace that is one frame of eight levels, sent to an idle chip. */
  lemma FrameLatches(c: Chip, levels: seq<Level>, t: Trace)
    requires Idle(c) && |levels| == 8 && t == Frame(levels)
    ensures Run(c, t) == Chip(levels[7], Low, Low, c.shifted + levels, c.latches + [c.shifted + levels])
    ensures Window(Run(c, t).latches[|c.latches|], 8) == levels
  {
    RunFrame(c, levels);
    WindowOfAppend(c.shifted, levels);
  }

  /** ... and the byte it then shows is `code`. */
  lemma ShiftShowsCode(c: Chip, code: bv8)
    requires Idle(c)
    ensures |c.latches| < |Run(c, Hc595Shift(code)).latches|
    ensures |Run(c, Hc595Shift(code)).latches[|c.latches|]| >= 8
    ensures LatchedByte(Run(c, Hc595Shift(code)), |c.latches|) == code as int
  {
    ShiftLatchesCode(c, code);
    RoundTrip(code);
  }

  lemma BlankLevels()
    ensures BitLevels(0x00) == seq(8, _ => Low)
    ensures BitLevels(0xFF) == seq(8, _ => High)
  {
    forall k | 0 <= k < 8
      ensures BitLevels(0x00)[k] == Low && BitLevels(0xFF)[k] == High
    {
      BitLevelsAt(0x00, k);
      BitLevelsAt(0xFF, k);
    }
  }

  /** To the chip, `clear_display` is indistinguishable from shifting out a
      blank byte: 0x00 when `isAnode`, 0xFF otherwise. */
  lemma ClearMatchesShift(c: Chip, isAnode: bool)
    requires Idle(c)
    ensures Run(c, ClearDisplay(isAnode)) == Run(c, Hc595Shift(if isAnode then 0x00 else 0xFF))
  {
    var lvl := if isAnode then Low else High;
    HoldMatchesFrame(c, lvl, 8);
    BlankLevels();
    assert BitLevels(if isAnode then 0x00 else 0xFF) == seq(8, _ => lvl);
  }

  /** `clear_display` leaves an idle chip idle and adds one latch: a copy of
      the register ending in eight blank levels. */
  lemma ClearLatchesBlank(c: Chip, isAnode: bool, blank: bv8)
    requires Idle(c)
    requires blank == if isAnode then 0x00 else 0xFF
    ensures Idle(Run(c, ClearDisplay(isAnode)))
    ensures Run(c, ClearDisplay(isAnode)).latches == c.latches + [c.shifted + BitLevels(blank)]
  {
    ClearMatchesShift(c, isAnode);
    ShiftLatchesCode(c, blank);
  }

  /** After an idle chip's latches from `from` on showed `frames`,
      `clear_display` adds one latch showing the blank code. */
  lemma ClearExtendsShows(c: Chip, from: nat, frames: seq<seq<Level>>, isAnode: bool, blank: bv8)
    requires Idle(c) && ShowsAll(c.latches, from, frames) && from + |frames| == |c.latches|
    requires blank == if isAnode then 0x00 else 0xFF
    ensures Idle(Run(c, ClearDisplay(isAnode)))
    ensures |Run(c, ClearDisplay(isAnode)).latches| == |c.latches| + 1
    ensures ShowsAll(Run(c, ClearDisplay(isAnode)).latches, from, frames + [BitLevels(blank)])
  {
    ClearLatchesBlank(c, isAnode, blank);
    var c' := Run(c, ClearDisplay(isAnode));
    ShowsAllKept(c.latches, [c.shifted + BitLevels(blank)], from, frames);
    WindowOfAppend(c.shifted, BitLevels(blank));
    ShowsAllSnoc(c'.latches, from, frames, BitLevels(blank));
  }
}

/** The high bits discarded by the u8 shift in the bit loop's test are never
    looked at: the same test on a 16-bit shift gives the same level. */
module Hc595Truncation {
  import opened Pins
  import opened Hc595

  lemma ShiftTruncationImmaterial(code: bv8, i: nat)
    requires i < 8
    ensures SdiLevel(code, i) == High <==> 0x80 & ((code as bv16) << i) != 0
  {
  }
}
