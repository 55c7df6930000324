/**
 * The receiving side: a 74HC595 (or a cascade of them) as the datasheet
 * describes it. On a rising edge of SRCLK the level on SDI enters the shift
 * register; on a rising edge of RCLK the shift register is copied to the
 * storage register that drives the outputs.
 *
 * The model keeps every level ever clocked in (`shifted`, oldest first) and a
 * copy of it at every latch (`latches`). A single chip holds the last eight
 * levels of a copy; two cascaded chips hold the last sixteen.
 */
module ShiftRegister {
  import opened Pins
  import opened Serial

  datatype Chip = Chip(sdi: Level, srclk: Level, rclk: Level, shifted: seq<Level>, latches: seq<seq<Level>>)

  /** Both clocks low: the next high write on either clock is an edge. */
  predicate Idle(c: Chip) {
    c.srclk == Low && c.rclk == Low
  }

  function Step(c: Chip, e: Event): Chip {
    match e.line
    case Sdi => c.(sdi := e.level)
    case Srclk =>
      c.(srclk := e.level,
         shifted := if c.srclk == Low && e.level == High then c.shifted + [c.sdi] else c.shifted)
    case Rclk =>
      c.(rclk := e.level,
         latches := if c.rclk == Low && e.level == High then c.latches + [c.shifted] else c.latches)
    case _ => c
  }

  function Run(c: Chip, t: Trace): Chip
    decreases |t|
  {
    if |t| == 0 then c else Run(Step(c, t[0]), t[1..])
  }

  lemma {:induction false} RunAppend(c: Chip, a: Trace, b: Trace)
    ensures Run(c, a + b) == Run(Run(c, a), b)
    decreases |a|
  {
    if |a| == 0 {
      assert a + b == b;
    } else {
      assert (a + b)[1..] == a[1..] + b;
      RunAppend(Step(c, a[0]), a[1..], b);
    }
  }

  /** Writes to lines other than the chip's three leave it as it was. */
  lemma {:induction false} RunIgnoresOtherLines(c: Chip, t: Trace)
    requires Untouched(t, Sdi) && Untouched(t, Srclk) && Untouched(t, Rclk)
    ensures Run(c, t) == c
    decreases |t|
  {
    if |t| > 0 {
      RunIgnoresOtherLines(c, t[1..]);
    }
  }

  /** One SDI write and one SRCLK pulse from a low SRCLK shift that level in. */
  lemma RunOneCycle(c: Chip, l: Level)
    requires c.srclk == Low
    ensures Run(c, [Write(Sdi, l)] + Pulse(Srclk)) == c.(sdi := l, shifted := c.shifted + [l])
  {
  }

  /** The three parts of `a + b + c`, sliced back out. */
  lemma ThreeParts<T>(a: seq<T>, b: seq<T>, c: seq<T>)
    ensures (a + b + c)[..|a|] == a
    ensures (a + b + c)[|a|..|a + b|] == b
    ensures (a + b + c)[|a + b|..] == c
  {
    assert a + b + c == a + (b + c);
  }

  lemma AppendSuffix<T>(s: seq<T>, t: seq<T>, i: nat)
    requires i < |t|
    ensures s + [t[i]] + t[i + 1..] == s + t[i..]
  {
    assert [t[i]] + t[i + 1..] == t[i..];
  }

  /** Clocking `levels[i..]` in from a low SRCLK appends exactly those levels
      to the shift register, in order, and leaves SRCLK low. */
  lemma {:induction false} RunCycles(c: Chip, levels: seq<Level>, i: nat)
    requires i <= |levels| && c.srclk == Low
    ensures Run(c, Cycles(levels, i))
         == c.(sdi := if i < |levels| then levels[|levels| - 1] else c.sdi,
               shifted := c.shifted + levels[i..])
    decreases |levels| - i
  {
    if i == |levels| {
      assert c.shifted + levels[i..] == c.shifted;
    } else {
      RunAppend(c, [Write(Sdi, levels[i])] + Pulse(Srclk), Cycles(levels, i + 1));
      RunOneCycle(c, levels[i]);
      RunCycles(c.(sdi := levels[i], shifted := c.shifted + [levels[i]]), levels, i + 1);
      AppendSuffix(c.shifted, levels, i);
    }
  }

  /** An idle chip that receives `Frame(levels)` ends idle, with `levels`
      appended to its shift register and that register latched once. */
  lemma RunFrame(c: Chip, levels: seq<Level>)
    requires Idle(c) && |levels| > 0
    ensures Run(c, Frame(levels))
         == Chip(levels[|levels| - 1], Low, Low, c.shifted + levels, c.latches + [c.shifted + levels])
  {
    RunAppend(c, Cycles(levels, 0), Pulse(Rclk));
    RunCycles(c, levels, 0);
    assert levels[0..] == levels;
  }

  /** SRCLK pulses with a fixed SDI level shift that level in once each. */
  lemma {:induction false} RunPulses(c: Chip, n: nat)
    requires c.srclk == Low
    ensures Run(c, Pulses(Srclk, n)) == c.(shifted := c.shifted + seq(n, _ => c.sdi))
    decreases n
  {
    if n > 0 {
      RunAppend(c, Pulse(Srclk), Pulses(Srclk, n - 1));
      var c1 := c.(shifted := c.shifted + [c.sdi]);
      assert Run(c, Pulse(Srclk)) == c1;
      RunPulses(c1, n - 1);
      assert c.shifted + [c.sdi] + seq(n - 1, _ => c.sdi) == c.shifted + seq(n, _ => c.sdi);
    } else {
      assert c.shifted + seq(0, _ => c.sdi) == c.shifted;
    }
  }

  /** Holding one SDI level across `n` SRCLK pulses and latching is, to an
      idle chip, the same as clocking in a frame of `n` copies of that level. */
  lemma HoldMatchesFrame(c: Chip, lvl: Level, n: nat)
    requires Idle(c) && n > 0
    ensures Run(c, [Write(Sdi, lvl)] + Pulses(Srclk, n) + Pulse(Rclk)) == Run(c, Frame(seq(n, _ => lvl)))
  {
    var set1 := [Write(Sdi, lvl)];
    RunAppend(c, set1 + Pulses(Srclk, n), Pulse(Rclk));
    RunAppend(c, set1, Pulses(Srclk, n));
    var c1 := c.(sdi := lvl);
    assert Run(c, set1) == c1;
    RunPulses(c1, n);
    RunFrame(c, seq(n, _ => lvl));
  }

  /** From latch `from` on, the register contents after consecutive latches
      end in the consecutive `frames`. */
  predicate ShowsAll(latches: seq<seq<Level>>, from: nat, frames: seq<seq<Level>>) {
    && from + |frames| <= |latches|
    && forall k :: 0 <= k < |frames| ==>
         |latches[from + k]| >= |frames[k]| && Window(latches[from + k], |frames[k]|) == frames[k]
  }

  lemma ShowsAllCons(latches: seq<seq<Level>>, from: nat, frames: seq<seq<Level>>)
    requires |frames| > 0
    requires from < |latches| && |latches[from]| >= |frames[0]| && Window(latches[from], |frames[0]|) == frames[0]
    requires ShowsAll(latches, from + 1, frames[1..])
    ensures ShowsAll(latches, from, frames)
  {
    forall k | 0 <= k < |frames|
      ensures |latches[from + k]| >= |frames[k]| && Window(latches[from + k], |frames[k]|) == frames[k]
    {
      if k > 0 {
        assert frames[1..][k - 1] == frames[k];
      }
    }
  }

  /** An idle chip that receives frames back to back latches once per frame,
      in order, each latch holding that frame in its last positions; earlier
      latches are kept and the chip ends idle. */
  lemma {:induction false} RunShowFrames(c: Chip, frames: seq<seq<Level>>)
    requires Idle(c)
    requires forall k :: 0 <= k < |frames| ==> |frames[k]| > 0
    ensures Idle(Run(c, ShowFrames(frames)))
    ensures |Run(c, ShowFrames(frames)).latches| == |c.latches| + |frames|
    ensures Run(c, ShowFrames(frames)).latches[..|c.latches|] == c.latches
    ensures ShowsAll(Run(c, ShowFrames(frames)).latches, |c.latches|, frames)
    decreases |frames|
  {
    if |frames| > 0 {
      var f := frames[0];
      RunAppend(c, Frame(f), ShowFrames(frames[1..]));
      RunFrame(c, f);
      var c1 := Run(c, Frame(f));
      RunShowFrames(c1, frames[1..]);
      var c' := Run(c1, ShowFrames(frames[1..]));
      var n := |c.latches|;
      PrefixOfSnoc(c'.latches, c.latches, c.shifted + f);
      ShowsAllCons(c'.latches, n, frames);
    } else {
      assert c.latches[..|c.latches|] == c.latches;
    }
  }

  lemma PrefixOfSnoc<T>(s: seq<T>, p: seq<T>, x: T)
    requires |s| > |p| && s[..|p| + 1] == p + [x]
    ensures s[..|p|] == p && s[|p|] == x
  {
    assert s[..|p|] == s[..|p| + 1][..|p|];
    assert s[|p|] == s[..|p| + 1][|p|];
  }

  /** One more latch showing `f` extends the run of frames by `f`. */
  lemma ShowsAllSnoc(latches: seq<seq<Level>>, from: nat, frames: seq<seq<Level>>, f: seq<Level>)
    requires ShowsAll(latches, from, frames)
    requires from + |frames| < |latches|
    requires |latches[from + |frames|]| >= |f| && Window(latches[from + |frames|], |f|) == f
    ensures ShowsAll(latches, from, frames + [f])
  {
    var all := frames + [f];
    forall k | 0 <= k < |all|
      ensures |latches[from + k]| >= |all[k]| && Window(latches[from + k], |all[k]|) == all[k]
    {
      if k < |frames| {
        assert all[k] == frames[k];
      }
    }
  }

  /** Two consecutive runs of frames make one. */
  lemma ShowsAllConcat(latches: seq<seq<Level>>, from: nat, f1: seq<seq<Level>>, f2: seq<seq<Level>>)
    requires ShowsAll(latches, from, f1) && ShowsAll(latches, from + |f1|, f2)
    ensures ShowsAll(latches, from, f1 + f2)
  {
    var all := f1 + f2;
    forall k | 0 <= k < |all|
      ensures |latches[from + k]| >= |all[k]| && Window(latches[from + k], |all[k]|) == all[k]
    {
      if k < |f1| {
        assert all[k] == f1[k];
      } else {
        assert all[k] == f2[k - |f1|];
      }
    }
  }

  /** What an earlier prefix of the latches showed, the whole still shows. */
  lemma ShowsAllPrefix(l1: seq<seq<Level>>, l2: seq<seq<Level>>, from: nat, frames: seq<seq<Level>>)
    requires |l1| <= |l2| && l2[..|l1|] == l1
    requires ShowsAll(l1, from, frames)
    ensures ShowsAll(l2, from, frames)
  {
    forall j | from <= j < from + |frames|
      ensures l2[j] == l1[j]
    {
      assert l2[..|l1|][j] == l2[j];
    }
  }

  /** Frames shown by an earlier prefix of the latches, followed by frames
      shown by the later latches, make one run. */
  lemma ShowsAllThen(l1: seq<seq<Level>>, l2: seq<seq<Level>>, from: nat, f1: seq<seq<Level>>, f2: seq<seq<Level>>)
    requires |l1| <= |l2| && l2[..|l1|] == l1
    requires ShowsAll(l1, from, f1) && ShowsAll(l2, from + |f1|, f2)
    ensures ShowsAll(l2, from, f1 + f2)
  {
    ShowsAllPrefix(l1, l2, from, f1);
    ShowsAllConcat(l2, from, f1, f2);
  }

  /** The register copy the outputs show: the one latched last (none, and
      so empty, before the first latch). */
  function EndLatch(c: Chip): seq<Level> {
    if |c.latches| == 0 then [] else c.latches[|c.latches| - 1]
  }

  /** From the idle chip `c`, trace `t` leaves the chip idle having latched
      exactly the frames `f`, one after another. */
  predicate LatchesFrames(c: Chip, t: Trace, f: seq<seq<Level>>) {
    Idle(Run(c, t)) &&
    |Run(c, t).latches| == |c.latches| + |f| &&
    ShowsAll(Run(c, t).latches, |c.latches|, f)
  }

  /** A trace that latches two frames leaves the second one on the outputs. */
  lemma EndLatchOfTwo(c: Chip, t: Trace, f0: seq<Level>, f1: seq<Level>)
    requires LatchesFrames(c, t, [f0] + [f1])
    ensures |Run(c, t).latches| == |c.latches| + 2
    ensures |EndLatch(Run(c, t))| >= |f1| && Window(EndLatch(Run(c, t)), |f1|) == f1
  {
    assert ([f0] + [f1])[1] == f1;
  }

  /** Two traces run back to back latch the frames of the first, then the
      frames of the second. */
  lemma LatchesThen(c: Chip, t1: Trace, t2: Trace, f1: seq<seq<Level>>, f2: seq<seq<Level>>)
    requires LatchesFrames(c, t1, f1) && LatchesFrames(Run(c, t1), t2, f2)
    ensures LatchesFrames(c, t1 + t2, f1 + f2)
  {
    var c1 := Run(c, t1);
    RunAppend(c, t1, t2);
    RunExtendsLatches(c1, t2);
    ShowsAllThen(c1.latches, Run(c1, t2).latches, |c.latches|, f1, f2);
  }

  /** `t` sent `n` times in a row. */
  function Repeat(t: Trace, n: nat): Trace {
    if n == 0 then [] else Repeat(t, n - 1) + t
  }

  lemma {:induction false} RepeatLength(t: Trace, n: nat)
    ensures |Repeat(t, n)| == n * |t|
  {
    if n > 0 {
      RepeatLength(t, n - 1);
    }
  }

  /** A trace that takes every idle chip to an idle chip does so however
      often it is repeated. */
  lemma {:induction false} RepeatIdle(c: Chip, t: Trace, n: nat)
    requires Idle(c)
    requires forall c' :: Idle(c') ==> Idle(Run(c', t))
    ensures Idle(Run(c, Repeat(t, n)))
  {
    if n > 0 {
      RunAppend(c, Repeat(t, n - 1), t);
      RepeatIdle(c, t, n - 1);
    }
  }

  /** Running a repeated trace is running all but one copy, then the last. */
  lemma RepeatLast(c: Chip, t: Trace, n: nat)
    requires n > 0
    ensures Run(c, Repeat(t, n)) == Run(Run(c, Repeat(t, n - 1)), t)
  {
    RunAppend(c, Repeat(t, n - 1), t);
  }

  /** A trace that takes every idle chip to an idle chip with `w` last in
      its register, repeated at least once, does the same. */
  lemma RepeatEndsWith(c: Chip, t: Trace, n: nat, w: seq<Level>)
    requires Idle(c) && n > 0
    requires forall c' :: Idle(c') ==> Idle(Run(c', t))
    requires forall c' :: Idle(c') ==>
      |Run(c', t).shifted| >= |w| && Window(Run(c', t).shifted, |w|) == w
    ensures Idle(Run(c, Repeat(t, n)))
    ensures |Run(c, Repeat(t, n)).shifted| >= |w|
    ensures Window(Run(c, Repeat(t, n)).shifted, |w|) == w
  {
    RepeatLast(c, t, n);
    RepeatIdle(c, t, n - 1);
  }

  /** The first copy of a repeated trace comes first. */
  lemma {:induction false} RepeatFront(t: Trace, n: nat)
    requires n > 0
    ensures Repeat(t, n) == t + Repeat(t, n - 1)
  {
    if n > 1 {
      RepeatFront(t, n - 1);
      assert Repeat(t, n) == t + Repeat(t, n - 2) + t;
    }
  }

  /** Latches are only ever appended: whatever a chip receives, every
      earlier latch keeps its contents. */
  lemma {:induction false} RunExtendsLatches(c: Chip, t: Trace)
    ensures |Run(c, t).latches| >= |c.latches|
    ensures Run(c, t).latches[..|c.latches|] == c.latches
    decreases |t|
  {
    if |t| == 0 {
      assert c.latches[..|c.latches|] == c.latches;
    } else {
      var c1 := Step(c, t[0]);
      RunExtendsLatches(c1, t[1..]);
      assert |c1.latches| >= |c.latches| && c1.latches[..|c.latches|] == c.latches;
      var l := Run(c, t).latches;
      assert l[..|c.latches|] == l[..|c1.latches|][..|c.latches|];
    }
  }

  /** Latch `i` of a trace is latch `i` of any longer trace it begins. */
  lemma LatchKept(c: Chip, t1: Trace, t2: Trace, i: nat)
    requires i < |Run(c, t1).latches|
    ensures i < |Run(c, t1 + t2).latches|
    ensures Run(c, t1 + t2).latches[i] == Run(c, t1).latches[i]
  {
    var c1 := Run(c, t1);
    RunAppend(c, t1, t2);
    RunExtendsLatches(c1, t2);
    var l := Run(c1, t2).latches;
    assert l[i] == l[..|c1.latches|][i];
  }

  /** What the first copy of a repeated trace latched stays on record,
      whatever follows. */
  lemma RepeatKeepsFirst(c: Chip, t: Trace, n: nat, after: Trace, i: nat)
    requires n > 0 && i < |Run(c, t).latches|
    ensures i < |Run(c, Repeat(t, n) + after).latches|
    ensures Run(c, Repeat(t, n) + after).latches[i] == Run(c, t).latches[i]
  {
    RepeatFront(t, n);
    assert Repeat(t, n) + after == t + (Repeat(t, n - 1) + after);
    LatchKept(c, t, Repeat(t, n - 1) + after, i);
  }

  /** A frame clocked into an idle chip that has latched nothing since
      `from` starts a run of frames there. */
  lemma FrameStartsShows(c: Chip, from: nat, f: seq<Level>)
    requires Idle(c) && |f| > 0 && from == |c.latches|
    ensures Idle(Run(c, Frame(f)))
    ensures |Run(c, Frame(f)).latches| == |c.latches| + 1
    ensures ShowsAll(Run(c, Frame(f)).latches, from, [f])
  {
    FrameExtendsShows(c, from, [], f);
    assert [] + [f] == [f];
  }

  /** Extending a run of frames by one more frame clocked in and latched. */
  lemma FrameExtendsShows(c: Chip, from: nat, frames: seq<seq<Level>>, f: seq<Level>)
    requires Idle(c) && |f| > 0
    requires ShowsAll(c.latches, from, frames) && from + |frames| == |c.latches|
    ensures Idle(Run(c, Frame(f)))
    ensures |Run(c, Frame(f)).latches| == |c.latches| + 1
    ensures ShowsAll(Run(c, Frame(f)).latches, from, frames + [f])
  {
    RunFrame(c, f);
    var c' := Run(c, Frame(f));
    ShowsAllKept(c.latches, [c.shifted + f], from, frames);
    WindowOfAppend(c.shifted, f);
    ShowsAllSnoc(c'.latches, from, frames, f);
  }

  /** Latches are only ever added: a run keeps every earlier latch. */
  lemma ShowsAllKept(latches: seq<seq<Level>>, more: seq<seq<Level>>, from: nat, frames: seq<seq<Level>>)
    requires ShowsAll(latches, from, frames)
    ensures ShowsAll(latches + more, from, frames)
  {
    forall j | from <= j < from + |frames|
      ensures (latches + more)[j] == latches[j]
    {
    }
  }

  function Pow2(n: nat): (r: nat)
    ensures r >= 1
  {
    if n == 0 then 1 else 2 * Pow2(n - 1)
  }

  function BitValue(l: Level): nat {
    if l == High then 1 else 0
  }

  /** The number `levels` spell, most significant first: what a register
      holds after they were shifted into it one by one. */
  function ByteOf(levels: seq<Level>): (r: nat)
    ensures r < Pow2(|levels|)
  {
    if |levels| == 0 then 0
    else 2 * ByteOf(levels[..|levels| - 1]) + BitValue(levels[|levels| - 1])
  }

  /** The last `w` levels of `s`: what a `w`-bit register holds. */
  function Window(s: seq<Level>, w: nat): (r: seq<Level>)
    requires |s| >= w
    ensures |r| == w
  {
    s[|s| - w..]
  }

  /** Whatever was clocked in before, a register as wide as the last
      levels clocked in holds exactly those. */
  lemma WindowOfAppend(s: seq<Level>, t: seq<Level>)
    ensures Window(s + t, |t|) == t
  {
  }

  /** The byte a single chip shows once latch `k` has happened. */
  function LatchedByte(c: Chip, k: nat): nat
    requires k < |c.latches| && |c.latches[k]| >= 8
  {
    ByteOf(Window(c.latches[k], 8))
  }

  /** A register narrower than `w` levels holds the last levels of what a
      `w`-level register holds. */
  lemma WindowTail(s: seq<Level>, w: nat, v: nat)
    requires v <= w <= |s|
    ensures Window(s, v) == Window(s, w)[w - v..]
  {
  }

  /** Shifting eight more levels in pushes the eight newest old levels
      onward: a sixteen-level register then holds those, then the new ones. */
  lemma WindowShift(s: seq<Level>, t: seq<Level>)
    requires |s| >= 8 && |t| == 8
    ensures Window(s + t, 16) == Window(s, 8) + t
  {
    assert (s + t)[|s + t| - 16..] == s[|s| - 8..] + t;
  }

  /** Two chips in cascade: the one SDI feeds holds the last eight levels
      of a register copy, the one its serial output feeds the eight before. */
  function NearChip(latch: seq<Level>): (r: seq<Level>)
    requires |latch| >= 16
    ensures r == Window(latch, 16)[8..]
  {
    WindowTail(latch, 16, 8);
    Window(latch, 8)
  }

  function FarChip(latch: seq<Level>): seq<Level>
    requires |latch| >= 16
  {
    Window(latch, 16)[..8]
  }

  /** A latch whose sixteen newest levels are `far + near` shows `far` on
      the far chip and `near` on the near one. */
  lemma CascadeSplit(latch: seq<Level>, far: seq<Level>, near: seq<Level>)
    requires |latch| >= 16 && |far| == 8 && |near| == 8
    requires Window(latch, 16) == far + near
    ensures FarChip(latch) == far && NearChip(latch) == near
  {
    assert (far + near)[..8] == far && (far + near)[8..] == near;
  }

  /** After frames are sent to an idle chip, its shift register ends with
      the last frame's levels. */
  lemma {:induction false} ShowFramesEnd(c: Chip, frames: seq<seq<Level>>)
    requires Idle(c) && |frames| > 0
    requires forall k :: 0 <= k < |frames| ==> |frames[k]| > 0
    ensures Idle(Run(c, ShowFrames(frames)))
    ensures |Run(c, ShowFrames(frames)).shifted| >= |frames[|frames| - 1]|
    ensures Window(Run(c, ShowFrames(frames)).shifted, |frames[|frames| - 1]|) == frames[|frames| - 1]
    decreases |frames|
  {
    var f := frames[0];
    RunAppend(c, Frame(f), ShowFrames(frames[1..]));
    RunFrame(c, f);
    if |frames| == 1 {
      assert ShowFrames(frames[1..]) == [];
      WindowOfAppend(c.shifted, f);
    } else {
      ShowFramesEnd(Run(c, Frame(f)), frames[1..]);
    }
  }
}
