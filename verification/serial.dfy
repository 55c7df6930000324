/**
 * The wire protocol a 74HC595 expects, independent of where the levels come
 * from: each level is put on SDI and clocked in by one SRCLK pulse; one RCLK
 * pulse then copies the shift register to the outputs.
 */
module Serial {
  import opened Pins

  /** Event `p` of the clocking of `levels`: per level, the SDI write, then
      SRCLK going high, then SRCLK going low. */
  function CycleEvent(levels: seq<Level>, p: nat): Event
    requires p < 3 * |levels|
  {
    if p % 3 == 0 then Write(Sdi, levels[p / 3])
    else if p % 3 == 1 then Write(Srclk, High)
    else Write(Srclk, Low)
  }

  /** Clocks `levels[i..]` in, one SDI write and one SRCLK pulse per level. */
  function Cycles(levels: seq<Level>, i: nat): (r: Trace)
    requires i <= |levels|
    ensures |r| == 3 * (|levels| - i)
    ensures forall j :: 0 <= j < |r| ==> r[j] == CycleEvent(levels, 3 * i + j)
    decreases |levels| - i
  {
    if i == |levels| then []
    else
      var rest := Cycles(levels, i + 1);
      var r := [Write(Sdi, levels[i])] + Pulse(Srclk) + rest;
      forall j | 3 <= j < |r|
        ensures r[j] == CycleEvent(levels, 3 * i + j)
      {
        assert r[j] == rest[j - 3];
      }
      r
  }

  /** Clocks `levels` in and latches them. Every pulse goes high then low,
      so both clocks are low at the end, whatever they were before. */
  function Frame(levels: seq<Level>): (r: Trace)
    ensures |r| == 3 * |levels| + 2
    ensures forall j :: 0 <= j < 3 * |levels| ==> r[j] == CycleEvent(levels, j)
    ensures r[3 * |levels|] == Write(Rclk, High) && r[3 * |levels| + 1] == Write(Rclk, Low)
    ensures forall x :: LevelAfter(r, Srclk, x) == LevelAfter(Cycles(levels, 0), Srclk, x)
    ensures forall x :: LevelAfter(r, Rclk, x) == Low
  {
    var body := Cycles(levels, 0);
    var r := body + Pulse(Rclk);
    forall x
      ensures LevelAfter(r, Srclk, x) == LevelAfter(body, Srclk, x)
      ensures LevelAfter(r, Rclk, x) == Low
    {
      LevelAfterAppend(body, Pulse(Rclk), Srclk, x);
      LevelAfterUntouched(Pulse(Rclk), Srclk, LevelAfter(body, Srclk, x));
      LevelAfterLastWrite(r, Rclk, Low, x);
    }
    r
  }

  /** After clocking at least one level, SRCLK is low. */
  lemma CyclesEndLow(levels: seq<Level>, x: Level)
    requires |levels| > 0
    ensures LevelAfter(Cycles(levels, 0), Srclk, x) == Low
  {
    var t := Cycles(levels, 0);
    assert t[|t| - 1] == CycleEvent(levels, 3 * |levels| - 1);
    LevelAfterLastWrite(t, Srclk, Low, x);
  }

  /** Before the i-th SRCLK pulse of a frame, SDI is set to the i-th level. */
  lemma FrameCycleAt(levels: seq<Level>)
    ensures forall i :: 0 <= i < |levels| ==>
      Frame(levels)[3 * i] == Write(Sdi, levels[i]) &&
      Frame(levels)[3 * i + 1] == Write(Srclk, High) &&
      Frame(levels)[3 * i + 2] == Write(Srclk, Low)
  {
    forall i | 0 <= i < |levels|
      ensures Frame(levels)[3 * i] == Write(Sdi, levels[i])
      ensures Frame(levels)[3 * i + 1] == Write(Srclk, High)
      ensures Frame(levels)[3 * i + 2] == Write(Srclk, Low)
    {
      assert CycleEvent(levels, 3 * i) == Write(Sdi, levels[i]);
      assert CycleEvent(levels, 3 * i + 1) == Write(Srclk, High);
      assert CycleEvent(levels, 3 * i + 2) == Write(Srclk, Low);
    }
  }

  /** A frame writes only SDI, SRCLK and RCLK. */
  lemma FrameUntouched(levels: seq<Level>, line: Line)
    requires line != Sdi && line != Srclk && line != Rclk
    ensures Untouched(Frame(levels), line)
  {
  }

  /** Frames sent back to back, each clocked in and latched. */
  function ShowFrames(frames: seq<seq<Level>>): (r: Trace)
    requires forall k :: 0 <= k < |frames| ==> |frames[k]| > 0
  {
    if |frames| == 0 then [] else Frame(frames[0]) + ShowFrames(frames[1..])
  }

  /** Clocking `a` in and then `b` is clocking `a + b` in. */
  lemma CyclesConcat(a: seq<Level>, b: seq<Level>)
    ensures Cycles(a, 0) + Cycles(b, 0) == Cycles(a + b, 0)
  {
    var l := Cycles(a, 0) + Cycles(b, 0);
    var r := Cycles(a + b, 0);
    forall j | 0 <= j < |r|
      ensures l[j] == r[j]
    {
      if j < 3 * |a| {
        assert (a + b)[j / 3] == a[j / 3];
      } else {
        var j' := j - 3 * |a|;
        assert j' % 3 == j % 3 && j' / 3 == j / 3 - |a|;
        assert (a + b)[j / 3] == b[j' / 3];
      }
    }
  }
}
