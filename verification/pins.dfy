/**
 * Digital output lines reduced to what a trace can observe: the sequence of
 * levels written to each named line. Sleeps between writes carry no
 * information here and are dropped, so a pulse is just "high, then low".
 */
module Pins {

  datatype Level = Low | High

  /** The output lines driven by the display and button routines.
      `Place(k)` is the k-th digit-select line of the four-digit display;
      `Indicator` is the LED the button toggles. */
  datatype Line = Sdi | Srclk | Rclk | Place(k: nat) | Indicator

  datatype Event = Write(line: Line, level: Level)

  type Trace = seq<Event>

  /** How a routine ended: it ran to completion, or it panicked (an array
      index out of bounds) after emitting `trace`. */
  datatype Exec = Completed(trace: Trace) | Panicked(trace: Trace)

  function LevelOf(b: bool): Level {
    if b then High else Low
  }

  /** `OutputPin::toggle`: flips the level. */
  function Toggle(l: Level): (r: Level)
    ensures r != l
  {
    if l == High then Low else High
  }

  /** Two toggles restore the level. */
  lemma ToggleTwice(l: Level)
    ensures Toggle(Toggle(l)) == l
  {
  }

  /** `turn_high_and_low`: one pulse on `line`. It writes only `line`,
      high first, and leaves it low whatever it showed before. */
  function Pulse(line: Line): (r: Trace)
    ensures |r| == 2 && r[0].level == High
    ensures forall j :: 0 <= j < |r| ==> r[j].line == line
    ensures r[1].level == Low
  {
    [Write(line, High), Write(line, Low)]
  }

  /** `n` consecutive pulses on `line`: the line alternates high and low,
      starting high and ending low. */
  function Pulses(line: Line, n: nat): (t: Trace)
    ensures |t| == 2 * n
    ensures forall j :: 0 <= j < |t| ==> t[j] == Write(line, if j % 2 == 0 then High else Low)
  {
    if n == 0 then [] else Pulse(line) + Pulses(line, n - 1)
  }

  /** The level `line` shows after `t` has been written, given it showed
      `before` first: the last write to it, if any. */
  function LevelAfter(t: Trace, line: Line, before: Level): Level {
    if |t| == 0 then before
    else LevelAfter(t[1..], line, if t[0].line == line then t[0].level else before)
  }

  predicate Untouched(t: Trace, line: Line) {
    forall j :: 0 <= j < |t| ==> t[j].line != line
  }

  lemma {:induction false} LevelAfterAppend(a: Trace, b: Trace, line: Line, before: Level)
    ensures LevelAfter(a + b, line, before) == LevelAfter(b, line, LevelAfter(a, line, before))
    decreases |a|
  {
    if |a| == 0 {
      assert a + b == b;
    } else {
      assert (a + b)[1..] == a[1..] + b;
      LevelAfterAppend(a[1..], b, line, if a[0].line == line then a[0].level else before);
    }
  }

  lemma {:induction false} LevelAfterUntouched(t: Trace, line: Line, before: Level)
    requires Untouched(t, line)
    ensures LevelAfter(t, line, before) == before
    decreases |t|
  {
    if |t| > 0 {
      LevelAfterUntouched(t[1..], line, before);
    }
  }

  /** A trace whose last write to `line` is `l` leaves it at `l`, whatever it showed before. */
  lemma {:induction false} LevelAfterLastWrite(t: Trace, line: Line, l: Level, before: Level)
    requires |t| > 0 && t[|t| - 1] == Write(line, l)
    ensures LevelAfter(t, line, before) == l
  {
    var init := t[..|t| - 1];
    assert t == init + [t[|t| - 1]];
    LevelAfterAppend(init, [t[|t| - 1]], line, before);
  }
}
