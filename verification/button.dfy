/**
 * `button` of `src/input.rs`: an LED driven high at start, then flipped on
 * every falling edge the input reports. The routine loops forever; the model
 * takes the results of any finite number of `poll_interrupt` calls.
 */
module Button {
  import opened Pins

  /** One result of `poll_interrupt`: an edge was seen (`Ok`), or the call
      failed (`Err`), in which case the error is only printed. */
  datatype Poll = Edge | PollError

  /** How the indicator answers one poll result. */
  function Respond(level: Level, p: Poll): (r: Level)
    ensures r != level <==> p == Edge
  {
    match p
    case Edge => Toggle(level)
    case PollError => level
  }

  /** The indicator level after answering `polls` in order from `start`. */
  function LevelAfterPolls(start: Level, polls: seq<Poll>): (r: Level)
    ensures Edges(polls) == 0 ==> r == start
    decreases |polls|
  {
    assert |polls| > 0 ==> polls == [polls[0]] + polls[1..];
    if |polls| == 0 then start else LevelAfterPolls(Respond(start, polls[0]), polls[1..])
  }

  /** The indicator level of `button` once `polls` have been answered: it
      is set high before the loop starts. */
  function ButtonLevel(polls: seq<Poll>): (r: Level)
    ensures |polls| == 0 ==> r == High
  {
    LevelAfterPolls(High, polls)
  }

  /** The number of successful polls. */
  function Edges(polls: seq<Poll>): nat {
    multiset(polls)[Edge]
  }

  /** The writes to the indicator that answer `polls` from `level`: one
      toggle per edge, nothing for an error. */
  function Responses(level: Level, polls: seq<Poll>): (r: Trace)
    ensures |r| == Edges(polls)
    ensures forall j :: 0 <= j < |r| ==> r[j].line == Indicator
    decreases |polls|
  {
    if |polls| == 0 then []
    else
      assert polls == [polls[0]] + polls[1..];
      var rest := Responses(Respond(level, polls[0]), polls[1..]);
      if polls[0] == Edge then [Write(Indicator, Toggle(level))] + rest else rest
  }

  /** The indicator writes of `button`: `set_high`, then the answers. */
  function ButtonTrace(polls: seq<Poll>): (r: Trace)
    ensures |r| == 1 + Edges(polls)
    ensures r[0] == Write(Indicator, High)
    ensures forall j :: 0 <= j < |r| ==> r[j].line == Indicator
  {
    [Write(Indicator, High)] + Responses(High, polls)
  }

  /** From any start, the level flips exactly when an odd number of the
      polls succeeded; errors count for nothing. */
  lemma {:induction false} ParityFrom(start: Level, polls: seq<Poll>)
    ensures LevelAfterPolls(start, polls) == if Edges(polls) % 2 == 0 then start else Toggle(start)
    decreases |polls|
  {
    if |polls| > 0 {
      assert polls == [polls[0]] + polls[1..];
      ParityFrom(Respond(start, polls[0]), polls[1..]);
      ToggleTwice(start);
    }
  }

  /** The indicator is high exactly when an even number of polls succeeded. */
  lemma ButtonParity(polls: seq<Poll>)
    ensures ButtonLevel(polls) == High <==> Edges(polls) % 2 == 0
  {
    ParityFrom(High, polls);
  }

  /** One more successful poll flips the indicator; one more failed poll
      leaves it as it was. */
  lemma {:induction false} LevelAfterSnoc(start: Level, polls: seq<Poll>, p: Poll)
    ensures LevelAfterPolls(start, polls + [p]) == Respond(LevelAfterPolls(start, polls), p)
    decreases |polls|
  {
    if |polls| == 0 {
      assert polls + [p] == [p];
    } else {
      assert (polls + [p])[1..] == polls[1..] + [p];
      LevelAfterSnoc(Respond(start, polls[0]), polls[1..], p);
    }
  }

  /** Answering an edge toggles the indicator; an error leaves it unchanged;
      two edges in a row restore it. */
  lemma ButtonStep(polls: seq<Poll>)
    ensures ButtonLevel(polls + [Edge]) == Toggle(ButtonLevel(polls))
    ensures ButtonLevel(polls + [PollError]) == ButtonLevel(polls)
    ensures ButtonLevel(polls + [Edge, Edge]) == ButtonLevel(polls)
  {
    LevelAfterSnoc(High, polls, Edge);
    LevelAfterSnoc(High, polls, PollError);
    LevelAfterSnoc(High, polls + [Edge], Edge);
    assert polls + [Edge] + [Edge] == polls + [Edge, Edge];
    ToggleTwice(ButtonLevel(polls));
  }

  /** Reading the written indicator level back from the answers gives the
      state machine's level. */
  lemma {:induction false} ResponsesLevel(level: Level, polls: seq<Poll>)
    ensures LevelAfter(Responses(level, polls), Indicator, level) == LevelAfterPolls(level, polls)
    decreases |polls|
  {
    if |polls| > 0 {
      var next := Respond(level, polls[0]);
      var rest := Responses(next, polls[1..]);
      ResponsesLevel(next, polls[1..]);
      if polls[0] == Edge {
        LevelAfterAppend([Write(Indicator, Toggle(level))], rest, Indicator, level);
      }
    }
  }

  /** Whatever the line showed before, after `button`'s writes the
      indicator shows the state machine's level. */
  lemma ButtonTraceLevel(polls: seq<Poll>, before: Level)
    ensures LevelAfter(ButtonTrace(polls), Indicator, before) == ButtonLevel(polls)
  {
    LevelAfterAppend([Write(Indicator, High)], Responses(High, polls), Indicator, before);
    ResponsesLevel(High, polls);
  }
}
