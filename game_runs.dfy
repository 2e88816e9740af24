/**
 * The state machine driven by sequences of browser events: one step per
 * event, runs of steps, and what holds over a whole run: records never go
 * down, the records to beat stay fixed until the next start, and a game ends
 * at most once.
 */
module GameRuns {
  import opened Wrappers
  import opened Settings
  import opened Grid
  import opened GameSpec
  import opened GameProperties

  /** The handler an event runs. */
  function Step(s: State, e: Event): (r: State)
    requires Inv(s) && Enabled(s, e)
    ensures Inv(r)
  {
    match e
    case Click(tile, now) =>
      HandleTileClickPreservesInv(s, tile, now);
      HandleTileClick(s, tile, now)
    case Frame(now) =>
      UpdateProgressPreservesInv(s, now);
      UpdateProgress(s, now)
    case AdvanceDue(due, oddIndex, now) =>
      AdvanceFiredPreservesInv(s, due, oddIndex, now);
      AdvanceFired(s, due, oddIndex, now)
    case StartTimerDue(due, now) =>
      StartTimerFiredPreservesInv(s, due, now);
      StartTimerFired(s, due, now)
    case Start(d, oddIndex, now) =>
      StartGamePreservesInv(s, d, oddIndex, now);
      StartGame(s, d, oddIndex, now)
  }

  /** Every event of the sequence is enabled in the state it meets. */
  predicate RunEnabled(s: State, events: seq<Event>)
    requires Inv(s)
    decreases |events|
  {
    events == [] || (Enabled(s, events[0]) && RunEnabled(Step(s, events[0]), events[1..]))
  }

  /** The state after a sequence of events; the invariant holds all along. */
  function Run(s: State, events: seq<Event>): (r: State)
    requires Inv(s) && RunEnabled(s, events)
    ensures Inv(r)
    decreases |events|
  {
    if events == [] then s else Run(Step(s, events[0]), events[1..])
  }

  /** How many steps of the run end a game (take it from playing to not playing). */
  function GameOvers(s: State, events: seq<Event>): nat
    requires Inv(s) && RunEnabled(s, events)
    decreases |events|
  {
    if events == [] then 0
    else
      var next := Step(s, events[0]);
      (if s.isPlaying && !next.isPlaying then 1 else 0) + GameOvers(next, events[1..])
  }

  predicate NoStart(events: seq<Event>)
  {
    forall i :: 0 <= i < |events| ==> !events[i].Start?
  }

  /** No record of any difficulty goes down. */
  predicate RecordsKept(s: State, r: State)
  {
    forall d: Difficulty :: r.highScores.Get(d) >= s.highScores.Get(d)
  }

  // ------------------------------------------------------------ one step

  lemma StepKeepsHighScores(s: State, e: Event)
    requires Inv(s) && Enabled(s, e)
    ensures RecordsKept(s, Step(s, e))
  {
    match e
    case Click(tile, now) =>
      if Accepts(s, tile) {
        if s.tiles[tile.value] == DifferentColor {
          CorrectClickEffect(s, tile.value, now);
        } else {
          WrongClickEffect(s, tile.value, now);
          var c := s.(processingClick := true, clickedClass := s.clickedClass + {tile.value});
          EndGameShape(c.(clickedTiles := c.clickedTiles + {tile.value}));
        }
      }
    case Frame(now) =>
      if s.isPlaying {
        FrameEffect(s, now);
        EndGameShape(ShowTimeLeft(s.(framePending := false), now));
      }
    case AdvanceDue(_, _, _) =>
    case StartTimerDue(_, _) =>
    case Start(_, _, _) =>
  }

  /** Only a start changes the difficulty and the records to beat. */
  lemma StepKeepsSnapshot(s: State, e: Event)
    requires Inv(s) && Enabled(s, e) && !e.Start?
    ensures var r := Step(s, e);
      r.difficulty == s.difficulty && r.previousBestScore == s.previousBestScore
      && r.previousBestTime == s.previousBestTime
  {
    match e
    case Click(tile, now) =>
      if Accepts(s, tile) {
        if s.tiles[tile.value] == DifferentColor {
          CorrectClickEffect(s, tile.value, now);
        } else {
          var c := s.(processingClick := true, clickedClass := s.clickedClass + {tile.value});
          EndGameShape(c.(clickedTiles := c.clickedTiles + {tile.value}));
        }
      }
    case Frame(now) =>
      if s.isPlaying {
        EndGameShape(ShowTimeLeft(s.(framePending := false), now));
      }
    case AdvanceDue(_, _, _) =>
    case StartTimerDue(_, _) =>
  }

  /** Outside a start, a step either keeps the score or, for a correct click, adds exactly one. */
  lemma StepScore(s: State, e: Event)
    requires Inv(s) && Enabled(s, e) && !e.Start?
    ensures var r := Step(s, e);
      r.score == s.score || (e.Click? && r.score == s.score + 1 && r.isPlaying)
  {
    match e
    case Click(tile, now) =>
      if !Accepts(s, tile) {
        IgnoredClickChangesNothing(s, tile, now);
      } else if s.tiles[tile.value] == DifferentColor {
        CorrectClickEffect(s, tile.value, now);
      } else {
        WrongClickEffect(s, tile.value, now);
      }
    case Frame(now) =>
      if s.isPlaying {
        FrameEffect(s, now);
      }
    case AdvanceDue(due, oddIndex, now) =>
      AdvanceFiredEffect(s, due, oddIndex, now);
    case StartTimerDue(due, now) =>
  }

  /**
   * The click claim is released only by a next-level callback, by a start, or
   * by the game ending.
   */
  lemma StepReleasesClaim(s: State, e: Event)
    requires Inv(s) && Enabled(s, e)
    requires s.processingClick && !Step(s, e).processingClick
    ensures e.AdvanceDue? || e.Start? || (!Step(s, e).isPlaying && Step(s, e).message.Some?)
  {
  }

  /** Without a start, a game that is over stays over and its message stays as it is. */
  lemma StepAfterGameOver(s: State, e: Event)
    requires Inv(s) && Enabled(s, e) && !e.Start?
    requires !s.isPlaying
    ensures !Step(s, e).isPlaying && Step(s, e).message == s.message
  {
  }

  // ------------------------------------------------------------ runs

  lemma {:induction false} RunKeepsHighScores(s: State, events: seq<Event>)
    requires Inv(s) && RunEnabled(s, events)
    ensures RecordsKept(s, Run(s, events))
    decreases |events|
  {
    if events != [] {
      StepKeepsHighScores(s, events[0]);
      RunKeepsHighScores(Step(s, events[0]), events[1..]);
    }
  }

  /** Between two starts the difficulty and the records to beat do not change. */
  lemma {:induction false} RunKeepsSnapshot(s: State, events: seq<Event>)
    requires Inv(s) && RunEnabled(s, events) && NoStart(events)
    ensures var r := Run(s, events);
      r.difficulty == s.difficulty && r.previousBestScore == s.previousBestScore
      && r.previousBestTime == s.previousBestTime
    decreases |events|
  {
    if events != [] {
      StepKeepsSnapshot(s, events[0]);
      RunKeepsSnapshot(Step(s, events[0]), events[1..]);
    }
  }

  /** Between two starts a game ends at most once, and not at all if it was already over. */
  lemma {:induction false} AtMostOneGameOver(s: State, events: seq<Event>)
    requires Inv(s) && RunEnabled(s, events) && NoStart(events)
    ensures GameOvers(s, events) <= (if s.isPlaying then 1 else 0)
    ensures !s.isPlaying ==> !Run(s, events).isPlaying && Run(s, events).message == s.message
    decreases |events|
  {
    if events != [] {
      var next := Step(s, events[0]);
      if !s.isPlaying {
        StepAfterGameOver(s, events[0]);
      }
      AtMostOneGameOver(next, events[1..]);
    }
  }
}
