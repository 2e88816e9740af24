/**
 * Properties of the single transitions: each handler keeps the invariant,
 * and what each does to the score, the click claim, the countdown and the
 * records.
 */
module GameProperties {
  import opened Wrappers
  import opened Settings
  import opened Grid
  import opened Countdown
  import opened Summary
  import opened GameSpec

  // ------------------------------------------------------------ invariant

  lemma InitialInv(highScores: Table<nat>, bestAverageTimes: Table<Option<real>>)
    ensures Inv(Initial(highScores, bestAverageTimes))
  {
  }

  /** Game over changes the flags, the records and the message, and nothing else. */
  lemma EndGameShape(s: State)
    ensures var r := EndGame(s);
      var report := Summarize(s.score, s.correctClicks, s.totalReactionTime, s.previousBestScore, s.previousBestTime);
      && r == s.(isPlaying := false, processingClick := false, framePending := false,
                 highScores := r.highScores, bestAverageTimes := r.bestAverageTimes, message := Some(report))
      && r.highScores == (if report.didBeatScore then s.highScores.Set(s.difficulty, s.score) else s.highScores)
      && r.bestAverageTimes == (if report.didBeatTime then s.bestAverageTimes.Set(s.difficulty, report.averageTime)
                                else s.bestAverageTimes)
  {
  }

  lemma CorrectClickPreservesInv(s: State, t: nat, now: nat)
    requires Inv(s) && t < |s.tiles| && Accepts(s, Some(t)) && s.levelStartTime <= now
    requires s.tiles[t] == DifferentColor
    ensures Inv(HandleTileClick(s, Some(t), now))
  {
  }

  lemma WrongClickPreservesInv(s: State, t: nat, now: nat)
    requires Inv(s) && t < |s.tiles| && Accepts(s, Some(t)) && s.levelStartTime <= now
    requires s.tiles[t] == BaseColor
    ensures Inv(HandleTileClick(s, Some(t), now))
  {
    var c := s.(processingClick := true, clickedClass := s.clickedClass + {t});
    EndGameShape(c.(clickedTiles := c.clickedTiles + {t}));
  }

  lemma HandleTileClickPreservesInv(s: State, tile: Option<nat>, now: nat)
    requires Inv(s) && OnGrid(s, tile) && s.levelStartTime <= now
    ensures Inv(HandleTileClick(s, tile, now))
  {
    if Accepts(s, tile) {
      if s.tiles[tile.value] == DifferentColor {
        CorrectClickPreservesInv(s, tile.value, now);
      } else {
        WrongClickPreservesInv(s, tile.value, now);
      }
    }
  }

  lemma UpdateProgressPreservesInv(s: State, now: nat)
    requires Inv(s) && s.framePending && s.timerStart <= now
    ensures Inv(UpdateProgress(s, now))
  {
    if s.isPlaying {
      RemainingWithinLimit(TimeLimit(s.difficulty), now - s.timerStart);
      EndGameShape(ShowTimeLeft(s.(framePending := false), now));
    }
  }

  lemma AdvanceFiredPreservesInv(s: State, due: nat, oddIndex: nat, now: nat)
    requires Inv(s) && due in s.pendingAdvances && oddIndex < Cells(GridSize(s.difficulty))
    ensures Inv(AdvanceFired(s, due, oddIndex, now))
  {
    GeneratedGridIsValid(s.difficulty, oddIndex);
  }

  lemma StartTimerFiredPreservesInv(s: State, due: nat, now: nat)
    requires Inv(s) && due in s.pendingTimerStarts
    ensures Inv(StartTimerFired(s, due, now))
  {
  }

  lemma StartGamePreservesInv(s: State, d: Difficulty, oddIndex: nat, now: nat)
    requires Inv(s) && oddIndex < Cells(GridSize(d))
    ensures Inv(StartGame(s, d, oddIndex, now))
  {
    GeneratedGridIsValid(d, oddIndex);
  }

  // ------------------------------------------------------------ clicks

  /** A click that fails the guard (no game, no tile, tile already clicked, or a click being processed) changes nothing. */
  lemma IgnoredClickChangesNothing(s: State, tile: Option<nat>, now: nat)
    requires OnGrid(s, tile) && s.levelStartTime <= now
    requires !Accepts(s, tile)
    ensures HandleTileClick(s, tile, now) == s
  {
  }

  /** During the 800 ms after a correct click, clicks are not judged: the score and everything else stay. */
  lemma ClickWhileProcessingIgnored(s: State, tile: Option<nat>, now: nat)
    requires OnGrid(s, tile) && s.levelStartTime <= now
    requires s.processingClick
    ensures HandleTileClick(s, tile, now).score == s.score
    ensures HandleTileClick(s, tile, now) == s
  {
  }

  /**
   * A correct click: one more point, one more correct click, the reaction time
   * added, the game goes on with the click claim held, the high score is the
   * larger of the old one and the new score, the countdown is stopped at the
   * full limit, and both callbacks are scheduled.
   */
  lemma CorrectClickEffect(s: State, t: nat, now: nat)
    requires Inv(s) && t < |s.tiles| && Accepts(s, Some(t)) && s.levelStartTime <= now
    requires s.tiles[t] == DifferentColor
    ensures var r := HandleTileClick(s, Some(t), now);
      && r.score == s.score + 1
      && r.correctClicks == s.correctClicks + 1
      && r.totalReactionTime == s.totalReactionTime + (now - s.levelStartTime)
      && r.isPlaying && r.processingClick
      && r.clickedClass == s.clickedClass + {t} && r.clickedTiles == s.clickedTiles
      && r.highScores == s.highScores.Set(s.difficulty, Max(s.highScores.Get(s.difficulty), r.score))
      && r.timeLeft == TimeLimit(s.difficulty) && !r.lowTime && !r.framePending
      && r.pendingAdvances == s.pendingAdvances + multiset{now + AdvanceDelayMs}
      && r.pendingTimerStarts == s.pendingTimerStarts + multiset{now + StartTimerDelayMs}
      && r.tiles == s.tiles && r.levelStartTime == s.levelStartTime && r.difficulty == s.difficulty
      && r.bestAverageTimes == s.bestAverageTimes && r.message == s.message
      && r.previousBestScore == s.previousBestScore && r.previousBestTime == s.previousBestTime
      && r.timerStart == s.timerStart && r.timerTotalMs == s.timerTotalMs
  {
  }

  /**
   * A wrong click ends the game: no game, no claim, no countdown, the summary
   * on screen, the score kept, the tile in `clickedTiles`, and the high score
   * at the larger of the previous best and the score.
   */
  lemma WrongClickEffect(s: State, t: nat, now: nat)
    requires Inv(s) && t < |s.tiles| && Accepts(s, Some(t)) && s.levelStartTime <= now
    requires s.tiles[t] == BaseColor
    ensures var r := HandleTileClick(s, Some(t), now);
      && !r.isPlaying && !r.processingClick && !r.framePending
      && r.message == Some(Summarize(s.score, s.correctClicks, s.totalReactionTime, s.previousBestScore, s.previousBestTime))
      && r.score == s.score && r.correctClicks == s.correctClicks
      && t in r.clickedTiles && t in r.clickedClass
      && r.highScores.Get(s.difficulty) == Max(s.previousBestScore, s.score)
      && r.pendingAdvances == s.pendingAdvances && r.pendingTimerStarts == s.pendingTimerStarts
  {
    var c := s.(processingClick := true, clickedClass := s.clickedClass + {t});
    EndGameShape(c.(clickedTiles := c.clickedTiles + {t}));
  }

  // ------------------------------------------------------------ countdown

  /** A frame arriving after the game is over only stops the frame loop. */
  lemma FrameAfterGameOverInert(s: State, now: nat)
    requires s.framePending && s.timerStart <= now
    requires !s.isPlaying
    ensures UpdateProgress(s, now) == s.(framePending := false)
  {
  }

  /**
   * A frame during a game shows the seconds left, between 0 and the limit; the
   * warning is on at or below a third of the limit, rounded up; the game ends
   * exactly when the whole limit has elapsed, and otherwise only the display changes.
   */
  lemma FrameEffect(s: State, now: nat)
    requires Inv(s) && s.framePending && s.timerStart <= now
    requires s.isPlaying
    ensures var r := UpdateProgress(s, now);
      var limit := TimeLimit(s.difficulty);
      && r.timeLeft == RemainingSeconds(limit * 1000, now - s.timerStart)
      && r.timeLeft <= limit
      && r.lowTime == (r.timeLeft <= LowTimeThreshold(limit))
      && (r.timeLeft == 0 <==> now - s.timerStart >= limit * 1000)
      && (r.timeLeft == 0 ==> !r.isPlaying && !r.processingClick && !r.framePending && r.message.Some?)
      && (r.timeLeft > 0 ==> r == s.(timeLeft := r.timeLeft, lowTime := r.lowTime))
      && r.score == s.score && r.previousBestScore == s.previousBestScore
  {
    RemainingWithinLimit(TimeLimit(s.difficulty), now - s.timerStart);
    if RemainingSeconds(s.timerTotalMs, now - s.timerStart) == 0 {
      EndGameShape(ShowTimeLeft(s.(framePending := false), now));
    }
  }

  /** Click against timeout at one instant, timeout first: the game is over and the click is not judged. */
  lemma TimeoutThenClickIgnored(s: State, tile: Option<nat>, now: nat)
    requires Inv(s) && s.isPlaying && s.framePending && s.timerStart <= now
    requires now - s.timerStart >= s.timerTotalMs
    requires OnGrid(s, tile) && s.levelStartTime <= now
    ensures var r := UpdateProgress(s, now);
      && !r.isPlaying && r.message.Some?
      && HandleTileClick(r, tile, now) == r
  {
    EndGameShape(ShowTimeLeft(s.(framePending := false), now));
  }

  /** Click against timeout at one instant, click first: an accepted click cancels the frame, so the countdown running at the click cannot time out. */
  lemma AcceptedClickCancelsFrame(s: State, t: nat, now: nat)
    requires Inv(s) && t < |s.tiles| && Accepts(s, Some(t)) && s.levelStartTime <= now
    ensures !HandleTileClick(s, Some(t), now).framePending
  {
    if s.tiles[t] == BaseColor {
      WrongClickEffect(s, t, now);
    }
  }

  // ------------------------------------------------------------ game over records

  /**
   * At game over the high score of the difficulty ends at the larger of the
   * best taken at the start and the score (which it already held), and the
   * best time is replaced exactly when an average exists and either there was
   * no previous best or the average is lower.
   */
  lemma GameOverRecords(s: State)
    requires Inv(s) && s.isPlaying
    ensures var r := EndGame(s);
      var d := s.difficulty;
      && r.highScores == s.highScores
      && r.highScores.Get(d) == Max(s.previousBestScore, s.score)
      && r.bestAverageTimes ==
           (if s.correctClicks >= MinClicksForAverage
               && (s.previousBestTime.None?
                   || AverageSeconds(s.totalReactionTime, s.correctClicks) < s.previousBestTime.value)
            then s.bestAverageTimes.Set(d, Some(AverageSeconds(s.totalReactionTime, s.correctClicks)))
            else s.bestAverageTimes)
      && r.previousBestScore == s.previousBestScore && r.score == s.score
  {
    EndGameShape(s);
  }

  /**
   * The score line of the game-over message marks a new best exactly when the
   * score beats the record taken at the start, always shows that record, and
   * the mark is the decision by which the score is stored as the new record.
   */
  lemma ScoreLineMarksStoredRecord(s: State)
    ensures var r := EndGame(s);
      && r.message.Some?
      && r.message.value.scoreLine.lastBest == Shown(s.previousBestScore as real)
      && (r.message.value.scoreLine.isNewBest <==> s.score > s.previousBestScore)
      && r.highScores ==
           (if r.message.value.scoreLine.isNewBest then s.highScores.Set(s.difficulty, s.score) else s.highScores)
  {
  }

  /** A positive best average time never gets worse at game over. */
  lemma BestTimeNeverWorsens(s: State, best: real)
    requires Inv(s) && s.isPlaying
    requires s.bestAverageTimes.Get(s.difficulty) == Some(best) && best != 0.0
    ensures var bt := EndGame(s).bestAverageTimes.Get(s.difficulty);
      bt.Some? && bt.value <= best
  {
    GameOverRecords(s);
  }

  /**
   * A best average of exactly 0 is read back as no best at the start of a game,
   * so the next game with an average replaces it with a worse one.
   */
  lemma ZeroBestTimeIsReplaced(s: State)
    requires Inv(s) && s.isPlaying
    requires s.bestAverageTimes.Get(s.difficulty) == Some(0.0)
    requires s.correctClicks >= MinClicksForAverage && s.totalReactionTime > 0
    ensures var bt := EndGame(s).bestAverageTimes.Get(s.difficulty);
      bt.Some? && bt.value > 0.0
  {
    GameOverRecords(s);
  }

  // ------------------------------------------------------------ start and stale callbacks

  /**
   * Starting a game resets the counters and flags, takes the records of the
   * chosen difficulty as the ones to beat, builds a grid and starts the
   * countdown; pending callbacks of an earlier game are not cancelled.
   */
  lemma StartGameEffect(s: State, d: Difficulty, oddIndex: nat, now: nat)
    requires Inv(s) && oddIndex < Cells(GridSize(d))
    ensures var r := StartGame(s, d, oddIndex, now);
      && r.difficulty == d && r.score == 0 && r.correctClicks == 0 && r.totalReactionTime == 0
      && r.isPlaying && !r.processingClick && r.timeLeft == TimeLimit(d) && !r.lowTime
      && r.clickedTiles == {} && r.clickedClass == {}
      && r.previousBestScore == s.highScores.Get(d)
      && r.previousBestTime == OrNull(s.bestAverageTimes.Get(d))
      && ValidGrid(r.tiles, GridSize(d)) && r.tiles[oddIndex] == DifferentColor
      && r.levelStartTime == now
      && r.framePending && r.timerStart == now && r.timerTotalMs == TimeLimit(d) * 1000
      && r.message.None?
      && r.highScores == s.highScores && r.bestAverageTimes == s.bestAverageTimes
      && r.pendingAdvances == s.pendingAdvances && r.pendingTimerStarts == s.pendingTimerStarts
  {
    GeneratedGridIsValid(d, oddIndex);
  }

  /**
   * The next-level callback checks nothing: it always builds a new grid and
   * releases the click claim, also after the game is over or restarted, and
   * also while a later callback is still pending; it never changes whether a
   * game runs, the score or the records.
   */
  lemma AdvanceFiredEffect(s: State, due: nat, oddIndex: nat, now: nat)
    requires Inv(s) && due in s.pendingAdvances && oddIndex < Cells(GridSize(s.difficulty))
    ensures var r := AdvanceFired(s, due, oddIndex, now);
      && !r.processingClick
      && r.tiles == GenerateTiles(GridSize(s.difficulty), oddIndex)
      && r.clickedTiles == {} && r.clickedClass == {} && r.levelStartTime == now
      && r.pendingAdvances == s.pendingAdvances - multiset{due}
      && r.isPlaying == s.isPlaying && r.score == s.score && r.message == s.message
      && r.highScores == s.highScores && r.bestAverageTimes == s.bestAverageTimes
      && r.framePending == s.framePending && r.timeLeft == s.timeLeft
  {
  }

  /**
   * A next-level callback of an earlier game survives a restart and then
   * replaces the first grid of the new game and restarts its reaction clock,
   * while the new game goes on.
   */
  lemma StaleAdvanceSurvivesRestart(s: State, due: nat, d: Difficulty, oddIndex: nat, nextIndex: nat,
                                    now: nat, later: nat)
    requires Inv(s) && due in s.pendingAdvances
    requires oddIndex < Cells(GridSize(d)) && nextIndex < Cells(GridSize(d))
    ensures var r := StartGame(s, d, oddIndex, now);
      && due in r.pendingAdvances
      && var r2 := AdvanceFired(r, due, nextIndex, later);
      && r2.isPlaying && r2.score == 0 && r2.difficulty == d
      && r2.tiles == GenerateTiles(GridSize(d), nextIndex) && r2.levelStartTime == later
  {
    StartGameEffect(s, d, oddIndex, now);
    StartGamePreservesInv(s, d, oddIndex, now);
    AdvanceFiredEffect(StartGame(s, d, oddIndex, now), due, nextIndex, later);
  }

  /**
   * The timer-restart callback checks nothing either: it restarts the
   * countdown from `now`; after a game over the frame it schedules stops at
   * once and leaves everything else as it was.
   */
  lemma StartTimerFiredEffect(s: State, due: nat, now: nat, later: nat)
    requires Inv(s) && due in s.pendingTimerStarts && now <= later
    ensures var r := StartTimerFired(s, due, now);
      && r == s.(pendingTimerStarts := s.pendingTimerStarts - multiset{due}, framePending := true,
                 timerStart := now, timerTotalMs := TimeLimit(s.difficulty) * 1000)
      && (!s.isPlaying ==> UpdateProgress(r, later) == r.(framePending := false))
  {
  }
}
