/**
 * The game controller: the mutable `gameState` record with one method per
 * handler of the game script. Each method changes the fields in the order the
 * handler does and is proved to land in the state its transition function in
 * `GameSpec` describes; the five event methods also keep the invariant.
 */
module Game {
  import opened Wrappers
  import opened Settings
  import opened Grid
  import opened Countdown
  import opened Summary
  import GameSpec
  import GameProperties

  class GameState {
    var tiles: seq<TileColor>
    var clickedClass: set<nat>
    var isPlaying: bool
    var timeLeft: nat
    var score: nat
    var difficulty: Difficulty
    var highScores: Table<nat>
    var bestAverageTimes: Table<Option<real>>
    var previousBestScore: nat
    var previousBestTime: Option<real>
    var clickedTiles: set<nat>
    var processingClick: bool
    var levelStartTime: nat
    var totalReactionTime: nat
    var correctClicks: nat
    var framePending: bool
    var timerStart: nat
    var timerTotalMs: nat
    var lowTime: bool
    var pendingAdvances: multiset<nat>
    var pendingTimerStarts: multiset<nat>
    var message: Option<Report>

    /** The fields as one value. */
    function State(): GameSpec.State
      reads this
    {
      GameSpec.State(tiles, clickedClass, isPlaying, timeLeft, score, difficulty, highScores, bestAverageTimes,
                     previousBestScore, previousBestTime, clickedTiles, processingClick, levelStartTime,
                     totalReactionTime, correctClicks, framePending, timerStart, timerTotalMs, lowTime,
                     pendingAdvances, pendingTimerStarts, message)
    }

    ghost predicate Valid()
      reads this
    {
      GameSpec.Inv(State())
    }

    /** The state once the page has loaded the saved records of every difficulty. */
    constructor (savedHighScores: Table<nat>, savedBestTimes: Table<Option<real>>)
      ensures State() == GameSpec.Initial(savedHighScores, savedBestTimes)
      ensures Valid()
    {
      tiles, clickedClass, isPlaying, timeLeft, score, difficulty := [], {}, false, 0, 0, Easy;
      highScores, bestAverageTimes := savedHighScores, savedBestTimes;
      previousBestScore, previousBestTime, clickedTiles, processingClick := 0, None, {}, false;
      levelStartTime, totalReactionTime, correctClicks := 0, 0, 0;
      framePending, timerStart, timerTotalMs, lowTime := false, 0, 0, false;
      pendingAdvances, pendingTimerStarts, message := multiset{}, multiset{}, None;
      GameProperties.InitialInv(savedHighScores, savedBestTimes);
    }

    // ---------------------------------------------------------- helpers

    method ClearTimers()
      modifies this
      ensures State() == GameSpec.ClearTimers(old(State()))
    {
      framePending := false;
    }

    method StartTimer(now: nat)
      modifies this
      ensures State() == GameSpec.StartTimer(old(State()), now)
    {
      ClearTimers();
      timerTotalMs := TimeLimit(difficulty) * 1000;
      timerStart := now;
      framePending := true;
    }

    method ResetTimer(now: nat)
      modifies this
      ensures State() == GameSpec.ResetTimer(old(State()), now)
    {
      ClearTimers();
      timeLeft := TimeLimit(difficulty);
      lowTime := false;
      pendingTimerStarts := pendingTimerStarts + multiset{now + GameSpec.StartTimerDelayMs};
    }

    method ShowGameOverMessage()
      modifies this
      ensures State() == GameSpec.ShowGameOverMessage(old(State()))
    {
      var report := Summarize(score, correctClicks, totalReactionTime, previousBestScore, previousBestTime);
      KeepBestTime(report);
      KeepHighScore(report);
      message := Some(report);
    }

    method KeepBestTime(report: Report)
      modifies this
      ensures State() == GameSpec.KeepBestTime(old(State()), report)
    {
      if report.didBeatTime {
        bestAverageTimes := bestAverageTimes.Set(difficulty, report.averageTime);
      }
    }

    method KeepHighScore(report: Report)
      modifies this
      ensures State() == GameSpec.KeepHighScore(old(State()), report)
    {
      if report.didBeatScore {
        highScores := highScores.Set(difficulty, score);
      }
    }

    method EndGame()
      modifies this
      ensures State() == GameSpec.EndGame(old(State()))
    {
      ClearTimers();
      StopPlay();
      ShowGameOverMessage();
    }

    method StopPlay()
      modifies this
      ensures State() == GameSpec.StopPlay(old(State()))
    {
      isPlaying := false;
      processingClick := false;
    }

    method NewLevel(oddIndex: nat, now: nat)
      requires oddIndex < Cells(GridSize(difficulty))
      modifies this
      ensures State() == GameSpec.NewLevel(old(State()), oddIndex, now)
    {
      clickedTiles := {};
      BuildGrid(oddIndex);
      levelStartTime := now;
    }

    method BuildGrid(oddIndex: nat)
      requires oddIndex < Cells(GridSize(difficulty))
      modifies this
      ensures State() == GameSpec.BuildGrid(old(State()), oddIndex)
    {
      tiles := GenerateTiles(GridSize(difficulty), oddIndex);
      clickedClass := {};
    }

    method HandleGuess(tile: nat, isCorrect: bool, now: nat)
      requires levelStartTime <= now
      modifies this
      ensures State() == GameSpec.HandleGuess(old(State()), tile, isCorrect, now)
    {
      if isCorrect {
        CorrectGuess(now);
      } else {
        WrongGuess(tile);
      }
    }

    method CountCorrect(now: nat)
      requires levelStartTime <= now
      modifies this
      ensures State() == GameSpec.CountCorrect(old(State()), now)
    {
      var reactionTime := now - levelStartTime;
      totalReactionTime, correctClicks, score := totalReactionTime + reactionTime, correctClicks + 1, score + 1;
    }

    method RecordScore()
      modifies this
      ensures State() == GameSpec.RecordScore(old(State()))
    {
      if score > highScores.Get(difficulty) {
        highScores := highScores.Set(difficulty, score);
      }
    }

    method ScheduleAdvance(now: nat)
      modifies this
      ensures State() == GameSpec.ScheduleAdvance(old(State()), now)
    {
      pendingAdvances := pendingAdvances + multiset{now + GameSpec.AdvanceDelayMs};
    }

    /** The first branch of `handleGuess`. */
    method CorrectGuess(now: nat)
      requires levelStartTime <= now
      modifies this
      ensures State() == GameSpec.CorrectGuess(old(State()), now)
    {
      CountCorrect(now);
      RecordScore();
      ResetTimer(now);
      ScheduleAdvance(now);
    }

    /** The second branch of `handleGuess`. */
    method WrongGuess(tile: nat)
      modifies this
      ensures State() == GameSpec.WrongGuess(old(State()), tile)
    {
      clickedTiles := clickedTiles + {tile};
      EndGame();
      processingClick := false;
    }

    // ---------------------------------------------------------- events

    /** A click or tap, on a tile of the current grid or (`None`) elsewhere. */
    method HandleTileClick(tile: Option<nat>, now: nat)
      requires Valid() && GameSpec.OnGrid(State(), tile) && levelStartTime <= now
      modifies this
      ensures State() == GameSpec.HandleTileClick(old(State()), tile, now)
      ensures Valid()
    {
      GameProperties.HandleTileClickPreservesInv(State(), tile, now);
      if isPlaying && tile.Some? && tile.value !in clickedClass && !processingClick {
        var isCorrect := tiles[tile.value] == DifferentColor;
        Claim(tile.value);
        HandleGuess(tile.value, isCorrect, now);
      }
    }

    method Claim(t: nat)
      modifies this
      ensures State() == GameSpec.Claim(old(State()), t)
    {
      processingClick := true;
      clickedClass := clickedClass + {t};
    }

    /** One animation frame of the countdown. */
    method UpdateProgress(now: nat)
      requires Valid() && framePending && timerStart <= now
      modifies this
      ensures State() == GameSpec.UpdateProgress(old(State()), now)
      ensures Valid()
    {
      GameProperties.UpdateProgressPreservesInv(State(), now);
      framePending := false;
      if !isPlaying {
        return;
      }
      ShowTimeLeft(now);
      if timeLeft <= 0 {
        EndGame();
      } else {
        framePending := true;  // the next frame is requested
      }
    }

    method ShowTimeLeft(now: nat)
      requires timerStart <= now
      modifies this
      ensures State() == GameSpec.ShowTimeLeft(old(State()), now)
    {
      var elapsedTime := now - timerStart;
      timeLeft := RemainingSeconds(timerTotalMs, elapsedTime);
      lowTime := IsLowTime(timeLeft, TimeLimit(difficulty));
    }

    /** The 800 ms callback of a correct click, due at `due`, building the next grid with its odd tile at `oddIndex`. */
    method AdvanceFired(due: nat, oddIndex: nat, now: nat)
      requires Valid() && due in pendingAdvances && due <= now && oddIndex < Cells(GridSize(difficulty))
      modifies this
      ensures State() == GameSpec.AdvanceFired(old(State()), due, oddIndex, now)
      ensures Valid()
    {
      GameProperties.AdvanceFiredPreservesInv(State(), due, oddIndex, now);
      pendingAdvances := pendingAdvances - multiset{due};
      NewLevel(oddIndex, now);
      processingClick := false;
    }

    /** The 50 ms callback of `resetTimer`, due at `due`. */
    method StartTimerFired(due: nat, now: nat)
      requires Valid() && due in pendingTimerStarts && due <= now
      modifies this
      ensures State() == GameSpec.StartTimerFired(old(State()), due, now)
      ensures Valid()
    {
      GameProperties.StartTimerFiredPreservesInv(State(), due, now);
      pendingTimerStarts := pendingTimerStarts - multiset{due};
      StartTimer(now);
    }

    /** A difficulty button, key or 'Play Again': start a game of difficulty `d`. */
    method StartGame(d: Difficulty, oddIndex: nat, now: nat)
      requires Valid() && oddIndex < Cells(GridSize(d))
      modifies this
      ensures State() == GameSpec.StartGame(old(State()), d, oddIndex, now)
      ensures Valid()
    {
      GameProperties.StartGamePreservesInv(State(), d, oddIndex, now);
      ResetRound(d);
      NewLevel(oddIndex, now);
      StartTimer(now);
    }

    method ResetRound(d: Difficulty)
      modifies this
      ensures State() == GameSpec.ResetRound(old(State()), d)
    {
      var currentHighScore := highScores.Get(d);
      var currentBestTime := GameSpec.OrNull(bestAverageTimes.Get(d));
      ResetPlay(d);
      ResetCounters();
      TakeRecords(currentHighScore, currentBestTime);
    }

    method ResetPlay(d: Difficulty)
      modifies this
      ensures State() == old(State()).(difficulty := d, timeLeft := TimeLimit(d), isPlaying := true,
                                       processingClick := false, lowTime := false)
    {
      SelectDifficulty(d);
      ResetFlags();
    }

    method SelectDifficulty(d: Difficulty)
      modifies this
      ensures State() == old(State()).(difficulty := d, timeLeft := TimeLimit(d))
    {
      difficulty := d;
      timeLeft := TimeLimit(d);
    }

    method ResetFlags()
      modifies this
      ensures State() == old(State()).(isPlaying := true, processingClick := false, lowTime := false)
    {
      isPlaying := true;
      processingClick := false;
      lowTime := false;
    }

    method ResetCounters()
      modifies this
      ensures State() == old(State()).(score := 0, levelStartTime := 0, totalReactionTime := 0,
                                       correctClicks := 0, clickedTiles := {})
    {
      ResetScore();
      ResetReactionTimes();
    }

    method ResetScore()
      modifies this
      ensures State() == old(State()).(score := 0, clickedTiles := {})
    {
      score := 0;
      clickedTiles := {};
    }

    method ResetReactionTimes()
      modifies this
      ensures State() == old(State()).(levelStartTime := 0, totalReactionTime := 0, correctClicks := 0)
    {
      levelStartTime := 0;
      totalReactionTime := 0;
      correctClicks := 0;
    }

    method TakeRecords(bestScore: nat, bestTime: Option<real>)
      modifies this
      ensures State() == old(State()).(previousBestScore := bestScore, previousBestTime := bestTime, message := None)
    {
      previousBestScore := bestScore;
      previousBestTime := bestTime;
      message := None;
    }
  }
}
