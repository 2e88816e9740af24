/**
 * The round state machine as values: the game state record, one transition
 * function per handler of the game script, the invariant every reachable state
 * keeps, and the events a browser can deliver.
 *
 * Browser callbacks are explicit state: `framePending` is the one animation
 * frame that may be scheduled, `pendingAdvances` and `pendingTimerStarts` hold
 * the due times (in milliseconds) of the 800 ms next-level callbacks and of
 * the 50 ms timer restarts. Cancelling timers cancels only the frame.
 */
module GameSpec {
  import opened Wrappers
  import opened Settings
  import opened Grid
  import opened Countdown
  import opened Summary

  /** Delay between a correct click and the next level. */
  const AdvanceDelayMs: nat := 800
  /** Delay between resetting the timer and restarting it. */
  const StartTimerDelayMs: nat := 50

  datatype State = State(
    tiles: seq<TileColor>,          // the current grid, `[]` before the first game
    clickedClass: set<nat>,         // tiles carrying the 'clicked' class
    isPlaying: bool,
    timeLeft: nat,                  // seconds shown
    score: nat,
    difficulty: Difficulty,
    highScores: Table<nat>,
    bestAverageTimes: Table<Option<real>>,
    previousBestScore: nat,
    previousBestTime: Option<real>,
    clickedTiles: set<nat>,         // the `clickedTiles` set: only a wrongly clicked tile enters it
    processingClick: bool,
    levelStartTime: nat,
    totalReactionTime: nat,
    correctClicks: nat,
    framePending: bool,             // an animation frame of the countdown is scheduled
    timerStart: nat,                // `startTime` captured by the running countdown
    timerTotalMs: nat,              // `totalTime` captured by the running countdown
    lowTime: bool,                  // the low-time warning is on
    pendingAdvances: multiset<nat>,
    pendingTimerStarts: multiset<nat>,
    message: Option<Report>)        // the last game-over report

  function Max(a: nat, b: nat): nat
  {
    if a >= b then a else b
  }

  /** A game has been started at least once (the first start builds a grid, which is never empty). */
  predicate Started(s: State)
  {
    s.tiles != []
  }

  /** `value || null` on a stored best time: a missing best and a best of 0 both become null. */
  function OrNull(t: Option<real>): Option<real>
  {
    if t.Some? && t.value != 0.0 then t else None
  }

  /** The state after the page has loaded the saved records. */
  function Initial(highScores: Table<nat>, bestAverageTimes: Table<Option<real>>): State
  {
    State([], {}, false, 0, 0, Easy, highScores, bestAverageTimes, 0, None, {}, false, 0, 0, 0,
          false, 0, 0, false, multiset{}, multiset{}, None)
  }

  // ---------------------------------------------------------------- handlers

  /** `clearTimers`: cancels the animation frame only; pending timeouts survive. */
  function ClearTimers(s: State): State
  {
    s.(framePending := false)
  }

  /** `startTimer`: restarts the countdown from `now` with the current difficulty's limit. */
  function StartTimer(s: State, now: nat): State
  {
    ClearTimers(s).(framePending := true, timerStart := now, timerTotalMs := TimeLimit(s.difficulty) * 1000)
  }

  /** `resetTimer`: stops the countdown, shows the full limit and schedules a restart 50 ms later. */
  function ResetTimer(s: State, now: nat): State
  {
    ClearTimers(s).(timeLeft := TimeLimit(s.difficulty), lowTime := false,
                    pendingTimerStarts := s.pendingTimerStarts + multiset{now + StartTimerDelayMs})
  }

  /** A beaten best time is stored for the current difficulty. */
  function KeepBestTime(s: State, report: Report): State
  {
    if report.didBeatTime
    then s.(bestAverageTimes := s.bestAverageTimes.Set(s.difficulty, report.averageTime))
    else s
  }

  /** A beaten best score is stored for the current difficulty. */
  function KeepHighScore(s: State, report: Report): State
  {
    if report.didBeatScore
    then s.(highScores := s.highScores.Set(s.difficulty, s.score))
    else s
  }

  /** The record-keeping of `showGameOverMessage`: store a beaten best time and a beaten best score. */
  function ShowGameOverMessage(s: State): State
  {
    var report := Summarize(s.score, s.correctClicks, s.totalReactionTime, s.previousBestScore, s.previousBestTime);
    KeepHighScore(KeepBestTime(s, report), report).(message := Some(report))
  }

  /** The end of play: no game, and no click claim. */
  function StopPlay(s: State): State
  {
    s.(isPlaying := false, processingClick := false)
  }

  /** `endGame`. */
  function EndGame(s: State): State
  {
    ShowGameOverMessage(StopPlay(ClearTimers(s)))
  }

  /** The grid of `newLevel`: fresh tiles for the current difficulty, none marked as clicked. */
  function BuildGrid(s: State, oddIndex: nat): State
    requires oddIndex < Cells(GridSize(s.difficulty))
  {
    s.(tiles := GenerateTiles(GridSize(s.difficulty), oddIndex), clickedClass := {})
  }

  /** `newLevel`: a fresh grid for the current difficulty, with the odd tile at `oddIndex`, timed from `now`. */
  function NewLevel(s: State, oddIndex: nat, now: nat): State
    requires oddIndex < Cells(GridSize(s.difficulty))
  {
    BuildGrid(s.(clickedTiles := {}), oddIndex).(levelStartTime := now)
  }

  /** The counters of a correct click: one more point and one more correct click, and the reaction time added. */
  function CountCorrect(s: State, now: nat): State
    requires s.levelStartTime <= now
  {
    s.(totalReactionTime := s.totalReactionTime + (now - s.levelStartTime),
       correctClicks := s.correctClicks + 1,
       score := s.score + 1)
  }

  /** A score above the stored high score of the difficulty is stored at once. */
  function RecordScore(s: State): State
  {
    if s.score > s.highScores.Get(s.difficulty)
    then s.(highScores := s.highScores.Set(s.difficulty, s.score))
    else s
  }

  /** Schedules the next-level callback 800 ms after `now`. */
  function ScheduleAdvance(s: State, now: nat): State
  {
    s.(pendingAdvances := s.pendingAdvances + multiset{now + AdvanceDelayMs})
  }

  /** `handleGuess` for the odd tile. */
  function CorrectGuess(s: State, now: nat): State
    requires s.levelStartTime <= now
  {
    ScheduleAdvance(ResetTimer(RecordScore(CountCorrect(s, now)), now), now)
  }

  /** `handleGuess` for any other tile. */
  function WrongGuess(s: State, tile: nat): State
  {
    EndGame(s.(clickedTiles := s.clickedTiles + {tile})).(processingClick := false)
  }

  /** `handleGuess`. */
  function HandleGuess(s: State, tile: nat, isCorrect: bool, now: nat): State
    requires s.levelStartTime <= now
  {
    if isCorrect then CorrectGuess(s, now) else WrongGuess(s, tile)
  }

  /** The guard of `handleTileClick`. */
  predicate Accepts(s: State, tile: Option<nat>)
  {
    s.isPlaying && tile.Some? && tile.value !in s.clickedClass && !s.processingClick
  }

  /** A click lands on no tile or on a tile of the current grid. */
  predicate OnGrid(s: State, tile: Option<nat>)
  {
    tile.Some? ==> tile.value < |s.tiles|
  }

  /** The claim of an accepted click: no other click is judged, and the tile is marked. */
  function Claim(s: State, t: nat): State
  {
    s.(processingClick := true, clickedClass := s.clickedClass + {t})
  }

  /** `handleTileClick`: claim the click, mark the tile, judge it. */
  function HandleTileClick(s: State, tile: Option<nat>, now: nat): State
    requires OnGrid(s, tile) && s.levelStartTime <= now
  {
    if Accepts(s, tile) then
      var t := tile.value;
      HandleGuess(Claim(s, t), t, s.tiles[t] == DifferentColor, now)
    else
      s
  }

  /** The display of one countdown frame: the seconds left and the low-time warning. */
  function ShowTimeLeft(s: State, now: nat): State
    requires s.timerStart <= now
  {
    var timeLeft := RemainingSeconds(s.timerTotalMs, now - s.timerStart);
    s.(timeLeft := timeLeft, lowTime := IsLowTime(timeLeft, TimeLimit(s.difficulty)))
  }

  /** `updateProgress`, one animation frame of the countdown: it consumes the frame and requests the next one while time is left. */
  function UpdateProgress(s: State, now: nat): State
    requires s.framePending && s.timerStart <= now
  {
    var s0 := s.(framePending := false);
    if !s0.isPlaying then
      s0
    else
      var s1 := ShowTimeLeft(s0, now);
      if s1.timeLeft <= 0 then EndGame(s1) else s1.(framePending := true)
  }

  /** The reset at the start of `startGame`: counters, flags and the records of `d` to beat. */
  function ResetRound(s: State, d: Difficulty): State
  {
    s.(difficulty := d, timeLeft := TimeLimit(d), score := 0, isPlaying := true,
       processingClick := false, levelStartTime := 0, totalReactionTime := 0, correctClicks := 0,
       previousBestScore := s.highScores.Get(d), previousBestTime := OrNull(s.bestAverageTimes.Get(d)),
       clickedTiles := {}, lowTime := false, message := None)
  }

  /** `startGame`: reset the record, take the records of `d` as the ones to beat, build a grid, start the clock. */
  function StartGame(s: State, d: Difficulty, oddIndex: nat, now: nat): State
    requires oddIndex < Cells(GridSize(d))
  {
    StartTimer(NewLevel(ResetRound(s, d), oddIndex, now), now)
  }

  /** The 800 ms callback of a correct click: next level, release the click claim. It checks nothing. */
  function AdvanceFired(s: State, due: nat, oddIndex: nat, now: nat): State
    requires due in s.pendingAdvances && oddIndex < Cells(GridSize(s.difficulty))
  {
    NewLevel(s.(pendingAdvances := s.pendingAdvances - multiset{due}), oddIndex, now).(processingClick := false)
  }

  /** The 50 ms callback of `resetTimer`: `startTimer`. It checks nothing. */
  function StartTimerFired(s: State, due: nat, now: nat): State
    requires due in s.pendingTimerStarts
  {
    StartTimer(s.(pendingTimerStarts := s.pendingTimerStarts - multiset{due}), now)
  }

  // ---------------------------------------------------------------- invariant

  /** What holds of every state the page can reach. */
  predicate Inv(s: State)
  {
    && (forall t :: t in s.clickedClass ==> t < |s.tiles|)
    && s.clickedTiles <= s.clickedClass
    && s.timeLeft <= TimeLimit(s.difficulty)
    && s.highScores.Get(s.difficulty) >= Max(s.previousBestScore, s.score)
    // the click claim is held only during a game, and some next-level callback will release it
    && (s.processingClick ==> s.isPlaying && s.pendingAdvances != multiset{})
    // while a game runs, the countdown is running or about to be restarted
    && (s.isPlaying ==> s.framePending || s.pendingTimerStarts != multiset{})
    && (s.isPlaying ==> s.previousBestTime == OrNull(s.bestAverageTimes.Get(s.difficulty)))
    && (Started(s) ==>
          && ValidGrid(s.tiles, GridSize(s.difficulty))
          && s.timerTotalMs == TimeLimit(s.difficulty) * 1000
          && s.highScores.Get(s.difficulty) == Max(s.previousBestScore, s.score))
    && (!Started(s) ==>
          !s.isPlaying && !s.framePending && s.pendingAdvances == multiset{} && s.pendingTimerStarts == multiset{})
    // the last game-over report is kept exactly when a started game is over
    && (s.message.Some? <==> Started(s) && !s.isPlaying)
  }

  // ---------------------------------------------------------------- events

  /** What the browser can deliver, each with the clock reading `now` in milliseconds. */
  datatype Event =
    | Click(tile: Option<nat>, now: nat)
    | Frame(now: nat)
    | AdvanceDue(due: nat, oddIndex: nat, now: nat)
    | StartTimerDue(due: nat, now: nat)
    | Start(difficulty: Difficulty, oddIndex: nat, now: nat)

  /**
   * When an event can happen: a click hits no tile or a tile on the grid, a
   * callback fires only if scheduled and not before it is due, a random index
   * lies in the grid, and the clock does not run backwards.
   */
  predicate Enabled(s: State, e: Event)
  {
    match e
    case Click(tile, now) => OnGrid(s, tile) && s.levelStartTime <= now
    case Frame(now) => s.framePending && s.timerStart <= now
    case AdvanceDue(due, oddIndex, now) =>
      due in s.pendingAdvances && due <= now && oddIndex < Cells(GridSize(s.difficulty))
    case StartTimerDue(due, now) => due in s.pendingTimerStarts && due <= now
    case Start(d, oddIndex, _) => oddIndex < Cells(GridSize(d))
  }
}
