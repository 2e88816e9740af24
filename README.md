# Odd-colour tile game: the round state machine

This project models the game logic of the "find the odd-coloured tile" reaction
game in `script.js`: the mutable `gameState` record and the handlers that
change it. The handlers are `startGame`, `handleTileClick`, `handleGuess`, the
countdown frame `updateProgress` inside `startTimer`, `resetTimer`, `endGame`,
`newLevel` and the record keeping of `showGameOverMessage`. Small helpers go
with them: the per-difficulty tables, the odd-tile index rule of
`generateTiles`, the beat test of `formatResultLine` and the title pool of
`getGameOverTitle`.

The model has two layers.

- `GameSpec` is the state machine as values. The `State` datatype holds the
  fields of `gameState`. It also holds the part of the page the model keeps:
  which tiles carry the `clicked` class, whether the low-time warning is
  on, and the last game-over report. Browser callbacks are explicit state too.
  `framePending` is the one animation frame that may be scheduled. The
  multisets `pendingAdvances` and `pendingTimerStarts` hold the due times of
  the 800 ms next-level callbacks and the 50 ms timer restarts.
  There is one transition function per handler and an invariant `Inv`. An
  `Event` datatype lists what the browser can deliver: a click, an animation
  frame, a due callback, or a start from a difficulty button, key or "Play
  Again".
- `Game.GameState` is the `gameState` object as a class with the same
  fields. Its methods change those fields in the order the handlers do, with one
  exception: the single `Object.assign` of `startGame` (script.js:379-391) is
  the method `ResetRound`. It is split into `ResetPlay`, `ResetCounters` and
  `TakeRecords` and the methods they call, each setting a few of the fields.
  None of them reads a field another one sets, so their order makes no
  difference. It does differ from the source: `lowTime` is reset before
  `score`, and `clickedTiles` is cleared together with `score`. Each
  method is proved to reach the state that its `GameSpec` function, or its
  inline record update, describes.
  The event methods also keep `Valid()`, which is `Inv` of the fields.
  `Game.GameState` is the imperative form. `GameSpec` is its specification.

`GameProperties` proves what one transition does. `GameRuns` proves what
holds over any sequence of enabled events: records never go down, the records
to beat stay fixed until the next start, and a game ends at most once.

The clock (`Date.now()`) is a parameter `now` in milliseconds, and so is every
random draw: the odd tile's index and the title pick. Callbacks fire when the
caller says so. A callback may fire only if it is pending and due, and in any
order among such callbacks. Clicks and frames require the clock not to have
gone back behind the level start or the timer start.

Behaviour of the code that the model keeps as written:

- `clearTimers` cancels only the animation frame. The 800 ms next-level
  callback and the 50 ms timer restart are never cancelled. A callback left
  over from an earlier game still builds a new grid, still releases the click
  claim, or still restarts the countdown
  (`GameProperties.AdvanceFiredEffect`, `GameProperties.StaleAdvanceSurvivesRestart`,
  `GameProperties.StartTimerFiredEffect`). The `isPlaying` test at the top of
  the frame callback is the only guard. Ending or restarting a game does not
  cancel a pending next-level callback (`clearTimers`, script.js:73-79,
  cancels only the frame).
- A missing previous best time counts as beaten when the record is decided.
  The time line of the message does not mark it as a new best
  (`Summary.NoPreviousTimeDisagreement`). The 'N/A' text of that line cannot
  appear (`Summary.TimeLineNeverShowsNotAvailable`).
- `startGame` reads the stored best time with `|| null`. A stored best of
  exactly 0 therefore reads as no best, and the next average replaces it
  (`GameProperties.ZeroBestTimeIsReplaced`).
- Two kinds of clicked state are separate. The `clicked` class marks every
  accepted tile (`clickedClass`), and it alone guards later clicks. The
  `clickedTiles` set receives only a wrongly clicked tile.

## Model

| member | source | states |
|---|---|---|
| Settings.TimeLimit | script.js:5-10 | the seconds per level lie between 3 and 8 |
| Settings.SettingsOf | script.js:47-68 | each grid has 2 to 5 tiles per side; saturation starts above its positive floor and drops by a positive step; the lightness range is positive around a base of 50 |
| Settings.Table.Set | script.js:14-25 | writing a difficulty's entry of a per-difficulty record changes that entry and no other |
| Settings.HarderLevelIsTighter | script.js:47-68 | a harder level gives less time, a larger grid, a smaller lightness range and a lower starting saturation |
| Grid.GenerateTiles | script.js:108-114 | the grid has `gridSize ** 2` tiles, and the tile at the drawn index is the only different one |
| Grid.OneDifferent | script.js:112-113 | a grid whose only different tile is at `k` counts exactly one different tile |
| Grid.GridHasAtLeastFourTiles | script.js:108-112 | every difficulty's grid has at least four tiles |
| Grid.GeneratedGridIsValid | script.js:108-114 | the generated grid has the right size, at least four tiles, exactly one different tile, and that tile at the drawn index |
| Countdown.CeilDiv | script.js:303 | `Math.ceil(a / b)` is the one integer `q` with `(q - 1) * b < a <= q * b` |
| Countdown.RemainingSeconds | script.js:303 | no seconds are left exactly when the whole time has elapsed; otherwise the count is the remaining time rounded up to whole seconds |
| Countdown.FullTimeAtStart | script.js:290-303 | with no time elapsed the display shows the full limit |
| Countdown.RemainingWithinLimit | script.js:290-303 | after the start the seconds shown never exceed the limit |
| Countdown.RemainingNonIncreasing | script.js:298-303 | more elapsed time never shows more seconds |
| Countdown.LowTimeThreshold | script.js:307 | the warning threshold is the limit divided by 3, rounded up |
| Summary.Bucket | script.js:166-169 | the list the title comes from tells both results: it is one of the two score lists exactly when the score was beaten, and one of the two time lists exactly when the time was beaten |
| Summary.Summarize | script.js:187-208 | the score line is marked as a new best exactly when the score record is beaten and shows the record taken at the start; the time can only be beaten with an average and a time line; the title pool follows both results |
| Summary.TimeLine | script.js:173-184 | a time line marks a new best exactly when a previous best exists and the average is lower; it shows that best, or 'None' without one |
| Summary.TimeLineNeverShowsNotAvailable | script.js:175-181 | the 'N/A' text of a time line never appears |
| Summary.Titles | script.js:160-163 | every title list holds at least four titles |
| Summary.GameOverTitle | script.js:164-169 | the title shown comes from the list chosen by the two beat results |
| Summary.TitleRevealsRecords | script.js:159-170 | a title lies in a list exactly when that list is the one the beat results select, so the title tells which records fell |
| Summary.TitleOfOneList | script.js:160-163 | no title belongs to two lists |
| Summary.AverageSeconds | script.js:198 | the average is never negative, and it is zero exactly when the total reaction time is zero |
| Summary.AverageIsMean | script.js:198 | the average, times the clicks, times 1000, is the total reaction time in milliseconds |
| Summary.AverageOnlyFromThreeClicks | script.js:189-217 | an average exists exactly from three correct clicks on, is the mean in seconds, and comes with a time line; the score is beaten exactly when it is above the previous best; the title pool follows both results |
| Summary.BestTimeBeatenIff | script.js:193-199 | the best time is beaten exactly when there is an average and either no previous best or a lower average |
| Summary.NoPreviousTimeDisagreement | script.js:173-220 | without a previous best, the record counts as beaten and the title says so, but the time line is not marked as a new best and shows 'None' |
| Summary.TimeLineAgreesWithPreviousBest | script.js:173-207 | with a previous best, the time line's new-best mark agrees with the record decision |
| GameSpec.Initial | script.js:1-35 | the state after the page loads, the specification of `Game.GameState.constructor`; it satisfies the invariant by `GameProperties.InitialInv` |
| GameSpec.ClearTimers | script.js:73-79 | the specification of `Game.GameState.ClearTimers`; that pending timeouts survive it is proved in `GameProperties.StaleAdvanceSurvivesRestart` |
| GameSpec.StartTimer | script.js:286-323 | the specification of `Game.GameState.StartTimer`; its effect is proved in `GameProperties.StartTimerFiredEffect` and `GameProperties.StartGameEffect` |
| GameSpec.ResetTimer | script.js:325-341 | the specification of `Game.GameState.ResetTimer`; its effect within a correct click is proved in `GameProperties.CorrectClickEffect` |
| GameSpec.ShowGameOverMessage | script.js:187-214 | the specification of `Game.GameState.ShowGameOverMessage`; its records are proved in `GameProperties.GameOverRecords` and `GameProperties.ScoreLineMarksStoredRecord` |
| GameSpec.EndGame | script.js:360-367 | the specification of `Game.GameState.EndGame`; its whole new state is `GameProperties.EndGameShape` |
| GameSpec.NewLevel | script.js:441-461 | the specification of `Game.GameState.NewLevel`; the grid it builds is the generated grid of the difficulty (`GameProperties.AdvanceFiredEffect`), which is valid by `Grid.GeneratedGridIsValid` |
| GameSpec.CorrectGuess | script.js:257-277 | the specification of `Game.GameState.CorrectGuess`; its effect is `GameProperties.CorrectClickEffect` |
| GameSpec.WrongGuess | script.js:278-283 | the specification of `Game.GameState.WrongGuess`; its effect is `GameProperties.WrongClickEffect` |
| GameSpec.HandleGuess | script.js:256-284 | the specification of `Game.GameState.HandleGuess`; its two branches are `GameProperties.CorrectClickEffect` and `GameProperties.WrongClickEffect` |
| GameSpec.Accepts | script.js:408-411 | the guard of `handleTileClick`; a click it refuses changes nothing by `GameProperties.IgnoredClickChangesNothing` |
| GameSpec.HandleTileClick | script.js:407-417 | the specification of `Game.GameState.HandleTileClick`; it keeps the invariant by `GameProperties.HandleTileClickPreservesInv` |
| GameSpec.UpdateProgress | script.js:295-320 | the specification of `Game.GameState.UpdateProgress`; its effect is `GameProperties.FrameEffect` and `GameProperties.FrameAfterGameOverInert` |
| GameSpec.ResetRound | script.js:374-399 | the specification of `Game.GameState.ResetRound`; its fields appear in `GameProperties.StartGameEffect` |
| GameSpec.StartGame | script.js:370-405 | the specification of `Game.GameState.StartGame`; its effect is `GameProperties.StartGameEffect` and it keeps the invariant by `GameProperties.StartGamePreservesInv` |
| GameSpec.AdvanceFired | script.js:274-277 | the specification of `Game.GameState.AdvanceFired`; its effect is `GameProperties.AdvanceFiredEffect` |
| GameSpec.StartTimerFired | script.js:340 | the specification of `Game.GameState.StartTimerFired`; its effect is `GameProperties.StartTimerFiredEffect` |
| GameSpec.Inv | script.js:256-461 | what every reachable state keeps; every enabled event preserves it (`GameRuns.Step`, `GameRuns.Run`) |
| GameProperties.InitialInv | script.js:1-35 | the state after loading the page satisfies the invariant |
| GameProperties.EndGameShape | script.js:360-367 | ending a game clears the play flag, the click claim and the frame, stores the beaten records, shows the report, and changes nothing else |
| GameProperties.CorrectClickPreservesInv | script.js:256-277 | an accepted click on the odd tile keeps the invariant |
| GameProperties.WrongClickPreservesInv | script.js:278-283 | an accepted click on another tile keeps the invariant |
| GameProperties.HandleTileClickPreservesInv | script.js:407-417 | any click keeps the invariant |
| GameProperties.UpdateProgressPreservesInv | script.js:295-320 | a countdown frame keeps the invariant |
| GameProperties.AdvanceFiredPreservesInv | script.js:274-277 | the next-level callback keeps the invariant |
| GameProperties.StartTimerFiredPreservesInv | script.js:340 | the timer-restart callback keeps the invariant |
| GameProperties.StartGamePreservesInv | script.js:370-405 | starting a game keeps the invariant |
| GameProperties.IgnoredClickChangesNothing | script.js:407-417 | a click with no game, no tile, an already clicked tile or a click in progress changes nothing |
| GameProperties.ClickWhileProcessingIgnored | script.js:408-411 | while a click is being processed, a further click leaves the score and all other state unchanged |
| GameProperties.CorrectClickEffect | script.js:256-277 | a correct click adds one point and one correct click and adds the reaction time; the game goes on with the claim held and the tile marked; the high score becomes the larger of itself and the score; the countdown stops at the full limit; both callbacks are scheduled; nothing else changes |
| GameProperties.WrongClickEffect | script.js:278-283 | a wrong click ends the game: no game, no claim, no frame, the report on screen, the score kept, the tile in both clicked sets, and the high score at the larger of the previous best and the score |
| GameProperties.FrameAfterGameOverInert | script.js:296 | a frame after the game is over only ends the frame loop |
| GameProperties.FrameEffect | script.js:295-320 | during a game a frame shows the seconds left, between 0 and the limit; the warning is on at or below a third of the limit, rounded up; the game ends exactly when the whole limit has elapsed; otherwise only the display changes |
| GameProperties.TimeoutThenClickIgnored | script.js:314-317 | when the time runs out before a click at the same instant, the game is over and the click is not judged |
| GameProperties.AcceptedClickCancelsFrame | script.js:73-79 | an accepted click always leaves no frame scheduled, so the countdown running at the click cannot time out |
| GameProperties.GameOverRecords | script.js:187-214 | at game over the high score keeps its value, which is the larger of the previous best and the score; the best time is replaced exactly when an average exists and either there was no previous best or the average is lower |
| GameProperties.ScoreLineMarksStoredRecord | script.js:173-214 | at game over the score line shows the record taken at the start and marks a new best exactly when the score beats it, and the score is stored as the new high score exactly when the line is so marked |
| GameProperties.BestTimeNeverWorsens | script.js:197-205 | a positive best average never gets worse at game over |
| GameProperties.ZeroBestTimeIsReplaced | script.js:376 | a stored best of 0 reads as no best through `\|\| null` (`GameSpec.OrNull`), so it is replaced by a worse, positive average |
| GameProperties.StartGameEffect | script.js:370-405 | a start selects the difficulty, zeroes score, clicks and reaction time, sets the play flag, clears the claim, both clicked sets and the warning, takes the records of that difficulty as the ones to beat, builds a valid grid, starts the countdown and removes the report; records and pending callbacks stay |
| GameProperties.AdvanceFiredEffect | script.js:274-277 | the next-level callback always builds a new grid and releases the claim, even after a game over or a restart; it changes neither play nor score nor records |
| GameProperties.StaleAdvanceSurvivesRestart | script.js:73-79 | a next-level callback from before a restart is still pending after it, and when it fires it replaces the new game's grid and restarts its reaction clock while the game goes on |
| GameProperties.StartTimerFiredEffect | script.js:286-296 | the timer-restart callback restarts the countdown from now with the current limit; after a game over the frame it schedules only stops |
| GameRuns.Step | script.js:256-461 | every handler run by an enabled event keeps the invariant |
| GameRuns.Run | script.js:256-461 | the invariant holds after any sequence of enabled events |
| GameRuns.StepKeepsHighScores | script.js:266-271 | no step lowers the high score of any difficulty |
| GameRuns.StepKeepsSnapshot | script.js:374-391 | only a start changes the difficulty and the records to beat |
| GameRuns.StepScore | script.js:256-264 | outside a start, a step keeps the score, or it adds one on a correct click and the game goes on |
| GameRuns.StepReleasesClaim | script.js:274-277 | the click claim is released only by a next-level callback, by a start, or by the game ending |
| GameRuns.StepAfterGameOver | script.js:296 | without a start, a game that is over stays over and its report stays |
| GameRuns.RunKeepsHighScores | script.js:211-214 | over any run no high score goes down |
| GameRuns.RunKeepsSnapshot | script.js:374-391 | between two starts the difficulty and the records to beat stay fixed |
| GameRuns.AtMostOneGameOver | script.js:360-363 | between two starts a game ends at most once, and not at all if it was already over |
| Game.GameState.constructor | script.js:567-578 | the page starts with no game and the saved records of every difficulty, and satisfies the invariant |
| Game.GameState.ClearTimers | script.js:73-79 | only the animation frame is cancelled |
| Game.GameState.StartTimer | script.js:286-323 | the countdown restarts from now with the current limit and a frame is scheduled |
| Game.GameState.ResetTimer | script.js:325-341 | the frame is cancelled, the full limit is shown, the warning is off and a restart is scheduled 50 ms later |
| Game.GameState.ShowGameOverMessage | script.js:187-214 | the beaten records are stored and the report is shown |
| Game.GameState.KeepBestTime | script.js:201-205 | a beaten best time is stored for the current difficulty |
| Game.GameState.KeepHighScore | script.js:210-214 | a beaten best score is stored for the current difficulty |
| Game.GameState.EndGame | script.js:360-367 | the frame is cancelled, the game and the claim end, and the game-over records are kept |
| Game.GameState.StopPlay | script.js:361-363 | the game is over and the claim is released |
| Game.GameState.NewLevel | script.js:441-461 | `clickedTiles` is cleared, a fresh grid is built and the level is timed from now |
| Game.GameState.BuildGrid | script.js:449-453 | the grid is the generated one and no tile carries the clicked class |
| Game.GameState.HandleGuess | script.js:256-284 | the guess is judged as correct or wrong, as `GameSpec.HandleGuess` |
| Game.GameState.CountCorrect | script.js:259-264 | score and correct clicks grow by one and the reaction time is added |
| Game.GameState.RecordScore | script.js:266-271 | a score above the stored high score is stored at once |
| Game.GameState.ScheduleAdvance | script.js:274-277 | a next-level callback is scheduled 800 ms after now |
| Game.GameState.CorrectGuess | script.js:257-277 | counters, high score, timer reset and a scheduled advance, as `GameSpec.CorrectGuess` |
| Game.GameState.WrongGuess | script.js:278-283 | the tile enters `clickedTiles`, the game ends and the claim is released |
| Game.GameState.HandleTileClick | script.js:407-417 | the click has the effect of `GameSpec.HandleTileClick`, and the invariant is kept |
| Game.GameState.Claim | script.js:413-414 | the claim is taken and the tile carries the clicked class |
| Game.GameState.UpdateProgress | script.js:295-320 | the frame has the effect of `GameSpec.UpdateProgress`, and the invariant is kept |
| Game.GameState.ShowTimeLeft | script.js:298-309 | the seconds left and the warning are shown for the elapsed time |
| Game.GameState.AdvanceFired | script.js:274-277 | the callback has the effect of `GameSpec.AdvanceFired`, and the invariant is kept |
| Game.GameState.StartTimerFired | script.js:340 | the callback has the effect of `GameSpec.StartTimerFired`, and the invariant is kept |
| Game.GameState.StartGame | script.js:370-405 | the start has the effect of `GameSpec.StartGame`, and the invariant is kept |
| Game.GameState.ResetRound | script.js:374-399 | the round is reset and the records of `d` are taken as the ones to beat |
| Game.GameState.ResetPlay | script.js:379-397 | the difficulty is selected with its full time, a game runs, no claim, no warning |
| Game.GameState.SelectDifficulty | script.js:380-381 | the difficulty and its full time are set |
| Game.GameState.ResetFlags | script.js:383-397 | a game runs, with no claim and no warning |
| Game.GameState.ResetCounters | script.js:382-392 | score, level start, reaction time, correct clicks and `clickedTiles` are reset |
| Game.GameState.ResetScore | script.js:382-392 | the score is zero and `clickedTiles` is empty |
| Game.GameState.ResetReactionTimes | script.js:386-388 | level start, reaction time and correct clicks are zero |
| Game.GameState.TakeRecords | script.js:389-400 | the records to beat are set and the report is removed |

## Left out

- `sw.js`, the offline-caching service worker: it holds no game logic.
- Rendering and presentation: tile elements and their `correct`/`wrong` classes, the progress bar width, the time display text and colour, the message overlay's HTML, confetti, the empty state, the post-game hint, `closeMessage` and its highlighted tile, theme and shape toggles, and `adjustGridSize`. The model keeps only the `clicked` class, which `handleTileClick` reads back, the low-time flag and the last game-over report.
- `generateColors` and the colour strings: they come from `Math.random` and HSL arithmetic, and no handler reads them back. The grid records only which tile is the different one.
- `Math.random`: the odd-tile index and the title pick are parameters with range preconditions.
- `localStorage` and `sessionStorage`: the writes made with `store.set` are not modelled beyond the in-memory record they shadow. The loading at page start, with `parseInt`/`parseFloat`, is replaced by the constructor's parameters.
- `toFixed(3)` and the labels of the result lines: a result line keeps its value, its new-best mark and what it shows as the last best.
- Floating point: the average reaction time is an exact `real`, so IEEE rounding is not modelled.
- `requestAnimationFrame`, `setTimeout`, `debounce` and the event and keyboard wiring: they are replaced by the `Event` datatype and the event methods. The caller supplies the clock and chooses which due callback fires. The model allows any order among due callbacks, which covers the browser's order whatever it is.
- A clock that goes back: clicks and frames require `now` to be no earlier than the level start and the timer start. The code does not assume this. If the clock did go back, it would add a negative reaction time (script.js:259-260) and could show more seconds than the limit (script.js:303). The model does not cover these cases.
- `clearInterval(gameState.timer)`: `timer` is never set, so this call has no effect.
- `needsUpdate` and `animationFrameId`: nothing in the core reads `needsUpdate`, and `animationFrameId` is represented by `framePending`.
- Game.GameState.HandleTileClick: a click on an element of an older grid cannot be delivered, because `newLevel` removes old tiles from the page. The requires therefore limits a tile to the current grid.
