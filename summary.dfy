/**
 * What the game-over message decides: the average reaction time, whether the
 * score and the average beat the records taken at the start of the game, the
 * two result lines and the pool the title is drawn from.
 */
module Summary {
  import opened Wrappers

  /** The average is reported only after this many correct clicks. */
  const MinClicksForAverage: nat := 3

  /** What a result line shows as the previous best: a value, 'N/A' or 'None'. */
  datatype LastBest = Shown(value: real) | NotAvailable | NoPrevious

  /** One line of the message: the current value, whether it is marked as a new best, and the last best. */
  datatype ResultLine = ResultLine(current: real, isNewBest: bool, lastBest: LastBest)

  /** `formatResultLine` for a score: higher is better, and a previous best always exists. */
  function ScoreLine(current: nat, previousBest: nat): ResultLine
  {
    ResultLine(current as real, current > previousBest, Shown(previousBest as real))
  }

  /** `formatResultLine` for an average time: lower is better, and no previous best is never beaten. */
  function TimeLine(current: real, previousBest: Option<real>): (line: ResultLine)
    ensures line.isNewBest <==> previousBest.Some? && current < previousBest.value
    ensures line.lastBest == (if previousBest.Some? then Shown(previousBest.value) else NoPrevious)
  {
    var beatPrevious := previousBest.Some? && current < previousBest.value;
    if beatPrevious then
      ResultLine(current, true, if previousBest.Some? then Shown(previousBest.value) else NotAvailable)
    else
      ResultLine(current, false, if previousBest.Some? then Shown(previousBest.value) else NoPrevious)
  }

  /** The 'N/A' text of a time line can never appear: it sits in a branch that requires a previous best. */
  lemma TimeLineNeverShowsNotAvailable(current: real, previousBest: Option<real>)
    ensures TimeLine(current, previousBest).lastBest != NotAvailable
  {
  }

  datatype TitleBucket = BothTitles | ScoreTitles | TimeTitles | NoneTitles

  /** Which list of titles `getGameOverTitle` draws from. */
  function Bucket(didBeatScore: bool, didBeatTime: bool): (b: TitleBucket)
    ensures (b == BothTitles || b == ScoreTitles) <==> didBeatScore
    ensures (b == BothTitles || b == TimeTitles) <==> didBeatTime
  {
    if didBeatScore && didBeatTime then BothTitles
    else if didBeatScore then ScoreTitles
    else if didBeatTime then TimeTitles
    else NoneTitles
  }

  function Titles(b: TitleBucket): (titles: seq<string>)
    ensures |titles| >= 4
  {
    match b
    case ScoreTitles => ["Score Smasher!", "Point Powerhouse!", "Top Scorer!", "Impressive Score!"]
    case TimeTitles => ["Lightning Fast!", "Nice Flicks!", "Speed Demon!", "God Speed!"]
    case BothTitles => ["Unstoppable!", "All-Rounder!", "Dual Record!", "Truly Skilled!"]
    case NoneTitles => ["Game Over", "Try Again?", "Get Good?", "Keep Practicing!", "You Suck!",
                        "You're a Loser!", "Are you even trying?"]
  }

  /** The title shown, with the random draw `Math.floor(Math.random() * length)` given as `pick`. */
  function GameOverTitle(didBeatScore: bool, didBeatTime: bool, pick: nat): (title: string)
    requires pick < |Titles(Bucket(didBeatScore, didBeatTime))|
    ensures title in Titles(Bucket(didBeatScore, didBeatTime))
  {
    Titles(Bucket(didBeatScore, didBeatTime))[pick]
  }

  /** The title alone tells which records were beaten: no title belongs to two lists. */
  lemma TitleRevealsRecords(didBeatScore: bool, didBeatTime: bool, pick: nat, b: TitleBucket)
    requires pick < |Titles(Bucket(didBeatScore, didBeatTime))|
    ensures GameOverTitle(didBeatScore, didBeatTime, pick) in Titles(b) <==> b == Bucket(didBeatScore, didBeatTime)
  {
    var k := Bucket(didBeatScore, didBeatTime);
    if b != k {
      TitleOfOneList(k, b, pick);
    }
  }

  /** A title of one list appears in no other list. */
  lemma TitleOfOneList(k: TitleBucket, b: TitleBucket, pick: nat)
    requires k != b && pick < |Titles(k)|
    ensures Titles(k)[pick] !in Titles(b)
  {
    match k
    case ScoreTitles =>
    case TimeTitles =>
    case BothTitles =>
    case NoneTitles =>
  }

  /** Average reaction time in seconds, `totalMs / clicks / 1000`, as an exact real. */
  function AverageSeconds(totalMs: nat, clicks: nat): (avg: real)
    requires clicks > 0
    ensures avg >= 0.0
    ensures avg == 0.0 <==> totalMs == 0
  {
    (totalMs as real) / (clicks as real) / 1000.0
  }

  /** The average times the clicks is the total, in seconds. */
  lemma AverageIsMean(totalMs: nat, clicks: nat)
    requires clicks > 0
    ensures AverageSeconds(totalMs, clicks) * (clicks as real) * 1000.0 == totalMs as real
  {
  }

  /** Everything the game-over message decides. */
  datatype Report = Report(
    averageTime: Option<real>,
    didBeatScore: bool,
    didBeatTime: bool,
    scoreLine: ResultLine,
    timeLine: Option<ResultLine>,
    bucket: TitleBucket)

  /** The decisions of `showGameOverMessage`, from the counters and the records taken at the start of the game. */
  function Summarize(score: nat, correctClicks: nat, totalReactionTime: nat,
                     previousBestScore: nat, previousBestTime: Option<real>): (r: Report)
    ensures r.scoreLine.isNewBest <==> r.didBeatScore
    ensures r.scoreLine.lastBest == Shown(previousBestScore as real)
    ensures r.didBeatTime ==> r.averageTime.Some? && r.timeLine.Some?
    ensures r.bucket == Bucket(r.didBeatScore, r.didBeatTime)
  {
    var didBeatScore := score > previousBestScore;
    if correctClicks >= MinClicksForAverage then
      var averageTime := AverageSeconds(totalReactionTime, correctClicks);
      var didBeatTime := previousBestTime.None? || averageTime < previousBestTime.value;
      Report(Some(averageTime), didBeatScore, didBeatTime, ScoreLine(score, previousBestScore),
             Some(TimeLine(averageTime, previousBestTime)), Bucket(didBeatScore, didBeatTime))
    else
      Report(None, didBeatScore, false, ScoreLine(score, previousBestScore), None, Bucket(didBeatScore, false))
  }

  /**
   * The average exists exactly from three correct clicks on, is the mean reaction
   * time in seconds, and comes with a time line; the score line always agrees
   * with the score verdict.
   */
  lemma AverageOnlyFromThreeClicks(score: nat, clicks: nat, total: nat, bestScore: nat, bestTime: Option<real>)
    ensures var r := Summarize(score, clicks, total, bestScore, bestTime);
      && (r.averageTime.Some? <==> clicks >= 3)
      && (r.averageTime.Some? ==> r.averageTime.value * (clicks as real) * 1000.0 == total as real)
      && (r.timeLine.Some? <==> r.averageTime.Some?)
      && (r.didBeatScore <==> score > bestScore)
      && r.scoreLine.isNewBest == r.didBeatScore
      && r.bucket == Bucket(r.didBeatScore, r.didBeatTime)
  {
    if clicks >= 3 {
      AverageIsMean(total, clicks);
    }
  }

  /** The best time is beaten iff there is an average and either no previous best or a lower average. */
  lemma BestTimeBeatenIff(score: nat, clicks: nat, total: nat, bestScore: nat, bestTime: Option<real>)
    ensures var r := Summarize(score, clicks, total, bestScore, bestTime);
      r.didBeatTime <==> clicks >= 3 && (bestTime.None? || AverageSeconds(total, clicks) < bestTime.value)
  {
  }

  /**
   * The two beat tests disagree on a missing previous best: the record is
   * taken and the title says so, but the time line is not marked as a new best.
   */
  lemma NoPreviousTimeDisagreement(score: nat, clicks: nat, total: nat, bestScore: nat)
    requires clicks >= 3
    ensures var r := Summarize(score, clicks, total, bestScore, None);
      && r.didBeatTime
      && r.timeLine.Some? && !r.timeLine.value.isNewBest && r.timeLine.value.lastBest == NoPrevious
      && r.bucket in {BothTitles, TimeTitles}
  {
  }

  /** With a previous best time the two beat tests agree. */
  lemma TimeLineAgreesWithPreviousBest(score: nat, clicks: nat, total: nat, bestScore: nat, bestTime: real)
    requires clicks >= 3
    ensures var r := Summarize(score, clicks, total, bestScore, Some(bestTime));
      r.timeLine.Some? && r.timeLine.value.isNewBest == r.didBeatTime
  {
  }
}
