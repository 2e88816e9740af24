/**
 * The four difficulty levels and the two static lookup tables keyed by them:
 * the countdown length per level (`gameState.timeLimits`) and the grid and
 * colour parameters (`difficultySettings`).
 */
module Settings {

  datatype Difficulty = Easy | Medium | Hard | Death

  /** Position of a difficulty in the order the levels are offered, easiest first. */
  function Rank(d: Difficulty): nat
  {
    match d
    case Easy => 0
    case Medium => 1
    case Hard => 2
    case Death => 3
  }

  /** Seconds allowed per level. */
  function TimeLimit(d: Difficulty): (seconds: nat)
    ensures 3 <= seconds <= 8
  {
    match d
    case Easy => 8
    case Medium => 6
    case Hard => 4
    case Death => 3
  }

  /** Saturation starts at `init`, drops by `dec` per point scored, and never goes below `min`. */
  datatype Saturation = Saturation(init: real, dec: real, min: real)

  /** The odd tile's lightness differs from `base` by at most `range`. */
  datatype Lightness = Lightness(range: real, base: real)

  datatype LevelSettings = LevelSettings(gridSize: nat, sat: Saturation, light: Lightness)

  /** The settings table of one difficulty. */
  function SettingsOf(d: Difficulty): (s: LevelSettings)
    ensures 2 <= s.gridSize <= 5
    ensures 0.0 < s.sat.min < s.sat.init && 0.0 < s.sat.dec
    ensures 0.0 < s.light.range && s.light.base == 50.0
  {
    match d
    case Easy => LevelSettings(2, Saturation(70.0, 0.5, 30.0), Lightness(10.0, 50.0))
    case Medium => LevelSettings(3, Saturation(60.0, 1.0, 25.0), Lightness(8.0, 50.0))
    case Hard => LevelSettings(4, Saturation(50.0, 1.5, 20.0), Lightness(6.0, 50.0))
    case Death => LevelSettings(5, Saturation(40.0, 2.0, 15.0), Lightness(4.0, 50.0))
  }

  /** Tiles per side of the square grid. */
  function GridSize(d: Difficulty): nat
  {
    SettingsOf(d).gridSize
  }

  /** A value per difficulty, like the script's objects keyed by difficulty name. */
  datatype Table<V> = Table(easy: V, medium: V, hard: V, death: V)
  {
    function Get(d: Difficulty): V
    {
      match d
      case Easy => easy
      case Medium => medium
      case Hard => hard
      case Death => death
    }

    /** The table with the entry of `d` replaced by `v`. */
    function Set(d: Difficulty, v: V): (t: Table<V>)
      ensures t.Get(d) == v
      ensures forall e: Difficulty :: e != d ==> t.Get(e) == Get(e)
    {
      match d
      case Easy => this.(easy := v)
      case Medium => this.(medium := v)
      case Hard => this.(hard := v)
      case Death => this.(death := v)
    }
  }

  /** A harder level gives less time, a larger grid and a subtler odd tile. */
  lemma HarderLevelIsTighter(easier: Difficulty, harder: Difficulty)
    requires Rank(easier) < Rank(harder)
    ensures TimeLimit(harder) < TimeLimit(easier)
    ensures GridSize(easier) < GridSize(harder)
    ensures SettingsOf(harder).light.range < SettingsOf(easier).light.range
    ensures SettingsOf(harder).sat.init < SettingsOf(easier).sat.init
  {
  }
}
