/** The three difficulty profiles of main.js and the order among them. */
module Difficulty {

  datatype Level = Easy | Medium | Hard

  /** One row of the `difficultySettings` table: times in milliseconds, the
      spawn chance a probability. */
  datatype Profile = Profile(
    powerUpSpawnRate: int,
    powerUpSpawnChance: real,
    shieldDuration: int,
    healthBoost: int,
    maxInventoryCap: int,
    ufoRadiationRate: int,
    ufoSpawnInterval: int)

  /** A freshly spawned UFO's radiation clock starts this many milliseconds
      in the past. */
  const UfoRadiationHeadStart: int := 1500

  /** What every profile guarantees to the rest of the game: positive
      intervals and durations, a spawn chance that is a probability, room for
      at least one item of each kind, and a radiation interval longer than a
      new UFO's head start. */
  predicate WellFormed(p: Profile)
  {
    && p.powerUpSpawnRate > 0
    && 0.0 < p.powerUpSpawnChance <= 1.0
    && p.shieldDuration > 0
    && p.healthBoost > 0
    && p.maxInventoryCap >= 1
    && p.ufoRadiationRate > UfoRadiationHeadStart
    && p.ufoSpawnInterval > 0
  }

  /** The table `difficultySettings.easy`, `.medium`, `.hard`. */
  function ProfileOf(level: Level): (p: Profile)
    ensures WellFormed(p)
  {
    match level
    case Easy => Profile(12000, 0.8, 8000, 25, 3, 5000, 7000)
    case Medium => Profile(13000, 0.7, 6000, 20, 2, 4000, 6000)
    case Hard => Profile(15000, 0.6, 5500, 20, 1, 2500, 4000)
  }

  function Rank(level: Level): (r: nat)
    ensures r <= 2
  {
    match level
    case Easy => 0
    case Medium => 1
    case Hard => 2
  }

  /** A harder profile is never kinder: power-ups come no sooner and no more
      often, shields last no longer, boosts heal no more, the inventory holds
      no more, and UFOs radiate and appear no less often. */
  lemma HarderIsNeverKinder(a: Level, b: Level)
    requires Rank(a) <= Rank(b)
    ensures ProfileOf(a).powerUpSpawnRate <= ProfileOf(b).powerUpSpawnRate
    ensures ProfileOf(a).powerUpSpawnChance >= ProfileOf(b).powerUpSpawnChance
    ensures ProfileOf(a).shieldDuration >= ProfileOf(b).shieldDuration
    ensures ProfileOf(a).healthBoost >= ProfileOf(b).healthBoost
    ensures ProfileOf(a).maxInventoryCap >= ProfileOf(b).maxInventoryCap
    ensures ProfileOf(a).ufoRadiationRate >= ProfileOf(b).ufoRadiationRate
    ensures ProfileOf(a).ufoSpawnInterval >= ProfileOf(b).ufoSpawnInterval
  {
  }

  /** The three levels have three different profiles, so the level can be
      read back from the settings it installs. */
  lemma ProfilesDistinct(a: Level, b: Level)
    requires a != b
    ensures ProfileOf(a) != ProfileOf(b)
  {
  }
}
