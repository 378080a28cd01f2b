/** The game's entities, reduced to the fields the game logic reads (positions,
    velocities and meshes are not part of this model), with the pure formulas
    and list transformations the session applies to them. */
module Entities {
  import opened Lists

  datatype PowerUpKind = HealthBooster | ShieldBooster

  /** Every entity carries `id`, standing for the identity of its scene
      object; geometric tests are passed in as relations over these ids. */
  datatype Asteroid = Asteroid(id: nat)
  /** `lifetime` is in seconds, as accumulated from the frame clock. */
  datatype Missile = Missile(id: nat, lifetime: real)
  datatype PowerUp = PowerUp(id: nat, kind: PowerUpKind, spawnTime: int)
  datatype Ufo = Ufo(id: nat, health: int, lastRadiationTime: int)
  /** An expanding radiation ring and the flag that lets it hurt only once. */
  datatype Wave = Wave(radius: real, maxRadius: real, hasDamagedShuttle: bool)

  /** Which loaded models exist: the shuttle, the UFO model and the two
      power-up models. */
  datatype Assets = Assets(shuttle: bool, ufoModel: bool, healthModel: bool, shieldModel: bool)

  /** The models a loader callback can deliver. */
  datatype Model = ShuttleModel | UfoModel | HealthModel | ShieldModel

  /** The outcome of one frame's proximity tests, by entity id. */
  datatype Contacts = Contacts(
    shuttleAsteroid: set<nat>,
    missilePowerUp: set<(nat, nat)>,
    missileAsteroid: set<(nat, nat)>,
    missileUfo: set<(nat, nat)>)

  const MaxHealth: real := 100.0
  const NumAsteroids: nat := 2000
  const MissileMaxLifetime: real := 5.0
  const VolleySize: nat := 5
  const MaxPowerUps: nat := 1
  const HealthKindThreshold: real := 0.8
  const UfoInitialHealth: int := 10
  const UfoHitDamage: int := 10
  const UfoBonus: int := 5
  const RadiationRange: real := 50.0
  const BurstRange: real := 75.0
  const WaveExpandSpeed: real := 40.0
  const WaveTolerance: real := 5.0
  const RadiationPeakDamage: real := 10.0
  const RadiationMinDamage: real := 5.0

  function Max(a: real, b: real): (r: real)
    ensures r >= a && r >= b && (r == a || r == b)
  {
    if a >= b then a else b
  }

  function Min(a: real, b: real): (r: real)
    ensures r <= a && r <= b && (r == a || r == b)
  {
    if a <= b then a else b
  }

  function Abs(x: real): (r: real)
    ensures r >= 0.0 && (r == x || r == -x)
  {
    if x >= 0.0 then x else -x
  }

  /** Damage of a radiation ring that reaches the shuttle at `distance` from
      its source: never below the minimum, never above the peak, and exactly
      the minimum once the shuttle is half the ring's range away or farther. */
  function RadiationDamage(distance: real, maxRadius: real): (d: real)
    requires maxRadius > 0.0
    ensures d >= RadiationMinDamage
    ensures distance >= 0.0 ==> d <= RadiationPeakDamage
    ensures distance >= maxRadius / 2.0 ==> d == RadiationMinDamage
  {
    Max(RadiationMinDamage, RadiationPeakDamage * (1.0 - distance / maxRadius))
  }

  /** Health after taking `damage`: it drops by the damage but never below 0. */
  function Damaged(health: real, damage: real): (h: real)
    requires damage >= 0.0
    ensures 0.0 <= h
    ensures health >= 0.0 ==> h <= health
    ensures h == 0.0 <==> health <= damage
    ensures health > damage ==> h == health - damage
  {
    Max(health - damage, 0.0)
  }

  /** Health after a booster: it rises by the boost but never above the maximum. */
  function Boosted(health: real, boost: int): (h: real)
    requires boost >= 0
    ensures h <= MaxHealth
    ensures health <= MaxHealth ==> health <= h
    ensures health < MaxHealth && boost > 0 ==> health < h
    ensures h == MaxHealth || h == health + boost as real
  {
    Min(health + boost as real, MaxHealth)
  }

  /** The kind a spawned power-up gets from its random draw in [0, 1):
      a health booster only for draws above 0.8. */
  function KindFor(draw: real): (k: PowerUpKind)
    ensures k == HealthBooster <==> draw > HealthKindThreshold
  {
    if draw > HealthKindThreshold then HealthBooster else ShieldBooster
  }

  /** Every missile one frame older. */
  function Aged(s: seq<Missile>, dt: real): (r: seq<Missile>)
    ensures |r| == |s|
    ensures forall k :: 0 <= k < |s| ==> r[k].id == s[k].id && r[k].lifetime == s[k].lifetime + dt
  {
    if s == [] then [] else [s[0].(lifetime := s[0].lifetime + dt)] + Aged(s[1..], dt)
  }

  /** The asteroids the removal pass and the recycler add, numbered from `next`. */
  function Fresh(next: nat, n: nat): (r: seq<Asteroid>)
    ensures |r| == n
    ensures forall k :: 0 <= k < n ==> r[k].id == next + k
    decreases n
  {
    if n == 0 then [] else [Asteroid(next)] + Fresh(next + 1, n - 1)
  }

  /** The asteroid removal pass of the collision check: marks are walked from
      the last to the first; each one is spliced out of the list as it stands
      and a new asteroid is appended at once. A mark past the end splices
      nothing, so the list never shrinks (`ReplaceMarkedNeverShrinks`). */
  function ReplaceMarked(s: seq<Asteroid>, marks: seq<nat>, next: nat): seq<Asteroid>
    decreases |marks|
  {
    if marks == [] then s
    else
      var last := |marks| - 1;
      ReplaceMarked(RemoveAt(s, marks[last]) + [Asteroid(next)], marks[..last], next + 1)
  }

  /** Whatever the marks, the pass never shrinks the field. */
  lemma {:induction false} ReplaceMarkedNeverShrinks(s: seq<Asteroid>, marks: seq<nat>, next: nat)
    ensures |ReplaceMarked(s, marks, next)| >= |s|
    decreases |marks|
  {
    if marks != [] {
      var last := |marks| - 1;
      ReplaceMarkedNeverShrinks(RemoveAt(s, marks[last]) + [Asteroid(next)], marks[..last], next + 1);
    }
  }

  /** With every mark in range the field never changes size. */
  lemma {:induction false} ReplaceMarkedKeepsSize(s: seq<Asteroid>, marks: seq<nat>, next: nat)
    requires forall k :: 0 <= k < |marks| ==> marks[k] < |s|
    ensures |ReplaceMarked(s, marks, next)| == |s|
    decreases |marks|
  {
    if marks != [] {
      var last := |marks| - 1;
      var pre, s' := marks[..last], RemoveAt(s, marks[last]) + [Asteroid(next)];
      assert ReplaceMarked(s, marks, next) == ReplaceMarked(s', pre, next + 1);
      PrefixBelow(marks, pre, |s|);
      ReplaceMarkedKeepsSize(s', pre, next + 1);
    }
  }

  /** Walking the first `i` marks backwards starts with the `i`-th. */
  lemma ReplaceMarkedPrefixStep(s: seq<Asteroid>, marks: seq<nat>, i: nat, next: nat)
    requires 0 < i <= |marks|
    ensures ReplaceMarked(s, marks[..i], next)
         == ReplaceMarked(RemoveAt(s, marks[i - 1]) + [Asteroid(next)], marks[..i - 1], next + 1)
  {
    assert marks[..i][..i - 1] == marks[..i - 1];
  }

  /** With ascending marks the pass does what it is meant to: the unmarked
      asteroids stay in order and the replacements follow the rest. */
  lemma {:induction false} ReplaceMarkedAscending(s: seq<Asteroid>, tail: seq<Asteroid>, marks: seq<nat>, next: nat)
    requires StrictlyAscending(marks)
    requires forall k :: 0 <= k < |marks| ==> marks[k] < |s|
    ensures ReplaceMarked(s + tail, marks, next) == KeepUnmarked(s, Marked(marks)) + tail + Fresh(next, |marks|)
  {
    ReplaceMarkedSplit(s, tail, marks, next);
    DropIndicesAscending(s, marks);
  }

  lemma {:induction false} ReplaceMarkedSplit(s: seq<Asteroid>, tail: seq<Asteroid>, marks: seq<nat>, next: nat)
    requires StrictlyAscending(marks)
    requires forall k :: 0 <= k < |marks| ==> marks[k] < |s|
    ensures ReplaceMarked(s + tail, marks, next) == DropIndices(s, marks) + tail + Fresh(next, |marks|)
  {
    if marks == [] {
      assert Fresh(next, 0) == [];
    } else {
      var last := |marks| - 1;
      var mk, pre := marks[last], marks[..last];
      var s', tail' := RemoveAt(s, mk), tail + [Asteroid(next)];
      AscendingPrefix(marks, pre, |s|);
      assert ReplaceMarked(s + tail, marks, next) == ReplaceMarked(s' + tail', pre, next + 1) by {
        RemoveAtBeforeTail(s, tail, mk);
        assert RemoveAt(s + tail, mk) + [Asteroid(next)] == s' + tail';
      }
      ReplaceMarkedSplit(s', tail', pre, next + 1);
      var kept, added := DropIndices(s', pre), Fresh(next + 1, |pre|);
      assert DropIndices(s, marks) == kept;
      assert Fresh(next, |marks|) == [Asteroid(next)] + added;
      AppendRegroup(kept, tail, Asteroid(next), added);
    }
  }

  lemma RemoveAtBeforeTail<T>(s: seq<T>, tail: seq<T>, i: nat)
    requires i < |s|
    ensures RemoveAt(s + tail, i) == RemoveAt(s, i) + tail
  {
    assert (s + tail)[..i] == s[..i];
    assert (s + tail)[i + 1..] == s[i + 1..] + tail;
  }

  /** Out of order, the pass goes wrong. With marks `[1, 0]` (position 1
      hit first) the walk splices position 0 first; the marked asteroid then
      slides to position 0 and survives, and the splice meant for it removes
      the unmarked asteroid behind it instead, or, on a field of two, the
      first replacement. */
  lemma ReplaceMarkedOutOfOrder(s: seq<Asteroid>, next: nat)
    requires |s| >= 2
    ensures |s| == 2 ==> ReplaceMarked(s, [1, 0], next) == [s[1], Asteroid(next + 1)]
    ensures |s| >= 3 ==> ReplaceMarked(s, [1, 0], next) == [s[1]] + s[3..] + [Asteroid(next), Asteroid(next + 1)]
  {
    var first := s[1..] + [Asteroid(next)];
    ReplaceTwoMarks(s, next);
    if |s| == 2 {
      assert RemoveAt(first, 1) == [s[1]];
    } else {
      assert RemoveAt(first, 1) == [s[1]] + s[3..] + [Asteroid(next)];
    }
  }

  /** The two splices of the walk over the marks `[1, 0]`. */
  lemma ReplaceTwoMarks(s: seq<Asteroid>, next: nat)
    requires |s| >= 2
    ensures ReplaceMarked(s, [1, 0], next) == RemoveAt(s[1..] + [Asteroid(next)], 1) + [Asteroid(next + 1)]
  {
    var marks: seq<nat> := [1, 0];
    var first := RemoveAt(s, 0) + [Asteroid(next)];
    assert marks[..1] == [1];
    assert ReplaceMarked(s, marks, next) == ReplaceMarked(first, [1], next + 1);
    assert [1][..0] == [];
    assert first == s[1..] + [Asteroid(next)];
  }

  /** The recycling walk of `updateAsteroids` from position `k` on: an asteroid
      found out of range is spliced out and one new asteroid is appended, and
      the walk moves on to the next position, so the asteroid that slid into
      the freed position is not looked at in this frame. */
  function Recycle(s: seq<Asteroid>, k: nat, outOfRange: set<nat>, next: nat): (r: seq<Asteroid>)
    ensures |r| == |s|
    decreases |s| - k
  {
    if k >= |s| then s
    else if s[k].id in outOfRange then Recycle(RemoveAt(s, k) + [Asteroid(next)], k + 1, outOfRange, next + 1)
    else Recycle(s, k + 1, outOfRange, next)
  }

  /** Recycling never removes an asteroid that is within range. */
  lemma {:induction false} RecycleKeepsInRange(s: seq<Asteroid>, k: nat, outOfRange: set<nat>, next: nat, a: Asteroid)
    requires a in s && a.id !in outOfRange
    ensures a in Recycle(s, k, outOfRange, next)
    decreases |s| - k
  {
    if k < |s| {
      if s[k].id in outOfRange {
        RemoveAtKeepsOthers(s, k, a);
        RecycleKeepsInRange(RemoveAt(s, k) + [Asteroid(next)], k + 1, outOfRange, next + 1, a);
      } else {
        RecycleKeepsInRange(s, k + 1, outOfRange, next, a);
      }
    }
  }

  /** The walk from position `k` on leaves every position before `k` alone. */
  lemma {:induction false} RecycleKeepsPrefix(s: seq<Asteroid>, k: nat, outOfRange: set<nat>, next: nat)
    requires k <= |s|
    ensures forall j :: 0 <= j < k ==> Recycle(s, k, outOfRange, next)[j] == s[j]
    decreases |s| - k
  {
    if k < |s| {
      if s[k].id in outOfRange {
        var s' := RemoveAt(s, k) + [Asteroid(next)];
        RecycleKeepsPrefix(s', k + 1, outOfRange, next + 1);
        assert forall j :: 0 <= j < k ==> s'[j] == s[j];
      } else {
        RecycleKeepsPrefix(s, k + 1, outOfRange, next);
      }
    }
  }

  /** When the first asteroid is out of range, the second slides into its
      position and is never looked at in this frame: it is still first
      afterwards, whether it is in range or not. */
  lemma RecycleSkipsNeighbour(s: seq<Asteroid>, outOfRange: set<nat>, next: nat)
    requires |s| >= 2 && s[0].id in outOfRange
    ensures Recycle(s, 0, outOfRange, next)[0] == s[1]
  {
    var s' := RemoveAt(s, 0) + [Asteroid(next)];
    assert Recycle(s, 0, outOfRange, next) == Recycle(s', 1, outOfRange, next + 1);
    RecycleKeepsPrefix(s', 1, outOfRange, next + 1);
  }
}
