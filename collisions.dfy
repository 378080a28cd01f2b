/** The missile part of `detectCollisions` as a specification on values: the
    state the missile loop reads and changes, one turn of the loop, the loop
    itself, and the two removal passes that follow it. The methods of the
    session are proved to do exactly this. */
module Collisions {
  import opened Lists
  import opened Entities

  /** What the missile loop reads and changes, together with the marks it
      has collected so far. */
  datatype Board = Board(
    missiles: seq<Missile>,
    powerUps: seq<PowerUp>,
    ufos: seq<Ufo>,
    asteroids: seq<Asteroid>,
    score: int,
    inventoryHealth: int,
    inventoryShield: int,
    nextId: nat,
    missileMarks: seq<nat>,
    asteroidMarks: seq<nat>)

  /** The first power-up from position `i` on that the missile touches. */
  function PowerUpHitFrom(powerUps: seq<PowerUp>, missileId: nat, contacts: set<(nat, nat)>, i: nat): (r: Option<nat>)
    requires i <= |powerUps|
    ensures r.Some? ==>
      && i <= r.value < |powerUps|
      && (missileId, powerUps[r.value].id) in contacts
      && forall k :: i <= k < r.value ==> (missileId, powerUps[k].id) !in contacts
    ensures r.None? ==> forall k :: i <= k < |powerUps| ==> (missileId, powerUps[k].id) !in contacts
    decreases |powerUps| - i
  {
    if i == |powerUps| then None
    else if (missileId, powerUps[i].id) in contacts then Some(i)
    else PowerUpHitFrom(powerUps, missileId, contacts, i + 1)
  }

  /** The first asteroid from position `i` on that the missile touches and
      whose position is not marked yet. */
  function AsteroidHitFrom(asteroids: seq<Asteroid>, missileId: nat, marks: seq<nat>, contacts: set<(nat, nat)>, i: nat)
    : (r: Option<nat>)
    requires i <= |asteroids|
    ensures r.Some? ==>
      && i <= r.value < |asteroids|
      && r.value !in marks
      && (missileId, asteroids[r.value].id) in contacts
      && forall k :: i <= k < r.value ==> k in marks || (missileId, asteroids[k].id) !in contacts
    ensures r.None? ==> forall k :: i <= k < |asteroids| ==> k in marks || (missileId, asteroids[k].id) !in contacts
    decreases |asteroids| - i
  {
    if i == |asteroids| then None
    else if i !in marks && (missileId, asteroids[i].id) in contacts then Some(i)
    else AsteroidHitFrom(asteroids, missileId, marks, contacts, i + 1)
  }

  /** The last UFO below position `j` that the missile touches: the UFO test
      walks the list from its end. */
  function UfoHitBelow(ufos: seq<Ufo>, missileId: nat, contacts: set<(nat, nat)>, j: nat): (r: Option<nat>)
    requires j <= |ufos|
    ensures r.Some? ==>
      && r.value < j
      && (missileId, ufos[r.value].id) in contacts
      && forall k :: r.value < k < j ==> (missileId, ufos[k].id) !in contacts
    ensures r.None? ==> forall k :: 0 <= k < j ==> (missileId, ufos[k].id) !in contacts
  {
    if j == 0 then None
    else if (missileId, ufos[j - 1].id) in contacts then Some(j - 1)
    else UfoHitBelow(ufos, missileId, contacts, j - 1)
  }

  /** `collectPowerUp` on the board: the counter of the power-up's kind goes
      up by one unless it is at the cap. */
  function Collect(b: Board, kind: PowerUpKind, cap: int): Board
  {
    if kind == HealthBooster then
      (if b.inventoryHealth < cap then b.(inventoryHealth := b.inventoryHealth + 1) else b)
    else
      (if b.inventoryShield < cap then b.(inventoryShield := b.inventoryShield + 1) else b)
  }

  /** The power-up test of a turn: the first power-up the missile touches
      marks the missile, is collected, and is spliced out at once. */
  function PowerUpStep(b: Board, m: nat, missileId: nat, c: Contacts, cap: int): (r: Board)
    ensures r.missiles == b.missiles && r.ufos == b.ufos && r.asteroids == b.asteroids
    ensures r.score == b.score && r.nextId == b.nextId && r.asteroidMarks == b.asteroidMarks
    ensures r.missileMarks == b.missileMarks || r.missileMarks == b.missileMarks + [m]
    ensures |r.powerUps| <= |b.powerUps|
    ensures b.inventoryHealth <= r.inventoryHealth && b.inventoryShield <= r.inventoryShield
    ensures b.inventoryHealth <= cap && b.inventoryShield <= cap ==>
      r.inventoryHealth <= cap && r.inventoryShield <= cap
  {
    var p := PowerUpHitFrom(b.powerUps, missileId, c.missilePowerUp, 0);
    if p.None? then b
    else Collect(b.(powerUps := RemoveAt(b.powerUps, p.value), missileMarks := b.missileMarks + [m]),
                 b.powerUps[p.value].kind, cap)
  }

  /** The asteroid test of a turn: the first unmarked asteroid the missile
      touches marks both and scores 1. */
  function AsteroidStep(b: Board, m: nat, missileId: nat, c: Contacts): (r: Board)
    ensures r.missiles == b.missiles && r.powerUps == b.powerUps && r.ufos == b.ufos
    ensures r.asteroids == b.asteroids && r.nextId == b.nextId
    ensures r.inventoryHealth == b.inventoryHealth && r.inventoryShield == b.inventoryShield
    ensures r.asteroidMarks == b.asteroidMarks ==> r.missileMarks == b.missileMarks && r.score == b.score
    ensures r.asteroidMarks != b.asteroidMarks ==>
      && r.missileMarks == b.missileMarks + [m]
      && r.score == b.score + 1
      && |r.asteroidMarks| == |b.asteroidMarks| + 1
      && r.asteroidMarks == b.asteroidMarks + [r.asteroidMarks[|b.asteroidMarks|]]
      && r.asteroidMarks[|b.asteroidMarks|] < |b.asteroids|
      && r.asteroidMarks[|b.asteroidMarks|] !in b.asteroidMarks
      && (missileId, b.asteroids[r.asteroidMarks[|b.asteroidMarks|]].id) in c.missileAsteroid
  {
    var a := AsteroidHitFrom(b.asteroids, missileId, b.asteroidMarks, c.missileAsteroid, 0);
    if a.None? then b
    else b.(missileMarks := b.missileMarks + [m], asteroidMarks := b.asteroidMarks + [a.value], score := b.score + 1)
  }

  /** A missile hit on `ufos[j]`: it loses 10 health, and at 0 or less it is
      spliced out and the score goes up by 5. */
  function HitUfoAt(b: Board, j: nat): Board
    requires j < |b.ufos|
  {
    var u := b.ufos[j].(health := b.ufos[j].health - UfoHitDamage);
    if u.health <= 0 then b.(ufos := RemoveAt(b.ufos, j), score := b.score + UfoBonus)
    else b.(ufos := b.ufos[j := u])
  }

  /** The UFO test of a turn: the last UFO the missile touches is hit, and
      the missile is spliced out of the list at once. */
  function UfoStep(b: Board, m: nat, missileId: nat, c: Contacts): (r: Board)
    ensures r.powerUps == b.powerUps && r.asteroids == b.asteroids && r.nextId == b.nextId
    ensures r.inventoryHealth == b.inventoryHealth && r.inventoryShield == b.inventoryShield
    ensures r.missileMarks == b.missileMarks && r.asteroidMarks == b.asteroidMarks
    ensures r.missiles == b.missiles || r.missiles == RemoveAt(b.missiles, m)
    ensures |r.ufos| <= |b.ufos| && r.score == b.score + UfoBonus * (|b.ufos| - |r.ufos|)
  {
    var u := UfoHitBelow(b.ufos, missileId, c.missileUfo, |b.ufos|);
    if u.None? then b else HitUfoAt(b, u.value).(missiles := RemoveAt(b.missiles, m))
  }

  /** One turn of the missile loop, for `missiles[m]`. The missile is marked
      once per power-up hit and once per asteroid hit; an asteroid mark is
      new, in range and in contact with the missile; only a UFO hit splices
      the missile out; the score grows by 1 per asteroid mark and 5 per UFO
      destroyed; no list grows and no counter falls or passes the cap. */
  function ScanStep(b: Board, m: nat, c: Contacts, cap: int): (r: Board)
    requires m < |b.missiles|
    ensures r.asteroids == b.asteroids && r.nextId == b.nextId
    ensures r.missiles == b.missiles || r.missiles == RemoveAt(b.missiles, m)
    ensures r.missileMarks == b.missileMarks || r.missileMarks == b.missileMarks + [m]
         || r.missileMarks == b.missileMarks + [m, m]
    ensures r.asteroidMarks == b.asteroidMarks || (
      && |r.asteroidMarks| == |b.asteroidMarks| + 1
      && r.asteroidMarks == b.asteroidMarks + [r.asteroidMarks[|b.asteroidMarks|]]
      && r.asteroidMarks[|b.asteroidMarks|] < |b.asteroids|
      && r.asteroidMarks[|b.asteroidMarks|] !in b.asteroidMarks
      && (b.missiles[m].id, b.asteroids[r.asteroidMarks[|b.asteroidMarks|]].id) in c.missileAsteroid
      && |r.missileMarks| > |b.missileMarks|)
    ensures r.score == b.score + (|r.asteroidMarks| - |b.asteroidMarks|) + UfoBonus * (|b.ufos| - |r.ufos|)
    ensures |r.powerUps| <= |b.powerUps| && |r.ufos| <= |b.ufos|
    ensures b.inventoryHealth <= r.inventoryHealth && b.inventoryShield <= r.inventoryShield
    ensures b.inventoryHealth <= cap && b.inventoryShield <= cap ==>
      r.inventoryHealth <= cap && r.inventoryShield <= cap
  {
    var id := b.missiles[m].id;
    UfoStep(AsteroidStep(PowerUpStep(b, m, id, c, cap), m, id, c), m, id, c)
  }

  /** The missile loop from position `m` on. A marked missile is passed over.
      A missile spliced out by a UFO hit lets the next one slide into its
      position, and the loop moves past that position. */
  function ScanFrom(b: Board, m: nat, c: Contacts, cap: int): (r: Board)
    ensures r.asteroids == b.asteroids && r.nextId == b.nextId
    ensures |r.asteroidMarks| >= |b.asteroidMarks|
    ensures r.score == b.score + (|r.asteroidMarks| - |b.asteroidMarks|) + UfoBonus * (|b.ufos| - |r.ufos|)
    ensures |r.missiles| <= |b.missiles| && |r.powerUps| <= |b.powerUps| && |r.ufos| <= |b.ufos|
    ensures b.inventoryHealth <= r.inventoryHealth && b.inventoryShield <= r.inventoryShield
    ensures b.inventoryHealth <= cap && b.inventoryShield <= cap ==>
      r.inventoryHealth <= cap && r.inventoryShield <= cap
    decreases |b.missiles| - m
  {
    if m >= |b.missiles| then b
    else ScanFrom(if m in b.missileMarks then b else ScanStep(b, m, c, cap), m + 1, c, cap)
  }

  /** The missile part of `detectCollisions`: the loop from the first missile
      with no marks, then the missile removal pass, then the asteroid removal
      pass, which uses one fresh handle per asteroid mark. The score grows by
      1 per fresh asteroid and 5 per UFO destroyed; no list of missiles,
      power-ups or UFOs grows; no counter falls or passes the cap. */
  function ResolveHits(b: Board, c: Contacts, cap: int): (r: Board)
    ensures r.score == b.score + (r.nextId - b.nextId) + UfoBonus * (|b.ufos| - |r.ufos|)
    ensures r.nextId >= b.nextId
    ensures |r.missiles| <= |b.missiles| && |r.powerUps| <= |b.powerUps| && |r.ufos| <= |b.ufos|
    ensures b.inventoryHealth <= r.inventoryHealth && b.inventoryShield <= r.inventoryShield
    ensures b.inventoryHealth <= cap && b.inventoryShield <= cap ==>
      r.inventoryHealth <= cap && r.inventoryShield <= cap
  {
    RemoveMarked(ScanFrom(b.(missileMarks := [], asteroidMarks := []), 0, c, cap))
  }

  /** The two removal passes after the loop: the marked missiles are
      dropped, and each marked asteroid is replaced by a fresh one. */
  function RemoveMarked(s: Board): Board
  {
    s.(missiles := DropIndices(s.missiles, s.missileMarks),
       asteroids := ReplaceMarked(s.asteroids, s.asteroidMarks, s.nextId),
       nextId := s.nextId + |s.asteroidMarks|)
  }

  /** From a board with no marks yet, the collision check is the loop from
      the first missile followed by the removal passes. */
  lemma ResolveFromUnmarked(b: Board, c: Contacts, cap: int)
    requires b.missileMarks == [] && b.asteroidMarks == []
    ensures ResolveHits(b, c, cap) == RemoveMarked(ScanFrom(b, 0, c, cap))
  {
    assert b.(missileMarks := [], asteroidMarks := []) == b;
  }

  /** Without any contact the missile loop changes nothing. */
  lemma {:induction false} ScanWithoutContacts(b: Board, m: nat, c: Contacts, cap: int)
    requires c.missilePowerUp == {} && c.missileAsteroid == {} && c.missileUfo == {}
    ensures ScanFrom(b, m, c, cap) == b
    decreases |b.missiles| - m
  {
    if m < |b.missiles| {
      if m !in b.missileMarks {
        assert ScanStep(b, m, c, cap) == b;
      }
      ScanWithoutContacts(b, m + 1, c, cap);
    }
  }

  /** Without any contact the collision check leaves every list, the score
      and the counters as they were. */
  lemma ResolveWithoutContacts(b: Board, c: Contacts, cap: int)
    requires c.missilePowerUp == {} && c.missileAsteroid == {} && c.missileUfo == {}
    ensures ResolveHits(b, c, cap) == b.(missileMarks := [], asteroidMarks := [])
  {
    ScanWithoutContacts(b.(missileMarks := [], asteroidMarks := []), 0, c, cap);
  }

  /** Without UFO hits no missile is spliced out during the loop, so every
      missile gets its turn: once the turn of a missile touching an asteroid
      has come, some asteroid is marked. */
  lemma {:induction false} ScanReachesContact(b: Board, m: nat, c: Contacts, cap: int, k: nat, j: nat)
    requires c.missileUfo == {}
    requires m <= k < |b.missiles| && j < |b.asteroids|
    requires (b.missiles[k].id, b.asteroids[j].id) in c.missileAsteroid
    requires forall i :: 0 <= i < |b.missileMarks| ==> b.missileMarks[i] < m
    ensures |ScanFrom(b, m, c, cap).asteroidMarks| > 0
    decreases |b.missiles| - m
  {
    if m == k {
      TurnMarksContact(b, m, c, cap, j);
      ScanAfterMark(b, m, c, cap);
    } else {
      AdvanceKeepsMissiles(b, m, c, cap);
      var b' := if m in b.missileMarks then b else ScanStep(b, m, c, cap);
      ScanReachesContact(b', m + 1, c, cap, k, j);
    }
  }

  /** Once the turn at position `m` has marked an asteroid, the rest of the
      loop keeps that mark. */
  lemma ScanAfterMark(b: Board, m: nat, c: Contacts, cap: int)
    requires m < |b.missiles| && m !in b.missileMarks
    requires |ScanStep(b, m, c, cap).asteroidMarks| > 0
    ensures |ScanFrom(b, m, c, cap).asteroidMarks| > 0
  {
    assert ScanFrom(b, m, c, cap) == ScanFrom(ScanStep(b, m, c, cap), m + 1, c, cap);
  }

  /** Without UFO contacts, moving past position `m` keeps the missile and
      asteroid lists and marks no missile past `m`. */
  lemma AdvanceKeepsMissiles(b: Board, m: nat, c: Contacts, cap: int)
    requires c.missileUfo == {}
    requires m < |b.missiles|
    requires forall i :: 0 <= i < |b.missileMarks| ==> b.missileMarks[i] < m
    ensures var b' := if m in b.missileMarks then b else ScanStep(b, m, c, cap);
      && b'.missiles == b.missiles && b'.asteroids == b.asteroids
      && (forall i :: 0 <= i < |b'.missileMarks| ==> b'.missileMarks[i] < m + 1)
      && ScanFrom(b, m, c, cap) == ScanFrom(b', m + 1, c, cap)
  {
    if m !in b.missileMarks {
      TurnKeepsMissiles(b, m, c, cap);
      TurnMarksBelow(b, m, c, cap);
    }
  }

  /** The turn of a missile touching an asteroid leaves some asteroid marked:
      the first unmarked one it touches, or the one it touches, already
      marked. */
  lemma TurnMarksContact(b: Board, m: nat, c: Contacts, cap: int, j: nat)
    requires m < |b.missiles| && j < |b.asteroids|
    requires (b.missiles[m].id, b.asteroids[j].id) in c.missileAsteroid
    ensures |ScanStep(b, m, c, cap).asteroidMarks| > 0
  {
    var id := b.missiles[m].id;
    var b1 := PowerUpStep(b, m, id, c, cap);
    var a := AsteroidHitFrom(b.asteroids, id, b.asteroidMarks, c.missileAsteroid, 0);
    if a.None? {
      assert j in b.asteroidMarks;
    }
    assert |AsteroidStep(b1, m, id, c).asteroidMarks| > 0;
  }

  /** A turn marks no missile past its own position. */
  lemma TurnMarksBelow(b: Board, m: nat, c: Contacts, cap: int)
    requires m < |b.missiles|
    requires forall i :: 0 <= i < |b.missileMarks| ==> b.missileMarks[i] < m
    ensures var r := ScanStep(b, m, c, cap);
      forall i :: 0 <= i < |r.missileMarks| ==> r.missileMarks[i] < m + 1
  {
    var r := ScanStep(b, m, c, cap);
    if r.missileMarks == b.missileMarks + [m] {
      assert forall i :: 0 <= i < |r.missileMarks| ==> r.missileMarks[i] == if i < |b.missileMarks| then b.missileMarks[i] else m;
    } else if r.missileMarks == b.missileMarks + [m, m] {
      assert forall i :: 0 <= i < |r.missileMarks| ==> r.missileMarks[i] == if i < |b.missileMarks| then b.missileMarks[i] else m;
    }
  }

  /** Without UFO contacts a turn splices no missile out. */
  lemma TurnKeepsMissiles(b: Board, m: nat, c: Contacts, cap: int)
    requires c.missileUfo == {} && m < |b.missiles|
    ensures ScanStep(b, m, c, cap).missiles == b.missiles
  {
    var id := b.missiles[m].id;
    var b2 := AsteroidStep(PowerUpStep(b, m, id, c, cap), m, id, c);
    assert UfoHitBelow(b2.ufos, id, c.missileUfo, |b2.ufos|).None?;
  }

  /** Some missile of the list was found in contact with the entity `target`. */
  predicate HitBySome(missiles: seq<Missile>, target: nat, contacts: set<(nat, nat)>)
  {
    exists x :: x in missiles && (x.id, target) in contacts
  }

  /** What the marks of a loop that started on the missiles `orig` satisfy
      before the turn at position `m`: the missiles left are among the
      original ones; every asteroid mark is in range, appears once and
      names an asteroid some original missile touched; there are no more
      asteroid marks than missile marks; missile marks never decrease and
      lie below both `m` and the original count. */
  ghost predicate MarksSound(orig: seq<Missile>, b: Board, c: Contacts, m: nat)
  {
    && |b.missiles| <= |orig| && (forall x :: x in b.missiles ==> x in orig)
    && (forall k :: 0 <= k < |b.asteroidMarks| ==> b.asteroidMarks[k] < |b.asteroids|)
    && (forall k, l :: 0 <= k < l < |b.asteroidMarks| ==> b.asteroidMarks[k] != b.asteroidMarks[l])
    && (forall k :: 0 <= k < |b.asteroidMarks| ==>
          HitBySome(orig, b.asteroids[b.asteroidMarks[k]].id, c.missileAsteroid))
    && |b.asteroidMarks| <= |b.missileMarks|
    && (forall k, l :: 0 <= k < l < |b.missileMarks| ==> b.missileMarks[k] <= b.missileMarks[l])
    && (forall k :: 0 <= k < |b.missileMarks| ==> b.missileMarks[k] < m && b.missileMarks[k] < |orig|)
  }

  /** A turn keeps the marks sound, one position further on. */
  lemma TurnSound(orig: seq<Missile>, b: Board, m: nat, c: Contacts, cap: int)
    requires m < |b.missiles| && MarksSound(orig, b, c, m)
    ensures MarksSound(orig, ScanStep(b, m, c, cap), c, m + 1)
  {
    var r := ScanStep(b, m, c, cap);
    TurnMissilesSound(orig, b, m, c, cap);
    TurnMissileMarksSound(orig, b, m, c, cap);
    if r.asteroidMarks != b.asteroidMarks {
      var a := r.asteroidMarks[|b.asteroidMarks|];
      assert b.missiles[m] in orig;
      assert HitBySome(orig, r.asteroids[a].id, c.missileAsteroid);
      assert forall k :: 0 <= k < |r.asteroidMarks| ==>
        r.asteroidMarks[k] == if k < |b.asteroidMarks| then b.asteroidMarks[k] else a;
    }
  }

  /** A turn leaves only original missiles. */
  lemma TurnMissilesSound(orig: seq<Missile>, b: Board, m: nat, c: Contacts, cap: int)
    requires m < |b.missiles| && |b.missiles| <= |orig| && (forall x :: x in b.missiles ==> x in orig)
    ensures var r := ScanStep(b, m, c, cap);
      |r.missiles| <= |orig| && (forall x :: x in r.missiles ==> x in orig)
  {
    var r := ScanStep(b, m, c, cap);
    forall x | x in r.missiles
      ensures x in orig
    {
      if r.missiles != b.missiles {
        RemoveAtSubset(b.missiles, m, x);
      }
    }
  }

  /** A turn adds missile marks equal to `m` only, so they stay sorted and
      below `m + 1`. */
  lemma TurnMissileMarksSound(orig: seq<Missile>, b: Board, m: nat, c: Contacts, cap: int)
    requires m < |b.missiles| && |b.missiles| <= |orig|
    requires forall k, l :: 0 <= k < l < |b.missileMarks| ==> b.missileMarks[k] <= b.missileMarks[l]
    requires forall k :: 0 <= k < |b.missileMarks| ==> b.missileMarks[k] < m
    ensures var r := ScanStep(b, m, c, cap);
      && (forall k, l :: 0 <= k < l < |r.missileMarks| ==> r.missileMarks[k] <= r.missileMarks[l])
      && (forall k :: 0 <= k < |r.missileMarks| ==> r.missileMarks[k] < m + 1 && r.missileMarks[k] < |orig|)
  {
    var r := ScanStep(b, m, c, cap);
    assert forall k :: 0 <= k < |r.missileMarks| ==>
      r.missileMarks[k] == if k < |b.missileMarks| then b.missileMarks[k] else m;
  }

  /** The whole loop keeps the marks sound. */
  lemma {:induction false} ScanSound(orig: seq<Missile>, b: Board, m: nat, c: Contacts, cap: int)
    requires MarksSound(orig, b, c, m)
    ensures MarksSound(orig, ScanFrom(b, m, c, cap), c, |orig|)
    decreases |b.missiles| - m
  {
    if m < |b.missiles| {
      // every mark lies below `m`, so the turn at `m` is taken
      assert m !in b.missileMarks;
      TurnSound(orig, b, m, c, cap);
      ScanSound(orig, ScanStep(b, m, c, cap), m + 1, c, cap);
    }
  }

  /** Completeness of the collision check: without UFO hits, as soon as one
      missile touches one asteroid, at least one asteroid is destroyed and
      replaced and the score rises. */
  lemma ResolveScoresAHit(b: Board, c: Contacts, cap: int, k: nat, j: nat)
    requires c.missileUfo == {}
    requires k < |b.missiles| && j < |b.asteroids|
    requires (b.missiles[k].id, b.asteroids[j].id) in c.missileAsteroid
    ensures ResolveHits(b, c, cap).nextId > b.nextId
    ensures ResolveHits(b, c, cap).score > b.score
  {
    ScanReachesContact(b.(missileMarks := [], asteroidMarks := []), 0, c, cap, k, j);
  }

  /** One missile touching the only asteroid, with no power-up or UFO about:
      the missile is spent, the asteroid is replaced by a fresh one, and the
      score goes up by one. */
  lemma ResolveOneHit(b: Board, c: Contacts, cap: int)
    requires |b.missiles| == 1 && |b.asteroids| == 1 && b.powerUps == [] && b.ufos == []
    requires (b.missiles[0].id, b.asteroids[0].id) in c.missileAsteroid
    ensures var r := ResolveHits(b, c, cap);
      && r.missiles == [] && r.asteroids == [Asteroid(b.nextId)]
      && r.score == b.score + 1 && r.nextId == b.nextId + 1
      && r.inventoryHealth == b.inventoryHealth && r.inventoryShield == b.inventoryShield
  {
    var b0 := b.(missileMarks := [], asteroidMarks := []);
    var id := b.missiles[0].id;
    assert AsteroidHitFrom(b.asteroids, id, [], c.missileAsteroid, 0) == Some(0);
    var s := ScanStep(b0, 0, c, cap);
    assert s == b0.(missileMarks := [0], asteroidMarks := [0], score := b.score + 1);
    assert ScanFrom(b0, 0, c, cap) == ScanFrom(s, 1, c, cap) == s;
    assert DropIndices(b.missiles, [0]) == [];
    assert ReplaceMarked(b.asteroids, [0], b.nextId) == [Asteroid(b.nextId)];
  }

  /** A missile that hits an asteroid and then a UFO is spliced out at once,
      so the missile behind it slides into its position and is never tested
      in this frame. The removal pass then splices the marked position again
      and takes the follower, which touched nothing. */
  lemma ResolveDropsFollower(b: Board, c: Contacts, cap: int)
    requires |b.missiles| == 2 && |b.asteroids| == 1 && b.powerUps == [] && |b.ufos| == 1
    requires b.ufos[0].health <= UfoHitDamage
    requires c.missileAsteroid == {(b.missiles[0].id, b.asteroids[0].id)}
    requires c.missileUfo == {(b.missiles[0].id, b.ufos[0].id)}
    ensures var r := ResolveHits(b, c, cap);
      && r.missiles == [] && r.ufos == [] && r.asteroids == [Asteroid(b.nextId)]
      && r.score == b.score + 1 + UfoBonus
  {
    var b0 := b.(missileMarks := [], asteroidMarks := []);
    var id := b.missiles[0].id;
    assert AsteroidHitFrom(b.asteroids, id, [], c.missileAsteroid, 0) == Some(0);
    assert UfoHitBelow(b.ufos, id, c.missileUfo, 1) == Some(0);
    var s := ScanStep(b0, 0, c, cap);
    assert s == b0.(missiles := [b.missiles[1]], ufos := [], missileMarks := [0], asteroidMarks := [0],
                    score := b.score + 1 + UfoBonus);
    assert ScanFrom(b0, 0, c, cap) == ScanFrom(s, 1, c, cap) == s;
    assert DropIndices([b.missiles[1]], [0]) == [];
    assert ReplaceMarked(b.asteroids, [0], b.nextId) == [Asteroid(b.nextId)];
  }
}
