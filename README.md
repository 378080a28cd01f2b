# Zero-G Fury: the game-state core in Dafny

Zero-G Fury is a browser space shooter written in one JavaScript file,
`main.js`. Most of that file is Three.js scene code, screens, audio and a
leaderboard. Inside it is a small, sequential game-state core, and this
project models and verifies that core:

- the player's resources: inventory counters capped by `inventory.maxItems`,
  the health booster, the shield and its deadline;
- radiation rings that hurt the shuttle at most once each;
- the three difficulty profiles, and the copy of one profile into the live
  settings;
- the time-gated spawners for power-ups, UFOs and UFO radiation;
- firing a volley of missiles, and the bookkeeping of the entity lists:
  missiles, asteroids, power-ups and UFOs;
- the collision check: the missile loop, its hit searches and the batched
  removal passes that follow it;
- `resetGame`, `togglePause`, and the pause gate of the frame function
  `animate`.

## Layout

- `lists.dfy`, module `Lists`. This file covers:
  - JavaScript's one-element `splice`;
  - the filtering done by the reverse-index expiry loops;
  - the batched "walk the marks backwards and splice" removal pass.

  It also gives a reference definition, `KeepUnmarked`, of what such a pass
  is meant to leave behind.
- `difficulty.dfy`, module `Difficulty`: the `difficultySettings` table and
  how its three rows are ordered.
- `entities.dfy`, module `Entities`. This file covers:
  - the entity records, reduced to their non-geometric fields;
  - the damage and clamping formulas and the power-up kind draw;
  - the asteroid passes `ReplaceMarked` (the removal pass of
    `detectCollisions`) and `Recycle` (the recycling walk of
    `updateAsteroids`).
- `collisions.dfy`, module `Collisions`: the missile part of
  `detectCollisions` as functions on a `Board` value. It has the first-hit
  searches, one turn of the missile loop (`ScanStep`), the loop
  (`ScanFrom`), the removal passes (`RemoveMarked`) and the whole pass
  (`ResolveHits`), and lemmas about them: completeness, soundness of the
  marks, and worked examples.
- `session.dfy`, module `Game`: the class `Session`. Each module-level
  variable of `main.js` is one of its fields. Each function that updates
  those variables in place is a method. Most of these contracts state the
  new state exactly, or equate it with a specification function through
  the ghost `Snapshot`. The frame-level methods `MoveEntities`,
  `ResolveThreats` and `Animate` state only what a frame keeps (see
  "Left out").

Every entity carries an `id` that stands for the identity of its scene
object. The session hands these out from `nextId`. The outcome of every
geometric test is passed in by id: which asteroids touch the shuttle, which
missile touches which power-up, asteroid or UFO, and which entities are out
of range. Every random draw and every clock reading is a parameter too. The
test for a missile that was spliced out mid-loop therefore still refers to
the same missile. A `Frame` value bundles these inputs for one call of
`animate`.

`Session.Valid()` is the invariant the methods keep:
- health stays in [0, 100];
- the inventory counters, the cap and the boost are never negative;
- every ring has a positive range;
- the radiation interval exceeds a new UFO's 1.5 s head start.

`WithinCap()` says that both counters are at or below the cap. Every method
that can raise a counter preserves it, and so do `ResolveThreats` and
`Animate`.

## Quirks the model reproduces

- **Game over.** `gameOver` is defined twice, at `main.js:2719` and
  `main.js:3512`. The later definition is the one in effect. It sets
  `gamePaused` and nothing else, so `gameActive` stays set after a game ends.
- **UFO hits.** A UFO starts with 10 health and a missile hit takes 10, so
  one hit destroys it.
- **Reset.** `resetGame` does not reset `powerUpSettings.lastSpawnTime` or
  `lastUfoSpawnTime`, and it leaves radiation rings still under way.
- **Pausing.** Timer gates compare against `performance.now()`, so pausing
  does not freeze them. In the model the clock is a parameter, and nothing
  ties it to the pause flag. Radiation rings animate outside `animate`, so
  the pause gate does not hold them either. They are modelled as a list that
  `AnimateWave` steps.
- **`shuttleInvulnerable`.** It is set when a ring hits and is never read.
  The model keeps the flag but leaves out the timer that clears it.
- **Double-marked missiles.** A missile that hits a power-up and then an
  asteroid in the same frame is marked twice. When another missile follows
  it in the list, the backwards splice removes two missiles: the marked one
  and the follower that slid into its place. When the marked missile is the
  last one, the second splice removes nothing (`DropIndicesDuplicateMark`).
- **A UFO hit skips the next missile.** On a UFO hit the missile is spliced
  out at once (`main.js:2526`), and the loop then moves past its position.
  The missile that slid into that position is not tested in this frame. If
  the UFO-hitting missile had already been marked for an asteroid, the
  removal pass splices the marked position again and so removes that
  follower, which touched nothing (`ResolveDropsFollower`).
- **Out-of-order asteroid marks.** Asteroid marks follow missile order, not
  position, so they need not be ascending. The backwards splice then goes
  wrong. On `[a0, a1, a2]` with marks `[1, 0]`, the pass keeps the marked
  `a1` and removes the unmarked `a2`. On a field of two it removes the first
  replacement instead (`ReplaceMarkedOutOfOrder`). With ascending marks the
  pass does what it should (`ReplaceMarkedAscending`).
- **Recycling skips a neighbour.** `updateAsteroids` splices inside
  `forEach`. The element that slides into the freed slot is not looked at in
  that frame (`RecycleSkipsNeighbour`), but no asteroid within range is ever
  lost (`RecycleKeepsInRange`).
- **Dead guard.** The `missilesToRemove.includes(m)` guard of the missile
  loop never fires, because marks are always at or below the current index.
  It is modelled anyway.

## Model

| member | source | states |
|---|---|---|
| Lists.RemoveAt | main.js:2343 | `splice(i, 1)` shortens the list by one and keeps every other element in order, those after `i` one place forward; an index past the end removes nothing |
| Lists.RemoveAtSubset | main.js:2343 | splicing never introduces an element |
| Lists.RemoveAtKeepsOthers | main.js:2343 | every element except the one at the spliced index survives |
| Lists.Filter | main.js:1464-1493 | what a reverse expiry loop leaves: no longer than the input, and every survivor passes the keep-test |
| Lists.FilterMembership | main.js:1464-1493 | an element survives filtering exactly when it was there and passes the test |
| Lists.FilterAllKept | main.js:1464-1493 | an expiry pass over a list in which nothing fails the test leaves it unchanged |
| Lists.FilterIdempotent | main.js:1464-1493 | a second expiry pass with the same tests removes nothing more |
| Lists.DropIndices | main.js:2567-2571 | the batched missile removal removes at most one element per mark |
| Lists.KeepUnmarked | main.js:2567-2581 | the reference for a batched removal: the unmarked elements in order, never more than the input |
| Lists.DropIndicesAscending | main.js:2567-2571 | with strictly ascending, in-range marks the backwards walk equals `KeepUnmarked`: exactly the marked positions go and the others stay in order |
| Lists.DropIndicesDuplicateMark | main.js:2474-2498 | a position marked twice makes the walk remove the element after it as well, whereas `KeepUnmarked` removes only the marked one; at the end of the list the second splice removes nothing |
| Difficulty.ProfileOf | main.js:165-195 | the three rows of the table; each has positive intervals, a spawn chance in (0, 1], a cap of at least 1 and a radiation interval above the 1.5 s head start |
| Difficulty.HarderIsNeverKinder | main.js:165-195 | going from easy to hard, no setting ever favours the player more |
| Difficulty.ProfilesDistinct | main.js:165-195 | different levels install different settings |
| Entities.RadiationDamage | main.js:3202-3203 | ring damage lies between 5 and 10, and is exactly 5 from half the ring's range outwards |
| Entities.Damaged | main.js:3207 | health after a hit is never negative and never higher; it is 0 exactly when the damage covers it, and otherwise drops by exactly the damage |
| Entities.Boosted | main.js:1683 | a boost never takes health above 100 or lowers it; below 100 a positive boost raises it; the result is the sum or 100 |
| Entities.KindFor | main.js:1381 | a power-up is a health booster exactly when the draw is above 0.8 |
| Entities.Aged | main.js:2169 | each missile keeps its identity and its lifetime grows by the frame delta |
| Entities.Fresh | main.js:2266-2314 | `n` new asteroids with consecutive handles starting at `next` |
| Entities.ReplaceMarkedNeverShrinks | main.js:2573-2581 | whatever the marks, the asteroid removal pass never shrinks the field |
| Entities.ReplaceMarkedKeepsSize | main.js:2573-2581 | with in-range marks the asteroid removal pass keeps the field's size: one replacement per removal |
| Entities.ReplaceMarkedAscending | main.js:2573-2581 | with ascending marks the pass equals `KeepUnmarked` of the field, then the rest, then one fresh asteroid per mark |
| Entities.ReplaceMarkedOutOfOrder | main.js:2573-2581 | with marks `[1, 0]` the hit asteroid at position 1 survives, and the unmarked asteroid at position 2 (or, on a field of two, the first replacement) is removed instead |
| Entities.Recycle | main.js:2320-2348 | the recycling walk keeps the field's size |
| Entities.RecycleKeepsInRange | main.js:2339-2347 | recycling never removes an asteroid that is within range |
| Entities.RecycleKeepsPrefix | main.js:2320-2348 | the walk from a position on never changes the positions before it |
| Entities.RecycleSkipsNeighbour | main.js:2320-2348 | when the first asteroid is out of range, the second slides into its place and is still first after the walk, in range or not |
| Collisions.PowerUpHitFrom | main.js:2465-2483 | the first power-up from a position on that the missile touches, or none exactly when it touches none |
| Collisions.AsteroidHitFrom | main.js:2485-2514 | the first asteroid from a position on that the missile touches and whose position is unmarked, or none exactly when there is none |
| Collisions.UfoHitBelow | main.js:2517-2549 | the last UFO below a position that the missile touches, or none exactly when it touches none |
| Collisions.PowerUpStep | main.js:2465-2483 | the power-up test of a turn marks the missile at most once, adds no power-up, never lowers a counter or passes the cap, and touches nothing else |
| Collisions.AsteroidStep | main.js:2485-2514 | the asteroid test of a turn either changes nothing or marks the missile, scores 1 and appends one new, in-range asteroid mark that the missile touches |
| Collisions.UfoStep | main.js:2517-2549 | the UFO test of a turn either changes nothing or splices the missile out; the score grows by 5 per UFO removed |
| Collisions.ScanStep | main.js:2459-2549 | one turn: at most two missile marks, at most one new asteroid mark that is in range, unmarked and touched, the missile spliced out or kept, the score grows by 1 per asteroid mark and 5 per UFO removed, no list grows and no counter falls or passes the cap |
| Collisions.ScanFrom | main.js:2458-2550 | the missile loop keeps the asteroid list, scores 1 per asteroid mark and 5 per UFO removed, grows no list and keeps the counters within the cap |
| Collisions.ResolveHits | main.js:2452-2581 | the missile part of the check scores exactly 1 per fresh asteroid handle and 5 per UFO removed, grows no list and keeps the counters monotone and within the cap |
| Collisions.ResolveFromUnmarked | main.js:2452-2457 | the check starts its loop with no marks |
| Collisions.ScanWithoutContacts | main.js:2458-2550 | without any contact the missile loop changes nothing |
| Collisions.ResolveWithoutContacts | main.js:2452-2581 | without any contact the check leaves every list, the score and the counters as they were |
| Collisions.ScanReachesContact | main.js:2458-2550 | without UFO hits every missile gets its turn, so once a missile touching an asteroid is reached some asteroid is marked |
| Collisions.ResolveScoresAHit | main.js:2452-2581 | without UFO hits, when any missile touches any asteroid, at least one asteroid is replaced and the score rises |
| Collisions.ResolveOneHit | main.js:2485-2581 | one missile touching the only asteroid: the missile is spent, the asteroid is replaced by a fresh one and the score rises by 1 |
| Collisions.ResolveDropsFollower | main.js:2517-2571 | a missile hitting an asteroid and a UFO is spliced out at once, and the removal pass then also takes the missile behind it, which touched nothing |
| Collisions.TurnSound | main.js:2459-2549 | one turn keeps the marks sound: every asteroid mark in range, listed once and touched by some original missile, missile marks sorted and below the next position |
| Collisions.ScanSound | main.js:2458-2550 | the whole loop keeps the marks sound |
| Game.RingCount | main.js:3290-3349 | `updateUfos` starts at most two rings per UFO |
| Game.UpdatedUfosFly | main.js:3290-3349 | after the update every UFO left has health and, with the shuttle present, none is overdue to emit |
| Game.Session.constructor | main.js:71-158 | the load-time state: score 0, health 100, no shield, empty inventory with cap 3, the default power-up and UFO settings, medium difficulty, paused and inactive, no model loaded, empty lists, no cool-down |
| Game.Session.ModelLoaded | main.js:1265-1297 | a loader callback (here the power-up models'; `loadShuttle` at main.js:2190 and `loadUfoModel` at main.js:3053 are alike) makes its model available for good and leaves the others as they were |
| Game.Session.CollectPowerUp | main.js:1733-1772 | the counter of the power-up's kind rises by exactly 1 when it is below the cap, and otherwise nothing changes; the other counter never moves, so a pickup never passes the cap |
| Game.Session.UseHealthBooster | main.js:1664-1698 | with no booster or full health nothing changes; otherwise one booster is spent and health becomes min(health + boost, 100) |
| Game.Session.ActivateShield | main.js:1913-1915 | the shield is up until now plus the shield duration |
| Game.Session.UseShieldBooster | main.js:1700-1730 | with no charge or a shield already up nothing changes; otherwise one charge is spent and the shield is up until now plus the duration |
| Game.Session.UpdateShield | main.js:1942-1960 | the shield drops exactly when the clock is strictly past its end time; the end time is kept |
| Game.Session.GameOver | main.js:3512-3513 | the game is paused |
| Game.Session.AnimateWave | main.js:3169-3258 | a ring step hurts only with the shuttle present, no shield, a ring that has not hurt before and the ring at the shuttle; a hit clamps health at 0, takes at least 5 or all that is left, marks the ring and ends the game exactly when health reaches 0; otherwise health is unchanged; the ring grows, or is removed once it has reached its range |
| Game.Session.CreateRadiationWave | main.js:3136-3260 | a new ring starts at radius 0 and takes its first step at once; health drops by the ring's damage exactly when that step hits; the game is lost exactly when the hit leaves health at 0 |
| Game.Session.ApplyDifficultySettings | main.js:1178-1193 | the live settings become exactly the selected profile; nothing else changes |
| Game.Session.SelectDifficulty | main.js:1134-1175 | the chosen level becomes current, its profile is installed, and the game restarts unpaused from a full reset |
| Game.Session.ChooseLevel | main.js:1142-1149 | the chosen level becomes current, its profile is installed and the game is unpaused |
| Game.Session.SpawnPowerUp | main.js:1366-1432 | nothing happens before the interval; once it has passed the timer restarts even if the spawn is given up; at most one power-up is added, and only below the cap, with a passing chance draw and the model of the drawn kind loaded |
| Game.Session.SpawnUfo | main.js:3065-3122 | with the UFO model and the shuttle loaded one UFO is added with health 10 and a radiation clock 1.5 s in the past; otherwise nothing changes |
| Game.Session.UpdateUfos | main.js:3290-3349 | the spawn gate fires on strict `>` and restarts its timer; the UFOs left are exactly those of the old list plus any spawned one, with the clocks of the emitting ones restarted, that still have health, in order; one ring per emission and per removal; 5 points per UFO removed; health never rises |
| Game.Session.WalkUfos | main.js:3298-3348 | the backwards walk leaves exactly the refreshed UFOs that still have health, in order, starts one ring per emission and per removal, and scores 5 per removal |
| Game.Session.UpdateUfo | main.js:3298-3348 | one UFO: when its interval has strictly passed (and the shuttle exists) it emits a ring of range 50 and its clock restarts; with no health it is removed with a burst ring of range 75 and 5 points; health, invulnerability and the pause flag follow exactly from which rings hit |
| Game.Session.EmitIfDue | main.js:3319-3321 | a due UFO emits a ring of range 50 (`emitRadiation`, main.js:3125-3133) and restarts its clock; the ring's hit decides health, invulnerability and the pause flag exactly; otherwise nothing changes |
| Game.Session.DestroyUfo | main.js:3330-3347 | a dead UFO starts a burst ring of range 75, is removed and scores 5; the ring's hit decides health, invulnerability and the pause flag exactly |
| Game.Session.ShootMissile | main.js:2066-2149 | without a cool-down and with the shuttle, five missiles with fresh consecutive handles and lifetime 0 are appended and the cool-down starts; otherwise nothing changes |
| Game.Session.EndMissileCooldown | main.js:2149 | the cool-down ends |
| Game.Session.UpdatePowerUps | main.js:1463-1494 | the power-ups left are exactly those not behind the shuttle, in order |
| Game.Session.UpdateMissiles | main.js:2152-2182 | every missile ages by the delta; those left are exactly the aged ones at most 5 s old and not too far, in order |
| Game.Session.UpdateAsteroids | main.js:2317-2348 | the field is the recycling walk of the old field: same size, no in-range asteroid lost |
| Game.Session.CreateAsteroids | main.js:2259-2264 | exactly 2000 asteroids with consecutive fresh handles are appended |
| Game.Session.HitUfo | main.js:2520-2546 | the UFO loses 10 health; at 0 or less it is removed for 5 points |
| Game.Session.ScanMissiles | main.js:2458-2550 | the missile loop does exactly what `ScanFrom` describes, and the marks it returns are sound (`MarksSound`) |
| Game.Session.ScanMissile | main.js:2459-2549 | one turn does exactly what `ScanStep` describes |
| Game.Session.PowerUpTurn | main.js:2465-2483 | the power-up test does exactly what `PowerUpStep` describes |
| Game.Session.AsteroidTurn | main.js:2485-2514 | the asteroid test does exactly what `AsteroidStep` describes |
| Game.Session.UfoTurn | main.js:2517-2549 | the UFO test does exactly what `UfoStep` describes |
| Game.Session.FindPowerUpHit | main.js:2465-2483 | the first power-up in contact with the missile, or none when no power-up is |
| Game.Session.FindAsteroidHit | main.js:2485-2514 | the first unmarked asteroid in contact with the missile, or none when there is none |
| Game.Session.FindUfoHit | main.js:2517-2549 | the last UFO in contact with the missile, or none when there is none |
| Game.Session.RemoveMarkedMissiles | main.js:2567-2571 | the missiles become the backwards walk over the missile marks |
| Game.Session.RemoveMarkedAsteroids | main.js:2573-2581 | the asteroids become the removal pass over the asteroid marks; the field keeps its size and one fresh handle is used per mark |
| Game.Session.RemoveMarks | main.js:2566-2581 | both removal passes, missiles first, exactly as `RemoveMarked` describes |
| Game.Session.DetectCollisions | main.js:2439-2587 | nothing happens without a shuttle or an active game; a crash pauses the game and changes nothing else; otherwise the lists, score, counters and handles become exactly `ResolveHits` of the old state, the field keeps its size, no counter falls and the cap is kept |
| Game.Session.ResolveMissileHits | main.js:2452-2581 | the missile loop and both removal passes end exactly in `ResolveHits` of the old state; the field keeps its size and the score grows by 1 per fresh asteroid and 5 per UFO removed |
| Game.Session.FindCrash | main.js:2443-2449 | true exactly when some asteroid touches the shuttle |
| Game.Session.UpdateShuttle | main.js:2207-2219 | reaching the goal with the shuttle loaded pauses the game |
| Game.Session.TogglePause | main.js:2777-2789 | the pause flag flips only while a game is active |
| Game.Session.ResetGame | main.js:2820-2869 | score 0, health 100, no shield, empty inventory, an active unpaused game, no missiles, UFOs or power-ups, no cool-down, and exactly 2000 asteroids with fresh consecutive handles; the invariant and the cap hold afterwards |
| Game.Session.ResetStatus | main.js:2822-2836 | the player part of the reset: score, health, shield, flags and inventory start over |
| Game.Session.ResetField | main.js:2845-2869 | the entity part of the reset: the lists are emptied, 2000 fresh asteroids are created and the cool-down ends |
| Game.Session.Animate | main.js:2910-2938 | a paused frame changes nothing; an unpaused frame keeps the invariant, the asteroid field's size and an inventory within its cap |
| Game.Session.MoveEntities | main.js:2919-2926 | the first half of a frame keeps the asteroid field's size |
| Game.Session.ResolveThreats | main.js:2932-2937 | the UFO update and the collision check keep the invariant, the asteroid field's size and an inventory within its cap |
| Game.Session.SettleCollisions | main.js:2937 | the collision check at the end of a frame keeps the invariant, the field's size and an inventory within its cap |

## Left out

- Scene objects, meshes, lights, the camera and the loading itself are left out. Whether the shuttle, UFO and power-up models are loaded is an `Assets` value, set by `ModelLoaded`. The asteroid models have no flag: see the `Game.Session.ResetGame` line.
- Positions, velocities, steering, wobble, bobbing and aiming are left out. All of these are floating-point geometry. Their hit and range tests become the `Contacts` sets and the per-frame id sets.
- `Math.random()` and `performance.now()` are left out. Draws and clock readings are parameters. `spawnUfo` reads the clock itself, and the model passes it the frame's time.
- Deferred callbacks are left out as timers: the invulnerability reset, the flash removal, auto-fire and the countdown. Each is a `setTimeout` that runs outside the frame. The missile cool-down's timer is the separate method `EndMissileCooldown`; nothing ties it to 300 ms.
- Explosions, particles, pulsing, sounds, the heartbeat, the HUD, menus, messages and the leaderboard are left out. None of them changes game state.
- `selectDifficulty`'s guarded call of `initGame` (main.js:1171-1173) is left out because it is dead: `initGame` already runs at load time (main.js:1070) and sets `gameInitialized` (main.js:2959). The load-time `initGame` itself is the constructor plus the `ModelLoaded` callbacks.
- The power-up collection loop at main.js:2554-2564 is left out: its list is never filled, because the push at main.js:2475 is commented out. `collectPowerUp`'s guard against a missing object is also left out, because every power-up in the model is a value.
- The occasional velocity jitter of `updateAsteroids` (main.js:2350-2356) is left out: it is geometric.
- Game.Session.ResetGame and Game.Session.CreateAsteroids: the asteroid models are assumed loaded, so every call creates its asteroids. In main.js, `createRandomAsteroid` indexes `asteroidModels` (main.js:2274), and while that array is empty the `.clone()` throws. That stops `resetGame` after it has cleared the lists, and it stops the replacement in the collision check too. The field the asteroid loader builds once all models have arrived (main.js:2251) is left out as well. While it exists the game is still paused and inactive, so no frame or collision check reads it, and the first reset clears it and builds a new field.
- Game.Session.AnimateWave: health is a mathematical real, not a JavaScript double, so rounding is not modelled.
- Game.Session.UpdateAsteroids: states that `nextId` does not fall, not how many handles the walk used; the new asteroids are part of `Recycle`'s result.
- Game.Session.Animate: states the pause gate, the invariant, the field size and the inventory cap, not the composed effect of a frame. The exact effect of each step is the contract of `UpdateUfos`, `DetectCollisions` and the list updates it calls.
- Game.Session.MoveEntities: states only that the field keeps its size. The exact lists, the shield and the spawn timer after the first half of a frame are the contracts of `UpdateAsteroids`, `UpdateMissiles`, `UpdatePowerUps`, `UpdateShield` and `SpawnPowerUp`, and are not composed here. It does not restate the session invariant, because none of its steps touch the fields the invariant reads.
- Game.Session.ResolveThreats: states the invariant, the field size and the inventory cap, not the exact lists and score after the UFO update and the collision check; those are the contracts of `UpdateUfos` and `DetectCollisions`.
- Game.Session.SettleCollisions: states what a frame keeps, not the exact outcome, which is `DetectCollisions`' contract.
