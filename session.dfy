/** The game-state core of main.js: the module-level variables become the
    fields of one `Session`, and each function that updates them in place
    becomes a method. Most contracts state the new state exactly, or tie it
    to a specification function; the frame-level methods state only the
    invariants a frame keeps. Random draws, clock readings and the results
    of distance tests are parameters. */
module Game {
  import opened Lists
  import opened Difficulty
  import opened Entities
  import opened Collisions

  /** Keep-test of `updatePowerUps`: a power-up goes once it has fallen
      behind the shuttle, a test made only while the shuttle exists. */
  function KeepPowerUp(shuttleLoaded: bool, behind: set<nat>): (keep: PowerUp -> bool)
  {
    (p: PowerUp) => !(shuttleLoaded && p.id in behind)
  }

  /** Keep-test of `updateMissiles`: a missile goes once it has lived more
      than five seconds or strayed too far from the shuttle. */
  function KeepMissile(far: set<nat>): (keep: Missile -> bool)
  {
    (m: Missile) => !(m.lifetime > MissileMaxLifetime || m.id in far)
  }

  /** A UFO's radiation interval has passed (strictly) in a frame where
      the shuttle exists, so `updateUfos` makes it emit. */
  predicate RadiationDue(u: Ufo, now: int, rate: int, shuttleLoaded: bool)
  {
    shuttleLoaded && now - u.lastRadiationTime > rate
  }

  /** A UFO after the emission test of `updateUfos`: an emitting UFO's
      radiation clock restarts at `now`. */
  function Refreshed(u: Ufo, now: int, rate: int, shuttleLoaded: bool): Ufo
  {
    if RadiationDue(u, now, rate, shuttleLoaded) then u.(lastRadiationTime := now) else u
  }

  /** Every UFO of the list after the emission test. */
  function RefreshAll(us: seq<Ufo>, now: int, rate: int, shuttleLoaded: bool): seq<Ufo>
  {
    seq(|us|, k requires 0 <= k < |us| => Refreshed(us[k], now, rate, shuttleLoaded))
  }

  /** Keep-test of `updateUfos`: a UFO stays while it has health. */
  function KeepUfo(): (keep: Ufo -> bool)
  {
    (u: Ufo) => u.health > 0
  }

  /** The rings `updateUfos` starts for the UFOs `us`: one per emission and
      one per UFO removed. */
  function RingCount(us: seq<Ufo>, now: int, rate: int, shuttleLoaded: bool): (n: nat)
    ensures n <= 2 * |us|
  {
    if us == [] then 0
    else (if RadiationDue(us[0], now, rate, shuttleLoaded) then 1 else 0)
         + (if us[0].health <= 0 then 1 else 0)
         + RingCount(us[1..], now, rate, shuttleLoaded)
  }

  /** After `updateUfos`, every UFO left has health and, while the shuttle
      exists, none is overdue to emit. */
  lemma UpdatedUfosFly(us: seq<Ufo>, now: int, rate: int, shuttleLoaded: bool)
    requires rate >= 0
    ensures var r := Filter(RefreshAll(us, now, rate, shuttleLoaded), KeepUfo());
      && (forall k :: 0 <= k < |r| ==> r[k].health > 0)
      && (shuttleLoaded ==> forall k :: 0 <= k < |r| ==> now - r[k].lastRadiationTime <= rate)
  {
    var all := RefreshAll(us, now, rate, shuttleLoaded);
    var r := Filter(all, KeepUfo());
    forall k | 0 <= k < |r|
      ensures r[k].health > 0
      ensures shuttleLoaded ==> now - r[k].lastRadiationTime <= rate
    {
      FilterMembership(all, KeepUfo(), r[k]);
    }
  }

  /** The radius a wave reaches after `elapsed` more seconds. */
  function WaveRadius(w: Wave, elapsed: real): real
  {
    w.radius + WaveExpandSpeed * elapsed
  }

  /** The shuttle touches the ring when its distance from the source is
      within the tolerance of the ring's radius. */
  predicate WaveReaches(w: Wave, elapsed: real, distance: real)
  {
    Abs(distance - WaveRadius(w, elapsed)) < WaveTolerance
  }

  /** Some asteroid of the list touches the shuttle. */
  predicate Crashes(asteroids: seq<Asteroid>, c: Contacts)
  {
    exists k :: 0 <= k < |asteroids| && asteroids[k].id in c.shuttleAsteroid
  }

  /** Everything one animation frame learns from the outside world: the
      frame delta (seconds) and clock (milliseconds), the outcome of the
      geometric tests, and the random draws. */
  datatype Frame = Frame(
    deltaTime: real,
    currentTime: int,
    atGoal: bool,
    asteroidsOutOfRange: set<nat>,
    missilesTooFar: set<nat>,
    powerUpsBehind: set<nat>,
    spawnDraw: real,
    kindDraw: real,
    ufoDistance: nat -> real,
    contacts: Contacts)

  class Session {
    var score: int
    var shuttleHealth: real
    var shuttleInvulnerable: bool
    var shieldActive: bool
    var shieldEndTime: int

    var inventoryHealth: int
    var inventoryShield: int
    var maxItems: int

    // powerUpSettings
    var spawnRate: int
    var spawnChance: real
    var shieldDuration: int
    var healthBoost: int
    var lastSpawnTime: int

    var ufoSpawnInterval: int
    var ufoRadiationRate: int
    var lastUfoSpawnTime: int

    /** `difficultySettings.current` */
    var difficulty: Level
    var gamePaused: bool
    var gameActive: bool
    var assets: Assets

    var asteroids: seq<Asteroid>
    var missiles: seq<Missile>
    var powerUps: seq<PowerUp>
    var ufos: seq<Ufo>
    /** The radiation rings still animating. */
    var waves: seq<Wave>
    /** The next free entity handle. */
    var nextId: nat
    /** Set while the cool-down after a volley of missiles runs. */
    var missileCooldown: bool

    /** The inventory counters are never negative, and the rest of the
        state is consistent. */
    ghost predicate Valid()
      reads this`shuttleHealth, this`inventoryHealth, this`inventoryShield, this`maxItems,
            this`healthBoost, this`ufoRadiationRate, this`waves
    {
      0 <= inventoryHealth && 0 <= inventoryShield && Consistent()
    }

    /** Health stays in [0, 100], the cap and the boost are never negative,
        every ring has a positive range, and the radiation interval exceeds a
        new UFO's head start. */
    ghost predicate Consistent()
      reads this`shuttleHealth, this`maxItems, this`healthBoost, this`ufoRadiationRate, this`waves
    {
      && 0.0 <= shuttleHealth <= MaxHealth
      && maxItems >= 0
      && healthBoost >= 0
      && ufoRadiationRate > UfoRadiationHeadStart
      && (forall k :: 0 <= k < |waves| ==> waves[k].maxRadius > 0.0)
    }

    /** Neither inventory counter is above the cap. */
    ghost predicate WithinCap()
      reads this`inventoryHealth, this`inventoryShield, this`maxItems
    {
      inventoryHealth <= maxItems && inventoryShield <= maxItems
    }

    /** The state main.js starts with when the page loads (power-up timer
        started at `loadTime`); no asset is loaded yet. */
    constructor (loadTime: int)
      ensures Valid() && WithinCap()
      ensures score == 0 && shuttleHealth == MaxHealth && !shuttleInvulnerable
      ensures !shieldActive && shieldEndTime == 0
      ensures inventoryHealth == 0 && inventoryShield == 0 && maxItems == 3
      ensures spawnRate == 15000 && spawnChance == 0.9 && shieldDuration == 8000 && healthBoost == 25
      ensures lastSpawnTime == loadTime
      ensures ufoSpawnInterval == 7000 && ufoRadiationRate == 3000 && lastUfoSpawnTime == 0
      ensures difficulty == Medium && gamePaused && !gameActive
      ensures assets == Assets(false, false, false, false)
      ensures asteroids == [] && missiles == [] && powerUps == [] && ufos == [] && waves == []
      ensures !missileCooldown
    {
      score := 0;
      shuttleHealth := MaxHealth;
      shuttleInvulnerable := false;
      shieldActive := false;
      shieldEndTime := 0;
      inventoryHealth, inventoryShield, maxItems := 0, 0, 3;
      spawnRate, spawnChance, shieldDuration, healthBoost := 15000, 0.9, 8000, 25;
      lastSpawnTime := loadTime;
      ufoSpawnInterval, ufoRadiationRate, lastUfoSpawnTime := 7000, 3000, 0;
      difficulty := Medium;
      gamePaused, gameActive := true, false;
      assets := Assets(false, false, false, false);
      asteroids, missiles, powerUps, ufos, waves := [], [], [], [], [];
      nextId := 0;
      missileCooldown := false;
    }

    /** The success callback of a model loader (`loadShuttle`,
        `loadUfoModel`, `loadPowerUpModels`): the model becomes available and
        stays so; the other models are as they were. The power-up loaders'
        error callbacks build a fallback model, which has the same effect. */
    method ModelLoaded(model: Model)
      modifies this`assets
      ensures assets.shuttle == (old(assets.shuttle) || model == ShuttleModel)
      ensures assets.ufoModel == (old(assets.ufoModel) || model == UfoModel)
      ensures assets.healthModel == (old(assets.healthModel) || model == HealthModel)
      ensures assets.shieldModel == (old(assets.shieldModel) || model == ShieldModel)
    {
      match model
      case ShuttleModel => assets := assets.(shuttle := true);
      case UfoModel => assets := assets.(ufoModel := true);
      case HealthModel => assets := assets.(healthModel := true);
      case ShieldModel => assets := assets.(shieldModel := true);
    }

    // ---------------------------------------------------------------
    // Player resources

    /** `collectPowerUp`: the counter of the power-up's kind goes up by one
        unless it is already at the cap; the other counter never moves. */
    method CollectPowerUp(p: PowerUp) returns (stored: bool)
      modifies this`inventoryHealth, this`inventoryShield
      ensures p.kind == HealthBooster ==>
        && stored == (old(inventoryHealth) < maxItems)
        && inventoryHealth == (if stored then old(inventoryHealth) + 1 else old(inventoryHealth))
        && inventoryShield == old(inventoryShield)
      ensures p.kind == ShieldBooster ==>
        && stored == (old(inventoryShield) < maxItems)
        && inventoryShield == (if stored then old(inventoryShield) + 1 else old(inventoryShield))
        && inventoryHealth == old(inventoryHealth)
      ensures old(WithinCap()) ==> WithinCap()
    {
      if p.kind == HealthBooster {
        stored := inventoryHealth < maxItems;
        if stored {
          inventoryHealth := inventoryHealth + 1;
        }
      } else {
        stored := inventoryShield < maxItems;
        if stored {
          inventoryShield := inventoryShield + 1;
        }
      }
    }

    /** `useHealthBooster`: rejected with no change when there is no booster
        or health is already full; otherwise one booster is spent and health
        rises by the boost, capped at 100. */
    method UseHealthBooster() returns (used: bool)
      requires Valid()
      modifies this`inventoryHealth, this`shuttleHealth
      ensures Valid()
      ensures used == (old(inventoryHealth) > 0 && old(shuttleHealth) < MaxHealth)
      ensures used ==>
        inventoryHealth == old(inventoryHealth) - 1 && shuttleHealth == Boosted(old(shuttleHealth), healthBoost)
      ensures !used ==> inventoryHealth == old(inventoryHealth) && shuttleHealth == old(shuttleHealth)
      ensures old(WithinCap()) ==> WithinCap()
    {
      if inventoryHealth <= 0 {
        return false;
      }
      if shuttleHealth >= MaxHealth {
        return false;
      }
      inventoryHealth := inventoryHealth - 1;
      shuttleHealth := Boosted(shuttleHealth, healthBoost);
      used := true;
    }

    /** `activateShield`: the shield is up until `now` plus the shield
        duration. */
    method ActivateShield(now: int)
      modifies this`shieldActive, this`shieldEndTime
      ensures shieldActive && shieldEndTime == now + shieldDuration
    {
      shieldActive := true;
      shieldEndTime := now + shieldDuration;
    }

    /** `useShieldBooster`: rejected with no change when there is no shield
        charge or a shield is already up; otherwise one charge is spent and
        the shield is raised from `now`. */
    method UseShieldBooster(now: int) returns (used: bool)
      requires Valid()
      modifies this`inventoryShield, this`shieldActive, this`shieldEndTime
      ensures Valid()
      ensures used == (old(inventoryShield) > 0 && !old(shieldActive))
      ensures used ==>
        inventoryShield == old(inventoryShield) - 1 && shieldActive && shieldEndTime == now + shieldDuration
      ensures !used ==>
        && inventoryShield == old(inventoryShield)
        && shieldActive == old(shieldActive)
        && shieldEndTime == old(shieldEndTime)
      ensures old(WithinCap()) ==> WithinCap()
    {
      if inventoryShield <= 0 {
        return false;
      }
      if shieldActive {
        return false;
      }
      inventoryShield := inventoryShield - 1;
      ActivateShield(now);
      used := true;
    }

    /** `updateShield`: an active shield drops exactly when the clock has
        passed its end time; the end time itself is kept. */
    method UpdateShield(currentTime: int)
      modifies this`shieldActive
      ensures shieldActive == (old(shieldActive) && currentTime <= shieldEndTime)
    {
      if !shieldActive {
        return;
      }
      if currentTime > shieldEndTime {
        shieldActive := false;
      }
    }

    /** `gameOver` (the later of its two definitions, which is the one in
        effect): it pauses the game and nothing else; `gameActive` stays set. */
    method GameOver(success: bool)
      modifies this`gamePaused
      ensures gamePaused
    {
      gamePaused := true;
    }

    /** A wave of radiation hurts the shuttle in this step: the shuttle exists,
        no shield is up, the wave has not hurt it before and its ring reaches
        the shuttle. */
    predicate WaveHits(w: Wave, elapsed: real, distance: real)
      reads this`assets, this`shieldActive
    {
      assets.shuttle && !shieldActive && !w.hasDamagedShuttle && WaveReaches(w, elapsed, distance)
    }

    /** One animation step of the radiation ring `waves[i]` (the inner
        `animateWave` of `createRadiationWave`), `elapsed` seconds after the
        last, with the shuttle `distance` from the ring's source. A hit takes
        at least 5 (or all that is left) off health, never below 0, marks the
        ring so that it never hurts again, and ends the game when health is
        gone. The ring stops once it has reached its range. */
    method AnimateWave(i: nat, elapsed: real, distance: real) returns (lost: bool)
      requires Valid() && i < |waves|
      modifies this`shuttleHealth, this`shuttleInvulnerable, this`gamePaused, this`waves
      ensures Valid()
      ensures var w := old(waves[i]);
        WaveHits(w, elapsed, distance) ==>
          && shuttleHealth == Damaged(old(shuttleHealth), RadiationDamage(distance, w.maxRadius))
          && (shuttleHealth == 0.0 || shuttleHealth <= old(shuttleHealth) - RadiationMinDamage)
          && shuttleInvulnerable
      ensures var w := old(waves[i]);
        !WaveHits(w, elapsed, distance) ==>
          shuttleHealth == old(shuttleHealth) && shuttleInvulnerable == old(shuttleInvulnerable)
      ensures lost <==> WaveHits(old(waves[i]), elapsed, distance) && shuttleHealth == 0.0
      ensures gamePaused == (old(gamePaused) || lost)
      ensures var w := old(waves[i]); var r := WaveRadius(w, elapsed);
        waves == if r < w.maxRadius
                 then old(waves)[i := Wave(r, w.maxRadius, w.hasDamagedShuttle || WaveHits(w, elapsed, distance))]
                 else RemoveAt(old(waves), i)
    {
      var w := waves[i];
      var radius := WaveRadius(w, elapsed);
      var damaged := w.hasDamagedShuttle;
      lost := false;
      if assets.shuttle && !shieldActive && !damaged {
        if Abs(distance - radius) < WaveTolerance {
          var damage := RadiationDamage(distance, w.maxRadius);
          shuttleHealth := Damaged(shuttleHealth, damage);
          shuttleInvulnerable := true;
          if shuttleHealth <= 0.0 {
            GameOver(false);
            lost := true;
          }
          damaged := true;
        }
      }
      if radius < w.maxRadius {
        waves := waves[i := Wave(radius, w.maxRadius, damaged)];
      } else {
        waves := RemoveAt(waves, i);
      }
    }

    /** `createRadiationWave`: a new ring of the given range starts at radius
        0 and takes its first step at once, so a shuttle within the
        tolerance of the source is hit immediately; the game is lost exactly
        when that hit takes the last of the shuttle's health. */
    method CreateRadiationWave(maxRadius: real, distance: real) returns (lost: bool)
      requires Valid() && maxRadius > 0.0
      modifies this`shuttleHealth, this`shuttleInvulnerable, this`gamePaused, this`waves
      ensures Valid()
      ensures var w := Wave(0.0, maxRadius, false);
        waves == old(waves) + [Wave(0.0, maxRadius, WaveHits(w, 0.0, distance))]
      ensures var w := Wave(0.0, maxRadius, false);
        shuttleHealth == (if WaveHits(w, 0.0, distance)
                          then Damaged(old(shuttleHealth), RadiationDamage(distance, maxRadius))
                          else old(shuttleHealth))
      ensures shuttleHealth <= old(shuttleHealth)
      ensures shuttleInvulnerable == (old(shuttleInvulnerable) || WaveHits(Wave(0.0, maxRadius, false), 0.0, distance))
      ensures lost <==> WaveHits(Wave(0.0, maxRadius, false), 0.0, distance) && shuttleHealth == 0.0
      ensures gamePaused == (old(gamePaused) || lost)
    {
      waves := waves + [Wave(0.0, maxRadius, false)];
      lost := AnimateWave(|waves| - 1, 0.0, distance);
    }

    // ---------------------------------------------------------------
    // Difficulty

    /** The seven live settings, read back as a profile. */
    ghost function LiveSettings(): Profile
      reads this`spawnRate, this`spawnChance, this`shieldDuration, this`healthBoost,
            this`maxItems, this`ufoRadiationRate, this`ufoSpawnInterval
    {
      Profile(spawnRate, spawnChance, shieldDuration, healthBoost, maxItems, ufoRadiationRate, ufoSpawnInterval)
    }

    /** `applyDifficultySettings`: the seven settings of the selected profile
        are copied into the live settings; counters, health and timers are
        left as they are. */
    method ApplyDifficultySettings()
      requires Valid()
      modifies this`spawnRate, this`spawnChance, this`shieldDuration, this`healthBoost,
               this`maxItems, this`ufoRadiationRate, this`ufoSpawnInterval
      ensures Valid()
      ensures LiveSettings() == ProfileOf(difficulty)
    {
      var settings := ProfileOf(difficulty);
      spawnRate := settings.powerUpSpawnRate;
      spawnChance := settings.powerUpSpawnChance;
      shieldDuration := settings.shieldDuration;
      healthBoost := settings.healthBoost;
      maxItems := settings.maxInventoryCap;
      ufoRadiationRate := settings.ufoRadiationRate;
      ufoSpawnInterval := settings.ufoSpawnInterval;
    }

    // ---------------------------------------------------------------
    // Spawners

    /** `spawnPowerUp`: nothing happens while the spawn interval has not yet
        passed. Once it has, the timer restarts at `currentTime` even if the
        spawn is then given up (list full, the chance draw above the spawn
        chance, the model for the chosen kind not loaded). At most one
        power-up is added, and only while the list is below its cap. */
    method SpawnPowerUp(currentTime: int, chanceDraw: real, kindDraw: real)
      modifies this`lastSpawnTime, this`powerUps, this`nextId
      ensures var due := assets.shuttle && currentTime - old(lastSpawnTime) >= spawnRate;
        lastSpawnTime == if due then currentTime else old(lastSpawnTime)
      ensures var due := assets.shuttle && currentTime - old(lastSpawnTime) >= spawnRate;
        var kind := KindFor(kindDraw);
        var spawned := due && |old(powerUps)| < MaxPowerUps && chanceDraw <= spawnChance
                       && (if kind == HealthBooster then assets.healthModel else assets.shieldModel);
        && powerUps == (if spawned then old(powerUps) + [PowerUp(old(nextId), kind, currentTime)] else old(powerUps))
        && nextId == (if spawned then old(nextId) + 1 else old(nextId))
      ensures |powerUps| > |old(powerUps)| ==> |powerUps| <= MaxPowerUps
    {
      if !assets.shuttle {
        return;
      }
      if currentTime - lastSpawnTime < spawnRate {
        return;
      }
      lastSpawnTime := currentTime;
      if |powerUps| >= MaxPowerUps {
        return;
      }
      if chanceDraw > spawnChance {
        return;
      }
      var kind := KindFor(kindDraw);
      if kind == HealthBooster && !assets.healthModel {
        return;
      }
      if kind == ShieldBooster && !assets.shieldModel {
        return;
      }
      powerUps := powerUps + [PowerUp(nextId, kind, currentTime)];
      nextId := nextId + 1;
    }

    /** `spawnUfo`: with the UFO model and the shuttle loaded, one UFO is
        added with health 10 and its radiation clock 1.5 s in the past. */
    method SpawnUfo(now: int)
      modifies this`ufos, this`nextId
      ensures assets.ufoModel && assets.shuttle ==>
        ufos == old(ufos) + [Ufo(old(nextId), UfoInitialHealth, now - UfoRadiationHeadStart)]
        && nextId == old(nextId) + 1
      ensures !(assets.ufoModel && assets.shuttle) ==> ufos == old(ufos) && nextId == old(nextId)
    {
      if !assets.ufoModel || !assets.shuttle {
        return;
      }
      ufos := ufos + [Ufo(nextId, UfoInitialHealth, now - UfoRadiationHeadStart)];
      nextId := nextId + 1;
    }

    /** `updateUfos` (its state changes): a UFO is spawned when more than the
        spawn interval has passed, and the spawn timer restarts. Then, from
        the last UFO to the first, a UFO whose radiation interval has passed
        (strictly) emits a ring and restarts its radiation clock, and a UFO
        with no health left is removed with a burst ring and 5 points. The
        UFOs left are exactly the refreshed UFOs that still have health, in
        order; one ring is started per emission and per removal, and the
        score grows by 5 per UFO removed. */
    method UpdateUfos(currentTime: int, ufoDistance: nat -> real)
      requires Valid()
      modifies this`ufos, this`nextId, this`lastUfoSpawnTime, this`score,
               this`shuttleHealth, this`shuttleInvulnerable, this`gamePaused, this`waves
      ensures Valid()
      ensures var due := currentTime - old(lastUfoSpawnTime) > ufoSpawnInterval;
        && lastUfoSpawnTime == (if due then currentTime else old(lastUfoSpawnTime))
        && nextId == (if due && assets.ufoModel && assets.shuttle then old(nextId) + 1 else old(nextId))
      ensures var spawned := currentTime - old(lastUfoSpawnTime) > ufoSpawnInterval && assets.ufoModel && assets.shuttle;
        var listed := if spawned then old(ufos) + [Ufo(old(nextId), UfoInitialHealth, currentTime - UfoRadiationHeadStart)]
                      else old(ufos);
        && ufos == Filter(RefreshAll(listed, currentTime, ufoRadiationRate, assets.shuttle), KeepUfo())
        && |waves| == |old(waves)| + RingCount(listed, currentTime, ufoRadiationRate, assets.shuttle)
      ensures score == old(score) + UfoBonus * (|old(ufos)| + (nextId - old(nextId)) - |ufos|)
      ensures forall k :: 0 <= k < |ufos| ==> ufos[k].health > 0
      ensures assets.shuttle ==> forall k :: 0 <= k < |ufos| ==> currentTime - ufos[k].lastRadiationTime <= ufoRadiationRate
      ensures shuttleHealth <= old(shuttleHealth)
    {
      if currentTime - lastUfoSpawnTime > ufoSpawnInterval {
        SpawnUfo(currentTime);
        lastUfoSpawnTime := currentTime;
      }
      ghost var listed := ufos;
      WalkUfos(currentTime, ufoDistance);
      UpdatedUfosFly(listed, currentTime, ufoRadiationRate, assets.shuttle);
    }

    /** The loop of `updateUfos`, from the last UFO to the first: the UFOs
        left are the refreshed ones that still have health, in order, one
        ring is started per emission and per removal, and each removal
        scores 5. */
    method WalkUfos(currentTime: int, ufoDistance: nat -> real)
      requires Valid()
      modifies this`ufos, this`score, this`shuttleHealth, this`shuttleInvulnerable, this`gamePaused, this`waves
      ensures Valid()
      ensures ufos == Filter(RefreshAll(old(ufos), currentTime, ufoRadiationRate, assets.shuttle), KeepUfo())
      ensures |waves| == |old(waves)| + RingCount(old(ufos), currentTime, ufoRadiationRate, assets.shuttle)
      ensures score == old(score) + UfoBonus * (|old(ufos)| - |ufos|)
      ensures shuttleHealth <= old(shuttleHealth)
    {
      ghost var refreshed := RefreshAll(ufos, currentTime, ufoRadiationRate, assets.shuttle);
      var i := |ufos|;
      while i > 0
        invariant Valid()
        invariant 0 <= i <= |old(ufos)| && i <= |ufos|
        invariant ufos == old(ufos)[..i] + Filter(refreshed[i..], KeepUfo())
        invariant score == old(score) + UfoBonus * (|old(ufos)| - |ufos|)
        invariant |waves| == |old(waves)| + RingCount(old(ufos)[i..], currentTime, ufoRadiationRate, assets.shuttle)
        invariant shuttleHealth <= old(shuttleHealth)
      {
        i := i - 1;
        ghost var before := ufos;
        assert before[i] == old(ufos)[i];
        UpdateUfo(i, currentTime, ufoDistance(ufos[i].id));
        if old(ufos)[i].health <= 0 {
          assert RemoveAt(before[i := refreshed[i]], i) == ufos;
          FilterWalkDropped(old(ufos), refreshed, i, before, KeepUfo());
        } else {
          FilterWalkKept(old(ufos), refreshed, i, before, KeepUfo());
        }
        assert old(ufos)[i..][1..] == old(ufos)[i + 1..];
      }
    }

    /** One step of the backwards walk of `updateUfos` on `ufos[i]`: when its
        radiation interval has passed it emits a ring of range 50 and its
        clock restarts at `currentTime`; with no health left it is then
        removed with a burst ring of range 75 and 5 points. Each ring hurts
        the shuttle at once when it is within the tolerance of the UFO, and
        the game is lost when a hit leaves no health. */
    method UpdateUfo(i: nat, currentTime: int, distance: real)
      requires Valid() && i < |ufos|
      modifies this`ufos, this`score, this`shuttleHealth, this`shuttleInvulnerable, this`gamePaused, this`waves
      ensures Valid()
      ensures var u := old(ufos[i]);
        if u.health <= 0 then ufos == RemoveAt(old(ufos), i) && score == old(score) + UfoBonus
        else ufos == old(ufos)[i := Refreshed(u, currentTime, ufoRadiationRate, assets.shuttle)] && score == old(score)
      ensures var u := old(ufos[i]);
        var fired := RadiationDue(u, currentTime, ufoRadiationRate, assets.shuttle);
        var emitHits := WaveHits(Wave(0.0, RadiationRange, false), 0.0, distance);
        var burstHits := WaveHits(Wave(0.0, BurstRange, false), 0.0, distance);
        && waves == old(waves) + (if fired then [Wave(0.0, RadiationRange, emitHits)] else [])
                               + (if u.health <= 0 then [Wave(0.0, BurstRange, burstHits)] else [])
        && (var afterEmit := if fired && emitHits
                             then Damaged(old(shuttleHealth), RadiationDamage(distance, RadiationRange))
                             else old(shuttleHealth);
            shuttleHealth == (if u.health <= 0 && burstHits
                              then Damaged(afterEmit, RadiationDamage(distance, BurstRange))
                              else afterEmit))
        && shuttleInvulnerable == (old(shuttleInvulnerable) || (fired && emitHits) || (u.health <= 0 && burstHits))
        && gamePaused == (old(gamePaused) || (((fired && emitHits) || (u.health <= 0 && burstHits)) && shuttleHealth == 0.0))
      ensures shuttleHealth <= old(shuttleHealth)
    {
      ghost var before := ufos;
      EmitIfDue(i, currentTime, distance);
      if ufos[i].health <= 0 {
        DestroyUfo(i, distance);
        assert ufos == RemoveAt(before, i);
      }
    }

    /** The emission test of `updateUfos` on `ufos[i]`: when the shuttle
        exists and the UFO's radiation interval has passed, `emitRadiation`
        starts a ring of range 50 and the UFO's clock restarts at
        `currentTime`; otherwise nothing changes. */
    method EmitIfDue(i: nat, currentTime: int, distance: real)
      requires Valid() && i < |ufos|
      modifies this`ufos, this`shuttleHealth, this`shuttleInvulnerable, this`gamePaused, this`waves
      ensures Valid()
      ensures ufos == old(ufos)[i := Refreshed(old(ufos[i]), currentTime, ufoRadiationRate, assets.shuttle)]
      ensures var fired := RadiationDue(old(ufos[i]), currentTime, ufoRadiationRate, assets.shuttle);
        var hit := fired && WaveHits(Wave(0.0, RadiationRange, false), 0.0, distance);
        && waves == old(waves) + (if fired then [Wave(0.0, RadiationRange, hit)] else [])
        && shuttleHealth == (if hit then Damaged(old(shuttleHealth), RadiationDamage(distance, RadiationRange))
                             else old(shuttleHealth))
        && shuttleInvulnerable == (old(shuttleInvulnerable) || hit)
        && gamePaused == (old(gamePaused) || (hit && shuttleHealth == 0.0))
    {
      var ufo := ufos[i];
      if assets.shuttle && currentTime - ufo.lastRadiationTime > ufoRadiationRate {
        var lost := CreateRadiationWave(RadiationRange, distance);
        ufos := ufos[i := ufo.(lastRadiationTime := currentTime)];
      }
    }

    /** The removal of `ufos[i]` in `updateUfos` once it has no health left:
        a burst ring of range 75 starts, the UFO goes and the score grows by
        5. */
    method DestroyUfo(i: nat, distance: real)
      requires Valid() && i < |ufos|
      modifies this`ufos, this`score, this`shuttleHealth, this`shuttleInvulnerable, this`gamePaused, this`waves
      ensures Valid()
      ensures ufos == RemoveAt(old(ufos), i) && score == old(score) + UfoBonus
      ensures var hit := WaveHits(Wave(0.0, BurstRange, false), 0.0, distance);
        && waves == old(waves) + [Wave(0.0, BurstRange, hit)]
        && shuttleHealth == (if hit then Damaged(old(shuttleHealth), RadiationDamage(distance, BurstRange))
                             else old(shuttleHealth))
        && shuttleInvulnerable == (old(shuttleInvulnerable) || hit)
        && gamePaused == (old(gamePaused) || (hit && shuttleHealth == 0.0))
    {
      var lost := CreateRadiationWave(BurstRange, distance);
      ufos := RemoveAt(ufos, i);
      score := score + UfoBonus;
    }

    // ---------------------------------------------------------------
    // Firing

    /** `shootMissile`: while no cool-down runs and the shuttle exists, a
        volley of five missiles with fresh handles and lifetime 0 is
        appended and the cool-down starts; otherwise nothing changes. */
    method ShootMissile()
      modifies this`missileCooldown, this`missiles, this`nextId
      ensures var fires := !old(missileCooldown) && assets.shuttle;
        && missileCooldown == (old(missileCooldown) || assets.shuttle)
        && nextId == (if fires then old(nextId) + VolleySize else old(nextId))
        && |missiles| == (if fires then |old(missiles)| + VolleySize else |old(missiles)|)
      ensures missiles[..|old(missiles)|] == old(missiles)
      ensures forall k :: |old(missiles)| <= k < |missiles| ==>
        missiles[k] == Missile(old(nextId) + (k - |old(missiles)|), 0.0)
    {
      if missileCooldown || !assets.shuttle {
        return;
      }
      missileCooldown := true;
      missiles := missiles + [Missile(nextId, 0.0), Missile(nextId + 1, 0.0), Missile(nextId + 2, 0.0),
                              Missile(nextId + 3, 0.0), Missile(nextId + 4, 0.0)];
      nextId := nextId + VolleySize;
    }

    /** The timer `shootMissile` sets: 300 ms after a volley the cool-down
        ends. */
    method EndMissileCooldown()
      modifies this`missileCooldown
      ensures !missileCooldown
    {
      missileCooldown := false;
    }

    // ---------------------------------------------------------------
    // Per-frame list updates

    /** `updatePowerUps` (its state changes): walking the list backwards, a
        power-up that has fallen behind the shuttle is removed; the others
        stay, in order. */
    method UpdatePowerUps(behind: set<nat>)
      modifies this`powerUps
      ensures powerUps == Filter(old(powerUps), KeepPowerUp(assets.shuttle, behind))
      ensures assets.shuttle ==> forall k :: 0 <= k < |powerUps| ==> powerUps[k].id !in behind
    {
      var keep := KeepPowerUp(assets.shuttle, behind);
      var list := powerUps;
      var i := |list|;
      assert powerUps[i..] == [];
      while i > 0
        invariant 0 <= i <= |powerUps|
        invariant list == powerUps[..i] + Filter(powerUps[i..], keep)
        modifies {}
      {
        i := i - 1;
        assert list[i := powerUps[i]] == list;
        if assets.shuttle && list[i].id in behind {
          FilterWalkDropped(powerUps, powerUps, i, list, keep);
          list := RemoveAt(list, i);
        } else {
          FilterWalkKept(powerUps, powerUps, i, list, keep);
        }
      }
      assert powerUps[0..] == powerUps;
      powerUps := list;
    }

    /** `updateMissiles` (its state changes): walking the list backwards,
        every missile ages by the frame delta and is removed once older than
        five seconds or too far from the shuttle; after the frame every
        missile left is young and near. */
    method UpdateMissiles(deltaTime: real, far: set<nat>)
      modifies this`missiles
      ensures missiles == Filter(Aged(old(missiles), deltaTime), KeepMissile(far))
      ensures forall k :: 0 <= k < |missiles| ==>
        missiles[k].lifetime <= MissileMaxLifetime && missiles[k].id !in far
    {
      var keep := KeepMissile(far);
      ghost var aged := Aged(missiles, deltaTime);
      var list := missiles;
      var i := |list|;
      assert aged[i..] == [];
      while i > 0
        invariant 0 <= i <= |missiles|
        invariant list == missiles[..i] + Filter(aged[i..], keep)
        modifies {}
      {
        i := i - 1;
        var missile := list[i].(lifetime := list[i].lifetime + deltaTime);
        assert missile == aged[i];
        if missile.lifetime > MissileMaxLifetime || missile.id in far {
          FilterWalkDropped(missiles, aged, i, list, keep);
          list := RemoveAt(list[i := missile], i);
        } else {
          FilterWalkKept(missiles, aged, i, list, keep);
          list := list[i := missile];
        }
      }
      assert aged[0..] == aged;
      missiles := list;
    }

    /** `updateAsteroids` (its state changes): the asteroids are visited in
        order; one found out of range is removed and a new one is appended,
        so the field keeps its size, and no asteroid within range is lost. */
    method UpdateAsteroids(outOfRange: set<nat>)
      modifies this`asteroids, this`nextId
      ensures asteroids == Recycle(old(asteroids), 0, outOfRange, old(nextId))
      ensures |asteroids| == |old(asteroids)|
      ensures forall a :: a in old(asteroids) && a.id !in outOfRange ==> a in asteroids
      ensures nextId >= old(nextId)
    {
      var list, next, k := asteroids, nextId, 0;
      while k < |list|
        invariant |list| == |asteroids|
        invariant k <= |list|
        invariant next >= nextId
        invariant Recycle(list, k, outOfRange, next) == Recycle(asteroids, 0, outOfRange, nextId)
        modifies {}
      {
        if list[k].id in outOfRange {
          list := RemoveAt(list, k) + [Asteroid(next)];
          next := next + 1;
        }
        k := k + 1;
      }
      forall a | a in asteroids && a.id !in outOfRange
        ensures a in list
      {
        RecycleKeepsInRange(asteroids, 0, outOfRange, nextId, a);
      }
      asteroids, nextId := list, next;
    }

    /** `createAsteroids`: `NumAsteroids` new asteroids are appended, with
        consecutive fresh handles. */
    method CreateAsteroids()
      modifies this`asteroids, this`nextId
      ensures |asteroids| == |old(asteroids)| + NumAsteroids
      ensures asteroids[..|old(asteroids)|] == old(asteroids)
      ensures forall k :: |old(asteroids)| <= k < |asteroids| ==> asteroids[k].id == old(nextId) + (k - |old(asteroids)|)
      ensures nextId == old(nextId) + NumAsteroids
    {
      var list, next, i := asteroids, nextId, 0;
      while i < NumAsteroids
        invariant i <= NumAsteroids
        invariant |list| == |asteroids| + i && list[..|asteroids|] == asteroids
        invariant forall k :: |asteroids| <= k < |list| ==> list[k].id == nextId + (k - |asteroids|)
        invariant next == nextId + i
        modifies {}
      {
        list := list + [Asteroid(next)];
        next := next + 1;
        i := i + 1;
      }
      asteroids, nextId := list, next;
    }

    // ---------------------------------------------------------------
    // Collisions

    /** A missile hit on `ufos[j]`: it loses 10 health, and at 0 or less it is
        removed and the score goes up by 5. */
    method HitUfo(j: nat)
      requires j < |ufos|
      modifies this`ufos, this`score
      ensures var u := old(ufos[j]); var h := u.health - UfoHitDamage;
        if h <= 0 then ufos == RemoveAt(old(ufos), j) && score == old(score) + UfoBonus
        else ufos == old(ufos)[j := u.(health := h)] && score == old(score)
    {
      var ufo := ufos[j].(health := ufos[j].health - UfoHitDamage);
      ufos := ufos[j := ufo];
      if ufo.health <= 0 {
        ufos := RemoveAt(ufos, j);
        score := score + UfoBonus;
      }
    }

    /** The state the missile loop of `detectCollisions` reads and changes,
        with the marks collected so far. */
    ghost function Snapshot(missileMarks: seq<nat>, asteroidMarks: seq<nat>): Board
      reads this`missiles, this`powerUps, this`ufos, this`asteroids, this`score,
            this`inventoryHealth, this`inventoryShield, this`nextId
    {
      Board(missiles, powerUps, ufos, asteroids, score, inventoryHealth, inventoryShield, nextId,
            missileMarks, asteroidMarks)
    }

    /** The missile loop of `detectCollisions`: it does exactly what
        `ScanFrom` describes from the first missile with no marks, and the
        marks it returns are sound: every asteroid mark is in range, marked
        at most once and hit by some missile; missile marks never decrease
        and stay below the original count. */
    method ScanMissiles(c: Contacts) returns (missileMarks: seq<nat>, asteroidMarks: seq<nat>)
      modifies this`missiles, this`powerUps, this`ufos, this`score, this`inventoryHealth, this`inventoryShield
      ensures Snapshot(missileMarks, asteroidMarks) == ScanFrom(old(Snapshot([], [])), 0, c, maxItems)
      ensures MarksSound(old(missiles), Snapshot(missileMarks, asteroidMarks), c, |old(missiles)|)
    {
      ghost var start := Snapshot([], []);
      missileMarks, asteroidMarks := [], [];
      var m := 0;
      while m < |missiles|
        invariant ScanFrom(Snapshot(missileMarks, asteroidMarks), m, c, maxItems) == ScanFrom(start, 0, c, maxItems)
        decreases |missiles| - m
      {
        if m !in missileMarks {
          missileMarks, asteroidMarks := ScanMissile(m, c, missileMarks, asteroidMarks);
        }
        m := m + 1;
      }
      ScanSound(start.missiles, start, 0, c, maxItems);
    }

    /** One turn of the missile loop for `missiles[m]`: exactly `ScanStep`.
        The missile is marked once for a power-up hit (the power-up is
        collected and removed) and once for a hit on the first unmarked
        asteroid it touches (that asteroid is marked and scores 1); a hit on
        a UFO damages the last UFO it touches and splices the missile out at
        once. */
    method ScanMissile(m: nat, c: Contacts, missileMarks: seq<nat>, asteroidMarks: seq<nat>)
      returns (missileMarks': seq<nat>, asteroidMarks': seq<nat>)
      requires m < |missiles|
      modifies this`missiles, this`powerUps, this`ufos, this`score, this`inventoryHealth, this`inventoryShield
      ensures Snapshot(missileMarks', asteroidMarks') == ScanStep(old(Snapshot(missileMarks, asteroidMarks)), m, c, maxItems)
    {
      ghost var b := Snapshot(missileMarks, asteroidMarks);
      var missile := missiles[m];
      missileMarks' := PowerUpTurn(m, missile.id, c, missileMarks, asteroidMarks);
      missileMarks', asteroidMarks' := AsteroidTurn(m, missile.id, c, missileMarks', asteroidMarks);
      UfoTurn(m, missile.id, c, missileMarks', asteroidMarks');
      assert b.missiles[m].id == missile.id;
    }

    /** The power-up part of a turn: the first power-up the missile touches
        marks it, is collected, and is spliced out at once (`PowerUpStep`). */
    method PowerUpTurn(m: nat, missileId: nat, c: Contacts, missileMarks: seq<nat>, asteroidMarks: seq<nat>)
      returns (missileMarks': seq<nat>)
      modifies this`powerUps, this`inventoryHealth, this`inventoryShield
      ensures Snapshot(missileMarks', asteroidMarks)
           == PowerUpStep(old(Snapshot(missileMarks, asteroidMarks)), m, missileId, c, maxItems)
    {
      missileMarks' := missileMarks;
      var p := FindPowerUpHit(missileId, c);
      if p.Some? {
        missileMarks' := missileMarks' + [m];
        var stored := CollectPowerUp(powerUps[p.value]);
        powerUps := RemoveAt(powerUps, p.value);
      }
    }

    /** The asteroid part of a turn: the first asteroid the missile touches
        whose position is not marked yet marks both and scores 1
        (`AsteroidStep`). */
    method AsteroidTurn(m: nat, missileId: nat, c: Contacts, missileMarks: seq<nat>, asteroidMarks: seq<nat>)
      returns (missileMarks': seq<nat>, asteroidMarks': seq<nat>)
      modifies this`score
      ensures Snapshot(missileMarks', asteroidMarks')
           == AsteroidStep(old(Snapshot(missileMarks, asteroidMarks)), m, missileId, c)
    {
      missileMarks', asteroidMarks' := missileMarks, asteroidMarks;
      var a := FindAsteroidHit(missileId, asteroidMarks, c);
      if a.Some? {
        missileMarks' := missileMarks' + [m];
        asteroidMarks' := asteroidMarks + [a.value];
        score := score + 1;
      }
    }

    /** The UFO part of a turn: the last UFO the missile touches is hit, and
        the missile is spliced out of the list at once (`UfoStep`). */
    method UfoTurn(m: nat, missileId: nat, c: Contacts, missileMarks: seq<nat>, asteroidMarks: seq<nat>)
      modifies this`missiles, this`ufos, this`score
      ensures Snapshot(missileMarks, asteroidMarks)
           == UfoStep(old(Snapshot(missileMarks, asteroidMarks)), m, missileId, c)
    {
      var u := FindUfoHit(missileId, c);
      if u.Some? {
        HitUfo(u.value);
        missiles := RemoveAt(missiles, m);
      }
    }

    /** The power-up test of the missile loop: the first power-up in contact
        with the missile, if any (`PowerUpHitFrom` from the start). */
    method FindPowerUpHit(missileId: nat, c: Contacts) returns (found: Option<nat>)
      ensures found == PowerUpHitFrom(powerUps, missileId, c.missilePowerUp, 0)
      ensures found.Some? ==>
        && found.value < |powerUps|
        && (missileId, powerUps[found.value].id) in c.missilePowerUp
        && forall k :: 0 <= k < found.value ==> (missileId, powerUps[k].id) !in c.missilePowerUp
      ensures found.None? ==> forall k :: 0 <= k < |powerUps| ==> (missileId, powerUps[k].id) !in c.missilePowerUp
    {
      var p := 0;
      while p < |powerUps|
        invariant p <= |powerUps|
        invariant PowerUpHitFrom(powerUps, missileId, c.missilePowerUp, p)
               == PowerUpHitFrom(powerUps, missileId, c.missilePowerUp, 0)
      {
        if (missileId, powerUps[p].id) in c.missilePowerUp {
          return Some(p);
        }
        p := p + 1;
      }
      return None;
    }

    /** The asteroid test of the missile loop: the first asteroid in contact
        with the missile whose index is not already marked, if any
        (`AsteroidHitFrom` from the start). */
    method FindAsteroidHit(missileId: nat, marks: seq<nat>, c: Contacts) returns (found: Option<nat>)
      ensures found == AsteroidHitFrom(asteroids, missileId, marks, c.missileAsteroid, 0)
      ensures found.Some? ==>
        && found.value < |asteroids|
        && found.value !in marks
        && (missileId, asteroids[found.value].id) in c.missileAsteroid
        && forall k :: 0 <= k < found.value ==> k in marks || (missileId, asteroids[k].id) !in c.missileAsteroid
      ensures found.None? ==>
        forall k :: 0 <= k < |asteroids| ==> k in marks || (missileId, asteroids[k].id) !in c.missileAsteroid
    {
      var a := 0;
      while a < |asteroids|
        invariant a <= |asteroids|
        invariant AsteroidHitFrom(asteroids, missileId, marks, c.missileAsteroid, a)
               == AsteroidHitFrom(asteroids, missileId, marks, c.missileAsteroid, 0)
      {
        if a !in marks && (missileId, asteroids[a].id) in c.missileAsteroid {
          return Some(a);
        }
        a := a + 1;
      }
      return None;
    }

    /** The UFO test of the missile loop, which walks the UFOs from the last:
        the last UFO in contact with the missile, if any (`UfoHitBelow` from
        the end). */
    method FindUfoHit(missileId: nat, c: Contacts) returns (found: Option<nat>)
      ensures found == UfoHitBelow(ufos, missileId, c.missileUfo, |ufos|)
      ensures found.Some? ==>
        && found.value < |ufos|
        && (missileId, ufos[found.value].id) in c.missileUfo
        && forall k :: found.value < k < |ufos| ==> (missileId, ufos[k].id) !in c.missileUfo
      ensures found.None? ==> forall k :: 0 <= k < |ufos| ==> (missileId, ufos[k].id) !in c.missileUfo
    {
      var j := |ufos|;
      while j > 0
        invariant 0 <= j <= |ufos|
        invariant UfoHitBelow(ufos, missileId, c.missileUfo, j) == UfoHitBelow(ufos, missileId, c.missileUfo, |ufos|)
      {
        j := j - 1;
        if (missileId, ufos[j].id) in c.missileUfo {
          return Some(j);
        }
      }
      return None;
    }

    /** The missile removal pass: the marks are walked backwards and each
        marked index is spliced out of the list as it stands. */
    method RemoveMarkedMissiles(marks: seq<nat>)
      modifies this`missiles
      ensures missiles == DropIndices(old(missiles), marks)
      ensures |old(missiles)| - |marks| <= |missiles| <= |old(missiles)|
    {
      var list, i := missiles, |marks|;
      assert marks[..i] == marks;
      while i > 0
        invariant 0 <= i <= |marks|
        invariant DropIndices(list, marks[..i]) == DropIndices(missiles, marks)
        modifies {}
      {
        DropIndicesPrefixStep(list, marks, i);
        list := RemoveAt(list, marks[i - 1]);
        i := i - 1;
      }
      missiles := list;
    }

    /** The asteroid removal pass: the marks are walked backwards; each marked
        index is spliced out of the list as it stands and a replacement is
        appended at once, so the field keeps its size and gains one new
        asteroid per mark. */
    method RemoveMarkedAsteroids(marks: seq<nat>)
      requires forall k :: 0 <= k < |marks| ==> marks[k] < |asteroids|
      modifies this`asteroids, this`nextId
      ensures asteroids == ReplaceMarked(old(asteroids), marks, old(nextId))
      ensures |asteroids| == |old(asteroids)|
      ensures nextId == old(nextId) + |marks|
    {
      var list, next, i := asteroids, nextId, |marks|;
      assert marks[..i] == marks;
      while i > 0
        invariant 0 <= i <= |marks|
        invariant |list| == |asteroids|
        invariant next == nextId + (|marks| - i)
        invariant ReplaceMarked(list, marks[..i], next) == ReplaceMarked(asteroids, marks, nextId)
        modifies {}
      {
        ReplaceMarkedPrefixStep(list, marks, i, next);
        list, next, i := RemoveAt(list, marks[i - 1]) + [Asteroid(next)], next + 1, i - 1;
      }
      asteroids, nextId := list, next;
    }

    /** `detectCollisions`: does nothing without a shuttle or an active game.
        An asteroid touching the shuttle ends the game and nothing else
        happens in this frame. Otherwise the missile loop runs, then the
        missile and asteroid removal passes: the field keeps its size, and the
        score grows by one per asteroid destroyed (each replaced once) plus
        five per UFO destroyed. */
    method DetectCollisions(c: Contacts)
      modifies this`missiles, this`powerUps, this`ufos, this`score, this`inventoryHealth,
               this`inventoryShield, this`asteroids, this`nextId, this`gamePaused
      ensures old(inventoryHealth) <= inventoryHealth && old(inventoryShield) <= inventoryShield
      ensures old(WithinCap()) ==> WithinCap()
      ensures gamePaused == (old(gamePaused) || (assets.shuttle && gameActive && Crashes(old(asteroids), c)))
      ensures |asteroids| == |old(asteroids)|
      ensures if assets.shuttle && gameActive && !Crashes(old(asteroids), c) then
          var r := ResolveHits(old(Snapshot([], [])), c, maxItems);
          Snapshot(r.missileMarks, r.asteroidMarks) == r
        else Snapshot([], []) == old(Snapshot([], []))
    {
      if assets.shuttle && gameActive {
        var crashed := FindCrash(c);
        if crashed {
          GameOver(false);
        } else {
          ResolveMissileHits(c);
        }
      }
    }

    /** The missile part of `detectCollisions`: the missile loop, then the
        missile and asteroid removal passes, exactly as `ResolveHits`
        describes. The field keeps its size, and the score grows by one per
        asteroid destroyed (each replaced once) plus five per UFO destroyed. */
    method ResolveMissileHits(c: Contacts)
      modifies this`missiles, this`powerUps, this`ufos, this`score, this`inventoryHealth,
               this`inventoryShield, this`asteroids, this`nextId
      ensures var r := ResolveHits(old(Snapshot([], [])), c, maxItems);
        Snapshot(r.missileMarks, r.asteroidMarks) == r
      ensures old(inventoryHealth) <= inventoryHealth && old(inventoryShield) <= inventoryShield
      ensures old(WithinCap()) ==> WithinCap()
      ensures |asteroids| == |old(asteroids)|
      ensures score == old(score) + (nextId - old(nextId)) + UfoBonus * (|old(ufos)| - |ufos|)
      ensures |missiles| <= |old(missiles)| && |ufos| <= |old(ufos)| && |powerUps| <= |old(powerUps)|
    {
      ResolveFromUnmarked(Snapshot([], []), c, maxItems);
      var missileMarks, asteroidMarks := ScanMissiles(c);
      RemoveMarks(missileMarks, asteroidMarks);
    }

    /** The two removal passes of `detectCollisions`, missiles first: exactly
        `RemoveMarked`, and the field keeps its size. */
    method RemoveMarks(missileMarks: seq<nat>, asteroidMarks: seq<nat>)
      requires forall k :: 0 <= k < |asteroidMarks| ==> asteroidMarks[k] < |asteroids|
      modifies this`missiles, this`asteroids, this`nextId
      ensures Snapshot(missileMarks, asteroidMarks) == RemoveMarked(old(Snapshot(missileMarks, asteroidMarks)))
      ensures |asteroids| == |old(asteroids)|
    {
      RemoveMarkedMissiles(missileMarks);
      RemoveMarkedAsteroids(asteroidMarks);
    }

    /** The shuttle test of `detectCollisions`: whether any asteroid touches
        the shuttle. */
    method FindCrash(c: Contacts) returns (crashed: bool)
      ensures crashed <==> Crashes(asteroids, c)
    {
      var i := 0;
      while i < |asteroids|
        invariant i <= |asteroids|
        invariant forall k :: 0 <= k < i ==> asteroids[k].id !in c.shuttleAsteroid
      {
        if asteroids[i].id in c.shuttleAsteroid {
          return true;
        }
        i := i + 1;
      }
      return false;
    }

    // ---------------------------------------------------------------
    // Game flow

    /** `updateShuttle` (its state change): reaching the goal ends the game. */
    method UpdateShuttle(atGoal: bool)
      modifies this`gamePaused
      ensures gamePaused == (old(gamePaused) || (assets.shuttle && atGoal))
    {
      if !assets.shuttle {
        return;
      }
      if atGoal {
        GameOver(true);
      }
    }

    /** `togglePause`: flips the pause flag, but only while a game is active. */
    method TogglePause()
      modifies this`gamePaused
      ensures gamePaused == if gameActive then !old(gamePaused) else old(gamePaused)
    {
      if !gameActive {
        return;
      }
      gamePaused := !gamePaused;
    }

    /** `resetGame`: score 0, full health, shield down, empty inventory, an
        active unpaused game, no missiles, UFOs or power-ups, and a fresh field
        of `NumAsteroids` asteroids. Settings, spawn timers and radiation rings
        already under way are left as they are. */
    method ResetGame()
      requires Valid()
      modifies this`score, this`shuttleHealth, this`shieldActive, this`shieldEndTime,
               this`gameActive, this`gamePaused, this`inventoryHealth, this`inventoryShield,
               this`missiles, this`asteroids, this`ufos, this`powerUps, this`nextId, this`missileCooldown
      ensures Valid() && WithinCap()
      ensures score == 0 && shuttleHealth == MaxHealth && !shieldActive && shieldEndTime == 0
      ensures inventoryHealth == 0 && inventoryShield == 0
      ensures gameActive && !gamePaused
      ensures missiles == [] && ufos == [] && powerUps == [] && !missileCooldown
      ensures |asteroids| == NumAsteroids
      ensures forall k :: 0 <= k < |asteroids| ==> asteroids[k].id == old(nextId) + k
    {
      ResetStatus();
      ResetField();
    }

    /** The player part of `resetGame`: score, health, shield, inventory and
        the game flags start over; the session invariant then holds and the
        inventory is within its cap whatever it was before. */
    method ResetStatus()
      requires Valid()
      modifies this`score, this`shuttleHealth, this`shieldActive, this`shieldEndTime,
               this`gameActive, this`gamePaused, this`inventoryHealth, this`inventoryShield
      ensures Valid() && WithinCap()
      ensures score == 0 && shuttleHealth == MaxHealth && !shieldActive && shieldEndTime == 0
      ensures inventoryHealth == 0 && inventoryShield == 0
      ensures gameActive && !gamePaused
    {
      score := 0;
      shuttleHealth := MaxHealth;
      shieldActive := false;
      shieldEndTime := 0;
      gameActive := true;
      gamePaused := false;
      inventoryHealth := 0;
      inventoryShield := 0;
    }

    /** The entity part of `resetGame`: every missile, UFO and power-up is
        dropped, the asteroid field is rebuilt with fresh handles and the
        missile cool-down ends. */
    method ResetField()
      modifies this`missiles, this`asteroids, this`ufos, this`powerUps, this`nextId, this`missileCooldown
      ensures missiles == [] && ufos == [] && powerUps == [] && !missileCooldown
      ensures |asteroids| == NumAsteroids
      ensures forall k :: 0 <= k < |asteroids| ==> asteroids[k].id == old(nextId) + k
    {
      missiles := [];
      asteroids := [];
      ufos := [];
      powerUps := [];
      CreateAsteroids();
      missileCooldown := false;
    }

    /** `selectDifficulty`: the chosen level becomes current, its settings
        are installed, and the game restarts unpaused from a fresh reset. */
    method SelectDifficulty(level: Level)
      requires Valid()
      modifies this`difficulty, this`spawnRate, this`spawnChance, this`shieldDuration, this`healthBoost,
               this`maxItems, this`ufoRadiationRate, this`ufoSpawnInterval,
               this`score, this`shuttleHealth, this`shieldActive, this`shieldEndTime,
               this`gameActive, this`gamePaused, this`inventoryHealth, this`inventoryShield,
               this`missiles, this`asteroids, this`ufos, this`powerUps, this`nextId, this`missileCooldown
      ensures Valid() && WithinCap()
      ensures difficulty == level && LiveSettings() == ProfileOf(level)
      ensures score == 0 && shuttleHealth == MaxHealth && inventoryHealth == 0 && inventoryShield == 0
      ensures gameActive && !gamePaused
      ensures missiles == [] && ufos == [] && powerUps == [] && |asteroids| == NumAsteroids
    {
      ChooseLevel(level);
      ResetGame();
    }

    /** The first half of `selectDifficulty`: the level becomes current, its
        settings are installed and the game is unpaused. */
    method ChooseLevel(level: Level)
      requires Valid()
      modifies this`difficulty, this`spawnRate, this`spawnChance, this`shieldDuration, this`healthBoost,
               this`maxItems, this`ufoRadiationRate, this`ufoSpawnInterval, this`gamePaused
      ensures Valid()
      ensures difficulty == level && LiveSettings() == ProfileOf(level) && !gamePaused
    {
      difficulty := level;
      ApplyDifficultySettings();
      gamePaused := false;
    }

    /** `animate` (its state changes): while the game is paused a frame
        changes nothing; otherwise the updates run in the order `animate` calls
        them, the asteroid field keeps its size through the whole frame and
        an inventory within its cap stays within it. */
    method Animate(f: Frame)
      requires Valid()
      modifies this
      ensures Valid()
      ensures old(gamePaused) ==> unchanged(this)
      ensures |asteroids| == |old(asteroids)|
      ensures old(WithinCap()) ==> WithinCap()
    {
      if !gamePaused {
        MoveEntities(f);
        ResolveThreats(f);
      }
    }

    /** The first half of an unpaused frame: the shuttle, the asteroids, the
        missiles and the power-ups move, the shield times out and a power-up
        may spawn. */
    method MoveEntities(f: Frame)
      modifies this`gamePaused, this`asteroids, this`nextId, this`missiles, this`powerUps,
               this`shieldActive, this`lastSpawnTime
      ensures |asteroids| == |old(asteroids)|
    {
      UpdateShuttle(f.atGoal);
      UpdateAsteroids(f.asteroidsOutOfRange);
      UpdateMissiles(f.deltaTime, f.missilesTooFar);
      UpdatePowerUps(f.powerUpsBehind);
      UpdateShield(f.currentTime);
      SpawnPowerUp(f.currentTime, f.spawnDraw, f.kindDraw);
    }

    /** The second half of an unpaused frame: the UFOs act, then collisions
        are resolved; the asteroid field keeps its size and an inventory
        within its cap stays within it. */
    method ResolveThreats(f: Frame)
      requires Valid()
      modifies this
      ensures Valid()
      ensures |asteroids| == |old(asteroids)|
      ensures old(WithinCap()) ==> WithinCap()
    {
      UpdateUfos(f.currentTime, f.ufoDistance);
      SettleCollisions(f.contacts);
    }

    /** `detectCollisions` as the last step of an unpaused frame: it keeps
        the session invariant, the size of the asteroid field, and an
        inventory within its cap. */
    method SettleCollisions(c: Contacts)
      requires Valid()
      modifies this`missiles, this`powerUps, this`ufos, this`score, this`inventoryHealth,
               this`inventoryShield, this`asteroids, this`nextId, this`gamePaused
      ensures Valid()
      ensures |asteroids| == |old(asteroids)|
      ensures old(WithinCap()) ==> WithinCap()
    {
      DetectCollisions(c);
    }
  }
}
