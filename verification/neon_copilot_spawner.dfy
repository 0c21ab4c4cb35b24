/** Obstacle scheduler of the neon-copilot runner (src/spawner.js):
    difficulty is a pure function of elapsed time, the interval and speed
    follow from it, spawning is inclusive at the interval, and obstacles
    are culled once fully past the left edge. */
module NeonCopilotSpawner {
  import opened Wrappers
  import opened NeonCopilotPhysics
  import SeqUtil

  const DefaultBaseSpawnInterval: int := 2000
  const DefaultMinSpawnInterval: int := 800
  const DefaultDifficultyRampInterval: int := 30000
  const IntervalStepPerLevel: int := 200
  const BaseSpeed: real := 5.0
  const SpeedStepPerLevel: real := 0.5

  /** `physics` is the configuration of the physics object the spawner holds. */
  datatype Spawner = Spawner(physics: Config, baseSpawnInterval: int, minSpawnInterval: int,
                             difficultyRampInterval: int, lastSpawnTime: int,
                             gameStartTime: int, obstacles: seq<Obstacle>)

  /** The `||` defaults make the ramp interval non-zero. */
  predicate Valid(s: Spawner) { s.difficultyRampInterval != 0 }

  /** The constructor: both clocks start at `now`, so nothing spawns at once. */
  function Create(physics: Config, baseSpawnInterval: Option<int>, minSpawnInterval: Option<int>,
                  difficultyRampInterval: Option<int>, now: int): (s: Spawner)
    ensures Valid(s) && s.obstacles == [] && s.lastSpawnTime == now && s.gameStartTime == now
    ensures s.physics == physics
    ensures s.baseSpawnInterval == OrInt(baseSpawnInterval, DefaultBaseSpawnInterval)
    ensures s.minSpawnInterval == OrInt(minSpawnInterval, DefaultMinSpawnInterval)
    ensures s.difficultyRampInterval == OrInt(difficultyRampInterval, DefaultDifficultyRampInterval)
  {
    Spawner(physics, OrInt(baseSpawnInterval, DefaultBaseSpawnInterval),
            OrInt(minSpawnInterval, DefaultMinSpawnInterval),
            OrInt(difficultyRampInterval, DefaultDifficultyRampInterval), now, now, [])
  }

  /** `Math.floor(a / b)` on integers, for a divisor of either sign. */
  function FloorDiv(a: int, b: int): (q: int)
    requires b != 0
    ensures b > 0 ==> q * b <= a < q * b + b
    ensures b < 0 ==> q * b >= a > q * b + b
  {
    if b > 0 then a / b else (-a) / (-b)
  }

  /** `getCurrentDifficulty`: whole ramp intervals since the game started. */
  function GetCurrentDifficulty(s: Spawner, now: int): (d: int)
    requires Valid(s)
    ensures s.difficultyRampInterval > 0 ==>
              d * s.difficultyRampInterval <= now - s.gameStartTime < (d + 1) * s.difficultyRampInterval
    ensures s.difficultyRampInterval > 0 && now >= s.gameStartTime ==> d >= 0
  {
    FloorDiv(now - s.gameStartTime, s.difficultyRampInterval)
  }

  /** With a positive ramp, difficulty never decreases as time goes on. */
  lemma DifficultyMonotone(s: Spawner, t1: int, t2: int)
    requires Valid(s) && s.difficultyRampInterval > 0 && t1 <= t2
    ensures GetCurrentDifficulty(s, t1) <= GetCurrentDifficulty(s, t2)
  {
    var d1, d2 := GetCurrentDifficulty(s, t1), GetCurrentDifficulty(s, t2);
    if d1 > d2 {
      assert false;
    }
  }

  function MaxInt(a: int, b: int): int { if a >= b then a else b }

  /** `getSpawnInterval`: 200 ms shorter per level, never below the minimum. */
  function GetSpawnInterval(s: Spawner, now: int): (r: int)
    requires Valid(s)
    ensures r >= s.minSpawnInterval
    ensures r >= s.baseSpawnInterval - IntervalStepPerLevel * GetCurrentDifficulty(s, now)
    ensures r == s.minSpawnInterval || r == s.baseSpawnInterval - IntervalStepPerLevel * GetCurrentDifficulty(s, now)
  {
    MaxInt(s.minSpawnInterval, s.baseSpawnInterval - GetCurrentDifficulty(s, now) * IntervalStepPerLevel)
  }

  lemma SpawnIntervalNonIncreasing(s: Spawner, t1: int, t2: int)
    requires Valid(s) && s.difficultyRampInterval > 0 && t1 <= t2
    ensures GetSpawnInterval(s, t2) <= GetSpawnInterval(s, t1)
  {
    DifficultyMonotone(s, t1, t2);
  }

  /** `getObstacleSpeed`: 5 plus 0.5 per level, with no ceiling. */
  function GetObstacleSpeed(s: Spawner, now: int): (r: real)
    requires Valid(s)
    ensures r - BaseSpeed == SpeedStepPerLevel * GetCurrentDifficulty(s, now) as real
  {
    BaseSpeed + GetCurrentDifficulty(s, now) as real * SpeedStepPerLevel
  }

  lemma ObstacleSpeedNonDecreasing(s: Spawner, t1: int, t2: int)
    requires Valid(s) && s.difficultyRampInterval > 0 && t1 <= t2
    ensures GetObstacleSpeed(s, t1) <= GetObstacleSpeed(s, t2)
  {
    DifficultyMonotone(s, t1, t2);
  }

  /** The speed is unbounded: any bound is exceeded at some level's start. */
  lemma NoSpeedCeiling(s: Spawner, bound: real)
    requires Valid(s) && s.difficultyRampInterval > 0
    ensures exists now :: GetObstacleSpeed(s, now) > bound
  {
    var k: nat := if bound < BaseSpeed then 0 else ((bound - BaseSpeed) * 2.0).Floor + 1;
    var now := s.gameStartTime + k * s.difficultyRampInterval;
    var d := GetCurrentDifficulty(s, now);
    var ramp := s.difficultyRampInterval;
    if d < k {
      assert false;
    }
    assert GetObstacleSpeed(s, now) > bound;
  }

  /** `shouldSpawn`: inclusive at the interval. */
  function ShouldSpawn(s: Spawner, now: int): (r: bool)
    requires Valid(s)
    ensures r <==> s.lastSpawnTime + GetSpawnInterval(s, now) <= now
  {
    now - s.lastSpawnTime >= GetSpawnInterval(s, now)
  }

  datatype SpawnResult = SpawnResult(spawned: Option<Obstacle>, spawner: Spawner)

  /** `spawnObstacle(screenWidth, currentTime)`. */
  function SpawnObstacle(s: Spawner, screenWidth: real, now: int): (r: SpawnResult)
    requires Valid(s)
    ensures !ShouldSpawn(s, now) ==> r.spawned.None? && r.spawner == s
    ensures ShouldSpawn(s, now) ==>
              && r.spawned == Some(CreateObstacle(s.physics, screenWidth, None, None))
              && r.spawner == s.(obstacles := s.obstacles + [r.spawned.value], lastSpawnTime := now)
    ensures r.spawned.Some? ==> r.spawned.value.x == screenWidth && r.spawned.value.width == 20.0
    ensures Valid(r.spawner)
  {
    if ShouldSpawn(s, now) then
      var o := CreateObstacle(s.physics, screenWidth, None, None);
      SpawnResult(Some(o), s.(obstacles := s.obstacles + [o], lastSpawnTime := now))
    else SpawnResult(None, s)
  }

  predicate Kept(o: Obstacle) { !IsObstacleOffScreen(o, 0.0) }

  /** `updateObstacles`: every obstacle moves left by the current speed,
      then those fully off screen are dropped, order preserved. */
  function UpdateObstacles(s: Spawner, now: int): (r: Spawner)
    requires Valid(s)
    ensures r == s.(obstacles := r.obstacles) && Valid(r)
    ensures |r.obstacles| <= |s.obstacles|
    ensures forall i :: 0 <= i < |r.obstacles| ==> r.obstacles[i].x + r.obstacles[i].width >= 0.0
    ensures forall i :: 0 <= i < |s.obstacles| ==>
              var moved := s.obstacles[i].(x := s.obstacles[i].x - GetObstacleSpeed(s, now));
              moved.x + moved.width >= 0.0 ==> moved in r.obstacles
    ensures forall i :: 0 <= i < |r.obstacles| ==>
              r.obstacles[i] in SeqUtil.Map((o: Obstacle) => UpdateObstacle(o, GetObstacleSpeed(s, now)), s.obstacles)
    ensures r.obstacles == SeqUtil.Filter(Kept, SeqUtil.Map((o: Obstacle) => UpdateObstacle(o, GetObstacleSpeed(s, now)), s.obstacles))
  {
    s.(obstacles := SeqUtil.Filter(Kept, SeqUtil.Map((o: Obstacle) => UpdateObstacle(o, GetObstacleSpeed(s, now)), s.obstacles)))
  }

  /** The survivors keep their order and multiplicity: an obstacle added at
      the end moves and, if still on screen, survives after all earlier
      survivors. */
  lemma UpdateObstaclesAppend(s: Spawner, now: int, o: Obstacle)
    requires Valid(s)
    ensures var moved := UpdateObstacle(o, GetObstacleSpeed(s, now));
            UpdateObstacles(s.(obstacles := s.obstacles + [o]), now).obstacles
            == UpdateObstacles(s, now).obstacles + (if Kept(moved) then [moved] else [])
  {
    assert GetObstacleSpeed(s.(obstacles := s.obstacles + [o]), now) == GetObstacleSpeed(s, now);
    SeqUtil.FilterMapAppend(Kept, (x: Obstacle) => UpdateObstacle(x, GetObstacleSpeed(s, now)), s.obstacles, o);
  }

  /** A spawn followed by the move: the new obstacle, moved once, is the
      last survivor whenever it stays on screen, after the earlier ones. */
  lemma SpawnThenUpdate(s: Spawner, screenWidth: real, now: int)
    requires Valid(s) && ShouldSpawn(s, now)
    ensures var o := CreateObstacle(s.physics, screenWidth, None, None);
            var moved := UpdateObstacle(o, GetObstacleSpeed(s, now));
            UpdateObstacles(SpawnObstacle(s, screenWidth, now).spawner, now).obstacles
            == UpdateObstacles(s, now).obstacles + (if Kept(moved) then [moved] else [])
  {
    var o := CreateObstacle(s.physics, screenWidth, None, None);
    var t := s.(lastSpawnTime := now);
    assert SpawnObstacle(s, screenWidth, now).spawner == t.(obstacles := t.obstacles + [o]);
    UpdateObstaclesAppend(t, now, o);
    assert GetObstacleSpeed(t, now) == GetObstacleSpeed(s, now);
    assert UpdateObstacles(t, now).obstacles == UpdateObstacles(s, now).obstacles;
  }

  /** `reset`: empty list, both clocks restarted at `now`. */
  function Reset(s: Spawner, now: int): (r: Spawner)
    requires Valid(s)
    ensures r.obstacles == [] && r.lastSpawnTime == now && r.gameStartTime == now
    ensures r == s.(obstacles := [], lastSpawnTime := now, gameStartTime := now)
    ensures GetCurrentDifficulty(r, now) == 0
    ensures Valid(r)
  {
    s.(obstacles := [], lastSpawnTime := now, gameStartTime := now)
  }

  /** `checkCollisions`: the first obstacle, in list order, that overlaps the player. */
  function CheckCollisions(s: Spawner, p: Player): (r: Option<Obstacle>)
    ensures r.Some? ==> exists k :: 0 <= k < |s.obstacles| && s.obstacles[k] == r.value
                          && CheckCollision(PlayerRect(p), ObstacleRect(s.obstacles[k]))
                          && forall j :: 0 <= j < k ==> !CheckCollision(PlayerRect(p), ObstacleRect(s.obstacles[j]))
    ensures r.None? <==> forall j :: 0 <= j < |s.obstacles| ==> !CheckCollision(PlayerRect(p), ObstacleRect(s.obstacles[j]))
  {
    match SeqUtil.FirstIndex((o: Obstacle) => CheckCollision(PlayerRect(p), ObstacleRect(o)), s.obstacles)
    case None => None
    case Some(k) => Some(s.obstacles[k])
  }
}
