/** Obstacle scheduler of the neon-claude runner (src/spawner.js): a
    difficulty step at most once per call, interval-gated spawning, and
    leftward movement with culling. `Math.random()` is the parameter `roll`. */
module NeonClaudeSpawner {
  import opened Wrappers
  import opened NeonClaudePhysics
  import SeqUtil

  const InitialSpawnInterval: int := 2000
  const MinSpawnInterval: int := 800
  const SpawnIntervalStep: int := 150
  const InitialObstacleSpeed: real := 5.0
  const MaxObstacleSpeed: real := 12.0
  const ObstacleSpeedStep: real := 0.5
  const DifficultyIncreaseInterval: int := 30000
  const SpawnX: real := 800.0
  const ObstacleWidth: real := 30.0
  /** Obstacles are kept while their x is strictly greater than this. */
  const CullX: real := -50.0

  /** `nextId` numbers spawned obstacles; it is how object identity is modelled. */
  datatype Spawner = Spawner(obstacles: seq<Obstacle>, lastSpawnTime: int,
                             spawnInterval: int, obstacleSpeed: real,
                             lastDifficultyIncrease: int, difficultyLevel: int,
                             nextId: nat)

  /** The bounds every reachable spawner keeps. */
  predicate Valid(s: Spawner) {
    && MinSpawnInterval <= s.spawnInterval <= InitialSpawnInterval
    && InitialObstacleSpeed <= s.obstacleSpeed <= MaxObstacleSpeed
    && s.difficultyLevel >= 1
    && forall i :: 0 <= i < |s.obstacles| ==> s.obstacles[i].id < s.nextId
  }

  /** The constructor; `now` is the construction time. */
  function Create(now: int): (s: Spawner)
    ensures Valid(s)
    ensures s.obstacles == [] && s.lastSpawnTime == 0 && s.spawnInterval == 2000
    ensures s.obstacleSpeed == 5.0 && s.difficultyLevel == 1 && s.lastDifficultyIncrease == now
  {
    Spawner([], 0, InitialSpawnInterval, InitialObstacleSpeed, now, 1, 0)
  }

  function MaxInt(a: int, b: int): int { if a >= b then a else b }

  /** `updateDifficulty`: one level per call at most, strictly after the interval. */
  function UpdateDifficulty(s: Spawner, now: int): (r: Spawner)
    ensures s.difficultyLevel <= r.difficultyLevel <= s.difficultyLevel + 1
    ensures r.difficultyLevel == s.difficultyLevel + 1 <==> now - s.lastDifficultyIncrease > DifficultyIncreaseInterval
    ensures r.difficultyLevel == s.difficultyLevel ==> r == s
    ensures r.difficultyLevel == s.difficultyLevel + 1 ==>
              && r.lastDifficultyIncrease == now
              && r.spawnInterval == MaxInt(MinSpawnInterval, s.spawnInterval - SpawnIntervalStep)
              && r.obstacleSpeed == Min(MaxObstacleSpeed, s.obstacleSpeed + ObstacleSpeedStep)
    ensures r.obstacles == s.obstacles && r.lastSpawnTime == s.lastSpawnTime && r.nextId == s.nextId
    ensures Valid(s) ==> Valid(r)
  {
    if now - s.lastDifficultyIncrease > DifficultyIncreaseInterval then
      s.(difficultyLevel := s.difficultyLevel + 1,
         lastDifficultyIncrease := now,
         spawnInterval := MaxInt(MinSpawnInterval, s.spawnInterval - SpawnIntervalStep),
         obstacleSpeed := Min(MaxObstacleSpeed, s.obstacleSpeed + ObstacleSpeedStep))
    else s
  }

  /** The obstacle `spawnObstacle` pushes: tall when `Math.random() < 0.5`. */
  function NewObstacle(id: nat, roll: real): (o: Obstacle)
    ensures o.id == id && o.x == SpawnX && o.y == GroundY && o.width == ObstacleWidth
    ensures o.height == 40.0 || o.height == 60.0
  {
    Obstacle(id, SpawnX, GroundY, ObstacleWidth, if roll < 0.5 then 60.0 else 40.0)
  }

  function SpawnObstacle(s: Spawner, roll: real): (r: Spawner)
    ensures r.obstacles == s.obstacles + [NewObstacle(s.nextId, roll)]
    ensures r.nextId == s.nextId + 1
    ensures Valid(s) ==> Valid(r)
  {
    s.(obstacles := s.obstacles + [NewObstacle(s.nextId, roll)], nextId := s.nextId + 1)
  }

  function Shift(o: Obstacle, speed: real): Obstacle { o.(x := o.x - speed) }

  predicate OnScreen(o: Obstacle) { o.x > CullX }

  /** The source's single pass: each obstacle is moved inside the filter
      callback and kept while its new x exceeds -50. */
  function MoveAndCull(obs: seq<Obstacle>, speed: real): (r: seq<Obstacle>)
    ensures |r| <= |obs|
    ensures forall i :: 0 <= i < |r| ==> r[i].x > CullX
  {
    if |obs| == 0 then []
    else
      var o := Shift(obs[0], speed);
      if o.x > CullX then [o] + MoveAndCull(obs[1..], speed) else MoveAndCull(obs[1..], speed)
  }

  /** The single pass equals "shift everything, then filter", so it keeps
      exactly the shifted obstacles past the cull line, in their order. */
  lemma {:induction false} MoveAndCullIsShiftThenFilter(obs: seq<Obstacle>, speed: real)
    ensures MoveAndCull(obs, speed) == SeqUtil.Filter(OnScreen, SeqUtil.Map(o => Shift(o, speed), obs))
  {
    if |obs| > 0 {
      MoveAndCullIsShiftThenFilter(obs[1..], speed);
      assert SeqUtil.Map(o => Shift(o, speed), obs)[1..] == SeqUtil.Map(o => Shift(o, speed), obs[1..]);
    }
  }

  /** Whether `update` at `now` spawns: compared against the interval as it
      stands after the difficulty step. */
  predicate SpawnDue(s: Spawner, now: int) {
    now - s.lastSpawnTime > UpdateDifficulty(s, now).spawnInterval
  }

  /** Every obstacle moved left by `speed`. */
  function ShiftAll(obs: seq<Obstacle>, speed: real): seq<Obstacle> {
    SeqUtil.Map(o => Shift(o, speed), obs)
  }

  /** `update(currentTime)`. */
  function Update(s: Spawner, now: int, roll: real): (r: Spawner)
    ensures Valid(s) ==> Valid(r)
    ensures var d := UpdateDifficulty(s, now);
            && r.difficultyLevel == d.difficultyLevel && r.spawnInterval == d.spawnInterval
            && r.obstacleSpeed == d.obstacleSpeed && r.lastDifficultyIncrease == d.lastDifficultyIncrease
    ensures SpawnDue(s, now) ==> r.lastSpawnTime == now && r.nextId == s.nextId + 1
    ensures !SpawnDue(s, now) ==> r.lastSpawnTime == s.lastSpawnTime && r.nextId == s.nextId
    // the list is: old obstacles plus the one spawned, all shifted, then culled, in order
    ensures r.obstacles == SeqUtil.Filter(OnScreen, ShiftAll(s.obstacles + (if SpawnDue(s, now) then [NewObstacle(s.nextId, roll)] else []), r.obstacleSpeed))
    // a just-spawned obstacle is moved once and always survives the cull
    ensures Valid(s) && SpawnDue(s, now) ==>
              |r.obstacles| > 0 && SeqUtil.Last(r.obstacles) == Shift(NewObstacle(s.nextId, roll), r.obstacleSpeed)
    ensures !SpawnDue(s, now) ==> |r.obstacles| <= |s.obstacles|
    ensures |r.obstacles| <= |s.obstacles| + 1
    ensures forall i :: 0 <= i < |r.obstacles| ==> r.obstacles[i].x > CullX
  {
    var d := UpdateDifficulty(s, now);
    if now - d.lastSpawnTime > d.spawnInterval then
      var sp := SpawnObstacle(d, roll);
      var newest := Shift(NewObstacle(s.nextId, roll), d.obstacleSpeed);
      MoveAndCullIsShiftThenFilter(sp.obstacles, d.obstacleSpeed);
      assert ShiftAll(sp.obstacles, d.obstacleSpeed) == ShiftAll(d.obstacles, d.obstacleSpeed) + [newest];
      SeqUtil.FilterConcat(OnScreen, ShiftAll(d.obstacles, d.obstacleSpeed), [newest]);
      sp.(lastSpawnTime := now, obstacles := MoveAndCull(sp.obstacles, d.obstacleSpeed))
    else
      MoveAndCullIsShiftThenFilter(d.obstacles, d.obstacleSpeed);
      assert d.obstacles + [] == d.obstacles;
      d.(obstacles := MoveAndCull(d.obstacles, d.obstacleSpeed))
  }

  /** `reset`; the identity counter is not part of the source's state and keeps counting. */
  function Reset(s: Spawner, now: int): (r: Spawner)
    ensures Valid(r)
    ensures r.obstacles == [] && r.lastSpawnTime == 0 && r.spawnInterval == InitialSpawnInterval
    ensures r.obstacleSpeed == InitialObstacleSpeed && r.difficultyLevel == 1 && r.lastDifficultyIncrease == now
    ensures r.nextId == s.nextId
  {
    Create(now).(nextId := s.nextId)
  }

  /** Each difficulty step lowers the interval by 150 down to 800 and raises
      the speed by 0.5 up to 12, so both bounds hold at every level. */
  lemma {:induction false} DifficultyStepsSaturate(s: Spawner, times: seq<int>)
    requires Valid(s)
    ensures Valid(UpdateDifficultyAll(s, times))
    ensures UpdateDifficultyAll(s, times).difficultyLevel <= s.difficultyLevel + |times|
    decreases |times|
  {
    if |times| > 0 {
      DifficultyStepsSaturate(UpdateDifficulty(s, times[0]), times[1..]);
    }
  }

  /** Repeated `updateDifficulty` calls at the given times. */
  function UpdateDifficultyAll(s: Spawner, times: seq<int>): Spawner
    decreases |times|
  {
    if |times| == 0 then s else UpdateDifficultyAll(UpdateDifficulty(s, times[0]), times[1..])
  }

  /** Timestamps count from 0 (the initial `lastSpawnTime`): at 0 nothing
      spawns, at 2100 exactly one obstacle appears, already moved once. */
  lemma FirstSpawnScenario(roll: real)
    ensures var s1 := Update(Create(0), 0, roll);
            && s1.obstacles == []
            && var s2 := Update(s1, 2100, roll);
               s2.obstacles == [Shift(NewObstacle(0, roll), 5.0)] && s2.obstacles[0].x == 795.0
  {
    var s1 := Update(Create(0), 0, roll);
    assert s1.obstacles == [];
    var s2 := Update(s1, 2100, roll);
    assert SpawnDue(s1, 2100);
  }
}
