/** Obstacle spawner of the neon-gemini runner (src/spawner.js): speed is a
    step function of game time, obstacles move and are culled, then at most
    one new obstacle appears at the right edge. `Math.random()` is the
    parameter `roll` and `Date.now()` the parameter `now`. */
module NeonGeminiSpawner {
  import SeqUtil

  const ObstacleWidth: real := 30.0
  const ObstacleHeight: real := 60.0
  const MinGap: real := 200.0
  const MaxGap: real := 500.0
  const BaseSpeed: real := 3.0
  const RampInterval: real := 30000.0
  const FrameEstimate: real := 16.0
  const GroundLine: real := 400.0

  datatype Obstacle = Obstacle(x: real, width: real, height: real, y: real)

  datatype Spawner = Spawner(obstacles: seq<Obstacle>, nextSpawnTime: real, speed: real, canvasWidth: real)

  /** `createObstacle`: 30×60, standing on the ground line at the right edge. */
  function CreateObstacle(canvasWidth: real): (o: Obstacle)
    ensures o.x == canvasWidth && o.width == ObstacleWidth && o.height == ObstacleHeight
    ensures o.y + o.height == GroundLine
  {
    Obstacle(canvasWidth, ObstacleWidth, ObstacleHeight, GroundLine - ObstacleHeight)
  }

  /** `createSpawner`. */
  function CreateSpawner(canvasWidth: real): (s: Spawner)
    ensures s.obstacles == [] && s.nextSpawnTime == 0.0 && s.speed == BaseSpeed && s.canvasWidth == canvasWidth
  {
    Spawner([], 0.0, BaseSpeed, canvasWidth)
  }

  /** The speed at a game time: 10% more per whole 30 s elapsed. */
  function SpeedAt(gameTime: real): (v: real)
    ensures gameTime >= 0.0 ==> v >= BaseSpeed
    ensures 0.0 <= gameTime < RampInterval ==> v == BaseSpeed
  {
    BaseSpeed * (1.0 + (gameTime / RampInterval).Floor as real * 0.1)
  }

  /** Within the k-th 30 s interval the speed is 3 · (1 + 0.1 k). */
  lemma SpeedAtInterval(k: int, t: real)
    requires k as real * RampInterval <= t < (k + 1) as real * RampInterval
    ensures SpeedAt(t) == BaseSpeed * (1.0 + k as real * 0.1)
  {
    var f := (t / RampInterval).Floor;
    assert k as real <= t / RampInterval < (k + 1) as real;
    assert f == k;
  }

  /** The speed never decreases as game time goes on. */
  lemma SpeedNonDecreasing(t1: real, t2: real)
    requires t1 <= t2
    ensures SpeedAt(t1) <= SpeedAt(t2)
  {
    assert t1 / RampInterval <= t2 / RampInterval;
    var f1, f2 := (t1 / RampInterval).Floor, (t2 / RampInterval).Floor;
    assert f1 as real <= t1 / RampInterval;
    if f1 > f2 {
      assert false;
    }
  }

  function Shift(o: Obstacle, speed: real): Obstacle { o.(x := o.x - speed) }

  predicate OnScreen(o: Obstacle) { o.x + o.width > 0.0 }

  datatype Update = Update(spawner: Spawner, spawned: bool)

  /** `updateSpawner`: new speed; shift every obstacle by it; drop those with
      right edge at or left of 0; then, when `now` is strictly past the
      scheduled time, append one obstacle and schedule the next after a
      random gap of 200–500 px at roughly 16 ms per pixel of speed. */
  function UpdateSpawner(s: Spawner, gameTime: real, now: int, roll: real): (r: Update)
    requires gameTime >= 0.0
    ensures r.spawner.speed == SpeedAt(gameTime) && r.spawner.canvasWidth == s.canvasWidth
    ensures r.spawned <==> now as real > s.nextSpawnTime
    ensures var moved := SeqUtil.Filter(OnScreen, SeqUtil.Map((o: Obstacle) => Shift(o, SpeedAt(gameTime)), s.obstacles));
            r.spawner.obstacles == moved + (if r.spawned then [CreateObstacle(s.canvasWidth)] else [])
    ensures !r.spawned ==> r.spawner.nextSpawnTime == s.nextSpawnTime
    ensures r.spawned ==>
              r.spawner.nextSpawnTime == now as real + (MinGap + roll * (MaxGap - MinGap)) / r.spawner.speed * FrameEstimate
    ensures r.spawned && 0.0 <= roll ==> r.spawner.nextSpawnTime > now as real
    ensures |r.spawner.obstacles| <= |s.obstacles| + 1
  {
    var speed := SpeedAt(gameTime);
    var moved := SeqUtil.Filter(OnScreen, SeqUtil.Map((o: Obstacle) => Shift(o, speed), s.obstacles));
    if now as real > s.nextSpawnTime then
      var gap := MinGap + roll * (MaxGap - MinGap);
      Update(Spawner(moved + [CreateObstacle(s.canvasWidth)], now as real + gap / speed * FrameEstimate,
                     speed, s.canvasWidth), true)
    else Update(s.(obstacles := moved, speed := speed), false)
  }

  /** After a spawn, a second call at the same instant spawns nothing. */
  lemma NoDoubleSpawn(s: Spawner, gameTime: real, now: int, roll: real, roll2: real)
    requires gameTime >= 0.0 && 0.0 <= roll
    requires UpdateSpawner(s, gameTime, now, roll).spawned
    ensures !UpdateSpawner(UpdateSpawner(s, gameTime, now, roll).spawner, gameTime, now, roll2).spawned
  {
  }
}
