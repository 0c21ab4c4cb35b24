/** The neon-copilot orchestrator (public/game.js): a three-state machine
    (playing, paused, game over) driven once per animation frame by the
    consumed input intents and the frame timestamp. Canvas, renderer and
    the DOM are not modelled; `Date.now()` is the parameter `now`. */
module NeonCopilotGame {
  import opened Wrappers
  import opened NeonCopilotPhysics
  import Spawner = NeonCopilotSpawner
  import Score = NeonCopilotScore
  import SeqUtil

  const GameSpeed: real := 5.0
  const PerfectJumpThreshold: real := 20.0
  const DistanceScale: real := 0.01

  datatype State = Playing | Paused | GameOver

  datatype Game = Game(physics: Config, spawner: Spawner.Spawner, score: Score.Score, state: State,
                       player: Player, lastTime: real, lastObstacleX: Option<real>,
                       canvasWidth: real, store: Option<map<string, int>>)

  /** The intents `InputHandler` hands over in one frame (each consumed once). */
  datatype Intents = Intents(pause: bool, restart: bool, jump: bool)

  predicate Valid(g: Game) {
    Spawner.Valid(g.spawner) && g.score.currentStreak < Score.StreakLength
  }

  /** The constructor: physics 0.8 / −15 / ground 330 / coyote 80 ms, the
      default spawner and score, and the game already playing. */
  function Create(canvasWidth: real, store: Option<map<string, int>>, now: int): (g: Game)
    ensures Valid(g) && g.state == Playing && g.lastObstacleX.None? && g.lastTime == 0.0
    ensures g.physics == Config(0.8, -15.0, 330.0, 80)
    ensures g.player.y == 330.0 && g.player.onGround && g.spawner.obstacles == []
    ensures g == Game(Config(0.8, -15.0, 330.0, 80), Spawner.Spawner(g.physics, 2000, 800, 30000, now, now, []),
                      Score.Score(0.0, 0, 0, 0, 1.0, 10, 3, Score.DefaultStorageKey), Playing,
                      CreatePlayer(g.physics, None, None, now), 0.0, None, canvasWidth, store)
  {
    var physics := MakeConfig(Some(0.8), Some(-15.0), Some(330.0), Some(80));
    var spawner := Spawner.Create(physics, Some(2000), Some(800), Some(30000), now);
    var score := Score.Create(Some(1.0), Some(10), Some(3), None);
    Game(physics, spawner, score, Playing, CreatePlayer(physics, None, None, now), 0.0, None, canvasWidth, store)
  }

  /** A new game starts from a score of 0. */
  lemma CreateScoresZero(canvasWidth: real, store: Option<map<string, int>>, now: int)
    ensures Score.GetScore(Create(canvasWidth, store, now).score) == 0
  {
  }

  /** The first obstacle whose right edge is strictly left of the player's
      centre, within the threshold, and not the last one credited. */
  predicate PerfectCandidate(g: Game, o: Obstacle) {
    var centre := g.player.x + g.player.width / 2.0;
    var edge := o.x + o.width;
    edge < centre && centre - edge <= PerfectJumpThreshold && Some(o.x) != g.lastObstacleX
  }

  /** `checkPerfectJump`: credits at most one obstacle — the first candidate
      in list order — and remembers its x. */
  function CheckPerfectJump(g: Game): (r: Game)
    ensures (forall j :: 0 <= j < |g.spawner.obstacles| ==> !PerfectCandidate(g, g.spawner.obstacles[j]))
            ==> r == g
    ensures (exists j :: 0 <= j < |g.spawner.obstacles| && PerfectCandidate(g, g.spawner.obstacles[j])) ==>
              exists k :: 0 <= k < |g.spawner.obstacles|
                && PerfectCandidate(g, g.spawner.obstacles[k])
                && (forall j :: 0 <= j < k ==> !PerfectCandidate(g, g.spawner.obstacles[j]))
                && r == g.(score := Score.RecordPerfectJump(g.score),
                           lastObstacleX := Some(g.spawner.obstacles[k].x))
    ensures r.score == g.score || r.score == Score.RecordPerfectJump(g.score)
    ensures r.score != g.score ==> r.lastObstacleX.Some? && r.lastObstacleX != g.lastObstacleX
    ensures Valid(g) ==> Valid(r)
  {
    match SeqUtil.FirstIndex((o: Obstacle) => PerfectCandidate(g, o), g.spawner.obstacles)
    case None => g
    case Some(k) =>
      g.(score := Score.RecordPerfectJump(g.score), lastObstacleX := Some(g.spawner.obstacles[k].x))
  }

  /** Any candidate obstacle means the jump is credited: one more perfect
      jump, and an obstacle position remembered that differs from the last. */
  lemma CandidateIsCredited(g: Game, j: nat)
    requires j < |g.spawner.obstacles| && PerfectCandidate(g, g.spawner.obstacles[j])
    ensures var r := CheckPerfectJump(g);
            && r.score == Score.RecordPerfectJump(g.score)
            && r.score.perfectJumps == g.score.perfectJumps + 1
            && r.lastObstacleX.Some? && r.lastObstacleX != g.lastObstacleX
            && r.player == g.player && r.spawner == g.spawner && r.state == g.state
  {
  }

  /** The same obstacle position is never credited twice in a row. */
  lemma NoDoubleCreditAtSamePosition(g: Game)
    requires CheckPerfectJump(g) != g
    ensures var r := CheckPerfectJump(g);
            forall j :: 0 <= j < |r.spawner.obstacles| && Some(r.spawner.obstacles[j].x) == r.lastObstacleX
              ==> !PerfectCandidate(r, r.spawner.obstacles[j])
  {
  }

  /** `restart`: fresh player, spawner and score reset, back to playing. */
  function Restart(g: Game, now: int): (r: Game)
    requires Valid(g)
    ensures Valid(r) && r.state == Playing && r.lastObstacleX.None?
    ensures r.player == CreatePlayer(g.physics, None, None, now)
    ensures r.spawner == Spawner.Reset(g.spawner, now) && r.score == Score.Reset(g.score)
    ensures r.store == g.store && r.physics == g.physics && r.lastTime == g.lastTime
  {
    g.(player := CreatePlayer(g.physics, None, None, now), spawner := Spawner.Reset(g.spawner, now),
       score := Score.Reset(g.score), state := Playing, lastObstacleX := None)
  }

  /** A jump intent in a running game: the physics jump, and when it
      succeeded the perfect-jump check. */
  function JumpIntent(g: Game, now: int): (r: Game)
    ensures !CanJump(g.physics, g.player, now) ==> r == g
    ensures CanJump(g.physics, g.player, now) ==>
              r == CheckPerfectJump(g.(player := g.player.(velocityY := g.physics.jumpForce, onGround := false)))
    ensures Valid(g) ==> Valid(r)
  {
    var j := Jump(g.physics, g.player, now);
    if j.jumped then CheckPerfectJump(g.(player := j.player)) else g
  }

  /** `handleInput`: pause toggles playing and paused (ignored after game
      over), then restart acts only after game over, then jump acts only
      while playing and checks for a perfect jump only when it succeeded. */
  function HandleInput(g: Game, intents: Intents, now: int): (r: Game)
    requires Valid(g)
    ensures Valid(r)
    ensures !intents.pause && !intents.restart && !intents.jump ==> r == g
    ensures intents.pause && !intents.restart && !intents.jump ==>
              (g.state == Playing ==> r == g.(state := Paused))
              && (g.state == Paused ==> r == g.(state := Playing))
              && (g.state == GameOver ==> r == g)
    ensures g.state == GameOver && !intents.restart ==> r == g
    ensures g.state != GameOver ==> r.store == g.store && r.spawner == g.spawner
    ensures r.state == Paused ==> r == g.(state := Paused)
    ensures !intents.jump ==> r.lastObstacleX == g.lastObstacleX || r.lastObstacleX.None?
    ensures r.lastTime == g.lastTime
    // restart acts only after game over, jump only while playing
    ensures g.state == Playing && !intents.pause && !intents.jump ==> r == g
    ensures g.state == Playing && intents.pause ==> r == g.(state := Paused)
    ensures g.state == Paused && !intents.pause ==> r == g
  {
    var afterPause :=
      if intents.pause then
        (if g.state == Playing then g.(state := Paused)
         else if g.state == Paused then g.(state := Playing)
         else g)
      else g;
    var afterRestart :=
      if intents.restart && afterPause.state == GameOver then Restart(afterPause, now) else afterPause;
    if intents.jump && afterRestart.state == Playing then JumpIntent(afterRestart, now)
    else afterRestart
  }

  /** The restart and jump effects of `handleInput`: after game over a
      restart intent restarts (and a jump intent then jumps in the new
      game); a jump intent in a game that is, or has just been resumed to,
      playing makes the physics jump and the perfect-jump check. */
  lemma HandleInputRestartAndJump(g: Game, intents: Intents, now: int)
    requires Valid(g)
    ensures var r := HandleInput(g, intents, now);
            && (g.state == GameOver && intents.restart ==>
                  r == (if intents.jump then JumpIntent(Restart(g, now), now) else Restart(g, now)))
            && (g.state == Playing && !intents.pause && intents.jump ==> r == JumpIntent(g, now))
            && (g.state == Paused && intents.pause && intents.jump ==> r == JumpIntent(g.(state := Playing), now))
  {
  }

  /** A jump intent credits a perfect jump only when the physics jump succeeded. */
  lemma FailedJumpCreditsNothing(g: Game, now: int)
    requires Valid(g) && g.state == Playing && !CanJump(g.physics, g.player, now)
    ensures HandleInput(g, Intents(false, false, true), now) == g
  {
  }

  /** `gameOver`: switch state and try to save the high score. */
  function EndGame(g: Game): (r: Game)
    ensures r.state == GameOver
    ensures r.store == Score.SaveHighScore(g.score, g.store).store
    ensures r.store.Some? ==> Score.GetHighScore(r.score, r.store) >= Score.GetScore(r.score)
    ensures r.(state := g.state, store := g.store) == g
  {
    g.(state := GameOver, store := Score.SaveHighScore(g.score, g.store).store)
  }

  /** `update(deltaTime)`: gravity, distance `gameSpeed * deltaTime * 0.01`,
      a possible spawn, the obstacle move, then a collision ends the game. */
  function Update(g: Game, deltaTime: real, now: int): (r: Game)
    requires Valid(g)
    ensures Valid(r)
    ensures r.player == UpdatePlayer(g.physics, g.player, now)
    ensures r.score == Score.UpdateDistance(g.score, GameSpeed * deltaTime * DistanceScale)
    ensures r.spawner == Spawner.UpdateObstacles(Spawner.SpawnObstacle(g.spawner, g.canvasWidth, now).spawner, now)
    ensures r.state == GameOver <==> g.state == GameOver || Spawner.CheckCollisions(r.spawner, r.player).Some?
    ensures r.state != GameOver ==> r.state == g.state && r.store == g.store
    ensures r.state == GameOver && g.state != GameOver ==> r.store == Score.SaveHighScore(r.score, g.store).store
    ensures r.lastTime == g.lastTime
    ensures r.lastObstacleX == g.lastObstacleX && r.physics == g.physics && r.canvasWidth == g.canvasWidth
  {
    var player := UpdatePlayer(g.physics, g.player, now);
    var score := Score.UpdateDistance(g.score, GameSpeed * deltaTime * DistanceScale);
    var spawned := Spawner.SpawnObstacle(g.spawner, g.canvasWidth, now).spawner;
    var moved := Spawner.UpdateObstacles(spawned, now);
    var next := g.(player := player, score := score, spawner := moved);
    if Spawner.CheckCollisions(moved, player).Some? then EndGame(next) else next
  }

  /** `gameLoop(currentTime)`: frame delta, input, and an update only while playing. */
  function GameLoop(g: Game, currentTime: real, intents: Intents, now: int): (r: Game)
    requires Valid(g)
    ensures Valid(r) && r.lastTime == currentTime
    ensures HandleInput(g.(lastTime := currentTime), intents, now).state != Playing ==>
              r == HandleInput(g.(lastTime := currentTime), intents, now)
    ensures HandleInput(g.(lastTime := currentTime), intents, now).state == Playing ==>
              r == Update(HandleInput(g.(lastTime := currentTime), intents, now), currentTime - g.lastTime, now)
  {
    var deltaTime := currentTime - g.lastTime;
    var afterInput := HandleInput(g.(lastTime := currentTime), intents, now);
    if afterInput.state == Playing then Update(afterInput, deltaTime, now) else afterInput
  }

  /** Game over is absorbing: without a restart intent a frame changes only the clock. */
  lemma GameOverIsAbsorbing(g: Game, currentTime: real, intents: Intents, now: int)
    requires Valid(g) && g.state == GameOver && !intents.restart
    ensures GameLoop(g, currentTime, intents, now) == g.(lastTime := currentTime)
  {
  }

  /** While paused, a frame without intents leaves the world untouched. */
  lemma PausedFrameFreezesWorld(g: Game, currentTime: real, now: int)
    requires Valid(g) && g.state == Paused
    ensures var r := GameLoop(g, currentTime, Intents(false, false, false), now);
            r == g.(lastTime := currentTime)
  {
  }
}
