/** The neon-claude orchestrator (public/game.js): the ready / playing /
    paused / gameover state machine around physics, spawner and score.
    Rendering and key handling are outside the model; `now` replaces
    `Date.now()`, `roll` the spawner's `Math.random()`, and `store` is
    `localStorage` (absent when `None`). */
module NeonClaudeGame {
  import opened Wrappers
  import opened NeonClaudePhysics
  import Spawner = NeonClaudeSpawner
  import Score = NeonClaudeScore

  const StartX: real := 100.0
  const TravelPerFrame: int := 5
  const LookBehind: real := 50.0
  const LookAhead: real := 200.0

  datatype Phase = Ready | Playing | GameOver

  datatype Game = Game(player: Player, spawner: Spawner.Spawner, score: Score.Score,
                       phase: Phase, isPaused: bool, distanceTraveled: int,
                       startTime: Option<int>, pausedTime: int, pauseStartTime: Option<int>,
                       store: Option<map<string, int>>)

  /** What every reachable game keeps. */
  predicate Valid(g: Game) {
    && Spawner.Valid(g.spawner)
    && Score.Valid(g.score)
    && g.player.y <= GroundY
    && (g.isPaused ==> g.phase == Playing)
    && (g.isPaused <==> g.pauseStartTime.Some?)
    && g.distanceTraveled >= 0
  }

  function InitialPlayer(now: int): (p: Player)
    ensures p.x == StartX && p.y == GroundY && p.grounded && !p.jumping && p.velocityY == 0.0
  {
    Player(StartX, GroundY, 30.0, 40.0, 0.0, true, false, now)
  }

  /** The constructor. */
  function Create(now: int, store: Option<map<string, int>>): (g: Game)
    ensures Valid(g) && g.phase == Ready && !g.isPaused
    ensures g.score.highScore == Score.LoadHighScore(store)
    ensures g.player == InitialPlayer(now) && g.spawner == Spawner.Create(now) && g.score == Score.Create(store)
    ensures g.distanceTraveled == 0 && g.startTime.None? && g.pausedTime == 0 && g.pauseStartTime.None?
    ensures g.store == store
  {
    Game(InitialPlayer(now), Spawner.Create(now), Score.Create(store), Ready, false, 0,
         None, 0, None, store)
  }

  /** `reset`: fresh player, spawner and score (high score kept), timers cleared. */
  function Reset(g: Game, now: int): (r: Game)
    ensures r.player == InitialPlayer(now)
    ensures r.spawner == Spawner.Reset(g.spawner, now) && r.score == Score.Reset(g.score)
    ensures r.distanceTraveled == 0 && r.startTime.None? && r.pausedTime == 0
    ensures !r.isPaused && r.pauseStartTime.None?
    ensures r.phase == g.phase && r.store == g.store && r.score.highScore == g.score.highScore
    ensures Valid(r)
  {
    g.(player := InitialPlayer(now), spawner := Spawner.Reset(g.spawner, now),
       score := Score.Reset(g.score), distanceTraveled := 0, startTime := None,
       pausedTime := 0, pauseStartTime := None, isPaused := false)
  }

  /** `start`: only from ready or gameover. */
  function Start(g: Game, now: int): (r: Game)
    ensures g.phase == Playing ==> r == g
    ensures g.phase == Ready || g.phase == GameOver ==>
              && r.phase == Playing && r.startTime == Some(now) && !r.isPaused
              && r.player == InitialPlayer(now) && r.score == Score.Reset(g.score)
              && r.spawner == Spawner.Reset(g.spawner, now) && r.pausedTime == 0
              && r.distanceTraveled == 0 && r.pauseStartTime.None? && r.store == g.store
    ensures Valid(g) ==> Valid(r)
  {
    if g.phase == Ready || g.phase == GameOver then
      Reset(g, now).(phase := Playing, startTime := Some(now))
    else g
  }

  /** `pause`: only while playing and not already paused. */
  function Pause(g: Game, now: int): (r: Game)
    ensures g.phase == Playing && !g.isPaused ==> r == g.(isPaused := true, pauseStartTime := Some(now))
    ensures !(g.phase == Playing && !g.isPaused) ==> r == g
    ensures Valid(g) ==> Valid(r)
  {
    if g.phase == Playing && !g.isPaused then g.(isPaused := true, pauseStartTime := Some(now)) else g
  }

  /** `resume`: the paused span is added to `pausedTime`. A missing pause
      start reads as 0, as `now - null` does in JavaScript. */
  function Resume(g: Game, now: int): (r: Game)
    ensures !g.isPaused ==> r == g
    ensures g.isPaused ==> !r.isPaused && r.pauseStartTime.None?
    ensures g.isPaused ==> r.pausedTime == g.pausedTime + (now - g.pauseStartTime.GetOr(0))
    ensures g.isPaused && g.pauseStartTime.Some? && now >= g.pauseStartTime.value ==> r.pausedTime >= g.pausedTime
    ensures r.phase == g.phase && r.player == g.player && r.spawner == g.spawner && r.score == g.score
    ensures Valid(g) ==> Valid(r)
  {
    if g.isPaused then
      g.(pausedTime := g.pausedTime + (now - g.pauseStartTime.GetOr(0)), isPaused := false, pauseStartTime := None)
    else g
  }

  function TogglePause(g: Game, now: int): (r: Game)
    ensures g.isPaused ==> r == Resume(g, now)
    ensures !g.isPaused ==> r == Pause(g, now)
    ensures Valid(g) ==> Valid(r)
  {
    if g.isPaused then Resume(g, now) else Pause(g, now)
  }

  /** Pausing and resuming with a non-decreasing clock never lowers `pausedTime`. */
  lemma PauseResumeAccumulates(g: Game, t1: int, t2: int)
    requires Valid(g) && g.phase == Playing && !g.isPaused && t1 <= t2
    ensures Resume(Pause(g, t1), t2).pausedTime == g.pausedTime + (t2 - t1)
    ensures Resume(Pause(g, t1), t2) == g.(pausedTime := g.pausedTime + (t2 - t1))
  {
  }

  predicate InWindow(o: Obstacle, px: real) {
    px - LookBehind < o.x < px + LookAhead
  }

  /** `findNearestObstacle`: the first obstacle, in list order, with the
      least x among those inside the look-around window. */
  function FindNearestObstacle(obs: seq<Obstacle>, px: real): (r: Option<Obstacle>)
    ensures r.None? <==> forall i :: 0 <= i < |obs| ==> !InWindow(obs[i], px)
    ensures r.Some? ==> exists k :: 0 <= k < |obs| && obs[k] == r.value && InWindow(obs[k], px)
                          && (forall j :: 0 <= j < k && InWindow(obs[j], px) ==> obs[j].x > r.value.x)
    ensures r.Some? ==> forall j :: 0 <= j < |obs| && InWindow(obs[j], px) ==> r.value.x <= obs[j].x
  {
    if |obs| == 0 then None
    else
      var rest := FindNearestObstacle(obs[1..], px);
      if InWindow(obs[0], px) && (rest.None? || obs[0].x - px <= rest.value.x - px) then
        Some(obs[0])
      else
        if rest.Some? then
          var k :| 0 <= k < |obs[1..]| && obs[1..][k] == rest.value && InWindow(obs[1..][k], px)
                   && (forall j :: 0 <= j < k && InWindow(obs[1..][j], px) ==> obs[1..][j].x > rest.value.x);
          assert obs[k + 1] == rest.value;
          rest
        else rest
  }

  /** `jump`: only while playing and not paused; the score is credited only
      after a successful physics jump, and only if an obstacle is near. */
  function Jump(g: Game, now: int): (r: Game)
    ensures !(g.phase == Playing && !g.isPaused) ==> r == g
    ensures g.phase == Playing && !g.isPaused ==> r.player == NeonClaudePhysics.Jump(g.player, now).player
    ensures r.score != g.score ==>
              && g.phase == Playing && !g.isPaused && NeonClaudePhysics.Jump(g.player, now).jumped
              && FindNearestObstacle(g.spawner.obstacles, g.player.x).Some?
    ensures r.score != g.score ==>
              r.score == Score.RegisterJump(g.score, FindNearestObstacle(g.spawner.obstacles, g.player.x), g.player.y)
    ensures g.phase == Playing && !g.isPaused && NeonClaudePhysics.Jump(g.player, now).jumped ==>
              r.score == Score.RegisterJump(g.score, FindNearestObstacle(g.spawner.obstacles, g.player.x), g.player.y)
    ensures !NeonClaudePhysics.Jump(g.player, now).jumped ==> r.score == g.score
    ensures r.spawner == g.spawner && r.phase == g.phase && r.isPaused == g.isPaused
    ensures r == g.(player := r.player, score := r.score)
    ensures Valid(g) ==> Valid(r)
  {
    if g.phase == Playing && !g.isPaused then
      var j := NeonClaudePhysics.Jump(g.player, now);
      var g1 := g.(player := j.player);
      if j.jumped then
        var nearest := FindNearestObstacle(g.spawner.obstacles, j.player.x);
        if nearest.Some? then g1.(score := Score.RegisterJump(g.score, nearest, j.player.y)) else g1
      else g1
    else g
  }

  /** `releaseJump`. */
  function ReleaseJump(g: Game): (r: Game)
    ensures !r.player.jumping
    ensures r == g.(player := g.player.(jumping := false))
    ensures Valid(g) ==> Valid(r)
  {
    g.(player := g.player.(jumping := false))
  }

  /** Some obstacle overlaps the player. */
  predicate AnyCollision(p: Player, obs: seq<Obstacle>) {
    exists i :: 0 <= i < |obs| && CheckCollision(PlayerRect(p), ObstacleRect(obs[i]))
  }

  /** `gameOver`: enter gameover and attempt to save the high score. */
  function GameOverState(g: Game): (r: Game)
    ensures r.phase == GameOver
    ensures var saved := Score.SaveHighScore(g.score, g.store);
            r.score == saved.score && r.store == saved.store
    ensures r.score.highScore >= Score.GetTotal(g.score)
    ensures r == g.(phase := GameOver, score := r.score, store := r.store)
    ensures Valid(g) && !g.isPaused ==> Valid(r)
  {
    var saved := Score.SaveHighScore(g.score, g.store);
    g.(phase := GameOver, score := saved.score, store := saved.store)
  }

  /** `update`: one frame. */
  function Update(g: Game, now: int, roll: real): (r: Game)
    ensures !(g.phase == Playing && !g.isPaused) ==> r == g
    ensures g.phase == Playing && !g.isPaused ==>
              && r.distanceTraveled == g.distanceTraveled + TravelPerFrame
              && r.player == ApplyGravity(g.player, now)
              && r.spawner == Spawner.Update(g.spawner, now - g.pausedTime, roll)
              && r.score.distance == r.distanceTraveled / 10
              && (r.phase == GameOver <==> AnyCollision(r.player, r.spawner.obstacles))
              && (r.phase == GameOver ==> r.score.highScore >= Score.GetTotal(r.score))
              && (r.phase != GameOver ==> r.phase == Playing && r.score.highScore == g.score.highScore)
    ensures g.phase == Playing && !g.isPaused ==>
              var moved := g.(distanceTraveled := r.distanceTraveled, score := Score.Update(g.score, r.distanceTraveled),
                              player := r.player, spawner := r.spawner);
              r == (if r.phase == GameOver then GameOverState(moved) else moved)
    ensures r.score.highScore >= g.score.highScore
    ensures Valid(g) ==> Valid(r)
  {
    if g.phase != Playing || g.isPaused then g
    else
      var currentTime := now - g.pausedTime;
      var travelled := g.distanceTraveled + TravelPerFrame;
      var g1 := g.(distanceTraveled := travelled, score := Score.Update(g.score, travelled),
                   player := ApplyGravity(g.player, now),
                   spawner := Spawner.Update(g.spawner, currentTime, roll));
      if AnyCollision(g1.player, g1.spawner.obstacles) then GameOverState(g1) else g1
  }

  /** A jump near a fresh obstacle, while playing, is credited: the
      obstacle's id is remembered, so jumping over it again earns nothing. */
  lemma JumpNearObstacleIsCredited(g: Game, now: int)
    requires g.phase == Playing && !g.isPaused && NeonClaudePhysics.Jump(g.player, now).jumped
    requires var n := FindNearestObstacle(g.spawner.obstacles, g.player.x);
             n.Some? && Some(n.value.id) != g.score.lastJumpedObstacle
    ensures var n := FindNearestObstacle(g.spawner.obstacles, g.player.x);
            Jump(g, now).score.lastJumpedObstacle == Some(n.value.id)
    ensures var n := FindNearestObstacle(g.spawner.obstacles, g.player.x);
            Score.RegisterJump(Jump(g, now).score, n, g.player.y) == Jump(g, now).score
  {
  }

  /** A collision is final: once a frame ends the run, later frames and
      jumps change nothing until the next start. */
  lemma GameOverIsFinal(g: Game, now: int, roll: real, later: int, laterRoll: real)
    requires Update(g, now, roll).phase == GameOver
    ensures var r := Update(g, now, roll);
            Update(r, later, laterRoll) == r && Jump(r, later) == r
  {
  }
}
