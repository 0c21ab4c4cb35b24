/** Game rules of the dodgefall-gemini game (game/logic.py, with the
    dataclass defaults of game/model.py folded in). Objects fall by their
    speed per frame and accelerate with elapsed time; a hit costs a life
    but leaves the obstacle in place; one star per frame is collected.
    `random.randint` and `random.uniform` draws are the fields of `Draws`. */
module DodgefallGeminiLogic {
  import opened Wrappers
  import SeqUtil

  const Width: int := 800
  const Height: int := 600
  const PlayerWidth: real := 50.0
  const PlayerHeight: real := 50.0
  const ObstacleWidth: real := 50.0
  const ObstacleHeight: real := 50.0
  const StarWidth: real := 30.0
  const StarHeight: real := 30.0
  const PlayerSpeed: real := 5.0
  const InitialObstacleSpeed: real := 2.0
  const InitialStarSpeed: real := 2.0
  const InvulnerabilityDuration: real := 1.5
  const ComboDuration: real := 3.0
  const StarPoints: int := 10
  const StartLives: int := 3

  /** Player, obstacles and stars share one shape: a rectangle with a speed. */
  datatype Entity = Entity(x: real, y: real, width: real, height: real, speed: real)

  datatype GameState = GameState(player: Entity, obstacles: seq<Entity>, stars: seq<Entity>,
                                 score: int, lives: int, gameOver: bool, paused: bool,
                                 invulnerable: bool, invulnerabilityTimer: real, comboTimer: real,
                                 comboMultiplier: int, obstacleSpawnTimer: real, starSpawnTimer: real,
                                 obstacleSpeedIncrease: real, starSpeedIncrease: real)

  /** The random draws of one step: next obstacle interval and x, next star interval and x. */
  datatype Draws = Draws(obstacleInterval: real, obstacleX: int, starInterval: real, starX: int)

  predicate Valid(s: GameState) { s.comboMultiplier >= 1 }

  /** `init_game_state`: the player centred 10 px above the bottom, every
      other field at its dataclass default. */
  function InitGameState(): (s: GameState)
    ensures Valid(s) && s.obstacles == [] && s.stars == [] && s.score == 0 && s.lives == StartLives
    ensures !s.gameOver && !s.paused && !s.invulnerable && s.comboMultiplier == 1
    ensures s.player == Entity(375.0, 540.0, PlayerWidth, PlayerHeight, PlayerSpeed)
    ensures s.obstacleSpeedIncrease == 0.01 && s.starSpeedIncrease == 0.01
    ensures s.invulnerabilityTimer == 0.0 && s.comboTimer == 0.0
    ensures s.obstacleSpawnTimer == 0.0 && s.starSpawnTimer == 0.0
  {
    GameState(Entity(Width as real / 2.0 - PlayerWidth / 2.0, Height as real - PlayerHeight - 10.0,
                     PlayerWidth, PlayerHeight, PlayerSpeed),
              [], [], 0, StartLives, false, false, false, 0.0, 0.0, 1, 0.0, 0.0, 0.01, 0.01)
  }

  /** `check_rect_collision`: strict overlap on both axes. */
  function CheckRectCollision(a: Entity, b: Entity): (r: bool)
    ensures r <==> (a.x < b.x + b.width && b.x < a.x + a.width) && (a.y < b.y + b.height && b.y < a.y + a.height)
  {
    a.x < b.x + b.width && a.x + a.width > b.x && a.y < b.y + b.height && a.y + a.height > b.y
  }

  lemma CollisionSymmetric(a: Entity, b: Entity)
    ensures CheckRectCollision(a, b) == CheckRectCollision(b, a)
  {
  }

  lemma TouchingEdgesDoNotCollide(a: Entity, b: Entity)
    requires b.x == a.x + a.width || b.y == a.y + a.height
    ensures !CheckRectCollision(a, b)
  {
  }

  function MaxReal(a: real, b: real): real { if a >= b then a else b }
  function MinReal(a: real, b: real): real { if a <= b then a else b }

  /** `move_player`: ignored while paused or over; otherwise one speed step
      in the given direction, clamped into [0, 800 − width]. */
  function MovePlayer(s: GameState, direction: int): (r: GameState)
    ensures s.gameOver || s.paused ==> r == s
    ensures r == s.(player := s.player.(x := r.player.x))
    ensures !s.gameOver && !s.paused ==> 0.0 <= r.player.x
    ensures !s.gameOver && !s.paused && s.player.width <= Width as real ==> r.player.x <= Width as real - s.player.width
    ensures var moved := s.player.x + direction as real * s.player.speed;
            var room := Width as real - s.player.width;
            !s.gameOver && !s.paused ==>
              && (0.0 <= moved <= room ==> r.player.x == moved)
              && (moved < 0.0 ==> r.player.x == 0.0)
              && (moved > room ==> r.player.x == (if room < 0.0 then 0.0 else room))
  {
    if s.gameOver || s.paused then s
    else
      var moved := s.player.x + direction as real * s.player.speed;
      s.(player := s.player.(x := MaxReal(0.0, MinReal(Width as real - s.player.width, moved))))
  }

  /** The timer part of `update_game_state`: both countdowns run; an expired
      invulnerability clears the flag and an expired combo resets it to 1. */
  function RunTimers(s: GameState, dt: real): (r: GameState)
    ensures r.invulnerabilityTimer == s.invulnerabilityTimer - dt && r.comboTimer == s.comboTimer - dt
    ensures r.invulnerable == (s.invulnerable && r.invulnerabilityTimer > 0.0)
    ensures r.comboMultiplier == (if r.comboTimer <= 0.0 then 1 else s.comboMultiplier)
    ensures r == s.(invulnerabilityTimer := r.invulnerabilityTimer, invulnerable := r.invulnerable,
                    comboTimer := r.comboTimer, comboMultiplier := r.comboMultiplier)
  {
    var t := s.invulnerabilityTimer - dt;
    var s1 := if t <= 0.0 then s.(invulnerabilityTimer := t, invulnerable := false) else s.(invulnerabilityTimer := t);
    var c := s1.comboTimer - dt;
    if c <= 0.0 then s1.(comboTimer := c, comboMultiplier := 1) else s1.(comboTimer := c)
  }

  /** `spawn_obstacle` and `spawn_star` under their countdowns: an expired
      timer appends one object just above the screen and draws a new interval. */
  function Spawn(s: GameState, dt: real, d: Draws): (r: GameState)
    ensures s.obstacleSpawnTimer - dt <= 0.0 ==>
              r.obstacleSpawnTimer == d.obstacleInterval
              && r.obstacles == s.obstacles + [Entity(d.obstacleX as real, -ObstacleHeight, ObstacleWidth, ObstacleHeight, InitialObstacleSpeed)]
    ensures s.obstacleSpawnTimer - dt > 0.0 ==> r.obstacleSpawnTimer == s.obstacleSpawnTimer - dt && r.obstacles == s.obstacles
    ensures s.starSpawnTimer - dt <= 0.0 ==>
              r.starSpawnTimer == d.starInterval
              && r.stars == s.stars + [Entity(d.starX as real, -StarHeight, StarWidth, StarHeight, InitialStarSpeed)]
    ensures s.starSpawnTimer - dt > 0.0 ==> r.starSpawnTimer == s.starSpawnTimer - dt && r.stars == s.stars
    ensures r == s.(obstacleSpawnTimer := r.obstacleSpawnTimer, obstacles := r.obstacles,
                    starSpawnTimer := r.starSpawnTimer, stars := r.stars)
    ensures d.obstacleInterval > 0.0 ==> r.obstacleSpawnTimer > 0.0
    ensures d.starInterval > 0.0 ==> r.starSpawnTimer > 0.0
  {
    var t := s.obstacleSpawnTimer - dt;
    var s1 :=
      if t <= 0.0 then
        s.(obstacles := s.obstacles + [Entity(d.obstacleX as real, -ObstacleHeight, ObstacleWidth, ObstacleHeight, InitialObstacleSpeed)],
           obstacleSpawnTimer := d.obstacleInterval)
      else s.(obstacleSpawnTimer := t);
    var u := s1.starSpawnTimer - dt;
    if u <= 0.0 then
      s1.(stars := s1.stars + [Entity(d.starX as real, -StarHeight, StarWidth, StarHeight, InitialStarSpeed)],
          starSpawnTimer := d.starInterval)
    else s1.(starSpawnTimer := u)
  }

  /** One frame of falling: down by the current speed, then faster by
      `increase × dt`. */
  function Fall(e: Entity, increase: real, dt: real): (r: Entity)
    ensures r.y == e.y + e.speed && r.speed == e.speed + increase * dt
    ensures r.x == e.x && r.width == e.width && r.height == e.height
  {
    e.(y := e.y + e.speed, speed := e.speed + increase * dt)
  }

  predicate Visible(e: Entity) { e.y < Height as real }

  /** The moving part of `update_game_state`: everything falls and only
      objects whose top is still above the bottom edge are kept. */
  function MoveObjects(s: GameState, dt: real): (r: GameState)
    ensures r == s.(obstacles := r.obstacles, stars := r.stars)
    ensures r.obstacles == SeqUtil.Filter(Visible, SeqUtil.Map((e: Entity) => Fall(e, s.obstacleSpeedIncrease, dt), s.obstacles))
    ensures r.stars == SeqUtil.Filter(Visible, SeqUtil.Map((e: Entity) => Fall(e, s.starSpeedIncrease, dt), s.stars))
    ensures forall i :: 0 <= i < |r.obstacles| ==> r.obstacles[i].y < Height as real
    ensures forall i :: 0 <= i < |r.stars| ==> r.stars[i].y < Height as real
  {
    s.(obstacles := SeqUtil.Filter(Visible, SeqUtil.Map((e: Entity) => Fall(e, s.obstacleSpeedIncrease, dt), s.obstacles)),
       stars := SeqUtil.Filter(Visible, SeqUtil.Map((e: Entity) => Fall(e, s.starSpeedIncrease, dt), s.stars)))
  }

  /** The obstacle part of `check_collisions`: when not invulnerable, the
      first overlapping obstacle costs a life, starts 1.5 s of
      invulnerability and resets the combo; the obstacle stays. */
  function HitObstacle(s: GameState): (r: GameState)
    ensures s.invulnerable ==> r == s
    ensures (forall j :: 0 <= j < |s.obstacles| ==> !CheckRectCollision(s.player, s.obstacles[j])) ==> r == s
    ensures !s.invulnerable && (exists j :: 0 <= j < |s.obstacles| && CheckRectCollision(s.player, s.obstacles[j])) ==>
              r == s.(lives := s.lives - 1, invulnerable := true, invulnerabilityTimer := InvulnerabilityDuration,
                      comboMultiplier := 1, gameOver := s.gameOver || s.lives - 1 <= 0)
    ensures r.obstacles == s.obstacles && r.stars == s.stars && r.score == s.score && r.player == s.player
    ensures Valid(s) ==> Valid(r)
  {
    if s.invulnerable then s
    else
      match SeqUtil.FirstIndex((o: Entity) => CheckRectCollision(s.player, o), s.obstacles)
      case None => s
      case Some(_) =>
        s.(lives := s.lives - 1, invulnerable := true, invulnerabilityTimer := InvulnerabilityDuration,
           comboMultiplier := 1, gameOver := s.gameOver || s.lives - 1 <= 0)
  }

  /** Collecting star `k`: 10 × the combo before it grows, the combo timer
      restarted, the combo one higher and the star removed. */
  function CollectAt(s: GameState, k: nat): (r: GameState)
    requires k < |s.stars|
    ensures r.score == s.score + StarPoints * s.comboMultiplier && r.stars == SeqUtil.RemoveAt(s.stars, k)
    ensures r.comboTimer == ComboDuration && r.comboMultiplier == s.comboMultiplier + 1
    ensures r == s.(score := r.score, comboTimer := r.comboTimer, comboMultiplier := r.comboMultiplier, stars := r.stars)
  {
    s.(score := s.score + StarPoints * s.comboMultiplier, comboTimer := ComboDuration,
       comboMultiplier := s.comboMultiplier + 1, stars := SeqUtil.RemoveAt(s.stars, k))
  }

  /** The star part of `check_collisions`: the first overlapping star is
      collected (`CollectAt`); without one nothing changes. */
  function CollectStar(s: GameState): (r: GameState)
    ensures (forall j :: 0 <= j < |s.stars| ==> !CheckRectCollision(s.player, s.stars[j])) ==> r == s
    ensures (exists j :: 0 <= j < |s.stars| && CheckRectCollision(s.player, s.stars[j])) ==>
              exists k :: 0 <= k < |s.stars|
                && CheckRectCollision(s.player, s.stars[k])
                && (forall j :: 0 <= j < k ==> !CheckRectCollision(s.player, s.stars[j]))
                && r == CollectAt(s, k)
    ensures |r.stars| >= |s.stars| - 1 && r.lives == s.lives && r.obstacles == s.obstacles
    ensures Valid(s) ==> Valid(r) && r.score >= s.score
  {
    match SeqUtil.FirstIndex((st: Entity) => CheckRectCollision(s.player, st), s.stars)
    case None => s
    case Some(k) => CollectAt(s, k)
  }

  /** Touching any star collects exactly one star for 10 × the combo and
      raises the combo by one. */
  lemma TouchedStarScores(s: GameState, j: nat)
    requires j < |s.stars| && CheckRectCollision(s.player, s.stars[j])
    ensures var r := CollectStar(s);
            && r.score == s.score + StarPoints * s.comboMultiplier && |r.stars| == |s.stars| - 1
            && r.comboMultiplier == s.comboMultiplier + 1 && r.comboTimer == ComboDuration
  {
  }

  /** `check_collisions`. */
  function CheckCollisions(s: GameState): (r: GameState)
    ensures r == CollectStar(HitObstacle(s))
    ensures r.lives >= s.lives - 1 && r.obstacles == s.obstacles && |r.stars| >= |s.stars| - 1
    ensures Valid(s) ==> Valid(r) && r.score >= s.score
  {
    CollectStar(HitObstacle(s))
  }

  /** `update_game_state`: nothing while paused or over; otherwise timers,
      spawning, falling and collisions, in that order. */
  function UpdateGameState(s: GameState, dt: real, d: Draws): (r: GameState)
    ensures s.gameOver || s.paused ==> r == s
    ensures !s.gameOver && !s.paused ==>
              r == CheckCollisions(MoveObjects(Spawn(RunTimers(s, dt), dt, d), dt))
    ensures r.lives >= s.lives - 1 && r.paused == s.paused
    ensures r.gameOver ==> s.gameOver || r.lives <= 0
    ensures Valid(s) ==> Valid(r) && r.score >= s.score
  {
    if s.gameOver || s.paused then s
    else CheckCollisions(MoveObjects(Spawn(RunTimers(s, dt), dt, d), dt))
  }

  /** While invulnerability has time left after the countdown, a step costs no life. */
  lemma InvulnerabilityWindowProtects(s: GameState, dt: real, d: Draws)
    requires s.invulnerable && s.invulnerabilityTimer - dt > 0.0
    ensures UpdateGameState(s, dt, d).lives == s.lives
  {
  }

  /** `toggle_pause`: flips the flag unless the game is over. */
  function TogglePause(s: GameState): (r: GameState)
    ensures s.gameOver ==> r == s
    ensures !s.gameOver ==> r == s.(paused := !s.paused)
  {
    if s.gameOver then s else s.(paused := !s.paused)
  }

  /** `restart_game`: a fresh initial state whatever the old one was. */
  function RestartGame(s: GameState): (r: GameState)
    ensures r == InitGameState()
  {
    InitGameState()
  }
}
