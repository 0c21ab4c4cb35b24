/** Game rules of the dodgefall-copilot game (game/logic.py): one `update`
    step moves the player, runs the two spawn timers, lets objects fall,
    resolves collisions, adjusts the combo and ends the game when lives run
    out. `random.uniform` draws are the parameters `obstacleRoll` and
    `starRoll` in [0, 1]; writing the high-score file is not modelled. */
module DodgefallCopilotLogic {
  import opened Wrappers
  import opened DodgefallCopilotModel
  import SeqUtil

  const PlayerSpeed: real := 300.0
  const StarInterval: real := 3.0
  const StarFallSpeed: real := 150.0
  const InvulnerabilityTime: real := 1.5
  const StarPoints: int := 10
  const ComboWindow: real := 3.0
  const MaxCombo: int := 10

  /** The `GameLogic` object: screen size and the two spawn timers. */
  datatype Logic = Logic(screenWidth: int, screenHeight: int, obstacleSpawnTimer: real, starSpawnTimer: real)

  datatype Input = Input(left: bool, right: bool)

  datatype Step = Step(logic: Logic, state: GameState)

  predicate Valid(s: GameState) { 1 <= s.comboMultiplier <= MaxCombo }

  function MaxReal(a: real, b: real): real { if a >= b then a else b }
  function MinReal(a: real, b: real): real { if a <= b then a else b }

  /** `_update_player`: move at 300 px/s per pressed key, then clamp into
      [0, screen_width − width]. */
  function UpdatePlayer(l: Logic, p: Player, dt: real, input: Input): (r: Player)
    ensures r == p.(x := r.x)
    ensures 0.0 <= r.x
    ensures p.width <= l.screenWidth as real ==> r.x <= l.screenWidth as real - p.width
    ensures var moved := p.x - (if input.left then PlayerSpeed * dt else 0.0) + (if input.right then PlayerSpeed * dt else 0.0);
            var room := l.screenWidth as real - p.width;
            && (0.0 <= moved <= room ==> r.x == moved)
            && (moved < 0.0 ==> r.x == 0.0)
            && (moved > room ==> r.x == (if room < 0.0 then 0.0 else room))
  {
    var afterLeft := if input.left then p.x - PlayerSpeed * dt else p.x;
    var afterRight := if input.right then afterLeft + PlayerSpeed * dt else afterLeft;
    p.(x := MaxReal(0.0, MinReal(afterRight, l.screenWidth as real - p.width)))
  }

  /** The obstacle spawn interval: 2 s shrinking by 1 s per 30 s of play, floor 0.5 s. */
  function SpawnRate(gameTime: real): (r: real)
    ensures r >= 0.5 && r >= 2.0 - gameTime / 30.0
    ensures r == 0.5 || r == 2.0 - gameTime / 30.0
  {
    MaxReal(0.5, 2.0 - gameTime / 30.0)
  }

  /** `_spawn_obstacles`: the timer advances; once it reaches the rate, it
      restarts and one obstacle appears above the screen, faster the longer
      the game has run. */
  function SpawnObstacles(l: Logic, s: GameState, dt: real, roll: real): (r: Step)
    ensures var due := l.obstacleSpawnTimer + dt >= SpawnRate(s.gameTime);
            && (due ==> r.logic == l.(obstacleSpawnTimer := 0.0)
                        && r.state == s.(obstacles := s.obstacles + [NewObstacle(roll * (l.screenWidth - 30) as real, -30.0, 200.0 + s.gameTime * 10.0)]))
            && (!due ==> r == Step(l.(obstacleSpawnTimer := l.obstacleSpawnTimer + dt), s))
    ensures r.logic.obstacleSpawnTimer < SpawnRate(s.gameTime)
  {
    var timer := l.obstacleSpawnTimer + dt;
    if timer >= SpawnRate(s.gameTime) then
      var o := NewObstacle(roll * (l.screenWidth - 30) as real, -30.0, 200.0 + s.gameTime * 10.0);
      Step(l.(obstacleSpawnTimer := 0.0), s.(obstacles := s.obstacles + [o]))
    else Step(l.(obstacleSpawnTimer := timer), s)
  }

  /** `_spawn_stars`: one star every 3 s of accumulated time. */
  function SpawnStars(l: Logic, s: GameState, dt: real, roll: real): (r: Step)
    ensures var due := l.starSpawnTimer + dt >= StarInterval;
            && (due ==> r.logic == l.(starSpawnTimer := 0.0)
                        && r.state == s.(stars := s.stars + [NewStar(roll * (l.screenWidth - 20) as real, -20.0, s.gameTime)]))
            && (!due ==> r == Step(l.(starSpawnTimer := l.starSpawnTimer + dt), s))
    ensures r.logic.starSpawnTimer < StarInterval
  {
    var timer := l.starSpawnTimer + dt;
    if timer >= StarInterval then
      Step(l.(starSpawnTimer := 0.0), s.(stars := s.stars + [NewStar(roll * (l.screenWidth - 20) as real, -20.0, s.gameTime)]))
    else Step(l.(starSpawnTimer := timer), s)
  }

  function Fall(o: Obstacle, dt: real): Obstacle { o.(y := o.y + o.speed * dt) }
  function FallStar(st: Star, dt: real): Star { st.(y := st.y + StarFallSpeed * dt) }

  /** An object stays while its top is not below the screen. */
  predicate ObstacleStays(h: real, o: Obstacle) { o.y <= h }
  predicate StarStays(h: real, st: Star) { st.y <= h }

  /** `_update_obstacles` and `_update_stars`: everything falls, and objects
      whose top is below the screen are removed. Removing from the list
      while iterating a copy removes exactly the object at hand (any earlier
      equal object would also be below the screen), so this is a filter. */
  function UpdateObstacles(l: Logic, s: GameState, dt: real): (r: GameState)
    ensures r == s.(obstacles := r.obstacles)
    ensures |r.obstacles| <= |s.obstacles|
    ensures forall i :: 0 <= i < |r.obstacles| ==> r.obstacles[i].y <= l.screenHeight as real
    ensures forall i :: 0 <= i < |s.obstacles| && Fall(s.obstacles[i], dt).y <= l.screenHeight as real
              ==> Fall(s.obstacles[i], dt) in r.obstacles
    ensures r.obstacles == SeqUtil.Filter((o: Obstacle) => ObstacleStays(l.screenHeight as real, o),
                                          SeqUtil.Map((o: Obstacle) => Fall(o, dt), s.obstacles))
  {
    s.(obstacles := SeqUtil.Filter((o: Obstacle) => ObstacleStays(l.screenHeight as real, o),
                                   SeqUtil.Map((o: Obstacle) => Fall(o, dt), s.obstacles)))
  }

  /** The survivors keep their order: an obstacle added at the end falls
      and, if still on screen, survives after all earlier survivors. */
  lemma UpdateObstaclesAppend(l: Logic, s: GameState, dt: real, o: Obstacle)
    ensures var fell := Fall(o, dt);
            UpdateObstacles(l, s.(obstacles := s.obstacles + [o]), dt).obstacles
            == UpdateObstacles(l, s, dt).obstacles + (if fell.y <= l.screenHeight as real then [fell] else [])
  {
    SeqUtil.FilterMapAppend((x: Obstacle) => ObstacleStays(l.screenHeight as real, x),
                            (x: Obstacle) => Fall(x, dt), s.obstacles, o);
  }

  function UpdateStars(l: Logic, s: GameState, dt: real): (r: GameState)
    ensures r == s.(stars := r.stars)
    ensures |r.stars| <= |s.stars|
    ensures forall i :: 0 <= i < |r.stars| ==> r.stars[i].y <= l.screenHeight as real
    ensures forall i :: 0 <= i < |s.stars| && FallStar(s.stars[i], dt).y <= l.screenHeight as real
              ==> FallStar(s.stars[i], dt) in r.stars
    ensures r.stars == SeqUtil.Filter((st: Star) => StarStays(l.screenHeight as real, st),
                                      SeqUtil.Map((st: Star) => FallStar(st, dt), s.stars))
  {
    s.(stars := SeqUtil.Filter((st: Star) => StarStays(l.screenHeight as real, st),
                               SeqUtil.Map((st: Star) => FallStar(st, dt), s.stars)))
  }

  /** A star added at the end survives, if still on screen, after all
      earlier survivors. */
  lemma UpdateStarsAppend(l: Logic, s: GameState, dt: real, st: Star)
    ensures var fell := FallStar(st, dt);
            UpdateStars(l, s.(stars := s.stars + [st]), dt).stars
            == UpdateStars(l, s, dt).stars + (if fell.y <= l.screenHeight as real then [fell] else [])
  {
    SeqUtil.FilterMapAppend((x: Star) => StarStays(l.screenHeight as real, x),
                            (x: Star) => FallStar(x, dt), s.stars, st);
  }

  /** A hit by obstacle `k`: it is removed, a life is lost, 1.5 s of
      invulnerability start and the combo resets to 1. */
  function HitBy(s: GameState, k: nat): (r: GameState)
    requires k < |s.obstacles|
    ensures r.obstacles == SeqUtil.RemoveAt(s.obstacles, k) && r.comboMultiplier == 1
    ensures r.player == s.player.(lives := s.player.lives - 1, invulnerableTime := InvulnerabilityTime)
    ensures r == s.(obstacles := r.obstacles, comboMultiplier := r.comboMultiplier, player := r.player)
  {
    s.(obstacles := SeqUtil.RemoveAt(s.obstacles, k), comboMultiplier := 1,
       player := s.player.(lives := s.player.lives - 1, invulnerableTime := InvulnerabilityTime))
  }

  /** The obstacle part of `_check_collisions`: the first overlapping
      obstacle hits the player (`HitBy`); without one nothing changes. */
  function HitObstacle(s: GameState): (r: GameState)
    ensures (forall j :: 0 <= j < |s.obstacles| ==> !CollidesWith(PlayerBox(s.player), ObstacleBox(s.obstacles[j])))
            ==> r == s
    ensures (exists j :: 0 <= j < |s.obstacles| && CollidesWith(PlayerBox(s.player), ObstacleBox(s.obstacles[j]))) ==>
              exists k :: 0 <= k < |s.obstacles|
                && CollidesWith(PlayerBox(s.player), ObstacleBox(s.obstacles[k]))
                && (forall j :: 0 <= j < k ==> !CollidesWith(PlayerBox(s.player), ObstacleBox(s.obstacles[j])))
                && r == HitBy(s, k)
    ensures r.player.lives >= s.player.lives - 1 && |r.obstacles| >= |s.obstacles| - 1
  {
    match SeqUtil.FirstIndex((o: Obstacle) => CollidesWith(PlayerBox(s.player), ObstacleBox(o)), s.obstacles)
    case None => s
    case Some(k) => HitBy(s, k)
  }

  /** Touching any obstacle costs exactly one life and one obstacle, and
      starts the invulnerability. */
  lemma HitCostsALife(s: GameState, j: nat)
    requires j < |s.obstacles| && CollidesWith(PlayerBox(s.player), ObstacleBox(s.obstacles[j]))
    ensures var r := HitObstacle(s);
            && r.player.lives == s.player.lives - 1 && |r.obstacles| == |s.obstacles| - 1
            && r.player.invulnerableTime == InvulnerabilityTime && r.comboMultiplier == 1
  {
  }

  /** Collecting star `k`: it is removed and scores 10 × combo, stamped
      with the current game time. */
  function CollectAt(s: GameState, k: nat): (r: GameState)
    requires k < |s.stars|
    ensures r.stars == SeqUtil.RemoveAt(s.stars, k) && r.score == s.score + StarPoints * s.comboMultiplier
    ensures r.lastStarTime == s.gameTime
    ensures r == s.(stars := r.stars, score := r.score, lastStarTime := r.lastStarTime)
  {
    s.(stars := SeqUtil.RemoveAt(s.stars, k), score := s.score + StarPoints * s.comboMultiplier,
       lastStarTime := s.gameTime)
  }

  /** The star part of `_check_collisions`: the first overlapping star is
      collected (`CollectAt`); without one nothing changes. */
  function CollectStar(s: GameState): (r: GameState)
    ensures (forall j :: 0 <= j < |s.stars| ==> !CollidesWith(PlayerBox(s.player), StarBox(s.stars[j])))
            ==> r == s
    ensures (exists j :: 0 <= j < |s.stars| && CollidesWith(PlayerBox(s.player), StarBox(s.stars[j]))) ==>
              exists k :: 0 <= k < |s.stars|
                && CollidesWith(PlayerBox(s.player), StarBox(s.stars[k]))
                && (forall j :: 0 <= j < k ==> !CollidesWith(PlayerBox(s.player), StarBox(s.stars[j])))
                && r == CollectAt(s, k)
  {
    match SeqUtil.FirstIndex((st: Star) => CollidesWith(PlayerBox(s.player), StarBox(st)), s.stars)
    case None => s
    case Some(k) => CollectAt(s, k)
  }

  /** Touching any star collects exactly one star for 10 × combo points. */
  lemma TouchedStarScores(s: GameState, j: nat)
    requires j < |s.stars| && CollidesWith(PlayerBox(s.player), StarBox(s.stars[j]))
    ensures var r := CollectStar(s);
            && r.score == s.score + StarPoints * s.comboMultiplier && |r.stars| == |s.stars| - 1
            && r.lastStarTime == s.gameTime
  {
  }

  /** `_check_collisions`: nothing at all while invulnerable (stars
      included); otherwise at most one obstacle hit, then at most one star. */
  function CheckCollisions(s: GameState): (r: GameState)
    ensures IsInvulnerable(s.player) ==> r == s
    ensures !IsInvulnerable(s.player) ==> r == CollectStar(HitObstacle(s))
    ensures r.player.lives >= s.player.lives - 1
    ensures Valid(s) ==> Valid(r) && r.score >= s.score
  {
    if IsInvulnerable(s.player) then s else CollectStar(HitObstacle(s))
  }

  /** `_update_combo`: grows by one (capped at 10) within 3 s of a star
      collected after time 0, resets to 1 after more than 3 s. */
  function UpdateCombo(s: GameState): (r: GameState)
    ensures r == s.(comboMultiplier := r.comboMultiplier)
    ensures s.gameTime - s.lastStarTime <= ComboWindow && s.lastStarTime > 0.0 ==>
              r.comboMultiplier == (if s.comboMultiplier + 1 <= MaxCombo then s.comboMultiplier + 1 else MaxCombo)
    ensures s.gameTime - s.lastStarTime > ComboWindow ==> r.comboMultiplier == 1
    ensures s.gameTime - s.lastStarTime <= ComboWindow && s.lastStarTime <= 0.0 ==> r == s
    ensures Valid(s) ==> Valid(r)
  {
    var since := s.gameTime - s.lastStarTime;
    if since <= ComboWindow && s.lastStarTime > 0.0 then
      s.(comboMultiplier := if s.comboMultiplier + 1 <= MaxCombo then s.comboMultiplier + 1 else MaxCombo)
    else if since > ComboWindow then s.(comboMultiplier := 1)
    else s
  }

  /** The fields that spawning and falling leave alone. */
  predicate SameStatus(a: GameState, b: GameState) {
    && a.player == b.player && a.score == b.score && a.highScore == b.highScore
    && a.comboMultiplier == b.comboMultiplier && a.gameTime == b.gameTime
    && a.paused == b.paused && a.gameOver == b.gameOver
  }

  /** The clock and the player part of `update`: time advances, the player
      moves and the invulnerability countdown runs. */
  function MovePlayer(l: Logic, s: GameState, dt: real, input: Input): (r: GameState)
    ensures r == s.(gameTime := s.gameTime + dt, player := r.player)
    ensures r.player.lives == s.player.lives
    ensures r.player.invulnerableTime == (if s.player.invulnerableTime > 0.0 then s.player.invulnerableTime - dt else s.player.invulnerableTime)
    ensures r.player == s.player.(x := UpdatePlayer(l, s.player, dt, input).x, invulnerableTime := r.player.invulnerableTime)
  {
    var moved := UpdatePlayer(l, s.player, dt, input);
    var p := if moved.invulnerableTime > 0.0 then moved.(invulnerableTime := moved.invulnerableTime - dt) else moved;
    s.(gameTime := s.gameTime + dt, player := p)
  }

  /** The spawning and falling part of `update`. */
  function SpawnAndFall(l: Logic, s: GameState, dt: real, obstacleRoll: real, starRoll: real): (r: Step)
    ensures SameStatus(r.state, s)
    ensures var a := SpawnObstacles(l, s, dt, obstacleRoll);
            var b := SpawnStars(a.logic, a.state, dt, starRoll);
            r == Step(b.logic, UpdateStars(b.logic, UpdateObstacles(b.logic, b.state, dt), dt))
  {
    var a := SpawnObstacles(l, s, dt, obstacleRoll);
    var b := SpawnStars(a.logic, a.state, dt, starRoll);
    Step(b.logic, UpdateStars(b.logic, UpdateObstacles(b.logic, b.state, dt), dt))
  }

  /** Collisions, then the combo check: the status, clock and high score
      stay, at most one life is lost, and the score never drops. */
  function Resolve(s: GameState): (r: GameState)
    ensures r.gameTime == s.gameTime && r.highScore == s.highScore
    ensures r.paused == s.paused && r.gameOver == s.gameOver
    ensures r.player.lives >= s.player.lives - 1
    ensures Valid(s) ==> Valid(r) && r.score >= s.score
    ensures r == UpdateCombo(CheckCollisions(s))
  {
    UpdateCombo(CheckCollisions(s))
  }

  /** The body of `update` up to the game-over test. */
  function Advance(l: Logic, s: GameState, dt: real, input: Input, obstacleRoll: real, starRoll: real): (r: Step)
    ensures r.state.gameTime == s.gameTime + dt && r.state.highScore == s.highScore
    ensures r.state.paused == s.paused && r.state.gameOver == s.gameOver
    ensures r.state.player.lives >= s.player.lives - 1
    ensures Valid(s) ==> Valid(r.state) && r.state.score >= s.score
    ensures var b := SpawnAndFall(l, MovePlayer(l, s, dt, input), dt, obstacleRoll, starRoll);
            r == Step(b.logic, Resolve(b.state))
  {
    var b := SpawnAndFall(l, MovePlayer(l, s, dt, input), dt, obstacleRoll, starRoll);
    Step(b.logic, Resolve(b.state))
  }

  /** The game-over test closing `update`. */
  function EndIfNoLives(s: GameState): (r: GameState)
    ensures r.gameOver <==> s.gameOver || s.player.lives <= 0
    ensures s.player.lives <= 0 ==> r.highScore == (if s.score > s.highScore then s.score else s.highScore)
    ensures s.player.lives > 0 ==> r == s
    ensures r == s.(gameOver := r.gameOver, highScore := r.highScore)
  {
    if s.player.lives <= 0 then
      s.(gameOver := true, highScore := if s.score > s.highScore then s.score else s.highScore)
    else s
  }

  /** `update`: nothing happens while paused or after game over; otherwise
      the full step, ending the game (and raising the high score) once no
      lives are left. */
  function Update(l: Logic, s: GameState, dt: real, input: Input, obstacleRoll: real, starRoll: real): (r: Step)
    ensures s.gameOver || s.paused ==> r == Step(l, s)
    ensures !s.gameOver && !s.paused ==>
              && r.state.gameTime == s.gameTime + dt
              && (r.state.gameOver <==> r.state.player.lives <= 0)
              && r.state.player.lives >= s.player.lives - 1
              && r.state.highScore == (if r.state.gameOver && r.state.score > s.highScore then r.state.score else s.highScore)
              && !r.state.paused
    ensures Valid(s) ==> Valid(r.state) && r.state.score >= s.score && r.state.highScore >= s.highScore
    ensures r.state.gameOver && !s.gameOver ==> r.state.highScore >= r.state.score
    ensures !s.gameOver && !s.paused ==>
              var a := Advance(l, s, dt, input, obstacleRoll, starRoll);
              r == Step(a.logic, EndIfNoLives(a.state))
  {
    if s.gameOver || s.paused then Step(l, s)
    else
      var a := Advance(l, s, dt, input, obstacleRoll, starRoll);
      Step(a.logic, EndIfNoLives(a.state))
  }

  /** `toggle_pause`: flips the flag unless the game is over. */
  function TogglePause(s: GameState): (r: GameState)
    ensures s.gameOver ==> r == s
    ensures !s.gameOver ==> r == s.(paused := !s.paused)
  {
    if s.gameOver then s else s.(paused := !s.paused)
  }

  lemma TogglePauseTwice(s: GameState)
    ensures TogglePause(TogglePause(s)) == s
  {
  }

  /** `restart_game`: the state is reset and both spawn timers cleared. */
  function RestartGame(l: Logic, s: GameState): (r: Step)
    ensures Fresh(r.state) && r.state.highScore == s.highScore && Valid(r.state)
    ensures r.state.screenWidth == s.screenWidth && r.state.screenHeight == s.screenHeight
    ensures r.state == Reset(s)
    ensures r.logic == l.(obstacleSpawnTimer := 0.0, starSpawnTimer := 0.0)
  {
    Step(l.(obstacleSpawnTimer := 0.0, starSpawnTimer := 0.0), Reset(s))
  }

  /** What one frame feeds `update`: the time step, the keys held and the
      two uniform draws. */
  datatype Frame = Frame(dt: real, input: Input, obstacleRoll: real, starRoll: real)

  /** `update` applied frame by frame. */
  function Run(l: Logic, s: GameState, frames: seq<Frame>): Step
    decreases |frames|
  {
    if |frames| == 0 then Step(l, s)
    else
      var f := frames[0];
      var next := Update(l, s, f.dt, f.input, f.obstacleRoll, f.starRoll);
      Run(next.logic, next.state, frames[1..])
  }

  /** Over any sequence of frames, each with its own step, keys and draws,
      the combo stays within [1, 10] and the score and high score never drop. */
  lemma {:induction false} RunKeepsComboInRange(l: Logic, s: GameState, frames: seq<Frame>)
    requires Valid(s)
    ensures Valid(Run(l, s, frames).state)
    ensures Run(l, s, frames).state.highScore >= s.highScore
    ensures Run(l, s, frames).state.score >= s.score
    decreases |frames|
  {
    if |frames| > 0 {
      var f := frames[0];
      var next := Update(l, s, f.dt, f.input, f.obstacleRoll, f.starRoll);
      RunKeepsComboInRange(next.logic, next.state, frames[1..]);
    }
  }
}
