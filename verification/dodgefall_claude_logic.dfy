/** Game rules of the dodgefall-claude game (game/logic.py). One
    `update_game` step advances the clock, moves the player, runs the
    invulnerability and combo countdowns, spawns, lets objects fall,
    resolves collisions and raises the difficulty. `random.randint` and
    `random.uniform` draws are the fields of `Draws`; the key codes and the
    set of pressed keys are parameters; reading and writing
    `highscore.json` is not modelled. */
module DodgefallClaudeLogic {
  import opened Wrappers
  import opened DodgefallClaudeModel
  import SeqUtil

  const InvulnerabilityTime: real := 1.5
  const ComboDuration: real := 3.0
  const StarPoints: int := 10
  const DifficultyPeriod: real := 30.0

  /** The random draws of one step: obstacle x, next star interval, star x. */
  datatype Draws = Draws(obstacleX: int, starInterval: real, starX: int)

  predicate Valid(s: GameState) { s.combo >= 0 }

  /** `rectangles_overlap`: strict overlap on both axes. */
  function RectanglesOverlap(x1: real, y1: real, w1: real, h1: real,
                             x2: real, y2: real, w2: real, h2: real): (r: bool)
    ensures r <==> (x1 < x2 + w2 && x2 < x1 + w1) && (y1 < y2 + h2 && y2 < y1 + h1)
  {
    x1 < x2 + w2 && x1 + w1 > x2 && y1 < y2 + h2 && y1 + h1 > y2
  }

  lemma OverlapSymmetric(x1: real, y1: real, w1: real, h1: real, x2: real, y2: real, w2: real, h2: real)
    ensures RectanglesOverlap(x1, y1, w1, h1, x2, y2, w2, h2) == RectanglesOverlap(x2, y2, w2, h2, x1, y1, w1, h1)
  {
  }

  /** Rectangles sharing only an edge do not overlap. */
  lemma TouchingEdgesDoNotOverlap(x: real, y: real, w: real, h: real, w2: real, h2: real)
    ensures !RectanglesOverlap(x, y, w, h, x + w, y, w2, h2)
    ensures !RectanglesOverlap(x, y, w, h, x, y + h, w2, h2)
  {
  }

  predicate HitsObstacle(p: Player, o: Obstacle) {
    RectanglesOverlap(p.x, p.y, p.width as real, p.height as real, o.x, o.y, o.width as real, o.height as real)
  }

  predicate HitsStar(p: Player, st: Star) {
    RectanglesOverlap(p.x, p.y, p.width as real, p.height as real, st.x, st.y, st.width as real, st.height as real)
  }

  function MaxReal(a: real, b: real): real { if a >= b then a else b }
  function MinReal(a: real, b: real): real { if a <= b then a else b }
  function MaxInt(a: int, b: int): int { if a >= b then a else b }

  /** `move_player`: left (arrow or A) and right (arrow or D) move at the
      player's speed, then x is clamped into [0, screen_width − width]. */
  function MovePlayer(s: GameState, dt: real, keys: set<int>, keyLeft: int, keyRight: int, keyA: int, keyD: int): (r: GameState)
    ensures r == s.(player := s.player.(x := r.player.x))
    ensures 0.0 <= r.player.x
    ensures s.player.width <= s.screenWidth ==> r.player.x <= (s.screenWidth - s.player.width) as real
    ensures var step := s.player.speed * dt;
            var moved := s.player.x - (if keyLeft in keys || keyA in keys then step else 0.0)
                                    + (if keyRight in keys || keyD in keys then step else 0.0);
            var room := (s.screenWidth - s.player.width) as real;
            && (0.0 <= moved <= room ==> r.player.x == moved)
            && (moved < 0.0 ==> r.player.x == 0.0)
            && (moved > room ==> r.player.x == (if room < 0.0 then 0.0 else room))
  {
    var p := s.player;
    var afterLeft := if keyLeft in keys || keyA in keys then p.x - p.speed * dt else p.x;
    var afterRight := if keyRight in keys || keyD in keys then afterLeft + p.speed * dt else afterLeft;
    s.(player := p.(x := MaxReal(0.0, MinReal((s.screenWidth - p.width) as real, afterRight))))
  }

  /** The obstacle interval chosen at a spawn: 2 s shrinking by 1 s per
      minute of play, never below 0.5 s. */
  function SpawnInterval(gameTime: real): (r: real)
    ensures r >= 0.5 && r >= 2.0 - gameTime / 60.0
    ensures r == 0.5 || r == 2.0 - gameTime / 60.0
  {
    MaxReal(0.5, 2.0 - gameTime / 60.0)
  }

  /** `spawn_entities`: both timers count down; at or below zero an
      obstacle (at the current speed multiplier) or a star appears above the
      screen and the timer restarts. */
  function SpawnEntities(s: GameState, dt: real, d: Draws): (r: GameState)
    ensures var due := s.spawnTimer - dt <= 0.0;
            && (due ==> r.spawnTimer == SpawnInterval(s.gameTime)
                        && r.obstacles == s.obstacles + [NewObstacle(d.obstacleX as real, -30.0, ObstacleSpeed * s.obstacleSpeedMultiplier)])
            && (!due ==> r.spawnTimer == s.spawnTimer - dt && r.obstacles == s.obstacles)
    ensures var due := s.starSpawnTimer - dt <= 0.0;
            && (due ==> r.starSpawnTimer == d.starInterval && r.stars == s.stars + [NewStar(d.starX as real, -25.0)])
            && (!due ==> r.starSpawnTimer == s.starSpawnTimer - dt && r.stars == s.stars)
    ensures r == s.(spawnTimer := r.spawnTimer, obstacles := r.obstacles, starSpawnTimer := r.starSpawnTimer, stars := r.stars)
    ensures r.spawnTimer > 0.0
    ensures d.starInterval > 0.0 ==> r.starSpawnTimer > 0.0
  {
    var timer := s.spawnTimer - dt;
    var s1 :=
      if timer <= 0.0 then
        s.(spawnTimer := SpawnInterval(s.gameTime),
           obstacles := s.obstacles + [NewObstacle(d.obstacleX as real, -30.0, ObstacleSpeed * s.obstacleSpeedMultiplier)])
      else s.(spawnTimer := timer);
    var starTimer := s1.starSpawnTimer - dt;
    if starTimer <= 0.0 then
      s1.(starSpawnTimer := d.starInterval, stars := s1.stars + [NewStar(d.starX as real, -25.0)])
    else s1.(starSpawnTimer := starTimer)
  }

  function FallObstacle(o: Obstacle, dt: real): Obstacle { o.(y := o.y + o.speed * dt) }
  function FallStar(st: Star, dt: real): Star { st.(y := st.y + st.speed * dt) }

  /** An object stays while its top is not below the screen. */
  predicate ObstacleStays(h: real, o: Obstacle) { o.y <= h }
  predicate StarStays(h: real, st: Star) { st.y <= h }

  /** `update_obstacles` and `update_stars`: everything falls by its own
      speed and objects whose top is below the screen are removed, order
      kept (removing from the list while iterating a copy removes exactly
      the object at hand, so this is a filter). */
  function UpdateObstacles(s: GameState, dt: real): (r: GameState)
    ensures r == s.(obstacles := r.obstacles)
    ensures |r.obstacles| <= |s.obstacles|
    ensures forall i :: 0 <= i < |r.obstacles| ==> r.obstacles[i].y <= s.screenHeight as real
    ensures forall i :: 0 <= i < |s.obstacles| && FallObstacle(s.obstacles[i], dt).y <= s.screenHeight as real
              ==> FallObstacle(s.obstacles[i], dt) in r.obstacles
    ensures r.obstacles == SeqUtil.Filter((o: Obstacle) => ObstacleStays(s.screenHeight as real, o),
                                          SeqUtil.Map((o: Obstacle) => FallObstacle(o, dt), s.obstacles))
  {
    s.(obstacles := SeqUtil.Filter((o: Obstacle) => ObstacleStays(s.screenHeight as real, o),
                                   SeqUtil.Map((o: Obstacle) => FallObstacle(o, dt), s.obstacles)))
  }

  /** The survivors keep their order: an obstacle added at the end falls
      and, if still on screen, survives after all earlier survivors. */
  lemma UpdateObstaclesAppend(s: GameState, dt: real, o: Obstacle)
    ensures var fell := FallObstacle(o, dt);
            UpdateObstacles(s.(obstacles := s.obstacles + [o]), dt).obstacles
            == UpdateObstacles(s, dt).obstacles + (if fell.y <= s.screenHeight as real then [fell] else [])
  {
    SeqUtil.FilterMapAppend((x: Obstacle) => ObstacleStays(s.screenHeight as real, x),
                            (x: Obstacle) => FallObstacle(x, dt), s.obstacles, o);
  }

  function UpdateStars(s: GameState, dt: real): (r: GameState)
    ensures r == s.(stars := r.stars)
    ensures |r.stars| <= |s.stars|
    ensures forall i :: 0 <= i < |r.stars| ==> r.stars[i].y <= s.screenHeight as real
    ensures forall i :: 0 <= i < |s.stars| && FallStar(s.stars[i], dt).y <= s.screenHeight as real
              ==> FallStar(s.stars[i], dt) in r.stars
    ensures r.stars == SeqUtil.Filter((st: Star) => StarStays(s.screenHeight as real, st),
                                      SeqUtil.Map((st: Star) => FallStar(st, dt), s.stars))
  {
    s.(stars := SeqUtil.Filter((st: Star) => StarStays(s.screenHeight as real, st),
                               SeqUtil.Map((st: Star) => FallStar(st, dt), s.stars)))
  }

  /** A star added at the end survives, if still on screen, after all
      earlier survivors. */
  lemma UpdateStarsAppend(s: GameState, dt: real, st: Star)
    ensures var fell := FallStar(st, dt);
            UpdateStars(s.(stars := s.stars + [st]), dt).stars
            == UpdateStars(s, dt).stars + (if fell.y <= s.screenHeight as real then [fell] else [])
  {
    SeqUtil.FilterMapAppend((x: Star) => StarStays(s.screenHeight as real, x),
                            (x: Star) => FallStar(x, dt), s.stars, st);
  }

  /** `update_high_score`: raised to the score when beaten, never lowered. */
  function UpdateHighScore(s: GameState): (r: GameState)
    ensures r == s.(highScore := r.highScore)
    ensures r.highScore >= s.highScore && r.highScore >= s.score
    ensures r.highScore == s.highScore || r.highScore == s.score
  {
    if s.score > s.highScore then s.(highScore := s.score) else s
  }

  /** A hit by obstacle `k`: one life lost, 1.5 s of invulnerability, the
      obstacle removed; losing the last life ends the game and updates the
      high score. */
  function HitBy(s: GameState, k: nat): (r: GameState)
    requires k < |s.obstacles|
    ensures r.lives == s.lives - 1 && r.obstacles == SeqUtil.RemoveAt(s.obstacles, k)
    ensures r.player == s.player.(invulnerableTime := InvulnerabilityTime)
    ensures r.gameOver <==> s.gameOver || s.lives - 1 <= 0
    ensures s.lives - 1 <= 0 ==> r.highScore >= r.score
    ensures r == s.(lives := r.lives, obstacles := r.obstacles, player := r.player, gameOver := r.gameOver,
                    highScore := r.highScore)
    ensures r.highScore == s.highScore || (s.lives - 1 <= 0 && r.highScore == s.score)
    ensures r.highScore >= s.highScore
  {
    var hit := s.(lives := s.lives - 1, obstacles := SeqUtil.RemoveAt(s.obstacles, k),
                  player := s.player.(invulnerableTime := InvulnerabilityTime));
    if hit.lives <= 0 then UpdateHighScore(hit.(gameOver := true)) else hit
  }

  /** The obstacle part of `check_collisions`: only when not invulnerable,
      the first overlapping obstacle hits the player (`HitBy`); otherwise
      nothing changes. */
  function HitObstacle(s: GameState): (r: GameState)
    ensures s.player.invulnerableTime > 0.0 ==> r == s
    ensures (forall j :: 0 <= j < |s.obstacles| ==> !HitsObstacle(s.player, s.obstacles[j])) ==> r == s
    ensures s.player.invulnerableTime <= 0.0 && (exists j :: 0 <= j < |s.obstacles| && HitsObstacle(s.player, s.obstacles[j])) ==>
              exists k :: 0 <= k < |s.obstacles|
                && HitsObstacle(s.player, s.obstacles[k])
                && (forall j :: 0 <= j < k ==> !HitsObstacle(s.player, s.obstacles[j]))
                && r == HitBy(s, k)
    ensures r.lives >= s.lives - 1 && r.score == s.score && r.highScore >= s.highScore
    ensures r.stars == s.stars && r.combo == s.combo && r.comboTimer == s.comboTimer
    ensures r.gameOver && !s.gameOver ==> r.highScore >= r.score
    ensures r.player.x == s.player.x && r.player.y == s.player.y
    ensures r.player.width == s.player.width && r.player.height == s.player.height
  {
    if s.player.invulnerableTime > 0.0 then s
    else
      match SeqUtil.FirstIndex((o: Obstacle) => HitsObstacle(s.player, o), s.obstacles)
      case None => s
      case Some(k) => HitBy(s, k)
  }

  /** A vulnerable player touching any obstacle loses exactly one life and
      that obstacle's place in the list, and becomes invulnerable. */
  lemma HitCostsALife(s: GameState, j: nat)
    requires s.player.invulnerableTime <= 0.0 && j < |s.obstacles| && HitsObstacle(s.player, s.obstacles[j])
    ensures var r := HitObstacle(s);
            && r.lives == s.lives - 1 && |r.obstacles| == |s.obstacles| - 1
            && r.player.invulnerableTime == InvulnerabilityTime
            && (r.gameOver <==> s.gameOver || s.lives <= 1)
  {
  }

  /** The stars the player does not touch, in order. */
  function Misses(p: Player, stars: seq<Star>): (r: seq<Star>)
    ensures |r| + CountHits(p, stars) == |stars|
    ensures forall i :: 0 <= i < |r| ==> r[i] in stars && !HitsStar(p, r[i])
    ensures forall i :: 0 <= i < |stars| && !HitsStar(p, stars[i]) ==> stars[i] in r
  {
    if |stars| == 0 then []
    else if HitsStar(p, stars[0]) then Misses(p, stars[1..])
    else [stars[0]] + Misses(p, stars[1..])
  }

  /** How many stars the player touches. */
  function CountHits(p: Player, stars: seq<Star>): nat
  {
    if |stars| == 0 then 0 else (if HitsStar(p, stars[0]) then 1 else 0) + CountHits(p, stars[1..])
  }

  /** 1 + 2 + … + n. */
  function Triangle(n: nat): nat
  {
    if n == 0 then 0 else n + Triangle(n - 1)
  }

  /** The combo, combo timer and score after the star loop; the stars it
      leaves are `Misses`. */
  datatype Sweep = Sweep(combo: int, comboTimer: real, score: int)

  /** The star part of `check_collisions`: every touched star is collected.
      Each one continues the combo if its timer is running (otherwise
      starts it at 1), restarts the timer at 3 s and scores 10 × combo. */
  function SweepStars(p: Player, stars: seq<Star>, combo: int, comboTimer: real, score: int): (r: Sweep)
    requires combo >= 0
    ensures CountHits(p, stars) == 0 ==> r.combo == combo && r.comboTimer == comboTimer && r.score == score
    ensures CountHits(p, stars) > 0 ==>
              r.comboTimer == ComboDuration && r.combo == (if comboTimer > 0.0 then combo else 0) + CountHits(p, stars)
    ensures r.combo >= 0 && r.score >= score
    decreases |stars|
  {
    if |stars| == 0 then Sweep(combo, comboTimer, score)
    else if HitsStar(p, stars[0]) then
      var c := if comboTimer > 0.0 then combo + 1 else 1;
      SweepStars(p, stars[1..], c, ComboDuration, score + StarPoints * MaxInt(1, c))
    else
      SweepStars(p, stars[1..], combo, comboTimer, score)
  }

  /** Points for n stars collected in one sweep on top of a running combo
      `base`: the first scores 10 × (base + 1), the rest score on top of a
      combo one higher. */
  function StarScore(n: nat, base: int): int
  {
    if n == 0 then 0 else StarPoints * (base + 1) + StarScore(n - 1, base + 1)
  }

  /** In closed form, n stars on top of combo `base` score
      10 × (n × base + 1 + 2 + … + n). */
  lemma {:induction false} StarScoreClosedForm(n: nat, base: int)
    ensures StarScore(n, base) == StarPoints * (n * base + Triangle(n))
  {
    if n > 0 {
      StarScoreClosedForm(n - 1, base + 1);
      assert (n - 1) * (base + 1) == n * base - base + n - 1;
    }
  }

  /** A sweep that collects its first star continues from the next star
      with the combo one higher, the timer reloaded and that star's points added. */
  lemma SweepHitUnfolds(p: Player, stars: seq<Star>, combo: int, comboTimer: real, score: int)
    requires combo >= 0 && |stars| > 0 && HitsStar(p, stars[0])
    ensures var c := (if comboTimer > 0.0 then combo else 0) + 1;
            SweepStars(p, stars, combo, comboTimer, score).score
            == SweepStars(p, stars[1..], c, ComboDuration, score + StarPoints * c).score
  {
    var c := if comboTimer > 0.0 then combo + 1 else 1;
    assert MaxInt(1, c) == c;
    assert SweepStars(p, stars, combo, comboTimer, score)
           == SweepStars(p, stars[1..], c, ComboDuration, score + StarPoints * MaxInt(1, c));
  }

  /** A sweep that misses its first star scores as the sweep of the rest. */
  lemma SweepMissUnfolds(p: Player, stars: seq<Star>, combo: int, comboTimer: real, score: int)
    requires combo >= 0 && |stars| > 0 && !HitsStar(p, stars[0])
    ensures SweepStars(p, stars, combo, comboTimer, score).score
            == SweepStars(p, stars[1..], combo, comboTimer, score).score
    ensures CountHits(p, stars) == CountHits(p, stars[1..])
  {
  }

  /** n collected stars score `StarScore(n, c)`, where c is the running
      combo, or 0 when its timer had run out. */
  lemma {:induction false} SweepStarsScore(p: Player, stars: seq<Star>, combo: int, comboTimer: real, score: int)
    requires combo >= 0
    ensures SweepStars(p, stars, combo, comboTimer, score).score
            == score + StarScore(CountHits(p, stars), if comboTimer > 0.0 then combo else 0)
    decreases |stars|
  {
    if |stars| > 0 {
      var base := if comboTimer > 0.0 then combo else 0;
      if HitsStar(p, stars[0]) {
        var c := base + 1;
        SweepHitUnfolds(p, stars, combo, comboTimer, score);
        assert CountHits(p, stars) == CountHits(p, stars[1..]) + 1;
        SweepStarsScore(p, stars[1..], c, ComboDuration, score + StarPoints * c);
      } else {
        SweepMissUnfolds(p, stars, combo, comboTimer, score);
        SweepStarsScore(p, stars[1..], combo, comboTimer, score);
      }
    } else {
      assert CountHits(p, stars) == 0;
    }
  }

  function CollectStars(s: GameState): (r: GameState)
    requires Valid(s)
    ensures r == s.(stars := r.stars, combo := r.combo, comboTimer := r.comboTimer, score := r.score)
    ensures r.stars == Misses(s.player, s.stars) && Valid(r) && r.score >= s.score
  {
    var sw := SweepStars(s.player, s.stars, s.combo, s.comboTimer, s.score);
    s.(stars := Misses(s.player, s.stars), combo := sw.combo, comboTimer := sw.comboTimer, score := sw.score)
  }

  /** `check_collisions` as written: the high score is updated when the
      last life is lost, before the stars of the same call are scored. */
  function CheckCollisionsAsWritten(s: GameState): (r: GameState)
    requires Valid(s)
    ensures r == CollectStars(HitObstacle(s))
    ensures r.lives >= s.lives - 1 && r.score >= s.score && r.highScore >= s.highScore && Valid(r)
  {
    CollectStars(HitObstacle(s))
  }

  /** A player on its last life touching an obstacle and a star at once:
      the game ends with a final score of 10 and a high score of 0. */
  lemma AsWrittenHighScoreMissesLastStar()
    ensures var p := NewPlayer(0.0, 0.0);
            var s := Create(p, 800, 600, 0).(lives := 1, obstacles := [NewObstacle(0.0, 0.0, ObstacleSpeed)],
                                             stars := [NewStar(0.0, 0.0)]);
            var r := CheckCollisionsAsWritten(s);
            r.gameOver && r.score == 10 && r.highScore == 0
  {
    var p := NewPlayer(0.0, 0.0);
    var s := Create(p, 800, 600, 0).(lives := 1, obstacles := [NewObstacle(0.0, 0.0, ObstacleSpeed)],
                                     stars := [NewStar(0.0, 0.0)]);
    assert HitsObstacle(s.player, s.obstacles[0]);
    var h := HitObstacle(s);
    assert h.gameOver && h.highScore == 0 && h.score == 0;
    assert HitsStar(h.player, h.stars[0]);
    assert CountHits(h.player, h.stars) == 1;
  }

  /** `check_collisions` with the high score also updated after the stars
      when the game has ended, so a finished game's high score is never
      below its final score. */
  function CheckCollisions(s: GameState): (r: GameState)
    requires Valid(s)
    ensures r.gameOver == CheckCollisionsAsWritten(s).gameOver
    ensures r == CheckCollisionsAsWritten(s).(highScore := r.highScore)
    ensures r.gameOver ==> r.highScore >= r.score
    ensures r.lives >= s.lives - 1 && r.score >= s.score && r.highScore >= s.highScore && Valid(r)
  {
    var w := CheckCollisionsAsWritten(s);
    if w.gameOver then UpdateHighScore(w) else w
  }

  /** The clock, player and countdown part of `update_game`. */
  function Tick(s: GameState, dt: real, keys: set<int>, keyLeft: int, keyRight: int, keyA: int, keyD: int): (r: GameState)
    ensures r.gameTime == s.gameTime + dt && r.lives == s.lives && r.score == s.score
    ensures r.highScore == s.highScore && r.gameOver == s.gameOver && r.paused == s.paused
    ensures r.player.invulnerableTime == (if s.player.invulnerableTime > 0.0 then s.player.invulnerableTime - dt else s.player.invulnerableTime)
    ensures s.comboTimer > 0.0 ==> r.comboTimer == s.comboTimer - dt
    ensures s.comboTimer > 0.0 && r.comboTimer <= 0.0 ==> r.combo == 0
    ensures !(s.comboTimer > 0.0 && r.comboTimer <= 0.0) ==> r.combo == s.combo
    ensures s.comboTimer <= 0.0 ==> r.comboTimer == s.comboTimer
    ensures r.player == s.player.(x := MovePlayer(s, dt, keys, keyLeft, keyRight, keyA, keyD).player.x,
                                  invulnerableTime := r.player.invulnerableTime)
    ensures r == s.(gameTime := r.gameTime, player := r.player, comboTimer := r.comboTimer, combo := r.combo)
    ensures Valid(s) ==> Valid(r)
  {
    // the move reads no clock, so advancing the clock after it is the same
    var s1 := MovePlayer(s, dt, keys, keyLeft, keyRight, keyA, keyD).(gameTime := s.gameTime + dt);
    var p := s1.player;
    var s2 := if p.invulnerableTime > 0.0 then s1.(player := p.(invulnerableTime := p.invulnerableTime - dt)) else s1;
    if s2.comboTimer > 0.0 then
      var t := s2.comboTimer - dt;
      if t <= 0.0 then s2.(comboTimer := t, combo := 0) else s2.(comboTimer := t)
    else s2
  }

  /** The spawning and falling part of `update_game`. */
  function SpawnAndFall(s: GameState, dt: real, d: Draws): (r: GameState)
    ensures r.player == s.player && r.lives == s.lives && r.score == s.score && r.highScore == s.highScore
    ensures r.gameOver == s.gameOver && r.paused == s.paused && r.gameTime == s.gameTime
    ensures r.combo == s.combo && r.comboTimer == s.comboTimer
    ensures r == UpdateStars(UpdateObstacles(SpawnEntities(s, dt, d), dt), dt)
  {
    UpdateStars(UpdateObstacles(SpawnEntities(s, dt, d), dt), dt)
  }

  /** `update_game`: nothing while paused or over; otherwise one full step,
      after which the speed multiplier is 1 + game_time / 30. */
  function UpdateGame(s: GameState, dt: real, keys: set<int>, keyLeft: int, keyRight: int, keyA: int, keyD: int,
                      d: Draws): (r: GameState)
    requires Valid(s)
    ensures s.paused || s.gameOver ==> r == s
    ensures !s.paused && !s.gameOver ==>
              && r.gameTime == s.gameTime + dt
              && r.obstacleSpeedMultiplier == 1.0 + r.gameTime / DifficultyPeriod
              && r.lives >= s.lives - 1
              && !r.paused
    ensures !s.paused && !s.gameOver ==>
              r == CheckCollisionsAsWritten(SpawnAndFall(Tick(s, dt, keys, keyLeft, keyRight, keyA, keyD), dt, d))
                     .(obstacleSpeedMultiplier := r.obstacleSpeedMultiplier)
    ensures Valid(r) && r.score >= s.score && r.highScore >= s.highScore
  {
    if s.paused || s.gameOver then s
    else
      var s1 := SpawnAndFall(Tick(s, dt, keys, keyLeft, keyRight, keyA, keyD), dt, d);
      var s2 := CheckCollisionsAsWritten(s1);
      s2.(obstacleSpeedMultiplier := 1.0 + s2.gameTime / DifficultyPeriod)
  }

  /** `update_game` with the corrected collision step: a game that ends in
      this step has a high score at least its final score, and otherwise
      the step is the one written. */
  function UpdateGameCorrected(s: GameState, dt: real, keys: set<int>, keyLeft: int, keyRight: int, keyA: int, keyD: int,
                               d: Draws): (r: GameState)
    requires Valid(s)
    ensures r == UpdateGame(s, dt, keys, keyLeft, keyRight, keyA, keyD, d).(highScore := r.highScore)
    ensures r.gameOver && !s.gameOver ==> r.highScore >= r.score
    ensures Valid(r) && r.score >= s.score && r.highScore >= s.highScore
  {
    if s.paused || s.gameOver then s
    else
      var s1 := SpawnAndFall(Tick(s, dt, keys, keyLeft, keyRight, keyA, keyD), dt, d);
      var s2 := CheckCollisions(s1);
      s2.(obstacleSpeedMultiplier := 1.0 + s2.gameTime / DifficultyPeriod)
  }

  /** `toggle_pause`: flips the flag unless the game is over. */
  function TogglePause(s: GameState): (r: GameState)
    ensures s.gameOver ==> r == s
    ensures !s.gameOver ==> r == s.(paused := !s.paused)
  {
    if s.gameOver then s else s.(paused := !s.paused)
  }

  /** `restart_game`: resets only a finished game. */
  function RestartGame(s: GameState): (r: GameState)
    ensures !s.gameOver ==> r == s
    ensures s.gameOver ==> Fresh(r) && r.highScore == s.highScore
    ensures s.gameOver ==> r.screenWidth == s.screenWidth && r.screenHeight == s.screenHeight
    ensures s.gameOver ==> r == Reset(s)
  {
    if s.gameOver then Reset(s) else s
  }
}
