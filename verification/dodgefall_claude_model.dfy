/** Data model of the dodgefall-claude game (game/model.py): dataclasses
    with defaults for the player, obstacles, stars and the game state. */
module DodgefallClaudeModel {
  const PlayerSize: int := 40
  const PlayerSpeed: real := 400.0
  const ObstacleSize: int := 30
  const ObstacleSpeed: real := 200.0
  const StarSize: int := 25
  const StarSpeed: real := 150.0
  const StartLives: int := 3
  const DefaultScreenWidth: int := 800
  const DefaultScreenHeight: int := 600

  datatype Player = Player(x: real, y: real, width: int, height: int, speed: real, invulnerableTime: real)

  datatype Obstacle = Obstacle(x: real, y: real, width: int, height: int, speed: real)

  datatype Star = Star(x: real, y: real, width: int, height: int, speed: real)

  /** `Player(x=…, y=…)` with the dataclass defaults. */
  function NewPlayer(x: real, y: real): (p: Player)
    ensures p.x == x && p.y == y && p.width == PlayerSize && p.height == PlayerSize
    ensures p.speed == PlayerSpeed && p.invulnerableTime == 0.0
  {
    Player(x, y, PlayerSize, PlayerSize, PlayerSpeed, 0.0)
  }

  /** `Obstacle(x=…, y=…, speed=…)`. */
  function NewObstacle(x: real, y: real, speed: real): (o: Obstacle)
    ensures o.x == x && o.y == y && o.speed == speed && o.width == ObstacleSize && o.height == ObstacleSize
  {
    Obstacle(x, y, ObstacleSize, ObstacleSize, speed)
  }

  /** `Star(x=…, y=…)`. */
  function NewStar(x: real, y: real): (s: Star)
    ensures s.x == x && s.y == y && s.speed == StarSpeed && s.width == StarSize && s.height == StarSize
  {
    Star(x, y, StarSize, StarSize, StarSpeed)
  }

  datatype GameState = GameState(player: Player, obstacles: seq<Obstacle>, stars: seq<Star>,
                                 score: int, lives: int, combo: int, comboTimer: real,
                                 gameOver: bool, paused: bool, obstacleSpeedMultiplier: real,
                                 spawnTimer: real, starSpawnTimer: real, gameTime: real,
                                 highScore: int, screenWidth: int, screenHeight: int)

  /** Everything `reset` restores: the player centred 60 px above the bottom,
      no objects, score 0, three lives, no combo, running, base difficulty. */
  predicate Fresh(s: GameState) {
    && s.player == NewPlayer(s.screenWidth as real / 2.0, (s.screenHeight - 60) as real)
    && s.obstacles == [] && s.stars == [] && s.score == 0 && s.lives == StartLives
    && s.combo == 0 && s.comboTimer == 0.0 && !s.gameOver && !s.paused
    && s.obstacleSpeedMultiplier == 1.0 && s.spawnTimer == 0.0 && s.starSpawnTimer == 0.0 && s.gameTime == 0.0
  }

  /** `GameState(player=…, screen_width=…, screen_height=…, high_score=…)`
      with every other field at its default: no objects, score 0, three
      lives, no combo, running, base difficulty, both timers and the clock at 0. */
  function Create(player: Player, screenWidth: int, screenHeight: int, highScore: int): (s: GameState)
    ensures s.player == player && s.highScore == highScore
    ensures s.screenWidth == screenWidth && s.screenHeight == screenHeight
    ensures s.obstacles == [] && s.stars == [] && s.score == 0 && s.lives == StartLives
    ensures s.combo == 0 && s.comboTimer == 0.0 && !s.gameOver && !s.paused
    ensures s.obstacleSpeedMultiplier == 1.0 && s.spawnTimer == 0.0 && s.starSpawnTimer == 0.0 && s.gameTime == 0.0
    ensures player == NewPlayer(screenWidth as real / 2.0, (screenHeight - 60) as real) <==> Fresh(s)
  {
    GameState(player, [], [], 0, StartLives, 0, 0.0, false, false, 1.0, 0.0, 0.0, 0.0,
              highScore, screenWidth, screenHeight)
  }

  /** `GameState(player=…)`: the 800 × 600 screen and a high score of 0. */
  function CreateDefault(player: Player): (s: GameState)
    ensures s == Create(player, DefaultScreenWidth, DefaultScreenHeight, 0)
    ensures s.screenWidth == 800 && s.screenHeight == 600 && s.highScore == 0
  {
    Create(player, DefaultScreenWidth, DefaultScreenHeight, 0)
  }

  /** The default player of a fresh default game stands at (400, 540). */
  lemma DefaultFreshPlayer()
    ensures Fresh(CreateDefault(NewPlayer(400.0, 540.0)))
  {
  }

  /** `reset`: a fresh game; the high score and screen size are kept. */
  function Reset(s: GameState): (r: GameState)
    ensures Fresh(r)
    ensures r.highScore == s.highScore && r.screenWidth == s.screenWidth && r.screenHeight == s.screenHeight
  {
    Create(NewPlayer(s.screenWidth as real / 2.0, (s.screenHeight - 60) as real),
           s.screenWidth, s.screenHeight, s.highScore)
  }
}
