/** Data model of the dodgefall-copilot game (game/model.py): axis-aligned
    game objects, the player with lives and invulnerability, falling
    obstacles and stars, and the whole game state. Reading and writing
    `highscore.json` is not modelled: the loaded high score is a parameter. */
module DodgefallCopilotModel {
  const PlayerSize: real := 40.0
  const PlayerLives: int := 3
  const ObstacleSize: real := 30.0
  const DefaultObstacleSpeed: real := 200.0
  const StarSize: real := 20.0

  /** The rectangle every game object carries. */
  datatype Box = Box(x: real, y: real, width: real, height: real)

  /** `collides_with`: strict overlap on both axes. */
  function CollidesWith(a: Box, b: Box): (r: bool)
    ensures r <==> (a.x < b.x + b.width && b.x < a.x + a.width) && (a.y < b.y + b.height && b.y < a.y + a.height)
  {
    a.x < b.x + b.width && a.x + a.width > b.x && a.y < b.y + b.height && a.y + a.height > b.y
  }

  lemma CollidesSymmetric(a: Box, b: Box)
    ensures CollidesWith(a, b) == CollidesWith(b, a)
  {
  }

  /** Boxes that share only an edge do not collide. */
  lemma TouchingEdgesDoNotCollide(a: Box, w: real, h: real)
    ensures !CollidesWith(a, Box(a.x + a.width, a.y, w, h))
    ensures !CollidesWith(a, Box(a.x, a.y + a.height, w, h))
  {
  }

  datatype Player = Player(x: real, y: real, width: real, height: real, lives: int, invulnerableTime: real)

  datatype Obstacle = Obstacle(x: real, y: real, width: real, height: real, speed: real)

  datatype Star = Star(x: real, y: real, width: real, height: real, spawnTime: real)

  function PlayerBox(p: Player): Box { Box(p.x, p.y, p.width, p.height) }
  function ObstacleBox(o: Obstacle): Box { Box(o.x, o.y, o.width, o.height) }
  function StarBox(s: Star): Box { Box(s.x, s.y, s.width, s.height) }

  /** `Player(x, y)`: 40×40, three lives, not invulnerable. */
  function NewPlayer(x: real, y: real): (p: Player)
    ensures p.x == x && p.y == y && p.width == PlayerSize && p.height == PlayerSize
    ensures p.lives == PlayerLives && !IsInvulnerable(p)
  {
    Player(x, y, PlayerSize, PlayerSize, PlayerLives, 0.0)
  }

  /** `is_invulnerable`. */
  predicate IsInvulnerable(p: Player) { p.invulnerableTime > 0.0 }

  /** `Obstacle(x, y, speed)`: 30×30. */
  function NewObstacle(x: real, y: real, speed: real): (o: Obstacle)
    ensures o.x == x && o.y == y && o.speed == speed && o.width == ObstacleSize && o.height == ObstacleSize
  {
    Obstacle(x, y, ObstacleSize, ObstacleSize, speed)
  }

  /** `Star(x, y, spawn_time)`: 20×20. */
  function NewStar(x: real, y: real, spawnTime: real): (s: Star)
    ensures s.x == x && s.y == y && s.spawnTime == spawnTime && s.width == StarSize && s.height == StarSize
  {
    Star(x, y, StarSize, StarSize, spawnTime)
  }

  datatype GameState = GameState(screenWidth: int, screenHeight: int, player: Player,
                                 obstacles: seq<Obstacle>, stars: seq<Star>, score: int, highScore: int,
                                 comboMultiplier: int, lastStarTime: real, gameTime: real,
                                 paused: bool, gameOver: bool)

  /** The player's starting place: horizontally centred (integer halving),
      60 px above the bottom. */
  function StartPlayer(screenWidth: int, screenHeight: int): (p: Player)
    ensures p == NewPlayer((screenWidth / 2 - 20) as real, (screenHeight - 60) as real)
    ensures screenWidth >= 0 ==> 2.0 * (p.x + p.width / 2.0) in {screenWidth as real, screenWidth as real - 1.0}
  {
    NewPlayer((screenWidth / 2 - 20) as real, (screenHeight - 60) as real)
  }

  /** A state with everything of a fresh game: the player at the start,
      no objects, score 0, combo 1, both clocks 0, running. */
  predicate Fresh(s: GameState) {
    && s.player == StartPlayer(s.screenWidth, s.screenHeight)
    && s.obstacles == [] && s.stars == [] && s.score == 0 && s.comboMultiplier == 1
    && s.lastStarTime == 0.0 && s.gameTime == 0.0 && !s.paused && !s.gameOver
  }

  /** `GameState.__init__`, with the high score read from the file given. */
  function Create(screenWidth: int, screenHeight: int, storedHighScore: int): (s: GameState)
    ensures Fresh(s) && s.highScore == storedHighScore
    ensures s.screenWidth == screenWidth && s.screenHeight == screenHeight
  {
    GameState(screenWidth, screenHeight, StartPlayer(screenWidth, screenHeight), [], [], 0,
              storedHighScore, 1, 0.0, 0.0, false, false)
  }

  /** `reset`: a fresh game that keeps the high score and screen size. */
  function Reset(s: GameState): (r: GameState)
    ensures Fresh(r)
    ensures r.highScore == s.highScore && r.screenWidth == s.screenWidth && r.screenHeight == s.screenHeight
  {
    Create(s.screenWidth, s.screenHeight, s.highScore)
  }

  /** Resetting twice is the same as resetting once. */
  lemma ResetIdempotent(s: GameState)
    ensures Reset(Reset(s)) == Reset(s)
  {
  }
}
