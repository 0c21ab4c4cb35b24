/** Physics of the neon-copilot runner (src/physics.js). Boxes are
    top-left anchored (the box spans y .. y + height). Options are merged
    with `||`, so an option given as 0 falls back to its default. */
module NeonCopilotPhysics {
  import opened Wrappers

  const DefaultGravity: real := 0.8
  const DefaultJumpForce: real := -15.0
  const DefaultGroundY: real := 300.0
  const DefaultCoyoteTimeMs: int := 80

  datatype Config = Config(gravity: real, jumpForce: real, groundY: real, coyoteTimeMs: int)

  /** `option || fallback` for a numeric option: absent or 0 falls back. */
  function OrReal(option: Option<real>, fallback: real): (r: real)
    ensures option.Some? && option.value != 0.0 ==> r == option.value
    ensures option.None? || option.value == 0.0 ==> r == fallback
  {
    if option.Some? && option.value != 0.0 then option.value else fallback
  }

  function OrInt(option: Option<int>, fallback: int): (r: int)
    ensures option.Some? && option.value != 0 ==> r == option.value
    ensures option.None? || option.value == 0 ==> r == fallback
  {
    if option.Some? && option.value != 0 then option.value else fallback
  }

  /** The constructor's option handling. */
  function MakeConfig(gravity: Option<real>, jumpForce: Option<real>, groundY: Option<real>,
                      coyoteTimeMs: Option<int>): (c: Config)
    ensures c.gravity != 0.0 && c.jumpForce != 0.0 && c.groundY != 0.0 && c.coyoteTimeMs != 0
    ensures gravity == Some(0.0) ==> c.gravity == DefaultGravity
    ensures coyoteTimeMs == Some(0) ==> c.coyoteTimeMs == DefaultCoyoteTimeMs
    ensures c.gravity == OrReal(gravity, DefaultGravity) && c.jumpForce == OrReal(jumpForce, DefaultJumpForce)
    ensures c.groundY == OrReal(groundY, DefaultGroundY) && c.coyoteTimeMs == OrInt(coyoteTimeMs, DefaultCoyoteTimeMs)
  {
    Config(OrReal(gravity, DefaultGravity), OrReal(jumpForce, DefaultJumpForce),
           OrReal(groundY, DefaultGroundY), OrInt(coyoteTimeMs, DefaultCoyoteTimeMs))
  }

  function DefaultConfig(): Config { MakeConfig(None, None, None, None) }

  datatype Player = Player(x: real, y: real, velocityY: real, width: real, height: real,
                           onGround: bool, lastGroundTime: int)

  datatype Obstacle = Obstacle(x: real, y: real, width: real, height: real, velocityX: real)

  /** `createPlayer(x = 50, y = null)`: a missing y puts the player on the ground. */
  function CreatePlayer(c: Config, x: Option<real>, y: Option<real>, now: int): (p: Player)
    ensures p.x == x.GetOr(50.0) && p.y == y.GetOr(c.groundY)
    ensures p.velocityY == 0.0 && p.onGround && p.width == 30.0 && p.height == 30.0
    ensures p.lastGroundTime == now
  {
    Player(x.GetOr(50.0), y.GetOr(c.groundY), 0.0, 30.0, 30.0, true, now)
  }

  /** `createObstacle(x, width = 20, height = 40)`: it stands on the ground
      line (its bottom edge is at groundY). */
  function CreateObstacle(c: Config, x: real, width: Option<real>, height: Option<real>): (o: Obstacle)
    ensures o.x == x && o.width == width.GetOr(20.0) && o.height == height.GetOr(40.0)
    ensures o.y + o.height == c.groundY
  {
    var h := height.GetOr(40.0);
    Obstacle(x, c.groundY - h, width.GetOr(20.0), h, -5.0)
  }

  /** `updatePlayer`: gravity applies while airborne or rising; the ground
      clamps; leaving the ground stamps the coyote clock. */
  function UpdatePlayer(c: Config, p: Player, now: int): (r: Player)
    ensures var vy := if !p.onGround || p.velocityY < 0.0 then p.velocityY + c.gravity else p.velocityY;
            && (p.y + vy >= c.groundY <==> r.onGround)
            && (!r.onGround ==> r.y == p.y + vy && r.velocityY == vy)
    ensures r.onGround <==> r.y == c.groundY
    ensures r.onGround ==> r.velocityY == 0.0 && r.lastGroundTime == now
    ensures !r.onGround && p.onGround ==> r.lastGroundTime == now
    ensures !r.onGround && !p.onGround ==> r.lastGroundTime == p.lastGroundTime
    ensures r.y <= c.groundY
    ensures r.x == p.x && r.width == p.width && r.height == p.height
  {
    var wasOnGround := p.onGround;
    var vy := if !p.onGround || p.velocityY < 0.0 then p.velocityY + c.gravity else p.velocityY;
    var y := p.y + vy;
    var p1 := if y >= c.groundY then p.(y := c.groundY, velocityY := 0.0, onGround := true, lastGroundTime := now)
              else p.(y := y, velocityY := vy, onGround := false);
    if wasOnGround && !p1.onGround then p1.(lastGroundTime := now) else p1
  }

  /** A player standing on the ground stays there; only the clock is refreshed. */
  lemma AtRestStaysAtRest(c: Config, p: Player, now: int)
    requires p.onGround && p.y == c.groundY && p.velocityY == 0.0
    ensures UpdatePlayer(c, p, now) == p.(lastGroundTime := now)
  {
  }

  /** `updateObstacle`: moves left by `speed`. */
  function UpdateObstacle(o: Obstacle, speed: real): (r: Obstacle)
    ensures r.x + speed == o.x && r == o.(x := r.x)
  {
    o.(x := o.x - speed)
  }

  /** `canJump`: on the ground or within the inclusive coyote window. */
  function CanJump(c: Config, p: Player, now: int): (r: bool)
    ensures p.onGround ==> r
    ensures !p.onGround ==> (r <==> now <= p.lastGroundTime + c.coyoteTimeMs)
  {
    p.onGround || now - p.lastGroundTime <= c.coyoteTimeMs
  }

  datatype JumpResult = JumpResult(jumped: bool, player: Player)

  /** `jump`: no held-jump guard, so a second jump inside the window succeeds too. */
  function Jump(c: Config, p: Player, now: int): (r: JumpResult)
    ensures r.jumped == CanJump(c, p, now)
    ensures r.jumped ==> r.player == p.(velocityY := c.jumpForce, onGround := false)
    ensures !r.jumped ==> r.player == p
  {
    if CanJump(c, p, now) then JumpResult(true, p.(velocityY := c.jumpForce, onGround := false))
    else JumpResult(false, p)
  }

  /** Unlike the claude version, a jump repeated inside the coyote window
      succeeds again: there is no double-jump guard. */
  lemma RepeatedJumpAllowed(c: Config, p: Player, now: int)
    requires now - p.lastGroundTime <= c.coyoteTimeMs
    ensures Jump(c, Jump(c, p, now).player, now).jumped
  {
  }

  /** The coyote boundary: exactly `coyoteTimeMs` after leaving the ground
      still jumps; one millisecond later does not. */
  lemma CoyoteBoundary(c: Config, p: Player)
    requires !p.onGround
    ensures Jump(c, p, p.lastGroundTime + c.coyoteTimeMs).jumped
    ensures !Jump(c, p, p.lastGroundTime + c.coyoteTimeMs + 1).jumped
  {
  }

  /** What `checkCollision` reads of either argument. */
  datatype Rect = Rect(x: real, y: real, width: real, height: real)

  function PlayerRect(p: Player): Rect { Rect(p.x, p.y, p.width, p.height) }

  function ObstacleRect(o: Obstacle): Rect { Rect(o.x, o.y, o.width, o.height) }

  /** The open intervals (lo1, hi1) and (lo2, hi2) share a point. */
  predicate OpenIntervalsMeet(lo1: real, hi1: real, lo2: real, hi2: real) {
    (if lo1 >= lo2 then lo1 else lo2) < (if hi1 <= hi2 then hi1 else hi2)
  }

  /** `checkCollision`: strict overlap on both axes. */
  function CheckCollision(a: Rect, b: Rect): (r: bool)
    ensures a.width > 0.0 && a.height > 0.0 && b.width > 0.0 && b.height > 0.0 ==>
              (r <==> OpenIntervalsMeet(a.x, a.x + a.width, b.x, b.x + b.width)
                      && OpenIntervalsMeet(a.y, a.y + a.height, b.y, b.y + b.height))
  {
    a.x < b.x + b.width && a.x + a.width > b.x && a.y < b.y + b.height && a.y + a.height > b.y
  }

  lemma CollisionSymmetric(a: Rect, b: Rect)
    ensures CheckCollision(a, b) == CheckCollision(b, a)
  {
  }

  /** Boxes that share only an edge do not collide. */
  lemma TouchingEdgesDoNotCollide(a: Rect, w: real, h: real)
    ensures !CheckCollision(a, Rect(a.x + a.width, a.y, w, h))
    ensures !CheckCollision(a, Rect(a.x, a.y + a.height, w, h))
  {
  }

  /** A consequence of the two anchors: a player resting with its top edge
      at groundY never overlaps an obstacle whose bottom edge is at groundY. */
  lemma GroundedPlayerMissesGroundObstacles(c: Config, p: Player, x: real, w: Option<real>, h: Option<real>)
    requires p.y == c.groundY
    ensures !CheckCollision(PlayerRect(p), ObstacleRect(CreateObstacle(c, x, w, h)))
  {
  }

  /** `isObstacleOffScreen`: fully past the left edge; the screen width
      argument is ignored. */
  function IsObstacleOffScreen(o: Obstacle, screenWidth: real): (r: bool)
    ensures r <==> o.x < -o.width
    ensures o.width >= 0.0 && r ==> o.x < 0.0
  {
    o.x + o.width < 0.0
  }
}
