/** Physics of the neon-claude runner (src/physics.js): gravity, ground
    clamp, the coyote-time jump gate and the bottom-anchored overlap test.
    `Date.now()` is the parameter `now` (milliseconds). */
module NeonClaudePhysics {

  const Gravity: real := 0.6
  const JumpImpulse: real := -12.0
  const CoyoteTime: int := 80
  const GroundY: real := 300.0

  /** The runner; `y` is its BOTTOM edge, so its box spans `y - height .. y`. */
  datatype Player = Player(x: real, y: real, width: real, height: real,
                           velocityY: real, grounded: bool, jumping: bool,
                           lastGroundedTime: int)

  /** An obstacle. The source compares obstacles by object identity; `id`
      stands for that identity (the spawner numbers them). */
  datatype Obstacle = Obstacle(id: nat, x: real, y: real, width: real, height: real)

  /** What `checkCollision` reads of either argument. */
  datatype Rect = Rect(x: real, y: real, width: real, height: real)

  function PlayerRect(p: Player): Rect { Rect(p.x, p.y, p.width, p.height) }

  function ObstacleRect(o: Obstacle): Rect { Rect(o.x, o.y, o.width, o.height) }

  function Max(a: real, b: real): real { if a >= b then a else b }

  function Min(a: real, b: real): real { if a <= b then a else b }

  /** The closed intervals [lo1, hi1] and [lo2, hi2] share a point. */
  predicate ClosedIntervalsMeet(lo1: real, hi1: real, lo2: real, hi2: real) {
    Max(lo1, lo2) <= Min(hi1, hi2)
  }

  /** The y an airborne entity would reach this step before the ground clamp. */
  function IntegratedY(e: Player): real {
    if e.grounded then e.y else e.y + (e.velocityY + Gravity)
  }

  /** One gravity step (`applyGravity`). */
  function ApplyGravity(e: Player, now: int): (r: Player)
    // airborne integration, when the entity stays above the ground
    ensures !e.grounded && IntegratedY(e) < GroundY ==>
              r.velocityY == e.velocityY + Gravity && r.y == e.y + r.velocityY && !r.grounded
    // landing (or standing) clamps exactly and stamps the ground time
    ensures IntegratedY(e) >= GroundY <==> r.grounded
    ensures r.grounded ==> r.y == GroundY && r.velocityY == 0.0 && r.lastGroundedTime == now
    ensures !r.grounded ==> r.lastGroundedTime == e.lastGroundedTime
    // a grounded entity above the ground is not pulled down, only marked airborne
    ensures e.grounded && e.y < GroundY ==> r == e.(grounded := false)
    ensures r.y <= GroundY
    ensures r.x == e.x && r.width == e.width && r.height == e.height && r.jumping == e.jumping
  {
    var e1 := if !e.grounded then e.(velocityY := e.velocityY + Gravity, y := e.y + (e.velocityY + Gravity)) else e;
    if e1.y >= GroundY then
      e1.(y := GroundY, velocityY := 0.0, grounded := true, lastGroundedTime := now)
    else
      e1.(grounded := false)
  }

  /** An entity resting on the ground keeps its position, velocity and flag;
      only the ground timestamp is refreshed. */
  lemma AtRestStaysAtRest(e: Player, now: int)
    requires e.grounded && e.y == GroundY && e.velocityY == 0.0
    ensures ApplyGravity(e, now) == e.(lastGroundedTime := now)
  {
  }

  /** The jump gate: on the ground, or within the (inclusive) coyote window. */
  predicate CanJump(e: Player, now: int) {
    e.grounded || now - e.lastGroundedTime <= CoyoteTime
  }

  datatype JumpResult = JumpResult(jumped: bool, player: Player)

  /** `jump`: succeeds iff the gate is open and no jump is already held. */
  function Jump(e: Player, now: int): (r: JumpResult)
    ensures r.jumped <==> (e.grounded || now - e.lastGroundedTime <= CoyoteTime) && !e.jumping
    ensures r.jumped ==> r.player == e.(velocityY := JumpImpulse, grounded := false, jumping := true)
    ensures !r.jumped ==> r.player == e
  {
    if CanJump(e, now) && !e.jumping then
      JumpResult(true, e.(velocityY := JumpImpulse, grounded := false, jumping := true))
    else
      JumpResult(false, e)
  }

  /** No double jump: while the jump is held, a second jump fails, whatever the time. */
  lemma NoDoubleJump(e: Player, t1: int, t2: int)
    requires Jump(e, t1).jumped
    ensures !Jump(Jump(e, t1).player, t2).jumped
    ensures Jump(Jump(e, t1).player, t2).player == Jump(e, t1).player
  {
  }

  /** The coyote window is inclusive: 80 ms after leaving the ground still
      jumps, 81 ms does not. */
  lemma CoyoteBoundary(e: Player)
    requires !e.grounded && !e.jumping
    ensures Jump(e, e.lastGroundedTime + CoyoteTime).jumped
    ensures !Jump(e, e.lastGroundedTime + CoyoteTime + 1).jumped
  {
  }

  /** `checkCollision`: boxes span [x, x + width] and [y - height, y]; the
      comparisons are non-strict, so touching edges collide. */
  function CheckCollision(a: Rect, b: Rect): (r: bool)
    ensures a.width >= 0.0 && a.height >= 0.0 && b.width >= 0.0 && b.height >= 0.0 ==>
              (r <==> ClosedIntervalsMeet(a.x, a.x + a.width, b.x, b.x + b.width)
                      && ClosedIntervalsMeet(a.y - a.height, a.y, b.y - b.height, b.y))
  {
    var aLeft, aRight, aTop, aBottom := a.x, a.x + a.width, a.y - a.height, a.y;
    var bLeft, bRight, bTop, bBottom := b.x, b.x + b.width, b.y - b.height, b.y;
    !(aRight < bLeft || aLeft > bRight || aBottom < bTop || aTop > bBottom)
  }

  lemma CollisionSymmetric(a: Rect, b: Rect)
    ensures CheckCollision(a, b) == CheckCollision(b, a)
  {
  }

  /** Boxes that share only an edge, side by side or stacked, still collide. */
  lemma TouchingEdgesCollide(a: Rect, w: real, h: real)
    requires a.width >= 0.0 && a.height >= 0.0 && w >= 0.0 && h >= 0.0
    ensures CheckCollision(a, Rect(a.x + a.width, a.y, w, h))
    ensures CheckCollision(a, Rect(a.x, a.y - a.height, w, h))
  {
  }

  /** Boxes separated by any positive gap on one axis never collide. */
  lemma SeparatedDoNotCollide(a: Rect, b: Rect)
    requires a.x + a.width < b.x || a.y < b.y - b.height
    ensures !CheckCollision(a, b)
  {
  }
}
