/** Player physics of the neon-gemini runner (src/physics.js): gravity is
    applied every frame, the ground is the line y = 400 under the player's
    feet, and the coyote window is exclusive. */
module NeonGeminiPhysics {
  const PlayerWidth: real := 50.0
  const PlayerHeight: real := 50.0
  const Gravity: real := 0.5
  const JumpImpulse: real := -12.0
  const CoyoteTime: int := 80
  const GroundLine: real := 400.0

  datatype Player = Player(x: real, y: real, vy: real, width: real, height: real,
                           isGrounded: bool, lastGroundedTime: int)

  /** `createPlayer`: airborne at the top of the screen. */
  function CreatePlayer(): (p: Player)
    ensures p.x == 50.0 && p.y == 0.0 && p.vy == 0.0 && !p.isGrounded && p.lastGroundedTime == 0
    ensures p.width == PlayerWidth && p.height == PlayerHeight
  {
    Player(50.0, 0.0, 0.0, PlayerWidth, PlayerHeight, false, 0)
  }

  /** `updatePlayer`: gravity, motion, then landing on the ground line. */
  function UpdatePlayer(p: Player, now: int): (r: Player)
    ensures p.y + p.vy + Gravity + p.height > GroundLine <==> r.isGrounded
    ensures r.isGrounded ==> r.y + r.height == GroundLine && r.vy == 0.0 && r.lastGroundedTime == now
    ensures !r.isGrounded ==> r.vy == p.vy + Gravity && r.y == p.y + r.vy && r.lastGroundedTime == p.lastGroundedTime
    ensures r.y + r.height <= GroundLine
    ensures r.x == p.x && r.width == p.width && r.height == p.height
  {
    var vy := p.vy + Gravity;
    var y := p.y + vy;
    if y + p.height > GroundLine then
      p.(y := GroundLine - p.height, vy := 0.0, isGrounded := true, lastGroundedTime := now)
    else p.(y := y, vy := vy, isGrounded := false)
  }

  /** A player standing on the ground stays there, re-stamped each frame. */
  lemma AtRestStaysAtRest(p: Player, now: int)
    requires p.y + p.height == GroundLine && p.vy == 0.0
    ensures UpdatePlayer(p, now) == p.(isGrounded := true, lastGroundedTime := now)
  {
  }

  /** The jump gate: grounded, or strictly less than 80 ms since landing. */
  function CanJump(p: Player, now: int): (b: bool)
    ensures b <==> p.isGrounded || now < p.lastGroundedTime + CoyoteTime
  {
    p.isGrounded || now - p.lastGroundedTime < CoyoteTime
  }

  datatype JumpResult = JumpResult(jumped: bool, player: Player)

  /** `jump`: returns the gate; on success sets the impulse and leaves the ground. */
  function Jump(p: Player, now: int): (r: JumpResult)
    ensures r.jumped <==> CanJump(p, now)
    ensures r.jumped ==> r.player == p.(vy := JumpImpulse, isGrounded := false)
    ensures !r.jumped ==> r.player == p
  {
    if CanJump(p, now) then JumpResult(true, p.(vy := JumpImpulse, isGrounded := false))
    else JumpResult(false, p)
  }

  /** Exclusive window: 79 ms after landing jumps, 80 ms does not. */
  lemma CoyoteBoundary(p: Player)
    requires !p.isGrounded
    ensures Jump(p, p.lastGroundedTime + CoyoteTime - 1).jumped
    ensures !Jump(p, p.lastGroundedTime + CoyoteTime).jumped
  {
  }
}
