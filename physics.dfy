/** Player physics: the jump impulse and the per-tick integration with
    gravity, horizontal movement and clamping. */
module Physics {
  import opened Constants
  import opened Geometry

  /** The player's changing state. Its width and height are both PLAYER_SIZE
      and never change, so they are not fields. */
  datatype Player = Player(x: real, y: real, speedX: real, speedY: real, jumping: bool)

  /** Standing still on the ground at the start position: where each level
      starts and where the player reappears after losing a life. */
  const SPAWN: Player := Player(SPAWN_X, GROUND_Y, 0.0, 0.0, false)

  /** Inside the canvas horizontally, and between the jump cap and the ground. */
  predicate InBounds(p: Player)
  {
    0.0 <= p.x <= CANVAS_WIDTH - PLAYER_SIZE && MAX_JUMP_HEIGHT <= p.y <= GROUND_Y
  }

  /** Pressing jump: an upward impulse, granted only to a player that is not
      already in a jump. */
  function Jump(p: Player): (q: Player)
    ensures q.jumping
    ensures q.x == p.x && q.y == p.y && q.speedX == p.speedX
    ensures !p.jumping ==> q.speedY == -JUMP_FORCE
    ensures p.jumping ==> q == p
  {
    if !p.jumping then p.(speedY := -JUMP_FORCE, jumping := true) else p
  }

  /** One tick of movement for the held keys. The left key is tested first,
      gravity is added to speedY before both coordinates move, then x is
      clamped to the canvas and y to the band between the cap and the ground. */
  function Step(p: Player, left: bool, right: bool): (q: Player)
    ensures q.speedX == (if left then -PLAYER_SPEED else if right then PLAYER_SPEED else 0.0)
    ensures InBounds(q)
    ensures var x := p.x + q.speedX;
      (0.0 <= x <= CANVAS_WIDTH - PLAYER_SIZE ==> q.x == x)
      && (x < 0.0 ==> q.x == 0.0)
      && (x > CANVAS_WIDTH - PLAYER_SIZE ==> q.x == CANVAS_WIDTH - PLAYER_SIZE)
    ensures var speedY := p.speedY + GRAVITY;
      var y := p.y + speedY;
      (MAX_JUMP_HEIGHT <= y <= GROUND_Y ==> q.y == y && q.speedY == speedY && q.jumping == p.jumping)
      && (y > GROUND_Y ==> q.y == GROUND_Y && q.speedY == 0.0 && !q.jumping)
      && (y < MAX_JUMP_HEIGHT ==> q.y == MAX_JUMP_HEIGHT && q.jumping == p.jumping
                                  && q.speedY >= 0.0 && q.speedY == Max(speedY, 0.0))
  {
    var speedX := if left then -PLAYER_SPEED else if right then PLAYER_SPEED else 0.0;
    var speedY := p.speedY + GRAVITY;
    var movedX := p.x + speedX;
    var movedY := p.y + speedY;
    var x := if movedX < 0.0 then 0.0
             else if movedX > CANVAS_WIDTH - PLAYER_SIZE then CANVAS_WIDTH - PLAYER_SIZE
             else movedX;
    if movedY < MAX_JUMP_HEIGHT then
      Player(x, MAX_JUMP_HEIGHT, speedX, if speedY < 0.0 then 0.0 else speedY, p.jumping)
    else if movedY > GROUND_Y then
      Player(x, GROUND_Y, speedX, 0.0, false)
    else
      Player(x, movedY, speedX, speedY, p.jumping)
  }

  /** A player standing on the ground stays there, at rest and not jumping,
      whatever keys are held: each tick gravity pushes it just below the
      ground and the clamp puts it back. */
  lemma StandingIsStable(p: Player, left: bool, right: bool)
    requires p.y == GROUND_Y && p.speedY == 0.0
    ensures var q := Step(p, left, right); q.y == GROUND_Y && q.speedY == 0.0 && !q.jumping
  {
  }

  /** The tick after a jump from anywhere in bounds, the player is still in
      its jump and has left the ground by the jump force less one step of gravity. */
  lemma JumpLeavesTheGround(p: Player, left: bool, right: bool)
    requires InBounds(p) && !p.jumping
    ensures var q := Step(Jump(p), left, right);
      q.jumping && q.y == Max(p.y - JUMP_FORCE + GRAVITY, MAX_JUMP_HEIGHT)
  {
  }
}
