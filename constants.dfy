/** The fixed dimensions and physics constants of the game, and the
    positions derived from them that the simulation uses. */
module Constants {
  const CANVAS_WIDTH: real := 800.0
  const CANVAS_HEIGHT: real := 600.0
  const PLAYER_SIZE: real := 50.0
  const PLAYER_SPEED: real := 5.0
  const APPLE_SIZE: real := 30.0
  const OBSTACLE_SIZE: real := 40.0
  const HOUSE_SIZE: real := 60.0
  const GRAVITY: real := 0.5
  const JUMP_FORCE: real := 25.0

  /** Height of the band of ground at the bottom of the canvas. */
  const GROUND_HEIGHT: real := 100.0

  /** The y of a player standing on the ground (450). */
  const GROUND_Y: real := CANVAS_HEIGHT - PLAYER_SIZE - GROUND_HEIGHT

  /** The smallest y a jump may reach: half-way up the sky (250). */
  const MAX_JUMP_HEIGHT: real := CANVAS_HEIGHT - GROUND_HEIGHT - (CANVAS_HEIGHT - GROUND_HEIGHT) / 2.0

  /** The x at which the player starts and respawns. */
  const SPAWN_X: real := 50.0

  /** The house is fixed for the whole session: (690, 440). */
  const HOUSE_X: real := CANVAS_WIDTH - HOUSE_SIZE - 50.0
  const HOUSE_Y: real := CANVAS_HEIGHT - HOUSE_SIZE - GROUND_HEIGHT

  /** Every obstacle stands on the ground: y = 460. */
  const OBSTACLE_Y: real := CANVAS_HEIGHT - OBSTACLE_SIZE - GROUND_HEIGHT

  /** The least horizontal distance of a new obstacle from the player and from the house. */
  const CLEARANCE: real := 100.0

  /** A player whose y is closer than this to GROUND_Y counts as standing. */
  const GROUND_TOLERANCE: real := 5.0

  const APPLE_POINTS: int := 10
  const START_LIVES: int := 3
}
