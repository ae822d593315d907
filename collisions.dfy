/** The collision rules of one tick: apples are collected, a grounded player
    that walks into an obstacle is hit, and touching the house ends the level. */
module Collisions {
  import opened Constants
  import opened Geometry
  import opened Physics
  import opened Placement

  predicate TouchesApple(p: Player, a: Apple)
  {
    IsColliding(p.x, p.y, PLAYER_SIZE, PLAYER_SIZE, a.x, a.y, APPLE_SIZE, APPLE_SIZE)
  }

  /** The player picks up this apple now: it was still there and they overlap. */
  predicate Picks(p: Player, a: Apple)
  {
    !a.collected && TouchesApple(p, a)
  }

  /** One apple after the apple pass. */
  function Collect(p: Player, a: Apple): Apple
  {
    if Picks(p, a) then a.(collected := true) else a
  }

  /** Every apple after the apple pass. Apples keep their positions and their
      order; an apple is collected afterwards exactly when it already was or it
      overlaps the player, so `collected` never goes back to false. */
  function CollectApples(p: Player, apples: seq<Apple>): (r: seq<Apple>)
    ensures |r| == |apples|
    ensures forall i :: 0 <= i < |apples| ==> r[i].x == apples[i].x && r[i].y == apples[i].y
    ensures forall i :: 0 <= i < |apples| ==>
      (r[i].collected <==> apples[i].collected || TouchesApple(p, apples[i]))
    ensures forall i :: 0 <= i < |apples| ==> r[i] == Collect(p, apples[i])
  {
    if apples == [] then [] else [Collect(p, apples[0])] + CollectApples(p, apples[1..])
  }

  /** How many apples the pass picks up. */
  function NewlyCollected(p: Player, apples: seq<Apple>): (n: nat)
    ensures n <= |apples|
    ensures n == 0 <==> forall i :: 0 <= i < |apples| ==> !Picks(p, apples[i])
  {
    if apples == [] then 0
    else (if Picks(p, apples[0]) then 1 else 0) + NewlyCollected(p, apples[1..])
  }

  /** How many apples are collected. */
  function CollectedCount(apples: seq<Apple>): (n: nat)
    ensures n <= |apples|
  {
    if apples == [] then 0
    else (if apples[0].collected then 1 else 0) + CollectedCount(apples[1..])
  }

  /** The apples picked up by a pass are exactly the growth of the collected
      count, so 10 points per picked apple is 10 points per apple that turned
      from uncollected to collected. */
  lemma {:induction false} CollectedCountGrows(p: Player, apples: seq<Apple>)
    ensures CollectedCount(CollectApples(p, apples)) == CollectedCount(apples) + NewlyCollected(p, apples)
  {
    if apples != [] {
      var r := CollectApples(p, apples);
      assert r[1..] == CollectApples(p, apples[1..]);
      CollectedCountGrows(p, apples[1..]);
    }
  }

  /** A second pass at the same position changes nothing and scores nothing:
      no apple is collected twice. */
  lemma {:induction false} CollectTwiceIsCollectOnce(p: Player, apples: seq<Apple>)
    ensures CollectApples(p, CollectApples(p, apples)) == CollectApples(p, apples)
    ensures NewlyCollected(p, CollectApples(p, apples)) == 0
  {
    if apples != [] {
      var r := CollectApples(p, apples);
      assert r[1..] == CollectApples(p, apples[1..]);
      CollectTwiceIsCollectOnce(p, apples[1..]);
    }
  }

  /** The obstacle hit test: the boxes overlap, the player is not in a jump,
      and its y is within GROUND_TOLERANCE of the ground. */
  predicate HitsObstacle(p: Player, o: Obstacle)
  {
    IsColliding(p.x, p.y, PLAYER_SIZE, PLAYER_SIZE, o.x, o.y, OBSTACLE_SIZE, OBSTACLE_SIZE)
    && !p.jumping && Abs(p.y - GROUND_Y) < GROUND_TOLERANCE
  }

  predicate HitsAnyObstacle(p: Player, obstacles: seq<Obstacle>)
  {
    exists i :: 0 <= i < |obstacles| && HitsObstacle(p, obstacles[i])
  }

  predicate TouchesHouse(p: Player)
  {
    IsColliding(p.x, p.y, PLAYER_SIZE, PLAYER_SIZE, HOUSE_X, HOUSE_Y, HOUSE_SIZE, HOUSE_SIZE)
  }

  /** A player in a jump, or clear of the ground, passes through obstacles unharmed. */
  lemma AirborneIsNeverHit(p: Player, obstacles: seq<Obstacle>)
    requires p.jumping || Abs(p.y - GROUND_Y) >= GROUND_TOLERANCE
    ensures !HitsAnyObstacle(p, obstacles)
  {
  }

  /** A player not yet in a jump who presses jump before a tick is clear of
      every obstacle on that tick. */
  lemma JumpingClearsObstacles(p: Player, left: bool, right: bool, obstacles: seq<Obstacle>)
    requires InBounds(p) && !p.jumping
    ensures !HitsAnyObstacle(Step(Jump(p), left, right), obstacles)
  {
    JumpLeavesTheGround(p, left, right);
    AirborneIsNeverHit(Step(Jump(p), left, right), obstacles);
  }

  /** The start position touches no well-placed obstacle and not the house,
      so a respawned player is not hit again on the spot. */
  lemma SpawnIsSafe(obstacles: seq<Obstacle>)
    requires WellPlaced(obstacles, SPAWN_X)
    ensures !HitsAnyObstacle(SPAWN, obstacles) && !TouchesHouse(SPAWN)
  {
  }
}
