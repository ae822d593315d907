/** Level table and entity placement: apples and obstacles are placed by
    drawing random candidate positions and accepting the first that passes
    the placement rules. The random numbers are a parameter: a finite
    sequence of draws, each nominally in [0, 1). */
module Placement {
  import opened Constants
  import opened Geometry

  datatype Option<T> = None | Some(value: T)

  datatype Apple = Apple(x: real, y: real, collected: bool)

  /** An obstacle is OBSTACLE_SIZE square and never moves. */
  datatype Obstacle = Obstacle(x: real, y: real)

  datatype LevelConfig = LevelConfig(apples: nat, obstacles: nat)

  /** One call of a generator: the entity it placed, if the draws did not run
      out first, and the draws it left unused. */
  datatype Attempt<T> = Attempt(placed: Option<T>, rest: seq<real>)

  /** What a level starts with: its apples, its obstacles, and the draws left over. */
  datatype Layout = Layout(apples: seq<Apple>, obstacles: seq<Obstacle>, rest: seq<real>)

  const LEVELS: seq<LevelConfig> := [LevelConfig(3, 2), LevelConfig(5, 4), LevelConfig(7, 6)]

  const DEFAULT_LEVEL: LevelConfig := LevelConfig(3, 2)

  function AsSeq<T>(o: Option<T>): seq<T>
  {
    if o.Some? then [o.value] else []
  }

  /** The apple and obstacle counts of a level: the table entry for levels it
      covers, the default beyond it. A missing entry or a count of zero falls
      back to the default count. */
  function LevelCounts(level: int): (c: LevelConfig)
    ensures c.apples > 0 && c.obstacles > 0
    ensures 1 <= level <= |LEVELS| ==> c == LEVELS[level - 1]
    ensures !(1 <= level <= |LEVELS|) ==> c == DEFAULT_LEVEL
  {
    var entry := if 1 <= level <= |LEVELS| then Some(LEVELS[level - 1]) else None;
    LevelConfig(
      if entry.Some? && entry.value.apples != 0 then entry.value.apples else DEFAULT_LEVEL.apples,
      if entry.Some? && entry.value.obstacles != 0 then entry.value.obstacles else DEFAULT_LEVEL.obstacles)
  }

  /** The apple position drawn from two random numbers. */
  function AppleCandidate(rx: real, ry: real): (pos: (real, real))
    ensures 0.0 <= rx < 1.0 && 0.0 <= ry < 1.0 ==>
      50.0 <= pos.0 < CANVAS_WIDTH - APPLE_SIZE - 50.0 && 50.0 <= pos.1 < CANVAS_HEIGHT - APPLE_SIZE - 100.0
  {
    (rx * (CANVAS_WIDTH - APPLE_SIZE - 100.0) + 50.0, ry * (CANVAS_HEIGHT - APPLE_SIZE - 150.0) + 50.0)
  }

  /** The obstacle x drawn from one random number; its y is always OBSTACLE_Y. */
  function ObstacleCandidate(r: real): (x: real)
    ensures 0.0 <= r < 1.0 ==> 100.0 <= x < CANVAS_WIDTH - OBSTACLE_SIZE - 100.0
  {
    r * (CANVAS_WIDTH - OBSTACLE_SIZE - 200.0) + 100.0
  }

  /** An apple at (x, y) overlaps none of the given obstacles and not the house. */
  predicate AppleAccepted(x: real, y: real, obstacles: seq<Obstacle>)
  {
    (forall i :: 0 <= i < |obstacles| ==>
       !IsColliding(x, y, APPLE_SIZE, APPLE_SIZE, obstacles[i].x, obstacles[i].y, OBSTACLE_SIZE, OBSTACLE_SIZE))
    && !IsColliding(x, y, APPLE_SIZE, APPLE_SIZE, HOUSE_X, HOUSE_Y, HOUSE_SIZE, HOUSE_SIZE)
  }

  /** An obstacle at (x, OBSTACLE_Y) overlaps none of the given obstacles and
      keeps CLEARANCE from the player's x and from the house's x. */
  predicate ObstacleAccepted(x: real, obstacles: seq<Obstacle>, playerX: real)
  {
    (forall i :: 0 <= i < |obstacles| ==>
       !IsColliding(x, OBSTACLE_Y, OBSTACLE_SIZE, OBSTACLE_SIZE, obstacles[i].x, obstacles[i].y, OBSTACLE_SIZE, OBSTACLE_SIZE))
    && !(Abs(x - playerX) < CLEARANCE || Abs(x - HOUSE_X) < CLEARANCE)
  }

  /** Every obstacle stands on the ground and was accepted against the
      obstacles placed before it, with the player at playerX. */
  predicate WellPlaced(obstacles: seq<Obstacle>, playerX: real)
  {
    forall i :: 0 <= i < |obstacles| ==>
      obstacles[i].y == OBSTACLE_Y && ObstacleAccepted(obstacles[i].x, obstacles[..i], playerX)
  }

  /** Does the rectangle (x, y, w, h) overlap any of the obstacles? The
      generators' inner loop, which stops at the first overlap. */
  method CollidesWithAnyObstacle(x: real, y: real, w: real, h: real, obstacles: seq<Obstacle>)
    returns (hit: bool)
    ensures hit <==> (exists i :: 0 <= i < |obstacles| &&
                        IsColliding(x, y, w, h, obstacles[i].x, obstacles[i].y, OBSTACLE_SIZE, OBSTACLE_SIZE))
  {
    hit := false;
    var i := 0;
    while i < |obstacles|
      invariant 0 <= i <= |obstacles|
      invariant forall j :: 0 <= j < i ==>
        !IsColliding(x, y, w, h, obstacles[j].x, obstacles[j].y, OBSTACLE_SIZE, OBSTACLE_SIZE)
    {
      var obstacle := obstacles[i];
      if IsColliding(x, y, w, h, obstacle.x, obstacle.y, OBSTACLE_SIZE, OBSTACLE_SIZE) {
        hit := true;
        break;
      }
      i := i + 1;
    }
  }

  /** Generating one apple: try the draws two at a time until a candidate is
      accepted; give up when fewer than two draws are left. */
  function FindApple(draws: seq<real>, obstacles: seq<Obstacle>): (r: Attempt<Apple>)
    decreases |draws|
    ensures |r.rest| <= |draws|
    ensures r.placed.None? ==> |r.rest| < 2
  {
    if |draws| < 2 then Attempt(None, draws)
    else
      var pos := AppleCandidate(draws[0], draws[1]);
      if AppleAccepted(pos.0, pos.1, obstacles) then Attempt(Some(Apple(pos.0, pos.1, false)), draws[2..])
      else FindApple(draws[2..], obstacles)
  }

  /** The draws an apple attempt consumes are a prefix, and the apple it
      places is the candidate of the last pair consumed: uncollected and
      accepted against the obstacles. */
  lemma {:induction false} FindAppleTakesAPrefix(draws: seq<real>, obstacles: seq<Obstacle>)
    ensures var r := FindApple(draws, obstacles);
      r.rest == draws[|draws| - |r.rest|..]
      && (r.placed.Some? ==>
            var a := r.placed.value;
            var k := |draws| - |r.rest| - 2;
            0 <= k && (a.x, a.y) == AppleCandidate(draws[k], draws[k + 1])
            && NewApple(a, obstacles))
    decreases |draws|
  {
    if |draws| >= 2 && !AppleAccepted(AppleCandidate(draws[0], draws[1]).0, AppleCandidate(draws[0], draws[1]).1, obstacles) {
      FindAppleTakesAPrefix(draws[2..], obstacles);
      var r := FindApple(draws[2..], obstacles);
      assert draws[2..][|draws[2..]| - |r.rest|..] == draws[|draws| - |r.rest|..];
      if r.placed.Some? {
        var k := |draws[2..]| - |r.rest| - 2;
        assert draws[2..][k] == draws[k + 2] && draws[2..][k + 1] == draws[k + 3];
      }
    }
  }

  /** The apple candidate of the j-th pair of draws is accepted. */
  predicate PairAccepted(draws: seq<real>, j: int, obstacles: seq<Obstacle>)
    requires 0 <= j && 2 * j + 1 < |draws|
  {
    var pos := AppleCandidate(draws[2 * j], draws[2 * j + 1]);
    AppleAccepted(pos.0, pos.1, obstacles)
  }

  /** An apple attempt consumes whole pairs of draws and stops at the first
      accepted one: every pair before the one it places was rejected, and
      when it places nothing every pair it consumed was rejected. */
  lemma {:induction false} FindAppleTakesTheFirstAcceptedPair(draws: seq<real>, obstacles: seq<Obstacle>)
    ensures var r := FindApple(draws, obstacles);
      var used := |draws| - |r.rest|;
      used % 2 == 0
      && (r.placed.None? ==> forall j :: 0 <= j < used / 2 ==> !PairAccepted(draws, j, obstacles))
      && (r.placed.Some? ==>
            used >= 2 && PairAccepted(draws, used / 2 - 1, obstacles)
            && forall j :: 0 <= j < used / 2 - 1 ==> !PairAccepted(draws, j, obstacles))
    decreases |draws|
  {
    if |draws| >= 2 && !PairAccepted(draws, 0, obstacles) {
      var tail := draws[2..];
      FindAppleTakesTheFirstAcceptedPair(tail, obstacles);
      var r := FindApple(tail, obstacles);
      var used := |draws| - |r.rest|;
      forall j | 1 <= j && 2 * j + 1 < |draws|
        ensures PairAccepted(draws, j, obstacles) == PairAccepted(tail, j - 1, obstacles)
      {
        assert tail[2 * (j - 1)] == draws[2 * j] && tail[2 * (j - 1) + 1] == draws[2 * j + 1];
      }
      if r.placed.Some? {
        assert PairAccepted(tail, used / 2 - 2, obstacles);
      }
    }
  }

  /** Generating one obstacle: try the draws one at a time until a candidate
      is accepted against the obstacles already placed; give up when the
      draws run out. */
  function FindObstacle(draws: seq<real>, placed: seq<Obstacle>, playerX: real): (r: Attempt<Obstacle>)
    decreases |draws|
    ensures |r.rest| <= |draws|
    ensures r.placed.None? ==> r.rest == []
  {
    if |draws| == 0 then Attempt(None, draws)
    else
      var x := ObstacleCandidate(draws[0]);
      if ObstacleAccepted(x, placed, playerX) then Attempt(Some(Obstacle(x, OBSTACLE_Y)), draws[1..])
      else FindObstacle(draws[1..], placed, playerX)
  }

  /** The draws an obstacle attempt consumes are a prefix, and the obstacle
      it places is the candidate of the last draw consumed, on the ground and
      accepted against the obstacles already placed. */
  lemma {:induction false} FindObstacleTakesAPrefix(draws: seq<real>, placed: seq<Obstacle>, playerX: real)
    ensures var r := FindObstacle(draws, placed, playerX);
      r.rest == draws[|draws| - |r.rest|..]
      && (r.placed.Some? ==>
            var o := r.placed.value;
            var k := |draws| - |r.rest| - 1;
            0 <= k && o.x == ObstacleCandidate(draws[k])
            && o.y == OBSTACLE_Y && ObstacleAccepted(o.x, placed, playerX))
    decreases |draws|
  {
    if |draws| >= 1 && !ObstacleAccepted(ObstacleCandidate(draws[0]), placed, playerX) {
      FindObstacleTakesAPrefix(draws[1..], placed, playerX);
      var r := FindObstacle(draws[1..], placed, playerX);
      assert draws[1..][|draws[1..]| - |r.rest|..] == draws[|draws| - |r.rest|..];
      if r.placed.Some? {
        var k := |draws[1..]| - |r.rest| - 1;
        assert draws[1..][k] == draws[k + 1];
      }
    }
  }

  /** The obstacle candidate of the j-th draw is accepted. */
  predicate DrawAccepted(draws: seq<real>, j: int, placed: seq<Obstacle>, playerX: real)
    requires 0 <= j < |draws|
  {
    ObstacleAccepted(ObstacleCandidate(draws[j]), placed, playerX)
  }

  /** An obstacle attempt stops at the first accepted draw: every draw
      before the one it places was rejected, and when it places nothing it
      consumed every draw and rejected them all. */
  lemma {:induction false} FindObstacleTakesTheFirstAcceptedDraw(draws: seq<real>, placed: seq<Obstacle>, playerX: real)
    ensures var r := FindObstacle(draws, placed, playerX);
      var used := |draws| - |r.rest|;
      (r.placed.None? ==> used == |draws| && forall j :: 0 <= j < used ==> !DrawAccepted(draws, j, placed, playerX))
      && (r.placed.Some? ==>
            used >= 1 && DrawAccepted(draws, used - 1, placed, playerX)
            && forall j :: 0 <= j < used - 1 ==> !DrawAccepted(draws, j, placed, playerX))
    decreases |draws|
  {
    if |draws| >= 1 && !DrawAccepted(draws, 0, placed, playerX) {
      var tail := draws[1..];
      FindObstacleTakesTheFirstAcceptedDraw(tail, placed, playerX);
      var r := FindObstacle(tail, placed, playerX);
      var used := |draws| - |r.rest|;
      forall j | 1 <= j < |draws|
        ensures DrawAccepted(draws, j, placed, playerX) == DrawAccepted(tail, j - 1, placed, playerX)
      {
        assert tail[j - 1] == draws[j];
      }
      if r.placed.Some? {
        assert DrawAccepted(tail, used - 2, placed, playerX);
      }
    }
  }

  /** A newly generated apple: not yet collected, at an accepted position. */
  predicate NewApple(a: Apple, obstacles: seq<Obstacle>)
  {
    !a.collected && AppleAccepted(a.x, a.y, obstacles)
  }

  predicate AllNew(apples: seq<Apple>, obstacles: seq<Obstacle>)
  {
    forall i :: 0 <= i < |apples| ==> NewApple(apples[i], obstacles)
  }

  /** n generator calls for apples, appended to placed. */
  function PlaceApples(n: nat, draws: seq<real>, placed: seq<Apple>, obstacles: seq<Obstacle>)
    : (r: (seq<Apple>, seq<real>))
    decreases n
    ensures |placed| <= |r.0| <= |placed| + n
    ensures |r.1| <= |draws|
  {
    if n == 0 then (placed, draws)
    else
      var a := FindApple(draws, obstacles);
      PlaceApples(n - 1, a.rest, placed + AsSeq(a.placed), obstacles)
  }

  /** The n calls place exactly n apples unless the draws run out: with at
      least one pair still unused at the end, no call gave up. */
  lemma {:induction false} PlaceApplesFillsWhileDrawsLast(n: nat, draws: seq<real>, placed: seq<Apple>, obstacles: seq<Obstacle>)
    ensures var r := PlaceApples(n, draws, placed, obstacles);
      |r.1| >= 2 ==> |r.0| == |placed| + n
    decreases n
  {
    if n > 0 {
      var a := FindApple(draws, obstacles);
      PlaceApplesFillsWhileDrawsLast(n - 1, a.rest, placed + AsSeq(a.placed), obstacles);
    }
  }

  /** Every apple the generator calls add is new: uncollected, at a position
      accepted against the obstacles. */
  lemma {:induction false} PlacedApplesAreNew(n: nat, draws: seq<real>, placed: seq<Apple>, obstacles: seq<Obstacle>)
    requires AllNew(placed, obstacles)
    ensures AllNew(PlaceApples(n, draws, placed, obstacles).0, obstacles)
    decreases n
  {
    if n > 0 {
      var a := FindApple(draws, obstacles);
      FindAppleTakesAPrefix(draws, obstacles);
      var next := placed + AsSeq(a.placed);
      assert AllNew(next, obstacles) by {
        forall i | 0 <= i < |next| ensures NewApple(next[i], obstacles) {
          if i >= |placed| { assert next[i] == a.placed.value; }
        }
      }
      PlacedApplesAreNew(n - 1, a.rest, next, obstacles);
    }
  }

  /** n generator calls for obstacles, appended to placed; each new obstacle
      is checked against all the earlier ones. */
  function PlaceObstacles(n: nat, draws: seq<real>, placed: seq<Obstacle>, playerX: real)
    : (r: (seq<Obstacle>, seq<real>))
    decreases n
    ensures |placed| <= |r.0| <= |placed| + n
    ensures |r.1| <= |draws|
  {
    if n == 0 then (placed, draws)
    else
      var o := FindObstacle(draws, placed, playerX);
      PlaceObstacles(n - 1, o.rest, placed + AsSeq(o.placed), playerX)
  }

  /** The n calls place exactly n obstacles unless the draws run out: with a
      draw still unused at the end, no call gave up. */
  lemma {:induction false} PlaceObstaclesFillsWhileDrawsLast(n: nat, draws: seq<real>, placed: seq<Obstacle>, playerX: real)
    ensures var r := PlaceObstacles(n, draws, placed, playerX);
      |r.1| > 0 ==> |r.0| == |placed| + n
    decreases n
  {
    if n > 0 {
      var o := FindObstacle(draws, placed, playerX);
      PlaceObstaclesFillsWhileDrawsLast(n - 1, o.rest, placed + AsSeq(o.placed), playerX);
    }
  }

  /** Appending an obstacle accepted against a well-placed list keeps it well placed. */
  lemma AcceptedObstacleKeepsWellPlaced(placed: seq<Obstacle>, o: Obstacle, playerX: real)
    requires WellPlaced(placed, playerX)
    requires o.y == OBSTACLE_Y && ObstacleAccepted(o.x, placed, playerX)
    ensures WellPlaced(placed + [o], playerX)
  {
    var next := placed + [o];
    forall i | 0 <= i < |next|
      ensures next[i].y == OBSTACLE_Y && ObstacleAccepted(next[i].x, next[..i], playerX)
    {
      if i < |placed| {
        assert next[..i] == placed[..i];
      } else {
        assert next[..i] == placed;
      }
    }
  }

  /** Every obstacle the generator calls add is accepted against the ones
      before it: starting from a well-placed list, the result is well placed. */
  lemma {:induction false} PlacedObstaclesAreWellPlaced(n: nat, draws: seq<real>, placed: seq<Obstacle>, playerX: real)
    requires WellPlaced(placed, playerX)
    ensures WellPlaced(PlaceObstacles(n, draws, placed, playerX).0, playerX)
    decreases n
  {
    if n > 0 {
      var o := FindObstacle(draws, placed, playerX);
      FindObstacleTakesAPrefix(draws, placed, playerX);
      if o.placed.Some? {
        AcceptedObstacleKeepsWellPlaced(placed, o.placed.value, playerX);
      }
      PlacedObstaclesAreWellPlaced(n - 1, o.rest, placed + AsSeq(o.placed), playerX);
    }
  }

  /** The entities for the given counts: all the apples first, while the
      obstacle list is still empty, then the obstacles with the player at the
      start position. */
  function LayoutFor(counts: LevelConfig, draws: seq<real>): (r: Layout)
    ensures |r.apples| <= counts.apples && |r.obstacles| <= counts.obstacles
    ensures AllNew(r.apples, [])
    ensures WellPlaced(r.obstacles, SPAWN_X)
    ensures |r.rest| <= |draws|
  {
    var apples := PlaceApples(counts.apples, draws, [], []);
    PlacedApplesAreNew(counts.apples, draws, [], []);
    var obstacles := PlaceObstacles(counts.obstacles, apples.1, [], SPAWN_X);
    PlacedObstaclesAreWellPlaced(counts.obstacles, apples.1, [], SPAWN_X);
    Layout(apples.0, obstacles.0, obstacles.1)
  }

  /** Unless the draws run out, a layout has exactly the counts asked for. */
  lemma LayoutForFillsWhileDrawsLast(counts: LevelConfig, draws: seq<real>)
    ensures var r := LayoutFor(counts, draws);
      |r.rest| >= 2 ==> |r.apples| == counts.apples && |r.obstacles| == counts.obstacles
  {
    var apples := PlaceApples(counts.apples, draws, [], []);
    PlaceApplesFillsWhileDrawsLast(counts.apples, draws, [], []);
    PlaceObstaclesFillsWhileDrawsLast(counts.obstacles, apples.1, [], SPAWN_X);
  }

  /** A level's entities, with the counts its row of the table gives. */
  function LevelLayout(level: int, draws: seq<real>): (r: Layout)
    ensures |r.apples| <= LevelCounts(level).apples && |r.obstacles| <= LevelCounts(level).obstacles
  {
    LayoutFor(LevelCounts(level), draws)
  }

  /** Unless the draws run out, a level gets exactly its row's apples and
      obstacles. */
  lemma LevelLayoutFillsWhileDrawsLast(level: int, draws: seq<real>)
    ensures var r := LevelLayout(level, draws);
      |r.rest| >= 2 ==> |r.apples| == LevelCounts(level).apples && |r.obstacles| == LevelCounts(level).obstacles
  {
    LayoutForFillsWhileDrawsLast(LevelCounts(level), draws);
  }

  /** No two obstacles of a well-placed list overlap, and, standing on the
      same line, their x coordinates are at least OBSTACLE_SIZE apart. */
  lemma WellPlacedObstaclesAreApart(obstacles: seq<Obstacle>, playerX: real)
    requires WellPlaced(obstacles, playerX)
    ensures forall i, j :: 0 <= i < |obstacles| && 0 <= j < |obstacles| && i != j ==>
      !IsColliding(obstacles[i].x, obstacles[i].y, OBSTACLE_SIZE, OBSTACLE_SIZE,
                   obstacles[j].x, obstacles[j].y, OBSTACLE_SIZE, OBSTACLE_SIZE)
      && Abs(obstacles[i].x - obstacles[j].x) >= OBSTACLE_SIZE
  {
    forall i, j | 0 <= i < |obstacles| && 0 <= j < |obstacles| && i != j
      ensures !IsColliding(obstacles[i].x, obstacles[i].y, OBSTACLE_SIZE, OBSTACLE_SIZE,
                           obstacles[j].x, obstacles[j].y, OBSTACLE_SIZE, OBSTACLE_SIZE)
    {
      if j < i {
        assert obstacles[..i][j] == obstacles[j];
      } else {
        assert obstacles[..j][i] == obstacles[i];
        CollidingIsSymmetric(obstacles[i].x, obstacles[i].y, OBSTACLE_SIZE, OBSTACLE_SIZE,
                             obstacles[j].x, obstacles[j].y, OBSTACLE_SIZE, OBSTACLE_SIZE);
      }
    }
  }

  /** A well-placed obstacle never overlaps the house. */
  lemma WellPlacedObstaclesMissTheHouse(obstacles: seq<Obstacle>, playerX: real)
    requires WellPlaced(obstacles, playerX)
    ensures forall i :: 0 <= i < |obstacles| ==>
      !IsColliding(obstacles[i].x, obstacles[i].y, OBSTACLE_SIZE, OBSTACLE_SIZE, HOUSE_X, HOUSE_Y, HOUSE_SIZE, HOUSE_SIZE)
  {
  }

  /** An obstacle drawn from a number in [0, 1) and accepted at the start of a
      level lies between the start position and the house, CLEARANCE from each. */
  lemma AcceptedObstacleLiesBetweenSpawnAndHouse(r: real, placed: seq<Obstacle>)
    requires 0.0 <= r < 1.0 && ObstacleAccepted(ObstacleCandidate(r), placed, SPAWN_X)
    ensures SPAWN_X + CLEARANCE <= ObstacleCandidate(r) <= HOUSE_X - CLEARANCE
  {
  }

  /** Draws under which level 1's first apple lands on its first obstacle. */
  const OVERLAP_DRAWS: seq<real> := [15.0 / 67.0, 20.0 / 21.0, 0.0, 0.0, 0.0, 0.0, 5.0 / 28.0, 5.0 / 14.0]

  lemma OverlapDrawsPlaceApples()
    ensures PlaceApples(3, OVERLAP_DRAWS, [], [])
         == ([Apple(200.0, 450.0, false), Apple(50.0, 50.0, false), Apple(50.0, 50.0, false)], OVERLAP_DRAWS[6..])
  {
    var draws := OVERLAP_DRAWS;
    var d2, d4, d6 := draws[2..], draws[4..], draws[6..];
    assert d2[2..] == d4 && d4[2..] == d6;
    var first := Apple(200.0, 450.0, false);
    var corner := Apple(50.0, 50.0, false);
    assert FindApple(draws, []) == Attempt(Some(first), d2);
    assert FindApple(d2, []) == Attempt(Some(corner), d4);
    assert FindApple(d4, []) == Attempt(Some(corner), d6);
    assert [] + [first] == [first] && [first] + [corner] == [first, corner];
    assert [first, corner] + [corner] == [first, corner, corner];
    assert PlaceApples(1, d4, [first, corner], []) == ([first, corner, corner], d6);
    assert PlaceApples(2, d2, [first], []) == ([first, corner, corner], d6);
  }

  lemma OverlapDrawsPlaceObstacles()
    ensures PlaceObstacles(2, OVERLAP_DRAWS[6..], [], SPAWN_X)
         == ([Obstacle(200.0, OBSTACLE_Y), Obstacle(300.0, OBSTACLE_Y)], [])
  {
    var d6, d7 := OVERLAP_DRAWS[6..], OVERLAP_DRAWS[7..];
    assert d6[1..] == d7 && d7[1..] == [];
    var left := Obstacle(200.0, OBSTACLE_Y);
    var right := Obstacle(300.0, OBSTACLE_Y);
    assert FindObstacle(d6, [], SPAWN_X) == Attempt(Some(left), d7);
    assert FindObstacle(d7, [left], SPAWN_X) == Attempt(Some(right), []);
    assert [] + [left] == [left] && [left] + [right] == [left, right];
    assert PlaceObstacles(1, d7, [left], SPAWN_X) == ([left, right], []);
  }

  /** Level 1's apples are placed while the obstacle list is still empty, so
      nothing keeps an apple off an obstacle: with OVERLAP_DRAWS the first
      apple, at (200, 450), overlaps the first obstacle, at (200, 460). */
  lemma ApplesMayOverlapObstacles()
    ensures var layout := LevelLayout(1, OVERLAP_DRAWS);
      |layout.apples| == 3 && |layout.obstacles| == 2
      && IsColliding(layout.apples[0].x, layout.apples[0].y, APPLE_SIZE, APPLE_SIZE,
                     layout.obstacles[0].x, layout.obstacles[0].y, OBSTACLE_SIZE, OBSTACLE_SIZE)
  {
    OverlapDrawsPlaceApples();
    OverlapDrawsPlaceObstacles();
  }
}
