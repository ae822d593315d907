/** The single game record and every operation that updates it: the tick
    (player physics, then collisions), jumping, level set-up and the
    lifecycle commands. */
module GameState {
  import opened Constants
  import opened Geometry
  import opened Physics
  import opened Placement
  import opened Collisions

  class Game {
    var isRunning: bool
    var isPaused: bool
    var score: int
    var lives: int
    var level: int
    var player: Player
    var apples: seq<Apple>
    var obstacles: seq<Obstacle>
    var gameOver: bool

    /** What every operation preserves. Lives are not bounded below: they can go negative. */
    ghost predicate Valid()
      reads this
    {
      PlayerValid() && CountersValid() && EntitiesValid() && FlagsValid()
    }

    ghost predicate PlayerValid()
      reads this`player
    {
      InBounds(player)
    }

    ghost predicate CountersValid()
      reads this`score, this`level
    {
      score >= 0 && level >= 1
    }

    /** The obstacles were placed by the generator's acceptance test, and every
        apple lies where the apple generator may put one. */
    ghost predicate EntitiesValid()
      reads this`apples, this`obstacles
    {
      WellPlaced(obstacles, SPAWN_X)
      && (forall i :: 0 <= i < |apples| ==> AppleAccepted(apples[i].x, apples[i].y, []))
    }

    ghost predicate FlagsValid()
      reads this`isRunning, this`isPaused, this`gameOver
    {
      (isPaused ==> isRunning) && (gameOver ==> !isRunning)
    }

    /** The simulation advances only while this holds. */
    predicate Active()
      reads this
    {
      isRunning && !isPaused && !gameOver
    }

    /** The state after one collision pass that started with player p and the
        given apples, score, lives and flags. */
    ghost predicate Resolved(p: Player, apples0: seq<Apple>, score0: int, lives0: int,
                             isRunning0: bool, gameOver0: bool)
      reads this
    {
      var hit := HitsAnyObstacle(p, obstacles);
      var dead := hit && lives0 - 1 <= 0;
      apples == CollectApples(p, apples0)
      && score == score0 + APPLE_POINTS * NewlyCollected(p, apples0)
      && lives == (if hit then lives0 - 1 else lives0)
      && gameOver == (gameOver0 || dead)
      && player == (if hit && !dead then SPAWN else p)
      && isRunning == (isRunning0 && !dead && !TouchesHouse(player))
    }

    /** The initial record: not started, no entities yet. */
    constructor ()
      ensures Valid()
      ensures !isRunning && !isPaused && !gameOver
      ensures score == 0 && lives == START_LIVES && level == 1
      ensures player == SPAWN && apples == [] && obstacles == []
    {
      isRunning := false;
      isPaused := false;
      score := 0;
      lives := START_LIVES;
      level := 1;
      player := SPAWN;
      apples := [];
      obstacles := [];
      gameOver := false;
    }

    /** The jump key, which works in any lifecycle state. */
    method Jump()
      requires Valid()
      modifies this`player
      ensures Valid()
      ensures player == Physics.Jump(old(player))
    {
      if !player.jumping {
        player := player.(speedY := -JUMP_FORCE);
        player := player.(jumping := true);
      }
    }

    /** Move the player one tick with the given keys held. */
    method UpdatePlayer(left: bool, right: bool)
      requires Valid()
      modifies this`player
      ensures Valid()
      ensures player == Step(old(player), left, right)
    {
      if left {
        player := player.(speedX := -PLAYER_SPEED);
      } else if right {
        player := player.(speedX := PLAYER_SPEED);
      } else {
        player := player.(speedX := 0.0);
      }

      player := player.(speedY := player.speedY + GRAVITY);

      player := player.(x := player.x + player.speedX);
      player := player.(y := player.y + player.speedY);

      if player.x < 0.0 {
        player := player.(x := 0.0);
      } else if player.x > CANVAS_WIDTH - PLAYER_SIZE {
        player := player.(x := CANVAS_WIDTH - PLAYER_SIZE);
      }

      if player.y < MAX_JUMP_HEIGHT {
        player := player.(y := MAX_JUMP_HEIGHT);
        if player.speedY < 0.0 {
          player := player.(speedY := 0.0);
        }
      } else if player.y > GROUND_Y {
        player := player.(y := GROUND_Y);
        player := player.(speedY := 0.0);
        player := player.(jumping := false);
      }
    }

    /** The apple pass, from the last apple to the first. The score minus 10
        per collected apple stays the same. */
    method CheckApples()
      requires Valid()
      modifies this`apples, this`score
      ensures Valid()
      ensures apples == CollectApples(player, old(apples))
      ensures score == old(score) + APPLE_POINTS * NewlyCollected(player, old(apples))
      ensures score - APPLE_POINTS * CollectedCount(apples)
           == old(score) - APPLE_POINTS * CollectedCount(old(apples))
    {
      ghost var before := apples;
      var i := |apples|;
      while i > 0
        invariant 0 <= i <= |before| && |apples| == |before|
        invariant forall j :: 0 <= j < |before| ==>
          apples[j] == if j < i then before[j] else Collect(player, before[j])
        invariant score == old(score) + APPLE_POINTS * NewlyCollected(player, before[i..])
      {
        i := i - 1;
        var apple := apples[i];
        if !apple.collected && IsColliding(player.x, player.y, PLAYER_SIZE, PLAYER_SIZE,
                                           apple.x, apple.y, APPLE_SIZE, APPLE_SIZE) {
          apples := apples[i := apple.(collected := true)];
          score := score + APPLE_POINTS;
        }
        assert before[i..][1..] == before[i + 1..];
      }
      assert before[0..] == before;
      CollectedCountGrows(player, before);
    }

    /** The obstacle pass: the first obstacle that hits the player costs one
        life and ends the pass. With no lives left the game is over; otherwise
        the player respawns. */
    method CheckObstacles()
      requires Valid() && !isPaused
      modifies this`lives, this`gameOver, this`isRunning, this`player
      ensures Valid()
      ensures var hit := HitsAnyObstacle(old(player), obstacles);
        lives == (if hit then old(lives) - 1 else old(lives))
        && gameOver == (old(gameOver) || (hit && lives <= 0))
        && isRunning == (old(isRunning) && !(hit && lives <= 0))
        && player == (if hit && lives > 0 then SPAWN else old(player))
    {
      var i := 0;
      while i < |obstacles|
        invariant 0 <= i <= |obstacles|
        invariant forall j :: 0 <= j < i ==> !HitsObstacle(player, obstacles[j])
        invariant player == old(player) && lives == old(lives)
        invariant gameOver == old(gameOver) && isRunning == old(isRunning)
      {
        var obstacle := obstacles[i];
        if IsColliding(player.x, player.y, PLAYER_SIZE, PLAYER_SIZE,
                       obstacle.x, obstacle.y, OBSTACLE_SIZE, OBSTACLE_SIZE)
           && !player.jumping
           && Abs(player.y - GROUND_Y) < GROUND_TOLERANCE
        {
          assert HitsObstacle(old(player), obstacles[i]);
          lives := lives - 1;
          if lives <= 0 {
            gameOver := true;
            isRunning := false;
          } else {
            player := player.(x := SPAWN_X);
            player := player.(y := GROUND_Y);
            player := player.(speedX := 0.0);
            player := player.(speedY := 0.0);
            player := player.(jumping := false);
          }
          break;
        }
        i := i + 1;
      }
    }

    /** Touching the house completes the level, which stops the game. */
    method CheckHouse()
      requires Valid() && !isPaused
      modifies this`isRunning
      ensures Valid()
      ensures isRunning == (old(isRunning) && !TouchesHouse(player))
    {
      if IsColliding(player.x, player.y, PLAYER_SIZE, PLAYER_SIZE,
                     HOUSE_X, HOUSE_Y, HOUSE_SIZE, HOUSE_SIZE) {
        isRunning := false;
      }
    }

    /** The three passes of a tick, in order: apples, obstacles, house. */
    method CheckCollisions()
      requires Valid() && !isPaused
      modifies this`apples, this`score, this`lives, this`gameOver, this`isRunning, this`player
      ensures Valid()
      ensures Resolved(old(player), old(apples), old(score), old(lives), old(isRunning), old(gameOver))
    {
      CheckApples();
      CheckObstacles();
      CheckHouse();
    }

    /** One frame of the game loop: the simulation runs only while the game is
        running, not paused and not over. */
    method Tick(left: bool, right: bool)
      requires Valid()
      modifies this`apples, this`score, this`lives, this`gameOver, this`isRunning, this`player
      ensures Valid()
      ensures !old(Active()) ==> unchanged(this)
      ensures old(Active()) ==>
        Resolved(Step(old(player), left, right), old(apples), old(score), old(lives), old(isRunning), old(gameOver))
    {
      if Active() {
        UpdatePlayer(left, right);
        CheckCollisions();
      }
    }

    /** One apple generator call: draw candidates two numbers at a time until
        one is accepted against the current obstacles and the house, and
        append it. Gives up, appending nothing, when the draws run out. */
    method GenerateApple(draws: seq<real>) returns (rest: seq<real>)
      modifies this`apples
      ensures var a := FindApple(draws, obstacles);
        apples == old(apples) + AsSeq(a.placed) && rest == a.rest
    {
      rest := draws;
      var x, y := 0.0, 0.0;
      var validPosition := false;
      while !validPosition && |rest| >= 2
        invariant !validPosition ==> FindApple(rest, obstacles) == FindApple(draws, obstacles)
        invariant validPosition ==> FindApple(draws, obstacles) == Attempt(Some(Apple(x, y, false)), rest)
        invariant apples == old(apples)
        decreases |rest|
      {
        ghost var attempt := rest;
        x := rest[0] * (CANVAS_WIDTH - APPLE_SIZE - 100.0) + 50.0;
        y := rest[1] * (CANVAS_HEIGHT - APPLE_SIZE - 150.0) + 50.0;
        rest := rest[2..];

        validPosition := true;
        var hit := CollidesWithAnyObstacle(x, y, APPLE_SIZE, APPLE_SIZE, obstacles);
        if hit {
          validPosition := false;
        }
        if IsColliding(x, y, APPLE_SIZE, APPLE_SIZE, HOUSE_X, HOUSE_Y, HOUSE_SIZE, HOUSE_SIZE) {
          validPosition := false;
        }
        assert validPosition == AppleAccepted(x, y, obstacles);
        assert (x, y) == AppleCandidate(attempt[0], attempt[1]);
      }
      if validPosition {
        apples := apples + [Apple(x, y, false)];
      }
    }

    /** One obstacle generator call: draw candidate x positions until one is
        accepted against the obstacles so far, the player's x and the house,
        and append it. Gives up, appending nothing, when the draws run out. */
    method GenerateObstacle(draws: seq<real>) returns (rest: seq<real>)
      modifies this`obstacles
      ensures var o := FindObstacle(draws, old(obstacles), player.x);
        obstacles == old(obstacles) + AsSeq(o.placed) && rest == o.rest
    {
      rest := draws;
      var x := 0.0;
      var y := OBSTACLE_Y;
      var validPosition := false;
      while !validPosition && |rest| >= 1
        invariant !validPosition ==> FindObstacle(rest, obstacles, player.x) == FindObstacle(draws, obstacles, player.x)
        invariant validPosition ==> FindObstacle(draws, obstacles, player.x) == Attempt(Some(Obstacle(x, y)), rest)
        invariant obstacles == old(obstacles) && y == OBSTACLE_Y
        decreases |rest|
      {
        ghost var attempt := rest;
        x := rest[0] * (CANVAS_WIDTH - OBSTACLE_SIZE - 200.0) + 100.0;
        y := CANVAS_HEIGHT - OBSTACLE_SIZE - GROUND_HEIGHT;
        rest := rest[1..];

        validPosition := true;
        var hit := CollidesWithAnyObstacle(x, y, OBSTACLE_SIZE, OBSTACLE_SIZE, obstacles);
        if hit {
          validPosition := false;
        }
        if Abs(x - player.x) < CLEARANCE || Abs(x - HOUSE_X) < CLEARANCE {
          validPosition := false;
        }
        assert validPosition == ObstacleAccepted(x, obstacles, player.x);
        assert x == ObstacleCandidate(attempt[0]);
      }
      if validPosition {
        obstacles := obstacles + [Obstacle(x, y)];
      }
    }

    /** The generator loop for apples: count calls of GenerateApple. */
    method GenerateApples(count: nat, draws: seq<real>) returns (rest: seq<real>)
      modifies this`apples
      ensures var placed := PlaceApples(count, draws, old(apples), obstacles);
        apples == placed.0 && rest == placed.1
    {
      rest := draws;
      for i := 0 to count
        invariant PlaceApples(count - i, rest, apples, obstacles) == PlaceApples(count, draws, old(apples), obstacles)
      {
        rest := GenerateApple(rest);
      }
    }

    /** The generator loop for obstacles: count calls of GenerateObstacle. */
    method GenerateObstacles(count: nat, draws: seq<real>) returns (rest: seq<real>)
      modifies this`obstacles
      ensures var placed := PlaceObstacles(count, draws, old(obstacles), player.x);
        obstacles == placed.0 && rest == placed.1
    {
      rest := draws;
      for i := 0 to count
        invariant PlaceObstacles(count - i, rest, obstacles, player.x)
               == PlaceObstacles(count, draws, old(obstacles), player.x)
      {
        rest := GenerateObstacle(rest);
      }
    }

    /** Fill the emptied entity lists with the given numbers of apples and
        obstacles, the player standing at the start position. */
    method Populate(counts: LevelConfig, draws: seq<real>) returns (rest: seq<real>)
      requires Valid() && apples == [] && obstacles == [] && player.x == SPAWN_X
      modifies this`apples, this`obstacles
      ensures Valid()
      ensures var layout := LayoutFor(counts, draws);
        apples == layout.apples && obstacles == layout.obstacles && rest == layout.rest
    {
      rest := GenerateApples(counts.apples, draws);
      rest := GenerateObstacles(counts.obstacles, rest);
      assert apples == LayoutFor(counts, draws).apples && obstacles == LayoutFor(counts, draws).obstacles;
    }

    /** Set up a level: the player back at the start, then the level's apples,
        then its obstacles, each list built afresh. */
    method InitLevel(lvl: int, draws: seq<real>) returns (rest: seq<real>)
      requires Valid()
      modifies this`player, this`apples, this`obstacles
      ensures Valid()
      ensures player == SPAWN
      ensures var layout := LevelLayout(lvl, draws);
        apples == layout.apples && obstacles == layout.obstacles && rest == layout.rest
    {
      player := player.(x := SPAWN_X, y := GROUND_Y, speedX := 0.0, speedY := 0.0, jumping := false);
      apples := [];
      obstacles := [];
      rest := Populate(LevelCounts(lvl), draws);
    }

    /** The start button: run, unpaused and not over. Counters and entities are kept. */
    method StartGame()
      requires Valid()
      modifies this`isRunning, this`isPaused, this`gameOver
      ensures Valid()
      ensures isRunning && !isPaused && !gameOver
    {
      isRunning := true;
      isPaused := false;
      gameOver := false;
    }

    /** The pause button toggles pausing, and does nothing when the game is not running. */
    method PauseGame()
      requires Valid()
      modifies this`isPaused
      ensures Valid()
      ensures isPaused == (if old(isRunning) then !old(isPaused) else old(isPaused))
    {
      if isRunning {
        isPaused := !isPaused;
      }
    }

    /** The reset and restart buttons: a fresh session at level 1, stopped. */
    method ResetGame(draws: seq<real>) returns (rest: seq<real>)
      requires Valid()
      modifies this
      ensures Valid()
      ensures !isRunning && !isPaused && !gameOver
      ensures score == 0 && lives == START_LIVES && level == 1
      ensures player == SPAWN
      ensures var layout := LevelLayout(1, draws);
        apples == layout.apples && obstacles == layout.obstacles && rest == layout.rest
    {
      isRunning := false;
      isPaused := false;
      score := 0;
      lives := START_LIVES;
      level := 1;
      gameOver := false;

      rest := InitLevel(level, draws);
    }

    /** The next-level button: one level up, stopped, score and lives kept. */
    method NextLevel(draws: seq<real>) returns (rest: seq<real>)
      requires Valid()
      modifies this
      ensures Valid()
      ensures level == old(level) + 1 && score == old(score) && lives == old(lives)
      ensures !isRunning && !isPaused && !gameOver
      ensures player == SPAWN
      ensures var layout := LevelLayout(level, draws);
        apples == layout.apples && obstacles == layout.obstacles && rest == layout.rest
    {
      level := level + 1;
      isRunning := false;
      isPaused := false;
      gameOver := false;

      rest := InitLevel(level, draws);
    }

    /** The replay button: the same level afresh, stopped, score and lives kept. */
    method ReplayLevel(draws: seq<real>) returns (rest: seq<real>)
      requires Valid()
      modifies this
      ensures Valid()
      ensures level == old(level) && score == old(score) && lives == old(lives)
      ensures !isRunning && !isPaused && !gameOver
      ensures player == SPAWN
      ensures var layout := LevelLayout(level, draws);
        apples == layout.apples && obstacles == layout.obstacles && rest == layout.rest
    {
      isRunning := false;
      isPaused := false;
      gameOver := false;

      rest := InitLevel(level, draws);
    }
  }

  /** Page load: the initial record, then the first level built with the
      current level number. */
  method NewGame(draws: seq<real>) returns (g: Game, rest: seq<real>)
    ensures fresh(g) && g.Valid()
    ensures !g.isRunning && !g.isPaused && !g.gameOver
    ensures g.score == 0 && g.lives == START_LIVES && g.level == 1 && g.player == SPAWN
    ensures var layout := LevelLayout(1, draws);
      g.apples == layout.apples && g.obstacles == layout.obstacles && rest == layout.rest
  {
    g := new Game();
    rest := g.InitLevel(g.level, draws);
  }

  /** The start button clears gameOver but leaves lives as they are, so a game
      that ended with no lives left, started again, can lose one more on the
      next grounded hit: lives go below zero. */
  method LivesCanGoBelowZero(g: Game)
    requires g.Valid() && g.gameOver && g.lives == 0
    requires HitsAnyObstacle(Step(g.player, false, false), g.obstacles)
    modifies g
    ensures g.lives == -1 && g.gameOver && !g.isRunning
  {
    g.StartGame();
    g.Tick(false, false);
  }
}
