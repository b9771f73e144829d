/** The game state and the per-tick simulation loop, with the start, end and
    input transitions around it. */
module Simulation {
  import opened Geometry
  import opened Difficulty
  import opened DayNight
  import Player
  import Obstacles
  import Decor

  const MAX_CLOUDS: nat := 3

  /** On the first tick after a start, the obstacle spawned at frame 0 is
      moved once and kept: it is neither culled nor hit, whatever the dino's
      height, as long as the field is wide enough for it to start clear of the
      dino (the dino's right edge is at 130, the first move is 6). */
  lemma FirstTickKeepsItsObstacle(b: Player.Body, fieldWidth: real, d: Obstacles.Draws)
    requires fieldWidth >= Player.DINO_X + Player.DINO_WIDTH + BASE_SPEED
    ensures var first := Obstacles.NewObstacle(0, fieldWidth, d);
            Obstacles.Sweep(Player.Bounds(b), [first], BASE_SPEED)
            == Obstacles.SweepResult([Obstacles.Advanced(first, BASE_SPEED)], 0, false)
  {
    var first := Obstacles.NewObstacle(0, fieldWidth, d);
    assert [first][1..] == [];
  }

  /** The whole simulation: the globals of the game plus the dino, the ground
      and the fixed pool of clouds. */
  class Game {
    /** `canvas.width`, the right edge of the field. */
    const fieldWidth: real
    const dino: Player.Dino
    const ground: Decor.Ground
    const clouds: array<Decor.Cloud>

    var running: bool
    var speed: real
    var score: nat
    var frameCount: nat
    var dayCycle: nat
    var obstacles: seq<Obstacles.Obstacle>
    /** Whether the start / game-over overlay carries its `hidden` class. */
    var overlayHidden: bool

    ghost predicate Valid()
      reads this, dino, ground, clouds
    {
      && fieldWidth > 0.0
      && clouds.Length == MAX_CLOUDS
      && Player.Reachable(dino.State())
      && Decor.GROUND_RESET_X < ground.x <= 0.0
      && speed >= BASE_SPEED
      && (running ==> speed == Speed(score))
      && dayCycle <= 1
      && (forall o :: o in obstacles ==> !Obstacles.OffScreen(o))
      && (forall k :: 0 <= k < clouds.Length ==> Decor.OnScreen(clouds[k]))
    }

    /** The obstacles the loop of a tick starting now will see: the current
        ones, plus a new one when the frame count is a multiple of the spawn
        interval. */
    ghost function Incoming(spawnDraws: Obstacles.Draws): (r: seq<Obstacles.Obstacle>)
      reads this
      ensures obstacles <= r && |r| <= |obstacles| + 1
      ensures frameCount == 0 ==> r == obstacles + [Obstacles.NewObstacle(score, fieldWidth, spawnDraws)]
      ensures |r| == |obstacles| + 1 ==> r[|obstacles|].x == fieldWidth
    {
      var interval := SpawnInterval(score);
      assert frameCount == 0 ==> frameCount % interval == 0;
      if frameCount % interval == 0 then obstacles + [Obstacles.NewObstacle(score, fieldWidth, spawnDraws)]
      else obstacles
    }

    /** The state after the obstacle loop and the rest of a tick ran over
        `incoming`, starting from the given score, speed, frame count and
        overlay state, with the dino where it is now. */
    ghost predicate AfterSweep(incoming: seq<Obstacles.Obstacle>, score0: nat, speed0: real,
                               frame0: nat, hidden0: bool)
      reads this, dino
    {
      var r := Obstacles.Sweep(Player.Bounds(dino.State()), incoming, speed0);
      && obstacles == r.remaining
      && score == score0 + r.removed
      && running == !r.collided
      && overlayHidden == (hidden0 && !r.collided)
      && speed == (if r.collided then speed0 else Speed(score))
      && frameCount == (if r.collided then frame0 else frame0 + 1)
    }

    /** The state right after `startGame`: counters reset, then one tick run
        from the old dino, ground and clouds. */
    ghost predicate Started(dino0: Player.Body, ground0: real, clouds0: seq<Decor.Cloud>,
                            spawnDraws: Obstacles.Draws, cloudYDraws: seq<real>)
      requires clouds.Length == |clouds0| == |cloudYDraws|
      reads this, dino, ground, clouds
    {
      && dayCycle == 0
      && speed == BASE_SPEED
      && overlayHidden == running
      && dino.State() == Player.Stepped(dino0)
      && ground.x == Decor.Scrolled(ground0, BASE_SPEED)
      && (forall k :: 0 <= k < clouds.Length ==> clouds[k] == Decor.Drifted(clouds0[k], fieldWidth, cloudYDraws[k]))
      && AfterSweep([Obstacles.NewObstacle(0, fieldWidth, spawnDraws)], 0, BASE_SPEED, 0, true)
    }

    /** The page's initial state: the dino at rest, the ground at 0, the clouds
        spread evenly across the field, the game stopped with the overlay shown. */
    constructor (fieldWidth: real, cloudYDraws: seq<real>, cloudSpeedDraws: seq<real>)
      requires fieldWidth > 0.0
      requires |cloudYDraws| == MAX_CLOUDS && |cloudSpeedDraws| == MAX_CLOUDS
      ensures Valid() && fresh(dino) && fresh(ground) && fresh(clouds)
      ensures this.fieldWidth == fieldWidth
      ensures !running && !overlayHidden && speed == BASE_SPEED && score == 0
      ensures frameCount == 0 && dayCycle == 0 && obstacles == []
      ensures dino.State() == Player.RESTING && ground.x == 0.0
      ensures forall k :: 0 <= k < MAX_CLOUDS ==>
                clouds[k] == Decor.NewCloud(fieldWidth, cloudYDraws[k], cloudSpeedDraws[k])
                               .(x := fieldWidth / MAX_CLOUDS as real * k as real)
    {
      var pool := new Decor.Cloud[MAX_CLOUDS];
      for i := 0 to MAX_CLOUDS
        invariant forall k :: 0 <= k < i ==>
                    pool[k] == Decor.NewCloud(fieldWidth, cloudYDraws[k], cloudSpeedDraws[k])
                                 .(x := fieldWidth / MAX_CLOUDS as real * k as real)
      {
        var cloud := Decor.NewCloud(fieldWidth, cloudYDraws[i], cloudSpeedDraws[i]);
        cloud := cloud.(x := fieldWidth / MAX_CLOUDS as real * i as real);
        pool[i] := cloud;
      }
      this.fieldWidth := fieldWidth;
      clouds := pool;
      dino := new Player.Dino();
      ground := new Decor.Ground();
      running := false;
      speed := BASE_SPEED;
      score := 0;
      frameCount := 0;
      dayCycle := 0;
      obstacles := [];
      overlayHidden := false;
    }

    /** `updateDayNightCycle`. */
    method UpdateDayNightCycle()
      modifies this`dayCycle
      ensures dayCycle == DayCycle(score)
    {
      var newCycle := DayCycle(score);
      if newCycle != dayCycle {
        dayCycle := newCycle;
      }
    }

    /** The cloud loop of `gameLoop`: every cloud of the pool, in place. */
    method DriftClouds(yDraws: seq<real>)
      requires |yDraws| == clouds.Length
      modifies clouds
      ensures forall k :: 0 <= k < clouds.Length ==>
                clouds[k] == Decor.Drifted(old(clouds[k]), fieldWidth, yDraws[k])
    {
      for i := 0 to clouds.Length
        invariant forall k :: 0 <= k < i ==>
                    clouds[k] == Decor.Drifted(old(clouds[k]), fieldWidth, yDraws[k])
        invariant forall k :: i <= k < clouds.Length ==> clouds[k] == old(clouds[k])
      {
        var cloud := clouds[i];
        cloud := cloud.(x := cloud.x - cloud.speed);
        if cloud.x + Decor.CLOUD_WIDTH < 0.0 {
          cloud := cloud.(x := fieldWidth, y := 30.0 + yDraws[i] * 70.0);
        }
        clouds[i] := cloud;
      }
    }

    /** `endGame`: stop the loop and show the overlay with the final score. */
    method EndGame()
      modifies this`running, this`overlayHidden
      ensures !running && !overlayHidden
    {
      running := false;
      overlayHidden := false;
    }

    /** The obstacle loop of `gameLoop`: move each obstacle, end the game at
        the first collision, and remove off-screen obstacles in place, counting
        each one, with the index stepped back so the obstacle shifted into the
        freed slot is visited next. */
    method AdvanceObstacles(player: Rect) returns (collided: bool)
      requires running
      modifies this
      ensures var r := Obstacles.Sweep(player, old(obstacles), speed);
              && obstacles == r.remaining
              && score == old(score) + r.removed
              && collided == r.collided
      ensures running == !collided && overlayHidden == (old(overlayHidden) && !collided)
      ensures speed == old(speed) && frameCount == old(frameCount) && dayCycle == old(dayCycle)
    {
      var remaining, removed;
      remaining, removed, collided := Obstacles.SweepLoop(player, obstacles, speed);
      obstacles := remaining;
      score := score + removed;
      if collided {
        EndGame();
      }
    }

    /** The part of `gameLoop` before the obstacles: the day/night mode, the
        clouds, the ground and the dino, each updated in place. */
    method MoveActors(cloudYDraws: seq<real>)
      requires Valid() && |cloudYDraws| == MAX_CLOUDS
      modifies this`dayCycle, dino, ground, clouds
      ensures Valid()
      ensures dayCycle == DayCycle(score)
      ensures forall k :: 0 <= k < MAX_CLOUDS ==>
                clouds[k] == Decor.Drifted(old(clouds[k]), fieldWidth, cloudYDraws[k])
      ensures ground.x == Decor.Scrolled(old(ground.x), speed)
      ensures dino.State() == Player.Stepped(old(dino.State()))
    {
      UpdateDayNightCycle();
      DriftClouds(cloudYDraws);
      Decor.ScrollStaysInBand(ground.x, speed);
      ground.Update(speed);
      Player.StepPreservesReachable(dino.State());
      dino.Update();
    }

    /** `gameLoop`: one tick of the simulation; nothing happens unless the
        game is running. The obstacles move by the speed left by the previous
        tick, and the speed and frame count are updated only if no obstacle
        hit the dino. */
    method Tick(spawnDraws: Obstacles.Draws, cloudYDraws: seq<real>)
      requires Valid() && |cloudYDraws| == MAX_CLOUDS
      modifies this, dino, ground, clouds
      ensures Valid()
      ensures !old(running) ==> unchanged(this, dino, ground, clouds)
      ensures old(running) ==> dayCycle == DayCycle(old(score))
      ensures old(running) ==> forall k :: 0 <= k < MAX_CLOUDS ==>
                clouds[k] == Decor.Drifted(old(clouds[k]), fieldWidth, cloudYDraws[k])
      ensures old(running) ==> ground.x == Decor.Scrolled(old(ground.x), old(speed))
      ensures old(running) ==> dino.State() == Player.Stepped(old(dino.State()))
      ensures old(running) ==> AfterSweep(old(Incoming(spawnDraws)), old(score), old(speed),
                                          old(frameCount), old(overlayHidden))
    {
      if !running {
        return;
      }
      ghost var incoming := Incoming(spawnDraws);
      MoveActors(cloudYDraws);
      var interval := SpawnInterval(score);
      if frameCount % interval == 0 {
        obstacles := obstacles + [Obstacles.NewObstacle(score, fieldWidth, spawnDraws)];
      }
      assert obstacles == incoming;
      var player := Player.Bounds(dino.State());
      Obstacles.SweepLeavesNoneOffScreen(player, obstacles, speed);
      var collided := AdvanceObstacles(player);
      if collided {
        return;
      }
      speed := Speed(score);
      frameCount := frameCount + 1;
    }

    /** `startGame`: hide the overlay, reset the counters and the obstacles,
        and run one tick at once. The dino, the ground and the clouds are not
        reset. Because the frame count is 0, that tick spawns an obstacle. */
    method StartGame(spawnDraws: Obstacles.Draws, cloudYDraws: seq<real>)
      requires Valid() && |cloudYDraws| == MAX_CLOUDS
      modifies this, dino, ground, clouds
      ensures Valid()
      ensures Started(old(dino.State()), old(ground.x), old(clouds[..]), spawnDraws, cloudYDraws)
      ensures fieldWidth >= Player.DINO_X + Player.DINO_WIDTH + BASE_SPEED ==>
                running && |obstacles| == 1 && score == 0 && frameCount == 1
    {
      overlayHidden := true;
      running := true;
      speed := BASE_SPEED;
      score := 0;
      frameCount := 0;
      dayCycle := 0;
      obstacles := [];
      assert Incoming(spawnDraws) == [Obstacles.NewObstacle(0, fieldWidth, spawnDraws)];
      Tick(spawnDraws, cloudYDraws);
      if fieldWidth >= Player.DINO_X + Player.DINO_WIDTH + BASE_SPEED {
        FirstTickKeepsItsObstacle(dino.State(), fieldWidth, spawnDraws);
      }
    }

    /** The space-key and canvas-click handlers: start the game when it is
        stopped with the overlay showing, otherwise jump. */
    method Press(spawnDraws: Obstacles.Draws, cloudYDraws: seq<real>)
      requires Valid() && |cloudYDraws| == MAX_CLOUDS
      modifies this, dino, ground, clouds
      ensures Valid()
      ensures old(!running && !overlayHidden) ==>
                Started(old(dino.State()), old(ground.x), old(clouds[..]), spawnDraws, cloudYDraws)
      ensures old(running || overlayHidden) ==>
                dino.State() == Player.Jumped(old(dino.State())) && unchanged(this, ground, clouds)
    {
      if !running && !overlayHidden {
        StartGame(spawnDraws, cloudYDraws);
      } else {
        Player.JumpPreservesReachable(dino.State());
        dino.Jump();
      }
    }
  }
}
