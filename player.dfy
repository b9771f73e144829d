/** The player character: vertical-only kinematics with gravity, a jump
    impulse and a clamp to the ground line. */
module Player {
  import opened Geometry

  const GRAVITY: real := 0.8
  const JUMP_VELOCITY: real := -13.0
  const DINO_X: real := 80.0
  const DINO_WIDTH: real := 50.0
  const DINO_HEIGHT: real := 60.0
  /** The y of a dino standing on the ground (190). */
  const REST_Y: real := GROUND_Y - DINO_HEIGHT
  /** The highest point (smallest y) of the jump parabola below. */
  const APEX_Y: real := 90.775

  /** The mutable vertical state of the dino. */
  datatype Body = Body(y: real, velocityY: real, isJumping: bool)

  /** Standing on the ground, at rest: the state the dino is created in. */
  const RESTING: Body := Body(REST_Y, 0.0, false)

  /** The dino's bounding box. */
  function Bounds(b: Body): Rect
  {
    Rect(DINO_X, b.y, DINO_WIDTH, DINO_HEIGHT)
  }

  /** The state after `jump()`: the impulse applies only on the ground. */
  function Jumped(b: Body): (r: Body)
    ensures r.isJumping && r.y == b.y
    ensures !b.isJumping ==> r.velocityY == JUMP_VELOCITY
    ensures b.isJumping ==> r.velocityY == b.velocityY
  {
    if !b.isJumping then b.(velocityY := JUMP_VELOCITY, isJumping := true) else b
  }

  /** The state after `update()`: gravity, integration, then the ground clamp. */
  function Stepped(b: Body): (r: Body)
    ensures r.y <= REST_Y
    ensures r.isJumping ==> b.isJumping
    ensures r.y == REST_Y <==> r == RESTING
  {
    var v := b.velocityY + GRAVITY;
    var y := b.y + v;
    if y >= GROUND_Y - DINO_HEIGHT then Body(GROUND_Y - DINO_HEIGHT, 0.0, false)
    else Body(y, v, b.isJumping)
  }

  /** The height on the jump arc at vertical velocity v. A jump starts at
      (REST_Y, JUMP_VELOCITY), which lies on this parabola, and every update
      while airborne stays on it. */
  function ArcY(v: real): real
  {
    APEX_Y + 0.625 * (v + 0.4) * (v + 0.4)
  }

  /** The state after n updates. */
  function StepsFrom(b: Body, n: nat): Body
  {
    if n == 0 then b else Stepped(StepsFrom(b, n - 1))
  }

  /** Height of a jump after k updates, while it is airborne. */
  function JumpHeight(k: nat): real
  {
    var x := k as real;
    REST_Y - 13.0 * x + 0.4 * x * (x + 1.0)
  }

  /** A jump from the ground stays airborne for 31 updates, following the
      closed form JumpHeight with velocity -13 + 0.8 k. */
  lemma {:induction false} JumpInFlight(k: nat)
    requires k <= 31
    ensures StepsFrom(Jumped(RESTING), k) == Body(JumpHeight(k), JUMP_VELOCITY + GRAVITY * k as real, true)
  {
    if k > 0 {
      JumpInFlight(k - 1);
      var x := k as real;
      assert (k - 1) as real == x - 1.0;
      var v := JUMP_VELOCITY + GRAVITY * (x - 1.0) + GRAVITY;
      assert v == JUMP_VELOCITY + GRAVITY * x;
      assert JumpHeight(k - 1) + v == JumpHeight(k);
      AirborneAboveGround(k);
      var prev := StepsFrom(Jumped(RESTING), k - 1);
      assert prev.y + (prev.velocityY + GRAVITY) == JumpHeight(k);
      assert StepsFrom(Jumped(RESTING), k) == Stepped(prev);
    }
  }

  /** Between the first and the 31st update the jump is above the ground. */
  lemma AirborneAboveGround(k: nat)
    requires 0 < k <= 31
    ensures JumpHeight(k) < REST_Y
  {
    var x := k as real;
    assert 1.0 <= x <= 31.0;
    RiseExceedsFall(x);
    var t := 0.4 * x * (x + 1.0);
    assert JumpHeight(k) == REST_Y - 13.0 * x + t;
  }

  /** Over x updates the 0.8-per-update gravity has not yet undone the
      13-unit impulse, for 1 <= x <= 31. */
  lemma RiseExceedsFall(x: real)
    requires 1.0 <= x <= 31.0
    ensures 0.4 * x * (x + 1.0) < 13.0 * x
  {
    assert 0.4 * (x + 1.0) < 13.0;
  }

  /** The 32nd update lands the dino, back at rest on the ground. */
  lemma JumpLandsAfterThirtyTwoUpdates()
    ensures StepsFrom(Jumped(RESTING), 32) == RESTING
  {
    JumpInFlight(31);
  }

  /** The highest point of a jump is y = 90.8, reached after 16 updates; it
      lies just below the vertex APEX_Y of the jump parabola, which the
      discrete updates never reach. */
  lemma {:induction false} JumpPeaksAtNinetyPointEight(k: nat)
    requires k <= 32
    ensures StepsFrom(Jumped(RESTING), k).y >= 90.8
    ensures StepsFrom(Jumped(RESTING), 16).y == 90.8 > APEX_Y
  {
    JumpInFlight(16);
    if k <= 31 {
      JumpInFlight(k);
      var d := k as real - 15.75;
      assert JumpHeight(k) - 90.8 == 0.4 * (d * d - 0.0625);
      if k <= 15 {
        var e := -d;
        assert e >= 0.75;
        assert e * e >= 0.75 * e >= 0.5625;
        assert d * d == e * e;
      } else {
        assert d >= 0.25;
        assert d * d >= 0.25 * d >= 0.0625;
      }
    } else {
      JumpLandsAfterThirtyTwoUpdates();
    }
  }

  /** The states the dino can be in: at rest on the ground, or airborne on the
      jump arc no lower than the ground. */
  ghost predicate Reachable(b: Body)
  {
    if b.isJumping then b.y == ArcY(b.velocityY) && b.y <= REST_Y else b == RESTING
  }

  lemma JumpIgnoredWhileJumping(b: Body)
    requires b.isJumping
    ensures Jumped(b) == b
  {
  }

  lemma JumpIsIdempotent(b: Body)
    ensures Jumped(Jumped(b)) == Jumped(b)
    ensures Jumped(b).isJumping
  {
  }

  /** After an update the dino is never below the ground line, and it is on
      the ground line exactly when the clamp fired, which zeroes the velocity
      and ends the jump. */
  lemma StepClampsToGround(b: Body)
    ensures Stepped(b).y <= REST_Y
    ensures Stepped(b).y == REST_Y <==> Stepped(b) == RESTING
    ensures Stepped(b) == RESTING <==> b.y + b.velocityY + GRAVITY >= REST_Y
  {
  }

  lemma RestingStaysResting()
    ensures Stepped(RESTING) == RESTING
  {
  }

  lemma {:induction false} JumpPreservesReachable(b: Body)
    requires Reachable(b)
    ensures Reachable(Jumped(b))
  {
    if !b.isJumping {
      assert ArcY(JUMP_VELOCITY) == REST_Y by {
        assert (JUMP_VELOCITY + 0.4) * (JUMP_VELOCITY + 0.4) == 158.76;
      }
    }
  }

  lemma {:induction false} StepPreservesReachable(b: Body)
    requires Reachable(b)
    ensures Reachable(Stepped(b))
  {
    var v := b.velocityY + GRAVITY;
    if b.isJumping && b.y + v < REST_Y {
      var u := b.velocityY + 0.4;
      assert (u + 0.8) * (u + 0.8) == u * u + 1.6 * u + 0.64;
      assert b.y + v == ArcY(v);
    }
  }

  /** Along every reachable state the dino stays between the apex of its jump
      and the ground line. */
  lemma {:induction false} ReachableIsBounded(b: Body)
    requires Reachable(b)
    ensures APEX_Y <= b.y <= REST_Y
  {
    if b.isJumping {
      var u := b.velocityY + 0.4;
      assert u * u >= 0.0;
    }
  }

  /** The player object; its fields are updated in place. */
  class Dino {
    var y: real
    var velocityY: real
    var isJumping: bool

    constructor ()
      ensures State() == RESTING
    {
      y := GROUND_Y - DINO_HEIGHT;
      velocityY := 0.0;
      isJumping := false;
    }

    function State(): Body
      reads this
    {
      Body(y, velocityY, isJumping)
    }

    method Jump()
      modifies this
      ensures State() == Jumped(old(State()))
    {
      if !isJumping {
        velocityY := JUMP_VELOCITY;
        isJumping := true;
      }
    }

    method Update()
      modifies this
      ensures State() == Stepped(old(State()))
    {
      velocityY := velocityY + GRAVITY;
      y := y + velocityY;
      if y >= GROUND_Y - DINO_HEIGHT {
        y := GROUND_Y - DINO_HEIGHT;
        velocityY := 0.0;
        isJumping := false;
      }
    }
  }
}
