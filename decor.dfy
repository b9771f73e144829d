/** Scrolling decor: the ground strip and the pool of clouds. Neither touches
    the score or the collision test. */
module Decor {

  /** The ground offset at which the strip jumps back to 0. */
  const GROUND_RESET_X: real := -50.0
  const CLOUD_WIDTH: real := 40.0
  const CLOUD_HEIGHT: real := 20.0

  /** The ground offset after one `Ground.update()` at the given speed. */
  function Scrolled(x: real, speed: real): (r: real)
    ensures GROUND_RESET_X < r
    ensures r == 0.0 || r == x - speed
  {
    if x - speed <= GROUND_RESET_X then 0.0 else x - speed
  }

  /** With a positive speed the offset stays in (-50, 0]. */
  lemma ScrollStaysInBand(x: real, speed: real)
    requires GROUND_RESET_X < x <= 0.0 && speed > 0.0
    ensures GROUND_RESET_X < Scrolled(x, speed) <= 0.0
    ensures Scrolled(x, speed) < x || Scrolled(x, speed) == 0.0
  {
  }

  /** The offset is reset to 0, not wrapped modulo 50: from -45 at speed 10
      it goes to 0, not to -5. */
  lemma ScrollResetsRatherThanWraps()
    ensures Scrolled(-45.0, 10.0) == 0.0
  {
  }

  /** The ground strip; its offset is updated in place. */
  class Ground {
    var x: real

    constructor ()
      ensures x == 0.0
    {
      x := 0.0;
    }

    method Update(speed: real)
      modifies this
      ensures x == Scrolled(old(x), speed)
    {
      x := x - speed;
      if x <= GROUND_RESET_X {
        x := 0.0;
      }
    }
  }

  datatype Cloud = Cloud(x: real, y: real, speed: real)

  /** The `Cloud` constructor, with its two random draws passed in. */
  function NewCloud(fieldWidth: real, yDraw: real, speedDraw: real): (c: Cloud)
    ensures c.x == fieldWidth
    ensures 0.0 <= yDraw < 1.0 ==> 30.0 <= c.y < 100.0
    ensures 0.0 <= speedDraw < 1.0 ==> 0.5 <= c.speed < 2.0
  {
    Cloud(fieldWidth, 30.0 + yDraw * 70.0, 0.5 + speedDraw * 1.5)
  }

  /** Some part of the cloud is right of the field's left edge. */
  predicate OnScreen(c: Cloud)
    ensures c.x >= 0.0 ==> OnScreen(c)
  {
    c.x + CLOUD_WIDTH >= 0.0
  }

  /** One step of the cloud loop: move left by the cloud's own speed and, once
      fully off the left edge, respawn at the right edge at a fresh height. */
  function Drifted(c: Cloud, fieldWidth: real, yDraw: real): (r: Cloud)
    ensures fieldWidth >= 0.0 ==> OnScreen(r)
    ensures r.speed == c.speed
    ensures OnScreen(c.(x := c.x - c.speed)) ==> r == c.(x := c.x - c.speed)
    ensures !OnScreen(c.(x := c.x - c.speed)) ==> r.x == fieldWidth
    ensures !OnScreen(c.(x := c.x - c.speed)) && 0.0 <= yDraw < 1.0 ==> 30.0 <= r.y < 100.0
  {
    var moved := c.(x := c.x - c.speed);
    if moved.x + CLOUD_WIDTH < 0.0 then moved.(x := fieldWidth, y := 30.0 + yDraw * 70.0)
    else moved
  }
}
