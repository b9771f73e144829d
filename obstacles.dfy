/** Obstacles: creation at the right edge of the field, leftward movement,
    and the specification of one pass of the per-tick obstacle loop. */
module Obstacles {
  import opened Geometry
  import Player

  /** Score from which flying obstacles may appear. */
  const FLYING_MIN_SCORE: nat := 30

  datatype Obstacle = Obstacle(x: real, y: real, width: real, height: real, isFlying: bool)

  /** The four `Math.random()` draws an obstacle's constructor may use, in
      the order it uses them: flying or not, width, height, altitude. */
  datatype Draws = Draws(kind: real, width: real, height: real, altitude: real)

  function Bounds(o: Obstacle): Rect
  {
    Rect(o.x, o.y, o.width, o.height)
  }

  /** The `Obstacle` constructor, with its random draws passed in. */
  function NewObstacle(score: nat, fieldWidth: real, d: Draws): (o: Obstacle)
    ensures o.x == fieldWidth
    ensures o.isFlying <==> score >= FLYING_MIN_SCORE && d.kind > 0.7
    ensures !o.isFlying ==> && (o.width == 15.0 || o.width == 25.0)
                            && (o.height == 30.0 || o.height == 40.0)
                            && o.y + o.height == GROUND_Y
    ensures o.isFlying ==> && (o.width == 20.0 || o.width == 30.0)
                           && (o.height == 25.0 || o.height == 35.0)
    ensures o.isFlying && 0.0 <= d.altitude < 1.0 ==> 130.0 <= o.y + o.height < 170.0
  {
    if score >= FLYING_MIN_SCORE && d.kind > 0.7 then
      var h := if d.height > 0.5 then 25.0 else 35.0;
      Obstacle(fieldWidth, GROUND_Y - 120.0 - h + d.altitude * 40.0,
               if d.width > 0.5 then 20.0 else 30.0, h, true)
    else
      var h := if d.height > 0.5 then 30.0 else 40.0;
      Obstacle(fieldWidth, GROUND_Y - h, if d.width > 0.5 then 15.0 else 25.0, h, false)
  }

  /** `Obstacle.update()`: move left by the current speed. */
  function Advanced(o: Obstacle, speed: real): (r: Obstacle)
    ensures r.x + speed == o.x
    ensures r.(x := o.x) == o
  {
    o.(x := o.x - speed)
  }

  /** The right edge has passed the left edge of the field. */
  predicate OffScreen(o: Obstacle)
    ensures OffScreen(o) && o.width >= 0.0 ==> o.x < 0.0
  {
    o.x + o.width < 0.0
  }

  /** Every obstacle moved once. */
  function AdvancedAll(os: seq<Obstacle>, speed: real): (r: seq<Obstacle>)
    ensures |r| == |os|
    ensures forall k :: 0 <= k < |os| ==> r[k] == Advanced(os[k], speed)
  {
    if os == [] then [] else [Advanced(os[0], speed)] + AdvancedAll(os[1..], speed)
  }

  /** The obstacles that are not off-screen, in their original order. */
  function Survivors(os: seq<Obstacle>): (r: seq<Obstacle>)
    ensures |r| <= |os|
    ensures forall o :: o in r ==> o in os && !OffScreen(o)
  {
    if os == [] then []
    else if OffScreen(os[0]) then Survivors(os[1..])
    else [os[0]] + Survivors(os[1..])
  }

  lemma {:induction false} SurvivorsKeepEveryVisible(os: seq<Obstacle>, o: Obstacle)
    requires o in os && !OffScreen(o)
    ensures o in Survivors(os)
  {
    if os[0] != o {
      SurvivorsKeepEveryVisible(os[1..], o);
    }
  }

  /** The outcome of one pass of the obstacle loop. */
  datatype SweepResult = SweepResult(remaining: seq<Obstacle>, removed: nat, collided: bool)

  /** `player` hits obstacle o once o has moved. */
  predicate Hits(player: Rect, o: Obstacle, speed: real)
  {
    IsColliding(player, Bounds(Advanced(o, speed)))
  }

  /** One pass of the obstacle loop, front to back: move the obstacle; stop
      at the first one that hits the player, leaving the rest unmoved;
      otherwise drop it, counting it, if it is off-screen. */
  function Sweep(player: Rect, os: seq<Obstacle>, speed: real): (r: SweepResult)
    ensures |r.remaining| + r.removed == |os|
  {
    if os == [] then SweepResult([], 0, false)
    else
      var moved := Advanced(os[0], speed);
      if IsColliding(player, Bounds(moved)) then SweepResult([moved] + os[1..], 0, true)
      else
        var rest := Sweep(player, os[1..], speed);
        if OffScreen(moved) then rest.(removed := rest.removed + 1)
        else rest.(remaining := [moved] + rest.remaining)
  }

  /** The outcome of a pass that has already kept `kept` and removed
      `removed` obstacles, and continues with the pass `r` over the rest. */
  function Resume(kept: seq<Obstacle>, removed: nat, r: SweepResult): SweepResult
  {
    SweepResult(kept + r.remaining, removed + r.removed, r.collided)
  }

  /** Stepping a resumed pass over the next obstacle when, moved, it hits
      the player: the pass ends there, with the later ones left unmoved. */
  lemma ResumeHit(player: Rect, rest: seq<Obstacle>, speed: real, kept: seq<Obstacle>, removed: nat)
    requires rest != [] && Hits(player, rest[0], speed)
    ensures Resume(kept, removed, Sweep(player, rest, speed))
            == SweepResult(kept + [Advanced(rest[0], speed)] + rest[1..], removed, true)
  {
  }

  /** Stepping a resumed pass over the next obstacle when, moved, it is
      off-screen: it is dropped and counted. */
  lemma ResumeDrop(player: Rect, rest: seq<Obstacle>, speed: real, kept: seq<Obstacle>, removed: nat)
    requires rest != [] && !Hits(player, rest[0], speed) && OffScreen(Advanced(rest[0], speed))
    ensures Resume(kept, removed, Sweep(player, rest, speed))
            == Resume(kept, removed + 1, Sweep(player, rest[1..], speed))
  {
  }

  /** Stepping a resumed pass over the next obstacle when, moved, it stays:
      it joins the kept ones. */
  lemma ResumeKeep(player: Rect, rest: seq<Obstacle>, speed: real, kept: seq<Obstacle>, removed: nat)
    requires rest != [] && !Hits(player, rest[0], speed) && !OffScreen(Advanced(rest[0], speed))
    ensures Resume(kept, removed, Sweep(player, rest, speed))
            == Resume(kept + [Advanced(rest[0], speed)], removed, Sweep(player, rest[1..], speed))
  {
    var r := Sweep(player, rest[1..], speed);
    assert kept + ([Advanced(rest[0], speed)] + r.remaining) == (kept + [Advanced(rest[0], speed)]) + r.remaining;
  }

  /** Overwriting the element just after a prefix. */
  lemma ReplaceHead<T>(prefix: seq<T>, rest: seq<T>, y: T)
    requires rest != []
    ensures (prefix + rest)[|prefix| := y] == prefix + [y] + rest[1..]
  {
  }

  /** Splicing out the element just after a prefix. */
  lemma RemoveAt<T>(prefix: seq<T>, y: T, rest: seq<T>)
    ensures var s := prefix + [y] + rest; s[..|prefix|] + s[|prefix| + 1..] == prefix + rest
  {
    var s := prefix + [y] + rest;
    assert s[..|prefix|] == prefix;
    assert s[|prefix| + 1..] == rest;
  }

  /** The obstacle loop of `gameLoop` over the list `os`: move each obstacle,
      stop at the first one that hits the player, and splice off-screen ones
      out of the list in place, counting them, stepping the index back so that
      the obstacle shifted into the freed slot is visited next. */
  method SweepLoop(player: Rect, os: seq<Obstacle>, speed: real)
    returns (list: seq<Obstacle>, removed: nat, collided: bool)
    ensures SweepResult(list, removed, collided) == Sweep(player, os, speed)
  {
    ghost var target := Sweep(player, os, speed);
    ghost var kept: seq<Obstacle> := [];
    ghost var rest := os;
    list, removed, collided := os, 0, false;
    var i: int := 0;
    while i < |list|
      invariant 0 <= i == |kept|
      invariant list == kept + rest
      invariant target == Resume(kept, removed, Sweep(player, rest, speed))
      decreases |list| - i
    {
      ReplaceHead(kept, rest, Advanced(rest[0], speed));
      var obs := Advanced(list[i], speed);
      list := list[i := obs];
      if IsColliding(player, Bounds(obs)) {
        ResumeHit(player, rest, speed, kept, removed);
        collided := true;
        return;
      }
      if OffScreen(obs) {
        RemoveAt(kept, obs, rest[1..]);
        list := list[..i] + list[i + 1..];
        ResumeDrop(player, rest, speed, kept, removed);
        removed := removed + 1;
        i := i - 1;
      } else {
        ResumeKeep(player, rest, speed, kept, removed);
        kept := kept + [obs];
      }
      rest := rest[1..];
      i := i + 1;
    }
  }

  /** The pass ends in a collision exactly when some obstacle hits the player. */
  lemma {:induction false} SweepCollidesIffSomeHit(player: Rect, os: seq<Obstacle>, speed: real)
    ensures Sweep(player, os, speed).collided <==> exists k :: 0 <= k < |os| && Hits(player, os[k], speed)
  {
    if os != [] && !Hits(player, os[0], speed) {
      SweepCollidesIffSomeHit(player, os[1..], speed);
      if exists k :: 0 <= k < |os| && Hits(player, os[k], speed) {
        var k :| 0 <= k < |os| && Hits(player, os[k], speed);
        assert Hits(player, os[1..][k - 1], speed);
      }
    }
  }

  /** Without a hit, every obstacle is moved exactly once, exactly the moved
      ones that are off-screen are removed, the others keep their order, and
      the count of removals is the drop in length. */
  lemma {:induction false} SweepWithoutHit(player: Rect, os: seq<Obstacle>, speed: real)
    requires forall k :: 0 <= k < |os| ==> !Hits(player, os[k], speed)
    ensures Sweep(player, os, speed)
            == SweepResult(Survivors(AdvancedAll(os, speed)),
                           |os| - |Survivors(AdvancedAll(os, speed))|, false)
  {
    if os != [] {
      assert forall k :: 0 <= k < |os[1..]| ==> !Hits(player, os[1..][k], speed) by {
        forall k | 0 <= k < |os[1..]| ensures !Hits(player, os[1..][k], speed) {
          assert os[1..][k] == os[k + 1];
        }
      }
      SweepWithoutHit(player, os[1..], speed);
      assert AdvancedAll(os, speed) == [Advanced(os[0], speed)] + AdvancedAll(os[1..], speed);
      assert AdvancedAll(os, speed)[1..] == AdvancedAll(os[1..], speed);
    }
  }

  /** At the first obstacle k that hits the player the pass stops: the
      obstacles before k are moved and culled as without a hit, obstacle k is
      moved and kept, and the obstacles after k are left untouched. */
  lemma {:induction false} SweepStopsAtFirstHit(player: Rect, before: seq<Obstacle>, h: Obstacle,
                                                 after: seq<Obstacle>, speed: real)
    requires forall o :: o in before ==> !Hits(player, o, speed)
    requires Hits(player, h, speed)
    ensures var passed := Survivors(AdvancedAll(before, speed));
            Sweep(player, before + ([h] + after), speed)
            == SweepResult(passed + ([Advanced(h, speed)] + after), |before| - |passed|, true)
  {
    var os := before + ([h] + after);
    var stop := [Advanced(h, speed)] + after;
    if before == [] {
      assert os == [h] + after;
      assert os[1..] == after;
    } else {
      SplitHead(before, [h] + after);
      assert before[0] in before;
      assert forall o :: o in before[1..] ==> o in before;
      SweepStopsAtFirstHit(player, before[1..], h, after, speed);
      PassedHead(before, speed);
      var moved := Advanced(before[0], speed);
      var rest := Survivors(AdvancedAll(before[1..], speed));
      var r := Sweep(player, os[1..], speed);
      assert r == SweepResult(rest + stop, |before| - 1 - |rest|, true);
      if OffScreen(moved) {
        assert Sweep(player, os, speed) == r.(removed := r.removed + 1);
      } else {
        assert Sweep(player, os, speed) == r.(remaining := [moved] + r.remaining);
        ConsAppend(moved, rest, stop);
      }
    }
  }

  /** Splitting a concatenation at its head. */
  lemma SplitHead<T>(a: seq<T>, b: seq<T>)
    requires a != []
    ensures (a + b)[0] == a[0] && (a + b)[1..] == a[1..] + b
  {
  }

  /** Moving and culling a non-empty list, split at its head. */
  lemma PassedHead(os: seq<Obstacle>, speed: real)
    requires os != []
    ensures var moved := Advanced(os[0], speed);
            var rest := Survivors(AdvancedAll(os[1..], speed));
            Survivors(AdvancedAll(os, speed)) == if OffScreen(moved) then rest else [moved] + rest
  {
    var moves := AdvancedAll(os, speed);
    assert moves[1..] == AdvancedAll(os[1..], speed);
  }

  lemma ConsAppend<T>(x: T, a: seq<T>, b: seq<T>)
    ensures [x] + (a + b) == [x] + a + b
  {
  }

  /** A pass never leaves an off-screen obstacle behind, provided none was
      off-screen before it and the player is right of the field's left edge. */
  lemma {:induction false} SweepLeavesNoneOffScreen(player: Rect, os: seq<Obstacle>, speed: real)
    requires player.x >= 0.0
    requires forall o :: o in os ==> !OffScreen(o)
    ensures forall o :: o in Sweep(player, os, speed).remaining ==> !OffScreen(o)
  {
    if os != [] {
      var moved := Advanced(os[0], speed);
      if !IsColliding(player, Bounds(moved)) {
        assert forall o :: o in os[1..] ==> o in os;
        SweepLeavesNoneOffScreen(player, os[1..], speed);
      } else {
        assert forall o :: o in os[1..] ==> o in os;
      }
    }
  }

  /** A flying obstacle passes over a dino standing on the ground, wherever
      it is along the field. */
  lemma FlyingObstacleClearsStandingDino(score: nat, fieldWidth: real, d: Draws, shift: real)
    requires 0.0 <= d.altitude < 1.0
    requires NewObstacle(score, fieldWidth, d).isFlying
    ensures !IsColliding(Player.Bounds(Player.RESTING), Bounds(Advanced(NewObstacle(score, fieldWidth, d), shift)))
  {
  }

  /** A ground obstacle that overlaps a standing dino horizontally hits it:
      standing still never avoids a ground obstacle. */
  lemma GroundObstacleHitsStandingDino(score: nat, fieldWidth: real, d: Draws, shift: real)
    requires !NewObstacle(score, fieldWidth, d).isFlying
    requires var o := Advanced(NewObstacle(score, fieldWidth, d), shift);
             o.x < Player.DINO_X + Player.DINO_WIDTH && Player.DINO_X < o.x + o.width
    ensures IsColliding(Player.Bounds(Player.RESTING), Bounds(Advanced(NewObstacle(score, fieldWidth, d), shift)))
  {
  }
}
