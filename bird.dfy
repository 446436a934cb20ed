/**
 * Bird: the player. It scrolls forward at a fixed speed, falls under
 * gravity while above the ground, never sinks below the ground (y = 0),
 * and a jump sets its upward speed outright. Its box follows its position
 * and its picture comes from a three-frame animation.
 */
module Birds {
  import opened Geometry
  import opened Animations

  const GRAVITY: int := -15
  const MOVEMENT: int := 100
  /** Vertical speed set by a jump. */
  const JUMP_VELOCITY: int := 250
  /** The bird's strip holds three frames, cycled every half second. */
  const FRAME_COUNT: int := 3
  const CYCLE_TIME: real := 0.5

  /** Position and velocity of the bird as one value. */
  datatype Motion = Motion(position: Vec3, velocity: Vec3)

  /** `(v * dt) * (1 / dt) == v` for `dt != 0`. */
  lemma ScaleUnscale(v: real, dt: real)
    requires dt != 0.0
    ensures (v * dt) * (1.0 / dt) == v
  {
    calc {
      (v * dt) * (1.0 / dt);
    ==
      v * (dt * (1.0 / dt));
    ==
      v * 1.0;
    }
  }

  /**
   * One `update(dt)` of the bird's motion, in the order of the original:
   * gravity is added to the velocity if the bird is above the ground; the
   * velocity is scaled by `dt`; the position moves by `MOVEMENT * dt`
   * horizontally and by the scaled vertical velocity; the height is clamped
   * at 0; the velocity is scaled back by `1 / dt`.
   */
  function Step(m: Motion, dt: real): (r: Motion)
    requires dt != 0.0
    ensures r.position.x == m.position.x + MOVEMENT as real * dt
    ensures r.position.z == m.position.z
    ensures r.velocity.x == m.velocity.x && r.velocity.z == m.velocity.z
    ensures r.velocity.y == m.velocity.y + (if m.position.y > 0.0 then GRAVITY as real else 0.0)
    ensures r.position.y >= 0.0
    ensures r.position.y == if m.position.y + r.velocity.y * dt < 0.0 then 0.0
                            else m.position.y + r.velocity.y * dt
  {
    var v1 := if m.position.y > 0.0 then m.velocity.Add(0.0, GRAVITY as real, 0.0) else m.velocity;
    var v2 := v1.Scl(dt);
    var p1 := m.position.Add(MOVEMENT as real * dt, v2.y, 0.0);
    var p2 := if p1.y < 0.0 then p1.(y := 0.0) else p1;
    ScaleUnscale(v1.x, dt);
    ScaleUnscale(v1.y, dt);
    ScaleUnscale(v1.z, dt);
    Motion(p2, v2.Scl(1.0 / dt))
  }

  /** Non-zero time steps. */
  predicate NonZero(dts: seq<real>)
  {
    forall i :: 0 <= i < |dts| ==> dts[i] != 0.0
  }

  /** A run of updates without jumps, one per `dts[i]`, in order. */
  function Flight(m: Motion, dts: seq<real>): (r: Motion)
    requires NonZero(dts)
    decreases |dts|
  {
    if dts == [] then m else Flight(Step(m, dts[0]), dts[1..])
  }

  /**
   * The forward scroll does not depend on anything else: after a run of
   * updates the bird has moved exactly `MOVEMENT` times the total time.
   */
  lemma {:induction false} FlightScrolls(m: Motion, dts: seq<real>)
    requires NonZero(dts)
    ensures Flight(m, dts).position.x == m.position.x + MOVEMENT as real * Sum(dts)
    decreases |dts|
  {
    if dts != [] {
      FlightScrolls(Step(m, dts[0]), dts[1..]);
    }
  }

  /**
   * Without jumps the vertical velocity never increases, and once at least
   * one update has run the bird is on or above the ground.
   */
  lemma {:induction false} FlightFallsAndStaysAboveGround(m: Motion, dts: seq<real>)
    requires NonZero(dts)
    ensures Flight(m, dts).velocity.y <= m.velocity.y
    ensures dts != [] ==> Flight(m, dts).position.y >= 0.0
    decreases |dts|
  {
    if dts != [] {
      var m' := Step(m, dts[0]);
      FlightFallsAndStaysAboveGround(m', dts[1..]);
      if dts[1..] == [] {
        assert Flight(m, dts) == m';
      }
    }
  }

  /**
   * While the bird stays airborne, gravity accumulates once per update:
   * after `k` updates that each begin above the ground, the vertical
   * velocity has dropped by exactly `k * 15`.
   */
  lemma {:induction false} AirborneVelocity(m: Motion, dts: seq<real>)
    requires NonZero(dts)
    requires forall k :: 0 <= k < |dts| ==> Flight(m, dts[..k]).position.y > 0.0
    ensures Flight(m, dts).velocity.y == m.velocity.y + |dts| as real * GRAVITY as real
    decreases |dts|
  {
    if dts != [] {
      assert dts[..0] == [];
      var m' := Step(m, dts[0]);
      var rest := dts[1..];
      forall k | 0 <= k < |rest|
        ensures Flight(m', rest[..k]).position.y > 0.0
      {
        assert dts[..k + 1][0] == dts[0] && dts[..k + 1][1..] == rest[..k];
        assert Flight(m, dts[..k + 1]) == Flight(m', rest[..k]);
      }
      AirborneVelocity(m', rest);
    }
  }

  class Bird {
    var position: Vec3
    var velocity: Vec3
    var bounds: Rect
    const texture: Texture
    const animation: Animation

    /**
     * The box sits at the bird's position with the size of one frame of
     * the strip; the animation runs three frames over the whole strip;
     * the bird moves in the x-y plane and has no horizontal velocity.
     */
    ghost predicate Valid()
      reads this, animation
    {
      animation.Valid() &&
      animation.frameCount == FRAME_COUNT &&
      animation.regionWidth == texture.width && animation.regionHeight == texture.height &&
      bounds == Rect(position.x, position.y, (texture.width / 3) as real, texture.height as real) &&
      position.z == 0.0 && velocity.x == 0.0 && velocity.z == 0.0
    }

    /** The bird at rest at `(x, y)`, drawn from `texture`. */
    constructor (x: int, y: int, texture: Texture)
      ensures Valid() && fresh(animation)
      ensures this.texture == texture
      ensures position == Vec3(x as real, y as real, 0.0)
      ensures velocity == Vec3(0.0, 0.0, 0.0)
      ensures bounds == Rect(x as real, y as real, (texture.width / 3) as real, texture.height as real)
      ensures animation.frame == 0 && animation.currentFrameTime == 0.0
      ensures animation.maxFrameTime == CYCLE_TIME / 3.0
    {
      position := Vec3(x as real, y as real, 0.0);
      velocity := Vec3(0.0, 0.0, 0.0);
      this.texture := texture;
      animation := new Animation(texture.width, texture.height, FRAME_COUNT, CYCLE_TIME);
      bounds := Rect(x as real, y as real, (texture.width / 3) as real, texture.height as real);
    }

    /** Position and velocity as one value. */
    function CurrentMotion(): (m: Motion)
      reads this
    {
      Motion(position, velocity)
    }

    /**
     * Advances the animation and the motion by `dt`, then moves the box
     * onto the new position.
     */
    method Update(dt: real)
      requires Valid()
      requires dt != 0.0
      modifies this, animation
      ensures Valid()
      ensures CurrentMotion() == Step(old(CurrentMotion()), dt)
      ensures position.x == old(position.x) + MOVEMENT as real * dt
      ensures position.y >= 0.0
      ensures velocity.y == old(velocity.y) + (if old(position.y) > 0.0 then GRAVITY as real else 0.0)
      ensures bounds.x == position.x && bounds.y == position.y
      ensures bounds.width == old(bounds.width) && bounds.height == old(bounds.height)
      ensures animation.Timer() == Tick(old(animation.Timer()), dt, animation.maxFrameTime, FRAME_COUNT)
    {
      animation.Update(dt);
      if position.y > 0.0 {
        velocity := velocity.Add(0.0, GRAVITY as real, 0.0);
      }
      velocity := velocity.Scl(dt);
      position := position.Add(MOVEMENT as real * dt, velocity.y, 0.0);
      if position.y < 0.0 {
        position := position.(y := 0.0);
      }
      velocity := velocity.Scl(1.0 / dt);
      bounds := bounds.SetPosition(position.x, position.y);
    }

    /** Sets the vertical velocity to the jump speed, whatever it was. */
    method Jump()
      requires Valid()
      modifies this
      ensures Valid()
      ensures velocity == old(velocity).(y := JUMP_VELOCITY as real)
      ensures position == old(position) && bounds == old(bounds)
    {
      velocity := velocity.(y := JUMP_VELOCITY as real);
    }

    /**
     * The picture to draw now: the animation's current frame, which is as
     * wide as the bird's box.
     */
    function GetTexture(): (r: Region)
      reads this, animation
      requires Valid()
      ensures r.width as real == bounds.width && r.height as real == bounds.height
      ensures r.x == animation.frame * (texture.width / 3)
    {
      animation.GetFrame()
    }
  }
}
