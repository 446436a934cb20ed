/**
 * Value types standing in for the libGDX math and graphics handles the
 * sprites use: Vector2, Vector3, Rectangle (all float) and a Texture, of
 * which only the pixel width and height matter to the simulation.
 * Floats are modelled as `real`. Also the total of a run of time steps,
 * which both the animation timer and the bird's motion are measured by.
 */
module Geometry {

  /** A loaded image; only its size in pixels is observable here. */
  datatype Texture = Texture(width: nat, height: nat)

  /** libGDX Vector2. */
  datatype Vec2 = Vec2(x: real, y: real)

  /** libGDX Vector3 (the sprites keep z at 0). */
  datatype Vec3 = Vec3(x: real, y: real, z: real)
  {
    /** Vector3.add(x, y, z): component-wise addition. */
    function Add(dx: real, dy: real, dz: real): Vec3
    {
      Vec3(x + dx, y + dy, z + dz)
    }

    /** Vector3.scl(s): every component multiplied by `s`. */
    function Scl(s: real): Vec3
    {
      Vec3(x * s, y * s, z * s)
    }
  }

  /** libGDX Rectangle: lower-left corner (x, y), then width and height. */
  datatype Rect = Rect(x: real, y: real, width: real, height: real)
  {
    /** Rectangle.setPosition(x, y): moves the corner, keeps the size. */
    function SetPosition(nx: real, ny: real): Rect
    {
      this.(x := nx, y := ny)
    }
  }

  /**
   * Rectangle.overlaps, taken as strict axis-aligned intersection: the two
   * open boxes share an interior point on both axes. Boxes that only touch
   * along an edge do not overlap.
   */
  predicate Overlaps(a: Rect, b: Rect)
  {
    a.x < b.x + b.width && a.x + a.width > b.x &&
    a.y < b.y + b.height && a.y + a.height > b.y
  }

  /**
   * Two boxes whose vertical extents are separated (one lies entirely
   * below the other) never overlap, whatever their horizontal positions.
   */
  lemma SeparatedVerticallyNoOverlap(a: Rect, b: Rect)
    requires a.y + a.height <= b.y || b.y + b.height <= a.y
    ensures !Overlaps(a, b)
  {
  }

  /** Sum of a sequence of time steps. */
  function Sum(dts: seq<real>): (total: real)
  {
    if dts == [] then 0.0 else dts[0] + Sum(dts[1..])
  }

  /** A sum of non-negative steps is non-negative. */
  lemma {:induction false} SumNonNegative(dts: seq<real>)
    requires forall i :: 0 <= i < |dts| ==> dts[i] >= 0.0
    ensures Sum(dts) >= 0.0
    decreases |dts|
  {
    if dts != [] {
      SumNonNegative(dts[1..]);
    }
  }
}
