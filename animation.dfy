/**
 * Animation: a horizontal sprite strip cut into `frameCount` equal frames,
 * and a timer that steps through them, one frame per `maxFrameTime`.
 */
module Animations {
  import opened Geometry

  /**
   * A sub-region of the sprite strip (libGDX TextureRegion), in integer
   * pixel offsets relative to the strip's own corner.
   */
  datatype Region = Region(x: int, y: int, width: int, height: int)

  /** The timer part of an animation: the current frame and the time spent on it. */
  datatype Clock = Clock(frame: int, elapsed: real)

  /**
   * Width of one frame: the strip width divided by the frame count in
   * Java `int` division. Both operands are non-negative here, so Dafny's
   * Euclidean division agrees with Java's truncating one.
   */
  function FrameWidth(regionWidth: nat, frameCount: nat): (w: nat)
    requires frameCount >= 1
    ensures w * frameCount <= regionWidth < (w + 1) * frameCount
  {
    regionWidth / frameCount
  }

  /** Frame `i` of the strip: offset `i * frameWidth`, full strip height. */
  function Slice(regionWidth: nat, regionHeight: nat, frameCount: nat): (frames: seq<Region>)
    requires frameCount >= 1
    ensures |frames| == frameCount
    ensures forall i :: 0 <= i < frameCount ==>
      frames[i].y == 0 && frames[i].width == FrameWidth(regionWidth, frameCount) && frames[i].height == regionHeight
  {
    var w := FrameWidth(regionWidth, frameCount);
    seq(frameCount, i => Region(i * w, 0, w, regionHeight))
  }

  /**
   * The frames tile the strip from its left edge: there are exactly
   * `frameCount` of them, all of the same width and of the strip's height,
   * each starts where the previous one ends, and the last ends inside the
   * strip.
   */
  lemma {:induction false} SliceTilesStrip(regionWidth: nat, regionHeight: nat, frameCount: nat)
    requires frameCount >= 1
    ensures |Slice(regionWidth, regionHeight, frameCount)| == frameCount
    ensures Slice(regionWidth, regionHeight, frameCount)[0].x == 0
    ensures forall i :: 0 <= i < frameCount ==>
      var f := Slice(regionWidth, regionHeight, frameCount)[i];
      f.y == 0 && f.width == FrameWidth(regionWidth, frameCount) && f.height == regionHeight &&
      0 <= f.x && f.x + f.width <= regionWidth
    ensures forall i :: 0 <= i < frameCount - 1 ==>
      Slice(regionWidth, regionHeight, frameCount)[i].x + Slice(regionWidth, regionHeight, frameCount)[i].width
        == Slice(regionWidth, regionHeight, frameCount)[i + 1].x
  {
    var frames := Slice(regionWidth, regionHeight, frameCount);
    var w := FrameWidth(regionWidth, frameCount);
    forall i | 0 <= i < frameCount
      ensures 0 <= frames[i].x && frames[i].x + frames[i].width <= regionWidth
    {
      MulMonotone(i + 1, frameCount, w);
    }
  }

  /** `a <= b` and `w >= 0` give `a * w <= b * w`. */
  lemma MulMonotone(a: int, b: int, w: nat)
    requires a <= b
    ensures a * w <= b * w
  {
    assert b * w - a * w == (b - a) * w;
  }

  /**
   * One call of `update(dt)`, stated on values: the elapsed time
   * grows by `dt`; once it exceeds `maxFrameTime` the animation moves to
   * the next frame (wrapping to 0 after the last) and the elapsed time
   * restarts at 0, the surplus being dropped.
   */
  function Tick(c: Clock, dt: real, maxFrameTime: real, frameCount: int): (r: Clock)
    requires 0 <= c.frame < frameCount
    ensures 0 <= r.frame < frameCount
    ensures r.frame == c.frame || r.frame == (c.frame + 1) % frameCount
    ensures r.frame != c.frame ==> r.elapsed == 0.0
  {
    if c.elapsed + dt > maxFrameTime then Clock((c.frame + 1) % frameCount, 0.0)
    else Clock(c.frame, c.elapsed + dt)
  }

  /** A sequence of updates, one per `dts[i]`, applied in order. */
  function Ticks(c: Clock, dts: seq<real>, maxFrameTime: real, frameCount: int): (r: Clock)
    requires 0 <= c.frame < frameCount
    ensures 0 <= r.frame < frameCount
    decreases |dts|
  {
    if dts == [] then c
    else Ticks(Tick(c, dts[0], maxFrameTime, frameCount), dts[1..], maxFrameTime, frameCount)
  }

  /**
   * Frames are visited in order: when every step is longer than one
   * frame's time (and no negative time is pending), each update advances
   * exactly one frame, so `k` updates land on frame `(frame + k) mod n`.
   */
  lemma {:induction false} SteadyAdvance(c: Clock, dts: seq<real>, maxFrameTime: real, frameCount: int)
    requires 0 <= c.frame < frameCount
    requires 0.0 <= c.elapsed
    requires forall i :: 0 <= i < |dts| ==> dts[i] > maxFrameTime
    ensures Ticks(c, dts, maxFrameTime, frameCount).frame == (c.frame + |dts|) % frameCount
    decreases |dts|
  {
    if dts != [] {
      var c' := Tick(c, dts[0], maxFrameTime, frameCount);
      assert c'.frame == (c.frame + 1) % frameCount && c'.elapsed == 0.0;
      var rest := dts[1..];
      assert forall i :: 0 <= i < |rest| ==> rest[i] == dts[i + 1];
      SteadyAdvance(c', rest, maxFrameTime, frameCount);
      assert Ticks(c, dts, maxFrameTime, frameCount) == Ticks(c', rest, maxFrameTime, frameCount);
      ModAddOne(c.frame, |rest|, frameCount);
      assert c.frame + 1 + |rest| == c.frame + |dts|;
    } else {
      ModOfQuotient(c.frame, frameCount, 0, c.frame);
    }
  }

  /** `((a + 1) mod n + k) mod n == (a + 1 + k) mod n` for `0 <= a < n`. */
  lemma ModAddOne(a: int, k: nat, n: int)
    requires 0 <= a < n
    ensures ((a + 1) % n + k) % n == (a + 1 + k) % n
  {
    if a + 1 == n {
      var q, r := k / n, k % n;
      assert k == q * n + r;
      assert n + k == (q + 1) * n + r;
      ModOfQuotient(n + k, n, q + 1, r);
    }
  }

  /** A remainder is determined by any quotient-remainder split. */
  lemma ModOfQuotient(x: int, n: int, q: int, r: int)
    requires 0 <= r < n && x == q * n + r
    ensures x % n == r
  {
    var q', r' := x / n, x % n;
    assert x == q' * n + r';
    assert (q - q') * n == r' - r;
    if q > q' {
      MulMonotone(1, q - q', n);
    } else if q < q' {
      MulMonotone(1, q' - q, n);
    }
  }

  /**
   * Time accumulates without advancing: as long as the non-negative steps
   * add up to no more than what is left of the current frame's time, the
   * frame stays put and the elapsed time is the exact running sum.
   */
  lemma {:induction false} AccumulateWithinFrame(c: Clock, dts: seq<real>, maxFrameTime: real, frameCount: int)
    requires 0 <= c.frame < frameCount
    requires forall i :: 0 <= i < |dts| ==> dts[i] >= 0.0
    requires c.elapsed + Sum(dts) <= maxFrameTime
    ensures Ticks(c, dts, maxFrameTime, frameCount) == Clock(c.frame, c.elapsed + Sum(dts))
    decreases |dts|
  {
    if dts != [] {
      SumNonNegative(dts[1..]);
      var c' := Tick(c, dts[0], maxFrameTime, frameCount);
      assert c' == Clock(c.frame, c.elapsed + dts[0]);
      AccumulateWithinFrame(c', dts[1..], maxFrameTime, frameCount);
    }
  }

  class Animation {
    /** The frames cut from the strip; never changed after construction. */
    const frames: seq<Region>
    const maxFrameTime: real
    const frameCount: int
    var currentFrameTime: real
    var frame: int

    /** Size of the strip the frames were cut from (not stored by the original). */
    ghost const regionWidth: nat
    ghost const regionHeight: nat

    ghost predicate Valid()
      reads this
    {
      frameCount >= 1 &&
      frames == Slice(regionWidth, regionHeight, frameCount) &&
      0 <= frame < frameCount
    }

    /** The timer state as a value. */
    function Timer(): (c: Clock)
      reads this
    {
      Clock(frame, currentFrameTime)
    }

    /**
     * Cuts a `regionWidth` x `regionHeight` strip into `frameCount` frames;
     * one full cycle through them takes `cycleTime`.
     */
    constructor (regionWidth: nat, regionHeight: nat, frameCount: int, cycleTime: real)
      requires frameCount >= 1
      ensures Valid()
      ensures this.regionWidth == regionWidth && this.regionHeight == regionHeight
      ensures this.frameCount == frameCount && |frames| == frameCount
      ensures forall i :: 0 <= i < frameCount ==>
        frames[i].x == i * FrameWidth(regionWidth, frameCount) &&
        frames[i].width == FrameWidth(regionWidth, frameCount)
      ensures maxFrameTime == cycleTime / frameCount as real
      ensures maxFrameTime * frameCount as real == cycleTime
      ensures frame == 0 && currentFrameTime == 0.0
    {
      var frameWidth := regionWidth / frameCount;
      var fs: seq<Region> := [];
      for i := 0 to frameCount
        invariant |fs| == i
        invariant forall j :: 0 <= j < i ==> fs[j] == Region(j * frameWidth, 0, frameWidth, regionHeight)
      {
        fs := fs + [Region(i * frameWidth, 0, frameWidth, regionHeight)];
      }
      frames := fs;
      this.regionWidth := regionWidth;
      this.regionHeight := regionHeight;
      this.frameCount := frameCount;
      maxFrameTime := cycleTime / frameCount as real;
      frame := 0;
      currentFrameTime := 0.0;
    }

    /**
     * Advances the timer by `dt`, moving to the next frame when the frame's
     * time is used up.
     */
    method Update(dt: real)
      requires Valid()
      modifies this
      ensures Valid()
      ensures Timer() == Tick(old(Timer()), dt, maxFrameTime, frameCount)
      ensures old(currentFrameTime) + dt > maxFrameTime ==>
        frame == (old(frame) + 1) % frameCount && currentFrameTime == 0.0
      ensures old(currentFrameTime) + dt <= maxFrameTime ==>
        frame == old(frame) && currentFrameTime == old(currentFrameTime) + dt
    {
      currentFrameTime := currentFrameTime + dt;
      if currentFrameTime > maxFrameTime {
        frame := frame + 1;
        currentFrameTime := 0.0;
      }
      if frame >= frameCount {
        frame := 0;
      }
    }

    /** The frame to draw now. */
    function GetFrame(): (r: Region)
      reads this
      requires Valid()
      ensures r.x == frame * FrameWidth(regionWidth, frameCount)
      ensures r.width == FrameWidth(regionWidth, frameCount) && r.height == regionHeight
      ensures 0 <= r.x && r.x + r.width <= regionWidth
    {
      SliceTilesStrip(regionWidth, regionHeight, frameCount);
      frames[frame]
    }
  }
}
