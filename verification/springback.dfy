/**
 * The spring-back tween run after a drop: over 300 ms the vertical offset
 * returns from its drop value to 0 along a cubic ease-out. A frame is
 * described by the time elapsed since the tween started.
 */
module SpringBack {
  import opened Reals

  const Duration: real := 300.0

  function Cube(x: real): real {
    x * x * x
  }

  /** `Math.min(elapsed / 300, 1)`. */
  function Progress(elapsed: real): (p: real)
    ensures p <= 1.0
    ensures elapsed >= 0.0 ==> 0.0 <= p
    ensures p == 1.0 <==> elapsed >= Duration
  {
    Min(elapsed / Duration, 1.0)
  }

  /** The cubic ease-out `1 - (1 - p)^3`. */
  function EaseOut(p: real): real {
    1.0 - Cube(1.0 - p)
  }

  /** The eased offset before the floor at 0: `startY * (1 - easeOut)`. */
  function Unclamped(startY: real, elapsed: real): real {
    startY * (1.0 - EaseOut(Progress(elapsed)))
  }

  /** The offset a frame sets: `Math.max(0, startY * (1 - easeOut))`. */
  function SpringY(startY: real, elapsed: real): (y: real)
    ensures 0.0 <= y
    ensures startY >= 0.0 && elapsed == 0.0 ==> y == startY
    ensures elapsed >= Duration ==> y == 0.0
  {
    Max(0.0, Unclamped(startY, elapsed))
  }

  /** Whether the frame at `elapsed` asks for another frame. */
  predicate MoreFrames(elapsed: real) {
    Progress(elapsed) < 1.0
  }

  lemma CubeNonNegative(x: real)
    requires 0.0 <= x
    ensures 0.0 <= Cube(x)
  {
    assert 0.0 <= x * x;
  }

  lemma CubeAtMostOne(x: real)
    requires 0.0 <= x <= 1.0
    ensures Cube(x) <= 1.0
  {
    assert x * x <= x;
    assert x * x * x <= x * x;
  }

  lemma SquareStrictlyMonotone(a: real, b: real)
    requires 0.0 <= a < b
    ensures a * a < b * b
  {
    assert 0.0 <= a * (b - a);
    assert 0.0 < b * (b - a);
  }

  lemma CubeStrictlyMonotone(a: real, b: real)
    requires 0.0 <= a < b
    ensures Cube(a) < Cube(b)
  {
    SquareStrictlyMonotone(a, b);
    assert 0.0 <= (a * a) * (b - a);
    assert 0.0 < (b * b) * (b - a);
  }

  /** The first frame starts at the drop position. */
  lemma SpringStartsAtDrop(startY: real)
    requires startY >= 0.0
    ensures SpringY(startY, 0.0) == startY
  {
  }

  /** For elapsed time at or past 300 ms the offset is exactly 0 and no frame follows. */
  lemma SpringEndsAtZero(startY: real, elapsed: real)
    requires elapsed >= Duration
    ensures SpringY(startY, elapsed) == 0.0
    ensures !MoreFrames(elapsed)
  {
  }

  /** Frames keep coming exactly while less than 300 ms have elapsed. */
  lemma MoreFramesBeforeDuration(elapsed: real)
    ensures MoreFrames(elapsed) <==> elapsed < Duration
  {
  }

  /** The offset of a frame is the drop position scaled by the cube of the remaining progress, floored at 0. */
  lemma SpringYIsScaledCube(startY: real, elapsed: real)
    ensures SpringY(startY, elapsed) == Max(0.0, startY * Cube(1.0 - Progress(elapsed)))
  {
    assert 1.0 - EaseOut(Progress(elapsed)) == Cube(1.0 - Progress(elapsed));
  }

  /** For non-negative elapsed time the offset stays between 0 and the drop position. */
  lemma SpringBounded(startY: real, elapsed: real)
    requires startY >= 0.0 && elapsed >= 0.0
    ensures 0.0 <= SpringY(startY, elapsed) <= startY
  {
    var p := Progress(elapsed);
    CubeNonNegative(1.0 - p);
    CubeAtMostOne(1.0 - p);
    SpringYIsScaledCube(startY, elapsed);
    FlooredScaleBounded(startY, Cube(1.0 - p));
  }

  /** Later frames never move the offset back down: it is non-increasing in elapsed time. */
  lemma SpringMonotone(startY: real, e1: real, e2: real)
    requires startY >= 0.0 && 0.0 <= e1 <= e2
    ensures SpringY(startY, e2) <= SpringY(startY, e1)
  {
    var p1, p2 := Progress(e1), Progress(e2);
    assert p1 <= p2;
    if p1 < p2 {
      CubeStrictlyMonotone(1.0 - p2, 1.0 - p1);
    }
    SpringYIsScaledCube(startY, e1);
    SpringYIsScaledCube(startY, e2);
    FlooredScaleMonotone(startY, Cube(1.0 - p2), Cube(1.0 - p1));
  }

  /** Before the tween ends, a later frame strictly lowers a positive offset. */
  lemma SpringStrictlyDecreasing(startY: real, e1: real, e2: real)
    requires startY > 0.0 && 0.0 <= e1 < e2 <= Duration
    ensures SpringY(startY, e2) < SpringY(startY, e1)
  {
    var p1, p2 := Progress(e1), Progress(e2);
    assert p1 == e1 / Duration && p2 == e2 / Duration;
    assert p1 < p2;
    CubeStrictlyMonotone(1.0 - p2, 1.0 - p1);
    CubeNonNegative(1.0 - p2);
    SpringYIsScaledCube(startY, e1);
    SpringYIsScaledCube(startY, e2);
    FlooredScaleStrictlyMonotone(startY, Cube(1.0 - p2), Cube(1.0 - p1));
  }

  /**
   * A frame timestamp earlier than the start time (a negative elapsed
   * time) pushes the offset beyond the drop position; nothing in the tween
   * guards against it.
   */
  lemma SpringOvershootsBeforeStart(startY: real, elapsed: real)
    requires startY > 0.0 && elapsed < 0.0
    ensures SpringY(startY, elapsed) > startY
  {
    var p := Progress(elapsed);
    assert p == elapsed / Duration && p < 0.0;
    CubeStrictlyMonotone(1.0, 1.0 - p);
    assert Cube(1.0) == 1.0;
    SpringYIsScaledCube(startY, elapsed);
    FlooredScaleAbove(startY, Cube(1.0 - p));
  }
}
