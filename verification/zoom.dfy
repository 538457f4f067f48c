/** The canvas zoom level: a counter in steps of 0.1, clamped to [0.6, 1.4]. */
module Zoom {
  import opened Reals

  const MinZoom: real := 0.6
  const MaxZoom: real := 1.4
  const ZoomStep: real := 0.1

  predicate InRange(z: real) {
    MinZoom <= z <= MaxZoom
  }

  /** `Math.min(1.4, z + 0.1)`. */
  function ZoomIn(z: real): (r: real)
    ensures r <= MaxZoom
    ensures z <= MaxZoom ==> z <= r
    ensures InRange(z) ==> InRange(r)
    ensures r == MaxZoom <==> z + ZoomStep >= MaxZoom
  {
    Min(MaxZoom, z + ZoomStep)
  }

  /** `Math.max(0.6, z - 0.1)`. */
  function ZoomOut(z: real): (r: real)
    ensures MinZoom <= r
    ensures MinZoom <= z ==> r <= z
    ensures InRange(z) ==> InRange(r)
    ensures r == MinZoom <==> z - ZoomStep <= MinZoom
  {
    Max(MinZoom, z - ZoomStep)
  }

  /** A wheel turn: a positive deltaY zooms out, any other deltaY (zero included) zooms in. */
  function Wheel(z: real, deltaY: real): (r: real)
    ensures deltaY > 0.0 ==> r == ZoomOut(z)
    ensures deltaY <= 0.0 ==> r == ZoomIn(z)
    ensures InRange(z) ==> InRange(r)
  {
    if deltaY > 0.0 then ZoomOut(z) else ZoomIn(z)
  }

  /** The zoom-in button, which is disabled once the zoom reaches 1.4. */
  function ZoomInButton(z: real): (r: real)
    ensures r == z <==> z >= MaxZoom
    ensures z <= MaxZoom ==> z < r || r == MaxZoom
    ensures z <= MaxZoom ==> r <= MaxZoom
    ensures InRange(z) ==> InRange(r)
  {
    if z >= MaxZoom then z else ZoomIn(z)
  }

  /** The zoom-out button, which is disabled once the zoom reaches 0.6. */
  function ZoomOutButton(z: real): (r: real)
    ensures r == z <==> z <= MinZoom
    ensures MinZoom <= z ==> r < z || r == MinZoom
    ensures MinZoom <= z ==> MinZoom <= r
    ensures InRange(z) ==> InRange(r)
  {
    if z <= MinZoom then z else ZoomOut(z)
  }

  /** Inside the range, disabling the buttons at the bounds changes nothing: the clamp already holds there. */
  lemma ButtonsAgreeWithClamp(z: real)
    requires InRange(z)
    ensures ZoomInButton(z) == ZoomIn(z)
    ensures ZoomOutButton(z) == ZoomOut(z)
  {
  }

  /** `n` zoom-in clicks in a row. */
  function ZoomInTimes(z: real, n: nat): real {
    if n == 0 then z else ZoomIn(ZoomInTimes(z, n - 1))
  }

  /** `n` zoom-out clicks in a row. */
  function ZoomOutTimes(z: real, n: nat): real {
    if n == 0 then z else ZoomOut(ZoomOutTimes(z, n - 1))
  }

  /** Repeated zoom-in climbs by 0.1 per click until it stops at 1.4. */
  lemma {:induction false} ZoomInTimesClamps(z: real, n: nat)
    requires z <= MaxZoom
    ensures ZoomInTimes(z, n) == Min(MaxZoom, z + (n as real) * ZoomStep)
  {
    if n > 0 {
      ZoomInTimesClamps(z, n - 1);
    }
  }

  /** Repeated zoom-out descends by 0.1 per click until it stops at 0.6. */
  lemma {:induction false} ZoomOutTimesClamps(z: real, n: nat)
    requires MinZoom <= z
    ensures ZoomOutTimes(z, n) == Max(MinZoom, z - (n as real) * ZoomStep)
  {
    if n > 0 {
      ZoomOutTimesClamps(z, n - 1);
    }
  }

  /** From 100%, any number of clicks either way stays in range, and the bound is reached exactly from the fourth click on. */
  lemma ClicksFromOne(n: nat)
    ensures InRange(ZoomInTimes(1.0, n)) && InRange(ZoomOutTimes(1.0, n))
    ensures ZoomInTimes(1.0, n) == MaxZoom <==> n >= 4
    ensures ZoomOutTimes(1.0, n) == MinZoom <==> n >= 4
  {
    ZoomInTimesClamps(1.0, n);
    ZoomOutTimesClamps(1.0, n);
  }
}
