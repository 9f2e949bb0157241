/**
 * The two camera generations: the render offset subtracted from an object's
 * position, and the current camera's shake loop.
 */
module Cameras {
  import opened Vectors
  import opened Objects

  /**
   * `getPositionOffsetForRenderer` of the current camera: objects the camera
   * does not affect are drawn where they are, all others are shifted by the
   * camera position.
   */
  function OffsetForRenderer(cameraPosition: Vector2, g: GameObject): (r: Vector2)
    ensures !g.affectedByCamera ==> r == Zero
    ensures g.affectedByCamera ==> r == cameraPosition
  {
    if !g.affectedByCamera then Vector2(0.0, 0.0) else Vector2(cameraPosition.x, cameraPosition.y)
  }

  /**
   * `getPositionOffsetForRenderer` of the older camera: its position is the
   * point shown at the canvas centre, so the offset is measured from there.
   */
  function LegacyOffsetForRenderer(cameraPosition: Vector2, canvasWidth: real, canvasHeight: real, g: GameObject): (r: Vector2)
    ensures !g.affectedByCamera ==> r == Zero
    ensures g.affectedByCamera ==> Add(r, Vec(Vector2(canvasWidth / 2.0, canvasHeight / 2.0))) == cameraPosition
  {
    if !g.affectedByCamera then Vector2(0.0, 0.0)
    else Vector2(cameraPosition.x - canvasWidth / 2.0, cameraPosition.y - canvasHeight / 2.0)
  }

  /** Both offsets depend on the object only through its camera flag. */
  lemma OffsetDependsOnlyOnFlag(cameraPosition: Vector2, w: real, h: real, g1: GameObject, g2: GameObject)
    requires g1.affectedByCamera == g2.affectedByCamera
    ensures OffsetForRenderer(cameraPosition, g1) == OffsetForRenderer(cameraPosition, g2)
    ensures LegacyOffsetForRenderer(cameraPosition, w, h, g1) == LegacyOffsetForRenderer(cameraPosition, w, h, g2)
  {
  }

  /** With the older camera placed on the canvas centre, nothing is shifted. */
  lemma LegacyCentredCameraHasNoOffset(w: real, h: real, g: GameObject)
    ensures LegacyOffsetForRenderer(Vector2(w / 2.0, h / 2.0), w, h, g) == Zero
  {
  }

  /** The current camera: its position and the position saved by `shake`. */
  class Camera {
    var position: Vector2
    var shakeOriginalPosition: Vector2

    constructor ()
      ensures position == Zero && shakeOriginalPosition == Zero
    {
      position := Vector2(0.0, 0.0);
      shakeOriginalPosition := Vector2(0.0, 0.0);
    }

    function GetPositionOffsetForRenderer(g: GameObject): (r: Vector2)
      reads this
      ensures r == OffsetForRenderer(position, g)
    {
      OffsetForRenderer(position, g)
    }

    /**
     * `shake`: every 10 ms step moves the camera by a random offset, waits,
     * lowers the remaining duration by 10 and the intensity by a fixed
     * amount, and puts the camera back where it was when the shake began.
     * The random offsets are the parameter `offsets` (step k uses
     * `offsets(k)`), and the sleep is left out. `shaken` records where the
     * camera stood during each step; `finalIntensity` is the intensity left.
     */
    method Shake(durationInMs: real, intensity: real, offsets: nat -> Vector2)
      returns (ghost steps: nat, ghost shaken: seq<Vector2>, ghost finalIntensity: real)
      modifies this
      ensures position == old(position) && shakeOriginalPosition == old(position)
      ensures durationInMs <= 0.0 ==> steps == 0
      ensures 0.0 < durationInMs ==> 10.0 * (steps - 1) as real < durationInMs <= 10.0 * steps as real
      ensures |shaken| == steps
      ensures forall k :: 0 <= k < steps ==> shaken[k] == Add(old(position), Vec(offsets(k)))
      ensures 0.0 < durationInMs ==> finalIntensity == intensity - steps as real * intensity / (durationInMs / 10.0)
      ensures 0.0 < durationInMs && durationInMs == 10.0 * steps as real ==> finalIntensity == 0.0
    {
      shakeOriginalPosition := position;
      // The decrement is only used when the loop runs, i.e. for a positive duration.
      var decreaseIntensityBy := if durationInMs != 0.0 then intensity / (durationInMs / 10.0) else 0.0;
      var duration, currentIntensity := durationInMs, intensity;
      var n := 0;
      steps, shaken := 0, [];
      while duration > 0.0
        invariant duration == durationInMs - 10.0 * steps as real
        invariant 0.0 < durationInMs ==> 10.0 * (steps - 1) as real < durationInMs
        invariant durationInMs <= 0.0 ==> steps == 0
        invariant currentIntensity == IntensityAfter(intensity, decreaseIntensityBy, steps)
        invariant position == shakeOriginalPosition == old(position)
        invariant n == steps
        invariant |shaken| == steps
        invariant forall k :: 0 <= k < steps ==> shaken[k] == Add(old(position), Vec(offsets(k)))
        decreases duration.Floor
      {
        position := Add(position, Vec(offsets(n)));
        shaken := shaken + [position];
        duration := duration - 10.0;
        currentIntensity := currentIntensity - decreaseIntensityBy;
        position := shakeOriginalPosition;
        n := n + 1;
        steps := n;
      }
      finalIntensity := currentIntensity;
      IntensityAfterSteps(intensity, decreaseIntensityBy, steps);
      if 0.0 < durationInMs && durationInMs == 10.0 * steps as real {
        IntensityUsedUp(intensity, steps);
      }
    }
  }

  /** The intensity left after `k` steps that each lower it by `share`. */
  function IntensityAfter(intensity: real, share: real, k: nat): real
  {
    if k == 0 then intensity else IntensityAfter(intensity, share, k - 1) - share
  }

  /** `k` steps take `k` shares. */
  lemma {:induction false} IntensityAfterSteps(intensity: real, share: real, k: nat)
    ensures IntensityAfter(intensity, share, k) == intensity - k as real * share
  {
    if k > 0 {
      IntensityAfterSteps(intensity, share, k - 1);
      assert k as real * share == (k - 1) as real * share + share;
    }
  }

  /** Taking `steps` equal shares of `intensity / (10 * steps / 10)` uses the intensity up. */
  lemma IntensityUsedUp(intensity: real, steps: nat)
    requires 0 < steps
    ensures intensity - steps as real * (intensity / (10.0 * steps as real / 10.0)) == 0.0
  {
    assert 10.0 * steps as real / 10.0 == steps as real;
    assert steps as real * (intensity / steps as real) == intensity;
  }
}
