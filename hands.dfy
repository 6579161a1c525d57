/** The per-frame input of every component: up to two tracked hands, each a
    list of normalised 3D landmarks (21 in a well-formed hand: wrist = 0,
    thumb = 1-4, index = 5-8, middle = 9-12, ring = 13-16, pinky = 17-20)
    with a handedness label. Coordinates x and y lie in [0, 1] with y growing
    downwards; the source reads `z || 0`, so a missing depth is 0 here. */
module Hands {
  import opened Common

  datatype Point = Point(x: real, y: real, z: real)

  /** One entry of `multiHandLandmarks` paired with the matching entry of
      `multiHandedness` (its `label`, here `handedness`, and `score`). */
  datatype Hand = Hand(landmarks: seq<Point>, handedness: string, score: real)

  /** `landmarks[i]`, which is `undefined` past the end of the list. */
  function LandmarkAt(lms: seq<Point>, i: nat): (r: Option<Point>)
    ensures r.Some? <==> i < |lms|
    ensures r.Some? ==> r.value == lms[i]
  {
    if i < |lms| then Some(lms[i]) else None
  }

  predicate IsLeft(h: Hand)
  {
    h.handedness == "Left"
  }

  predicate IsRight(h: Hand)
  {
    h.handedness == "Right"
  }
}
