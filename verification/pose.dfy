/**
 This module models the part of a PoseNet result that the posture monitor reads:
 the list of keypoints, and the lookup of the two shoulder keypoints by part name
 (`pose.keypoints.find(k => k.part === ...)`, camera.js:232-235 and 295-298).
 */
module Pose {
  import opened Wrappers

  datatype Position = Position(x: real, y: real)

  /** One detected landmark: its part name, confidence score and image position. */
  datatype Keypoint = Keypoint(part: string, score: real, position: Position)

  /** The keypoints of one estimated pose, in the order the pose model lists them. */
  type Keypoints = seq<Keypoint>

  const LeftShoulder: string := "leftShoulder"
  const RightShoulder: string := "rightShoulder"

  /** The two shoulder keypoints of a pose, as found by name. */
  datatype Shoulders = Shoulders(left: Keypoint, right: Keypoint)

  /** True when some keypoint of `kps` is named `part`. */
  predicate HasPart(kps: Keypoints, part: string) {
    exists i :: 0 <= i < |kps| && kps[i].part == part
  }

  /** `Array.prototype.find` with the predicate `k.part === part`: the FIRST keypoint
      with that name, or `None` (JavaScript's `undefined`) when there is none. */
  function Find(kps: Keypoints, part: string): (r: Option<Keypoint>)
    ensures r.None? <==> !HasPart(kps, part)
    ensures r.Some? ==>
      exists i :: 0 <= i < |kps| && kps[i] == r.value && r.value.part == part
        && forall j :: 0 <= j < i ==> kps[j].part != part
  {
    if |kps| == 0 then None
    else if kps[0].part == part then Some(kps[0])
    else Find(kps[1..], part)
  }

  /** Both shoulders when the pose lists both, else `None`: the guard
      `if (leftShoulder && rightShoulder)` of camera.js:235 and 298 (a found keypoint is an
      object, hence truthy). */
  function FindShoulders(kps: Keypoints): (r: Option<Shoulders>)
    ensures r.Some? <==> HasPart(kps, LeftShoulder) && HasPart(kps, RightShoulder)
    ensures r.Some? ==>
      r.value.left.part == LeftShoulder && r.value.right.part == RightShoulder
      && r.value.left in kps && r.value.right in kps
    // each shoulder is the first keypoint of its name, as `find` returns it
    ensures r.Some? ==>
      Find(kps, LeftShoulder) == Some(r.value.left) && Find(kps, RightShoulder) == Some(r.value.right)
  {
    match (Find(kps, LeftShoulder), Find(kps, RightShoulder))
    case (Some(l), Some(r)) => Some(Shoulders(l, r))
    case _ => None
  }

  /** The mean shoulder height `(leftShoulder.position.y + rightShoulder.position.y) / 2`,
      computed identically at calibration (camera.js:299) and at detection (camera.js:236). */
  function MeanY(s: Shoulders): real {
    (s.left.position.y + s.right.position.y) / 2.0
  }
}
