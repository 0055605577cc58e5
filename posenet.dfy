/**
 * The interface of the pose-estimation library as the program uses it: the
 * values it returns, an opaque model handle, and the calls made on it, which
 * the model records instead of performing.
 */
module PoseNet {
  import opened Wrappers
  import opened Canvas

  datatype Keypoint = Keypoint(part: string, position: Point, score: real)

  datatype Pose = Pose(score: real, keypoints: seq<Keypoint>)

  /** A loaded model. Two loads never return the same handle. */
  datatype Handle = Handle(id: nat)

  /** One call into the library. `multiplier` is `None` when `load()` gets no argument. */
  datatype Call =
    | Load(multiplier: Option<real>, loaded: Handle)
    | Dispose(disposed: Handle)
    | EstimateSingle(net: Handle, imageScaleFactor: real, flipHorizontal: bool, outputStride: int)
    | EstimateMultiple(net: Handle, imageScaleFactor: real, flipHorizontal: bool, outputStride: int,
                       maxPoseDetections: int, minPartConfidence: real, nmsRadius: real)

  /**
   * What the library answers for the current frame: the pose
   * `estimateSinglePose` returns and the poses `estimateMultiplePoses` returns.
   */
  datatype Frame = Frame(single: Pose, multiple: seq<Pose>)

  /** `_.find(keypoints, point => point.part === part)`. */
  function FindPart(keypoints: seq<Keypoint>, part: string): Option<Keypoint>
  {
    if keypoints == [] then None
    else if keypoints[0].part == part then Some(keypoints[0])
    else FindPart(keypoints[1..], part)
  }

  /** `FindPart` yields the first keypoint with that part, and nothing exactly when there is none. */
  lemma {:induction false} FindPartFirst(keypoints: seq<Keypoint>, part: string)
    ensures FindPart(keypoints, part).None? <==> forall i :: 0 <= i < |keypoints| ==> keypoints[i].part != part
    ensures FindPart(keypoints, part).Some? ==>
              exists j :: 0 <= j < |keypoints| && keypoints[j] == FindPart(keypoints, part).value &&
                          keypoints[j].part == part &&
                          forall i :: 0 <= i < j ==> keypoints[i].part != part
  {
    if keypoints != [] && keypoints[0].part != part {
      FindPartFirst(keypoints[1..], part);
      if FindPart(keypoints, part).Some? {
        var j :| 0 <= j < |keypoints[1..]| && keypoints[1..][j] == FindPart(keypoints, part).value &&
                 keypoints[1..][j].part == part &&
                 forall i :: 0 <= i < j ==> keypoints[1..][i].part != part;
        assert keypoints[j + 1] == FindPart(keypoints, part).value;
        forall i | 0 <= i < j + 1 ensures keypoints[i].part != part {
          if i > 0 { assert keypoints[i] == keypoints[1..][i - 1]; }
        }
      } else {
        forall i | 0 <= i < |keypoints| ensures keypoints[i].part != part {
          if i > 0 { assert keypoints[i] == keypoints[1..][i - 1]; }
        }
      }
    }
  }

  /** The positions of the keypoints, in order. */
  function Positions(keypoints: seq<Keypoint>): (r: seq<Point>)
    ensures |r| == |keypoints|
    ensures forall k :: 0 <= k < |keypoints| ==> r[k] == keypoints[k].position
  {
    seq(|keypoints|, k requires 0 <= k < |keypoints| => keypoints[k].position)
  }
}
