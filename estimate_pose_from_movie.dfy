/**
 * Pose estimation on the live camera feed. After `setup`, every animation
 * frame runs one tick: reload the model if an architecture change is pending,
 * ask the model for the pose(s) of the current frame in the configured mode,
 * clear the canvas, draw the watch overlay on the right wrist of every pose
 * whose score reaches the mode's confidence threshold, and request the next
 * frame while estimation is still enabled.
 */
module PoseFromMovie {
  import opened Wrappers
  import opened Sequences
  import opened Canvas
  import opened PoseNet

  const VideoWidth := 600.0
  const VideoHeight := 500.0
  const FlipHorizontal := true
  /** The multiplier `setup` loads the model with. */
  const SetupMultiplier := 0.75
  /** The forearm length, in pixels, at which the overlay is drawn at scale 1. */
  const ReferenceDistance := 500.0
  const WatchImageUrl := "https://products.baby-g.jp/product/image/1425542683952/"
  const RightWrist := "rightWrist"
  const RightElbow := "rightElbow"

  // ---------------------------------------------------------------------------
  // The configuration panel's state (`guiState`)

  datatype Algorithm = SinglePose | MultiPose

  /** The architectures the panel offers: "1.01", "1.00", "0.75" and "0.50". */
  datatype Architecture = Arch101 | Arch100 | Arch075 | Arch050

  /** `Number(architecture)`. */
  function Multiplier(a: Architecture): real
  {
    match a
    case Arch101 => 1.01
    case Arch100 => 1.0
    case Arch075 => 0.75
    case Arch050 => 0.5
  }

  datatype SinglePoseDetection = SinglePoseDetection(minPoseConfidence: real, minPartConfidence: real)

  datatype MultiPoseDetection =
    MultiPoseDetection(maxPoseDetections: int, minPoseConfidence: real, minPartConfidence: real, nmsRadius: real)

  datatype Config = Config(imageScaleFactor: real, outputStride: int,
                           single: SinglePoseDetection, multi: MultiPoseDetection)

  const DefaultConfig := Config(0.5, 16, SinglePoseDetection(0.1, 0.5), MultiPoseDetection(5, 0.15, 0.1, 30.0))

  // ---------------------------------------------------------------------------
  // What the estimator does, as a record of events

  datatype Event =
    | Library(call: Call)
    | CameraStarted
    | GuiBuilt
    | ImageLoaded(url: string)
    | GuiDestroyed
    | CameraStopped
    | ClearCanvas
    | DrawWristCalled(keypoints: seq<Keypoint>)
    | RequestAnimationFrame

  /** The handles disposed by the events, in order. */
  function Disposed(events: seq<Event>): seq<Handle>
  {
    if events == [] then []
    else
      var e := events[|events| - 1];
      Disposed(events[..|events| - 1]) + (if e.Library? && e.call.Dispose? then [e.call.disposed] else [])
  }

  /** The keypoint lists `_drawWrist` was called with, in order. */
  function Drawn(events: seq<Event>): seq<seq<Keypoint>>
  {
    if events == [] then []
    else
      var e := events[|events| - 1];
      Drawn(events[..|events| - 1]) + (if e.DrawWristCalled? then [e.keypoints] else [])
  }

  lemma {:induction false} ProjectionsAppend(a: seq<Event>, b: seq<Event>)
    ensures Disposed(a + b) == Disposed(a) + Disposed(b)
    ensures Drawn(a + b) == Drawn(a) + Drawn(b)
    decreases |b|
  {
    if b == [] {
      assert a + b == a;
    } else {
      var init := b[..|b| - 1];
      assert (a + b)[..|a + b| - 1] == a + init;
      assert (a + b)[|a + b| - 1] == b[|b| - 1];
      ProjectionsAppend(a, init);
    }
  }

  predicate IsDispose(e: Event)
  {
    e.Library? && e.call.Dispose?
  }

  /** One `_drawWrist` call per keypoint list. */
  function DrawEvents(drawn: seq<seq<Keypoint>>): seq<Event>
  {
    if drawn == [] then [] else DrawEvents(drawn[..|drawn| - 1]) + [DrawWristCalled(drawn[|drawn| - 1])]
  }

  lemma {:induction false} DrawEventsShape(drawn: seq<seq<Keypoint>>)
    ensures |DrawEvents(drawn)| == |drawn|
    ensures forall i :: 0 <= i < |drawn| ==> DrawEvents(drawn)[i] == DrawWristCalled(drawn[i])
  {
    if drawn != [] {
      var init := drawn[..|drawn| - 1];
      DrawEventsShape(init);
      forall i | 0 <= i < |drawn| ensures DrawEvents(drawn)[i] == DrawWristCalled(drawn[i]) {
        if i < |init| { assert drawn[i] == init[i]; }
      }
    }
  }

  /** The `_drawWrist` events of a loop record exactly its keypoint lists, and dispose nothing. */
  lemma {:induction false} DrawEventsProjections(drawn: seq<seq<Keypoint>>)
    ensures Drawn(DrawEvents(drawn)) == drawn
    ensures Disposed(DrawEvents(drawn)) == []
  {
    if drawn != [] {
      var init := drawn[..|drawn| - 1];
      var e := DrawWristCalled(drawn[|drawn| - 1]);
      DrawEventsProjections(init);
      assert DrawEvents(drawn)[..|DrawEvents(drawn)| - 1] == DrawEvents(init);
      assert DrawEvents(drawn)[|DrawEvents(drawn)| - 1] == e;
    }
  }

  // ---------------------------------------------------------------------------
  // `_drawWrist`

  /** `save`, move to the wrist, scale by forearm length / 500, turn along the forearm, draw, `restore`. */
  function OverlayCmds(wrist: Point, elbow: Point, image: Image): seq<Cmd>
  {
    [ Save,
      Transform(Translate(wrist.x, wrist.y)),
      Transform(Scale(DistanceOver(wrist, elbow, ReferenceDistance), DistanceOver(wrist, elbow, ReferenceDistance))),
      Transform(Rotate(Atan2(wrist.y - elbow.y, wrist.x - elbow.x))),
      DrawImage(image, -100.0, -120.0, 200.0, 240.0),
      Restore ]
  }

  /**
   * The commands `_drawWrist(keypoints)` issues, or `None` when it throws
   * because the keypoints have no right wrist or no right elbow.
   */
  function WristCmds(keypoints: seq<Keypoint>, image: Image): Option<seq<Cmd>>
  {
    var wrist := FindPart(keypoints, RightWrist);
    var elbow := FindPart(keypoints, RightElbow);
    if wrist.None? || elbow.None? then None
    else Some(OverlayCmds(wrist.value.position, elbow.value.position, image))
  }

  /** `keypoints[j]` is the first keypoint whose part is `part`. */
  predicate FirstWithPart(keypoints: seq<Keypoint>, part: string, j: int)
  {
    0 <= j < |keypoints| && keypoints[j].part == part && forall i :: 0 <= i < j ==> keypoints[i].part != part
  }

  lemma FirstWithPartUnique(keypoints: seq<Keypoint>, part: string, j: int, j': int)
    requires FirstWithPart(keypoints, part, j) && FirstWithPart(keypoints, part, j')
    ensures j == j'
  {
  }

  /**
   * `_drawWrist` draws exactly when the keypoints include a right wrist and a
   * right elbow, and then anchors the overlay on the first of each.
   */
  lemma WristAnchors(keypoints: seq<Keypoint>, image: Image)
    ensures WristCmds(keypoints, image).Some? <==>
              (exists i :: 0 <= i < |keypoints| && keypoints[i].part == RightWrist) &&
              (exists i :: 0 <= i < |keypoints| && keypoints[i].part == RightElbow)
    ensures forall w, e :: FirstWithPart(keypoints, RightWrist, w) && FirstWithPart(keypoints, RightElbow, e) ==>
              WristCmds(keypoints, image) == Some(OverlayCmds(keypoints[w].position, keypoints[e].position, image))
  {
    FindPartFirst(keypoints, RightWrist);
    FindPartFirst(keypoints, RightElbow);
    forall w, e | FirstWithPart(keypoints, RightWrist, w) && FirstWithPart(keypoints, RightElbow, e)
      ensures WristCmds(keypoints, image) == Some(OverlayCmds(keypoints[w].position, keypoints[e].position, image))
    {
      var jw :| FirstWithPart(keypoints, RightWrist, jw) && keypoints[jw] == FindPart(keypoints, RightWrist).value;
      var je :| FirstWithPart(keypoints, RightElbow, je) && keypoints[je] == FindPart(keypoints, RightElbow).value;
      FirstWithPartUnique(keypoints, RightWrist, w, jw);
      FirstWithPartUnique(keypoints, RightElbow, e, je);
    }
  }

  /** The overlay leaves the drawing state (transform, styles, saved stack) as it found it. */
  lemma OverlayBalanced(s: State, wrist: Point, elbow: Point, image: Image)
    ensures Replay(s, OverlayCmds(wrist, elbow, image)) == s
  {
    var c := OverlayCmds(wrist, elbow, image);
    var s1 := Exec(s, Save);
    var s2 := Exec(s1, c[1]);
    var s3 := Exec(s2, c[2]);
    var s4 := Exec(s3, c[3]);
    var s5 := Exec(s4, c[4]);
    assert s5.saved == s.saved + [s.current];
    assert Exec(s5, Restore) == s;
    assert c[1..][1..][1..][1..][1..][1..] == [];
    assert Replay(s, c) == Replay(s1, c[1..]);
    assert Replay(s1, c[1..]) == Replay(s2, c[1..][1..]);
    assert Replay(s2, c[1..][1..]) == Replay(s3, c[1..][1..][1..]);
    assert Replay(s3, c[1..][1..][1..]) == Replay(s4, c[1..][1..][1..][1..]);
    assert Replay(s4, c[1..][1..][1..][1..]) == Replay(s5, c[1..][1..][1..][1..][1..]);
  }

  // ---------------------------------------------------------------------------
  // The `_.each` over the poses of one tick

  /** What the loop over the poses did: whose keypoints it drew, the commands, the flag, and whether it ran to the end. */
  datatype Run = Run(drawn: seq<seq<Keypoint>>, cmds: seq<Cmd>, estimated: bool, completed: bool)

  /** One iteration, for a loop that has not thrown. */
  function Step(r: Run, pose: Pose, threshold: real, image: Image): Run
  {
    if pose.score >= threshold then
      match WristCmds(pose.keypoints, image)
      case None => Run(r.drawn + [pose.keypoints], r.cmds, true, false)
      case Some(c) => Run(r.drawn + [pose.keypoints], r.cmds + c, true, true)
    else
      Run(r.drawn, r.cmds, false, true)
  }

  /** The loop over `poses`, entered with `_isEstimatedPose == estimated`; an exception ends it. */
  function Each(poses: seq<Pose>, threshold: real, image: Image, estimated: bool): Run
  {
    if poses == [] then Run([], [], estimated, true)
    else
      var r := Each(poses[..|poses| - 1], threshold, image, estimated);
      if !r.completed then r else Step(r, poses[|poses| - 1], threshold, image)
  }

  /** A loop that has thrown stays as it was, however many poses follow. */
  lemma {:induction false} ThrowEndsLoop(poses: seq<Pose>, k: nat, threshold: real, image: Image, estimated: bool)
    requires k <= |poses|
    requires !Each(poses[..k], threshold, image, estimated).completed
    ensures Each(poses, threshold, image, estimated) == Each(poses[..k], threshold, image, estimated)
  {
    if k < |poses| {
      var init := poses[..|poses| - 1];
      assert init[..k] == poses[..k];
      ThrowEndsLoop(init, k, threshold, image, estimated);
    } else {
      assert poses[..k] == poses;
    }
  }

  /** The indices of the poses whose score reaches the threshold, in order. */
  function QualifyingIndices(poses: seq<Pose>, threshold: real): seq<nat>
  {
    if poses == [] then []
    else
      QualifyingIndices(poses[..|poses| - 1], threshold)
        + (if poses[|poses| - 1].score >= threshold then [|poses| - 1] else [])
  }

  /** The qualifying indices increase, and an index is listed exactly when its pose's score reaches the threshold. */
  lemma {:induction false} QualifyingIndicesSpec(poses: seq<Pose>, threshold: real)
    ensures Increasing(QualifyingIndices(poses, threshold))
    ensures forall j: nat :: j in QualifyingIndices(poses, threshold) <==> j < |poses| && poses[j].score >= threshold
  {
    if poses != [] {
      var init := poses[..|poses| - 1];
      var q0 := QualifyingIndices(init, threshold);
      QualifyingIndicesSpec(init, threshold);
      forall j: nat | j < |init| ensures poses[j] == init[j] {}
      forall k | 0 <= k < |q0| ensures q0[k] < |init| { assert q0[k] in q0; }
      var tail := if poses[|poses| - 1].score >= threshold then [|poses| - 1] else [];
      assert QualifyingIndices(poses, threshold) == q0 + tail;
    }
  }

  /** A pose the loop would throw on: it qualifies but has no right wrist or no right elbow. */
  predicate Throws(pose: Pose, threshold: real, image: Image)
  {
    pose.score >= threshold && WristCmds(pose.keypoints, image).None?
  }

  /** The loop runs to the end exactly when no qualifying pose lacks a right wrist or right elbow. */
  lemma {:induction false} EachCompletes(poses: seq<Pose>, threshold: real, image: Image, estimated: bool)
    ensures Each(poses, threshold, image, estimated).completed <==>
              forall j :: 0 <= j < |poses| ==> !Throws(poses[j], threshold, image)
  {
    if poses != [] {
      var init := poses[..|poses| - 1];
      EachCompletes(init, threshold, image, estimated);
      assert forall j :: 0 <= j < |init| ==> init[j] == poses[j];
    }
  }

  /**
   * When the loop runs to the end, `_drawWrist` got the keypoints of exactly
   * the poses whose score reaches the threshold, in list order.
   */
  lemma {:induction false} EachDrawsQualifying(poses: seq<Pose>, threshold: real, image: Image, estimated: bool)
    requires Each(poses, threshold, image, estimated).completed
    ensures var drawn := Each(poses, threshold, image, estimated).drawn;
      var q := QualifyingIndices(poses, threshold);
      |drawn| == |q| && forall k :: 0 <= k < |q| ==> q[k] < |poses| && drawn[k] == poses[q[k]].keypoints
  {
    if poses != [] {
      var init := poses[..|poses| - 1];
      var r := Each(init, threshold, image, estimated);
      assert r.completed;
      EachDrawsQualifying(init, threshold, image, estimated);
      QualifyingIndicesSpec(init, threshold);
      var q0 := QualifyingIndices(init, threshold);
      forall k | 0 <= k < |q0| ensures q0[k] < |init| && r.drawn[k] == poses[q0[k]].keypoints {
        assert q0[k] in q0;
      }
    }
  }

  /** After a loop that ran to the end, the flag says whether the last pose qualified (unchanged for no poses); after a throw it is set. */
  /**
   * Whether or not `_drawWrist` threw, the keypoint lists handed to it are
   * those of the first poses reaching the threshold, in list order: no pose
   * below the threshold is ever drawn.
   */
  lemma {:induction false} EachDrawsQualifyingPrefix(poses: seq<Pose>, threshold: real, image: Image, estimated: bool)
    ensures var drawn := Each(poses, threshold, image, estimated).drawn;
      var q := QualifyingIndices(poses, threshold);
      |drawn| <= |q| && forall k :: 0 <= k < |drawn| ==> q[k] < |poses| && drawn[k] == poses[q[k]].keypoints
  {
    if poses != [] {
      var init := poses[..|poses| - 1];
      var r := Each(init, threshold, image, estimated);
      var q0 := QualifyingIndices(init, threshold);
      EachDrawsQualifyingPrefix(init, threshold, image, estimated);
      QualifyingIndicesSpec(init, threshold);
      forall k | 0 <= k < |r.drawn| ensures q0[k] < |init| && r.drawn[k] == poses[q0[k]].keypoints {
        assert q0[k] in q0;
      }
      var p := poses[|poses| - 1];
      var q := QualifyingIndices(poses, threshold);
      assert q == q0 + (if p.score >= threshold then [|poses| - 1] else []);
      var drawn := Each(poses, threshold, image, estimated).drawn;
      if r.completed && p.score >= threshold {
        EachDrawsQualifying(init, threshold, image, estimated);
        assert drawn == r.drawn + [p.keypoints];
        assert |r.drawn| == |q0|;
      } else {
        assert drawn == r.drawn;
      }
    }
  }

  lemma {:induction false} EachVerdict(poses: seq<Pose>, threshold: real, image: Image, estimated: bool)
    ensures var r := Each(poses, threshold, image, estimated);
      && (poses == [] ==> r.estimated == estimated)
      && (poses != [] && r.completed ==> r.estimated == (poses[|poses| - 1].score >= threshold))
      && (!r.completed ==> r.estimated)
  {
    if poses != [] {
      EachVerdict(poses[..|poses| - 1], threshold, image, estimated);
    }
  }

  /** The overlays of a whole loop leave the drawing state as they found it. */
  lemma {:induction false} EachBalanced(s: State, poses: seq<Pose>, threshold: real, image: Image, estimated: bool)
    ensures Replay(s, Each(poses, threshold, image, estimated).cmds) == s
  {
    if poses != [] {
      var init := poses[..|poses| - 1];
      var r := Each(init, threshold, image, estimated);
      EachBalanced(s, init, threshold, image, estimated);
      var p := poses[|poses| - 1];
      if r.completed && p.score >= threshold && WristCmds(p.keypoints, image).Some? {
        var w := FindPart(p.keypoints, RightWrist).value.position;
        var e := FindPart(p.keypoints, RightElbow).value.position;
        ReplayAppend(s, r.cmds, OverlayCmds(w, e, image));
        OverlayBalanced(s, w, e, image);
      }
    }
  }

  // ---------------------------------------------------------------------------
  // One tick (`_poseDetectionFrame`)

  /** What a tick reads when it starts. `net` is `guiState.net`. */
  datatype Snapshot = Snapshot(algorithm: Algorithm, config: Config, pending: Option<Architecture>,
                               net: Handle, nextHandle: nat, image: Image, estimated: bool, canEstimated: bool)

  /** The confidence threshold of the mode. */
  function Threshold(algorithm: Algorithm, config: Config): real
  {
    match algorithm
    case SinglePose => config.single.minPoseConfidence
    case MultiPose => config.multi.minPoseConfidence
  }

  /** The model the tick estimates with: a freshly loaded one when a change is pending. */
  function NetAfterSwap(s: Snapshot): Handle
  {
    if s.pending.Some? then Handle(s.nextHandle) else s.net
  }

  function SwapEvents(s: Snapshot): seq<Event>
  {
    if s.pending.Some? then
      [Library(Dispose(s.net)), Library(Load(Some(Multiplier(s.pending.value)), Handle(s.nextHandle)))]
    else []
  }

  function EstimatorCall(algorithm: Algorithm, config: Config, net: Handle): Call
  {
    match algorithm
    case SinglePose => EstimateSingle(net, config.imageScaleFactor, FlipHorizontal, config.outputStride)
    case MultiPose =>
      EstimateMultiple(net, config.imageScaleFactor, FlipHorizontal, config.outputStride,
                       config.multi.maxPoseDetections, config.multi.minPartConfidence, config.multi.nmsRadius)
  }

  /** `this._poses` after estimation. */
  function Estimated(algorithm: Algorithm, frame: Frame): seq<Pose>
  {
    match algorithm
    case SinglePose => [frame.single]
    case MultiPose => frame.multiple
  }

  function TickRun(s: Snapshot, frame: Frame): Run
  {
    Each(Estimated(s.algorithm, frame), Threshold(s.algorithm, s.config), s.image, s.estimated)
  }

  /** A tick's events before the loop: the swap, the estimator call, the clear. */
  function TickHead(s: Snapshot): seq<Event>
  {
    SwapEvents(s) + [Library(EstimatorCall(s.algorithm, s.config, NetAfterSwap(s))), ClearCanvas]
  }

  /** A tick's events after the loop: the request for the next frame, if any. */
  function TickTail(s: Snapshot, frame: Frame): seq<Event>
  {
    if TickRun(s, frame).completed && s.canEstimated then [RequestAnimationFrame] else []
  }

  /** Everything one tick does, in order. */
  function TickEvents(s: Snapshot, frame: Frame): seq<Event>
  {
    TickHead(s) + DrawEvents(TickRun(s, frame).drawn) + TickTail(s, frame)
  }

  predicate IsEstimate(e: Event)
  {
    e.Library? && (e.call.EstimateSingle? || e.call.EstimateMultiple?)
  }

  /** The head holds library calls, then the clear as its last event. */
  lemma HeadShape(s: Snapshot)
    ensures var h := TickHead(s);
      && |h| == |SwapEvents(s)| + 2
      && h[|h| - 2] == Library(EstimatorCall(s.algorithm, s.config, NetAfterSwap(s)))
      && h[|h| - 1] == ClearCanvas
      && (forall i :: 0 <= i < |h| - 2 ==> h[i].Library? && !IsEstimate(h[i]))
  {
  }

  /** Where the parts of `h + DrawEvents(drawn) + t` sit. */
  lemma Layout(h: seq<Event>, drawn: seq<seq<Keypoint>>, t: seq<Event>)
    ensures var e := h + DrawEvents(drawn) + t;
      && |e| == |h| + |drawn| + |t|
      && (forall i :: 0 <= i < |h| ==> e[i] == h[i])
      && (forall i :: |h| <= i < |h| + |drawn| ==> e[i] == DrawWristCalled(drawn[i - |h|]))
      && (forall i :: |h| + |drawn| <= i < |e| ==> e[i] == t[i - |h| - |drawn|])
  {
    DrawEventsShape(drawn);
  }

  /** Where each part of a tick sits in its events. */
  lemma TickLayout(s: Snapshot, frame: Frame)
    ensures var e := TickEvents(s, frame);
      var h := TickHead(s);
      var drawn := TickRun(s, frame).drawn;
      && |e| == |h| + |drawn| + |TickTail(s, frame)|
      && (forall i :: 0 <= i < |h| ==> e[i] == h[i])
      && (forall i :: |h| <= i < |h| + |drawn| ==> e[i] == DrawWristCalled(drawn[i - |h|]))
      && (forall i :: |h| + |drawn| <= i < |e| ==> e[i] == RequestAnimationFrame)
  {
    Layout(TickHead(s), TickRun(s, frame).drawn, TickTail(s, frame));
  }

  /**
   * A tick clears the canvas exactly once: right after the estimator call and
   * before every `_drawWrist` call.
   */
  lemma TickClearsOnce(s: Snapshot, frame: Frame)
    ensures var e := TickEvents(s, frame);
      var k := |SwapEvents(s)| + 1;
      && k < |e| && e[k] == ClearCanvas && IsEstimate(e[k - 1])
      && (forall i :: 0 <= i < |e| && e[i] == ClearCanvas ==> i == k)
      && (forall i :: 0 <= i < |e| && e[i].DrawWristCalled? ==> k < i)
  {
    TickLayout(s, frame);
    HeadShape(s);
  }

  /**
   * A tick calls the estimator exactly once: the single-pose one in
   * single-pose mode and the multi-pose one, with the multi-pose parameters,
   * in multi-pose mode, on the model left by the swap.
   */
  lemma TickEstimatesOnce(s: Snapshot, frame: Frame)
    ensures var e := TickEvents(s, frame);
      var k := |SwapEvents(s)| + 1;
      && k < |e|
      && (forall i :: 0 <= i < |e| && IsEstimate(e[i]) ==> i == k - 1)
      && (s.algorithm == SinglePose ==>
            e[k - 1] == Library(EstimateSingle(NetAfterSwap(s), s.config.imageScaleFactor, true, s.config.outputStride)))
      && (s.algorithm == MultiPose ==>
            e[k - 1] == Library(EstimateMultiple(NetAfterSwap(s), s.config.imageScaleFactor, true, s.config.outputStride,
                                                 s.config.multi.maxPoseDetections, s.config.multi.minPartConfidence,
                                                 s.config.multi.nmsRadius)))
  {
    TickLayout(s, frame);
    HeadShape(s);
  }

  /** Events that dispose nothing project to no disposed handles. */
  lemma {:induction false} NoDisposals(events: seq<Event>)
    requires forall i :: 0 <= i < |events| ==> !IsDispose(events[i])
    ensures Disposed(events) == []
  {
    if events != [] {
      NoDisposals(events[..|events| - 1]);
    }
  }

  /** Events with no `_drawWrist` call project to no drawn keypoints. */
  lemma {:induction false} NoDraws(events: seq<Event>)
    requires forall i :: 0 <= i < |events| ==> !events[i].DrawWristCalled?
    ensures Drawn(events) == []
  {
    if events != [] {
      NoDraws(events[..|events| - 1]);
    }
  }

  /** The swap disposes the current model, and nothing when no change is pending. */
  lemma SwapProjections(s: Snapshot)
    ensures Disposed(SwapEvents(s)) == if s.pending.Some? then [s.net] else []
    ensures Drawn(SwapEvents(s)) == []
  {
    var sw := SwapEvents(s);
    NoDraws(sw);
    if s.pending.Some? {
      assert sw == [sw[0]] + [sw[1]];
      assert [sw[0]][..0] == [] && [sw[1]][..0] == [];
      ProjectionsAppend([sw[0]], [sw[1]]);
    }
  }

  /**
   * With a change pending, a tick first disposes the current model and then
   * loads the chosen architecture, and estimates with the new model; without
   * one it neither disposes nor loads.
   */
  lemma TickSwap(s: Snapshot, frame: Frame)
    ensures var e := TickEvents(s, frame);
      && (s.pending.Some? ==>
            e[0] == Library(Dispose(s.net)) &&
            e[1] == Library(Load(Some(Multiplier(s.pending.value)), Handle(s.nextHandle))) &&
            NetAfterSwap(s) == Handle(s.nextHandle))
      && (s.pending.None? ==>
            NetAfterSwap(s) == s.net &&
            forall i :: 0 <= i < |e| && e[i].Library? ==> !e[i].call.Dispose? && !e[i].call.Load?)
  {
    TickLayout(s, frame);
  }

  /** What the head of a tick disposes is what its swap disposes. */
  lemma HeadDisposes(s: Snapshot)
    ensures Disposed(TickHead(s)) == if s.pending.Some? then [s.net] else []
  {
    var mid := [Library(EstimatorCall(s.algorithm, s.config, NetAfterSwap(s))), ClearCanvas];
    NoDisposals(mid);
    SwapProjections(s);
    ProjectionsAppend(SwapEvents(s), mid);
  }

  /** Around a loop's `_drawWrist` events, events that call neither `dispose` nor `_drawWrist` add nothing to either projection. */
  lemma Projections(h: seq<Event>, drawn: seq<seq<Keypoint>>, t: seq<Event>)
    requires forall i :: 0 <= i < |h| ==> !h[i].DrawWristCalled?
    requires forall i :: 0 <= i < |t| ==> !t[i].DrawWristCalled? && !IsDispose(t[i])
    ensures Drawn(h + DrawEvents(drawn) + t) == drawn
    ensures Disposed(h + DrawEvents(drawn) + t) == Disposed(h)
  {
    var d := DrawEvents(drawn);
    NoDraws(h);
    NoDraws(t);
    NoDisposals(t);
    DrawEventsProjections(drawn);
    ProjectionsAppend(h, d);
    ProjectionsAppend(h + d, t);
  }

  /** The only model a tick disposes is the current one, and only when a change is pending. */
  lemma TickDisposes(s: Snapshot, frame: Frame)
    ensures Disposed(TickEvents(s, frame)) == if s.pending.Some? then [s.net] else []
  {
    HeadShape(s);
    HeadDisposes(s);
    Projections(TickHead(s), TickRun(s, frame).drawn, TickTail(s, frame));
  }

  /** Two ticks with a change pending dispose the model each of them started with, in order. */
  lemma TwoSwapsDispose(before: seq<Event>, s1: Snapshot, first: Frame, s2: Snapshot, second: Frame)
    requires s1.pending.Some? && s2.pending.Some?
    ensures Disposed(before + TickEvents(s1, first) + TickEvents(s2, second)) == Disposed(before) + [s1.net, s2.net]
  {
    TickDisposes(s1, first);
    TickDisposes(s2, second);
    ProjectionsAppend(before, TickEvents(s1, first));
    ProjectionsAppend(before + TickEvents(s1, first), TickEvents(s2, second));
  }

  /** A tick during whose await `releaseEstimate` ran to completion. */
  function InterruptedTickEvents(s: Snapshot, frame: Frame): seq<Event>
  {
    SwapEvents(s) + [Library(EstimatorCall(s.algorithm, s.config, NetAfterSwap(s))), GuiDestroyed, CameraStopped, ClearCanvas]
      + DrawEvents(TickRun(s, frame).drawn)
  }

  /**
   * A tick interrupted by `releaseEstimate` draws what the uninterrupted tick
   * would have drawn, and never requests another frame.
   */
  lemma InterruptedTickStops(s: Snapshot, frame: Frame)
    ensures RequestAnimationFrame !in InterruptedTickEvents(s, frame)
    ensures Drawn(InterruptedTickEvents(s, frame)) == Drawn(TickEvents(s, frame))
  {
    var h := SwapEvents(s) + [Library(EstimatorCall(s.algorithm, s.config, NetAfterSwap(s))), GuiDestroyed, CameraStopped, ClearCanvas];
    var drawn := TickRun(s, frame).drawn;
    Layout(h, drawn, []);
    assert InterruptedTickEvents(s, frame) == h + DrawEvents(drawn) + [];
    var e := InterruptedTickEvents(s, frame);
    forall i | 0 <= i < |h| ensures !h[i].DrawWristCalled? && h[i] != RequestAnimationFrame {
      if i < |SwapEvents(s)| { assert h[i] == SwapEvents(s)[i]; }
    }
    forall i | 0 <= i < |e| ensures e[i] != RequestAnimationFrame {
      if i < |h| { assert e[i] == h[i]; }
    }
    Projections(h, drawn, []);
    TickDrawn(s, frame);
  }

  /** The keypoint lists a tick hands to `_drawWrist` are those of its loop run. */
  lemma TickDrawn(s: Snapshot, frame: Frame)
    ensures Drawn(TickEvents(s, frame)) == TickRun(s, frame).drawn
  {
    HeadShape(s);
    Projections(TickHead(s), TickRun(s, frame).drawn, TickTail(s, frame));
  }

  /**
   * When no qualifying pose lacks a right wrist or elbow, the tick calls
   * `_drawWrist` once per pose whose score reaches the mode's threshold, in
   * list order, and for no other pose.
   */
  lemma TickDraws(s: Snapshot, frame: Frame)
    requires var thr := Threshold(s.algorithm, s.config);
      forall p :: p in Estimated(s.algorithm, frame) ==> !Throws(p, thr, s.image)
    ensures var poses := if s.algorithm == SinglePose then [frame.single] else frame.multiple;
      var thr := if s.algorithm == SinglePose then s.config.single.minPoseConfidence else s.config.multi.minPoseConfidence;
      var q := QualifyingIndices(poses, thr);
      var drawn := Drawn(TickEvents(s, frame));
      && |drawn| == |q|
      && (forall k :: 0 <= k < |q| ==> q[k] < |poses| && drawn[k] == poses[q[k]].keypoints)
      && (forall j: nat :: j in q <==> j < |poses| && poses[j].score >= thr)
  {
    var poses := Estimated(s.algorithm, frame);
    var thr := Threshold(s.algorithm, s.config);
    EachCompletes(poses, thr, s.image, s.estimated);
    EachDrawsQualifying(poses, thr, s.image, s.estimated);
    QualifyingIndicesSpec(poses, thr);
    TickDrawn(s, frame);
  }

  /**
   * In every tick, including one that `_drawWrist` cut short, the keypoint
   * lists handed to `_drawWrist` are those of the first poses whose score
   * reaches the mode's threshold, in list order.
   */
  lemma TickDrawsOnlyQualifying(s: Snapshot, frame: Frame)
    ensures var poses := Estimated(s.algorithm, frame);
      var q := QualifyingIndices(poses, Threshold(s.algorithm, s.config));
      var drawn := Drawn(TickEvents(s, frame));
      && |drawn| <= |q|
      && (forall k :: 0 <= k < |drawn| ==> q[k] < |poses| && drawn[k] == poses[q[k]].keypoints)
  {
    EachDrawsQualifyingPrefix(Estimated(s.algorithm, frame), Threshold(s.algorithm, s.config), s.image, s.estimated);
    TickDrawn(s, frame);
  }

  /** A tick's only frame request is its last event, and it is there exactly when the loop completed with estimation enabled. */
  lemma TickRequest(s: Snapshot, frame: Frame)
    ensures var e := TickEvents(s, frame);
      var run := TickRun(s, frame);
      && (RequestAnimationFrame in e <==> run.completed && s.canEstimated)
      && (RequestAnimationFrame in e ==> e[|e| - 1] == RequestAnimationFrame)
  {
    var e := TickEvents(s, frame);
    TickLayout(s, frame);
    HeadShape(s);
    var n := |TickHead(s)| + |DrawEvents(TickRun(s, frame).drawn)|;
    forall i | 0 <= i < n ensures e[i] != RequestAnimationFrame {}
    if TickRun(s, frame).completed && s.canEstimated {
      assert e[|e| - 1] == RequestAnimationFrame;
    }
  }

  /**
   * A tick requests the next frame exactly when `_canEstimated` is set and no
   * qualifying pose made `_drawWrist` throw; the request is its last event.
   */
  lemma TickReschedules(s: Snapshot, frame: Frame)
    ensures var e := TickEvents(s, frame);
      && (RequestAnimationFrame in e <==>
            s.canEstimated &&
            forall j :: 0 <= j < |Estimated(s.algorithm, frame)| ==>
              !Throws(Estimated(s.algorithm, frame)[j], Threshold(s.algorithm, s.config), s.image))
      && (RequestAnimationFrame in e ==> e[|e| - 1] == RequestAnimationFrame)
  {
    EachCompletes(Estimated(s.algorithm, frame), Threshold(s.algorithm, s.config), s.image, s.estimated);
    TickRequest(s, frame);
  }

  /**
   * After a tick, `_isEstimatedPose` says whether the last pose's score
   * reached the threshold; with no poses it is unchanged. In single-pose mode
   * that is the one estimated pose.
   */
  lemma TickVerdict(s: Snapshot, frame: Frame)
    ensures var poses := Estimated(s.algorithm, frame);
      var thr := Threshold(s.algorithm, s.config);
      var r := TickRun(s, frame);
      && (poses == [] ==> r.estimated == s.estimated)
      && (poses != [] && r.completed ==> r.estimated == (poses[|poses| - 1].score >= thr))
      && (s.algorithm == SinglePose && r.completed ==>
            r.estimated == (frame.single.score >= s.config.single.minPoseConfidence))
  {
    EachVerdict(Estimated(s.algorithm, frame), Threshold(s.algorithm, s.config), s.image, s.estimated);
  }

  // ---------------------------------------------------------------------------
  // The estimator object

  /**
   * No model is disposed twice, every handle seen was handed out before
   * `nextHandle`, and the model in `guiState.net` is not disposed.
   */
  ghost predicate HandlesSound(disposed: seq<Handle>, guiNet: Option<Handle>, net: Option<Handle>, nextHandle: nat)
  {
    && NoRepeats(disposed)
    && (forall i :: 0 <= i < |disposed| ==> disposed[i].id < nextHandle)
    && (guiNet.Some? ==> guiNet.value.id < nextHandle && guiNet.value !in disposed)
    && (net.Some? ==> net.value.id < nextHandle)
  }

  /** Loading a model under the next handle keeps the handles sound, whether or not it is published. */
  lemma LoadKeepsSound(disposed: seq<Handle>, guiNet: Option<Handle>, net: Option<Handle>, nextHandle: nat)
    requires HandlesSound(disposed, guiNet, net, nextHandle)
    ensures HandlesSound(disposed, guiNet, Some(Handle(nextHandle)), nextHandle + 1)
    ensures HandlesSound(disposed, Some(Handle(nextHandle)), Some(Handle(nextHandle)), nextHandle + 1)
  {
    forall i | 0 <= i < |disposed| ensures disposed[i] != Handle(nextHandle) {
      assert disposed[i].id < nextHandle;
    }
  }

  /** Disposing `guiState.net` and loading a replacement under the next handle keeps the handles sound. */
  lemma SwapKeepsSound(disposed: seq<Handle>, current: Handle, net: Option<Handle>, nextHandle: nat)
    requires HandlesSound(disposed, Some(current), net, nextHandle)
    ensures HandlesSound(disposed + [current], Some(Handle(nextHandle)), net, nextHandle + 1)
  {
    var d := disposed + [current];
    forall i, j | 0 <= i < j < |d| ensures d[i] != d[j] {
      if j == |disposed| {
        assert d[i] == disposed[i];
      }
    }
    forall i | 0 <= i < |d| ensures d[i].id < nextHandle {
      if i < |disposed| { assert d[i] == disposed[i]; }
    }
  }

  datatype SetupOutcome =
    | Ready
      /** the camera was refused: the error is logged and the video never reports its metadata */
    | CameraPending
      /** the overlay image failed to load: `setup` rejects */
    | ImageRejected

  function SetupEvents(net: Handle, cameraGranted: bool, imageLoads: bool): seq<Event>
  {
    [Library(Load(Some(SetupMultiplier), net))]
      + (if cameraGranted then [CameraStarted, GuiBuilt] + (if imageLoads then [ImageLoaded(WatchImageUrl)] else []) else [])
  }

  /**
   * The module-level `guiState` and the instance fields of
   * `EstimatePoseFromMovie`, which the source creates once and exports.
   */
  class EstimatePoseFromMovie {
    // guiState
    var algorithm: Algorithm
    var config: Config
    var changeToArchitecture: Option<Architecture>
    var guiNet: Option<Handle>
    // this._*
    var net: Option<Handle>
    var gui: bool
    var cameraOn: bool
    var isEstimatedPose: bool
    var canEstimated: bool
    var poses: seq<Pose>
    var watchImage: Option<Image>
    /** The id the next loaded model gets. */
    var nextHandle: nat
    const ctx: Context2D
    /** Every call into the library and every step of note, in order. */
    ghost var log: seq<Event>
    /** The models disposed so far, in order; `Disposed` of the `dispose` calls in `log`. */
    ghost var disposed: seq<Handle>

    /** Handles are never reused, and no model is disposed twice or while it is `guiState.net`. */
    ghost predicate Valid()
      reads this
    {
      HandlesSound(disposed, guiNet, net, nextHandle)
    }

    /** `setup` has loaded a model into `guiState.net` and the overlay image. */
    predicate Started()
      reads this
    {
      guiNet.Some? && watchImage.Some?
    }

    function Snap(): Snapshot
      reads this
      requires Started()
    {
      Snapshot(algorithm, config, changeToArchitecture, guiNet.value, nextHandle, watchImage.value,
               isEstimatedPose, canEstimated)
    }

    constructor (ctx: Context2D)
      ensures Valid() && this.ctx == ctx
      ensures algorithm == MultiPose && config == DefaultConfig && changeToArchitecture == None && guiNet == None
      ensures net == None && !gui && !cameraOn && !isEstimatedPose && !canEstimated && poses == []
      ensures watchImage == None && log == []
    {
      this.ctx := ctx;
      algorithm, config, changeToArchitecture, guiNet := MultiPose, DefaultConfig, None, None;
      net, gui, cameraOn := None, false, false;
      isEstimatedPose, canEstimated, poses := false, false, [];
      watchImage, nextHandle := None, 0;
      log, disposed := [], [];
    }

    /** `posenet.load(0.75)` in `setup`: the loaded model becomes `this._net`. */
    method LoadNet()
      requires Valid()
      modifies this`nextHandle, this`log, this`net
      ensures Valid()
      ensures net == Some(Handle(old(nextHandle))) && nextHandle == old(nextHandle) + 1
      ensures net.value !in disposed
      ensures log == old(log) + [Library(Load(Some(SetupMultiplier), net.value))]
    {
      var loaded := Handle(nextHandle);
      LoadKeepsSound(disposed, guiNet, net, nextHandle);
      nextHandle := nextHandle + 1;
      log := log + [Library(Load(Some(SetupMultiplier), loaded))];
      net := Some(loaded);
    }

    /**
     * `_playCamera`: ask for the camera. When access is refused the error is
     * only logged and the video never reports its metadata, so the returned
     * promise never settles.
     */
    method PlayCamera(granted: bool) returns (started: bool)
      requires Valid()
      modifies this`cameraOn, this`log
      ensures Valid()
      ensures started == granted
      ensures cameraOn == (old(cameraOn) || granted)
      ensures log == old(log) + if granted then [CameraStarted] else []
    {
      if !granted {
        return false;
      }
      cameraOn := true;
      log := log + [CameraStarted];
      started := true;
    }

    /** `_setupGui([], this._net)`: publish the model as `guiState.net` and build the panel. */
    method SetupGui()
      requires Valid() && net.Some? && net.value !in disposed
      modifies this`guiNet, this`gui, this`log
      ensures Valid()
      ensures guiNet == net && gui
      ensures log == old(log) + [GuiBuilt]
    {
      guiNet := net;
      gui := true;
      log := log + [GuiBuilt];
    }

    /** `_setupCanvas`: size the canvas to the video, then load the overlay image. */
    method SetupCanvas(imageLoads: bool) returns (loaded: bool)
      requires Valid()
      modifies this`watchImage, this`log, ctx`width, ctx`height
      ensures Valid()
      ensures loaded == imageLoads
      ensures ctx.width == VideoWidth && ctx.height == VideoHeight
      ensures watchImage == if imageLoads then Some(Image(WatchImageUrl)) else old(watchImage)
      ensures log == old(log) + if imageLoads then [ImageLoaded(WatchImageUrl)] else []
    {
      ctx.Resize(VideoWidth, VideoHeight);
      if !imageLoads {
        return false;
      }
      watchImage := Some(Image(WatchImageUrl));
      log := log + [ImageLoaded(WatchImageUrl)];
      loaded := true;
    }

    /**
     * `setup`: load the model, start the camera, build the panel, size the
     * canvas and load the overlay image, and only then enable estimation.
     */
    method Setup(cameraGranted: bool, imageLoads: bool) returns (outcome: SetupOutcome)
      requires Valid()
      modifies this`nextHandle, this`log, this`net, this`cameraOn, this`guiNet, this`gui, this`watchImage
      modifies this`canEstimated, ctx`width, ctx`height
      ensures Valid()
      ensures outcome == if !cameraGranted then CameraPending else if !imageLoads then ImageRejected else Ready
      ensures canEstimated == (old(canEstimated) || outcome == Ready)
      ensures log == old(log) + SetupEvents(Handle(old(nextHandle)), cameraGranted, imageLoads)
      ensures net == Some(Handle(old(nextHandle))) && nextHandle == old(nextHandle) + 1
      ensures guiNet == if cameraGranted then net else old(guiNet)
      ensures gui == (cameraGranted || old(gui)) && cameraOn == (cameraGranted || old(cameraOn))
      ensures cameraGranted ==> ctx.width == VideoWidth && ctx.height == VideoHeight
      ensures !cameraGranted ==> ctx.width == old(ctx.width) && ctx.height == old(ctx.height)
      ensures watchImage == if outcome == Ready then Some(Image(WatchImageUrl)) else old(watchImage)
      ensures outcome == Ready ==> Started()
    {
      LoadNet();
      var started := PlayCamera(cameraGranted);
      if !started {
        return CameraPending;
      }
      SetupGui();
      var imageLoaded := SetupCanvas(imageLoads);
      if !imageLoaded {
        return ImageRejected;
      }
      canEstimated := true;
      outcome := Ready;
    }

    /** The panel's architecture `onChange` handler: mark the change; a later tick acts on it. */
    method OnArchitectureChange(architecture: Architecture)
      modifies this`changeToArchitecture
      ensures changeToArchitecture == Some(architecture)
    {
      changeToArchitecture := Some(architecture);
    }

    /**
     * `releaseEstimate`: disable estimation, destroy the panel and stop the
     * camera. It throws when there is no panel. It never disposes the model.
     */
    method ReleaseEstimate() returns (completed: bool)
      requires Valid()
      modifies this`canEstimated, this`gui, this`cameraOn, this`log
      ensures Valid()
      ensures !canEstimated
      ensures completed == old(gui)
      ensures log == old(log) + if completed then [GuiDestroyed, CameraStopped] else []
      ensures Disposed(log) == Disposed(old(log))
      ensures !gui && cameraOn == (old(cameraOn) && !completed)
    {
      canEstimated := false;
      if !gui {
        return false;
      }
      gui := false;
      log := log + [GuiDestroyed];
      cameraOn := false;
      log := log + [CameraStopped];
      completed := true;
    }

    /** `_drawWrist`. `ok` is false when it throws for want of a right wrist or elbow. */
    method DrawWrist(keypoints: seq<Keypoint>) returns (ok: bool)
      requires watchImage.Some?
      modifies ctx`log, ctx`state
      ensures ok == WristCmds(keypoints, watchImage.value).Some?
      ensures ctx.log == old(ctx.log) + if ok then WristCmds(keypoints, watchImage.value).value else []
      ensures ctx.state == old(ctx.state)
    {
      var leftWrist := FindPart(keypoints, RightWrist);
      var leftElbow := FindPart(keypoints, RightElbow);
      if leftWrist.None? || leftElbow.None? {
        return false;
      }
      var w := leftWrist.value.position;
      var e := leftElbow.value.position;
      var scale := DistanceOver(w, e, ReferenceDistance);
      ctx.Issue(Save);
      ctx.Issue(Transform(Translate(w.x, w.y)));
      ctx.Issue(Transform(Scale(scale, scale)));
      ctx.Issue(Transform(Rotate(Atan2(w.y - e.y, w.x - e.x))));
      ctx.Issue(DrawImage(watchImage.value, -100.0, -120.0, 200.0, 240.0));
      ctx.Issue(Restore);
      ok := true;
    }

    /** The `_.each` loop of a tick; `completed` is false when `_drawWrist` threw. */
    method EachPose(poses: seq<Pose>, threshold: real) returns (completed: bool)
      requires Valid() && watchImage.Some?
      modifies this`isEstimatedPose, this`log, ctx`log, ctx`state
      ensures Valid()
      ensures var run := Each(poses, threshold, watchImage.value, old(isEstimatedPose));
        && completed == run.completed
        && isEstimatedPose == run.estimated
        && log == old(log) + DrawEvents(run.drawn)
        && ctx.log == old(ctx.log) + run.cmds
      ensures ctx.state == old(ctx.state)
    {
      var i := 0;
      completed := true;
      ghost var drawn: seq<seq<Keypoint>> := [];
      ghost var cmds: seq<Cmd> := [];
      while i < |poses| && completed
        invariant 0 <= i <= |poses|
        invariant Run(drawn, cmds, isEstimatedPose, completed)
                  == Each(poses[..i], threshold, watchImage.value, old(isEstimatedPose))
        invariant log == old(log) + DrawEvents(drawn)
        invariant ctx.log == old(ctx.log) + cmds
        invariant ctx.state == old(ctx.state)
        invariant Valid()
      {
        var pose := poses[i];
        assert poses[..i + 1][..i] == poses[..i];
        if pose.score >= threshold {
          isEstimatedPose := true;
          log := log + [DrawWristCalled(pose.keypoints)];
          var ok := DrawWrist(pose.keypoints);
          assert (drawn + [pose.keypoints])[..|drawn|] == drawn;
          drawn := drawn + [pose.keypoints];
          if ok {
            cmds := cmds + WristCmds(pose.keypoints, watchImage.value).value;
          } else {
            completed := false;
          }
        } else {
          isEstimatedPose := false;
        }
        i := i + 1;
      }
      if !completed {
        ThrowEndsLoop(poses, i, threshold, watchImage.value, old(isEstimatedPose));
      } else {
        assert poses[..i] == poses;
      }
    }

    /**
     * The start of a tick: when an architecture change is pending, dispose
     * `guiState.net` and load the chosen architecture in its place.
     */
    method SwapArchitecture()
      requires Valid() && Started()
      modifies this`log, this`disposed, this`nextHandle, this`guiNet
      ensures Valid() && Started()
      ensures log == old(log) + SwapEvents(old(Snap()))
      ensures guiNet == Some(NetAfterSwap(old(Snap())))
      ensures disposed == old(disposed) + if changeToArchitecture.Some? then [old(guiNet.value)] else []
      ensures nextHandle == old(nextHandle) + if changeToArchitecture.Some? then 1 else 0
    {
      if changeToArchitecture.Some? {
        var current := guiNet.value;
        var loaded := Handle(nextHandle);
        SwapKeepsSound(disposed, current, net, nextHandle);
        log := log + [Library(Dispose(current))];
        disposed := disposed + [current];
        nextHandle := nextHandle + 1;
        log := log + [Library(Load(Some(Multiplier(changeToArchitecture.value)), loaded))];
        guiNet := Some(loaded);
      }
    }

    /** Estimate the poses of `frame` in the configured mode; returns that mode's threshold. */
    method Estimate(frame: Frame) returns (threshold: real)
      requires Valid() && Started()
      modifies this`log, this`poses
      ensures Valid()
      ensures log == old(log) + [Library(EstimatorCall(algorithm, config, guiNet.value))]
      ensures poses == Estimated(algorithm, frame)
      ensures threshold == Threshold(algorithm, config)
    {
      poses := [];
      var call: Call;
      match algorithm {
        case SinglePose =>
          call := EstimateSingle(guiNet.value, config.imageScaleFactor, FlipHorizontal, config.outputStride);
          poses := poses + [frame.single];
          threshold := config.single.minPoseConfidence;
        case MultiPose =>
          call := EstimateMultiple(guiNet.value, config.imageScaleFactor, FlipHorizontal, config.outputStride,
                                   config.multi.maxPoseDetections, config.multi.minPartConfidence,
                                   config.multi.nmsRadius);
          poses := frame.multiple;
          threshold := config.multi.minPoseConfidence;
      }
      log := log + [Library(call)];
    }

    /** Clear the whole canvas before drawing a frame. */
    method ClearFrame()
      requires Valid()
      modifies this`log, ctx`log, ctx`state
      ensures Valid()
      ensures log == old(log) + [ClearCanvas]
      ensures ctx.log == old(ctx.log) + [ClearRect(0.0, 0.0, ctx.width, ctx.height)]
      ensures ctx.state == old(ctx.state)
    {
      log := log + [ClearCanvas];
      ctx.Issue(ClearRect(0.0, 0.0, ctx.width, ctx.height));
    }

    /** The end of a tick: request the next frame unless estimation was disabled or the loop threw. */
    method Reschedule(completed: bool)
      requires Valid()
      modifies this`log
      ensures Valid()
      ensures log == old(log) + if completed && canEstimated then [RequestAnimationFrame] else []
    {
      if completed && canEstimated {
        log := log + [RequestAnimationFrame];
      }
    }

    /** The part of a tick before the loop: swap the model if asked to, estimate, clear the canvas. */
    method BeginFrame(frame: Frame) returns (threshold: real)
      requires Valid() && Started()
      modifies this`log, this`disposed, this`nextHandle, this`guiNet, this`poses, ctx`log, ctx`state
      ensures Valid() && Started()
      ensures log == old(log) + SwapEvents(old(Snap()))
                     + [Library(EstimatorCall(algorithm, config, NetAfterSwap(old(Snap())))), ClearCanvas]
      ensures ctx.log == old(ctx.log) + [ClearRect(0.0, 0.0, ctx.width, ctx.height)]
      ensures ctx.state == old(ctx.state)
      ensures poses == Estimated(algorithm, frame)
      ensures threshold == Threshold(algorithm, config)
      ensures guiNet == Some(NetAfterSwap(old(Snap())))
      ensures disposed == old(disposed) + if changeToArchitecture.Some? then [old(guiNet.value)] else []
      ensures nextHandle == old(nextHandle) + if changeToArchitecture.Some? then 1 else 0
    {
      SwapArchitecture();
      threshold := Estimate(frame);
      ClearFrame();
    }

    /** The part of a tick from the loop on: draw the poses, then request the next frame if still enabled. */
    method FinishFrame(threshold: real) returns (completed: bool)
      requires Valid() && Started()
      modifies this`log, this`isEstimatedPose, ctx`log, ctx`state
      ensures Valid() && Started()
      ensures var run := Each(poses, threshold, watchImage.value, old(isEstimatedPose));
        && completed == run.completed
        && isEstimatedPose == run.estimated
        && log == old(log) + DrawEvents(run.drawn) + (if run.completed && canEstimated then [RequestAnimationFrame] else [])
        && ctx.log == old(ctx.log) + run.cmds
      ensures ctx.state == old(ctx.state)
    {
      completed := EachPose(poses, threshold);
      Reschedule(completed);
    }

    /**
     * `_poseDetectionFrame`: one tick. `frame` is what the library answers for
     * the current video frame. `completed` is false when `_drawWrist` threw,
     * which ends the loop.
     */
    method PoseDetectionFrame(frame: Frame) returns (completed: bool)
      requires Valid() && Started()
      modifies this`log, this`disposed, this`nextHandle, this`guiNet, this`poses, this`isEstimatedPose
      modifies ctx`log, ctx`state
      ensures Valid() && Started()
      ensures log == old(log) + TickEvents(old(Snap()), frame)
      ensures ctx.log == old(ctx.log) + [ClearRect(0.0, 0.0, ctx.width, ctx.height)] + TickRun(old(Snap()), frame).cmds
      ensures ctx.state == old(ctx.state)
      ensures completed == TickRun(old(Snap()), frame).completed
      ensures isEstimatedPose == TickRun(old(Snap()), frame).estimated
      ensures poses == Estimated(algorithm, frame)
      ensures guiNet == Some(NetAfterSwap(old(Snap())))
      ensures disposed == old(disposed) + if changeToArchitecture.Some? then [old(guiNet.value)] else []
      ensures nextHandle == old(nextHandle) + if changeToArchitecture.Some? then 1 else 0
    {
      ghost var s := Snap();
      var threshold := BeginFrame(frame);
      ghost var head := log;
      assert head == old(log) + TickHead(s);
      completed := FinishFrame(threshold);
      assert log == head + DrawEvents(TickRun(s, frame).drawn) + TickTail(s, frame);
    }

    /**
     * `releaseEstimate` running while a tick awaits the estimator: the tick
     * still clears the canvas and draws its poses, but it does not request
     * another frame.
     */
    method TickInterruptedByRelease(frame: Frame) returns (completed: bool)
      requires Valid() && Started() && gui
      modifies this`log, this`disposed, this`nextHandle, this`guiNet, this`poses, this`isEstimatedPose
      modifies this`canEstimated, this`gui, this`cameraOn, ctx`log, ctx`state
      ensures Valid() && !canEstimated && !gui && !cameraOn
      ensures completed == TickRun(old(Snap()), frame).completed
      ensures log == old(log) + InterruptedTickEvents(old(Snap()), frame)
      ensures ctx.log == old(ctx.log) + [ClearRect(0.0, 0.0, ctx.width, ctx.height)] + TickRun(old(Snap()), frame).cmds
      ensures ctx.state == old(ctx.state)
      ensures isEstimatedPose == TickRun(old(Snap()), frame).estimated
      ensures poses == Estimated(algorithm, frame)
      ensures guiNet == Some(NetAfterSwap(old(Snap())))
      ensures disposed == old(disposed) + if changeToArchitecture.Some? then [old(guiNet.value)] else []
      ensures nextHandle == old(nextHandle) + if changeToArchitecture.Some? then 1 else 0
    {
      var threshold := BeginReleasedFrame(frame);
      completed := FinishFrame(threshold);
    }

    /** The part of an interrupted tick before its loop: the swap, the estimator call, the release, the clear. */
    method BeginReleasedFrame(frame: Frame) returns (threshold: real)
      requires Valid() && Started() && gui
      modifies this`log, this`disposed, this`nextHandle, this`guiNet, this`poses
      modifies this`canEstimated, this`gui, this`cameraOn, ctx`log, ctx`state
      ensures Valid() && Started() && !canEstimated && !gui && !cameraOn
      ensures log == old(log) + SwapEvents(old(Snap()))
                     + [Library(EstimatorCall(algorithm, config, NetAfterSwap(old(Snap())))),
                        GuiDestroyed, CameraStopped, ClearCanvas]
      ensures ctx.log == old(ctx.log) + [ClearRect(0.0, 0.0, ctx.width, ctx.height)]
      ensures ctx.state == old(ctx.state)
      ensures poses == Estimated(algorithm, frame)
      ensures threshold == Threshold(algorithm, config)
      ensures guiNet == Some(NetAfterSwap(old(Snap())))
      ensures disposed == old(disposed) + if changeToArchitecture.Some? then [old(guiNet.value)] else []
      ensures nextHandle == old(nextHandle) + if changeToArchitecture.Some? then 1 else 0
    {
      SwapArchitecture();
      threshold := Estimate(frame);
      var released := ReleaseEstimate();
      ClearFrame();
    }

    /**
     * Once an architecture has been chosen, every tick swaps the model again:
     * the second of two ticks disposes the model the first one loaded.
     */
    method TwoTicksAfterChange(architecture: Architecture, first: Frame, second: Frame)
      requires Valid() && Started()
      modifies this`changeToArchitecture, this`log, this`disposed, this`nextHandle, this`guiNet, this`poses
      modifies this`isEstimatedPose, ctx`log, ctx`state
      ensures Valid() && changeToArchitecture == Some(architecture)
      ensures disposed == old(disposed) + [old(guiNet.value), Handle(old(nextHandle))]
      ensures guiNet == Some(Handle(old(nextHandle) + 1)) && nextHandle == old(nextHandle) + 2
      ensures Disposed(log) == Disposed(old(log)) + [old(guiNet.value), Handle(old(nextHandle))]
    {
      OnArchitectureChange(architecture);
      ghost var s1 := Snap();
      var completed := PoseDetectionFrame(first);
      ghost var s2 := Snap();
      assert s2.pending.Some? && s2.net == Handle(old(nextHandle));
      completed := PoseDetectionFrame(second);
      TwoSwapsDispose(old(log), s1, first, s2, second);
    }
  }
}
