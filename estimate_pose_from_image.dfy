/**
 * Pose estimation on a still image: estimate one pose, then draw a dot on
 * every keypoint and three polylines (body, right arm, left arm) through
 * fixed subsets of the keypoints, unless the canvas was cleared meanwhile.
 */
module PoseFromImage {
  import opened Canvas
  import opened PoseNet
  import opened CanvasHelper
  import opened Sequences

  const ImageScaleFactor := 0.5
  const FlipHorizontal := false
  const OutputStride := 16
  const CanvasSize := 564.0

  /** Keypoint indices of the shoulders and hips, of the left arm and of the right arm. */
  const BodyIds: seq<nat> := [5, 6, 11, 12]
  const LeftArmIds: seq<nat> := [5, 7, 9]
  const RightArmIds: seq<nat> := [6, 8, 10]

  /** `_.filter(s, (x, index) => _.includes(ids, index))`. */
  function Select<T>(s: seq<T>, ids: seq<nat>): seq<T>
  {
    if s == [] then []
    else Select(s[..|s| - 1], ids) + (if |s| - 1 in ids then [s[|s| - 1]] else [])
  }

  /** The indices below `n` that occur in `ids`, in increasing order. */
  function SelectedIndices(n: nat, ids: seq<nat>): seq<nat>
  {
    if n == 0 then [] else SelectedIndices(n - 1, ids) + (if n - 1 in ids then [n - 1] else [])
  }

  /** The selected indices increase, stay below `n`, and are exactly the listed ones below `n`. */
  lemma {:induction false} SelectedIndicesSpec(n: nat, ids: seq<nat>)
    ensures var idx := SelectedIndices(n, ids);
      && Increasing(idx)
      && (forall k :: 0 <= k < |idx| ==> idx[k] < n)
      && (forall j :: j in idx <==> j < n && j in ids)
  {
    if n > 0 {
      SelectedIndicesSpec(n - 1, ids);
    }
  }

  /** The k-th selected element is the element at the k-th selected index. */
  lemma {:induction false} SelectAt<T>(s: seq<T>, ids: seq<nat>)
    ensures var idx := SelectedIndices(|s|, ids);
      && |Select(s, ids)| == |idx|
      && (forall k :: 0 <= k < |idx| ==> idx[k] < |s| && Select(s, ids)[k] == s[idx[k]])
  {
    SelectedIndicesSpec(|s|, ids);
    if s != [] {
      var init := s[..|s| - 1];
      SelectAt(init, ids);
      SelectedIndicesSpec(|init|, ids);
      var idx0 := SelectedIndices(|init|, ids);
      var idx := SelectedIndices(|s|, ids);
      forall k | 0 <= k < |idx| ensures Select(s, ids)[k] == s[idx[k]] {
        if k < |idx0| {
          assert Select(s, ids)[k] == Select(init, ids)[k];
          assert init[idx0[k]] == s[idx0[k]];
        }
      }
    }
  }

  /**
   * A selection is an order-preserving subsequence: its k-th element is the
   * element at the k-th selected index, the selected indices increase, and an
   * index is selected exactly when it is in range and listed in `ids`.
   */
  lemma SelectIsSubsequence<T>(s: seq<T>, ids: seq<nat>)
    ensures var idx := SelectedIndices(|s|, ids);
      && |Select(s, ids)| == |idx|
      && Increasing(idx)
      && (forall j :: j in idx <==> j < |s| && j in ids)
      && (forall k :: 0 <= k < |idx| ==> idx[k] < |s| && Select(s, ids)[k] == s[idx[k]])
  {
    SelectedIndicesSpec(|s|, ids);
    SelectAt(s, ids);
  }

  /** The elements at the listed indices, in the order of the list, skipping indices out of range. */
  function Pick<T>(s: seq<T>, ids: seq<nat>): seq<T>
  {
    if ids == [] then [] else (if ids[0] < |s| then [s[ids[0]]] else []) + Pick(s, ids[1..])
  }

  lemma {:induction false} PickBeyond<T>(s: seq<T>, ids: seq<nat>)
    requires forall i :: 0 <= i < |ids| ==> ids[i] >= |s|
    ensures Pick(s, ids) == []
  {
    if ids != [] {
      PickBeyond(s, ids[1..]);
    }
  }

  lemma {:induction false} PickExtend<T>(s: seq<T>, ids: seq<nat>)
    requires s != [] && Increasing(ids)
    ensures Pick(s, ids) == Pick(s[..|s| - 1], ids) + (if |s| - 1 in ids then [s[|s| - 1]] else [])
  {
    var init := s[..|s| - 1];
    var n := |s| - 1;
    if ids != [] {
      var rest := ids[1..];
      assert Increasing(rest);
      if ids[0] < n {
        PickExtend(s, rest);
        assert (n in ids) == (n in rest);
        assert s[ids[0]] == init[ids[0]];
      } else if ids[0] == n {
        PickBeyond(s, rest);
        PickBeyond(init, rest);
      } else {
        PickBeyond(s, ids);
        PickBeyond(init, ids);
        assert n !in ids;
      }
    }
  }

  /** For indices listed in increasing order, the selection is exactly the elements at those indices. */
  lemma {:induction false} SelectByIncreasingIds<T>(s: seq<T>, ids: seq<nat>)
    requires Increasing(ids)
    ensures Select(s, ids) == Pick(s, ids)
  {
    if s == [] {
      PickBeyond(s, ids);
    } else {
      SelectByIncreasingIds(s[..|s| - 1], ids);
      PickExtend(s, ids);
    }
  }

  function BodyArray(keypoints: seq<Keypoint>): seq<Keypoint> { Select(keypoints, BodyIds) }
  function RightArmArray(keypoints: seq<Keypoint>): seq<Keypoint> { Select(keypoints, RightArmIds) }
  function LeftArmArray(keypoints: seq<Keypoint>): seq<Keypoint> { Select(keypoints, LeftArmIds) }

  lemma IdsIncreasing()
    ensures Increasing(BodyIds) && Increasing(RightArmIds) && Increasing(LeftArmIds)
  {
  }

  lemma PickBody(keypoints: seq<Keypoint>)
    requires |keypoints| >= 13
    ensures Pick(keypoints, [5, 6, 11, 12]) == [keypoints[5], keypoints[6], keypoints[11], keypoints[12]]
  {
    assert Pick(keypoints, [12]) == [keypoints[12]] by { assert [12][1..] == []; }
    assert Pick(keypoints, [11, 12]) == [keypoints[11], keypoints[12]] by { assert [11, 12][1..] == [12]; }
    assert Pick(keypoints, [6, 11, 12]) == [keypoints[6], keypoints[11], keypoints[12]] by {
      assert [6, 11, 12][1..] == [11, 12];
    }
    assert [5, 6, 11, 12][1..] == [6, 11, 12];
  }

  lemma PickArm(keypoints: seq<Keypoint>, a: nat, b: nat, c: nat)
    requires a < b < c < |keypoints|
    ensures Pick(keypoints, [a, b, c]) == [keypoints[a], keypoints[b], keypoints[c]]
  {
    assert Pick(keypoints, [c]) == [keypoints[c]] by { assert [c][1..] == []; }
    assert Pick(keypoints, [b, c]) == [keypoints[b], keypoints[c]] by { assert [b, c][1..] == [c]; }
    assert [a, b, c][1..] == [b, c];
  }

  /** `bodyArray` holds exactly the keypoints at indices 5, 6, 11 and 12, in keypoint order. */
  lemma BodySelection(keypoints: seq<Keypoint>)
    ensures BodyArray(keypoints) == Pick(keypoints, [5, 6, 11, 12])
    ensures |keypoints| >= 13 ==>
      BodyArray(keypoints) == [keypoints[5], keypoints[6], keypoints[11], keypoints[12]]
  {
    IdsIncreasing();
    SelectByIncreasingIds(keypoints, BodyIds);
    if |keypoints| >= 13 {
      PickBody(keypoints);
    }
  }

  /** `rightArmArray` holds exactly the keypoints at indices 6, 8 and 10, in keypoint order. */
  lemma RightArmSelection(keypoints: seq<Keypoint>)
    ensures RightArmArray(keypoints) == Pick(keypoints, [6, 8, 10])
    ensures |keypoints| >= 11 ==> RightArmArray(keypoints) == [keypoints[6], keypoints[8], keypoints[10]]
  {
    IdsIncreasing();
    SelectByIncreasingIds(keypoints, RightArmIds);
    if |keypoints| >= 11 {
      PickArm(keypoints, 6, 8, 10);
    }
  }

  /** `leftArmArray` holds exactly the keypoints at indices 5, 7 and 9, in keypoint order. */
  lemma LeftArmSelection(keypoints: seq<Keypoint>)
    ensures LeftArmArray(keypoints) == Pick(keypoints, [5, 7, 9])
    ensures |keypoints| >= 10 ==> LeftArmArray(keypoints) == [keypoints[5], keypoints[7], keypoints[9]]
  {
    IdsIncreasing();
    SelectByIncreasingIds(keypoints, LeftArmIds);
    if |keypoints| >= 10 {
      PickArm(keypoints, 5, 7, 9);
    }
  }

  /** One dot per keypoint, in keypoint order. */
  function Circles(keypoints: seq<Keypoint>): seq<Cmd>
  {
    if keypoints == [] then []
    else
      var p := keypoints[|keypoints| - 1].position;
      Circles(keypoints[..|keypoints| - 1]) + CircleCmds(p.x, p.y)
  }

  /** The body, right-arm and left-arm polylines, in that order. */
  function SkeletonCmds(keypoints: seq<Keypoint>): seq<Cmd>
  {
    PolylineCmds(BodyArray(keypoints)) + PolylineCmds(RightArmArray(keypoints)) + PolylineCmds(LeftArmArray(keypoints))
  }

  /** Everything `renderCanvas` draws for a pose with these keypoints. */
  function RenderCmds(keypoints: seq<Keypoint>): seq<Cmd>
  {
    Circles(keypoints) + SkeletonCmds(keypoints)
  }

  /**
   * The drawing state a render leaves: the dots set the fill style (only when
   * there is a keypoint) and the polylines set the stroke style.
   */
  function RenderState(s: State, keypoints: seq<Keypoint>): (r: State)
    ensures r.saved == s.saved && r.current.transform == s.current.transform
    ensures r.current.strokeStyle == Red
    ensures r.current.fillStyle == if keypoints == [] then s.current.fillStyle else Red
  {
    var dotted := if keypoints == [] then s.current else s.current.(fillStyle := Red);
    s.(current := dotted.(strokeStyle := Red))
  }

  /** No command of `cmds` is part of a path or a stroke. */
  predicate PathFree(cmds: seq<Cmd>)
  {
    forall i :: 0 <= i < |cmds| ==> !cmds[i].Stroke? && !cmds[i].MoveTo? && !cmds[i].LineTo?
  }

  /** No command of `cmds` is an arc. */
  predicate ArcFree(cmds: seq<Cmd>)
  {
    forall i :: 0 <= i < |cmds| ==> !cmds[i].Arc?
  }

  lemma CircleViews(x: real, y: real)
    ensures ArcCenters(CircleCmds(x, y)) == [Point(x, y)]
    ensures Strokes(CircleCmds(x, y)) == 0 && Vertices(CircleCmds(x, y)) == []
  {
    var c := CircleCmds(x, y);
    ViewsAppend(c[..1], c[1..]);
    ViewsAppend(c[1..2], c[2..]);
    ViewsAppend(c[2..3], c[3..]);
    assert c[..1] == [c[0]] && c[1..] == c[1..2] + c[2..] && c[2..] == c[2..3] + c[3..];
    assert c[3..][1..] == [] && c[2..3][1..] == [] && c[1..2][1..] == [] && c[..1][1..] == [];
  }

  lemma {:induction false} CirclesShape(keypoints: seq<Keypoint>)
    ensures |Circles(keypoints)| == 4 * |keypoints|
    ensures ArcCenters(Circles(keypoints)) == Positions(keypoints)
    ensures Strokes(Circles(keypoints)) == 0 && Vertices(Circles(keypoints)) == []
    ensures PathFree(Circles(keypoints))
  {
    if keypoints != [] {
      var init := keypoints[..|keypoints| - 1];
      var p := keypoints[|keypoints| - 1].position;
      CirclesShape(init);
      ViewsAppend(Circles(init), CircleCmds(p.x, p.y));
      CircleViews(p.x, p.y);
      assert Positions(keypoints) == Positions(init) + [p];
    }
  }

  lemma PolylineArcFree(points: seq<Keypoint>)
    ensures ArcFree(PolylineCmds(points))
  {
    PathCmdsAt(points);
    var r := PolylineCmds(points);
    forall i | 0 <= i < |r| ensures !r[i].Arc? {
      if 1 <= i <= |points| {
        assert r[i] == PathCmds(points)[i - 1];
      }
    }
  }

  /**
   * `renderCanvas` draws one dot per keypoint at its position, in keypoint
   * order, then exactly three polylines, through the body, right-arm and
   * left-arm selections in that order.
   */
  lemma RenderViews(keypoints: seq<Keypoint>)
    ensures ArcCenters(RenderCmds(keypoints)) == Positions(keypoints)
    ensures Strokes(RenderCmds(keypoints)) == 3
    ensures Vertices(RenderCmds(keypoints))
            == Positions(BodyArray(keypoints)) + Positions(RightArmArray(keypoints)) + Positions(LeftArmArray(keypoints))
  {
    var c := Circles(keypoints);
    var b := PolylineCmds(BodyArray(keypoints));
    var ra := PolylineCmds(RightArmArray(keypoints));
    var la := PolylineCmds(LeftArmArray(keypoints));
    CirclesShape(keypoints);
    PolylineVertices(BodyArray(keypoints));
    PolylineVertices(RightArmArray(keypoints));
    PolylineVertices(LeftArmArray(keypoints));
    ViewsAppend(b, ra);
    ViewsAppend(b + ra, la);
    ViewsAppend(c, b + ra + la);
  }

  lemma ArcFreeAppend(a: seq<Cmd>, b: seq<Cmd>)
    requires ArcFree(a) && ArcFree(b)
    ensures ArcFree(a + b)
  {
    forall k | 0 <= k < |a + b| ensures !(a + b)[k].Arc? {
      if k < |a| { assert (a + b)[k] == a[k]; } else { assert (a + b)[k] == b[k - |a|]; }
    }
  }

  lemma DotsThenLines(dots: seq<Cmd>, lines: seq<Cmd>)
    requires PathFree(dots) && ArcFree(lines)
    ensures forall i :: 0 <= i < |dots + lines| ==>
              ((dots + lines)[i].Arc? ==> i < |dots|) &&
              ((dots + lines)[i].Stroke? || (dots + lines)[i].MoveTo? || (dots + lines)[i].LineTo? ==> i >= |dots|)
  {
    var r := dots + lines;
    forall i | 0 <= i < |r|
      ensures (r[i].Arc? ==> i < |dots|) && (r[i].Stroke? || r[i].MoveTo? || r[i].LineTo? ==> i >= |dots|)
    {
      if i < |dots| { assert r[i] == dots[i]; } else { assert r[i] == lines[i - |dots|]; }
    }
  }

  /** Every dot comes before every command of a polyline's path. */
  lemma RenderDotsFirst(keypoints: seq<Keypoint>)
    ensures var r := RenderCmds(keypoints);
      forall i :: 0 <= i < |r| ==>
        (r[i].Arc? ==> i < 4 * |keypoints|) &&
        (r[i].Stroke? || r[i].MoveTo? || r[i].LineTo? ==> i >= 4 * |keypoints|)
  {
    var c := Circles(keypoints);
    var b := PolylineCmds(BodyArray(keypoints));
    var ra := PolylineCmds(RightArmArray(keypoints));
    var la := PolylineCmds(LeftArmArray(keypoints));
    CirclesShape(keypoints);
    PolylineArcFree(BodyArray(keypoints));
    PolylineArcFree(RightArmArray(keypoints));
    PolylineArcFree(LeftArmArray(keypoints));
    ArcFreeAppend(b, ra);
    ArcFreeAppend(b + ra, la);
    DotsThenLines(c, b + ra + la);
  }

  /** The still-image estimator: `_canEstimate` and the context it draws on. */
  class EstimatePoseFromImage {
    var canEstimate: bool
    var nextHandle: nat
    const ctx: Context2D
    /** The calls made into the pose-estimation library. */
    ghost var calls: seq<Call>

    constructor (ctx: Context2D)
      ensures this.ctx == ctx && !canEstimate && nextHandle == 0 && calls == []
    {
      this.ctx := ctx;
      canEstimate := false;
      nextHandle := 0;
      calls := [];
    }

    /** `init`: the canvas is sized 564 by 564. */
    method Init()
      modifies ctx`width, ctx`height
      ensures ctx.width == CanvasSize && ctx.height == CanvasSize
    {
      ctx.Resize(CanvasSize, CanvasSize);
    }

    /**
     * `_estimatePoseOnImage`: arms `canEstimate` before loading a model, then
     * asks it for one pose; `answer` is the pose the library returns.
     */
    method EstimatePoseOnImage(answer: Pose) returns (pose: Pose)
      modifies this`canEstimate, this`nextHandle, this`calls
      ensures canEstimate && pose == answer
      ensures nextHandle == old(nextHandle) + 1
      ensures calls == old(calls) + [Load(Wrappers.None, Handle(old(nextHandle))),
                                     EstimateSingle(Handle(old(nextHandle)), ImageScaleFactor, FlipHorizontal, OutputStride)]
    {
      canEstimate := true;
      var net := Handle(nextHandle);
      nextHandle := nextHandle + 1;
      calls := calls + [Load(Wrappers.None, net)];
      calls := calls + [EstimateSingle(net, ImageScaleFactor, FlipHorizontal, OutputStride)];
      pose := answer;
    }

    /** The `_.each` loop of `renderCanvas`: one dot per keypoint. */
    method DrawDots(keypoints: seq<Keypoint>)
      modifies ctx`log, ctx`state
      ensures ctx.log == old(ctx.log) + Circles(keypoints)
      ensures ctx.state == if keypoints == [] then old(ctx.state)
                           else old(ctx.state).(current := old(ctx.state).current.(fillStyle := Red))
    {
      var i := 0;
      while i < |keypoints|
        invariant 0 <= i <= |keypoints|
        invariant ctx.log == old(ctx.log) + Circles(keypoints[..i])
        invariant ctx.state == if i == 0 then old(ctx.state)
                               else old(ctx.state).(current := old(ctx.state).current.(fillStyle := Red))
      {
        var point := keypoints[i];
        DrawCircle(ctx, point.position.x, point.position.y);
        assert keypoints[..i + 1][..i] == keypoints[..i];
        i := i + 1;
      }
      assert keypoints[..i] == keypoints;
    }

    /** `clearCanvas`: disarms `canEstimate` and clears the whole canvas. */
    method ClearCanvas()
      modifies this`canEstimate, ctx`log, ctx`state
      ensures !canEstimate
      ensures ctx.log == old(ctx.log) + [ClearRect(0.0, 0.0, ctx.width, ctx.height)]
      ensures ctx.state == old(ctx.state)
    {
      canEstimate := false;
      ctx.Issue(ClearRect(0.0, 0.0, ctx.width, ctx.height));
    }

    /**
     * `renderCanvas`. `clearedDuringAwait` says whether `clearCanvas` ran while
     * the estimate was awaited; if so nothing is drawn.
     */
    method RenderCanvas(answer: Pose, clearedDuringAwait: bool)
      modifies this`canEstimate, this`nextHandle, this`calls, ctx`log, ctx`state
      ensures canEstimate == !clearedDuringAwait
      ensures nextHandle == old(nextHandle) + 1
      ensures calls == old(calls) + [Load(Wrappers.None, Handle(old(nextHandle))),
                                     EstimateSingle(Handle(old(nextHandle)), ImageScaleFactor, FlipHorizontal, OutputStride)]
      ensures ctx.log == old(ctx.log) + if clearedDuringAwait then [ClearRect(0.0, 0.0, ctx.width, ctx.height)]
                                        else RenderCmds(answer.keypoints)
      ensures ctx.state == if clearedDuringAwait then old(ctx.state) else RenderState(old(ctx.state), answer.keypoints)
    {
      var pose := EstimatePoseOnImage(answer);
      if clearedDuringAwait {
        ClearCanvas();
      }
      if !canEstimate {
        return;
      }
      DrawPose(pose.keypoints);
    }

    /** The three polylines of `renderCanvas`: body, right arm, left arm. */
    method DrawSkeleton(keypoints: seq<Keypoint>)
      modifies ctx`log, ctx`state
      ensures ctx.log == old(ctx.log) + SkeletonCmds(keypoints)
      ensures ctx.state == old(ctx.state).(current := old(ctx.state).current.(strokeStyle := Red))
    {
      var bodyArray := BodyArray(keypoints);
      var rightArmArray := RightArmArray(keypoints);
      var leftArmArray := LeftArmArray(keypoints);
      DrawPolyline(ctx, bodyArray);
      DrawPolyline(ctx, rightArmArray);
      DrawPolyline(ctx, leftArmArray);
    }

    /** The drawing half of `renderCanvas`: a dot per keypoint, then the body, right-arm and left-arm polylines. */
    method DrawPose(keypoints: seq<Keypoint>)
      modifies ctx`log, ctx`state
      ensures ctx.log == old(ctx.log) + RenderCmds(keypoints)
      ensures ctx.state == RenderState(old(ctx.state), keypoints)
    {
      ghost var log0, s0 := ctx.log, ctx.state;
      DrawDots(keypoints);
      ghost var log1, s1 := ctx.log, ctx.state;
      DrawSkeleton(keypoints);
      assert ctx.log == log1 + SkeletonCmds(keypoints) && log1 == log0 + Circles(keypoints);
      assert ctx.state == s1.(current := s1.current.(strokeStyle := Red));
    }
  }
}
