/** The two drawing helpers: a dot at a point, and a polyline through keypoints. */
module CanvasHelper {
  import opened Canvas
  import opened PoseNet

  const Red := "rgba(255,0,0,0.8)"
  const DotRadius := 5.0

  /** The commands `drawCircle(context, x, y)` issues. */
  function CircleCmds(x: real, y: real): seq<Cmd>
  {
    [BeginPath, Arc(Point(x, y), DotRadius, Literal(0.0), Radians(360.0), false), SetFillStyle(Red), Fill]
  }

  /** `moveTo` for the first point and `lineTo` for every later one. */
  function PathCmds(points: seq<Keypoint>): seq<Cmd>
  {
    if points == [] then []
    else
      var p := points[|points| - 1].position;
      PathCmds(points[..|points| - 1]) + [if |points| == 1 then MoveTo(p) else LineTo(p)]
  }

  /** The commands `drawPolyline(context, points)` issues. */
  function PolylineCmds(points: seq<Keypoint>): seq<Cmd>
  {
    [BeginPath] + PathCmds(points) + [SetStrokeStyle(Red), Stroke]
  }

  lemma {:induction false} PathCmdsAt(points: seq<Keypoint>)
    ensures |PathCmds(points)| == |points|
    ensures forall k :: 0 <= k < |points| ==>
              PathCmds(points)[k] == if k == 0 then MoveTo(points[k].position) else LineTo(points[k].position)
  {
    if points != [] {
      var init := points[..|points| - 1];
      PathCmdsAt(init);
      forall k | 0 <= k < |points|
        ensures PathCmds(points)[k] == if k == 0 then MoveTo(points[k].position) else LineTo(points[k].position)
      {
        if k < |points| - 1 { assert points[k] == init[k]; }
      }
    }
  }

  /**
   * A polyline starts with `beginPath` and ends with `stroke`, the stroke
   * style set just before; in between, point 0 gives the one `moveTo` and every
   * later point a `lineTo`, in order.
   */
  lemma PolylineShape(points: seq<Keypoint>)
    ensures var r := PolylineCmds(points);
      && |r| == |points| + 3
      && r[0] == BeginPath
      && r[|r| - 2] == SetStrokeStyle(Red)
      && r[|r| - 1] == Stroke
      && (forall k :: 0 <= k < |points| ==>
            r[k + 1] == if k == 0 then MoveTo(points[k].position) else LineTo(points[k].position))
      && (forall i :: 0 <= i < |r| && r[i].MoveTo? ==> i == 1)
      && (forall i :: 0 <= i < |r| && (r[i].BeginPath? || r[i].Stroke?) ==> i == 0 || i == |r| - 1)
  {
    PathCmdsAt(points);
    var r := PolylineCmds(points);
    forall k | 0 <= k < |points|
      ensures r[k + 1] == PathCmds(points)[k]
    {}
  }

  /** Reading the vertices back from a polyline's commands gives the points' positions. */
  lemma {:induction false} PolylineVertices(points: seq<Keypoint>)
    ensures Vertices(PolylineCmds(points)) == Positions(points)
    ensures Strokes(PolylineCmds(points)) == 1
    ensures ArcCenters(PolylineCmds(points)) == []
  {
    var tail := [SetStrokeStyle(Red), Stroke];
    PathViews(points);
    ViewsAppend([BeginPath], PathCmds(points));
    ViewsAppend([BeginPath] + PathCmds(points), tail);
    assert Vertices([BeginPath]) == [] && Strokes([BeginPath]) == 0 && ArcCenters([BeginPath]) == [];
    assert tail[1..] == [Stroke] && [Stroke][1..] == [];
    assert Vertices(tail) == [] && Strokes(tail) == 1 && ArcCenters(tail) == [];
  }

  lemma {:induction false} PathViews(points: seq<Keypoint>)
    ensures Vertices(PathCmds(points)) == Positions(points)
    ensures Strokes(PathCmds(points)) == 0
    ensures ArcCenters(PathCmds(points)) == []
  {
    if points != [] {
      var init := points[..|points| - 1];
      var p := points[|points| - 1].position;
      PathViews(init);
      ViewsAppend(PathCmds(init), [if |points| == 1 then MoveTo(p) else LineTo(p)]);
      assert Positions(points) == Positions(init) + [p];
    }
  }

  /** `drawCircle`: a dot of radius 5 centred on (x, y), filled red. */
  method DrawCircle(ctx: Context2D, x: real, y: real)
    modifies ctx`log, ctx`state
    ensures ctx.log == old(ctx.log) + CircleCmds(x, y)
    ensures ctx.state == old(ctx.state).(current := old(ctx.state).current.(fillStyle := Red))
  {
    ctx.Issue(BeginPath);
    ctx.Issue(Arc(Point(x, y), DotRadius, Literal(0.0), Radians(360.0), false));
    ctx.Issue(SetFillStyle(Red));
    ctx.Issue(Fill);
  }

  /** `drawPolyline`: one path through the points' positions, stroked red. */
  method DrawPolyline(ctx: Context2D, points: seq<Keypoint>)
    modifies ctx`log, ctx`state
    ensures ctx.log == old(ctx.log) + PolylineCmds(points)
    ensures ctx.state == old(ctx.state).(current := old(ctx.state).current.(strokeStyle := Red))
  {
    ctx.Issue(BeginPath);
    var index := 0;
    while index < |points|
      invariant 0 <= index <= |points|
      invariant ctx.log == old(ctx.log) + [BeginPath] + PathCmds(points[..index])
      invariant ctx.state == old(ctx.state)
    {
      var point := points[index];
      if index == 0 {
        ctx.Issue(MoveTo(point.position));
      } else {
        ctx.Issue(LineTo(point.position));
      }
      assert points[..index + 1][..index] == points[..index];
      index := index + 1;
    }
    assert points[..index] == points;
    ctx.Issue(SetStrokeStyle(Red));
    ctx.Issue(Stroke);
  }
}
