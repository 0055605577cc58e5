/**
 * The 2D drawing surface the program draws on, reduced to what it can observe:
 * the sequence of commands issued to a context, and the part of the drawing
 * state that `save` and `restore` push and pop (the transform and the styles).
 * Numbers that the program computes in floating point for a command are kept as
 * the expression that yields them (`Number`) and are never evaluated.
 */
module Canvas {

  datatype Point = Point(x: real, y: real)

  /** A floating-point argument, recorded as the expression that computes it. */
  datatype Number =
    | Literal(value: real)
      /** `degrees * Math.PI / 180` */
    | Radians(degrees: real)
      /** the Euclidean distance between `from` and `to`, divided by `divisor` */
    | DistanceOver(from: Point, to: Point, divisor: real)
      /** `Math.atan2(y, x)` */
    | Atan2(y: real, x: real)

  /** A decoded image resource, identified by the URL it was loaded from. */
  datatype Image = Image(url: string)

  datatype TransformOp =
    | Translate(x: real, y: real)
    | Scale(sx: Number, sy: Number)
    | Rotate(angle: Number)

  /** One call on a 2D context (a style assignment counts as a call). */
  datatype Cmd =
    | BeginPath
    | MoveTo(to: Point)
    | LineTo(to: Point)
    | Stroke
    | Fill
    | Arc(center: Point, radius: real, startAngle: Number, endAngle: Number, anticlockwise: bool)
    | SetFillStyle(fill: string)
    | SetStrokeStyle(stroke: string)
    | ClearRect(x: real, y: real, w: real, h: real)
    | Save
    | Restore
    | Transform(op: TransformOp)
    | DrawImage(image: Image, dx: real, dy: real, dw: real, dh: real)

  /** The part of the drawing state that `save` copies. */
  datatype DrawState = DrawState(transform: seq<TransformOp>, fillStyle: string, strokeStyle: string)

  /** The current drawing state and the stack of saved ones (top last). */
  datatype State = State(current: DrawState, saved: seq<DrawState>)

  const Initial := State(DrawState([], "#000000", "#000000"), [])

  /** The effect of one command on the drawing state. `restore` with nothing saved does nothing. */
  function Exec(s: State, c: Cmd): State
  {
    match c
    case Save => State(s.current, s.saved + [s.current])
    case Restore =>
      if s.saved == [] then s
      else State(s.saved[|s.saved| - 1], s.saved[..|s.saved| - 1])
    case Transform(op) => s.(current := s.current.(transform := s.current.transform + [op]))
    case SetFillStyle(f) => s.(current := s.current.(fillStyle := f))
    case SetStrokeStyle(st) => s.(current := s.current.(strokeStyle := st))
    case _ => s
  }

  /** The drawing state after issuing `cmds` in order, starting from `s`. */
  function Replay(s: State, cmds: seq<Cmd>): State
    decreases |cmds|
  {
    if cmds == [] then s else Replay(Exec(s, cmds[0]), cmds[1..])
  }

  lemma {:induction false} ReplayAppend(s: State, a: seq<Cmd>, b: seq<Cmd>)
    ensures Replay(s, a + b) == Replay(Replay(s, a), b)
    decreases |a|
  {
    if a == [] {
      assert a + b == b;
    } else {
      assert (a + b)[0] == a[0];
      assert (a + b)[1..] == a[1..] + b;
      ReplayAppend(Exec(s, a[0]), a[1..], b);
    }
  }

  /** The points of the `moveTo` and `lineTo` commands, in order. */
  function Vertices(cmds: seq<Cmd>): seq<Point>
  {
    if cmds == [] then []
    else (if cmds[0].MoveTo? || cmds[0].LineTo? then [cmds[0].to] else []) + Vertices(cmds[1..])
  }

  /** The centres of the `arc` commands, in order. */
  function ArcCenters(cmds: seq<Cmd>): seq<Point>
  {
    if cmds == [] then []
    else (if cmds[0].Arc? then [cmds[0].center] else []) + ArcCenters(cmds[1..])
  }

  /** The number of `stroke` commands. */
  function Strokes(cmds: seq<Cmd>): nat
  {
    if cmds == [] then 0 else (if cmds[0].Stroke? then 1 else 0) + Strokes(cmds[1..])
  }

  lemma {:induction false} ViewsAppend(a: seq<Cmd>, b: seq<Cmd>)
    ensures Vertices(a + b) == Vertices(a) + Vertices(b)
    ensures ArcCenters(a + b) == ArcCenters(a) + ArcCenters(b)
    ensures Strokes(a + b) == Strokes(a) + Strokes(b)
  {
    if a == [] {
      assert a + b == b;
    } else {
      assert (a + b)[0] == a[0];
      assert (a + b)[1..] == a[1..] + b;
      ViewsAppend(a[1..], b);
    }
  }

  /**
   * A 2D context together with its canvas element's size. It records every
   * command issued to it and keeps the drawing state those commands produce.
   */
  class Context2D {
    var width: real
    var height: real
    var log: seq<Cmd>
    var state: State

    /** A fresh canvas has the HTML default size 300 by 150. */
    constructor ()
      ensures width == 300.0 && height == 150.0
      ensures log == [] && state == Initial
    {
      width, height := 300.0, 150.0;
      log, state := [], Initial;
    }

    method Issue(c: Cmd)
      modifies this`log, this`state
      ensures log == old(log) + [c]
      ensures state == Exec(old(state), c)
    {
      log := log + [c];
      state := Exec(state, c);
    }

    method Resize(w: real, h: real)
      modifies this`width, this`height
      ensures width == w && height == h
    {
      width, height := w, h;
    }
  }
}
