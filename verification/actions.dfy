/** The action vocabulary, its resolution to global points in the queue, and the
    policy layer's pre-check of the same coordinates. */
module Actions {
  import opened Basics
  import opened Coordinates

  datatype MouseButton = Left | Right | Middle

  datatype TextInputMethod = Keyboard | Clipboard

  datatype ComputerAction =
    | Click(x: real, y: real, button: MouseButton, space: CoordinateSpace)
    | DoubleClick(x: real, y: real, button: MouseButton, space: CoordinateSpace)
    | Move(x: real, y: real, space: CoordinateSpace, durationMs: Option<nat>)
    | TypeText(text: string, how: TextInputMethod)
    | Key(keys: seq<string>)
    | Scroll(sx: Option<real>, sy: Option<real>, deltaX: real, deltaY: real, space: CoordinateSpace)
    | Drag(start: Point, end: Point, space: CoordinateSpace, durationMs: Option<nat>)
    | Wait(waitMs: nat)

  /** The same actions with every coordinate already global. */
  datatype ResolvedAction =
    | ClickAt(at: Point, button: MouseButton, double: bool)
    | MoveTo(from: Point, to: Point, durationMs: Option<nat>)
    | TypeKeys(text: string, how: TextInputMethod)
    | PressKeys(keys: seq<string>)
    | ScrollBy(where: Option<Point>, deltaX: real, deltaY: real)
    | DragTo(from: Point, to: Point, durationMs: Option<nat>)
    | WaitFor(waitMs: nat)

  type Resolution = Result<ResolvedAction, OutOfBounds>

  /** The queue's resolution; a Move starts from the current virtual pointer. */
  function ToResolved(a: ComputerAction, g: ImageGeometry, current: Point): Resolution {
    match a
    case Click(x, y, button, space) =>
      (match g.ToGlobal(space, Point(x, y))
       case Ok(p) => Ok(ClickAt(p, button, false))
       case Err(e) => Err(e))
    case DoubleClick(x, y, button, space) =>
      (match g.ToGlobal(space, Point(x, y))
       case Ok(p) => Ok(ClickAt(p, button, true))
       case Err(e) => Err(e))
    case Move(x, y, space, duration) =>
      (match g.ToGlobal(space, Point(x, y))
       case Ok(p) => Ok(MoveTo(current, p, duration))
       case Err(e) => Err(e))
    case TypeText(text, how) => Ok(TypeKeys(text, how))
    case Key(keys) => Ok(PressKeys(keys))
    case Scroll(sx, sy, dx, dy, space) =>
      if sx.Some? && sy.Some? then
        (match g.ToGlobal(space, Point(sx.value, sy.value))
         case Ok(p) => Ok(ScrollBy(Some(p), dx, dy))
         case Err(e) => Err(e))
      else Ok(ScrollBy(None, dx, dy))
    case Drag(start, end, space, duration) =>
      (match g.ToGlobal(space, start)
       case Err(e) => Err(e)
       case Ok(from) =>
         (match g.ToGlobal(space, end)
          case Err(e) => Err(e)
          case Ok(to) => Ok(DragTo(from, to, duration))))
    case Wait(ms) => Ok(WaitFor(ms))
  }

  /** `r` is what `a` asks for, field by field: the same kind of action with the same
      button, text, keys, deltas and duration, doubled only for a double click, at the
      global images of its own points. */
  predicate AsAsked(a: ComputerAction, g: ImageGeometry, r: ResolvedAction) {
    match r
    case ClickAt(p, button, double) =>
      && (if double then a.DoubleClick? else a.Click?)
      && a.button == button && g.ToGlobal(a.space, Point(a.x, a.y)) == Ok(p)
    case MoveTo(_, to, durationMs) =>
      a.Move? && a.durationMs == durationMs && g.ToGlobal(a.space, Point(a.x, a.y)) == Ok(to)
    case TypeKeys(text, how) => a == TypeText(text, how)
    case PressKeys(keys) => a == Key(keys)
    case ScrollBy(where, dx, dy) =>
      && a.Scroll? && a.deltaX == dx && a.deltaY == dy && (where.Some? <==> a.sx.Some? && a.sy.Some?)
      && (where.Some? ==> g.ToGlobal(a.space, Point(a.sx.value, a.sy.value)) == Ok(where.value))
    case DragTo(from, to, durationMs) =>
      && a.Drag? && a.durationMs == durationMs
      && g.ToGlobal(a.space, a.start) == Ok(from) && g.ToGlobal(a.space, a.end) == Ok(to)
    case WaitFor(ms) => a == Wait(ms)
  }

  /** The points an action names, in its own coordinate space. */
  function NamedPoints(a: ComputerAction): seq<Point> {
    match a
    case Click(x, y, _, _) => [Point(x, y)]
    case DoubleClick(x, y, _, _) => [Point(x, y)]
    case Move(x, y, _, _) => [Point(x, y)]
    case Scroll(Some(x), Some(y), _, _, _) => [Point(x, y)]
    case Drag(start, end, _, _) => [start, end]
    case _ => []
  }

  /** Every point the action names is in its image. */
  predicate InItsImage(a: ComputerAction, g: ImageGeometry) {
    forall p :: p in NamedPoints(a) ==> g.ToGlobal(a.space, p).Ok?
  }

  /** Resolution fails exactly when a named point is not in the image, and otherwise gives
      the one action that is as asked and, if a move, sets out from the current pointer. */
  lemma ResolvesAsAsked(a: ComputerAction, g: ImageGeometry, current: Point, r: ResolvedAction)
    ensures ToResolved(a, g, current).Ok? <==> InItsImage(a, g)
    ensures ToResolved(a, g, current) == Ok(r) <==> AsAsked(a, g, r) && (r.MoveTo? ==> r.from == current)
  {
  }

  /** Every global point the driver will be sent to. */
  function TouchedPoints(r: ResolvedAction): seq<Point> {
    match r
    case ClickAt(p, _, _) => [p]
    case MoveTo(_, p, _) => [p]
    case ScrollBy(Some(p), _, _) => [p]
    case DragTo(from, to, _) => [from, to]
    case _ => []
  }

  /** The target-containment gate. */
  predicate ResolvedWithinBounds(r: ResolvedAction, b: DisplayBounds) {
    match r
    case DragTo(from, to, _) => b.ContainsGlobal(from) && b.ContainsGlobal(to)
    case ClickAt(p, _, _) => b.ContainsGlobal(p)
    case MoveTo(_, p, _) => b.ContainsGlobal(p)
    case ScrollBy(Some(p), _, _) => b.ContainsGlobal(p)
    case _ => true
  }

  /** Whether an action relocates the pointer by design. */
  predicate MovesPointer(a: ComputerAction) {
    a.Move? || a.Click? || a.DoubleClick? || a.Drag? || (a.Scroll? && a.sx.Some? && a.sy.Some?)
  }

  /** The gate looks at exactly the points the action touches. */
  lemma GateCoversTouchedPoints(r: ResolvedAction, b: DisplayBounds)
    ensures ResolvedWithinBounds(r, b) <==> forall p :: p in TouchedPoints(r) ==> b.ContainsGlobal(p)
  {
    match r
    case DragTo(from, to, _) => assert from in TouchedPoints(r) && to in TouchedPoints(r);
    case ClickAt(p, _, _) => assert p in TouchedPoints(r);
    case MoveTo(_, p, _) => assert p in TouchedPoints(r);
    case ScrollBy(Some(p), _, _) => assert p in TouchedPoints(r);
    case _ =>
  }

  /** The policy pre-check: it collects points by pushing, and stops at the first error.
      It agrees with the queue on success, on the error, and on every point. */
  method ResolveActionPoints(a: ComputerAction, g: ImageGeometry, ghost current: Point)
    returns (r: Result<seq<Point>, OutOfBounds>)
    ensures match ToResolved(a, g, current)
            case Ok(resolved) => r == Ok(TouchedPoints(resolved))
            case Err(e) => r == Err(e)
  {
    var out: seq<Point> := [];
    match a {
      case Click(x, y, _, space) =>
        match g.ToGlobal(space, Point(x, y)) {
          case Ok(p) => out := out + [p];
          case Err(e) => return Err(e);
        }
      case DoubleClick(x, y, _, space) =>
        match g.ToGlobal(space, Point(x, y)) {
          case Ok(p) => out := out + [p];
          case Err(e) => return Err(e);
        }
      case Move(x, y, space, _) =>
        match g.ToGlobal(space, Point(x, y)) {
          case Ok(p) => out := out + [p];
          case Err(e) => return Err(e);
        }
      case Scroll(sx, sy, _, _, space) =>
        if sx.Some? && sy.Some? {
          match g.ToGlobal(space, Point(sx.value, sy.value)) {
            case Ok(p) => out := out + [p];
            case Err(e) => return Err(e);
          }
        }
      case Drag(start, end, space, _) =>
        match g.ToGlobal(space, start) {
          case Ok(p) => out := out + [p];
          case Err(e) => return Err(e);
        }
        match g.ToGlobal(space, end) {
          case Ok(p) => out := out + [p];
          case Err(e) => return Err(e);
        }
      case _ =>
    }
    assert out == TouchedPoints(ToResolved(a, g, current).value);
    r := Ok(out);
  }

  /** The batch pre-check passes exactly when no action would fail to resolve in the
      queue, wherever the pointer is by then. */
  method BatchInBounds(actions: seq<ComputerAction>, g: ImageGeometry) returns (ok: bool)
    ensures ok <==> forall i, p :: 0 <= i < |actions| ==> ToResolved(actions[i], g, p).Ok?
  {
    var here := Point(0.0, 0.0);
    for i := 0 to |actions|
      invariant forall j, p :: 0 <= j < i ==> ToResolved(actions[j], g, p).Ok?
    {
      var r := ResolveActionPoints(actions[i], g, here);
      if r.Err? {
        assert !ToResolved(actions[i], g, here).Ok?;
        return false;
      }
      forall p
        ensures ToResolved(actions[i], g, p).Ok?
      {
        ResolutionIgnoresPointer(actions[i], g, here, p);
      }
    }
    ok := true;
  }

  lemma ResolutionIgnoresPointer(a: ComputerAction, g: ImageGeometry, p: Point, q: Point)
    ensures ToResolved(a, g, p).Ok? == ToResolved(a, g, q).Ok?
    ensures ToResolved(a, g, p).Ok? ==>
              TouchedPoints(ToResolved(a, g, p).value) == TouchedPoints(ToResolved(a, g, q).value)
  {
  }

  /** Under the round-trip condition every point an action touches is displayed. */
  lemma TouchedPointsAreDisplayed(a: ComputerAction, g: ImageGeometry, current: Point)
    requires g.widthPx >= 1 && g.heightPx >= 1 && g.bounds.width > 0.0
    requires (g.heightPx - 1) as real <= g.Rows()
    requires ToResolved(a, g, current).Ok?
    ensures ResolvedWithinBounds(ToResolved(a, g, current).value, g.bounds)
  {
    match a
    case Click(x, y, _, space) => AcceptedPointsAreDisplayed(g, space, Point(x, y));
    case DoubleClick(x, y, _, space) => AcceptedPointsAreDisplayed(g, space, Point(x, y));
    case Move(x, y, space, _) => AcceptedPointsAreDisplayed(g, space, Point(x, y));
    case Scroll(sx, sy, _, _, space) =>
      if sx.Some? && sy.Some? {
        AcceptedPointsAreDisplayed(g, space, Point(sx.value, sy.value));
      }
    case Drag(start, end, space, _) =>
      AcceptedPointsAreDisplayed(g, space, start);
      AcceptedPointsAreDisplayed(g, space, end);
    case _ =>
  }
}
