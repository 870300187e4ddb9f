/** Coordinate spaces and the conversions between them. Floats are reals; rounding,
    clamping, integer casts and the epsilon floor on the scale are kept. */
module Coordinates {
  import opened Basics

  datatype Point = Point(x: real, y: real)

  datatype CoordinateSpace = Normalized1000 | ImagePixels

  datatype DisplayBounds = DisplayBounds(x: real, y: real, width: real, height: real) {
    predicate ContainsGlobal(p: Point) {
      x <= p.x <= x + width && y <= p.y <= y + height
    }
  }

  /** Both converters report the one error: the point is out of bounds. */
  datatype OutOfBounds = OutOfBounds(space: CoordinateSpace, x: real, y: real)

  /** `f64::EPSILON`, 2^-52. */
  const EPSILON: real := 1.0 / 4503599627370496.0

  type Pixel = (nat, nat)

  /** Image sizes are u32 in the source. */
  datatype ImageGeometry = ImageGeometry(widthPx: nat, heightPx: nat, bounds: DisplayBounds) {

    function ScaleFactor(): real {
      if bounds.width > 0.0 then widthPx as real / bounds.width else 1.0
    }

    /** The divisor both directions share. */
    function Scale(): (s: real)
      ensures s > 0.0
    {
      if ScaleFactor() >= EPSILON then ScaleFactor() else EPSILON
    }

    /** The display's extent in pixels at the shared scale. */
    function Columns(): real { Scale() * bounds.width }

    function Rows(): real { Scale() * bounds.height }

    predicate InImage(p: Pixel) { p.0 < widthPx && p.1 < heightPx }

    predicate NormalizedInBounds(x: real, y: real) {
      0.0 <= x <= 1000.0 && 0.0 <= y <= 1000.0
    }

    function NormalizedToPixel(x: real, y: real): Result<Pixel, OutOfBounds> {
      if !NormalizedInBounds(x, y) then Err(OutOfBounds(Normalized1000, x, y))
      else Ok((NormalizedAxis(x, widthPx), NormalizedAxis(y, heightPx)))
    }

    function PixelToGlobal(p: Pixel): Point {
      Point(GlobalAxis(p.0, bounds.x, Scale()), GlobalAxis(p.1, bounds.y, Scale()))
    }

    function PixelToNormalized(p: Pixel): Point {
      Point(p.0 as real * 1000.0 / Max(widthPx, 1) as real, p.1 as real * 1000.0 / Max(heightPx, 1) as real)
    }

    function GlobalToPixel(g: Point): Option<Pixel> {
      if !bounds.ContainsGlobal(g) then None else
      var px, py := PixelAxis(g.x, bounds.x, Scale()), PixelAxis(g.y, bounds.y, Scale());
      if px < 0 || py < 0 || px >= widthPx || py >= heightPx then None else Some((px, py))
    }

    function ToGlobal(space: CoordinateSpace, p: Point): Result<Point, OutOfBounds> {
      match space
      case Normalized1000 =>
        (match NormalizedToPixel(p.x, p.y)
         case Ok(px) => Ok(PixelToGlobal(px))
         case Err(e) => Err(e))
      case ImagePixels =>
        var px, py := SaturateI64(Round(p.x)), SaturateI64(Round(p.y));
        if px < 0 || py < 0 || px >= widthPx || py >= heightPx then Err(OutOfBounds(space, p.x, p.y))
        else Ok(PixelToGlobal((px, py)))
    }
  }

  /** One axis of pixel to global, from origin `o` at scale `s`. */
  function GlobalAxis(p: nat, o: real, s: real): real
    requires s > 0.0
  {
    o + p as real / s
  }

  /** Where a global coordinate falls on the pixel axis, before rounding. */
  function PixelPosition(q: real, o: real, s: real): real { (q - o) * s }

  function PixelAxis(q: real, o: real, s: real): int { Round(PixelPosition(q, o, s)) }

  /** One axis of the normalised conversion; the far edge 1000 rounds back inside. */
  function NormalizedAxis(x: real, size: nat): nat
    requires 0.0 <= x <= 1000.0
  {
    RoundMonotone(0.0, x / 1000.0 * size as real);
    Clamp(Round(x / 1000.0 * size as real), 0, Max(size - 1, 0))
  }

  // ---- pixels and global points ----

  lemma ScaledBack(p: nat, s: real)
    requires s > 0.0
    ensures p as real / s * s == p as real
  {
  }

  lemma QuotientBound(p: real, s: real, b: real)
    requires s > 0.0
    ensures p / s <= b <==> p <= s * b
    ensures p >= 0.0 ==> p / s >= 0.0
  {
    if p / s <= b {
      assert p / s * s <= b * s;
    }
    if p <= s * b {
      assert p / s <= (s * b) / s;
    }
  }

  /** One axis of a pixel's trip: origin `o`, scale `s`, display extent `b`. */
  lemma AxisRoundTrip(o: real, p: nat, s: real, b: real)
    requires s > 0.0
    ensures o <= GlobalAxis(p, o, s) <= o + b <==> p as real <= s * b
    ensures PixelAxis(GlobalAxis(p, o, s), o, s) == p
  {
    QuotientBound(p as real, s, b);
    ScaledBack(p, s);
    RoundOfInteger(p);
    assert o + p as real / s - o == p as real / s;
  }

  /** Exactly which pixels survive the trip to the desktop and back. */
  lemma PixelRoundTrip(g: ImageGeometry, p: Pixel)
    requires g.InImage(p)
    ensures g.GlobalToPixel(g.PixelToGlobal(p)) ==
            if p.0 as real <= g.Columns() && p.1 as real <= g.Rows()
            then Some(p) else None
  {
    AxisRoundTrip(g.bounds.x, p.0, g.Scale(), g.bounds.width);
    AxisRoundTrip(g.bounds.y, p.1, g.Scale(), g.bounds.height);
  }

  lemma WidthFits(g: ImageGeometry)
    requires g.bounds.width > 0.0
    ensures g.widthPx as real <= g.Columns()
  {
    var f := g.ScaleFactor();
    assert f * g.bounds.width == g.widthPx as real;
    ProductMonotone(f, g.Scale(), g.bounds.width);
  }

  /** The round trip is the identity on the whole image exactly when the last pixel
      row still lies within the display at the (width-derived) scale. */
  lemma ImageRoundTrip(g: ImageGeometry)
    requires g.bounds.width > 0.0 && g.widthPx >= 1 && g.heightPx >= 1
    ensures (forall p: Pixel :: g.InImage(p) ==> g.GlobalToPixel(g.PixelToGlobal(p)) == Some(p))
       <==> (g.heightPx - 1) as real <= g.Rows()
  {
    WidthFits(g);
    var last: Pixel := (0, g.heightPx - 1);
    PixelRoundTrip(g, last);
    if (g.heightPx - 1) as real <= g.Rows() {
      forall p: Pixel | g.InImage(p)
        ensures g.GlobalToPixel(g.PixelToGlobal(p)) == Some(p)
      {
        PixelRoundTrip(g, p);
      }
    } else {
      assert g.InImage(last);
    }
  }

  /** One axis of a point's trip to its nearest pixel and back. */
  lemma NearestPixelIsClose(o: real, q: real, s: real)
    requires s > 0.0 && PixelAxis(q, o, s) >= 0
    ensures AbsReal(GlobalAxis(PixelAxis(q, o, s), o, s) - q) <= 0.5 / s
  {
    var d := PixelPosition(q, o, s);
    var r := PixelAxis(q, o, s) as real;
    RoundWithinHalf(d);
    DivideWithin(r - d, 0.5, s);
    QuotientDifference(r, d, s);
    ProductThenQuotient(q - o, s);
  }

  lemma DivideWithin(a: real, b: real, s: real)
    requires s > 0.0 && -b <= a <= b
    ensures -(b / s) <= a / s <= b / s
  {
  }

  lemma QuotientDifference(r: real, d: real, s: real)
    requires s > 0.0
    ensures (r - d) / s == r / s - d / s
  {
  }

  lemma ProductThenQuotient(a: real, s: real)
    requires s > 0.0
    ensures a * s / s == a
  {
  }

  lemma RoundsBelow(d: real, n: nat)
    requires d >= 0.0
    ensures Round(d) < n <==> d < n as real - 0.5
    ensures Round(d) >= 0
  {
  }

  lemma ProductNonNegative(a: real, b: real)
    requires a >= 0.0 && b >= 0.0
    ensures a * b >= 0.0
  {
  }

  /** Which points have a pixel: the displayed ones not within half a pixel of the
      far edges. */
  lemma GlobalHasPixel(g: ImageGeometry, q: Point)
    ensures g.GlobalToPixel(q).Some? <==>
            && g.bounds.ContainsGlobal(q)
            && PixelPosition(q.x, g.bounds.x, g.Scale()) < g.widthPx as real - 0.5
            && PixelPosition(q.y, g.bounds.y, g.Scale()) < g.heightPx as real - 0.5
  {
    if g.bounds.ContainsGlobal(q) {
      ProductNonNegative(q.x - g.bounds.x, g.Scale());
      ProductNonNegative(q.y - g.bounds.y, g.Scale());
      RoundsBelow(PixelPosition(q.x, g.bounds.x, g.Scale()), g.widthPx);
      RoundsBelow(PixelPosition(q.y, g.bounds.y, g.Scale()), g.heightPx);
    }
  }

  /** A point that has a pixel moves at most half a pixel per axis on the way back. */
  lemma GlobalRoundTrip(g: ImageGeometry, q: Point)
    requires g.GlobalToPixel(q).Some?
    ensures g.InImage(g.GlobalToPixel(q).value)
    ensures AbsReal(g.PixelToGlobal(g.GlobalToPixel(q).value).x - q.x) <= 0.5 / g.Scale()
    ensures AbsReal(g.PixelToGlobal(g.GlobalToPixel(q).value).y - q.y) <= 0.5 / g.Scale()
  {
    NearestPixelIsClose(g.bounds.x, q.x, g.Scale());
    NearestPixelIsClose(g.bounds.y, q.y, g.Scale());
  }

  // ---- normalised coordinates ----

  lemma NormalizedAxisLands(x: real, size: nat)
    requires 0.0 <= x <= 1000.0 && size >= 1
    ensures NormalizedAxis(x, size) < size
    ensures AbsReal(NormalizedAxis(x, size) as real - x / 1000.0 * size as real) <= 1.0
  {
    var exact := x / 1000.0 * size as real;
    RoundWithinHalf(exact);
    assert exact <= 1.0 * size as real;
  }

  lemma NormalizedAxisMonotone(x: real, y: real, size: nat)
    requires 0.0 <= x <= y <= 1000.0
    ensures NormalizedAxis(x, size) <= NormalizedAxis(y, size)
  {
    RoundMonotone(x / 1000.0 * size as real, y / 1000.0 * size as real);
  }

  lemma NormalizedAxisInverse(p: nat, size: nat)
    requires p < size
    ensures var x := p as real * 1000.0 / size as real;
            0.0 <= x <= 1000.0 && NormalizedAxis(x, size) == p
  {
    var x := p as real * 1000.0 / size as real;
    QuotientBound(p as real * 1000.0, size as real, 1000.0);
    assert x / 1000.0 * size as real == p as real;
    RoundOfInteger(p);
  }

  /** The nearest pixel, the upper one at a tie, except that the far edge takes the last. */
  lemma NormalizedIsNearest(x: real, size: nat)
    requires 0.0 <= x <= 1000.0 && size >= 1
    ensures var (r, exact) := (NormalizedAxis(x, size) as real, x / 1000.0 * size as real);
            if exact < size as real - 0.5 then r - 0.5 <= exact < r + 0.5 else r == (size - 1) as real
  {
    var exact := x / 1000.0 * size as real;
    ProductNonNegative(x / 1000.0, size as real);
    RoundExactly(exact);
    RoundsBelow(exact, size);
  }

  /** Every accepted normalised point lands inside a non-empty image, within one
      pixel of its exact scaled position. */
  lemma NormalizedLandsInImage(g: ImageGeometry, x: real, y: real)
    requires g.widthPx >= 1 && g.heightPx >= 1
    ensures var r := g.NormalizedToPixel(x, y);
            && (r.Ok? <==> g.NormalizedInBounds(x, y))
            && (r.Ok? ==> g.InImage(r.value))
            && (r.Ok? ==> AbsReal(r.value.0 as real - x / 1000.0 * g.widthPx as real) <= 1.0)
            && (r.Ok? ==> AbsReal(r.value.1 as real - y / 1000.0 * g.heightPx as real) <= 1.0)
  {
    if g.NormalizedInBounds(x, y) {
      NormalizedAxisLands(x, g.widthPx);
      NormalizedAxisLands(y, g.heightPx);
    }
  }

  lemma NormalizedMonotone(g: ImageGeometry, a: Point, b: Point)
    requires g.NormalizedInBounds(a.x, a.y) && g.NormalizedInBounds(b.x, b.y)
    ensures a.x <= b.x ==> g.NormalizedToPixel(a.x, a.y).value.0 <= g.NormalizedToPixel(b.x, b.y).value.0
    ensures a.y <= b.y ==> g.NormalizedToPixel(a.x, a.y).value.1 <= g.NormalizedToPixel(b.x, b.y).value.1
  {
    if a.x <= b.x { NormalizedAxisMonotone(a.x, b.x, g.widthPx); }
    if a.y <= b.y { NormalizedAxisMonotone(a.y, b.y, g.heightPx); }
  }

  lemma NormalizedRoundTrip(g: ImageGeometry, p: Pixel)
    requires g.InImage(p)
    ensures var n := g.PixelToNormalized(p); g.NormalizedToPixel(n.x, n.y) == Ok(p)
  {
    NormalizedAxisInverse(p.0, g.widthPx);
    NormalizedAxisInverse(p.1, g.heightPx);
  }

  /** Every accepted point, in either space, is the global point of an image pixel. */
  lemma AcceptedPointIsPixel(g: ImageGeometry, space: CoordinateSpace, p: Point) returns (px: Pixel)
    requires g.widthPx >= 1 && g.heightPx >= 1 && g.ToGlobal(space, p).Ok?
    ensures g.InImage(px) && g.ToGlobal(space, p).value == g.PixelToGlobal(px)
  {
    if space == Normalized1000 {
      NormalizedLandsInImage(g, p.x, p.y);
      px := g.NormalizedToPixel(p.x, p.y).value;
    } else {
      px := (SaturateI64(Round(p.x)), SaturateI64(Round(p.y)));
    }
  }

  /** A pixel coordinate is accepted exactly when its nearest pixel is in the image, and
      goes to that pixel's global point. */
  lemma PixelPointIsNearest(g: ImageGeometry, p: Point, px: Pixel)
    requires U32Image(g) && g.InImage(px)
    requires (px.0 as real) - 0.5 < p.x < px.0 as real + 0.5 && (px.1 as real) - 0.5 < p.y < px.1 as real + 0.5
    ensures g.ToGlobal(ImagePixels, p) == Ok(g.PixelToGlobal(px))
  {
    RoundIs(p.x, px.0);
    RoundIs(p.y, px.1);
  }

  lemma RoundIs(x: real, n: int)
    requires n as real - 0.5 < x < n as real + 0.5
    ensures Round(x) == n
  {
  }

  lemma PixelPointAccepted(g: ImageGeometry, p: Point)
    requires U32Image(g)
    ensures g.ToGlobal(ImagePixels, p).Ok? <==> 0 <= Round(p.x) < g.widthPx && 0 <= Round(p.y) < g.heightPx
  {
  }

  /** Neighbouring pixels are a display width's share apart on both axes, from the display's
      own origin. */
  lemma PixelSpacing(g: ImageGeometry, px: Pixel)
    requires g.bounds.width > 0.0 && g.ScaleFactor() >= EPSILON
    ensures var p := g.PixelToGlobal(px);
            && (p.x - g.bounds.x) * g.widthPx as real == px.0 as real * g.bounds.width
            && (p.y - g.bounds.y) * g.widthPx as real == px.1 as real * g.bounds.width
  {
    var s := g.Scale();
    assert s * g.bounds.width == g.widthPx as real;
    ScaledBack(px.0, s);
    ScaledBack(px.1, s);
    Spaced(px.0 as real / s, s, g.bounds.width, px.0 as real);
    Spaced(px.1 as real / s, s, g.bounds.width, px.1 as real);
  }

  lemma Spaced(d: real, s: real, w: real, p: real)
    requires d * s == p
    ensures d * (s * w) == p * w
  {
  }

  /** So it lies in the display whenever the round-trip condition holds. */
  lemma AcceptedPointsAreDisplayed(g: ImageGeometry, space: CoordinateSpace, p: Point)
    requires g.widthPx >= 1 && g.heightPx >= 1 && g.bounds.width > 0.0
    requires (g.heightPx - 1) as real <= g.Rows()
    ensures g.ToGlobal(space, p).Ok? ==> g.bounds.ContainsGlobal(g.ToGlobal(space, p).value)
  {
    if g.ToGlobal(space, p).Ok? {
      var px := AcceptedPointIsPixel(g, space, p);
      ImageRoundTrip(g);
      assert g.GlobalToPixel(g.PixelToGlobal(px)).Some?;
    }
  }

  // ---- the window crop ----

  /** Output size of a crop after the max-width downscale; the height truncates. */
  function ExpectedCropOutputSize(cropWidth: nat, cropHeight: nat, maxWidth: nat): (nat, nat) {
    if maxWidth == 0 || cropWidth <= maxWidth then (cropWidth, cropHeight)
    else
      QuotientBound(cropHeight as real * maxWidth as real, cropWidth as real, 0.0);
      assert cropHeight as real * (maxWidth as real / cropWidth as real)
          == cropHeight as real * maxWidth as real / cropWidth as real;
      (maxWidth, (cropHeight as real * (maxWidth as real / cropWidth as real)).Floor)
  }

  lemma ShareTimes(a: real, m: real, c: real)
    requires c > 0.0
    ensures a * (m / c) * c == a * m
  {
    assert m / c * c == m;
  }

  lemma ProductOrder(a: nat, b: nat, c: nat, d: nat)
    ensures a * b <= c * d <==> a as real * b as real <= c as real * d as real
  {
    assert (a * b) as real == a as real * b as real && (c * d) as real == c as real * d as real;
  }

  lemma WholePart(h: nat, c: nat, a: nat, m: nat, kept: real)
    requires h as real <= kept < (h + 1) as real && c > 0 && kept * c as real == a as real * m as real
    ensures h * c <= a * m && a * m < (h + 1) * c
  {
    ProductMonotone(h as real, kept, c as real);
    StrictProduct(kept, (h + 1) as real, c as real);
    ProductOrder(h, c, a, m);
    ProductOrder(h + 1, c, a, m);
  }

  /** Within the width limit nothing changes; beyond it the width is the limit and the height
      the whole part of what keeps the proportions. */
  lemma CropOutputExactly(cw: nat, ch: nat, maxWidth: nat)
    ensures var (w, h) := ExpectedCropOutputSize(cw, ch, maxWidth);
            if maxWidth == 0 || cw <= maxWidth then w == cw && h == ch
            else w == maxWidth && h * cw <= ch * maxWidth < (h + 1) * cw
  {
    if maxWidth > 0 && cw > maxWidth {
      var kept := ch as real * (maxWidth as real / cw as real);
      var h := ExpectedCropOutputSize(cw, ch, maxWidth).1;
      assert h == kept.Floor;
      ShareTimes(ch as real, maxWidth as real, cw as real);
      WholePart(h, cw, ch, maxWidth, kept);
    }
  }

  lemma StrictProduct(a: real, b: real, c: real)
    requires a < b && c > 0.0
    ensures a * c < b * c
  {
  }

  /** `ch w <= cw h` carries over to `ch (m / cw) <= (m / w) h`. */
  lemma CropScale(cw: real, ch: real, m: real, w: real, h: real)
    requires w > 0.0 && cw > 0.0 && m >= 0.0 && ch * w <= cw * h
    ensures ch * (m / cw) <= m / w * h
  {
    var share := m / cw;
    assert share * cw == m;
    ProductMonotone(ch * w, cw * h, share);
    assert ch * share * w <= m * h;
    assert ch * share <= m * h / w;
    assert m * h / w == m / w * h;
  }

  lemma CropHeightFits(cw: nat, ch: nat, maxWidth: nat, w: real, h: real)
    requires w > 0.0 && h >= 0.0 && ch as real * w <= cw as real * h
    ensures var (ow, oh) := ExpectedCropOutputSize(cw, ch, maxWidth); oh as real <= ow as real / w * h
  {
    if maxWidth == 0 || cw <= maxWidth {
      assert ch as real <= cw as real * h / w;
      assert cw as real * h / w == cw as real / w * h;
    } else {
      CropScale(cw as real, ch as real, maxWidth as real, w, h);
    }
  }

  lemma ProductMonotone(a: real, b: real, c: real)
    requires a <= b && c >= 0.0
    ensures a * c <= b * c
  {
  }

  /** No taller than the width-derived scale allows: every pixel round-trips. */
  ghost predicate RoundTrips(g: ImageGeometry) {
    && g.heightPx as real <= g.Rows()
    && (forall p: Pixel :: g.InImage(p) ==> g.GlobalToPixel(g.PixelToGlobal(p)) == Some(p))
  }

  lemma ShortEnoughRoundTrips(g: ImageGeometry)
    requires g.bounds.width > 0.0 && g.bounds.height >= 0.0
    requires g.heightPx as real <= g.ScaleFactor() * g.bounds.height
    ensures RoundTrips(g)
  {
    ProductMonotone(g.ScaleFactor(), g.Scale(), g.bounds.height);
    assert g.heightPx as real <= g.Rows();
    if g.widthPx >= 1 && g.heightPx >= 1 {
      ImageRoundTrip(g);
    }
  }

  /** A crop no taller for its width than the display bounds it stands for satisfies the
      round-trip condition, downscaled or not, because the downscaled height truncates.
      Where the crop's sides were themselves rounded, the premise asks that the height
      was not rounded up further than the width. */
  lemma CropKeepsRoundTrip(cropWidth: nat, cropHeight: nat, maxWidth: nat, bounds: DisplayBounds)
    requires bounds.width > 0.0 && bounds.height >= 0.0
    requires cropHeight as real * bounds.width <= cropWidth as real * bounds.height
    ensures var (w, h) := ExpectedCropOutputSize(cropWidth, cropHeight, maxWidth);
            RoundTrips(ImageGeometry(w, h, bounds))
  {
    var (w, h) := ExpectedCropOutputSize(cropWidth, cropHeight, maxWidth);
    CropHeightFits(cropWidth, cropHeight, maxWidth, bounds.width, bounds.height);
    ShortEnoughRoundTrips(ImageGeometry(w, h, bounds));
  }

  // ---- regions ----

  datatype Region = Region(x: real, y: real, width: real, height: real, space: CoordinateSpace)

  datatype PixelRect = PixelRect(x: int, y: int, w: int, h: int)

  function RoundedAtLeastOne(w: real): int {
    SaturateI64(if Round(w) >= 1 then Round(w) else 1)
  }

  /** The far-edge sum is i64 addition, which wraps in a release build, and the
      accepted values are truncated to u32. */
  function RegionToPixels(r: Region, g: ImageGeometry): Result<PixelRect, OutOfBounds> {
    match r.space
    case Normalized1000 =>
      if !g.NormalizedInBounds(r.x, r.y) || !g.NormalizedInBounds(r.x + r.width, r.y + r.height)
      then Err(OutOfBounds(r.space, r.x, r.y))
      else
        var p := g.NormalizedToPixel(r.x, r.y).value;
        var q := g.NormalizedToPixel(r.x + r.width, r.y + r.height).value;
        Ok(PixelRect(p.0, p.1, Max(q.0 - p.0, 1), Max(q.1 - p.1, 1)))
    case ImagePixels =>
      var q := RequestedRect(r);
      if q.x < 0 || q.y < 0 || WrapI64(q.x + q.w) > g.widthPx || WrapI64(q.y + q.h) > g.heightPx
      then Err(OutOfBounds(r.space, r.x, r.y))
      else Ok(PixelRect(q.x % U32_SIZE, q.y % U32_SIZE, q.w % U32_SIZE, q.h % U32_SIZE))
  }

  /** The rectangle a pixel region asks for, before any bounds check. */
  function RequestedRect(r: Region): PixelRect {
    PixelRect(SaturateI64(Round(r.x)), SaturateI64(Round(r.y)), RoundedAtLeastOne(r.width), RoundedAtLeastOne(r.height))
  }

  predicate InsideImage(q: PixelRect, g: ImageGeometry) {
    0 <= q.x && 0 <= q.y && q.w >= 1 && q.h >= 1 && q.x + q.w <= g.widthPx && q.y + q.h <= g.heightPx
  }

  predicate U32Image(g: ImageGeometry) { g.widthPx < U32_SIZE && g.heightPx < U32_SIZE }

  /** The rectangle asked for has its corner and its sides rounded to the nearest pixel, and
      no side is empty. */
  lemma RequestedIsNearest(r: Region, x: int, y: int, w: int, h: int)
    requires I64_MIN <= x <= I64_MAX && I64_MIN <= y <= I64_MAX && w <= I64_MAX && h <= I64_MAX
    requires x as real - 0.5 < r.x < x as real + 0.5 && y as real - 0.5 < r.y < y as real + 0.5
    requires w as real - 0.5 < r.width < w as real + 0.5 && h as real - 0.5 < r.height < h as real + 0.5
    ensures RequestedRect(r) == PixelRect(x, y, if w >= 1 then w else 1, if h >= 1 then h else 1)
  {
    RoundIs(r.x, x);
    RoundIs(r.y, y);
    RoundIs(r.width, w);
    RoundIs(r.height, h);
  }

  /** A pixel region within i64 range is accepted exactly when the requested
      rectangle lies in the image, and comes back unchanged. */
  lemma PixelRegionExact(r: Region, g: ImageGeometry)
    requires r.space == ImagePixels && U32Image(g)
    requires var q := RequestedRect(r); q.x + q.w <= I64_MAX && q.y + q.h <= I64_MAX
    ensures RegionToPixels(r, g).Ok? <==> InsideImage(RequestedRect(r), g)
    ensures RegionToPixels(r, g).Ok? ==> RegionToPixels(r, g).value == RequestedRect(r)
  {
  }

  /** Among the accepted pixel regions, the result is the requested rectangle and
      lies in the image exactly when neither far edge overflows i64. */
  lemma AcceptedPixelRegion(r: Region, g: ImageGeometry)
    requires r.space == ImagePixels && U32Image(g) && RegionToPixels(r, g).Ok?
    ensures var q := RequestedRect(r);
            (RegionToPixels(r, g).value == q && InsideImage(q, g)
             <==> q.x + q.w <= I64_MAX && q.y + q.h <= I64_MAX)
  {
  }

  /** The overflow is reachable: this region is far wider than the image, and is accepted. */
  lemma OversizedRegionAccepted()
    ensures var g := ImageGeometry(100, 100, DisplayBounds(0.0, 0.0, 100.0, 100.0));
            var r := Region(1.0, 0.0, 9223372036854775807.0, 10.0, ImagePixels);
            RegionToPixels(r, g).Ok? && !InsideImage(RequestedRect(r), g)
  {
    RoundOfInteger(1);
    RoundOfInteger(0);
    RoundOfInteger(9223372036854775807);
    RoundOfInteger(10);
    var r := Region(1.0, 0.0, 9223372036854775807.0, 10.0, ImagePixels);
    assert RequestedRect(r) == PixelRect(1, 0, 9223372036854775807, 10);
  }

  /** An accepted normalised region runs from the pixel of its corner to just before the
      pixel of its opposite corner, and is one pixel where these are the same. */
  lemma NormalizedRegionExact(r: Region, g: ImageGeometry)
    requires r.space == Normalized1000
    ensures var (near, far) := (g.NormalizedToPixel(r.x, r.y), g.NormalizedToPixel(r.x + r.width, r.y + r.height));
            var q := RegionToPixels(r, g);
            && (q.Ok? <==> near.Ok? && far.Ok?)
            && (q.Ok? ==>
                  && q.value.x == near.value.0 && q.value.y == near.value.1
                  && q.value.x + q.value.w == Max(far.value.0, near.value.0 + 1)
                  && q.value.y + q.value.h == Max(far.value.1, near.value.1 + 1))
  {
  }

  /** Every accepted normalised region is a non-empty rectangle inside the image.
      Unless the image is a single column (row), it never reaches the last one:
      the far corner maps to the last pixel, and the width excludes it. */
  lemma NormalizedRegionInside(r: Region, g: ImageGeometry)
    requires r.space == Normalized1000 && g.widthPx >= 1 && g.heightPx >= 1
    ensures var q := RegionToPixels(r, g);
            q.Ok? ==> && InsideImage(q.value, g)
                      && (q.value.x + q.value.w == g.widthPx <==> q.value.x == g.widthPx - 1)
                      && (q.value.y + q.value.h == g.heightPx <==> q.value.y == g.heightPx - 1)
  {
    var q := RegionToPixels(r, g);
    if q.Ok? {
      NormalizedLandsInImage(g, r.x, r.y);
      NormalizedLandsInImage(g, r.x + r.width, r.y + r.height);
    }
  }
}
