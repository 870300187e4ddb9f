/** Pointer paths and the cancellable gesture executors. */
module Paths {
  import opened Basics
  import opened Coordinates

  /** A point of a path and the wait scheduled after it, in milliseconds. */
  datatype Waypoint = Waypoint(p: Point, wait: nat)

  const STEPS_PER_SECOND: real := 90.0

  /** Ease-in-out. */
  function Ease(t: real): real {
    if t < 0.5 then 2.0 * t * t else 1.0 - (-2.0 * t + 2.0) * (-2.0 * t + 2.0) / 2.0
  }

  /** How many steps a path takes; `dist` stands for the travelled distance. */
  function StepCount(dist: real, duration: nat): (n: nat)
    ensures n >= 4
  {
    Max(Clamp(Max(Ceil(dist / 8.0), 0), 4, 200), Ceil(duration as real * STEPS_PER_SECOND / 1000.0))
  }

  /** `d` scaled by the eased progress `e`. */
  function Scaled(d: real, e: real): real { d * e }

  function Blend(a: real, b: real, e: real): real { a + Scaled(b - a, e) }

  function PathPoint(from: Point, to: Point, i: nat, n: nat): Point
    requires n > 0
  {
    var e := Ease(i as real / n as real);
    Point(Blend(from.x, to.x, e), Blend(from.y, to.y, e))
  }

  /** `n + 1` samples, each followed by the same wait. */
  function Path(from: Point, to: Point, wait: nat, n: nat): (path: seq<Waypoint>)
    requires n > 0
    ensures |path| == n + 1
  {
    seq(n + 1, i requires 0 <= i => Waypoint(PathPoint(from, to, i, n), wait))
  }

  /** The path of `n` steps that share `duration`. */
  function RouteOf(from: Point, to: Point, duration: nat, n: nat): (path: seq<Waypoint>)
    requires n >= 4
    ensures |path| > 1 && forall i :: 0 <= i < |path| ==> path[i].wait == path[0].wait
  {
    Path(from, to, duration / n, n)
  }

  /** The path taken over `duration`. */
  function Route(from: Point, to: Point, dist: real, duration: nat): (path: seq<Waypoint>)
    ensures |path| > 1 && forall i :: 0 <= i < |path| ==> path[i].wait == path[0].wait
  {
    RouteOf(from, to, duration, StepCount(dist, duration))
  }

  method DragPath(from: Point, to: Point, dist: real, duration: nat) returns (out: seq<Waypoint>)
    ensures out == Route(from, to, dist, duration)
  {
    out := FillRoute(from, to, duration, StepCount(dist, duration));
  }

  method FillRoute(from: Point, to: Point, duration: nat, n: nat) returns (out: seq<Waypoint>)
    requires n >= 4
    ensures out == RouteOf(from, to, duration, n)
  {
    out := FillPath(from, to, duration / n, n);
  }

  method FillPath(from: Point, to: Point, wait: nat, n: nat) returns (out: seq<Waypoint>)
    requires n > 0
    ensures out == Path(from, to, wait, n)
  {
    out := [];
    for i := 0 to n + 1
      invariant out == Path(from, to, wait, n)[..i]
    {
      out := out + [Waypoint(PathPoint(from, to, i, n), wait)];
    }
  }

  // ---- the easing keeps a path between its endpoints ----

  lemma SquareMonotone(a: real, b: real)
    requires 0.0 <= a <= b
    ensures a * a <= b * b
  {
  }

  lemma ScaledBetween(d: real, e: real)
    requires 0.0 <= e <= 1.0
    ensures d >= 0.0 ==> 0.0 <= Scaled(d, e) <= d
    ensures d <= 0.0 ==> d <= Scaled(d, e) <= 0.0
  {
  }

  lemma EaseRange(t: real)
    requires 0.0 <= t <= 1.0
    ensures 0.0 <= Ease(t) <= 1.0
    ensures t < 0.5 ==> Ease(t) <= 0.5
    ensures t >= 0.5 ==> Ease(t) >= 0.5
  {
    if t < 0.5 {
      SquareMonotone(t, 0.5);
      assert 2.0 * t * t == 2.0 * (t * t);
    } else {
      SquareMonotone(0.0, -2.0 * t + 2.0);
      SquareMonotone(-2.0 * t + 2.0, 1.0);
    }
  }

  lemma EaseMonotone(s: real, t: real)
    requires 0.0 <= s <= t <= 1.0
    ensures Ease(s) <= Ease(t)
    ensures Ease(0.0) == 0.0 && Ease(1.0) == 1.0
  {
    EaseRange(s);
    EaseRange(t);
    if t < 0.5 {
      SquareMonotone(s, t);
      assert 2.0 * t * t == 2.0 * (t * t) && 2.0 * s * s == 2.0 * (s * s);
    } else if s >= 0.5 {
      SquareMonotone(-2.0 * t + 2.0, -2.0 * s + 2.0);
    }
  }

  /** Constant acceleration over the first half, the same slowing down over the second, and
      each half the mirror of the other: with its ends and its middle, that is the easing. */
  lemma EaseAccelerates(t: real, h: real)
    requires h >= 0.0
    ensures 0.0 <= t - h && t + h <= 0.5 ==> Ease(t + h) - 2.0 * Ease(t) + Ease(t - h) == 4.0 * h * h
    ensures 0.5 <= t - h && t + h <= 1.0 ==> Ease(t + h) - 2.0 * Ease(t) + Ease(t - h) == -4.0 * h * h
    ensures 0.0 <= t <= 1.0 ==> Ease(1.0 - t) == 1.0 - Ease(t)
    ensures Ease(0.0) == 0.0 && Ease(0.5) == 0.5 && Ease(1.0) == 1.0
  {
  }

  /** Enough steps for the distance, eight points each and two hundred at most, and ninety
      of them a second. */
  predicate EnoughSteps(n: nat, dist: real, duration: nat) {
    n >= 4 && (n >= 200 || n as real * 8.0 >= dist) && n as real * 1000.0 >= duration as real * 90.0
  }

  lemma CeilIsLeast(x: real, n: int)
    ensures Ceil(x) <= n <==> x <= n as real
  {
  }

  /** A path takes the least number of steps that is enough. */
  lemma StepCountIsLeast(dist: real, duration: nat, n: nat)
    ensures StepCount(dist, duration) <= n <==> EnoughSteps(n, dist, duration)
  {
    CeilIsLeast(dist / 8.0, n);
    CeilIsLeast(duration as real * STEPS_PER_SECOND / 1000.0, n);
    assert dist / 8.0 <= n as real <==> dist <= n as real * 8.0;
  }

  lemma Fraction(i: nat, j: nat, n: nat)
    requires n > 0 && i <= j <= n
    ensures 0.0 <= i as real / n as real <= j as real / n as real <= 1.0
  {
    QuotientMonotone(0.0, i as real, n as real);
    QuotientMonotone(i as real, j as real, n as real);
    QuotientMonotone(j as real, n as real, n as real);
  }

  lemma QuotientMonotone(a: real, b: real, c: real)
    requires c > 0.0 && a <= b
    ensures a / c <= b / c && c / c == 1.0 && 0.0 / c == 0.0
  {
  }

  lemma BlendBetween(a: real, b: real, lo: real, hi: real, e: real)
    requires 0.0 <= e <= 1.0 && lo <= a <= hi && lo <= b <= hi
    ensures lo <= Blend(a, b, e) <= hi
  {
    ScaledBetween(b - a, e);
  }

  /** The box both endpoints lie in holds the whole path. */
  lemma PathStaysInBounds(from: Point, to: Point, i: nat, n: nat, b: DisplayBounds)
    requires n > 0 && i <= n && b.ContainsGlobal(from) && b.ContainsGlobal(to)
    ensures b.ContainsGlobal(PathPoint(from, to, i, n))
  {
    Fraction(i, i, n);
    var e := Ease(i as real / n as real);
    EaseRange(i as real / n as real);
    BlendBetween(from.x, to.x, b.x, b.x + b.width, e);
    BlendBetween(from.y, to.y, b.y, b.y + b.height, e);
  }

  lemma BlendMonotone(a: real, b: real, e: real, f: real)
    requires e <= f
    ensures a <= b ==> Blend(a, b, e) <= Blend(a, b, f)
    ensures a >= b ==> Blend(a, b, e) >= Blend(a, b, f)
  {
    if a <= b {
      ProductMonotone(e, f, b - a);
    } else {
      ProductMonotone(e, f, a - b);
    }
  }

  lemma HalfShare(a: real, n: real)
    requires n > 0.0
    ensures 2.0 * a <= n ==> a / n <= 0.5
    ensures 2.0 * a >= n ==> a / n >= 0.5
  {
    QuotientHalves(n);
    if 2.0 * a <= n {
      QuotientMonotone(a, n / 2.0, n);
    }
    if 2.0 * a >= n {
      QuotientMonotone(n / 2.0, a, n);
    }
  }

  lemma QuotientHalves(n: real)
    requires n > 0.0
    ensures n / 2.0 / n == 0.5
  {
  }

  lemma Shares(i: nat, n: nat)
    requires 1 <= i < n
    ensures var (h, t) := (1.0 / n as real, i as real / n as real);
            && h >= 0.0 && 0.0 <= t - h && t + h <= 1.0
            && t - h == (i - 1) as real / n as real && t + h == (i + 1) as real / n as real
            && (2 * (i + 1) <= n ==> t + h <= 0.5) && (2 * (i - 1) >= n ==> 0.5 <= t - h)
  {
    ShareSum(i as real, 1.0, n as real);
    ShareSum((i - 1) as real, 1.0, n as real);
    Fraction(i - 1, i + 1, n);
    HalfShare((i + 1) as real, n as real);
    HalfShare((i - 1) as real, n as real);
  }

  lemma ShareSum(a: real, b: real, c: real)
    requires c > 0.0
    ensures a / c + b / c == (a + b) / c
  {
  }

  lemma SecondDifference(a: real, b: real, e: real, f: real, g: real, d: real)
    requires g - 2.0 * f + e == d
    ensures (Blend(a, b, g) - Blend(a, b, f)) - (Blend(a, b, f) - Blend(a, b, e)) == Scaled(b - a, d)
  {
    var w := b - a;
    assert w * g - w * f - (w * f - w * e) == w * (g - 2.0 * f + e);
  }

  /** The progress of point `i`. */
  function Progress(i: nat, n: nat): real
    requires n > 0
  {
    Ease(i as real / n as real)
  }

  /** How much more progress a step of the first half makes than the one before it. */
  function Gain(i: nat, n: nat): real
    requires n > 0
  {
    var h := 1.0 / n as real;
    if 2 * (i + 1) <= n then 4.0 * h * h else -4.0 * h * h
  }

  lemma ProgressAccelerates(i: nat, n: nat)
    requires 1 <= i < n && (2 * (i + 1) <= n || 2 * (i - 1) >= n)
    ensures Progress(i + 1, n) - 2.0 * Progress(i, n) + Progress(i - 1, n) == Gain(i, n)
  {
    Shares(i, n);
    EaseAccelerates(i as real / n as real, 1.0 / n as real);
  }

  /** The displacement between neighbouring points of a path grows by the same amount at
      each step of its first half, and shrinks by as much at each step of its second. */
  lemma PathAccelerates(from: Point, to: Point, i: nat, n: nat)
    requires 1 <= i < n && (2 * (i + 1) <= n || 2 * (i - 1) >= n)
    ensures var (p, q, r) := (PathPoint(from, to, i - 1, n), PathPoint(from, to, i, n), PathPoint(from, to, i + 1, n));
            && (r.x - q.x) - (q.x - p.x) == Scaled(to.x - from.x, Gain(i, n))
            && (r.y - q.y) - (q.y - p.y) == Scaled(to.y - from.y, Gain(i, n))
  {
    ProgressAccelerates(i, n);
    var (e, f, g) := (Progress(i - 1, n), Progress(i, n), Progress(i + 1, n));
    SecondDifference(from.x, to.x, e, f, g, Gain(i, n));
    SecondDifference(from.y, to.y, e, f, g, Gain(i, n));
  }

  /** A path starts at `from`, ends at `to`, and never turns back on either axis. */
  lemma PathShape(from: Point, to: Point, i: nat, j: nat, n: nat)
    requires n > 0 && i <= j <= n
    ensures PathPoint(from, to, 0, n) == from && PathPoint(from, to, n, n) == to
    ensures var (p, q) := (PathPoint(from, to, i, n), PathPoint(from, to, j, n));
            && (from.x <= to.x ==> p.x <= q.x) && (from.x >= to.x ==> p.x >= q.x)
            && (from.y <= to.y ==> p.y <= q.y) && (from.y >= to.y ==> p.y >= q.y)
  {
    Fraction(i, j, n);
    QuotientMonotone(0.0, n as real, n as real);
    var (s, t) := (i as real / n as real, j as real / n as real);
    EaseMonotone(s, t);
    BlendMonotone(from.x, to.x, Ease(s), Ease(t));
    BlendMonotone(from.y, to.y, Ease(s), Ease(t));
  }
}

/** Gestures that look at a cancellation token between physical events. A schedule is
    the first look at which the token reads fired; tokens never un-fire, so every
    schedule has this form. */
module Gestures {
  import opened Basics
  import opened Coordinates
  import opened Actions
  import opened Paths

  datatype MouseOp =
    | MoveOp(p: Point)
    | DownOp(button: MouseButton, p: Point, clickState: nat)
    | UpOp(button: MouseButton, p: Point, clickState: nat)
    | DraggedOp(p: Point)
    | WheelOp(dx: int, dy: int)

  /** An operation, and whether an earlier look had already found the token fired. */
  datatype Posted = Posted(op: MouseOp, afterSeen: bool)

  /** Looks left before the token reads fired; None means it never does. */
  type Schedule = Option<nat>

  predicate FiresWithin(s: Schedule, looks: nat) { s.Some? && s.value < looks }

  function After(s: Schedule, looks: nat): Schedule {
    if s.None? then None else Some(if s.value <= looks then 0 else s.value - looks)
  }

  /** The injected poster together with the token the gesture looks at. */
  class Poster {
    var left: Schedule
    var seen: bool
    var posted: seq<Posted>
    /** The sleeps started, each with its scheduled length. */
    var waits: seq<nat>

    constructor (left: Schedule)
      ensures this.left == left && !seen && posted == [] && waits == []
    {
      this.left := left;
      seen, posted, waits := false, [], [];
    }

    method Post(op: MouseOp)
      modifies this`posted
      ensures posted == old(posted) + [Posted(op, seen)]
    {
      posted := posted + [Posted(op, seen)];
    }

    method Cancelled() returns (c: bool)
      modifies this`left, this`seen
      ensures c == FiresWithin(old(left), 1)
      ensures left == After(old(left), 1) && seen == (old(seen) || c)
    {
      c := left.Some? && left.value == 0;
      seen := seen || c;
      left := After(left, 1);
    }

    /** Sleeps unless the token fires first; false when it did. */
    method Sleep(ms: nat) returns (slept: bool)
      modifies this`left, this`seen, this`waits
      ensures slept == !FiresWithin(old(left), 1)
      ensures left == After(old(left), 1) && seen == (old(seen) || !slept)
      ensures waits == old(waits) + [ms]
    {
      var c := Cancelled();
      waits := waits + [ms];
      slept := !c;
    }
  }

  // ---- drag ----

  function DragUpPosition(cancelled: bool, to: Point, lastActual: Point): Point {
    if cancelled then lastActual else to
  }

  /** The looks `points` path points take: a check each, and a sleep when there is a wait. */
  function LooksFor(points: nat, wait: nat): nat { if wait > 0 then 2 * points else points }

  /** How many path points a drag or move posts under schedule `s`. */
  function PointsPosted(s: Schedule, points: nat, wait: nat): nat {
    if s.None? then points
    else Min(points, if wait > 0 then (s.value + 1) / 2 else s.value)
  }

  predicate PathCompletes(s: Schedule, points: nat, wait: nat) {
    !FiresWithin(s, LooksFor(points, wait))
  }

  function Drags(path: seq<Waypoint>): seq<Posted> {
    seq(|path|, i requires 0 <= i < |path| => Posted(DraggedOp(path[i].p), false))
  }

  /** Everything a drag along `path` posts, in closed form. */
  function DragTrace(s: Schedule, from: Point, to: Point, path: seq<Waypoint>): seq<Posted>
    requires path != []
  {
    if s == Some(0) then []
    else if s == Some(1) then [Posted(MoveOp(from), false)]
    else
      [Posted(MoveOp(from), false), Posted(DownOp(Left, from, 1), false)] + PressedTrace(After(s, 2), from, to, path)
  }

  /** The part of a drag with the button held: a prefix of the path, then the release. */
  function PressedTrace(s: Schedule, from: Point, to: Point, path: seq<Waypoint>): seq<Posted>
    requires path != []
  {
    var k := PointsPosted(s, |path|, path[0].wait);
    var done := PathCompletes(s, |path|, path[0].wait);
    var last := if k == 0 then from else path[k - 1].p;
    Drags(path[..k]) + [Posted(UpOp(Left, DragUpPosition(!done, to, last), 1), !done)]
  }

  const DRAG_DEFAULT_MS: nat := 400
  const DRAG_MAX_MS: nat := 10000
  const MOVE_MAX_MS: nat := 5000

  function DragDuration(durationMs: Option<nat>): nat {
    Min(if durationMs.Some? then durationMs.value else DRAG_DEFAULT_MS, DRAG_MAX_MS)
  }

  /** A drag takes four tenths of a second if nothing is said and ten seconds at most; a
      motion is instant if nothing is said and takes five at most. */
  lemma Durations(ms: nat)
    ensures DragDuration(None) == 400 && MoveDuration(None) == 0
    ensures DragDuration(Some(ms)) <= 10000 && (ms <= 10000 ==> DragDuration(Some(ms)) == ms)
    ensures ms > 10000 ==> DragDuration(Some(ms)) == 10000
    ensures MoveDuration(Some(ms)) <= 5000 && (ms <= 5000 ==> MoveDuration(Some(ms)) == ms)
    ensures ms > 5000 ==> MoveDuration(Some(ms)) == 5000
  {
  }

  function Repeat(wait: nat, times: nat): seq<nat> { seq(times, _ => wait) }

  /** The stepping loop of a drag: posts the path until a look finds the token fired. */
  method DragSteps(path: seq<Waypoint>, wait: nat, from: Point, post: Poster)
    returns (aborted: bool, lastActual: Point)
    requires !post.seen && forall i :: 0 <= i < |path| ==> path[i].wait == wait
    modifies post
    ensures var s := old(post.left);
            var k := PointsPosted(s, |path|, wait);
            && aborted == !PathCompletes(s, |path|, wait)
            && lastActual == (if k == 0 then from else path[k - 1].p)
            && post.posted == old(post.posted) + Drags(path[..k])
            && post.waits == old(post.waits) + Repeat(wait, if wait > 0 then k else 0)
            && post.seen == aborted
  {
    ghost var s := post.left;
    aborted, lastActual := false, from;
    var i := 0;
    while i < |path|
      invariant 0 <= i <= |path|
      invariant !aborted && !post.seen
      invariant !FiresWithin(s, LooksFor(i, wait)) && post.left == After(s, LooksFor(i, wait))
      invariant post.posted == old(post.posted) + Drags(path[..i])
      invariant lastActual == if i == 0 then from else path[i - 1].p
      invariant post.waits == old(post.waits) + Repeat(wait, if wait > 0 then i else 0)
    {
      var stop := post.Cancelled();
      if stop {
        aborted := true;
        break;
      }
      post.Post(DraggedOp(path[i].p));
      assert Drags(path[..i + 1]) == Drags(path[..i]) + [Posted(DraggedOp(path[i].p), false)];
      lastActual := path[i].p;
      i := i + 1;
      if path[i - 1].wait > 0 {
        assert Repeat(wait, i) == Repeat(wait, i - 1) + [wait];
        var slept := post.Sleep(path[i - 1].wait);
        if !slept {
          aborted := true;
          break;
        }
      }
    }
  }

  /** Check, move to the start, check, press, step along the path, release. */
  method DragAlong(from: Point, to: Point, path: seq<Waypoint>, post: Poster) returns (completed: bool)
    requires !post.seen && path != [] && forall i :: 0 <= i < |path| ==> path[i].wait == path[0].wait
    modifies post
    ensures post.posted == old(post.posted) + DragTrace(old(post.left), from, to, path)
    ensures completed == !FiresWithin(old(post.left), 2 + LooksFor(|path|, path[0].wait))
    ensures exists k :: 0 <= k <= |path| && post.waits == old(post.waits) + Repeat(path[0].wait, k)
  {
    assert post.waits == post.waits + Repeat(path[0].wait, 0);
    var c := post.Cancelled();
    if c {
      return false;
    }
    post.Post(MoveOp(from));
    c := post.Cancelled();
    if c {
      return false;
    }
    post.Post(DownOp(Left, from, 1));
    var aborted, lastActual := DragSteps(path, path[0].wait, from, post);
    var up := DragUpPosition(aborted, to, lastActual);
    post.Post(UpOp(Left, up, 1));
    completed := !aborted;
  }

  method DragCore(from: Point, to: Point, dist: real, durationMs: Option<nat>, post: Poster)
    returns (completed: bool)
    requires !post.seen
    modifies post
    ensures var path := Route(from, to, dist, DragDuration(durationMs));
            && post.posted == old(post.posted) + DragTrace(old(post.left), from, to, path)
            && completed == !FiresWithin(old(post.left), 2 + LooksFor(|path|, path[0].wait))
            && exists k :: 0 <= k <= |path| && post.waits == old(post.waits) + Repeat(path[0].wait, k)
  {
    var path := DragPath(from, to, dist, DragDuration(durationMs));
    completed := DragAlong(from, to, path, post);
  }

  /** Cancel-aware pointer motion; a zero duration is one instant move. */
  method MovePointerSmooth(from: Point, to: Point, dist: real, durationMs: Option<nat>, post: Poster)
    returns (completed: bool)
    requires !post.seen
    modifies post
    ensures post.posted == old(post.posted) + MoveTrace(old(post.left), from, to, dist, MoveDuration(durationMs))
    ensures completed == MoveCompletes(old(post.left), from, to, dist, MoveDuration(durationMs))
  {
    var duration := MoveDuration(durationMs);
    if duration == 0 {
      var c := post.Cancelled();
      if c {
        return false;
      }
      post.Post(MoveOp(to));
      return true;
    }
    var path := DragPath(from, to, dist, duration);
    completed := MoveAlong(path, post);
  }

  /** A check before each point, and a sleep after it. */
  method MoveAlong(path: seq<Waypoint>, post: Poster) returns (completed: bool)
    requires !post.seen && path != [] && forall i :: 0 <= i < |path| ==> path[i].wait == path[0].wait
    modifies post
    ensures post.posted == old(post.posted) + Moves(path[..PointsPosted(old(post.left), |path|, path[0].wait)])
    ensures completed == PathCompletes(old(post.left), |path|, path[0].wait)
  {
    ghost var s := post.left;
    ghost var wait := path[0].wait;
    var i := 0;
    while i < |path|
      invariant 0 <= i <= |path| && !post.seen
      invariant !FiresWithin(s, LooksFor(i, wait)) && post.left == After(s, LooksFor(i, wait))
      invariant post.posted == old(post.posted) + Moves(path[..i])
    {
      var stop := post.Cancelled();
      if stop {
        return false;
      }
      post.Post(MoveOp(path[i].p));
      assert Moves(path[..i + 1]) == Moves(path[..i]) + [Posted(MoveOp(path[i].p), false)];
      i := i + 1;
      if path[i - 1].wait > 0 {
        var slept := post.Sleep(path[i - 1].wait);
        if !slept {
          return false;
        }
      }
    }
    completed := true;
  }

  /** The motion reaches its end, and says so, unless a look sees the token. */
  predicate MoveCompletes(s: Schedule, from: Point, to: Point, dist: real, duration: nat) {
    if duration == 0 then !FiresWithin(s, 1)
    else
      var path := Route(from, to, dist, duration);
      PathCompletes(s, |path|, path[0].wait)
  }

  function MoveDuration(durationMs: Option<nat>): nat {
    Min(if durationMs.Some? then durationMs.value else 0, MOVE_MAX_MS)
  }

  function Moves(path: seq<Waypoint>): seq<Posted> {
    seq(|path|, i requires 0 <= i < |path| => Posted(MoveOp(path[i].p), false))
  }

  /** What a pointer motion posts: the one move, or a prefix of the path. */
  function MoveTrace(s: Schedule, from: Point, to: Point, dist: real, duration: nat): seq<Posted> {
    if duration == 0 then (if s == Some(0) then [] else [Posted(MoveOp(to), false)])
    else
      var path := Route(from, to, dist, duration);
      Moves(path[..PointsPosted(s, |path|, path[0].wait)])
  }

  lemma RouteEnds(from: Point, to: Point, dist: real, duration: nat)
    ensures var path := Route(from, to, dist, duration);
            path[0].p == from && path[|path| - 1].p == to
  {
    PathShape(from, to, 0, 0, StepCount(dist, duration));
  }

  // ---- what every drag guarantees ----

  /** The primary button as the posted operations leave it; None once an operation
      comes in the wrong state. */
  function Button(ops: seq<Posted>): Option<bool> {
    if ops == [] then Some(false) else
    match (Button(ops[..|ops| - 1]), ops[|ops| - 1].op)
    case (Some(false), MoveOp(_)) => Some(false)
    case (Some(false), DownOp(_, _, _)) => Some(true)
    case (Some(true), DraggedOp(_)) => Some(true)
    case (Some(true), UpOp(_, _, _)) => Some(false)
    case _ => None
  }

  lemma {:induction false} DraggingHolds(ops: seq<Posted>, path: seq<Waypoint>)
    requires Button(ops) == Some(true)
    ensures Button(ops + Drags(path)) == Some(true)
  {
    if path == [] {
      assert ops + Drags(path) == ops;
    } else {
      var (init, last) := (path[..|path| - 1], path[|path| - 1]);
      DraggingHolds(ops, init);
      assert (ops + Drags(path))[..|ops| + |init|] == ops + Drags(init);
    }
  }

  /** Whatever the schedule, a drag presses and releases in order and leaves the
      button up. */
  lemma DragNeverStuck(s: Schedule, from: Point, to: Point, path: seq<Waypoint>)
    requires path != []
    ensures Button(DragTrace(s, from, to, path)) == Some(false)
  {
    var t := DragTrace(s, from, to, path);
    var moved := [Posted(MoveOp(from), false)];
    assert moved[..0] == [];
    if s.None? || s.value >= 2 {
      var pressed := moved + [Posted(DownOp(Left, from, 1), false)];
      assert pressed[..1] == moved && pressed[1].op == DownOp(Left, from, 1);
      assert Button(moved) == Some(false);
      var dragged := path[..PointsPosted(After(s, 2), |path|, path[0].wait)];
      DraggingHolds(pressed, dragged);
      assert t[..|t| - 1] == pressed + Drags(dragged);
    }
  }

  /** After a look has found the token fired, the release is the only thing posted,
      and it is the last. */
  lemma OnlyReleaseAfterCancel(s: Schedule, from: Point, to: Point, path: seq<Waypoint>, i: nat)
    requires path != [] && i < |DragTrace(s, from, to, path)|
    requires DragTrace(s, from, to, path)[i].afterSeen
    ensures DragTrace(s, from, to, path)[i].op.UpOp? && i == |DragTrace(s, from, to, path)| - 1
  {
  }

  /** The release of a started drag is where the last operation was: at the destination
      when the schedule lets the path complete, else at the last dragged point, or the
      start if there is none. The path begins at the start. */
  lemma ReleasePoint(s: Schedule, from: Point, to: Point, dist: real, duration: nat)
    requires s.None? || s.value >= 2
    ensures var path := Route(from, to, dist, duration);
            var t := DragTrace(s, from, to, path);
            && t[|t| - 1].op.UpOp? && t[|t| - 1].op.p == t[|t| - 2].op.p
            && (!FiresWithin(s, 2 + LooksFor(|path|, path[0].wait)) ==> t[|t| - 1].op.p == to)
            && (|t| > 3 ==> t[2].op.p == from)
  {
    var path := Route(from, to, dist, duration);
    RouteEnds(from, to, dist, duration);
    var k := PointsPosted(After(s, 2), |path|, path[0].wait);
    if k > 0 {
      assert Drags(path[..k])[k - 1] == Posted(DraggedOp(path[k - 1].p), false);
    }
  }

  ghost predicate WithinBounds(op: MouseOp, b: DisplayBounds) {
    op.WheelOp? || b.ContainsGlobal(op.p)
  }

  /** The two-endpoint gate is enough: everything an accepted drag posts, cancelled
      or not, lies in the target bounds. */
  lemma AcceptedDragStaysInside(s: Schedule, from: Point, to: Point, dist: real, durationMs: Option<nat>,
          b: DisplayBounds)
    requires ResolvedWithinBounds(DragTo(from, to, durationMs), b)
    ensures var t := DragTrace(s, from, to, Route(from, to, dist, DragDuration(durationMs)));
            forall i :: 0 <= i < |t| ==> WithinBounds(t[i].op, b)
  {
    var path := Route(from, to, dist, DragDuration(durationMs));
    forall i | 0 <= i < |path|
      ensures b.ContainsGlobal(path[i].p)
    {
      PathStaysInBounds(from, to, i, |path| - 1, b);
    }
  }

  function Total(waits: seq<nat>): nat {
    if waits == [] then 0 else Total(waits[..|waits| - 1]) + waits[|waits| - 1]
  }

  lemma {:induction false} RepeatTotal(wait: nat, times: nat)
    ensures Total(Repeat(wait, times)) == times * wait
  {
    if times > 0 {
      RepeatTotal(wait, times - 1);
      assert Repeat(wait, times)[..times - 1] == Repeat(wait, times - 1);
    }
  }

  lemma ShareBound(d: nat, n: nat, k: nat)
    requires n > 0 && k <= n + 1
    ensures k * (d / n) <= d + d / n
  {
    var w := d / n;
    assert d == n * w + d % n;
    TimesMonotone(k, n + 1, w);
    assert (n + 1) * w == n * w + w;
  }

  lemma TimesMonotone(k: nat, m: nat, w: nat)
    requires k <= m
    ensures k * w <= m * w
  {
    assert m * w == k * w + (m - k) * w;
  }

  lemma SharedWaitsBounded(from: Point, to: Point, duration: nat, n: nat, k: nat)
    requires n >= 4 && k <= |RouteOf(from, to, duration, n)|
    ensures var wait := RouteOf(from, to, duration, n)[0].wait;
            Total(Repeat(wait, k)) <= duration + wait
  {
    var wait := duration / n;
    RepeatTotal(wait, k);
    ShareBound(duration, n, k);
  }

  /** Each wait is the whole milliseconds of an equal share of the duration. */
  lemma WaitIsTheShare(from: Point, to: Point, dist: real, duration: nat)
    ensures var path := Route(from, to, dist, duration);
            var (wait, n) := (path[0].wait, |path| - 1);
            n == StepCount(dist, duration) && n * wait <= duration < n * wait + n
  {
    var n := StepCount(dist, duration);
    assert duration == n * (duration / n) + duration % n;
  }

  /** The sleeps a drag schedules exceed its duration by at most one step. */
  lemma DragWaitsBounded(from: Point, to: Point, dist: real, duration: nat, k: nat)
    requires k <= |Route(from, to, dist, duration)|
    ensures var wait := Route(from, to, dist, duration)[0].wait;
            Total(Repeat(wait, k)) <= duration + wait
  {
    SharedWaitsBounded(from, to, duration, StepCount(dist, duration), k);
  }

  // ---- scroll ----

  const CHUNK: int := 30
  const CHUNK_WAIT_MS: nat := 8

  type Chunk = (int, int)

  function ClampChunk(r: int): (d: int)
    ensures Abs(d) <= CHUNK && Abs(r - d) + Abs(d) == Abs(r)
    ensures r != 0 ==> d != 0
  {
    Clamp(r, -CHUNK, CHUNK)
  }

  /** The wheel events that use up `rx` and `ry`. */
  function Chunks(rx: int, ry: int): seq<Chunk>
    decreases Abs(rx) + Abs(ry)
  {
    if rx == 0 && ry == 0 then []
    else [(ClampChunk(rx), ClampChunk(ry))] + Chunks(rx - ClampChunk(rx), ry - ClampChunk(ry))
  }

  function Wheels(cs: seq<Chunk>): seq<Posted> {
    seq(|cs|, i requires 0 <= i < |cs| => Posted(WheelOp(cs[i].0, cs[i].1), false))
  }

  /** Chunks posted under `s`: a check before each, a sleep between consecutive ones. */
  function ChunksPosted(s: Schedule, chunks: nat): nat {
    if s.None? then chunks else Min(chunks, (s.value + 1) / 2)
  }

  predicate ScrollCompletes(s: Schedule, chunks: nat) {
    chunks == 0 || !FiresWithin(s, 2 * chunks - 1)
  }

  function ScrollTotal(delta: real): int { SaturateI64(Round(delta)) }

  function ScrollTrace(s: Schedule, at: Option<Point>, cs: seq<Chunk>): seq<Posted> {
    if s == Some(0) then []
    else if at.None? then Wheels(cs[..ChunksPosted(After(s, 1), |cs|)])
    else if s == Some(1) then [Posted(MoveOp(at.value), false)]
    else [Posted(MoveOp(at.value), false)] + Wheels(cs[..ChunksPosted(After(s, 2), |cs|)])
  }

  function ScrollLooks(at: Option<Point>): nat { if at.Some? then 2 else 1 }

  predicate ScrollEnds(s: Schedule, at: Option<Point>, chunks: nat) {
    !FiresWithin(s, ScrollLooks(at)) && ScrollCompletes(After(s, ScrollLooks(at)), chunks)
  }

  /** A delta of fewer than 2^63 scrolls by its nearest whole number. */
  lemma ScrollTotalIsNearest(delta: real)
    requires -9223372036854775808.0 <= delta <= 9223372036854775807.0
    ensures -0.5 <= ScrollTotal(delta) as real - delta <= 0.5
  {
    RoundMonotone(-9223372036854775808.0, delta);
    RoundMonotone(delta, 9223372036854775807.0);
    RoundOfInteger(-0x8000_0000_0000_0000);
    RoundOfInteger(0x7FFF_FFFF_FFFF_FFFF);
    RoundWithinHalf(delta);
  }

  method ScrollCore(deltaX: real, deltaY: real, at: Option<Point>, post: Poster) returns (completed: bool)
    requires !post.seen
    modifies post
    ensures var cs := Chunks(ScrollTotal(deltaX), ScrollTotal(deltaY));
            && post.posted == old(post.posted) + ScrollTrace(old(post.left), at, cs)
            && completed == ScrollEnds(old(post.left), at, |cs|)
  {
    completed := ScrollBy(ScrollTotal(deltaX), ScrollTotal(deltaY), at, post);
  }

  /** The same, of the rounded totals: a check, the optional move and its check, the chunks. */
  method ScrollBy(totalX: int, totalY: int, at: Option<Point>, post: Poster) returns (completed: bool)
    requires !post.seen
    modifies post
    ensures var cs := Chunks(totalX, totalY);
            && post.posted == old(post.posted) + ScrollTrace(old(post.left), at, cs)
            && completed == ScrollEnds(old(post.left), at, |cs|)
  {
    ghost var cs := Chunks(totalX, totalY);
    var c := post.Cancelled();
    if c {
      return false;
    }
    if at.Some? {
      post.Post(MoveOp(at.value));
      c := post.Cancelled();
      if c {
        return false;
      }
    }
    ghost var before := post.left;
    completed := ScrollSteps(totalX, totalY, post);
    if at.Some? {
      Regroup(old(post.posted), [Posted(MoveOp(at.value), false)], Wheels(cs[..ChunksPosted(before, |cs|)]));
    }
  }

  lemma Regroup(a: seq<Posted>, b: seq<Posted>, c: seq<Posted>)
    ensures a + b + c == a + (b + c)
  {
  }

  lemma NextWheel(cs: seq<Chunk>, i: nat)
    requires i < |cs|
    ensures cs[i..][0] == cs[i] && cs[i..][1..] == cs[i + 1..]
    ensures Wheels(cs[..i + 1]) == Wheels(cs[..i]) + [Posted(WheelOp(cs[i].0, cs[i].1), false)]
  {
  }

  /** The chunking loop, entered with the token live. */
  method ScrollSteps(totalX: int, totalY: int, post: Poster) returns (completed: bool)
    requires !post.seen
    modifies post
    ensures var s := old(post.left);
            var cs := Chunks(totalX, totalY);
            && post.posted == old(post.posted) + Wheels(cs[..ChunksPosted(s, |cs|)])
            && completed == ScrollCompletes(s, |cs|)
  {
    ghost var s := post.left;
    ghost var cs := Chunks(totalX, totalY);
    ghost var i := 0;
    var remainingX, remainingY := totalX, totalY;
    while remainingX != 0 || remainingY != 0
      invariant 0 <= i <= |cs| && !post.seen
      invariant cs[i..] == Chunks(remainingX, remainingY)
      invariant i < |cs| ==> !FiresWithin(s, 2 * i) && post.left == After(s, 2 * i)
      invariant i == |cs| ==> ScrollCompletes(s, |cs|)
      invariant post.posted == old(post.posted) + Wheels(cs[..i])
      decreases Abs(remainingX) + Abs(remainingY)
    {
      var stop := post.Cancelled();
      if stop {
        return false;
      }
      var dx, dy := ClampChunk(remainingX), ClampChunk(remainingY);
      NextWheel(cs, i);
      post.Post(WheelOp(dx, dy));
      remainingX, remainingY := remainingX - dx, remainingY - dy;
      i := i + 1;
      if remainingX != 0 || remainingY != 0 {
        var slept := post.Sleep(CHUNK_WAIT_MS);
        if !slept {
          return false;
        }
      }
    }
    completed := true;
  }

  // ---- what every scroll guarantees ----

  function SumX(cs: seq<Chunk>): int { if cs == [] then 0 else cs[0].0 + SumX(cs[1..]) }

  function SumY(cs: seq<Chunk>): int { if cs == [] then 0 else cs[0].1 + SumY(cs[1..]) }

  function CeilDiv(a: nat, b: nat): nat
    requires b > 0
  {
    (a + b - 1) / b
  }

  /** `part` lies between 0 and `whole`. */
  predicate PartOf(part: int, whole: int) { if whole >= 0 then 0 <= part <= whole else whole <= part <= 0 }

  lemma OneChunkLess(r: int)
    ensures CeilDiv(Abs(r - ClampChunk(r)), CHUNK) == Max(0, CeilDiv(Abs(r), CHUNK) - 1)
  {
    assert Abs(r - ClampChunk(r)) == Max(0, Abs(r) - CHUNK);
  }

  /** The chunks sum exactly to the totals, and there are as many as the longer axis needs. */
  lemma {:induction false} ScrollConserves(rx: int, ry: int)
    ensures SumX(Chunks(rx, ry)) == rx && SumY(Chunks(rx, ry)) == ry
    ensures |Chunks(rx, ry)| == Max(CeilDiv(Abs(rx), 30), CeilDiv(Abs(ry), 30))
    decreases Abs(rx) + Abs(ry)
  {
    if rx != 0 || ry != 0 {
      OneChunkLess(rx);
      OneChunkLess(ry);
      ScrollConserves(rx - ClampChunk(rx), ry - ClampChunk(ry));
    }
  }

  /** Every prefix of the chunks is a part of the way, in steps of at most a chunk
      that never reverse: an interrupted scroll is between nothing and the whole. */
  lemma {:induction false} ScrollPrefix(rx: int, ry: int, k: nat)
    requires k <= |Chunks(rx, ry)|
    ensures PartOf(SumX(Chunks(rx, ry)[..k]), rx) && PartOf(SumY(Chunks(rx, ry)[..k]), ry)
    ensures k < |Chunks(rx, ry)| ==>
              var c := Chunks(rx, ry)[k];
              && Abs(c.0) <= 30 && Abs(c.1) <= 30
              && PartOf(c.0, rx - SumX(Chunks(rx, ry)[..k])) && PartOf(c.1, ry - SumY(Chunks(rx, ry)[..k]))
              && PartOf(c.0, rx) && PartOf(c.1, ry)
    decreases k
  {
    var cs := Chunks(rx, ry);
    if k > 0 {
      ScrollPrefix(rx - ClampChunk(rx), ry - ClampChunk(ry), k - 1);
      assert cs[..k][1..] == cs[1..][..k - 1];
    }
  }

  // ---- clicks ----

  function ClickPair(button: MouseButton, p: Point, state: nat): seq<Posted> {
    [Posted(DownOp(button, p, state), false), Posted(UpOp(button, p, state), false)]
  }

  /** What a direct click posts: a look before each pair. */
  function DirectTrace(s: Schedule, button: MouseButton, p: Point, double: bool): seq<Posted> {
    (if FiresWithin(s, 1) then [] else ClickPair(button, p, 1))
    + (if !double || FiresWithin(s, 2) then [] else ClickPair(button, p, 2))
  }

  /** Nothing is posted when the token has fired by the only look. */
  method ClickDirect(button: MouseButton, p: Point, post: Poster) returns (completed: bool)
    requires !post.seen
    modifies post
    ensures post.posted == old(post.posted) + DirectTrace(old(post.left), button, p, false)
    ensures completed == !FiresWithin(old(post.left), 1)
  {
    var c := post.Cancelled();
    if c {
      return false;
    }
    post.Post(DownOp(button, p, 1));
    post.Post(UpOp(button, p, 1));
    completed := true;
  }

  /** The second pair is dropped when the token fires after the first; the button is
      up in every case, and `completed` says exactly that both pairs were posted. */
  method DoubleClickDirect(button: MouseButton, p: Point, post: Poster) returns (completed: bool)
    requires !post.seen
    modifies post
    ensures post.posted == old(post.posted) + DirectTrace(old(post.left), button, p, true)
    ensures completed == !FiresWithin(old(post.left), 2)
  {
    var c := post.Cancelled();
    if c {
      return false;
    }
    post.Post(DownOp(button, p, 1));
    post.Post(UpOp(button, p, 1));
    c := post.Cancelled();
    if c {
      return false;
    }
    post.Post(DownOp(button, p, 2));
    post.Post(UpOp(button, p, 2));
    completed := true;
  }

  /** What a click with the borrowed cursor posts. */
  function BorrowedTrace(button: MouseButton, p: Point, double: bool): seq<Posted> {
    [Posted(MoveOp(p), false)] + ClickPair(button, p, 1) + if double then ClickPair(button, p, 2) else []
  }

  /** It moves the cursor and clicks there, and never looks at the token. */
  method ClickBorrowed(button: MouseButton, p: Point, double: bool, post: Poster)
    requires !post.seen
    modifies post
    ensures post.posted == old(post.posted) + BorrowedTrace(button, p, double)
    ensures post.left == old(post.left) && !post.seen
  {
    post.Post(MoveOp(p));
    post.Post(DownOp(button, p, 1));
    post.Post(UpOp(button, p, 1));
    if double {
      post.Post(DownOp(button, p, 2));
      post.Post(UpOp(button, p, 2));
    }
  }
}
