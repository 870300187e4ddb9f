/** What may still come out of the machine after a grab, operation by operation. A driver
    call is a program of operations and looks at the batch token; the token may fire
    between any two of its steps. */
module Interruption {
  import opened Basics
  import opened Coordinates
  import opened Actions
  import opened Worlds
  import opened Queues
  import opened Rules
  import opened Safety
  import opened Theorems
  import Gestures
  import KeyEvents
  import Paths

  /** `Press` is a whole accessibility press, which another process carries out. */
  datatype Operation = Mouse(op: Gestures.MouseOp) | Stroke(event: KeyEvents.KeyEvent) | Press

  datatype Program = End | Look(rest: Program) | Emit(op: Operation, rest: Program)

  // ---- running a program ----

  /** Where the button is held down once `op` is out, if it is. */
  function Held(op: Operation, held: Option<Point>): Option<Point> {
    match op
    case Mouse(DownOp(_, p, _)) => Some(p)
    case Mouse(DraggedOp(p)) => Some(p)
    case Mouse(UpOp(_, _, _)) => None
    case _ => held
  }

  /** A held button is released where it is. */
  function Release(held: Option<Point>): seq<Operation> {
    if held.Some? then [Mouse(Gestures.UpOp(Left, held.value, 1))] else []
  }

  function Drop(k: nat, n: nat): nat { if k < n then 0 else k - n }

  /** What goes out when the token fires before step `k`: the first look from there on
      ends the program. */
  function Run(p: Program, k: nat, held: Option<Point>): seq<Operation> {
    match p
    case End => []
    case Look(rest) => if k == 0 then Release(held) else Run(rest, k - 1, held)
    case Emit(op, rest) => [op] + Run(rest, Drop(k, 1), Held(op, held))
  }

  /** What goes out before step `k`. */
  function Sooner(p: Program, k: nat): seq<Operation> {
    if k == 0 then [] else
    match p
    case End => []
    case Look(rest) => Sooner(rest, k - 1)
    case Emit(op, rest) => [op] + Sooner(rest, k - 1)
  }

  /** What still goes out after the token has fired before step `k`. */
  function Later(p: Program, k: nat, held: Option<Point>): seq<Operation> {
    if k == 0 then Run(p, 0, held) else
    match p
    case End => []
    case Look(rest) => Later(rest, k - 1, held)
    case Emit(op, rest) => Later(rest, k - 1, Held(op, held))
  }

  function Size(p: Program): nat {
    match p
    case End => 0
    case Look(rest) => 1 + Size(rest)
    case Emit(_, rest) => 1 + Size(rest)
  }

  /** How many looks come before step `k`: the number of looks that find the token live. */
  function Looks(p: Program, k: nat): nat {
    if k == 0 then 0 else
    match p
    case End => 0
    case Look(rest) => 1 + Looks(rest, k - 1)
    case Emit(_, rest) => Looks(rest, k - 1)
  }

  /** A run is what went out before the token fired, and what went out after. */
  lemma {:induction false} RunSplits(p: Program, k: nat, held: Option<Point>)
    ensures Run(p, k, held) == Sooner(p, k) + Later(p, k, held)
    ensures k >= Size(p) ==> Later(p, k, held) == []
  {
    match p
    case End =>
    case Look(rest) =>
      if k > 0 {
        RunSplits(rest, k - 1, held);
      }
    case Emit(op, rest) =>
      if k > 0 {
        RunSplits(rest, k - 1, Held(op, held));
      }
  }

  // ---- the driver's programs ----

  function Emits(ops: seq<Operation>): Program { if ops == [] then End else Emit(ops[0], Emits(ops[1..])) }

  function Pair(button: MouseButton, p: Point, state: nat, rest: Program): Program {
    Emit(Mouse(Gestures.DownOp(button, p, state)), Emit(Mouse(Gestures.UpOp(button, p, state)), rest))
  }

  function DirectProgram(button: MouseButton, p: Point, double: bool): Program {
    Look(Pair(button, p, 1, if double then Look(Pair(button, p, 2, End)) else End))
  }

  function BorrowedProgram(button: MouseButton, p: Point, double: bool): Program {
    Emit(Mouse(Gestures.MoveOp(p)), Pair(button, p, 1, if double then Pair(button, p, 2, End) else End))
  }

  function MoveProgram(to: Point): Program { Look(Emit(Mouse(Gestures.MoveOp(to)), End)) }

  function PathProgram(path: seq<Paths.Waypoint>, to: Point): Program {
    if path == [] then Emit(Mouse(Gestures.UpOp(Left, to, 1)), End)
    else
      var rest := PathProgram(path[1..], to);
      Look(Emit(Mouse(Gestures.DraggedOp(path[0].p)), if path[0].wait > 0 then Look(rest) else rest))
  }

  function DragProgram(from: Point, to: Point, path: seq<Paths.Waypoint>): Program {
    Look(Emit(Mouse(Gestures.MoveOp(from)),
              Look(Emit(Mouse(Gestures.DownOp(Left, from, 1)), PathProgram(path, to)))))
  }

  function ChunkProgram(cs: seq<Gestures.Chunk>): Program {
    if cs == [] then End
    else
      Look(Emit(Mouse(Gestures.WheelOp(cs[0].0, cs[0].1)),
                if |cs| > 1 then Look(ChunkProgram(cs[1..])) else End))
  }

  function ScrollProgram(at: Option<Point>, cs: seq<Gestures.Chunk>): Program {
    Look(if at.Some? then Emit(Mouse(Gestures.MoveOp(at.value)), Look(ChunkProgram(cs))) else ChunkProgram(cs))
  }

  function Keys(es: seq<KeyEvents.KeyEvent>): seq<Operation> {
    seq(|es|, i requires 0 <= i < |es| => Stroke(es[i]))
  }

  /** The combination a clipboard text is pasted with. */
  const PASTE: KeyEvents.KeyCombo := KeyEvents.KeyCombo({KeyEvents.Command}, Some(0x09))

  /** It is the command key held over the key that types a 'v'. */
  lemma PasteIsCommandV()
    ensures PASTE.flags == {KeyEvents.Command} && PASTE.keycode.Some?
    ensures KeyEvents.KeyTypes(PASTE.keycode.value) == Some(('v', 'V'))
  {
  }

  /** What the model of a call leaves open: the distance a path covers, and the combination
      a list of key names means, if it means one. */
  datatype Given = Given(dist: real, combo: Option<KeyEvents.KeyCombo>)

  function KeysOf(r: ResolvedAction, g: Given): seq<KeyEvents.KeyEvent>
    requires IsKeyboard(r)
  {
    match r
    case TypeKeys(text, Keyboard) => KeyEvents.TypeEvents(text)
    case TypeKeys(_, Clipboard) => KeyEvents.ComboEvents(PASTE)
    case PressKeys(_) => if g.combo.Some? then KeyEvents.ComboEvents(g.combo.value) else []
  }

  function PathOf(r: ResolvedAction, g: Given): seq<Paths.Waypoint>
    requires r.DragTo?
  {
    Paths.Route(r.from, r.to, g.dist, Gestures.DragDuration(r.durationMs))
  }

  function ChunksOf(r: ResolvedAction): seq<Gestures.Chunk>
    requires r.ScrollBy?
  {
    Gestures.Chunks(Gestures.ScrollTotal(r.deltaX), Gestures.ScrollTotal(r.deltaY))
  }

  /** The program behind a call that posts. */
  function ProgramOf(c: Call, g: Given): Program {
    match c
    case DirectClick(p, button, double) => DirectProgram(button, p, double)
    case AxPress(_, _) => Emit(Press, End)
    case Warp(_, p) => MoveProgram(p)
    case PhysicalClick(button, p, double) => BorrowedProgram(button, p, double)
    case Restore(_, home) => MoveProgram(home)
    case Execute(r) =>
      if IsKeyboard(r) then Emits(Keys(KeysOf(r, g)))
      else if r.DragTo? then DragProgram(r.from, r.to, PathOf(r, g))
      else if r.ScrollBy? then ScrollProgram(r.where, ChunksOf(r))
      else End
    case _ => End
  }

  // ---- they are the loops of the driver ----

  function Ops(ts: seq<Gestures.Posted>): seq<Operation> {
    seq(|ts|, i requires 0 <= i < |ts| => Mouse(ts[i].op))
  }

  lemma OpsAppend(a: seq<Gestures.Posted>, b: seq<Gestures.Posted>)
    ensures Ops(a + b) == Ops(a) + Ops(b)
  {
  }

  /** What the verified loops post for call `c` when the `looks`-th look is the first to
      find the token fired. */
  function TraceOf(c: Call, looks: nat, g: Given): seq<Operation> {
    match c
    case DirectClick(p, button, double) => Ops(Gestures.DirectTrace(Some(looks), button, p, double))
    case AxPress(_, _) => [Press]
    case Warp(home, p) => Ops(Gestures.MoveTrace(Some(looks), home, p, g.dist, 0))
    case PhysicalClick(button, p, double) => Ops(Gestures.BorrowedTrace(button, p, double))
    case Restore(p, home) => Ops(Gestures.MoveTrace(Some(looks), p, home, g.dist, 0))
    case Execute(r) =>
      if IsKeyboard(r) then Keys(KeysOf(r, g))
      else if r.DragTo? then Ops(Gestures.DragTrace(Some(looks), r.from, r.to, PathOf(r, g)))
      else if r.ScrollBy? then Ops(Gestures.ScrollTrace(Some(looks), r.where, ChunksOf(r)))
      else []
    case _ => []
  }

  lemma {:induction false} EmitsRun(ops: seq<Operation>, k: nat, held: Option<Point>)
    ensures Run(Emits(ops), k, held) == ops && Size(Emits(ops)) == |ops|
    ensures Later(Emits(ops), k, held) == if k <= |ops| then ops[k..] else []
    decreases |ops|
  {
    if ops != [] {
      EmitsRun(ops[1..], Drop(k, 1), Held(ops[0], held));
      assert [ops[0]] + ops[1..] == ops;
      if 0 < k <= |ops| {
        assert ops[1..][k - 1..] == ops[k..];
      }
    }
  }

  lemma DirectRuns(button: MouseButton, p: Point, double: bool, k: nat)
    ensures var d := DirectProgram(button, p, double);
            Run(d, k, None) == Ops(Gestures.DirectTrace(Some(Looks(d, k)), button, p, double))
  {
    var second := if double then Look(Pair(button, p, 2, End)) else End;
    PairRuns(button, p, 1, second, Drop(k, 1));
    if double && k > 3 {
      PairRuns(button, p, 2, End, k - 4);
    }
  }

  lemma PairRuns(button: MouseButton, p: Point, state: nat, rest: Program, k: nat)
    ensures Run(Pair(button, p, state, rest), k, None)
         == Ops(Gestures.ClickPair(button, p, state)) + Run(rest, Drop(k, 2), None)
    ensures Looks(Pair(button, p, state, rest), k) == if k < 2 then 0 else Looks(rest, k - 2)
  {
  }

  // ---- the drag ----

  /** Once the button is down: the path under `looks` live looks, then the release. */
  function PathOps(looks: nat, last: Point, to: Point, path: seq<Paths.Waypoint>, wait: nat): seq<Operation> {
    var n := Gestures.PointsPosted(Some(looks), |path|, wait);
    var up := Gestures.DragUpPosition(!Gestures.PathCompletes(Some(looks), |path|, wait), to,
                                      if n == 0 then last else path[n - 1].p);
    Ops(Gestures.Drags(path[..n])) + [Mouse(Gestures.UpOp(Left, up, 1))]
  }

  /** One point of the path: nothing of it when the next look finds the token, and nothing
      after it when the sleep's look does. */
  function OnePoint(looks: nat, last: Point, path: seq<Paths.Waypoint>, rest: seq<Operation>): seq<Operation>
    requires path != []
  {
    if looks == 0 then Release(Some(last))
    else
      [Mouse(Gestures.DraggedOp(path[0].p))]
      + if path[0].wait > 0 && looks == 1 then Release(Some(path[0].p)) else rest
  }

  function LooksAPoint(path: seq<Paths.Waypoint>): nat
    requires path != []
  {
    if path[0].wait > 0 then 2 else 1
  }

  /** The same path, one point at a time. */
  function PathOut(looks: nat, last: Point, to: Point, path: seq<Paths.Waypoint>): seq<Operation>
    decreases |path|
  {
    if path == [] then Release(Some(to))
    else OnePoint(looks, last, path, PathOut(Drop(looks, LooksAPoint(path)), path[0].p, to, path[1..]))
  }

  predicate Even(path: seq<Paths.Waypoint>, wait: nat) { forall i :: 0 <= i < |path| ==> path[i].wait == wait }

  lemma PathOpsStep(looks: nat, last: Point, to: Point, path: seq<Paths.Waypoint>, wait: nat)
    requires path != [] && path[0].wait == wait
    ensures PathOps(looks, last, to, path, wait)
         == OnePoint(looks, last, path, PathOps(Drop(looks, LooksAPoint(path)), path[0].p, to, path[1..], wait))
  {
    var n := Gestures.PointsPosted(Some(looks), |path|, wait);
    if n > 0 {
      assert path[..n] == [path[0]] + path[1..][..n - 1];
      assert Gestures.Drags(path[..n])
          == [Gestures.Posted(Gestures.DraggedOp(path[0].p), false)] + Gestures.Drags(path[1..][..n - 1]);
    }
  }

  lemma PathOpsEnd(looks: nat, last: Point, to: Point, wait: nat)
    ensures PathOps(looks, last, to, [], wait) == Release(Some(to))
  {
  }

  lemma {:induction false} PathOutIs(looks: nat, last: Point, to: Point, path: seq<Paths.Waypoint>, wait: nat)
    requires Even(path, wait)
    ensures PathOut(looks, last, to, path) == PathOps(looks, last, to, path, wait)
    decreases |path|
  {
    if path != [] {
      PathOpsStep(looks, last, to, path, wait);
      PathOutIs(Drop(looks, LooksAPoint(path)), path[0].p, to, path[1..], wait);
    } else {
      PathOpsEnd(looks, last, to, wait);
    }
  }

  lemma RunLook(op: Operation, rest: Program, k: nat, held: Option<Point>)
    ensures Run(Look(Emit(op, rest)), k, held)
         == if k == 0 then Release(held) else [op] + Run(rest, Drop(k, 2), Held(op, held))
  {
  }

  lemma LooksLook(op: Operation, rest: Program, k: nat)
    ensures Looks(Look(Emit(op, rest)), k) == if k == 0 then 0 else 1 + Looks(rest, Drop(k, 2))
  {
    assert k > 0 ==> Looks(Emit(op, rest), k - 1) == Looks(rest, Drop(k, 2));
  }

  lemma LaterLook(op: Operation, rest: Program, k: nat, held: Option<Point>)
    ensures Later(Look(Emit(op, rest)), k, held)
         == if k == 0 then Release(held)
            else if k == 1 then [op] + Run(rest, 0, Held(op, held))
            else Later(rest, k - 2, Held(op, held))
  {
    if k > 1 {
      assert Later(Emit(op, rest), k - 1, held) == Later(rest, k - 2, Held(op, held));
    }
  }

  lemma LookFirst(op: Operation, rest: Program, k: nat, held: Option<Point>)
    ensures var p := Look(Emit(op, rest));
            && Run(p, k, held) == (if k == 0 then Release(held) else [op] + Run(rest, Drop(k, 2), Held(op, held)))
            && Looks(p, k) == (if k == 0 then 0 else 1 + Looks(rest, Drop(k, 2)))
            && Later(p, k, held) == (if k == 0 then Release(held)
                                     else if k == 1 then [op] + Run(rest, 0, Held(op, held))
                                     else Later(rest, k - 2, Held(op, held)))
            && Size(p) == 2 + Size(rest)
  {
    RunLook(op, rest, k, held);
    LooksLook(op, rest, k);
    LaterLook(op, rest, k, held);
  }

  lemma PathFirst(path: seq<Paths.Waypoint>, to: Point)
    requires path != []
    ensures var rest := PathProgram(path[1..], to);
            PathProgram(path, to) == Look(Emit(Mouse(Gestures.DraggedOp(path[0].p)),
                                               if path[0].wait > 0 then Look(rest) else rest))
  {
  }

  lemma {:induction false} PathRuns(path: seq<Paths.Waypoint>, to: Point, last: Point, k: nat)
    ensures var p := PathProgram(path, to); Run(p, k, Some(last)) == PathOut(Looks(p, k), last, to, path)
    decreases |path|
  {
    if path != [] {
      var (op, rest) := (Mouse(Gestures.DraggedOp(path[0].p)), PathProgram(path[1..], to));
      PathFirst(path, to);
      LookFirst(op, if path[0].wait > 0 then Look(rest) else rest, k, Some(last));
      PathRuns(path[1..], to, path[0].p, Drop(k, if path[0].wait > 0 then 3 else 2));
    }
  }

  /** What a drag posts, one step at a time. */
  function DragOut(looks: nat, from: Point, to: Point, path: seq<Paths.Waypoint>): seq<Operation> {
    if looks == 0 then []
    else if looks == 1 then [Mouse(Gestures.MoveOp(from))]
    else [Mouse(Gestures.MoveOp(from))] + ([Mouse(Gestures.DownOp(Left, from, 1))] + PathOut(looks - 2, from, to, path))
  }

  lemma DragStepsOut(from: Point, to: Point, path: seq<Paths.Waypoint>, k: nat)
    ensures var d := DragProgram(from, to, path); Run(d, k, None) == DragOut(Looks(d, k), from, to, path)
  {
    var press := Mouse(Gestures.DownOp(Left, from, 1));
    LookFirst(Mouse(Gestures.MoveOp(from)), Look(Emit(press, PathProgram(path, to))), k, None);
    LookFirst(press, PathProgram(path, to), Drop(k, 2), None);
    PathRuns(path, to, from, Drop(k, 4));
  }

  lemma PressedIs(looks: nat, from: Point, to: Point, path: seq<Paths.Waypoint>)
    requires path != []
    ensures Ops(Gestures.DragTrace(Some(looks + 2), from, to, path))
         == [Mouse(Gestures.MoveOp(from))]
          + ([Mouse(Gestures.DownOp(Left, from, 1))] + PathOps(looks, from, to, path, path[0].wait))
  {
  }

  lemma DragRuns(from: Point, to: Point, path: seq<Paths.Waypoint>, k: nat)
    requires path != [] && Even(path, path[0].wait)
    ensures var d := DragProgram(from, to, path);
            Run(d, k, None) == Ops(Gestures.DragTrace(Some(Looks(d, k)), from, to, path))
  {
    var looks := Looks(DragProgram(from, to, path), k);
    DragStepsOut(from, to, path, k);
    if looks >= 2 {
      PathOutIs(looks - 2, from, to, path, path[0].wait);
      PressedIs(looks - 2, from, to, path);
    }
  }

  // ---- the scroll ----

  function WheelOps(looks: nat, cs: seq<Gestures.Chunk>): seq<Operation> {
    Ops(Gestures.Wheels(cs[..Gestures.ChunksPosted(Some(looks), |cs|)]))
  }

  lemma WheelOpsStep(looks: nat, cs: seq<Gestures.Chunk>)
    requires cs != []
    ensures WheelOps(looks, cs)
         == if looks == 0 then []
            else [Mouse(Gestures.WheelOp(cs[0].0, cs[0].1))] + WheelOps(Drop(looks, 2), cs[1..])
  {
    var n := Gestures.ChunksPosted(Some(looks), |cs|);
    if n > 0 {
      assert cs[..n] == [cs[0]] + cs[1..][..n - 1];
      assert Gestures.Wheels(cs[..n])
          == [Gestures.Posted(Gestures.WheelOp(cs[0].0, cs[0].1), false)] + Gestures.Wheels(cs[1..][..n - 1]);
    }
  }

  /** The same, one chunk at a time. */
  function WheelsOut(looks: nat, cs: seq<Gestures.Chunk>): seq<Operation>
    decreases |cs|
  {
    if cs == [] || looks == 0 then []
    else [Mouse(Gestures.WheelOp(cs[0].0, cs[0].1))] + WheelsOut(Drop(looks, 2), cs[1..])
  }

  lemma {:induction false} WheelsOutIs(looks: nat, cs: seq<Gestures.Chunk>)
    ensures WheelsOut(looks, cs) == WheelOps(looks, cs)
    decreases |cs|
  {
    if cs != [] {
      WheelOpsStep(looks, cs);
      WheelsOutIs(Drop(looks, 2), cs[1..]);
    }
  }

  lemma ChunkFirst(cs: seq<Gestures.Chunk>)
    requires cs != []
    ensures ChunkProgram(cs) == Look(Emit(Mouse(Gestures.WheelOp(cs[0].0, cs[0].1)),
                                          if |cs| > 1 then Look(ChunkProgram(cs[1..])) else End))
  {
  }

  lemma {:induction false} ChunksRun(cs: seq<Gestures.Chunk>, k: nat)
    ensures Run(ChunkProgram(cs), k, None) == WheelsOut(Looks(ChunkProgram(cs), k), cs)
    decreases |cs|
  {
    if cs != [] {
      ChunkFirst(cs);
      var op := Mouse(Gestures.WheelOp(cs[0].0, cs[0].1));
      LookFirst(op, if |cs| > 1 then Look(ChunkProgram(cs[1..])) else End, k, None);
      if |cs| > 1 {
        ChunksRun(cs[1..], Drop(k, 3));
      }
    }
  }

  lemma ScrolledAt(at: Point, cs: seq<Gestures.Chunk>, looks: nat)
    ensures Ops(Gestures.ScrollTrace(Some(looks), Some(at), cs))
         == if looks == 0 then []
            else [Mouse(Gestures.MoveOp(at))] + if looks == 1 then [] else WheelOps(looks - 2, cs)
  {
    if looks >= 2 {
      OpsAppend([Gestures.Posted(Gestures.MoveOp(at), false)],
                Gestures.Wheels(cs[..Gestures.ChunksPosted(Some(looks - 2), |cs|)]));
    }
  }

  lemma ScrollRunsAt(at: Point, cs: seq<Gestures.Chunk>, k: nat)
    ensures var s := ScrollProgram(Some(at), cs);
            Run(s, k, None) == Ops(Gestures.ScrollTrace(Some(Looks(s, k)), Some(at), cs))
  {
    var looks := Looks(ScrollProgram(Some(at), cs), k);
    LookFirst(Mouse(Gestures.MoveOp(at)), Look(ChunkProgram(cs)), k, None);
    ChunksRun(cs, Drop(k, 3));
    ScrolledAt(at, cs, looks);
    if looks >= 2 {
      WheelsOutIs(looks - 2, cs);
    }
  }

  lemma ScrollRunsHere(cs: seq<Gestures.Chunk>, k: nat)
    ensures var s := ScrollProgram(None, cs);
            Run(s, k, None) == Ops(Gestures.ScrollTrace(Some(Looks(s, k)), None, cs))
  {
    if k > 0 {
      ChunksRun(cs, k - 1);
      WheelsOutIs(Looks(ChunkProgram(cs), k - 1), cs);
    }
  }

  lemma ScrollRuns(at: Option<Point>, cs: seq<Gestures.Chunk>, k: nat)
    ensures var s := ScrollProgram(at, cs);
            Run(s, k, None) == Ops(Gestures.ScrollTrace(Some(Looks(s, k)), at, cs))
  {
    if at.Some? {
      ScrollRunsAt(at.value, cs, k);
    } else {
      ScrollRunsHere(cs, k);
    }
  }

  // ---- every call ----

  /** Every program, with the token firing before any of its steps, posts exactly what the
      verified loop behind it posts when the first look after that is the first to see it. */
  lemma ProgramsAreTheLoops(c: Call, k: nat, g: Given)
    ensures Run(ProgramOf(c, g), k, None) == TraceOf(c, Looks(ProgramOf(c, g), k), g)
  {
    match c
    case DirectClick(p, button, double) => DirectRuns(button, p, double, k);
    case Warp(_, p) => LookFirst(Mouse(Gestures.MoveOp(p)), End, k, None);
    case Restore(_, home) => LookFirst(Mouse(Gestures.MoveOp(home)), End, k, None);
    case PhysicalClick(button, p, double) => BorrowedRuns(button, p, double, k);
    case Execute(r) =>
      if IsKeyboard(r) {
        EmitsRun(Keys(KeysOf(r, g)), k, None);
      } else if r.DragTo? {
        DragRuns(r.from, r.to, PathOf(r, g), k);
      } else if r.ScrollBy? {
        ScrollRuns(r.where, ChunksOf(r), k);
      }
    case _ =>
  }

  lemma BorrowedRuns(button: MouseButton, p: Point, double: bool, k: nat)
    ensures Run(BorrowedProgram(button, p, double), k, None) == Ops(Gestures.BorrowedTrace(button, p, double))
  {
    PairRuns(button, p, 1, if double then Pair(button, p, 2, End) else End, Drop(k, 1));
    PairRuns(button, p, 2, End, Drop(k, 3));
  }

  // ---- what follows a grab ----

  predicate IsRelease(op: Operation) { op.Mouse? && op.op.UpOp? }

  lemma PathStarts(path: seq<Paths.Waypoint>, to: Point, last: Point)
    ensures Run(PathProgram(path, to), 0, Some(last))
         == [Mouse(Gestures.UpOp(Left, if path == [] then to else last, 1))]
  {
  }

  /** A drag's path, the button down: the point being posted, if any, and the release; the
      release goes out exactly when it had not yet. */
  lemma {:induction false} PathFollows(path: seq<Paths.Waypoint>, to: Point, last: Point, k: nat)
    ensures var p := PathProgram(path, to);
            var after := Later(p, k, Some(last));
            && |after| <= 2 && (after != [] ==> IsRelease(after[|after| - 1]))
            && (after != [] <==> k < Size(p))
    decreases |path|
  {
    if path != [] {
      var (op, rest) := (Mouse(Gestures.DraggedOp(path[0].p)), PathProgram(path[1..], to));
      var next := if path[0].wait > 0 then Look(rest) else rest;
      PathFirst(path, to);
      LookFirst(op, next, k, Some(last));
      PathFollows(path[1..], to, path[0].p, Drop(k, if path[0].wait > 0 then 3 else 2));
      PathStarts(path[1..], to, path[0].p);
      if path[0].wait > 0 {
        assert Run(next, 0, Some(path[0].p)) == Release(Some(path[0].p));
        assert k >= 3 ==> Later(next, k - 2, Some(path[0].p)) == Later(rest, k - 3, Some(path[0].p));
      }
    } else {
      PathStarts(path, to, last);
      assert k > 0 ==> Later(PathProgram(path, to), k, Some(last)) == Later(End, k - 1, None) == [];
    }
  }

  /** Of a drag at most one operation more and then the release, and the release goes out
      exactly when the token fires once the second look is past and the drag is not over. */
  lemma DragFollows(from: Point, to: Point, path: seq<Paths.Waypoint>, k: nat)
    ensures var d := DragProgram(from, to, path);
            var after := Later(d, k, None);
            && |after| <= 2 && (|after| == 2 ==> IsRelease(after[1]))
            && (after != [] && IsRelease(after[|after| - 1]) <==> 3 <= k < Size(d))
  {
    var press := Mouse(Gestures.DownOp(Left, from, 1));
    LookFirst(Mouse(Gestures.MoveOp(from)), Look(Emit(press, PathProgram(path, to))), k, None);
    LookFirst(press, PathProgram(path, to), Drop(k, 2), None);
    PathFollows(path, to, from, Drop(k, 4));
    PathStarts(path, to, from);
  }

  lemma {:induction false} ChunksFollow(cs: seq<Gestures.Chunk>, k: nat)
    ensures |Later(ChunkProgram(cs), k, None)| <= 1
    decreases |cs|
  {
    if cs != [] {
      var op := Mouse(Gestures.WheelOp(cs[0].0, cs[0].1));
      ChunkFirst(cs);
      LookFirst(op, if |cs| > 1 then Look(ChunkProgram(cs[1..])) else End, k, None);
      ChunksFollow(cs[1..], Drop(k, 3));
    }
  }

  lemma ScrollFollows(at: Option<Point>, cs: seq<Gestures.Chunk>, k: nat)
    ensures |Later(ScrollProgram(at, cs), k, None)| <= 1
  {
    if at.Some? {
      LookFirst(Mouse(Gestures.MoveOp(at.value)), Look(ChunkProgram(cs)), k, None);
      ChunksFollow(cs, Drop(k, 3));
    } else {
      ChunksFollow(cs, Drop(k, 1));
    }
  }

  function PairOps(button: MouseButton, p: Point, state: nat): seq<Operation> {
    [Mouse(Gestures.DownOp(button, p, state)), Mouse(Gestures.UpOp(button, p, state))]
  }

  lemma PairFollows(button: MouseButton, p: Point, state: nat, rest: Program, k: nat)
    requires Run(rest, 0, None) == []
    ensures Later(Pair(button, p, state, rest), k, None)
         == if k <= 2 then PairOps(button, p, state)[k..] else Later(rest, k - 2, None)
  {
    var up := Emit(Mouse(Gestures.UpOp(button, p, state)), rest);
    var pair := Pair(button, p, state, rest);
    assert Run(up, 0, Some(p)) == [Mouse(Gestures.UpOp(button, p, state))];
    if k == 0 {
      assert Later(pair, 0, None) == [Mouse(Gestures.DownOp(button, p, state))] + Run(up, 0, Some(p));
    } else {
      assert Later(pair, k, None) == Later(up, k - 1, Some(p));
      assert k > 1 ==> Later(up, k - 1, Some(p)) == Later(rest, k - 2, None);
    }
  }

  /** What is left of a direct click: of the pair under way, never another. */
  function DirectLeft(button: MouseButton, p: Point, double: bool, k: nat): seq<Operation> {
    if 1 <= k <= 3 then PairOps(button, p, 1)[k - 1..]
    else if double && 4 <= k <= 6 then PairOps(button, p, 2)[k - 4..]
    else []
  }

  lemma DirectFollows(button: MouseButton, p: Point, double: bool, k: nat)
    ensures Later(DirectProgram(button, p, double), k, None) == DirectLeft(button, p, double, k)
  {
    var second := Look(Pair(button, p, 2, End));
    if k > 0 {
      PairFollows(button, p, 1, if double then second else End, k - 1);
      if double && k > 3 {
        assert Later(second, k - 3, None) == Later(Pair(button, p, 2, End), k - 4, None);
        PairFollows(button, p, 2, End, k - 4);
      }
    }
  }

  function BorrowedOps(button: MouseButton, p: Point, double: bool): seq<Operation> {
    [Mouse(Gestures.MoveOp(p))] + PairOps(button, p, 1) + if double then PairOps(button, p, 2) else []
  }

  lemma BorrowedIs(button: MouseButton, p: Point, double: bool)
    ensures BorrowedProgram(button, p, double) == Emits(BorrowedOps(button, p, double))
    ensures Ops(Gestures.BorrowedTrace(button, p, double)) == BorrowedOps(button, p, double)
  {
    var (ops, two) := (BorrowedOps(button, p, double), if double then PairOps(button, p, 2) else []);
    assert ops[1..] == PairOps(button, p, 1) + two;
    PairEmits(button, p, 1, two);
    PairEmits(button, p, 2, []);
    assert PairOps(button, p, 2) + [] == PairOps(button, p, 2);
  }

  lemma PairEmits(button: MouseButton, p: Point, state: nat, ops: seq<Operation>)
    ensures Emits(PairOps(button, p, state) + ops) == Pair(button, p, state, Emits(ops))
  {
    var all := PairOps(button, p, state) + ops;
    assert all[1..][1..] == ops;
  }

  /** What is left of a list of which nothing is held back. */
  function LeftOf(ops: seq<Operation>, k: nat): seq<Operation> { if k <= |ops| then ops[k..] else [] }

  /** What still goes out of the call under way when the token fires before step `k` of it:
      - of a direct click the rest of the pair under way, so never a second pair;
      - of a warp or a restore the one motion, if its look is past;
      - of a drag at most one operation and its release, of a scroll at most one operation;
      - of a borrowed click, a text and a combination everything not yet out. */
  lemma WhatFollowsAGrab(c: Call, k: nat, g: Given)
    ensures var after := Later(ProgramOf(c, g), k, None);
            && (c.DirectClick? ==> after == DirectLeft(c.button, c.p, c.double, k))
            && (c.Warp? ==> after == if k == 1 then [Mouse(Gestures.MoveOp(c.p))] else [])
            && (c.Restore? ==> after == if k == 1 then [Mouse(Gestures.MoveOp(c.home))] else [])
            && (c.PhysicalClick? ==> after == LeftOf(BorrowedOps(c.button, c.p, c.double), k))
            && (c.Execute? && IsKeyboard(c.action) ==> after == LeftOf(Keys(KeysOf(c.action, g)), k))
            && (c.Execute? && c.action.ScrollBy? ==> |after| <= 1)
            && (c.Execute? && c.action.DragTo? ==> |after| <= 2 && (|after| == 2 ==> IsRelease(after[1])))
  {
    match c
    case DirectClick(p, button, double) => DirectFollows(button, p, double, k);
    case Warp(_, p) => LookFirst(Mouse(Gestures.MoveOp(p)), End, k, None);
    case Restore(_, home) => LookFirst(Mouse(Gestures.MoveOp(home)), End, k, None);
    case PhysicalClick(button, p, double) =>
      BorrowedIs(button, p, double);
      EmitsRun(BorrowedOps(button, p, double), k, None);
    case Execute(r) =>
      if IsKeyboard(r) {
        EmitsRun(Keys(KeysOf(r, g)), k, None);
      } else if r.DragTo? {
        DragFollows(r.from, r.to, PathOf(r, g), k);
      } else if r.ScrollBy? {
        ScrollFollows(r.where, ChunksOf(r), k);
      }
    case _ =>
  }

  lemma KeysLeft(es: seq<KeyEvents.KeyEvent>, k: nat)
    ensures LeftOf(Keys(es), k) == Keys(KeyEvents.AfterFire(KeyEvents.Timed(es, Some(k))))
    ensures k <= |es| ==> LeftOf(Keys(es), k) == Keys(es[k..])
    ensures LeftOf(Keys(es), k) != [] <==> k < |es|
  {
    KeyEvents.KeysAfterAGrab(es, k);
  }

  /** Text follows a grab inside its own call exactly when there is an event left: the
      events from the `k`-th on, which are those the keyboard posts with the token fired. */
  lemma TextFollowsAGrab(text: string, k: nat, g: Given)
    ensures var es := KeyEvents.TypeEvents(text);
            var after := Later(ProgramOf(Execute(TypeKeys(text, Keyboard)), g), k, None);
            && after == Keys(KeyEvents.AfterFire(KeyEvents.Timed(es, Some(k))))
            && (k <= |es| ==> after == Keys(es[k..]))
            && (after != [] <==> k < |es|)
  {
    WhatFollowsAGrab(Execute(TypeKeys(text, Keyboard)), k, g);
    KeysLeft(KeyEvents.TypeEvents(text), k);
  }

  // ---- over whole runs ----

  /** A call made under a fired token puts nothing out, unless it is one of those that never
      look: so a warp then posts nothing, as the worlds have it. */
  lemma FiredCallsPostNothing(c: Call, g: Given)
    ensures Run(ProgramOf(c, g), 0, None) == [] <==>
              && !c.AxPress? && !c.PhysicalClick?
              && (c.Execute? && IsKeyboard(c.action) ==> KeysOf(c.action, g) == [])
  {
    match c
    case Execute(r) =>
      if IsKeyboard(r) {
        EmitsRun(Keys(KeysOf(r, g)), 0, None);
      }
    case _ =>
  }

  /** Once an interrupting event has landed, every later call of the run puts out nothing,
      but for a text or combination whose focus read was made before the event. With
      `WhatFollowsAGrab` for the call under way, that is all that goes out. */
  lemma NothingButTextFollows(j: Job, b: Batch, w: World, d: Detector, i: nat, m: nat, g: Given)
    requires Started(j, b, w)
    requires var log := RunBatch(b, w, d).p.world.log;
             && i < m < |log| && Interrupts(j, log[i])
             && log[m].Made? && Posts(log[m].call)
    ensures var log := RunBatch(b, w, d).p.world.log;
            && log[m].fired
            && (Run(ProgramOf(log[m].call, g), 0, None) != [] ==>
                  && log[m].call.Execute? && IsKeyboard(log[m].call.action)
                  && exists q :: 0 <= q < i && DeedOf(log[q], log[i].index) && log[q].call == ReadFocus
                                 && !log[q].fired)
  {
    InterruptEndsTheBatch(j, b, w, d, i, m);
    EveryRunIsSound(j, b, w, d);
    var log := RunBatch(b, w, d).p.world.log;
    SoundAt(j, log, i);
    FiredSpreads(j, log, i, m);
    FiredCallsPostNothing(log[m].call, g);
  }
}
