/** Everything the batch executor can see and touch, as one value: the session, the
    human-input monitor, the cancellation tokens, the real cursor, and the schedule of
    what the driver answers and what happens during each await. */
module Worlds {
  import opened Basics
  import opened Cancellation
  import opened Coordinates
  import opened Actions
  import opened Sessions
  import opened HumanInput
  import Pointer
  import PointerDetail

  // ---- the driver's answers and the environment's events ----

  datatype WindowAtPoint = WindowAtPoint(windowId: int, pid: int, bundleId: string)

  datatype ApplicationInfo = ApplicationInfo(bundleId: string, pid: Option<int>, windowId: Option<int>)

  /** Ok(true), Ok(false) or Err. */
  datatype Verdict = Yes | No | Fails(message: string)

  /** What the driver answers; each call reads the parts its result has. */
  datatype Reply = Reply(
    verdict: Verdict,
    window: Option<WindowAtPoint>,
    location: Point,
    application: Option<ApplicationInfo>,
    detail: Option<string>)

  datatype Event =
    | HumanEvent(latency: nat, at: Point)
    | StateRequest(target: SessionState)
    | CancelToken(t: TokenId)
    | CancelSession
    | HeuristicJump
    | BatchBegins
    | BatchEnds(t: TokenId)

  /** One await: the answer, the time it took, and what happened meanwhile. */
  datatype Turn = Turn(reply: Reply, elapsed: nat, events: seq<Event>)

  datatype Call =
    | HitTest(p: Point)
    | ReadFocus
    | ReadCursor
    | DirectClick(p: Point, button: MouseButton, double: bool)
    | AxPress(pid: int, p: Point)
    | Warp(home: Point, p: Point)
    | PhysicalClick(button: MouseButton, p: Point, double: bool)
    | Restore(p: Point, home: Point)
    | Execute(action: ResolvedAction)
    | Overlay
    | Sleep(ms: nat)
    | RecordTrace

  /** Calls that post input to the machine. */
  predicate Posts(c: Call) {
    c.DirectClick? || c.AxPress? || c.Warp? || c.PhysicalClick? || c.Restore? || c.Execute?
  }

  predicate IsKeyboard(r: ResolvedAction) { r.TypeKeys? || r.PressKeys? }

  /** What happened, in order, each entry under the action it happened in. `fired` is
      the batch token: when a call was made, and after an event. `stamps` is how many
      synthetic events the monitor had counted when the call was made. */
  datatype Entry =
    | Made(index: nat, call: Call, reply: Reply, fired: bool, stamps: nat)
    | Happened(index: nat, event: Event, before: SessionState, after: SessionState, fired: bool)
    | Consumed(index: nat, before: SessionState, after: SessionState, fired: bool)

  datatype World = World(
    session: SessionView,
    human: HumanView,
    fired: set<TokenId>,
    issued: nat,
    turns: seq<Turn>,
    now: Instant,
    cursor: Point,
    log: seq<Entry>,
    index: nat,
    batch: TokenId,
    pendedBefore: bool)

  predicate Fired(w: World) { w.batch in w.fired }

  /** Every await after the schedule runs out is quiet and succeeds. */
  function NextTurn(w: World): Turn {
    if w.turns == [] then Turn(Reply(Yes, None, w.cursor, None, None), 0, []) else w.turns[0]
  }

  // ---- what happens during an await ----

  function ToState(w: World, target: SessionState): World {
    w.(session := Transition(w.session, target), fired := w.fired + TransitionFires(w.session, target))
  }

  /** A hardware event, with the runtime's hook installed for this session. */
  function OnHumanEvent(w: World, latency: nat, at: Point): World {
    ToState(w.(human := OnHuman(w.human, latency, w.now),
               fired := w.fired + Elements(w.session.batchTokens), cursor := at), UserTakeover)
  }

  function Effect(w: World, e: Event): World {
    match e
    case HumanEvent(latency, at) => OnHumanEvent(w, latency, at)
    case StateRequest(target) => ToState(w, target)
    case CancelToken(t) => w.(fired := w.fired + {t})
    case CancelSession => w.(fired := w.fired + Elements(w.session.batchTokens))
    case HeuristicJump => w.(human := w.human.(pendingHeuristic := true))
    case BatchBegins =>
      w.(session := w.session.(batchTokens := w.session.batchTokens + [w.issued]),
         issued := w.issued + 1, fired := w.fired - {w.issued})
    case BatchEnds(t) =>
      if t == w.batch then w else w.(session := w.session.(batchTokens := Without(w.session.batchTokens, t)))
  }

  function Apply(w: World, e: Event): World {
    var v := Effect(w, e);
    v.(log := w.log + [Happened(w.index, e, w.session.state, v.session.state, Fired(v))])
  }

  function ApplyAll(w: World, es: seq<Event>): (v: World)
    ensures v.now == w.now && v.turns == w.turns
    decreases |es|
  {
    if es == [] then w else ApplyAll(Apply(w, es[0]), es[1..])
  }

  // ---- a driver call ----

  /** The driver contract: a pointer motion under a fired token posts nothing and says
      so, and a cursor read tells the truth. */
  function Answer(w: World, c: Call, r: Reply): Reply {
    if (c.Warp? || c.Restore?) && Fired(w) && r.verdict == Yes then r.(verdict := No)
    else if c.ReadCursor? then r.(location := w.cursor)
    else r
  }

  /** Where a call leaves the real cursor. */
  function CursorAfter(at: Point, c: Call, r: Reply): Point {
    match c
    case Warp(_, p) => if r.verdict == Yes then p else at
    case PhysicalClick(_, p, _) => if r.verdict == Yes then p else at
    case Restore(_, home) => if r.verdict == Yes then home else at
    case Execute(DragTo(_, _, _)) => r.location
    case Execute(ScrollBy(Some(_), _, _)) => r.location
    case _ => at
  }

  datatype Asked = Asked(world: World, reply: Reply)

  function ReplyTo(w: World, c: Call): Reply { Answer(w, c, NextTurn(w).reply) }

  /** The call is on its way: its await has begun. */
  function Sent(w: World, c: Call): World {
    w.(turns := if w.turns == [] then [] else w.turns[1..],
       now := w.now + NextTurn(w).elapsed,
       cursor := CursorAfter(w.cursor, c, ReplyTo(w, c)),
       log := w.log + [Made(w.index, c, ReplyTo(w, c), Fired(w), w.human.syntheticCount)])
  }

  function Ask(w: World, c: Call): (a: Asked)
    ensures a.world.now >= w.now
  {
    Asked(ApplyAll(Sent(w, c), NextTurn(w).events), ReplyTo(w, c))
  }

  function Stamp(w: World): World { w.(human := OnSynthetic(w.human, w.now)) }

  function SetMode(w: World, m: Pointer.PointerMode): World { w.(session := w.session.(mode := m)) }

  /** Did the user take the machine since the snapshot of the generation? */
  predicate Grabbed(w: World, generation: nat) { Fired(w) || w.human.generation != generation }

  // ---- outcomes ----

  /** Why nothing more was tried. */
  datatype Refusal =
    | Unavailable
    | HumanTakeover
    | UserGrabbed
    | Occluded
    | OccludedAxError(message: string)
    | AxUnsupported
    | WaitInterrupted
    | DriverSaid(message: string)

  function RefusalText(r: Refusal): string {
    match r
    case Unavailable => "ISOLATED_POINTER_UNAVAILABLE"
    case HumanTakeover => "HUMAN_TAKEOVER"
    case UserGrabbed => PointerDetail.CANCELLED
    case Occluded => "TARGET_OCCLUDED"
    case OccludedAxError(m) => "TARGET_OCCLUDED;ax_error:" + m
    case AxUnsupported => "AX_UNSUPPORTED_FOR_DOUBLE_CLICK"
    case WaitInterrupted => "wait interrupted by cancellation"
    case DriverSaid(m) => m
  }

  /** An unsuccessful result with a detail (Refused), any other result, or an error. */
  datatype Outcome =
    | Finished(success: bool, detail: Option<PointerDetail.Detail>)
    | Refused(reason: Refusal)
    | DriverError(message: string)

  datatype Done = Done(world: World, outcome: Outcome)

  /** The driver's own detail string, if it gave one. */
  function SaidBy(r: Reply): Option<PointerDetail.Detail> {
    if r.detail.Some? then Some(PointerDetail.Message(r.detail.value)) else None
  }

  function TelemetryOf(h: HumanView): PointerDetail.Telemetry {
    PointerDetail.Telemetry(h.lastLatency, EventToTakeover(h), HumanToInputStop(h))
  }

  function CancelledBy(w: World): Outcome {
    Finished(false, Some(PointerDetail.Cancelled(TelemetryOf(w.human))))
  }

  // ---- the physical fallback transaction ----

  const IDLE_GUARD_SECS: nat := 2

  datatype ClickRequest = ClickRequest(p: Point, button: MouseButton, double: bool)

  predicate Operating(w: World) {
    var idle := IdleSecs(w.human, w.now);
    idle.Some? && idle.value < IDLE_GUARD_SECS
  }

  /** The driver's own result of the physical click, under `detail`. */
  function Reported(phys: Reply, detail: PointerDetail.Detail): Outcome {
    match phys.verdict
    case Yes => Finished(true, Some(detail))
    case No => Finished(false, Some(detail))
    case Fails(m) => DriverError(m)
  }

  function PhysicalFallback(w: World, c: ClickRequest): Done {
    var read := Ask(w, ReadCursor);
    if read.reply.verdict != Yes then Done(read.world, Refused(Unavailable))
    else if Operating(read.world) then Done(read.world, Refused(HumanTakeover))
    else if Grabbed(read.world, read.world.human.generation) then Done(read.world, Refused(UserGrabbed))
    else Borrow(read.world, c, read.reply.location, read.world.human.generation)
  }

  /** Borrowing the cursor: show the fallback, warp, and only then click. */
  function Borrow(w: World, c: ClickRequest, home: Point, generation: nat): Done {
    var shown := Ask(SetMode(w, Pointer.PhysicalFallback), Overlay).world;
    var warp := Ask(Stamp(shown), Warp(home, c.p));
    if warp.reply.verdict != Yes || Grabbed(warp.world, generation) then
      var hidden := Ask(SetMode(warp.world, Pointer.UserTakeover), Overlay).world;
      Done(hidden, CancelledBy(hidden))
    else Press(warp.world, c, home, generation)
  }

  /** The click itself. */
  function Press(w: World, c: ClickRequest, home: Point, generation: nat): Done {
    var phys := Ask(Stamp(w), PhysicalClick(c.button, c.p, c.double));
    Return(Ask(phys.world, Overlay).world, c, home, generation, phys.reply)
  }

  /** The restore, unless the user took over. */
  function Return(w: World, c: ClickRequest, home: Point, generation: nat, phys: Reply): Done {
    if Grabbed(w, generation) then
      var hidden := Ask(SetMode(w, Pointer.UserTakeover), Overlay).world;
      Done(hidden, Reported(phys, PointerDetail.PhysicalGrabbed(TelemetryOf(hidden.human))))
    else
      var back := Ask(w, Restore(c.p, home));
      var shown := Ask(SetMode(back.world, Pointer.Isolated), Overlay).world;
      Done(shown, Reported(phys, PointerDetail.PhysicalReturned(back.reply.verdict == Yes)))
  }

  // ---- the click dispatcher ----

  datatype Occlusion = NotTargetScoped | Clear | Blocked | NoWindow | Unverifiable

  /** The hit-test's verdict for a target: identity by window and process, with the
      bundle as a consistency check unless either is unknown. */
  function Judge(target: ResolvedTarget, r: Reply): Occlusion {
    if r.verdict.Fails? then Unverifiable
    else if r.window.None? then NoWindow
    else
      var top := r.window.value;
      if top.windowId == target.windowId && top.pid == target.pid
         && (top.bundleId == "unknown" || target.bundleId == "unknown" || top.bundleId == target.bundleId)
      then Clear else Blocked
  }

  function TargetPid(s: Scope): Option<int> {
    if s.resolvedTarget.Some? then Some(s.resolvedTarget.value.pid)
    else if s.target.Some? then s.target.value.pid else None
  }

  function Click(w: World, c: ClickRequest): Done {
    var generation := w.human.generation;
    var target := w.session.scope.resolvedTarget;
    if target.None? then Unoccluded(w, c, generation)
    else
      var hit := Ask(w, HitTest(c.p));
      var verdict := Judge(target.value, hit.reply);
      if verdict == Clear then Unoccluded(hit.world, c, generation)
      else Obstructed(hit.world, c, generation, verdict)
  }

  /** Something else is, or may be, on top: at most one accessibility press, and that
      only for a single click under a confirmed other window. */
  function Obstructed(w: World, c: ClickRequest, generation: nat, verdict: Occlusion): Done {
    var pid := TargetPid(w.session.scope);
    if verdict != Blocked || c.double || pid.None? then Done(w, Refused(Refusal.Occluded))
    else if Grabbed(w, generation) then Done(w, CancelledBy(w))
    else
      var ax := Ask(w, AxPress(pid.value, c.p));
      match ax.reply.verdict
      case Yes =>
        Done(Ask(Stamp(ax.world), Overlay).world,
             Finished(true, Some(PointerDetail.Accessibility(Some("blocked")))))
      case No => Done(ax.world, Refused(Refusal.Occluded))
      case Fails(m) => Done(ax.world, Refused(OccludedAxError(m)))
  }

  /** Backend 1: a direct click at the point, then the fallbacks if it was refused. */
  function Unoccluded(w: World, c: ClickRequest, generation: nat): Done {
    if Grabbed(w, generation) then Done(w, CancelledBy(w))
    else
      var direct := Ask(w, DirectClick(c.p, c.button, c.double));
      match direct.reply.verdict
      case Yes => Done(Ask(Stamp(direct.world), Overlay).world, Finished(true, Some(PointerDetail.Direct)))
      case Fails(m) => Done(direct.world, Refused(DriverSaid(m)))
      case No =>
        if Grabbed(direct.world, generation) then
          var v := if c.double then Stamp(direct.world) else direct.world;
          Done(v, CancelledBy(v))
        else Declined(direct.world, c)
  }

  /** Backends 2 and 3; a double click has no accessibility form. */
  function Declined(w: World, c: ClickRequest): Done {
    var pid := TargetPid(w.session.scope);
    var physical := w.session.scope.policy == Pointer.PhysicalAllowed;
    if c.double then
      if physical then PhysicalFallback(w, c) else Done(w, Refused(AxUnsupported))
    else if pid.None? then Done(w, Refused(Unavailable))
    else
      var ax := Ask(w, AxPress(pid.value, c.p));
      match ax.reply.verdict
      case Yes => Done(Ask(Stamp(ax.world), Overlay).world, Finished(true, Some(PointerDetail.Accessibility(None))))
      case No => if physical then PhysicalFallback(ax.world, c) else Done(ax.world, Refused(Unavailable))
      case Fails(m) => Done(ax.world, Refused(DriverSaid(m)))
  }
}
