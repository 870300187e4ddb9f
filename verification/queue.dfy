/** The batch loop over those worlds: boundary checks, gates, dispatch, reports. */
module Queues {
  import opened Basics
  import opened Coordinates
  import opened Actions
  import opened Sessions
  import opened HumanInput
  import opened Worlds
  import Pointer
  import PointerDetail

  // ---- reports ----

  datatype Status = Success | Failed | Cancelled

  datatype GateError =
    | IsolatedDragUnavailable
    | PhysicalFallbackNotAllowed
    | PhysicalFallbackRequired
    | InputFocusMismatch
    | OutOfImage
    | TargetCoordinateRequired
    | TargetOutsideSession

  datatype Cause = Gate(error: GateError) | Said(detail: PointerDetail.Detail) | Driver(message: string)

  datatype ActionRun = ActionRun(
    index: nat,
    status: Status,
    cause: Option<Cause>,
    pointer: Option<PointerDetail.PointerResult>)

  function CancelledRun(i: nat): ActionRun { ActionRun(i, Cancelled, None, None) }

  function FailedRun(i: nat, cause: Cause): ActionRun { ActionRun(i, Status.Failed, Some(cause), None) }

  function FillCancelled(reports: seq<ActionRun>, from: nat, len: nat): seq<ActionRun>
    decreases len - from
  {
    if from >= len then reports else FillCancelled(reports + [CancelledRun(from)], from + 1, len)
  }

  // ---- the pointer-delta heuristic ----

  datatype TakeoverPolicy = Ignore | AutoPause | ImmediateTakeover

  datatype Detector = Detector(threshold: real, required: nat, streak: nat, policy: TakeoverPolicy)

  /** Farther than the threshold, without the square root. */
  predicate Jumped(d: Detector, dx: real, dy: real) {
    d.threshold < 0.0 || dx * dx + dy * dy > d.threshold * d.threshold
  }

  function Observed(d: Detector, dx: real, dy: real): Detector {
    d.(streak := if Jumped(d, dx, dy) then d.streak + 1 else 0)
  }

  predicate Triggers(d: Detector) { d.streak >= d.required }

  function ApplyTakeover(w: World, policy: TakeoverPolicy): World {
    match policy
    case Ignore => w
    case AutoPause => ToState(w, Paused)
    case ImmediateTakeover => ToState(w, UserTakeover)
  }

  // ---- takeover checks, at every boundary and wait poll ----

  /** A pending real event: UserTakeover whatever the policy, then the overlay goes. */
  function RealTakeover(w: World): World {
    var taken := ToState(w.(human := w.human.(pendingReal := false)), UserTakeover);
    var synced := SetMode(taken, Pointer.UserTakeover);
    var marked := synced.(human := synced.human.(takeoverStartedAt := Some(w.now)),
                          log := w.log + [Consumed(w.index, w.session.state, synced.session.state, Fired(synced))]);
    Ask(marked, Overlay).world
  }

  datatype Check = Check(world: World, stop: bool)

  function TakeoverCheck(w: World, tapActive: bool, policy: TakeoverPolicy): Check {
    if w.human.pendingReal then Check(RealTakeover(w), true)
    else if !tapActive && w.human.pendingHeuristic then
      Check(ApplyTakeover(w.(human := w.human.(pendingHeuristic := false)), policy), true)
    else Check(w, Fired(w) || SessionAborted(w.session))
  }

  // ---- gates ----

  predicate NeedsPhysical(a: ComputerAction) { a.Drag? || (a.Scroll? && a.sx.Some? && a.sy.Some?) }

  predicate NeedsFocus(a: ComputerAction) { a.TypeText? || a.Key? }

  function PolicyError(a: ComputerAction, p: Pointer.PointerPolicy): GateError {
    match p
    case IsolatedOnly => if a.Drag? then IsolatedDragUnavailable else PhysicalFallbackNotAllowed
    case _ => PhysicalFallbackRequired
  }

  predicate HasIdentity(t: SessionTarget) { t.bundleId.Some? || t.pid.Some? || t.windowId.Some? }

  /** Every identity the target names must match the live frontmost application. */
  predicate Focused(t: SessionTarget, r: Reply) {
    var live := if r.verdict.Fails? then None else r.application;
    && (t.bundleId.Some? ==> live.Some? && live.value.bundleId == t.bundleId.value)
    && (t.pid.Some? ==> live.Some? && live.value.pid == t.pid)
    && (t.windowId.Some? ==> live.Some? && live.value.windowId == t.windowId)
  }

  datatype Gated = Gated(world: World, verdict: Result<ResolvedAction, GateError>)

  function Gates(w: World, a: ComputerAction, g: ImageGeometry, last: Point): Gated {
    var scope := w.session.scope;
    if NeedsPhysical(a) && scope.policy != Pointer.PhysicalAllowed then
      Gated(w, Err(PolicyError(a, scope.policy)))
    else if NeedsFocus(a) && scope.target.Some? && HasIdentity(scope.target.value) then
      var live := Ask(w, ReadFocus);
      if !Focused(scope.target.value, live.reply) then Gated(live.world, Err(InputFocusMismatch))
      else Gated(live.world, Containment(live.world.session.scope, a, g, last))
    else Gated(w, Containment(scope, a, g, last))
  }

  function Containment(scope: Scope, a: ComputerAction, g: ImageGeometry, last: Point): Result<ResolvedAction,
          GateError> {
    match ToResolved(a, g, last)
    case Err(_) => Err(OutOfImage)
    case Ok(r) =>
      if scope.resolvedTarget.Some? && a.Scroll? && a.sx.None? && a.sy.None? then Err(TargetCoordinateRequired)
      else if scope.targetBounds.Some? && !ResolvedWithinBounds(r, scope.targetBounds.value)
      then Err(TargetOutsideSession)
      else Ok(r)
  }

  // ---- dispatch ----

  const POLL_MS: nat := 50

  datatype Waited = Waited(world: World, interrupted: bool)

  /** One sleep of the wait loop. When the token fires during it, the answer decides
      which ready branch is taken; a sleep that is not cut short lasts its full length. */
  function Nap(w: World, deadline: Instant): (nap: Waited)
    requires w.now < deadline
    ensures !nap.interrupted ==> w.now < nap.world.now
  {
    var ms := Min(deadline - w.now, POLL_MS);
    var slept := Ask(w, Sleep(ms));
    if Fired(slept.world) && slept.reply.verdict == Yes then Waited(slept.world, true)
    else Waited(slept.world.(now := Max(slept.world.now, w.now + ms)), false)
  }

  /** The cancellation-aware wait: polls until the deadline. */
  function WaitUntil(w: World, deadline: Instant, tapActive: bool, policy: TakeoverPolicy): Waited
    decreases if w.now < deadline then deadline - w.now else 0
  {
    if w.now >= deadline then Waited(w, false)
    else
      var check := TakeoverCheck(w, tapActive, policy);
      if check.stop then Waited(check.world, true)
      else
        var nap := Nap(w, deadline);
        if nap.interrupted then nap else WaitUntil(nap.world, deadline, tapActive, policy)
  }

  /** One round of the wait loop. */
  lemma WaitStep(w: World, deadline: Instant, tapActive: bool, policy: TakeoverPolicy)
    requires w.now < deadline
    ensures var check := TakeoverCheck(w, tapActive, policy);
            WaitUntil(w, deadline, tapActive, policy) ==
            if check.stop then Waited(check.world, true)
            else if Nap(w, deadline).interrupted then Nap(w, deadline)
            else WaitUntil(Nap(w, deadline).world, deadline, tapActive, policy)
  {
  }

  function WaitOut(w: World, ms: nat, tapActive: bool, policy: TakeoverPolicy): Waited {
    WaitUntil(w, w.now + ms, tapActive, policy)
  }

  datatype Performed = Performed(world: World, outcome: Outcome, interrupted: bool)

  lemma WaitOutIs(w: World, ms: nat, tapActive: bool, policy: TakeoverPolicy)
    ensures WaitOut(w, ms, tapActive, policy) == WaitUntil(w, w.now + ms, tapActive, policy)
  {
  }

  /** `waited` is how a wait until `deadline` ends. */
  predicate EndsWait(w: World, deadline: Instant, tapActive: bool, policy: TakeoverPolicy, waited: Waited) {
    var ends := waited == WaitUntil(w, deadline, tapActive, policy);
    ends
  }

  lemma WaitOutEnds(w: World, ms: nat, deadline: Instant, tapActive: bool, policy: TakeoverPolicy, waited: Waited)
    requires deadline == w.now + ms && waited == WaitOut(w, ms, tapActive, policy)
    ensures EndsWait(w, deadline, tapActive, policy, waited)
  {
  }

  /** Everything else goes to the driver as it is, stamped first. */
  function Posted(w: World, r: ResolvedAction): Done {
    var posted := Ask(Stamp(w), Execute(r));
    Done(posted.world,
         match posted.reply.verdict
         case Yes => Finished(true, SaidBy(posted.reply))
         case No => Finished(false, SaidBy(posted.reply))
         case Fails(m) => DriverError(m))
  }

  function Perform(w: World, r: ResolvedAction, tapActive: bool, policy: TakeoverPolicy): Performed {
    match r
    case ClickAt(p, button, double) =>
      var done := Worlds.Click(w, ClickRequest(p, button, double));
      Performed(done.world, done.outcome, false)
    case MoveTo(_, to, _) =>
      var moved := Stamp(w).(session := w.session.(location := to));
      Performed(Ask(moved, Overlay).world, Finished(true, Some(PointerDetail.Virtual)), false)
    case WaitFor(ms) =>
      var waited := WaitOut(w, ms, tapActive, policy);
      Performed(waited.world,
                if waited.interrupted then Refused(WaitInterrupted) else Finished(true, None),
                waited.interrupted)
    case _ =>
      var posted := Posted(w, r);
      Performed(posted.world, posted.outcome, false)
  }

  /** Only a wait is ever interrupted. */
  lemma OnlyWaitsAreInterrupted(w: World, r: ResolvedAction, tapActive: bool, policy: TakeoverPolicy)
    ensures var done := Perform(w, r, tapActive, policy);
            if r.WaitFor? then Waited(done.world, done.interrupted) == WaitOut(w, r.waitMs, tapActive, policy)
            else !done.interrupted
  {
  }

  function ReportWith(i: nat, o: Outcome, interrupted: bool): ActionRun {
    if interrupted then CancelledRun(i) else
    match o
    case Finished(true, detail) =>
      ActionRun(i, Success, None,
                if detail.Some? then PointerDetail.ParseDetail(PointerDetail.DetailText(detail.value)) else None)
    case Finished(false, detail) =>
      FailedRun(i, Said(if detail.Some? then detail.value else PointerDetail.Message("action failed")))
    case Refused(reason) => FailedRun(i, Said(PointerDetail.Message(RefusalText(reason))))
    case DriverError(m) => FailedRun(i, Driver(m))
  }

  function ReportOf(i: nat, p: Performed): ActionRun { ReportWith(i, p.outcome, p.interrupted) }

  // ---- the loop ----

  /** What a batch is given; fixed while it runs. */
  datatype Batch = Batch(actions: seq<ComputerAction>, geometry: ImageGeometry, tapActive: bool, recording: bool)

  /** What the loop changes. */
  datatype Progress = Progress(world: World, reports: seq<ActionRun>, last: Point, detector: Detector)

  datatype Next = Continue(p: Progress) | Stop(p: Progress) | Abort(p: Progress)

  function OneAction(b: Batch, p: Progress, i: nat): Next
    requires i < |b.actions|
  {
    var n := |b.actions|;
    var check := TakeoverCheck(p.world.(index := i), b.tapActive, p.detector.policy);
    if check.stop then Stop(p.(world := check.world, reports := FillCancelled(p.reports, i, n)))
    else
      var gated := Gates(check.world, b.actions[i], b.geometry, p.last);
      match gated.verdict
      case Err(e) =>
        Stop(p.(world := gated.world, reports := FillCancelled(p.reports + [FailedRun(i, Gate(e))], i + 1, n)))
      case Ok(r) => Dispatch(b, p.(world := gated.world), i, r)
  }

  /** The action itself, its report and its trace record. */
  function Dispatch(b: Batch, p: Progress, i: nat, r: ResolvedAction): Next
    requires i < |b.actions|
  {
    var done := Perform(p.world, r, b.tapActive, p.detector.policy);
    var after := p.(world := done.world, reports := p.reports + [ReportOf(i, done)]);
    if done.interrupted then Stop(after.(reports := FillCancelled(after.reports, i + 1, |b.actions|)))
    else if b.recording then
      var recorded := Ask(done.world, RecordTrace);
      if recorded.reply.verdict.Fails? then Abort(after.(world := recorded.world))
      else Probe(b, after.(world := recorded.world), i)
    else Probe(b, after, i)
  }

  /** The heuristic probe after actions that do not move the pointer by design. */
  function Probe(b: Batch, p: Progress, i: nat): Next
    requires i < |b.actions|
  {
    var a := b.actions[i];
    if !b.tapActive && !MovesPointer(a) then
      var read := Ask(p.world, ReadCursor);
      if read.reply.verdict != Yes then Continue(p.(world := read.world))
      else
        var d := Observed(p.detector, read.reply.location.x - p.last.x, read.reply.location.y - p.last.y);
        if Triggers(d) then
          Stop(p.(world := ApplyTakeover(read.world, d.policy), detector := d,
                  reports := FillCancelled(p.reports, i + 1, |b.actions|)))
        else Continue(p.(world := read.world, detector := d))
    else if MovesPointer(a) then Continue(p.(last := p.world.session.location))
    else Continue(p)
  }

  datatype BatchResult = BatchResult(p: Progress, ok: bool)

  function RunFrom(b: Batch, p: Progress, i: nat): BatchResult
    requires i <= |b.actions|
    decreases |b.actions| - i, 0
  {
    if i == |b.actions| then BatchResult(p, true) else After(b, OneAction(b, p, i), i)
  }

  /** The rest of the run after action `i`. */
  function After(b: Batch, next: Next, i: nat): BatchResult
    requires i < |b.actions|
    decreases |b.actions| - i - 1, 1
  {
    match next
    case Continue(q) => RunFrom(b, q, i + 1)
    case Stop(q) => BatchResult(q, true)
    case Abort(q) => BatchResult(q, false)
  }

  function RunBatch(b: Batch, w: World, d: Detector): BatchResult {
    RunFrom(b, Progress(w, [], w.session.location, d.(streak := 0)), 0)
  }
}
