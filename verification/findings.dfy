/** Where the queue falls short of its own documentation, and exactly when. */
module Findings {
  import opened Basics
  import opened Coordinates
  import opened Actions
  import opened Sessions
  import opened HumanInput
  import opened Worlds
  import opened Queues
  import opened Rules
  import opened Safety
  import opened Running
  import opened Reporting
  import opened Theorems
  import Pointer

  // ---- text after a grab ----

  /** A keyboard action that passes its gates is sent under a fired token exactly when the
      token fired during its focus read: nothing is checked between the two. When the token
      fires later, while it types, `Interruption.TextFollowsAGrab` says what follows. */
  lemma TypedAfterGrabExactly(j: Job, w: World, last: Point, tapActive: bool, policy: TakeoverPolicy)
    requires On(j, w, []) && !Fired(w) && w.session.mode != Pointer.PhysicalFallback
    requires NeedsFocus(j.actions[w.index]) && Gates(w, j.actions[w.index], j.geometry, last).verdict.Ok?
    ensures var g := Gates(w, j.actions[w.index], j.geometry, last);
            exists e :: e in Perform(g.world, g.verdict.value, tapActive, policy).world.log
              && DeedOf(e, w.index) && e.call == Execute(g.verdict.value)
              && (e.fired <==> Guarded(j) && Fired(Ask(w, ReadFocus).world))
  {
    var g := Gates(w, j.actions[w.index], j.geometry, last);
    var r := g.verdict.value;
    var ds := GatesKeep(j, w, last);
    ContainmentAims(j, w.index, last);
    ExecuteKeeps(j, g.world, ds, r);
    var e := EntryOf(Stamp(g.world), Execute(r));
    assert (ds + [e])[|ds|] in Deeds(Ask(Stamp(g.world), Execute(r)).world.log, w.index);
  }

  // ---- boundaries ----

  /** A boundary stops the batch exactly when a flag it listens to is up, the token has
      fired, or the session is not Active. The policy plays no part: Ignore leaves the
      session alone, but the rest of the batch is cancelled all the same. */
  lemma BoundaryStopsExactly(j: Job, w: World, tapActive: bool, policy: TakeoverPolicy)
    requires Good(j, w)
    ensures TakeoverCheck(w, tapActive, policy).stop <==>
              w.human.pendingReal || (!tapActive && w.human.pendingHeuristic) || Fired(w) || w.session.state != Active
    ensures !w.human.pendingReal && !tapActive && w.human.pendingHeuristic ==>
              var check := TakeoverCheck(w, tapActive, policy);
              && check.stop && TookOver(policy, w.session.state, check.world.session.state)
              && (policy == Ignore ==> check.world.session == w.session)
  {
  }

  /** Actions that take the pointer somewhere by design. */
  predicate Relocates(a: ComputerAction) {
    a.Click? || a.DoubleClick? || a.Move? || a.Drag? || (a.Scroll? && a.sx.Some? && a.sy.Some?)
  }

  /** The cursor read after an action is farther than the threshold from where the pointer
      was last known to be. */
  predicate FarOff(d: Detector, at: Point, last: Point) {
    var (dx, dy) := (at.x - last.x, at.y - last.y);
    d.threshold < 0.0 || dx * dx + dy * dy > d.threshold * d.threshold
  }

  /** The probe after action `i` finds the cursor jumped once too often in a row. */
  predicate ProbeJumps(b: Batch, p: Progress, i: nat)
    requires i < |b.actions|
  {
    var read := Ask(p.world, ReadCursor).reply;
    && !b.tapActive && !Relocates(b.actions[i]) && read.verdict == Yes
    && p.detector.required <= if FarOff(p.detector, read.location, p.last) then p.detector.streak + 1 else 0
  }

  /** What a detection does to a session: nothing, a pause of an Active one, or a takeover
      of an Active or Paused one. */
  predicate TookOver(policy: TakeoverPolicy, was: SessionState, now: SessionState) {
    match policy
    case Ignore => now == was
    case AutoPause => now == if was == Active then Paused else was
    case ImmediateTakeover => now == if was == Active || was == Paused then UserTakeover else was
  }

  /** The probe stops the batch exactly when it finds such a jump, under every policy: under
      Ignore the session is left alone, and the rest of the batch is cancelled. */
  lemma ProbeStopsExactly(b: Batch, p: Progress, i: nat)
    requires i < |b.actions| && Tidy(p.reports, i + 1)
    ensures var next := Probe(b, p, i);
            && (if ProbeJumps(b, p, i) then next.Stop? else next.Continue?)
            && (next.Stop? ==> CancelledFrom(next.p.reports, i + 1))
            && (next.Stop? ==> TookOver(p.detector.policy, Ask(p.world, ReadCursor).world.session.state,
                                        next.p.world.session.state))
            && next.p.last == (if Relocates(b.actions[i]) then p.world.session.location else p.last)
            && (next.Stop? && p.detector.policy == Ignore ==>
                  next.p.world.session == Ask(p.world, ReadCursor).world.session)
  {
    FilledFrom(p.reports, i + 1, |b.actions|);
  }

  /** Some poll of a wait finds the heuristic flag up. */
  predicate Heard(w: World, deadline: Instant)
    decreases if w.now < deadline then deadline - w.now else 0
  {
    w.now < deadline
    && (w.human.pendingHeuristic || (!Nap(w, deadline).interrupted && Heard(Nap(w, deadline).world, deadline)))
  }

  /** A wait whose token is live in the end was interrupted exactly when a poll heard
      something. */
  ghost predicate HearsExactly(w: World, deadline: Instant, waited: Waited) {
    var heard := Fired(waited.world) || (waited.interrupted <==> Heard(w, deadline));
    heard
  }

  lemma {:induction false} IgnoringWait(j: Job, w: World, ds: seq<Entry>, deadline: Instant)
    requires On(j, w, ds) && w.session.mode != Pointer.PhysicalFallback && Calm(w)
    ensures HearsExactly(w, deadline, WaitUntil(w, deadline, false, Ignore))
    decreases if w.now < deadline then deadline - w.now else 0
  {
    if w.now < deadline {
      WaitStep(w, deadline, false, Ignore);
      if !w.human.pendingHeuristic {
        NapKeeps(j, w, ds, deadline);
        var v := Nap(w, deadline).world;
        if Fired(v) {
          WaitKeeps(j, v, ds, deadline, false, Ignore);
        } else {
          IgnoringWait(j, v, ds, deadline);
        }
      }
    }
  }

  /** The progress the probe sees, once action `i` is performed, reported and recorded. */
  function Probed(b: Batch, p: Progress, i: nat, r: ResolvedAction): Progress {
    var done := Perform(p.world, r, b.tapActive, p.detector.policy);
    p.(world := if b.recording then Ask(done.world, RecordTrace).world else done.world,
       reports := p.reports + [ReportOf(i, done)])
  }

  predicate TraceFails(b: Batch, p: Progress, r: ResolvedAction) {
    b.recording && Ask(Perform(p.world, r, b.tapActive, p.detector.policy).world, RecordTrace).reply.verdict.Fails?
  }

  lemma DispatchIs(b: Batch, p: Progress, i: nat, r: ResolvedAction)
    requires i < |b.actions|
    ensures if Perform(p.world, r, b.tapActive, p.detector.policy).interrupted || TraceFails(b, p, r)
            then !Dispatch(b, p, i, r).Continue?
            else Dispatch(b, p, i, r) == Probe(b, Probed(b, p, i, r), i)
  {
  }

  lemma ProbeContinues(b: Batch, p: Progress, i: nat)
    requires i < |b.actions|
    ensures Probe(b, p, i).Continue? <==> !ProbeJumps(b, p, i)
  {
  }

  /** What was performed under a token that is live in the end was performed under a live one. */
  lemma LiveThroughDispatch(j: Job, b: Batch, p: Progress, i: nat, r: ResolvedAction, ds: seq<Entry>)
    requires MadeFor(j, b) && i < |b.actions| && Ready(j, p.world, ds, r)
    requires p.world.session.mode != Pointer.PhysicalFallback && p.world.index == i
    requires !Fired(Dispatch(b, p, i, r).p.world)
    ensures !Fired(Perform(p.world, r, b.tapActive, p.detector.policy).world)
  {
    var done := Perform(p.world, r, b.tapActive, p.detector.policy);
    var es := PerformKeeps(j, p.world, ds, r, b.tapActive, p.detector.policy);
    LiveThroughProbe(j, b, p.(world := done.world, reports := p.reports + [ReportOf(i, done)]), i, es);
  }

  lemma LiveThroughProbe(j: Job, b: Batch, p: Progress, i: nat, es: seq<Entry>)
    requires MadeFor(j, b) && i < |b.actions| && On(j, p.world, es) && p.world.index == i
    requires p.world.session.mode != Pointer.PhysicalFallback
    ensures Fired(p.world) ==>
              && Fired(Ask(p.world, RecordTrace).world) && Fired(Probe(b, p, i).p.world)
              && Fired(Probe(b, p.(world := Ask(p.world, RecordTrace).world), i).p.world)
  {
    KeptFinishes(j, p.world, i, p.world, p.world, es);
    ReportKeeps(j, b, p, p.world, i, es);
  }

  /** No poll of the action's wait and no probe after it finds anything, and the trace is
      written. */
  predicate NothingHeard(b: Batch, p: Progress, i: nat, r: ResolvedAction)
    requires i < |b.actions|
  {
    && !(r.WaitFor? && Heard(p.world, p.world.now + r.waitMs))
    && !TraceFails(b, p, r) && !ProbeJumps(b, Probed(b, p, i, r), i)
  }

  lemma IgnoringWaited(j: Job, w: World, ds: seq<Entry>, deadline: Instant, waited: Waited)
    requires On(j, w, ds) && w.session.mode != Pointer.PhysicalFallback && Calm(w)
    requires EndsWait(w, deadline, false, Ignore, waited)
    ensures HearsExactly(w, deadline, waited)
  {
    IgnoringWait(j, w, ds, deadline);
  }

  lemma IgnoringWaitOut(j: Job, w: World, ds: seq<Entry>, ms: nat, deadline: Instant, waited: Waited)
    requires On(j, w, ds) && w.session.mode != Pointer.PhysicalFallback && Calm(w)
    requires deadline == w.now + ms && waited == WaitOut(w, ms, false, Ignore)
    ensures HearsExactly(w, deadline, waited)
  {
    WaitOutEnds(w, ms, deadline, false, Ignore, waited);
    IgnoringWaited(j, w, ds, deadline, waited);
  }

  /** A performed wait hears exactly what its polls heard; nothing else is interrupted. */
  lemma IgnoringPerform(j: Job, w: World, r: ResolvedAction, ds: seq<Entry>)
    requires On(j, w, ds) && w.session.mode != Pointer.PhysicalFallback && Calm(w)
    ensures var done := Perform(w, r, false, Ignore);
            if r.WaitFor? then HearsExactly(w, w.now + r.waitMs, Waited(done.world, done.interrupted))
            else !done.interrupted
  {
    OnlyWaitsAreInterrupted(w, r, false, Ignore);
    if r.WaitFor? {
      var done := Perform(w, r, false, Ignore);
      IgnoringWaitOut(j, w, ds, r.waitMs, w.now + r.waitMs, Waited(done.world, done.interrupted));
    }
  }

  lemma IgnoringDispatch(j: Job, b: Batch, p: Progress, i: nat, r: ResolvedAction, ds: seq<Entry>)
    requires MadeFor(j, b) && i < |b.actions| && Ready(j, p.world, ds, r)
    requires p.world.session.mode != Pointer.PhysicalFallback && p.world.index == i && Calm(p.world)
    requires p.detector.policy == Ignore && !b.tapActive && !Fired(Dispatch(b, p, i, r).p.world)
    ensures Dispatch(b, p, i, r).Continue? <==> NothingHeard(b, p, i, r)
  {
    DispatchIs(b, p, i, r);
    ProbeContinues(b, Probed(b, p, i, r), i);
    LiveThroughDispatch(j, b, p, i, r, ds);
    IgnoringPerform(j, p.world, r, ds);
  }

  lemma IgnoringBoundary(j: Job, b: Batch, p: Progress, i: nat)
    requires i < |b.actions| && Between(j, p.world, i) && Calm(p.world)
    requires p.detector.policy == Ignore && !b.tapActive && !Fired(p.world)
    ensures var g := Gates(p.world.(index := i), b.actions[i], b.geometry, p.last);
            var next := OneAction(b, p, i);
            if p.world.human.pendingHeuristic || g.verdict.Err? then next.Stop?
            else next == Dispatch(b, p.(world := g.world), i, g.verdict.value)
  {
  }

  lemma IgnoringGated(j: Job, b: Batch, p: Progress, i: nat, r: ResolvedAction, q: Progress)
    requires MadeFor(j, b) && i < |b.actions| && Between(j, p.world, i) && Calm(p.world) && !Fired(p.world)
    requires var g := Gates(p.world.(index := i), b.actions[i], b.geometry, p.last);
             g.verdict == Ok(r) && q == p.(world := g.world)
    requires p.detector.policy == Ignore && !b.tapActive && !Fired(Dispatch(b, q, i, r).p.world)
    ensures Dispatch(b, q, i, r).Continue? <==> NothingHeard(b, q, i, r)
  {
    Begins(j, p.world, i);
    var ds := GatesKeep(j, p.world.(index := i), p.last);
    DispatchKeeps(j, b, q, q.world, i, r, ds);
    IgnoringDispatch(j, b, q, i, r, ds);
  }

  /** Whether the batch goes on past action `i` under Ignore, in an otherwise undisturbed
      session without the tap: exactly when no detection is found at the boundary, at a
      poll or by the probe, no gate refuses, and the trace can be written. Ignoring is not
      what Ignore does: any of the three detections ends the batch. */
  lemma IgnoreGoesOnExactly(j: Job, b: Batch, p: Progress, i: nat)
    requires MadeFor(j, b) && i < |b.actions| && Between(j, p.world, i) && Calm(p.world)
    requires p.detector.policy == Ignore && !b.tapActive
    requires !Fired(p.world) && !Fired(OneAction(b, p, i).p.world)
    ensures var g := Gates(p.world.(index := i), b.actions[i], b.geometry, p.last);
            OneAction(b, p, i).Continue? <==>
              && !p.world.human.pendingHeuristic && g.verdict.Ok?
              && NothingHeard(b, p.(world := g.world), i, g.verdict.value)
  {
    var g := Gates(p.world.(index := i), b.actions[i], b.geometry, p.last);
    IgnoringBoundary(j, b, p, i);
    if !p.world.human.pendingHeuristic && g.verdict.Ok? {
      IgnoringGated(j, b, p, i, g.verdict.value, p.(world := g.world));
    }
  }

  /** A real flag left over from before the batch cancels all of it: no action runs. */
  lemma StaleFlagCancelsEverything(j: Job, b: Batch, w: World, d: Detector)
    requires Started(j, b, w) && w.human.pendingReal && |b.actions| > 0
    ensures var r := RunBatch(b, w, d);
            && r.ok && Complete(r.p.reports, |b.actions|) && CancelledFrom(r.p.reports, 0)
            && (forall e :: e in r.p.world.log && e.Made? ==> e.call.Overlay?)
  {
    var p := Progress(w, [], w.session.location, d.(streak := 0));
    FilledFrom([], 0, |b.actions|);
    StopsAtOnce(b, p);
    RealTakeoverIs(w.(index := 0));
    var v := Marked(w.(index := 0));
    forall e | e in ApplyAll(Sent(v, Overlay), NextTurn(v).events).log && e.Made?
      ensures e.call.Overlay?
    {
      EventsHappen(Sent(v, Overlay), NextTurn(v).events, e);
    }
  }

  lemma StopsAtOnce(b: Batch, p: Progress)
    requires |b.actions| > 0 && p.world.human.pendingReal
    ensures RunFrom(b, p, 0)
         == BatchResult(p.(world := RealTakeover(p.world.(index := 0)),
                           reports := FillCancelled(p.reports, 0, |b.actions|)), true)
  {
    assert RunFrom(b, p, 0) == After(b, OneAction(b, p, 0), 0);
  }

  lemma {:induction false} EventsHappen(w: World, es: seq<Event>, e: Entry)
    requires e in ApplyAll(w, es).log
    ensures e in w.log || e.Happened?
    decreases |es|
  {
    if es != [] {
      EventsHappen(Apply(w, es[0]), es[1..], e);
    }
  }

  /** The world in which the next batch starts once the user has released control. */
  function NextBatch(w: World): World {
    var released := ToState(w, Active);
    Effect(released, BatchBegins).(batch := released.issued, log := [], index := 0, pendedBefore := w.human.pendingReal)
  }

  /** Releasing does not lower the flag: after an event that no boundary followed, the
      first batch on the released session is live and Active, and yet wholly cancelled. */
  lemma FlagOutlivesRelease(w: World, b: Batch, d: Detector)
    requires w.session.state == UserTakeover && w.human.pendingReal && Coherent(w.session)
    requires (forall t :: t in w.session.batchTokens ==> t < w.issued)
    requires |b.actions| > 0
    ensures var next := NextBatch(w);
            && next.session.state == Active && !Fired(next)
            && CancelledFrom(RunBatch(b, next, d).p.reports, 0) && |RunBatch(b, next, d).p.reports| == |b.actions|
  {
    var next := NextBatch(w);
    StaleFlagCancelsEverything(Job(b.actions, b.geometry, next.session.scope, next.batch), b, next, d);
  }

  /** The first boundary after a release lets the batch through exactly when neither flag
      it listens to is still up. */
  lemma ReleasedBoundaryExactly(w: World, tapActive: bool, policy: TakeoverPolicy)
    requires w.session.state == UserTakeover && Coherent(w.session)
    ensures TakeoverCheck(NextBatch(w), tapActive, policy).stop <==>
              w.human.pendingReal || (!tapActive && w.human.pendingHeuristic)
  {
  }

  // ---- it does happen ----

  function Interrupted(application: Option<ApplicationInfo>): Turn {
    Turn(Reply(Yes, None, ORIGIN, application, None), 0, [HumanEvent(0, ORIGIN)])
  }

  lemma OneEvent(w: World, e: Event)
    ensures ApplyAll(w, [e]) == Apply(w, e)
  {
    assert [e][1..] == [];
    assert ApplyAll(Apply(w, e), []) == Apply(w, e);
  }

  const APP: string := "com.example.editor"

  /** A session scoped to one application. */
  const SCOPED: Scope := Scope(Pointer.IsolatedPreferred, Some(SessionTarget(Some(APP), None, None)), None, None)

  /** The world in which the text goes out: the focus was read, and matched, while the user
      grabbed the mouse. */
  lemma GrabbedInTheRead(text: string, g: ImageGeometry)
    ensures var w := Ordinary(SCOPED, [Interrupted(Some(ApplicationInfo(APP, None, None)))]);
            var gated := Gates(w, TypeText(text, Keyboard), g, ORIGIN);
            && gated == Gated(Ask(w, ReadFocus).world, Ok(TypeKeys(text, Keyboard)))
            && Fired(gated.world) && gated.world.index == 0
  {
    var w := Ordinary(SCOPED, [Interrupted(Some(ApplicationInfo(APP, None, None)))]);
    OneEvent(Sent(w, ReadFocus), HumanEvent(0, ORIGIN));
    assert 0 in Elements(w.session.batchTokens);
  }

  lemma TypesTheLast(b: Batch, p: Progress, text: string)
    requires |b.actions| == 1 && b.tapActive && !b.recording && b.actions[0] == TypeText(text, Keyboard)
    requires !TakeoverCheck(p.world.(index := 0), true, p.detector.policy).stop
    requires var g := Gates(p.world.(index := 0), b.actions[0], b.geometry, p.last);
             g.verdict == Ok(TypeKeys(text, Keyboard))
    ensures var g := Gates(p.world.(index := 0), b.actions[0], b.geometry, p.last);
            var next := OneAction(b, p, 0);
            next.Continue? && next.p.world == Ask(Stamp(g.world), Execute(TypeKeys(text, Keyboard))).world
  {
  }

  /** The run of a single action that goes on. */
  lemma RunsOnce(b: Batch, p: Progress, q: Progress)
    requires |b.actions| == 1 && OneAction(b, p, 0) == Continue(q)
    ensures RunFrom(b, p, 0) == BatchResult(q, true)
  {
    assert RunFrom(b, q, 1) == BatchResult(q, true);
  }

  /** A run in which the user grabs the mouse while the focus is read; the text is typed
      anyway. */
  lemma TextIsTypedAfterAGrab(text: string, g: ImageGeometry, d: Detector)
    ensures var b := Batch([TypeText(text, Keyboard)], g, true, false);
            var r := RunBatch(b, Ordinary(SCOPED, [Interrupted(Some(ApplicationInfo(APP, None, None)))]), d);
            && r.ok
            && exists e :: e in r.p.world.log && DeedOf(e, 0) && e.call == Execute(TypeKeys(text, Keyboard)) && e.fired
  {
    var b := Batch([TypeText(text, Keyboard)], g, true, false);
    var w := Ordinary(SCOPED, [Interrupted(Some(ApplicationInfo(APP, None, None)))]);
    GrabbedInTheRead(text, g);
    var p := Progress(w, [], ORIGIN, d.(streak := 0));
    TypesTheLast(b, p, text);
    RunsOnce(b, p, OneAction(b, p, 0).p);
    var u := Stamp(Ask(w, ReadFocus).world);
    LoggedByAsk(u, Execute(TypeKeys(text, Keyboard)));
  }

  lemma {:induction false} EventsKeepLog(w: World, es: seq<Event>, e: Entry)
    requires e in w.log
    ensures e in ApplyAll(w, es).log
    decreases |es|
  {
    if es != [] {
      EventsKeepLog(Apply(w, es[0]), es[1..], e);
    }
  }

  lemma LoggedByAsk(w: World, c: Call)
    ensures EntryOf(w, c) in Ask(w, c).world.log
  {
    EventsKeepLog(Sent(w, c), NextTurn(w).events, EntryOf(w, c));
  }

  const UNSCOPED: Scope := Scope(Pointer.IsolatedPreferred, None, None, None)

  /** A schedule whose first await, during which `events` happen, succeeds. */
  function During(events: seq<Event>): seq<Turn> { [Turn(Reply(Yes, None, ORIGIN, None, None), 0, events)] }

  /** The first action of a batch, typed while `events` happen. */
  lemma TypesFirst(b: Batch, text: string, events: seq<Event>, d: Detector)
    requires |b.actions| > 0 && b.actions[0] == TypeText(text, Keyboard) && b.tapActive && !b.recording
    ensures var w := Ordinary(UNSCOPED, During(events));
            var next := OneAction(b, Progress(w, [], ORIGIN, d), 0);
            && next.Continue? && next.p.detector == d && next.p.last == ORIGIN && next.p.world.turns == []
            && next.p.world == ApplyAll(Sent(Stamp(w), Execute(TypeKeys(text, Keyboard))), events)
  {
  }

  /** A run that ends with the flag up: the user grabs the mouse while the last action
      types. Once control is released, the next batch is wholly cancelled. */
  lemma GrabInTheLastAction(text: string, g: ImageGeometry, d: Detector, b: Batch)
    requires |b.actions| > 0
    ensures var typed := Batch([TypeText(text, Keyboard)], g, true, false);
            var v := RunBatch(typed, Ordinary(UNSCOPED, During([HumanEvent(0, ORIGIN)])), d).p.world;
            && v.session.state == UserTakeover && v.human.pendingReal
            && NextBatch(v).session.state == Active
            && CancelledFrom(RunBatch(b, NextBatch(v), d).p.reports, 0)
  {
    var typed := Batch([TypeText(text, Keyboard)], g, true, false);
    var w := Ordinary(UNSCOPED, During([HumanEvent(0, ORIGIN)]));
    var p := Progress(w, [], ORIGIN, d.(streak := 0));
    TypesFirst(typed, text, [HumanEvent(0, ORIGIN)], d.(streak := 0));
    OneEvent(Sent(Stamp(w), Execute(TypeKeys(text, Keyboard))), HumanEvent(0, ORIGIN));
    assert RunFrom(typed, p, 0) == After(typed, OneAction(typed, p, 0), 0);
    var v := RunBatch(typed, w, d).p.world;
    assert v == OneAction(typed, p, 0).p.world;
    FlagOutlivesRelease(v, b, d);
  }

  // ---- the agent's own move, taken for a user ----

  /** An image that is its display, pixel for pixel. */
  const SQUARE: ImageGeometry := ImageGeometry(1000, 1000, DisplayBounds(0.0, 0.0, 1000.0, 1000.0))

  const FAR: Point := Point(100.0, 0.0)

  /** A move of the virtual pointer, and three waits, without the tap. */
  const MOVE_AND_WAIT: Batch :=
    Batch([Move(100.0, 0.0, ImagePixels, None), Wait(0), Wait(0), Wait(0)], SQUARE, false, false)

  /** As the runtime makes it. */
  function Shipped(streak: nat, policy: TakeoverPolicy): Detector { Detector(60.0, 2, streak, policy) }

  /** After `i` actions of the batch that all succeeded, nothing has happened; the real
      cursor is where it always was, and the virtual pointer is far from it. */
  predicate Untroubled(p: Progress, i: nat, d: Detector) {
    && p.world.session == SessionView(Active, false, false, Pointer.Isolated, FAR, [0], UNSCOPED)
    && p.world.fired == {} && p.world.batch == 0 && p.world.turns == [] && p.world.cursor == ORIGIN
    && !p.world.human.pendingReal && !p.world.human.pendingHeuristic
    && (forall e :: e in p.world.log ==> e.Made?)
    && p.last == FAR && p.detector == d
    && Tidy(p.reports, i) && forall k :: 0 <= k < i ==> p.reports[k].status == Success
  }

  lemma FarIsResolved()
    ensures ToResolved(MOVE_AND_WAIT.actions[0], SQUARE, ORIGIN) == Ok(MoveTo(ORIGIN, FAR, None))
  {
    RoundOfInteger(100);
    RoundOfInteger(0);
  }

  /** The virtual pointer moved; the overlay follows. */
  function Moved(w: World, to: Point): World {
    Ask(Stamp(w).(session := w.session.(location := to)), Overlay).world
  }

  lemma MoveDispatched(b: Batch, p: Progress)
    requires |b.actions| > 0 && b.actions[0].Move? && !b.recording && p.reports == [] && p.world.turns == []
    ensures var next := Dispatch(b, p, 0, MoveTo(ORIGIN, FAR, None));
            && next.Continue? && MovedFrom(p.world, next.p.world) && next.p.last == FAR
            && next.p.detector == p.detector && Tidy(next.p.reports, 1) && next.p.reports[0].status == Success
  {
    MovedQuietly(p.world);
  }

  /** What the moved world keeps of the one before. */
  ghost predicate MovedFrom(w: World, v: World) {
    var moved :=
      && v.session == w.session.(location := FAR)
      && v.fired == w.fired && v.batch == w.batch && v.turns == w.turns && v.cursor == w.cursor
      && v.human.pendingReal == w.human.pendingReal && v.human.pendingHeuristic == w.human.pendingHeuristic
      && exists e :: v.log == w.log + [e] && e.Made?;
    moved
  }

  lemma QuietOverlay(w: World)
    requires w.turns == []
    ensures Ask(w, Overlay).world == w.(log := w.log + [EntryOf(w, Overlay)])
  {
  }

  lemma MovedQuietly(w: World)
    requires w.turns == []
    ensures MovedFrom(w, Moved(w, FAR))
  {
    var u := Stamp(w).(session := w.session.(location := FAR));
    QuietOverlay(u);
    assert Moved(w, FAR).log == w.log + [EntryOf(u, Overlay)];
  }

  lemma FirstIsUntroubled(w: World, q: Progress, d: Detector)
    requires w == Ordinary(UNSCOPED, []) && MovedFrom(w, q.world) && q.last == FAR && q.detector == d
    requires Tidy(q.reports, 1) && q.reports[0].status == Success
    ensures Untroubled(q, 1, d)
  {
    var e :| q.world.log == w.log + [e] && e.Made?;
    assert w.log + [e] == [e];
  }

  lemma MoveIsContained(w: World)
    requires w == Ordinary(UNSCOPED, [])
    ensures Gates(w, MOVE_AND_WAIT.actions[0], SQUARE, ORIGIN) == Gated(w, Ok(MoveTo(ORIGIN, FAR, None)))
  {
    FarIsResolved();
  }

  lemma MovePasses(p: Progress)
    requires p.world == Ordinary(UNSCOPED, []) && p.last == ORIGIN
    ensures OneAction(MOVE_AND_WAIT, p, 0) == Dispatch(MOVE_AND_WAIT, p, 0, MoveTo(ORIGIN, FAR, None))
  {
    MoveIsContained(p.world);
    assert p.world.(index := 0) == p.world && p.(world := p.world) == p;
    assert !TakeoverCheck(p.world, false, p.detector.policy).stop;
  }

  lemma MovesAway(policy: TakeoverPolicy)
    ensures var next := OneAction(MOVE_AND_WAIT, Progress(Ordinary(UNSCOPED, []), [], ORIGIN, Shipped(0, policy)), 0);
            next.Continue? && Untroubled(next.p, 1, Shipped(0, policy))
  {
    var p := Progress(Ordinary(UNSCOPED, []), [], ORIGIN, Shipped(0, policy));
    MovePasses(p);
    MoveDispatched(MOVE_AND_WAIT, p);
    FirstIsUntroubled(p.world, Dispatch(MOVE_AND_WAIT, p, 0, MoveTo(ORIGIN, FAR, None)).p, Shipped(0, policy));
  }

  lemma FarIsAJump(streak: nat, policy: TakeoverPolicy)
    ensures Observed(Shipped(streak, policy), ORIGIN.x - FAR.x, ORIGIN.y - FAR.y) == Shipped(streak + 1, policy)
  {
    assert 100.0 * 100.0 > 60.0 * 60.0;
  }

  /** The progress once the wait of action `i` is reported. */
  function WaitReported(p: Progress, i: nat): Progress {
    p.(world := p.world.(index := i), reports := p.reports + [ActionRun(i, Success, None, None)])
  }

  lemma WaitIsUntroubled(p: Progress, i: nat, d: Detector)
    requires Untroubled(p, i, d)
    ensures Untroubled(WaitReported(p, i), i + 1, d)
  {
  }

  lemma WaitsNoTime(b: Batch, p: Progress, i: nat)
    requires i < |b.actions| && !b.recording
    ensures Dispatch(b, p, i, WaitFor(0))
         == Probe(b, p.(reports := p.reports + [ActionRun(i, Success, None, None)]), i)
  {
  }

  /** A wait of no time, then the probe. */
  lemma WaitsAndLooks(p: Progress, i: nat, d: Detector)
    requires 1 <= i < 4 && Untroubled(p, i, d)
    ensures OneAction(MOVE_AND_WAIT, p, i) == Probe(MOVE_AND_WAIT, WaitReported(p, i), i)
  {
    WaitsNoTime(MOVE_AND_WAIT, p.(world := p.world.(index := i)), i);
  }

  lemma FirstLook(q: Progress, i: nat, policy: TakeoverPolicy)
    requires 1 <= i < 4 && Untroubled(q, i + 1, Shipped(0, policy))
    ensures var next := Probe(MOVE_AND_WAIT, q, i); next.Continue? && Untroubled(next.p, i + 1, Shipped(1, policy))
  {
    FarIsAJump(0, policy);
  }

  /** The third action's probe has stopped the batch, and the policy was applied. */
  predicate StoppedAfterTwo(q: Progress, policy: TakeoverPolicy) {
    var stopped :=
      && |q.reports| == 4 && q.reports[3] == CancelledRun(3)
      && (forall k :: 0 <= k < 3 ==> q.reports[k].status == Success)
      && (forall e :: e in q.world.log ==> e.Made?)
      && q.world.session.state
         == (match policy case Ignore => Active case AutoPause => Paused case ImmediateTakeover => UserTakeover);
    stopped
  }

  lemma SecondLook(q: Progress, policy: TakeoverPolicy)
    requires Untroubled(q, 3, Shipped(1, policy))
    ensures var next := Probe(MOVE_AND_WAIT, q, 2); next.Stop? && StoppedAfterTwo(next.p, policy)
  {
    FarIsAJump(1, policy);
    FillsUp(q.reports, 3, 4);
    assert FillCancelled(q.reports, 3, 4)[..3] == q.reports;
  }

  lemma FirstWait(p: Progress, policy: TakeoverPolicy)
    requires Untroubled(p, 1, Shipped(0, policy))
    ensures var next := OneAction(MOVE_AND_WAIT, p, 1); next.Continue? && Untroubled(next.p, 2, Shipped(1, policy))
  {
    WaitsAndLooks(p, 1, Shipped(0, policy));
    WaitIsUntroubled(p, 1, Shipped(0, policy));
    FirstLook(WaitReported(p, 1), 1, policy);
  }

  lemma SecondWait(p: Progress, policy: TakeoverPolicy)
    requires Untroubled(p, 2, Shipped(1, policy))
    ensures var next := OneAction(MOVE_AND_WAIT, p, 2); next.Stop? && StoppedAfterTwo(next.p, policy)
  {
    WaitsAndLooks(p, 2, Shipped(1, policy));
    WaitIsUntroubled(p, 2, Shipped(1, policy));
    SecondLook(WaitReported(p, 2), policy);
  }

  lemma StopsAtThird(p0: Progress, p1: Progress, p2: Progress, q: Progress)
    requires OneAction(MOVE_AND_WAIT, p0, 0) == Continue(p1) && OneAction(MOVE_AND_WAIT, p1, 1) == Continue(p2)
    requires OneAction(MOVE_AND_WAIT, p2, 2) == Stop(q)
    ensures RunFrom(MOVE_AND_WAIT, p0, 0) == BatchResult(q, true)
  {
    assert RunFrom(MOVE_AND_WAIT, p2, 2) == BatchResult(q, true);
    assert RunFrom(MOVE_AND_WAIT, p1, 1) == RunFrom(MOVE_AND_WAIT, p2, 2);
  }

  /** With the tap off, the agent's own virtual move is taken for the user's hand. Nothing
      happens and nobody touches the mouse; the second wait's probe stops the batch, and the
      third wait is cancelled. Under AutoPause the session is paused for it, and under Ignore
      it is left alone, but the rest of the batch is cancelled all the same. */
  lemma IgnoredJumpStops(policy: TakeoverPolicy)
    ensures var r := RunBatch(MOVE_AND_WAIT, Ordinary(UNSCOPED, []), Shipped(0, policy));
            r.ok && StoppedAfterTwo(r.p, policy)
  {
    var p0 := Progress(Ordinary(UNSCOPED, []), [], ORIGIN, Shipped(0, policy));
    MovesAway(policy);
    var p1 := OneAction(MOVE_AND_WAIT, p0, 0).p;
    FirstWait(p1, policy);
    var p2 := OneAction(MOVE_AND_WAIT, p1, 1).p;
    SecondWait(p2, policy);
    StopsAtThird(p0, p1, p2, OneAction(MOVE_AND_WAIT, p2, 2).p);
  }
}
