/** The executor as it runs: it changes a session, a monitor, the tokens and the cursor
    step by step, and every method is proved to take the world where the specification
    says. The driver's answers and the events of each await come from `turns`. */
module Executor {
  import opened Basics
  import opened Cancellation
  import opened Coordinates
  import opened Actions
  import opened Sessions
  import opened HumanInput
  import opened Worlds
  import opened Queues
  import opened Rules
  import opened Gating
  import Pointer
  import PointerDetail

  class Machine {
    const session: Session
    const human: HumanInputMonitor
    const batch: TokenId
    var turns: seq<Turn>
    var now: Instant
    var cursor: Point
    ghost var log: seq<Entry>
    ghost var index: nat
    ghost const pendedBefore: bool

    constructor (session: Session, human: HumanInputMonitor, batch: TokenId, turns: seq<Turn>, now: Instant,
            cursor: Point)
      requires human.hook == session
      ensures Hooked() && this.session == session && this.human == human
      ensures Snapshot() == World(session.View(), human.View(), session.tokens.fired, session.tokens.issued,
                                  turns, now, cursor, [], 0, batch, human.pendingReal)
    {
      this.session, this.human, this.batch := session, human, batch;
      this.turns, this.now, this.cursor := turns, now, cursor;
      log, index, pendedBefore := [], 0, human.pendingReal;
    }

    /** The runtime's takeover hook is installed, for this session. */
    ghost predicate Hooked()
      reads this, human
    {
      human.hook == session
    }

    ghost function Snapshot(): World
      reads this, session, human, session.tokens
    {
      World(session.View(), human.View(), session.tokens.fired, session.tokens.issued,
            turns, now, cursor, log, index, batch, pendedBefore)
    }

    // ---- awaits ----

    method Happen(e: Event)
      requires Hooked()
      modifies this, session, human, session.tokens
      ensures Hooked() && Snapshot() == Apply(old(Snapshot()), e)
    {
      ghost var before := session.state;
      match e {
        case HumanEvent(latency, at) =>
          cursor := at;
          human.OnHumanEvent(latency, now);
        case StateRequest(target) =>
          var _ := session.TransitionTo(target);
        case CancelToken(t) =>
          session.tokens.Cancel(t);
        case CancelSession =>
          session.CancelInFlight();
        case HeuristicJump =>
          human.RecordHeuristicDetection();
        case BatchBegins =>
          var _ := session.BeginBatch();
        case BatchEnds(t) =>
          if t != batch {
            session.EndBatch(t);
          }
      }
      log := log + [Happened(index, e, before, session.state, batch in session.tokens.fired)];
    }

    method Play(events: seq<Event>)
      requires Hooked()
      modifies this, session, human, session.tokens
      ensures Hooked() && Snapshot() == ApplyAll(old(Snapshot()), events)
    {
      ghost var w := Snapshot();
      var i := 0;
      while i < |events|
        invariant Hooked() && 0 <= i <= |events|
        invariant ApplyAll(w, events) == ApplyAll(Snapshot(), events[i..])
      {
        assert events[i..][1..] == events[i + 1..];
        Happen(events[i]);
        i := i + 1;
      }
    }

    method Send(c: Call) returns (r: Reply, events: seq<Event>)
      requires Hooked()
      modifies this
      ensures Hooked() && Snapshot() == Sent(old(Snapshot()), c)
      ensures r == ReplyTo(old(Snapshot()), c) && events == NextTurn(old(Snapshot())).events
    {
      var turn := if turns == [] then Turn(Reply(Yes, None, cursor, None, None), 0, []) else turns[0];
      r := turn.reply;
      if (c.Warp? || c.Restore?) && batch in session.tokens.fired && r.verdict == Yes {
        r := r.(verdict := No);
      } else if c.ReadCursor? {
        r := r.(location := cursor);
      }
      log := log + [Made(index, c, r, batch in session.tokens.fired, human.syntheticCount)];
      turns := if turns == [] then [] else turns[1..];
      now := now + turn.elapsed;
      cursor := CursorAfter(cursor, c, r);
      events := turn.events;
    }

    /** A driver call and everything that happens until it is answered. */
    method Await(c: Call) returns (r: Reply)
      requires Hooked()
      modifies this, session, human, session.tokens
      ensures Hooked() && Snapshot() == Ask(old(Snapshot()), c).world && r == Ask(old(Snapshot()), c).reply
    {
      var events: seq<Event>;
      r, events := Send(c);
      Play(events);
    }

    method StampSynthetic()
      requires Hooked()
      modifies human
      ensures Hooked() && Snapshot() == Stamp(old(Snapshot()))
    {
      human.RecordSyntheticEvent(now);
    }

    method SetPointerMode(m: Pointer.PointerMode)
      requires Hooked()
      modifies session
      ensures Hooked() && Snapshot() == SetMode(old(Snapshot()), m)
    {
      session.SetMode(m);
    }

    method HumanGrabbed(generation: nat) returns (grabbed: bool)
      ensures grabbed == Grabbed(Snapshot(), generation)
    {
      grabbed := batch in session.tokens.fired || human.generation != generation;
    }

    // ---- the physical fallback ----

    method PhysicalFallbackClick(c: ClickRequest) returns (o: Outcome)
      requires Hooked()
      modifies this, session, human, session.tokens
      ensures Hooked() && Done(Snapshot(), o) == PhysicalFallback(old(Snapshot()), c)
    {
      var read := Await(ReadCursor);
      if read.verdict != Yes {
        return Refused(Unavailable);
      }
      var generation := human.generation;
      var idle := human.IdleSeconds(now);
      if idle.Some? && idle.value < IDLE_GUARD_SECS {
        return Refused(HumanTakeover);
      }
      var grabbed := HumanGrabbed(generation);
      if grabbed {
        return Refused(UserGrabbed);
      }
      o := BorrowCursor(c, read.location, generation);
    }

    method BorrowCursor(c: ClickRequest, home: Point, generation: nat) returns (o: Outcome)
      requires Hooked()
      modifies this, session, human, session.tokens
      ensures Hooked() && Done(Snapshot(), o) == Borrow(old(Snapshot()), c, home, generation)
    {
      SetPointerMode(Pointer.PhysicalFallback);
      var _ := Await(Overlay);
      StampSynthetic();
      var warp := Await(Warp(home, c.p));
      var grabbed := HumanGrabbed(generation);
      if warp.verdict != Yes || grabbed {
        SetPointerMode(Pointer.UserTakeover);
        var _ := Await(Overlay);
        return Finished(false, Some(PointerDetail.Cancelled(TelemetryOf(human.View()))));
      }
      o := PressAtWarp(c, home, generation);
    }

    method PressAtWarp(c: ClickRequest, home: Point, generation: nat) returns (o: Outcome)
      requires Hooked()
      modifies this, session, human, session.tokens
      ensures Hooked() && Done(Snapshot(), o) == Press(old(Snapshot()), c, home, generation)
    {
      StampSynthetic();
      var phys := Await(PhysicalClick(c.button, c.p, c.double));
      var _ := Await(Overlay);
      o := ReturnCursor(c, home, generation, phys);
    }

    method ReturnCursor(c: ClickRequest, home: Point, generation: nat, phys: Reply) returns (o: Outcome)
      requires Hooked()
      modifies this, session, human, session.tokens
      ensures Hooked() && Done(Snapshot(), o) == Return(old(Snapshot()), c, home, generation, phys)
    {
      var grabbed := HumanGrabbed(generation);
      if grabbed {
        SetPointerMode(Pointer.UserTakeover);
        var _ := Await(Overlay);
        return Reported(phys, PointerDetail.PhysicalGrabbed(TelemetryOf(human.View())));
      }
      var restore := Await(Restore(c.p, home));
      SetPointerMode(Pointer.Isolated);
      var _ := Await(Overlay);
      o := Reported(phys, PointerDetail.PhysicalReturned(restore.verdict == Yes));
    }

    // ---- the click dispatcher ----

    method OcclusionVerdict(p: Point) returns (v: Occlusion)
      requires Hooked()
      modifies this, session, human, session.tokens
      ensures Hooked()
      ensures old(session.scope.resolvedTarget).None? ==> v == NotTargetScoped && Snapshot() == old(Snapshot())
      ensures old(session.scope.resolvedTarget).Some? ==>
                Snapshot() == Ask(old(Snapshot()), HitTest(p)).world
                && v == Judge(old(session.scope.resolvedTarget).value, Ask(old(Snapshot()), HitTest(p)).reply)
      ensures old(session.scope.resolvedTarget).Some? ==>
                var (t, r) := (old(session.scope.resolvedTarget).value, Ask(old(Snapshot()), HitTest(p)).reply);
                && (v == Clear <==> SawTarget(t, r)) && (v == Blocked <==> SawAnother(t, r))
                && (v == NoWindow <==> !r.verdict.Fails? && r.window.None?) && (v == Unverifiable <==> r.verdict.Fails?)
    {
      var target := session.scope.resolvedTarget;
      if target.None? {
        return NotTargetScoped;
      }
      var hit := Await(HitTest(p));
      VerdictExactly(target.value, hit);
      if hit.verdict.Fails? {
        return Unverifiable;
      }
      match hit.window {
        case None =>
          v := NoWindow;
        case Some(top) =>
          var identityMatches := top.windowId == target.value.windowId && top.pid == target.value.pid;
          var bundleConsistent :=
            top.bundleId == "unknown" || target.value.bundleId == "unknown" || top.bundleId == target.value.bundleId;
          v := if identityMatches && bundleConsistent then Clear else Blocked;
      }
    }

    method DispatchClick(c: ClickRequest) returns (o: Outcome)
      requires Hooked()
      modifies this, session, human, session.tokens
      ensures Hooked() && Done(Snapshot(), o) == Worlds.Click(old(Snapshot()), c)
    {
      var generation := human.generation;
      var occlusion := OcclusionVerdict(c.p);
      if occlusion == NotTargetScoped || occlusion == Clear {
        o := ClickUnoccluded(c, generation);
      } else {
        o := ClickObstructed(c, generation, occlusion);
      }
    }

    method ClickObstructed(c: ClickRequest, generation: nat, verdict: Occlusion) returns (o: Outcome)
      requires Hooked()
      modifies this, session, human, session.tokens
      ensures Hooked() && Done(Snapshot(), o) == Obstructed(old(Snapshot()), c, generation, verdict)
    {
      var pid := TargetPid(session.scope);
      if verdict != Blocked || c.double || pid.None? {
        return Refused(Refusal.Occluded);
      }
      var grabbed := HumanGrabbed(generation);
      if grabbed {
        return Finished(false, Some(PointerDetail.Cancelled(TelemetryOf(human.View()))));
      }
      var ax := Await(AxPress(pid.value, c.p));
      match ax.verdict {
        case Yes =>
          StampSynthetic();
          var _ := Await(Overlay);
          o := Finished(true, Some(PointerDetail.Accessibility(Some("blocked"))));
        case No =>
          o := Refused(Refusal.Occluded);
        case Fails(m) =>
          o := Refused(OccludedAxError(m));
      }
    }

    method ClickUnoccluded(c: ClickRequest, generation: nat) returns (o: Outcome)
      requires Hooked()
      modifies this, session, human, session.tokens
      ensures Hooked() && Done(Snapshot(), o) == Unoccluded(old(Snapshot()), c, generation)
    {
      var before := HumanGrabbed(generation);
      if before {
        return Finished(false, Some(PointerDetail.Cancelled(TelemetryOf(human.View()))));
      }
      var direct := Await(DirectClick(c.p, c.button, c.double));
      match direct.verdict {
        case Yes =>
          StampSynthetic();
          var _ := Await(Overlay);
          o := Finished(true, Some(PointerDetail.Direct));
        case Fails(m) =>
          o := Refused(DriverSaid(m));
        case No =>
          var after := HumanGrabbed(generation);
          if after {
            if c.double {
              StampSynthetic();
            }
            o := Finished(false, Some(PointerDetail.Cancelled(TelemetryOf(human.View()))));
          } else {
            o := ClickDeclined(c);
          }
      }
    }

    method ClickDeclined(c: ClickRequest) returns (o: Outcome)
      requires Hooked()
      modifies this, session, human, session.tokens
      ensures Hooked() && Done(Snapshot(), o) == Declined(old(Snapshot()), c)
    {
      var policy := session.scope.policy;
      var pid := TargetPid(session.scope);
      if c.double {
        if policy != Pointer.PhysicalAllowed {
          return Refused(AxUnsupported);
        }
        o := PhysicalFallbackClick(c);
        return;
      }
      if pid.None? {
        return Refused(Unavailable);
      }
      var ax := Await(AxPress(pid.value, c.p));
      match ax.verdict {
        case Yes =>
          StampSynthetic();
          var _ := Await(Overlay);
          o := Finished(true, Some(PointerDetail.Accessibility(None)));
        case No =>
          if policy != Pointer.PhysicalAllowed {
            return Refused(Unavailable);
          }
          o := PhysicalFallbackClick(c);
        case Fails(m) =>
          o := Refused(DriverSaid(m));
      }
    }

    // ---- takeover checks ----

    method ApplyPolicy(policy: TakeoverPolicy)
      requires Hooked()
      modifies session, session.tokens
      ensures Hooked() && Snapshot() == ApplyTakeover(old(Snapshot()), policy)
    {
      match policy {
        case Ignore =>
        case AutoPause =>
          var _ := session.TransitionTo(Paused);
        case ImmediateTakeover =>
          var _ := session.TransitionTo(UserTakeover);
      }
    }

    /** The flag has been consumed: take over, mark the instant, hide the overlay. */
    method CompleteTakeover()
      requires Hooked() && !human.pendingReal
      modifies this, session, human, session.tokens
      ensures Hooked() && Snapshot() == RealTakeover(old(Snapshot()))
    {
      ghost var before := session.state;
      var _ := session.TransitionTo(UserTakeover);
      session.SyncPointerMode(UserTakeover);
      human.MarkTakeoverStarted(now);
      log := log + [Consumed(index, before, session.state, batch in session.tokens.fired)];
      var _ := Await(Overlay);
    }

    /** The checks of a boundary, and of every poll of a wait: the real channel first,
        so that its flag is consumed even though the token has already fired. */
    method CheckTakeover(tapActive: bool, policy: TakeoverPolicy) returns (stop: bool)
      requires Hooked()
      modifies this, session, human, session.tokens
      ensures Hooked() && Check(Snapshot(), stop) == TakeoverCheck(old(Snapshot()), tapActive, policy)
    {
      var taken := human.ConsumeRealTakeover();
      if taken {
        CompleteTakeover();
        return true;
      }
      if !tapActive {
        var heuristic := human.ConsumeTakeover();
        if heuristic {
          ApplyPolicy(policy);
          return true;
        }
      }
      stop := batch in session.tokens.fired
              || session.paused || session.userTakeover || session.state in {Stopping, Stopped, SessionState.Failed};
    }

    /** Sleeps until the next poll, or until the token fires. */
    method SleepOnce(deadline: Instant) returns (cut: bool)
      requires Hooked() && now < deadline
      modifies this, session, human, session.tokens
      ensures Hooked() && Waited(Snapshot(), cut) == Nap(old(Snapshot()), deadline)
    {
      var begun, nap := now, Min(deadline - now, POLL_MS);
      var slept := Await(Sleep(nap));
      cut := batch in session.tokens.fired && slept.verdict == Yes;
      if !cut {
        now := Max(now, begun + nap);
      }
    }

    method WaitFor(ms: nat, tapActive: bool, policy: TakeoverPolicy) returns (interrupted: bool)
      requires Hooked()
      modifies this, session, human, session.tokens
      ensures Hooked() && Waited(Snapshot(), interrupted) == WaitOut(old(Snapshot()), ms, tapActive, policy)
    {
      var deadline := now + ms;
      ghost var w := Snapshot();
      interrupted := false;
      while now < deadline && !interrupted
        invariant Hooked()
        invariant WaitUntil(w, deadline, tapActive, policy) ==
                  if interrupted then Waited(Snapshot(), true) else WaitUntil(Snapshot(), deadline, tapActive, policy)
        decreases !interrupted, if now < deadline then deadline - now else 0
      {
        WaitStep(Snapshot(), deadline, tapActive, policy);
        interrupted := CheckTakeover(tapActive, policy);
        if !interrupted {
          interrupted := SleepOnce(deadline);
        }
      }
    }

    // ---- gates ----

    method CheckGates(a: ComputerAction, g: ImageGeometry, last: Point) returns (r: Result<ResolvedAction, GateError>)
      requires Hooked()
      modifies this, session, human, session.tokens
      ensures Hooked() && Gated(Snapshot(), r) == Gates(old(Snapshot()), a, g, last)
      ensures forall e :: r == Err(e) <==> Refuses(old(session.scope), a, g, ReplyTo(old(Snapshot()), ReadFocus), e)
    {
      forall e: GateError {
        GatesRefuseExactly(Snapshot(), a, g, last, e);
      }
      var policy := session.scope.policy;
      if NeedsPhysical(a) && policy != Pointer.PhysicalAllowed {
        return Err(PolicyError(a, policy));
      }
      var target := session.scope.target;
      if NeedsFocus(a) && target.Some? && HasIdentity(target.value) {
        var read := Await(ReadFocus);
        var live := if read.verdict.Fails? then None else read.application;
        var (t, pid, window) := (target.value,
                                 if live.Some? then live.value.pid else None,
                                 if live.Some? then live.value.windowId else None);
        var bundleMatches := t.bundleId.None? || (live.Some? && live.value.bundleId == t.bundleId.value);
        var pidMatches := t.pid.None? || (pid.Some? && pid.value == t.pid.value);
        var windowMatches := t.windowId.None? || (window.Some? && window.value == t.windowId.value);
        if !(bundleMatches && pidMatches && windowMatches) {
          return Err(InputFocusMismatch);
        }
      }
      r := Containment(session.scope, a, g, last);
    }

    // ---- dispatch ----

    /** A Move touches only the virtual pointer and its overlay. */
    method MoveVirtually(to: Point)
      requires Hooked()
      modifies this, session, human, session.tokens
      ensures Hooked()
      ensures Snapshot() == Ask(Stamp(old(Snapshot())).(session := old(session.View()).(location := to)), Overlay).world
    {
      StampSynthetic();
      session.SetVirtualPointer(to);
      var _ := Await(Overlay);
    }

    method Post(r: ResolvedAction) returns (o: Outcome)
      requires Hooked()
      modifies this, session, human, session.tokens
      ensures Hooked() && Done(Snapshot(), o) == Posted(old(Snapshot()), r)
    {
      StampSynthetic();
      var posted := Await(Execute(r));
      o := match posted.verdict
           case Yes => Finished(true, SaidBy(posted))
           case No => Finished(false, SaidBy(posted))
           case Fails(m) => DriverError(m);
    }

    method PerformAction(r: ResolvedAction, tapActive: bool, policy: TakeoverPolicy)
      returns (o: Outcome, interrupted: bool)
      requires Hooked()
      modifies this, session, human, session.tokens
      ensures Hooked() && Performed(Snapshot(), o, interrupted) == Perform(old(Snapshot()), r, tapActive, policy)
    {
      interrupted := false;
      match r {
        case ClickAt(p, button, double) =>
          o := DispatchClick(ClickRequest(p, button, double));
        case MoveTo(_, to, _) =>
          MoveVirtually(to);
          o := Finished(true, Some(PointerDetail.Virtual));
        case WaitFor(ms) =>
          interrupted := WaitFor(ms, tapActive, policy);
          o := if interrupted then Refused(WaitInterrupted) else Finished(true, None);
        case _ =>
          o := Post(r);
      }
    }

    // ---- the loop ----

    static method FillReports(reports: seq<ActionRun>, from: nat, len: nat) returns (filled: seq<ActionRun>)
      ensures filled == FillCancelled(reports, from, len)
    {
      filled := reports;
      var j := from;
      while j < len
        invariant FillCancelled(reports, from, len) == FillCancelled(filled, j, len)
        decreases len - j
      {
        filled := filled + [CancelledRun(j)];
        j := j + 1;
      }
    }

    /** The heuristic probe after actions that do not move the pointer by design. */
    method ProbePointer(b: Batch, i: nat, reports: seq<ActionRun>, last: Point, d: Detector)
      returns (flow: Flow, t: Tally)
      requires Hooked() && i < |b.actions|
      modifies this, session, human, session.tokens
      ensures Hooked() && Led(Probe(b, Progress(old(Snapshot()), reports, last, d), i), flow, Snapshot(), t)
    {
      t := Tally(reports, last, d);
      flow := Going;
      if !b.tapActive && !MovesPointer(b.actions[i]) {
        var read := Await(ReadCursor);
        if read.verdict == Yes {
          t := t.(detector := Observed(d, read.location.x - last.x, read.location.y - last.y));
          if Triggers(t.detector) {
            ApplyPolicy(t.detector.policy);
            var filled := FillReports(reports, i + 1, |b.actions|);
            return Halted, t.(reports := filled);
          }
        }
      } else if MovesPointer(b.actions[i]) {
        t := t.(last := session.location);
      }
    }

    /** Cancelled if its wait was cut short, and otherwise as the outcome says. */
    static method Report(i: nat, o: Outcome, interrupted: bool) returns (run: ActionRun)
      ensures run == ReportWith(i, o, interrupted)
    {
      if interrupted {
        return CancelledRun(i);
      }
      match o {
        case Finished(success, detail) =>
          if success {
            run := ActionRun(i, Success, None, None);
            if detail.Some? {
              var pointer := PointerDetail.ParsePointerDetail(PointerDetail.DetailText(detail.value));
              run := run.(pointer := pointer);
            }
          } else if detail.Some? {
            run := FailedRun(i, Said(detail.value));
          } else {
            run := FailedRun(i, Said(PointerDetail.Message("action failed")));
          }
        case Refused(reason) =>
          run := FailedRun(i, Said(PointerDetail.Message(RefusalText(reason))));
        case DriverError(m) =>
          run := FailedRun(i, Driver(m));
      }
    }

    /** The action itself, its report and its trace record. */
    method DispatchAction(b: Batch, i: nat, r: ResolvedAction, reports: seq<ActionRun>, last: Point, d: Detector)
      returns (flow: Flow, t: Tally)
      requires Hooked() && i < |b.actions|
      modifies this, session, human, session.tokens
      ensures Hooked() && Led(Dispatch(b, Progress(old(Snapshot()), reports, last, d), i, r), flow, Snapshot(), t)
    {
      ghost var w := Snapshot();
      var o, interrupted := PerformAction(r, b.tapActive, d.policy);
      assert Performed(Snapshot(), o, interrupted) == Perform(w, r, b.tapActive, d.policy);
      var run := Report(i, o, interrupted);
      var more := reports + [run];
      if interrupted {
        var filled := FillReports(more, i + 1, |b.actions|);
        return Halted, Tally(filled, last, d);
      }
      if b.recording {
        var recorded := Await(RecordTrace);
        if recorded.verdict.Fails? {
          return Broken, Tally(more, last, d);
        }
      }
      flow, t := ProbePointer(b, i, more, last, d);
    }

    /** One action: its boundary, its gates, and the action itself. */
    method RunAction(b: Batch, i: nat, reports: seq<ActionRun>, last: Point, d: Detector) returns (flow: Flow, t: Tally)
      requires Hooked() && i < |b.actions|
      modifies this, session, human, session.tokens
      ensures Hooked() && Led(OneAction(b, Progress(old(Snapshot()), reports, last, d), i), flow, Snapshot(), t)
    {
      index := i;
      var stop := CheckTakeover(b.tapActive, d.policy);
      if stop {
        var filled := FillReports(reports, i, |b.actions|);
        return Halted, Tally(filled, last, d);
      }
      var gated := CheckGates(b.actions[i], b.geometry, last);
      if gated.Err? {
        var filled := FillReports(reports + [FailedRun(i, Gate(gated.error))], i + 1, |b.actions|);
        return Halted, Tally(filled, last, d);
      }
      flow, t := DispatchAction(b, i, gated.value, reports, last, d);
    }

    /** Runs the whole batch; not `ok` is the source's error from a required trace. */
    method Run(b: Batch, d: Detector) returns (ok: bool, t: Tally)
      requires Hooked()
      modifies this, session, human, session.tokens
      ensures Hooked()
      ensures BatchResult(Progress(Snapshot(), t.reports, t.last, t.detector), ok) == RunBatch(b, old(Snapshot()), d)
    {
      t := Tally([], session.location, d.(streak := 0));
      ghost var p := Progress(Snapshot(), t.reports, t.last, t.detector);
      var i, flow := 0, Going;
      while i < |b.actions| && flow == Going
        invariant Hooked() && i <= |b.actions|
        invariant Ending(b, Progress(Snapshot(), t.reports, t.last, t.detector), i, flow) == RunFrom(b, p, 0)
        decreases |b.actions| - i
      {
        ghost var before := Progress(Snapshot(), t.reports, t.last, t.detector);
        flow, t := RunAction(b, i, t.reports, t.last, t.detector);
        OneStep(b, before, i, flow, Snapshot(), t);
        i := i + 1;
      }
      ok := flow != Broken;
      Ended(b, Progress(Snapshot(), t.reports, t.last, t.detector), i, flow);
    }
  }

  /** Whether the loop goes on. */
  datatype Flow = Going | Halted | Broken

  /** What the loop carries from action to action, besides the world. */
  datatype Tally = Tally(reports: seq<ActionRun>, last: Point, detector: Detector)

  /** The step ended as the specification's `next` did. */
  ghost predicate Led(next: Next, flow: Flow, w: World, t: Tally) {
    && next.p == Progress(w, t.reports, t.last, t.detector)
    && (flow == Going <==> next.Continue?) && (flow == Halted <==> next.Stop?) && (flow == Broken <==> next.Abort?)
  }

  /** What is left of a run that stands before action `i`. */
  ghost function Ending(b: Batch, p: Progress, i: nat, flow: Flow): BatchResult
    requires i <= |b.actions|
  {
    if flow == Going then RunFrom(b, p, i) else BatchResult(p, flow == Halted)
  }

  lemma OneStep(b: Batch, p: Progress, i: nat, flow: Flow, w: World, t: Tally)
    requires i < |b.actions| && Led(OneAction(b, p, i), flow, w, t)
    ensures Ending(b, Progress(w, t.reports, t.last, t.detector), i + 1, flow) == RunFrom(b, p, i)
  {
    var next := OneAction(b, p, i);
    assert RunFrom(b, p, i) == After(b, next, i);
  }

  lemma Ended(b: Batch, p: Progress, i: nat, flow: Flow)
    requires i <= |b.actions| && (i == |b.actions| || flow != Going)
    ensures Ending(b, p, i, flow) == BatchResult(p, flow != Broken)
  {
  }
}
