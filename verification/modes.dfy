/** When the pointer's mode is the one its session's state calls for: exactly, after a
    borrow of the cursor and after a boundary or poll, with schedules that break it. */
module Modes {
  import opened Basics
  import opened Coordinates
  import opened Actions
  import opened Sessions
  import opened HumanInput
  import opened Worlds
  import opened Queues
  import opened Rules
  import opened Borrowing
  import opened Clicking
  import opened Running
  import opened Theorems
  import opened Findings
  import Pointer

  /** The pointer's mode is the one its session's state calls for. */
  predicate InStep(v: SessionView) { v.mode == ModeFor(v.state) }

  predicate Shifts(w: World, e: Event) {
    (e.HumanEvent? && Legal(w.session.state, UserTakeover)) || (e.StateRequest? && Legal(w.session.state, e.target))
  }

  /** Some event of `es` is a transition. */
  predicate EverShifts(w: World, es: seq<Event>)
    decreases |es|
  {
    es != [] && (Shifts(w, es[0]) || EverShifts(Apply(w, es[0]), es[1..]))
  }

  /** A transition happens during the await of call `c`. */
  predicate ShiftsDuring(w: World, c: Call) { EverShifts(Sent(w, c), NextTurn(w).events) }

  lemma {:induction false} EventsFallInStep(w: World, es: seq<Event>)
    ensures InStep(ApplyAll(w, es).session) <==> InStep(w.session) || EverShifts(w, es)
    decreases |es|
  {
    if es != [] {
      EventsFallInStep(Apply(w, es[0]), es[1..]);
      if Shifts(w, es[0]) {
        assert InStep(Apply(w, es[0]).session);
      }
    }
  }

  lemma AskFallsInStep(w: World, c: Call)
    ensures InStep(Ask(w, c).world.session) <==> InStep(w.session) || ShiftsDuring(w, c)
  {
    EventsFallInStep(Sent(w, c), NextTurn(w).events);
  }

  // ---- the borrow ----

  /** The world as a borrow last set the pointer's mode, if it set one: UserTakeover when
      the warp failed or the user was seen to take over, Isolated after a restore. */
  function Settled(w: World, c: ClickRequest): Option<World> {
    if NotLent(w) then None
    else
      var v := Looked(w);
      var warping := Warping(v, c, w.cursor);
      if WarpEntry(v, c, w.cursor).reply.verdict != Yes || Grabbed(warping, v.human.generation) then
        Some(SetMode(warping, Pointer.UserTakeover))
      else if Grabbed(Rippled(warping, c), v.human.generation) then
        Some(SetMode(Rippled(warping, c), Pointer.UserTakeover))
      else Some(SetMode(Ask(Rippled(warping, c), Restore(c.p, w.cursor)).world, Pointer.Isolated))
  }

  lemma BorrowSettles(w: World, c: ClickRequest)
    ensures var d := PhysicalFallback(w, c);
            d.world == if Settled(w, c).Some? then Ask(Settled(w, c).value, Overlay).world else Looked(w)
  {
  }

  // ---- the schedule of a borrow ----

  function EventsAt(turns: seq<Turn>, i: nat): seq<Event> { if i < |turns| then turns[i].events else [] }

  function VerdictAt(turns: seq<Turn>, i: nat): Verdict { if i < |turns| then turns[i].reply.verdict else Yes }

  function ElapsedAt(turns: seq<Turn>, i: nat): nat { if i < |turns| then turns[i].elapsed else 0 }

  /** A session's state and its batch's token, as a schedule's events alone make them. */
  datatype Course = Course(state: SessionState, fired: bool)

  /** The state an event asks for. */
  function AskedFor(e: Event): Option<SessionState> {
    match e
    case HumanEvent(_, _) => Some(UserTakeover)
    case StateRequest(target) => Some(target)
    case _ => None
  }

  predicate Moves(s: SessionState, e: Event) { AskedFor(e).Some? && Legal(s, AskedFor(e).value) }

  function Met(batch: nat, s: Course, e: Event): Course {
    var moves := Moves(s.state, e);
    Course(if moves then AskedFor(e).value else s.state,
           || s.fired || e.HumanEvent? || e.CancelSession? || (e.CancelToken? && e.t == batch)
           || (moves && Halts(AskedFor(e).value)))
  }

  function Through(batch: nat, s: Course, es: seq<Event>): Course
    decreases |es|
  {
    if es == [] then s else Through(batch, Met(batch, s, es[0]), es[1..])
  }

  /** Some event of `es` is a transition. */
  predicate Transits(batch: nat, s: Course, es: seq<Event>)
    decreases |es|
  {
    es != [] && (Moves(s.state, es[0]) || Transits(batch, Met(batch, s, es[0]), es[1..]))
  }

  /** Where `n` awaits of the schedule lead an Active session with a live token. */
  function CourseAt(w: World, n: nat): Course {
    if n == 0 then Course(Active, false) else Through(w.batch, CourseAt(w, n - 1), EventsAt(w.turns, n - 1))
  }

  /** `v` is at `s`, with its batch registered, and no input event since generation `g`
      unless the token has fired. */
  predicate Tracks(v: World, s: Course, g: nat) {
    && v.session.state == s.state && Fired(v) == s.fired
    && v.batch in v.session.batchTokens && v.batch < v.issued
    && (s.fired || v.human.generation == g)
  }

  lemma EventTracks(v: World, s: Course, g: nat, e: Event)
    requires Tracks(v, s, g)
    ensures Tracks(Apply(v, e), Met(v.batch, s, e), g) && Apply(v, e).batch == v.batch
    ensures Shifts(v, e) <==> Moves(s.state, e)
    ensures !Fired(Apply(v, e)) ==> Apply(v, e).human.lastHuman == v.human.lastHuman
  {
  }

  lemma {:induction false} EventsTrack(v: World, s: Course, g: nat, es: seq<Event>)
    requires Tracks(v, s, g)
    ensures Tracks(ApplyAll(v, es), Through(v.batch, s, es), g) && ApplyAll(v, es).batch == v.batch
    ensures EverShifts(v, es) <==> Transits(v.batch, s, es)
    ensures !Fired(ApplyAll(v, es)) ==> !s.fired && ApplyAll(v, es).human.lastHuman == v.human.lastHuman
    decreases |es|
  {
    if es != [] {
      EventTracks(v, s, g, es[0]);
      EventsTrack(Apply(v, es[0]), Met(v.batch, s, es[0]), g, es[1..]);
    }
  }

  /** `v` has come through the first `n` awaits of `w`'s schedule. */
  predicate Along(w: World, v: World, n: nat, g: nat) {
    && Tracks(v, CourseAt(w, n), g) && v.batch == w.batch
    && v.turns == if n <= |w.turns| then w.turns[n..] else []
  }

  lemma AskAlong(w: World, v: World, n: nat, g: nat, c: Call)
    requires Along(w, v, n, g)
    ensures var a := Ask(v, c);
            && Along(w, a.world, n + 1, g)
            && (ShiftsDuring(v, c) <==> Transits(w.batch, CourseAt(w, n), EventsAt(w.turns, n)))
            && (a.reply.verdict == Yes <==>
                  VerdictAt(w.turns, n) == Yes && !((c.Warp? || c.Restore?) && CourseAt(w, n).fired))
            && (!CourseAt(w, n + 1).fired ==> a.world.human.lastHuman == v.human.lastHuman)
  {
    assert NextTurn(v).events == EventsAt(w.turns, n) && NextTurn(v).reply.verdict == VerdictAt(w.turns, n);
    EventsTrack(Sent(v, c), CourseAt(w, n), g, EventsAt(w.turns, n));
  }

  /** A transition comes during the `n`-th await. */
  predicate MovesAt(w: World, n: nat) { Transits(w.batch, CourseAt(w, n), EventsAt(w.turns, n)) }

  lemma ModeAlong(w: World, v: World, n: nat, g: nat, m: Pointer.PointerMode)
    requires Along(w, v, n, g)
    ensures Along(w, SetMode(v, m), n, g) && Along(w, Stamp(v), n, g)
  {
  }

  /** A mode is set and the overlay follows: they agree in the end exactly when the mode is
      the one the state calls for, or a transition comes with the overlay. */
  lemma EndsAlong(w: World, v: World, n: nat, g: nat, m: Pointer.PointerMode)
    requires Along(w, v, n, g)
    ensures InStep(Ask(SetMode(v, m), Overlay).world.session) <==> m == ModeFor(CourseAt(w, n).state) || MovesAt(w, n)
  {
    ModeAlong(w, v, n, g, m);
    AskAlong(w, SetMode(v, m), n, g, Overlay);
    AskFallsInStep(SetMode(v, m), Overlay);
  }

  /** The start of a borrow: an Active session shown as it is, with its batch live. */
  predicate Live(w: World) {
    && w.session.state == Active && InStep(w.session) && !Fired(w)
    && w.batch in w.session.batchTokens && w.batch < w.issued
  }

  lemma LiveAlong(w: World)
    requires Live(w)
    ensures Along(w, w, 0, w.human.generation)
  {
    assert w.turns[0..] == w.turns;
  }

  /** The user has used the mouse less than two seconds before the end of the read. */
  predicate AtTheMouse(w: World) {
    w.human.lastHuman.Some? && w.now + ElapsedAt(w.turns, 0) < w.human.lastHuman.value + 2000
  }

  /** Nothing is lent when the cursor cannot be read, the token fires during the read, or
      the user is at the mouse. */
  predicate KeptBack(w: World) { VerdictAt(w.turns, 0) != Yes || CourseAt(w, 1).fired || AtTheMouse(w) }

  lemma LooksAlong(w: World)
    requires Live(w)
    ensures Along(w, Looked(w), 1, w.human.generation) && (NotLent(w) <==> KeptBack(w))
    ensures NotLent(w) ==> InStep(Looked(w).session)
    ensures !NotLent(w) ==> Looked(w).human.generation == w.human.generation
  {
    LiveAlong(w);
    AskAlong(w, w, 0, w.human.generation, ReadCursor);
    AskFallsInStep(w, ReadCursor);
    IdleGuardIs(Looked(w));
  }

  /** The warp is refused, or fails, or the token fires by its end. */
  predicate StoppedAtWarp(w: World) { VerdictAt(w.turns, 2) != Yes || CourseAt(w, 3).fired }

  lemma WarpAlong(w: World, v: World, c: ClickRequest, home: Point, g: nat)
    requires Along(w, v, 1, g)
    ensures Along(w, Warping(v, c, home), 3, g)
    ensures WarpEntry(v, c, home).reply.verdict != Yes || Grabbed(Warping(v, c, home), g) <==> StoppedAtWarp(w)
  {
    ModeAlong(w, v, 1, g, Pointer.PhysicalFallback);
    AskAlong(w, SetMode(v, Pointer.PhysicalFallback), 1, g, Overlay);
    ModeAlong(w, Shown(v), 2, g, Pointer.PhysicalFallback);
    AskAlong(w, Stamp(Shown(v)), 2, g, Warp(home, c.p));
    StaysFired(w, 2);
  }

  lemma StaysFired(w: World, n: nat)
    ensures CourseAt(w, n).fired ==> CourseAt(w, n + 1).fired
  {
    FiredThrough(w.batch, CourseAt(w, n), EventsAt(w.turns, n));
  }

  lemma {:induction false} FiredThrough(batch: nat, s: Course, es: seq<Event>)
    ensures s.fired ==> Through(batch, s, es).fired
    decreases |es|
  {
    if es != [] {
      FiredThrough(batch, Met(batch, s, es[0]), es[1..]);
    }
  }

  lemma ClickAlong(w: World, v: World, c: ClickRequest, g: nat)
    requires Along(w, v, 3, g)
    ensures Along(w, Rippled(v, c), 5, g) && (Grabbed(Rippled(v, c), g) <==> CourseAt(w, 5).fired)
  {
    var click := PhysicalClick(c.button, c.p, c.double);
    ModeAlong(w, v, 3, g, v.session.mode);
    AskAlong(w, Stamp(v), 3, g, click);
    AskAlong(w, Ask(Stamp(v), click).world, 4, g, Overlay);
  }

  /** The condition, on the schedule of the awaits: 0 reads the cursor, 1 shows the overlay,
      2 warps and 3 hides it if that failed; else 3 clicks, 4 plays the ripple and 5 hides
      the overlay if the user took over; else 5 restores and 6 shows it again. */
  predicate StaysInStep(w: World) {
    if KeptBack(w) then true
    else if StoppedAtWarp(w) then CourseAt(w, 3).state == UserTakeover || MovesAt(w, 3)
    else if CourseAt(w, 5).fired then CourseAt(w, 5).state == UserTakeover || MovesAt(w, 5)
    else CourseAt(w, 6).state !in {Paused, UserTakeover} || MovesAt(w, 6)
  }

  /** After a borrow begun in step, mode and state agree exactly when
      - nothing was lent; or
      - the warp failed or the token fired by its end, or the user took over by the end of
        the click, and the session is then in UserTakeover or moves as the overlay hides; or
      - the cursor was restored, and the session is then neither paused nor taken over or
        moves as the overlay shows. */
  lemma BorrowModeExactly(w: World, c: ClickRequest)
    requires Live(w)
    ensures InStep(PhysicalFallback(w, c).world.session) <==> StaysInStep(w)
  {
    var (v, g) := (Looked(w), w.human.generation);
    BorrowSettles(w, c);
    LooksAlong(w);
    if !NotLent(w) {
      WarpAlong(w, v, c, w.cursor, g);
      EndsAlong(w, Warping(v, c, w.cursor), 3, g, Pointer.UserTakeover);
      if !StoppedAtWarp(w) {
        LentEndsInStep(w, v, c, g);
      }
    }
  }

  /** From the ripple on: the overlay hides, or the cursor is restored and it shows. */
  function Back(u: World, c: ClickRequest, home: Point, grabbed: bool): World {
    if grabbed then SetMode(u, Pointer.UserTakeover)
    else SetMode(Ask(u, Restore(c.p, home)).world, Pointer.Isolated)
  }

  lemma SettledBack(w: World, c: ClickRequest)
    requires !NotLent(w)
    requires var (v, warping) := (Looked(w), Warping(Looked(w), c, w.cursor));
             WarpEntry(v, c, w.cursor).reply.verdict == Yes && !Grabbed(warping, v.human.generation)
    ensures var u := Rippled(Warping(Looked(w), c, w.cursor), c);
            Settled(w, c) == Some(Back(u, c, w.cursor, Grabbed(u, Looked(w).human.generation)))
  {
  }

  lemma BackInStep(w: World, u: World, c: ClickRequest, home: Point, g: nat)
    requires Along(w, u, 5, g)
    ensures InStep(Ask(Back(u, c, home, CourseAt(w, 5).fired), Overlay).world.session)
       <==> if CourseAt(w, 5).fired then CourseAt(w, 5).state == UserTakeover || MovesAt(w, 5)
            else CourseAt(w, 6).state !in {Paused, UserTakeover} || MovesAt(w, 6)
  {
    if CourseAt(w, 5).fired {
      EndsAlong(w, u, 5, g, Pointer.UserTakeover);
    } else {
      AskAlong(w, u, 5, g, Restore(c.p, home));
      EndsAlong(w, Ask(u, Restore(c.p, home)).world, 6, g, Pointer.Isolated);
    }
  }

  lemma LentEndsInStep(w: World, v: World, c: ClickRequest, g: nat)
    requires Along(w, v, 1, g) && v == Looked(w) && g == v.human.generation && !NotLent(w) && !StoppedAtWarp(w)
    ensures Settled(w, c).Some?
    ensures InStep(Ask(Settled(w, c).value, Overlay).world.session)
       <==> if CourseAt(w, 5).fired then CourseAt(w, 5).state == UserTakeover || MovesAt(w, 5)
            else CourseAt(w, 6).state !in {Paused, UserTakeover} || MovesAt(w, 6)
  {
    var warping := Warping(v, c, w.cursor);
    WarpAlong(w, v, c, w.cursor, g);
    ClickAlong(w, warping, c, g);
    SettledBack(w, c);
    BackInStep(w, Rippled(warping, c), c, w.cursor, g);
  }

  // ---- boundaries and polls ----

  /** After a boundary or poll, mode and state agree exactly when: with a real event
      pending, the session can still be taken over or is already, or a transition comes as
      the overlay hides; otherwise when they agreed before, or the heuristic's policy made
      a transition. */
  lemma CheckModeExactly(w: World, tapActive: bool, policy: TakeoverPolicy)
    ensures InStep(TakeoverCheck(w, tapActive, policy).world.session) <==>
            if w.human.pendingReal then
              w.session.state in {Active, Paused, UserTakeover} || ShiftsDuring(Marked(w), Overlay)
            else
              || InStep(w.session)
              || (!tapActive && w.human.pendingHeuristic &&
                  ((policy == AutoPause && Legal(w.session.state, Paused))
                   || (policy == ImmediateTakeover && Legal(w.session.state, UserTakeover))))
  {
    if w.human.pendingReal {
      RealTakeoverIs(w);
      AskFallsInStep(Marked(w), Overlay);
    }
  }

  // ---- whole runs without a borrow ----

  /** Told from the log: the last boundary or poll to consume a real event found the session
      stopped, and no transition came after it. */
  predicate Astray(log: seq<Entry>)
    decreases |log|
  {
    log != [] &&
    var last := log[|log| - 1];
    if last.Consumed? then last.after != UserTakeover
    else !(last.Happened? && Moves(last.before, last.event)) && Astray(log[..|log| - 1])
  }

  /** Mode and state agree unless the log says that they went astray, and then the session
      is stopped. */
  predicate Orderly(w: World) {
    var orderly :=
      && w.session.scope.policy != Pointer.PhysicalAllowed && w.session.state != Starting
      && (InStep(w.session) <==> !Astray(w.log))
      && (Astray(w.log) ==> w.session.state in {Stopping, Stopped, SessionState.Failed});
    orderly
  }

  lemma AstrayAppend(log: seq<Entry>, e: Entry)
    ensures Astray(log + [e]) <==>
              if e.Consumed? then e.after != UserTakeover
              else !(e.Happened? && Moves(e.before, e.event)) && Astray(log)
  {
    InitOf(log, e);
  }

  lemma EffectModes(w: World, e: Event)
    ensures var (v, u) := (w.session, Effect(w, e).session);
            && u.scope == v.scope && Effect(w, e).log == w.log
            && (if Moves(v.state, e) then u.state == AskedFor(e).value && InStep(u)
                else u.state == v.state && u.mode == v.mode)
  {
  }

  lemma ApplyOrderly(w: World, e: Event)
    requires Orderly(w)
    ensures Orderly(Apply(w, e))
  {
    var u := Effect(w, e);
    EffectModes(w, e);
    AstrayAppend(w.log, Happened(w.index, e, w.session.state, u.session.state, Fired(u)));
  }

  lemma {:induction false} EventsOrderly(w: World, es: seq<Event>)
    requires Orderly(w)
    ensures Orderly(ApplyAll(w, es))
    decreases |es|
  {
    if es != [] {
      ApplyOrderly(w, es[0]);
      EventsOrderly(Apply(w, es[0]), es[1..]);
    }
  }

  lemma AskOrderly(w: World, c: Call)
    requires Orderly(w)
    ensures Orderly(Ask(w, c).world) && Orderly(Stamp(w))
  {
    AstrayAppend(w.log, Made(w.index, c, ReplyTo(w, c), Fired(w), w.human.syntheticCount));
    EventsOrderly(Sent(w, c), NextTurn(w).events);
  }

  lemma MarkedOrderly(w: World)
    requires Orderly(w)
    ensures Orderly(Marked(w))
  {
    AstrayAppend(w.log, Consumption(w));
  }

  lemma TakenOrderly(w: World, policy: TakeoverPolicy)
    requires Orderly(w)
    ensures Orderly(ApplyTakeover(w, policy))
    ensures Orderly(ApplyTakeover(w.(human := w.human.(pendingHeuristic := false)), policy))
  {
  }

  lemma CheckOrderly(w: World, tapActive: bool, policy: TakeoverPolicy)
    requires Orderly(w)
    ensures Orderly(TakeoverCheck(w, tapActive, policy).world)
  {
    if w.human.pendingReal {
      RealTakeoverIs(w);
      MarkedOrderly(w);
      AskOrderly(Marked(w), Overlay);
    } else {
      TakenOrderly(w, policy);
    }
  }

  lemma {:induction false} WaitOrderly(w: World, deadline: Instant, tapActive: bool, policy: TakeoverPolicy)
    requires Orderly(w)
    ensures Orderly(WaitUntil(w, deadline, tapActive, policy).world)
    decreases if w.now < deadline then deadline - w.now else 0
  {
    if w.now < deadline {
      WaitStep(w, deadline, tapActive, policy);
      CheckOrderly(w, tapActive, policy);
      if !TakeoverCheck(w, tapActive, policy).stop {
        NapIs(w, deadline);
        AskOrderly(w, Sleep(Min(deadline - w.now, POLL_MS)));
        if !Nap(w, deadline).interrupted {
          WaitOrderly(Nap(w, deadline).world, deadline, tapActive, policy);
        }
      }
    }
  }

  lemma DeclinedOrderly(w: World, c: ClickRequest)
    requires Orderly(w)
    ensures Orderly(Declined(w, c).world)
  {
    var pid := TargetPid(w.session.scope);
    if !c.double && pid.Some? {
      var v := Pressed(w, c, pid.value);
      DeclinedIs(w, c, pid.value);
      AskOrderly(w, AxPress(pid.value, c.p));
      AskOrderly(v, Overlay);
      AskOrderly(Stamp(v), Overlay);
    }
  }

  lemma UnoccludedOrderly(w: World, c: ClickRequest, generation: nat)
    requires Orderly(w)
    ensures Orderly(Unoccluded(w, c, generation).world)
  {
    if !Grabbed(w, generation) {
      var v := Struck(w, c);
      AskOrderly(w, DirectClick(c.p, c.button, c.double));
      AskOrderly(v, Overlay);
      AskOrderly(Stamp(v), Overlay);
      DeclinedOrderly(v, c);
    }
  }

  lemma ObstructedOrderly(w: World, c: ClickRequest, generation: nat, verdict: Occlusion)
    requires Orderly(w)
    ensures Orderly(Obstructed(w, c, generation, verdict).world)
  {
    var pid := TargetPid(w.session.scope);
    if verdict == Blocked && !c.double && pid.Some? && !Grabbed(w, generation) {
      var v := Pressed(w, c, pid.value);
      ObstructedIs(w, c, generation, pid.value);
      AskOrderly(w, AxPress(pid.value, c.p));
      AskOrderly(v, Overlay);
      AskOrderly(Stamp(v), Overlay);
    }
  }

  lemma ClickOrderly(w: World, c: ClickRequest)
    requires Orderly(w)
    ensures Orderly(Worlds.Click(w, c).world)
  {
    var v := Ask(w, HitTest(c.p)).world;
    AskOrderly(w, HitTest(c.p));
    UnoccludedOrderly(w, c, w.human.generation);
    UnoccludedOrderly(v, c, w.human.generation);
    if w.session.scope.resolvedTarget.Some? {
      ObstructedOrderly(v, c, w.human.generation,
                        Judge(w.session.scope.resolvedTarget.value, Ask(w, HitTest(c.p)).reply));
    }
  }

  lemma MoveOrderly(w: World, to: Point)
    requires Orderly(w)
    ensures Orderly(Ask(Stamp(w).(session := w.session.(location := to)), Overlay).world)
  {
    AskOrderly(Stamp(w).(session := w.session.(location := to)), Overlay);
  }

  lemma WaitOutOrderly(w: World, ms: nat, tapActive: bool, policy: TakeoverPolicy)
    requires Orderly(w)
    ensures Orderly(WaitOut(w, ms, tapActive, policy).world)
  {
    WaitOutIs(w, ms, tapActive, policy);
    WaitOrderly(w, w.now + ms, tapActive, policy);
  }

  lemma PostedOrderly(w: World, r: ResolvedAction)
    requires Orderly(w)
    ensures Orderly(Posted(w, r).world)
  {
    AskOrderly(w, Overlay);
    AskOrderly(Stamp(w), Execute(r));
  }

  lemma PerformOrderly(w: World, r: ResolvedAction, tapActive: bool, policy: TakeoverPolicy)
    requires Orderly(w)
    ensures Orderly(Perform(w, r, tapActive, policy).world)
  {
    match r
    case ClickAt(p, button, double) => ClickOrderly(w, ClickRequest(p, button, double));
    case MoveTo(_, to, _) => MoveOrderly(w, to);
    case WaitFor(ms) => WaitOutOrderly(w, ms, tapActive, policy);
    case _ => PostedOrderly(w, r);
  }

  lemma ProbeOrderly(b: Batch, p: Progress, i: nat)
    requires i < |b.actions| && Orderly(p.world)
    ensures Orderly(Probe(b, p, i).p.world)
  {
    var v := Ask(p.world, ReadCursor).world;
    AskOrderly(p.world, ReadCursor);
    TakenOrderly(v, p.detector.policy);
    ProbeEnds(b, p, i);
  }

  /** Where a probe leaves the world: alone, or after its read, or taken over. */
  lemma ProbeEnds(b: Batch, p: Progress, i: nat)
    requires i < |b.actions|
    ensures var (v, u) := (Ask(p.world, ReadCursor).world, Probe(b, p, i).p.world);
            u == p.world || u == v || u == ApplyTakeover(v, p.detector.policy)
  {
  }

  lemma DispatchOrderly(b: Batch, p: Progress, i: nat, r: ResolvedAction)
    requires i < |b.actions| && Orderly(p.world)
    ensures Orderly(Dispatch(b, p, i, r).p.world)
  {
    var done := Perform(p.world, r, b.tapActive, p.detector.policy);
    var after := p.(world := done.world, reports := p.reports + [ReportOf(i, done)]);
    PerformOrderly(p.world, r, b.tapActive, p.detector.policy);
    AskOrderly(done.world, RecordTrace);
    ProbeOrderly(b, after, i);
    ProbeOrderly(b, after.(world := Ask(done.world, RecordTrace).world), i);
  }

  lemma OneActionOrderly(b: Batch, p: Progress, i: nat)
    requires i < |b.actions| && Orderly(p.world)
    ensures Orderly(OneAction(b, p, i).p.world)
  {
    var w := p.world.(index := i);
    CheckOrderly(w, b.tapActive, p.detector.policy);
    AskOrderly(w, ReadFocus);
    var check := TakeoverCheck(w, b.tapActive, p.detector.policy);
    if !check.stop {
      var gated := Gates(w, b.actions[i], b.geometry, p.last);
      if gated.verdict.Ok? {
        DispatchOrderly(b, p.(world := gated.world), i, gated.verdict.value);
      }
    }
  }

  lemma {:induction false} RunOrderly(b: Batch, p: Progress, i: nat)
    requires i <= |b.actions| && Orderly(p.world)
    ensures Orderly(RunFrom(b, p, i).p.world)
    decreases |b.actions| - i, 0
  {
    if i < |b.actions| {
      OneActionOrderly(b, p, i);
      AfterOrderly(b, OneAction(b, p, i), i);
    }
  }

  lemma {:induction false} AfterOrderly(b: Batch, next: Next, i: nat)
    requires i < |b.actions| && Orderly(next.p.world)
    ensures Orderly(After(b, next, i).p.world)
    decreases |b.actions| - i - 1, 1
  {
    if next.Continue? {
      RunOrderly(b, next.p, i + 1);
    }
  }

  /** Under any policy that does not lend the cursor, a run that starts in step ends in step
      exactly when no boundary or poll consumed a real event of a stopped session, or a
      transition came after it. */
  lemma RunEndsInStepExactly(b: Batch, w: World, d: Detector)
    requires w.log == [] && InStep(w.session) && w.session.state != Starting
    requires w.session.scope.policy != Pointer.PhysicalAllowed
    ensures var v := RunBatch(b, w, d).p.world; InStep(v.session) <==> !Astray(v.log)
  {
    RunOrderly(b, Progress(w, [], w.session.location, d.(streak := 0)), 0);
  }

  // ---- schedules that break it ----

  /** A quiet answer. */
  function Says(v: Verdict): Turn { Turn(Reply(v, None, ORIGIN, None, None), 0, []) }

  const LENT: Scope := Scope(Pointer.PhysicalAllowed, None, None, None)

  /** A live, undisturbed world under LENT whose schedule is `turns`. */
  predicate Plain(w: World, m: Pointer.PointerMode, turns: seq<Turn>) {
    && w.session == SessionView(Active, false, false, m, ORIGIN, [0], LENT)
    && w.fired == {} && w.batch == 0 && w.human.generation == 0 && w.human.lastHuman == None
    && w.turns == turns
  }

  lemma PlainAsk(w: World, c: Call, m: Pointer.PointerMode, t: Turn, rest: seq<Turn>)
    requires Plain(w, m, [t] + rest) && t.events == []
    ensures Plain(Ask(w, c).world, m, rest) && Ask(w, c).reply.verdict == t.reply.verdict
  {
    assert ([t] + rest)[1..] == rest;
  }

  /** A declined direct double click under PhysicalAllowed goes on to borrow the cursor. */
  lemma DoubleBorrows(w: World, c: ClickRequest, rest: seq<Turn>)
    requires Plain(w, Pointer.Isolated, [Says(No)] + rest) && c.double
    ensures var v := Struck(w, c);
            Plain(v, Pointer.Isolated, rest) && Worlds.Click(w, c) == PhysicalFallback(v, c)
  {
    PlainAsk(w, DirectClick(c.p, c.button, c.double), Pointer.Isolated, Says(No), rest);
  }

  lemma PlainLends(w: World, rest: seq<Turn>)
    requires Plain(w, Pointer.Isolated, [Says(Yes)] + rest)
    ensures !NotLent(w) && Plain(Looked(w), Pointer.Isolated, rest)
  {
    PlainAsk(w, ReadCursor, Pointer.Isolated, Says(Yes), rest);
  }

  lemma PlainWarps(w: World, c: ClickRequest, home: Point, answer: Verdict, rest: seq<Turn>)
    requires Plain(w, Pointer.Isolated, [Says(Yes)] + ([Says(answer)] + rest))
    ensures Plain(Warping(w, c, home), Pointer.PhysicalFallback, rest)
    ensures WarpEntry(w, c, home).reply.verdict == answer
  {
    PlainAsk(SetMode(w, Pointer.PhysicalFallback), Overlay, Pointer.PhysicalFallback, Says(Yes), [Says(answer)] + rest);
    PlainAsk(Stamp(Shown(w)), Warp(home, c.p), Pointer.PhysicalFallback, Says(answer), rest);
  }

  lemma PlainPresses(w: World, c: ClickRequest, rest: seq<Turn>)
    requires Plain(w, Pointer.PhysicalFallback, [Says(Yes)] + ([Says(Yes)] + rest))
    ensures Plain(Rippled(w, c), Pointer.PhysicalFallback, rest)
  {
    var click := PhysicalClick(c.button, c.p, c.double);
    PlainAsk(Stamp(w), click, Pointer.PhysicalFallback, Says(Yes), [Says(Yes)] + rest);
    PlainAsk(Ask(Stamp(w), click).world, Overlay, Pointer.PhysicalFallback, Says(Yes), rest);
  }

  /** Declined, read, shown, and then the warp fails: nobody has touched the machine. */
  function FailedWarp(): seq<Turn> { [Says(No)] + ([Says(Yes)] + ([Says(Yes)] + ([Says(No)] + []))) }

  /** Declined, read, shown, warped, clicked, rippled, and `last` during the restore. */
  function FullBorrow(last: Turn): seq<Turn> {
    [Says(No)] + ([Says(Yes)] + ([Says(Yes)] + ([Says(Yes)] + ([Says(Yes)] + ([Says(Yes)] + [last])))))
  }

  /** A double click whose warp the driver refuses, in a session that stays Active and with
      no event at all, leaves the pointer shown as taken over. */
  lemma FailedWarpShowsATakeover(c: ClickRequest)
    requires c.double
    ensures var v := Worlds.Click(Ordinary(LENT, FailedWarp()), c).world;
            v.session.state == Active && v.session.mode == Pointer.UserTakeover && !Fired(v)
  {
    var w := Ordinary(LENT, FailedWarp());
    var (u, home) := (Struck(w, c), Struck(w, c).cursor);
    DoubleBorrows(w, c, [Says(Yes)] + ([Says(Yes)] + ([Says(No)] + [])));
    PlainLends(u, [Says(Yes)] + ([Says(No)] + []));
    PlainWarps(Looked(u), c, home, No, []);
    BorrowSettles(u, c);
  }

  /** Where a full borrow stands when it is about to restore. */
  lemma ReachesRestore(c: ClickRequest, last: Turn) returns (r: World)
    requires c.double
    ensures Plain(r, Pointer.PhysicalFallback, [last])
    ensures var d := Worlds.Click(Ordinary(LENT, FullBorrow(last)), c);
            && r == Rippled(Warping(Looked(Struck(Ordinary(LENT, FullBorrow(last)), c)), c, ORIGIN), c)
            && d.world == Ask(SetMode(Ask(r, Restore(c.p, ORIGIN)).world, Pointer.Isolated), Overlay).world
  {
    var w := Ordinary(LENT, FullBorrow(last));
    var u := Struck(w, c);
    DoubleBorrows(w, c, [Says(Yes)] + ([Says(Yes)] + ([Says(Yes)] + ([Says(Yes)] + ([Says(Yes)] + [last])))));
    PlainLends(u, [Says(Yes)] + ([Says(Yes)] + ([Says(Yes)] + ([Says(Yes)] + [last]))));
    PlainWarps(Looked(u), c, ORIGIN, Yes, [Says(Yes)] + ([Says(Yes)] + [last]));
    PlainPresses(Warping(Looked(u), c, ORIGIN), c, [last]);
    BorrowSettles(u, c);
    r := Rippled(Warping(Looked(u), c, ORIGIN), c);
  }

  function Grab(): Turn { Turn(Reply(Yes, None, ORIGIN, None, None), 0, [HumanEvent(0, ORIGIN)]) }

  /** The user grabs the mouse during the restore of a double click: the session ends in
      UserTakeover, and the pointer is shown as Isolated. */
  lemma RestoreHidesATakeover(c: ClickRequest)
    requires c.double
    ensures var v := Worlds.Click(Ordinary(LENT, FullBorrow(Grab())), c).world;
            v.session.state == UserTakeover && v.session.mode == Pointer.Isolated
  {
    var r := ReachesRestore(c, Grab());
    OneEvent(Sent(r, Restore(c.p, ORIGIN)), HumanEvent(0, ORIGIN));
  }

  /** The user grabs the mouse and the session is stopped, both while an action types: at
      the next boundary the stopped session's pointer is shown as taken over. */
  lemma AStoppedSessionIsShownTakenOver(text: string, b: Batch, d: Detector)
    requires |b.actions| > 1 && b.actions[0] == TypeText(text, Keyboard) && b.tapActive && !b.recording
    ensures var events := [HumanEvent(0, ORIGIN), StateRequest(Stopped)];
            var v := RunBatch(b, Ordinary(UNSCOPED, During(events)), d).p.world;
            v.session.state == Stopped && v.session.mode == Pointer.UserTakeover
  {
    var events := [HumanEvent(0, ORIGIN), StateRequest(Stopped)];
    var w := Ordinary(UNSCOPED, During(events));
    var p := Progress(w, [], ORIGIN, d.(streak := 0));
    TypesFirst(b, text, events, d.(streak := 0));
    var typed := Sent(Stamp(w), Execute(TypeKeys(text, Keyboard)));
    assert events[1..] == [StateRequest(Stopped)];
    OneEvent(Apply(typed, events[0]), StateRequest(Stopped));
    var q := OneAction(b, p, 0).p;
    assert RunFrom(b, p, 0) == After(b, OneAction(b, p, 0), 0);
    StopsHere(b, q, 1);
    RealTakeoverIs(q.world.(index := 1));
  }

  lemma StopsHere(b: Batch, p: Progress, i: nat)
    requires i < |b.actions| && p.world.human.pendingReal
    ensures RunFrom(b, p, i).p.world == RealTakeover(p.world.(index := i))
  {
    assert RunFrom(b, p, i) == After(b, OneAction(b, p, i), i);
  }
}
