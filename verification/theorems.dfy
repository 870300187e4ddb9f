/** What every run of a batch guarantees, whatever the driver answers and whatever
    happens during each await. */
module Theorems {
  import opened Basics
  import opened Coordinates
  import opened Actions
  import opened Sessions
  import opened HumanInput
  import opened Worlds
  import opened Queues
  import opened Rules
  import opened Safety
  import opened Borrowing
  import opened Clicking
  import opened Running
  import opened Reporting
  import Pointer
  import PointerDetail

  /** A batch about to run: registered with its session, an empty log, and the real
      flag as it happens to be. */
  ghost predicate Started(j: Job, b: Batch, w: World) {
    var started :=
      && MadeFor(j, b) && w.batch == j.batch && w.session.scope == j.scope
      && j.batch in w.session.batchTokens && (forall t :: t in w.session.batchTokens ==> t < w.issued)
      && Coherent(w.session) && w.session.mode != Pointer.PhysicalFallback
      && w.log == [] && w.pendedBefore == w.human.pendingReal;
    started
  }

  lemma StartsBetween(j: Job, b: Batch, w: World)
    requires Started(j, b, w)
    ensures Between(j, w, 0) && Tidy([], 0) && Fresh(w.log, 0)
  {
  }

  /** Every run is sound; the fallback mode is never left behind; the session's state
      and flags stay coherent; and an Ok run reports well. */
  lemma EveryRunIsSound(j: Job, b: Batch, w: World, d: Detector)
    requires Started(j, b, w)
    ensures var r := RunBatch(b, w, d);
            && Sound(j, r.p.world.log)
            && r.p.world.session.mode != Pointer.PhysicalFallback
            && (SessionAborted(r.p.world.session) <==> r.p.world.session.state != Active)
            && WellReported(|b.actions|, r)
  {
    var p := Progress(w, [], w.session.location, d.(streak := 0));
    StartsBetween(j, b, w);
    RunKeeps(j, b, p, 0);
    RunReports(j, b, p, 0);
  }

  /** Without PhysicalAllowed, the real cursor is where the user left it. */
  lemma CursorStaysWithTheUser(j: Job, b: Batch, w: World, d: Detector)
    requires Started(j, b, w) && j.scope.policy != Pointer.PhysicalAllowed
    ensures var v := RunBatch(b, w, d).p.world; v.cursor == w.cursor || v.human.generation > w.human.generation
  {
    StartsBetween(j, b, w);
    RunKeeps(j, b, Progress(w, [], w.session.location, d.(streak := 0)), 0);
  }

  lemma {:induction false} FlagSurvives(before: bool, log: seq<Entry>, i: nat)
    requires i < |log| && log[i].Happened? && log[i].event.HumanEvent?
    ensures Pending(before, log) || exists m :: i < m < |log| && log[m].Consumed?
    decreases |log|
  {
    var last := |log| - 1;
    if i < last && !log[last].Consumed? && !(log[last].Happened? && log[last].event.HumanEvent?) {
      FlagSurvives(before, log[..last], i);
      if !Pending(before, log[..last]) {
        var m :| i < m < last && log[..last][m].Consumed?;
        assert log[m].Consumed?;
      }
    }
  }

  /** The human always wins, over whole batches. Once an interrupting event has landed
      during action `k` (a real input event, a pause, a takeover, a stop or a cancel):
      no later action reaches the driver, even if the session is Active again by then;
      within action `k` no further call posts anything, except the text of a keyboard
      action whose focus read had begun; and an Ok run reports every later action cancelled.
      What the call under way still puts out is the driver's part: `Interruption`. */
  lemma InterruptEndsTheBatch(j: Job, b: Batch, w: World, d: Detector, i: nat, m: nat)
    requires Started(j, b, w)
    requires var log := RunBatch(b, w, d).p.world.log; i < |log| && Interrupts(j, log[i])
    ensures var r := RunBatch(b, w, d);
            var log := r.p.world.log;
            && (i < m < |log| && log[m].Made? && !log[m].call.Overlay? ==>
                  && log[m].index == log[i].index
                  && (Posts(log[m].call) ==>
                        || (log[m].call.Warp? && log[m].reply.verdict != Yes)
                        || (log[m].call.Execute? && IsKeyboard(log[m].call.action)
                            && exists q :: 0 <= q < i && DeedOf(log[q], log[i].index) && log[q].call == ReadFocus
                                           && !log[q].fired)))
            && (r.ok ==> CancelledFrom(r.p.reports, log[i].index + 1))
  {
    EveryRunIsSound(j, b, w, d);
    var log := RunBatch(b, w, d).p.world.log;
    SoundAt(j, log, i);
    assert log[i] in log;
    if i < m < |log| && log[m].Made? && !log[m].call.Overlay? {
      NothingAfterInterrupt(j, log, i, m);
    }
  }

  /** A real event is never lost: its flag is still up when the run ends, or a boundary
      or poll after it consumed it, and an Active or Paused session was then moved to
      UserTakeover. */
  lemma RealEventIsNeverLost(j: Job, b: Batch, w: World, d: Detector, i: nat)
    requires Started(j, b, w)
    requires var log := RunBatch(b, w, d).p.world.log; i < |log| && log[i].Happened? && log[i].event.HumanEvent?
    ensures var v := RunBatch(b, w, d).p.world;
            || v.human.pendingReal
            || exists m :: i < m < |v.log| && v.log[m].Consumed?
                 && (v.log[m].before == Active || v.log[m].before == Paused ==>
                       v.log[m].after == UserTakeover && v.log[m].fired)
  {
    var v := RunBatch(b, w, d).p.world;
    StartsBetween(j, b, w);
    RunKeeps(j, b, Progress(w, [], w.session.location, d.(streak := 0)), 0);
    FlagSurvives(v.pendedBefore, v.log, i);
    if !v.human.pendingReal {
      var m :| i < m < |v.log| && v.log[m].Consumed?;
      SoundAt(j, v.log, m);
    }
  }

  /** Nothing is cancelled without a reason: with the event tap in charge, an Ok run of a
      calm session that ends with its token still live has carried out every action, or
      a gate refused one of them and only the rest was cancelled. */
  lemma NoSpuriousCancellation(j: Job, b: Batch, w: World, d: Detector)
    requires Started(j, b, w) && Calm(w) && b.tapActive
    ensures var r := RunBatch(b, w, d); r.ok && !Fired(r.p.world) ==> Unhindered(r.p.reports, |b.actions|)
  {
    StartsBetween(j, b, w);
    CalmRun(j, b, Progress(w, [], w.session.location, d.(streak := 0)), 0);
  }

  /** The two tests of a grab agree at the end of every run: the generation has moved since
      the batch began only if the token has fired. */
  lemma GrabMeansFired(j: Job, b: Batch, w: World, d: Detector)
    requires Started(j, b, w)
    ensures var v := RunBatch(b, w, d).p.world; Grabbed(v, w.human.generation) <==> Fired(v)
  {
    StartsBetween(j, b, w);
    RunKeeps(j, b, Progress(w, [], w.session.location, d.(streak := 0)), 0);
    GrabIsFired(j, w, RunBatch(b, w, d).p.world);
  }

  /** Every click of a live action, whatever its schedule: its deeds obey the rules, its
      report is honest, and left alone it gives up only when nothing is left to try. */
  lemma EveryClick(j: Job, w: World, c: ClickRequest)
    requires Pointing(j, w, c, []) && !Fired(w)
    ensures var d := Worlds.Click(w, c);
            var es := Deeds(d.world.log, w.index);
            && Chain(j, w.index, es) && Honest(j, es, d) && Exhausted(j, w.index, es, d)
            && d.world.session.mode != Pointer.PhysicalFallback
            && (j.scope.policy != Pointer.PhysicalAllowed && d.world.human.generation == w.human.generation ==>
                  d.world.cursor == w.cursor)
  {
    var es := ClickKeeps(j, w, c);
    DeedsChain(j, Worlds.Click(w, c).world.log, w.index);
  }

  /** Every borrow of the cursor, whatever its schedule. Its deeds are none, a warp, a
      warp and a click, or a warp, a click and a restore; the outcome says which, and
      whether the restore worked; a borrow that nobody disturbs returns the cursor; and
      one that sees the token fire before the restore does not restore. */
  lemma EveryBorrow(j: Job, w: World, c: ClickRequest)
    requires var ds := Deeds(w.log, w.index);
             On(j, w, ds) && Borrows(j, w.index, ds, c) && w.session.mode != Pointer.PhysicalFallback
    ensures var n := |Deeds(w.log, w.index)|;
            var d := PhysicalFallback(w, c);
            var es := Deeds(d.world.log, w.index);
            && Chain(j, w.index, es) && n <= |es| && Told(es, n, c, w.cursor, d)
            && d.world.session.mode != Pointer.PhysicalFallback
            && (!Fired(d.world) && |es| > n ==> |es| == n + 3 || es[n].reply.verdict != Yes)
            && (d.world.human.generation == w.human.generation ==> d.world.cursor == LeftAt(es, n, c, w.cursor))
  {
    var d := PhysicalFallback(w, c);
    var es := FallbackKeeps(j, w, c, Deeds(w.log, w.index));
    DeedsChain(j, d.world.log, w.index);
  }

  /** The telemetry a report carries, from the monitor's own instants: how late the last
      event was detected; how long after it a takeover was marked, and 0 if the mark is an
      older one; and how long after it the last synthetic input came, and 0 if none did. */
  lemma TelemetryIs(h: HumanView)
    ensures var t := TelemetryOf(h);
            && t.detection == h.lastLatency
            && (t.takeover.Some? <==> h.humanEventAt.Some? && h.takeoverStartedAt.Some?)
            && (t.takeover.Some? ==>
                  var (event, mark) := (h.humanEventAt.value, h.takeoverStartedAt.value);
                  if mark < event then t.takeover == Some(0) else t.takeover.value + event == mark)
            && (t.inputStop.Some? <==> h.humanEventAt.Some?)
            && (t.inputStop.Some? ==>
                  if h.lastSyntheticAt.None? || h.lastSyntheticAt.value < h.humanEventAt.value
                  then t.inputStop == Some(0)
                  else t.inputStop.value + h.humanEventAt.value == h.lastSyntheticAt.value)
  {
  }

  /** The idle guard, from the last hardware event and the clock: whole seconds of at least
      two are two thousand milliseconds. */
  lemma IdleGuardIs(w: World)
    ensures Operating(w) <==> w.human.lastHuman.Some? && w.now < w.human.lastHuman.value + 2000
  {
    if w.human.lastHuman.Some? && w.now >= w.human.lastHuman.value {
      var since := w.now - w.human.lastHuman.value;
      assert IdleSecs(w.human, w.now) == Some(since / 1000);
    }
  }

  lemma WarpIsTold(j: Job, w: World, n: nat, c: ClickRequest, home: Point, es: seq<Entry>, d: Done)
    requires n < |es| && Borrowed(j, w, n, c, home, es, d)
    ensures Deeds(d.world.log, w.index) == es && es[n].Made? && es[n].call == Warp(home, c.p) && !d.outcome.Refused?
  {
    assert es[n] in es;
  }

  /** A borrow that goes through its guards makes a warp from where the cursor was. */
  lemma LentWarps(j: Job, w: World, c: ClickRequest)
    requires var ds := Deeds(w.log, w.index);
             On(j, w, ds) && Borrows(j, w.index, ds, c) && w.session.mode != Pointer.PhysicalFallback
    requires !NotLent(w)
    ensures var n := |Deeds(w.log, w.index)|;
            var d := PhysicalFallback(w, c);
            var es := Deeds(d.world.log, w.index);
            && n < |es| && es[n].Made? && es[n].call == Warp(w.cursor, c.p) && !d.outcome.Refused?
  {
    var ds := Deeds(w.log, w.index);
    CursorLent(j, w, c, ds);
    var es := BorrowKeeps(j, Looked(w), c, w.cursor, ds);
    WarpIsTold(j, Looked(w), |ds|, c, w.cursor, es, PhysicalFallback(w, c));
  }

  /** The guards of a borrow, from the answer to the cursor's read, the token, the last
      hardware event and the clock at the end of the read. Without the cursor it gives up;
      with an event less than two seconds old it refuses for the user at the mouse; under a
      fired token it refuses for the grab; none of these makes a further call. Otherwise it
      goes on to its warp. */
  lemma GuardsExactly(j: Job, w: World, c: ClickRequest)
    requires var ds := Deeds(w.log, w.index);
             On(j, w, ds) && Borrows(j, w.index, ds, c) && w.session.mode != Pointer.PhysicalFallback
    ensures var (v, read) := (Ask(w, ReadCursor).world, ReplyTo(w, ReadCursor).verdict);
            var (n, d) := (|Deeds(w.log, w.index)|, PhysicalFallback(w, c));
            var es := Deeds(d.world.log, w.index);
            var recent := v.human.lastHuman.Some? && v.now < v.human.lastHuman.value + 2000;
            && (d == Done(v, Refused(Unavailable)) <==> read != Yes)
            && (d == Done(v, Refused(HumanTakeover)) <==> read == Yes && recent)
            && (d == Done(v, Refused(UserGrabbed)) <==> read == Yes && !recent && Fired(v))
            && (|es| > n <==> read == Yes && !recent && !Fired(v))
            && (|es| == n && d.outcome.Refused? ==>
                  RefusalText(d.outcome.reason) ==
                  if read != Yes then "ISOLATED_POINTER_UNAVAILABLE"
                  else if recent then "HUMAN_TAKEOVER" else "cancelled by user takeover")
            && (|es| > n ==> es[n].Made? && es[n].call == Warp(w.cursor, c.p))
  {
    var v := Looked(w);
    IdleGuardIs(v);
    if NotLent(w) {
      Passes(j, w, Deeds(w.log, w.index), ReadCursor);
    } else {
      LentWarps(j, w, c);
    }
  }

  /** A success report's pointer field is parsed from the detail string, and says exactly
      what the detail was built from. */
  lemma ReportNamesBackend(i: nat, d: PointerDetail.Detail)
    requires PointerDetail.Built(d)
    ensures ReportWith(i, Finished(true, Some(d)), false).pointer == PointerDetail.Meaning(d)
  {
    PointerDetail.DetailParses(d);
  }

  // ---- ordinary beginnings ----

  const ORIGIN: Point := Point(0.0, 0.0)

  /** An Active session whose one batch is registered, and a schedule. */
  function Ordinary(scope: Scope, turns: seq<Turn>): World {
    World(SessionView(Active, false, false, Pointer.Isolated, ORIGIN, [0], scope),
          FRESH, {}, 1, turns, 0, ORIGIN, [], 0, 0, false)
  }

  /** Such a world starts a batch, and a click of it, whatever the schedule. */
  lemma OrdinaryStarts(b: Batch, scope: Scope, turns: seq<Turn>, c: ClickRequest)
    ensures Started(Job(b.actions, b.geometry, scope, 0), b, Ordinary(scope, turns)) && Calm(Ordinary(scope, turns))
    ensures var j := Job(b.actions, b.geometry, scope, 0);
            |b.actions| > 0 && Aimed(j, 0, ClickAt(c.p, c.button, c.double)) ==>
              Pointing(j, Ordinary(scope, turns), c, []) && !Fired(Ordinary(scope, turns))
  {
  }
}
