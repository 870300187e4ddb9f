/** Whole batches: every run of the loop is sound, from its first boundary check to its
    last report. */
module Running {
  import opened Basics
  import opened Coordinates
  import opened Actions
  import opened Sessions
  import opened HumanInput
  import opened Worlds
  import opened Queues
  import opened Rules
  import opened Safety
  import opened Borrowing
  import opened Clicking
  import Pointer

  // ---- boundaries and polls ----

  lemma ToStateKeeps(j: Job, w: World, target: SessionState)
    requires Good(j, w) && Halts(target)
    ensures var v := ToState(w, target);
            && Good(j, v) && Since(j, w, v) && v.log == w.log && v.index == w.index
            && (Legal(w.session.state, target) ==> Fired(v) && v.session.state == target)
            && (!Legal(w.session.state, target) ==> v == w)
  {
  }

  /** A pending real event, consumed: the entry the log gets. */
  function Consumption(w: World): Entry {
    var taken := ToState(w.(human := w.human.(pendingReal := false)), UserTakeover);
    Consumed(w.index, w.session.state, taken.session.state, Fired(taken))
  }

  function Marked(w: World): World {
    var taken := ToState(w.(human := w.human.(pendingReal := false)), UserTakeover);
    taken.(session := taken.session.(mode := Pointer.UserTakeover),
           human := taken.human.(takeoverStartedAt := Some(w.now)), log := w.log + [Consumption(w)])
  }

  lemma RealTakeoverIs(w: World)
    ensures RealTakeover(w) == Ask(Marked(w), Overlay).world
  {
  }

  /** Nothing the rules look at happened from `w` to `v`, but perhaps to the overlay. */
  ghost predicate Undisturbed(j: Job, w: World, v: World) {
    var undisturbed :=
      && Good(j, v) && Since(j, w, v) && v.index == w.index
      && Deeds(v.log, w.index) == Deeds(w.log, w.index) && (StillOn(w.log, w.index) ==> StillOn(v.log, w.index));
    undisturbed
  }

  lemma UndisturbedTransitive(j: Job, w: World, u: World, v: World)
    requires Undisturbed(j, w, u) && Undisturbed(j, u, v)
    ensures Undisturbed(j, w, v)
  {
    SinceTransitive(j, w, u, v);
  }

  lemma MarkedKeeps(j: Job, w: World)
    requires Good(j, w)
    ensures Undisturbed(j, w, Marked(w))
  {
    Logged(j, w, Marked(w), Consumption(w));
  }

  lemma OverlayKeeps(j: Job, w: World)
    requires Good(j, w)
    ensures Undisturbed(j, w, Ask(w, Overlay).world)
  {
    AskKeeps(j, w, Overlay);
    assert Deeds(w.log, w.index) + [] == Deeds(w.log, w.index);
  }

  /** What a boundary or poll leaves: the run may go on only from an untouched world
      whose token is live and whose session is Active. */
  ghost predicate Checked(j: Job, w: World, check: Check) {
    var v := check.world;
    var checked :=
      && Undisturbed(j, w, v)
      && (!check.stop ==> v == w && !Fired(w) && w.session.state == Active && !w.human.pendingReal);
    checked
  }

  lemma RealCheckKeeps(j: Job, w: World)
    requires Good(j, w)
    ensures Checked(j, w, Check(RealTakeover(w), true))
  {
    RealTakeoverIs(w);
    MarkedKeeps(j, w);
    OverlayKeeps(j, Marked(w));
    UndisturbedTransitive(j, w, Marked(w), RealTakeover(w));
  }

  lemma HeuristicCheckKeeps(j: Job, w: World, policy: TakeoverPolicy)
    requires Good(j, w)
    ensures Checked(j, w, Check(ApplyTakeover(w.(human := w.human.(pendingHeuristic := false)), policy), true))
  {
    var u := w.(human := w.human.(pendingHeuristic := false));
    assert Good(j, u);
    if policy != Ignore {
      ToStateKeeps(j, u, if policy == AutoPause then Paused else UserTakeover);
    }
  }

  lemma CheckKeeps(j: Job, w: World, tapActive: bool, policy: TakeoverPolicy)
    requires Good(j, w)
    ensures Checked(j, w, TakeoverCheck(w, tapActive, policy))
  {
    if w.human.pendingReal {
      RealCheckKeeps(j, w);
    } else if !tapActive && w.human.pendingHeuristic {
      HeuristicCheckKeeps(j, w, policy);
    }
  }

  /** A real event waiting at a boundary or poll: the batch stops there; an Active or
      Paused session is in UserTakeover and its token fired before the overlay is even
      asked to hide; the flag is down again; and the heuristic plays no part. */
  lemma BoundaryTakesOver(j: Job, w: World, tapActive: bool, policy: TakeoverPolicy)
    requires Good(j, w) && w.human.pendingReal
    ensures TakeoverCheck(w, tapActive, policy).stop
    ensures var v := Marked(w);
            && TakeoverCheck(w, tapActive, policy).world == Ask(v, Overlay).world
            && v.human == w.human.(pendingReal := false, takeoverStartedAt := Some(w.now))
            && (w.session.state == Active || w.session.state == Paused ==> v.session.state == UserTakeover && Fired(v))
            && (w.session.state != Active ==> SessionAborted(v.session))
            && v.log[|v.log| - 1] == Consumed(w.index, w.session.state, v.session.state, Fired(v))
  {
    RealTakeoverIs(w);
  }

  // ---- waiting ----

  lemma StoppedWait(j: Job, w: World, ds: seq<Entry>, check: Check)
    requires On(j, w, ds) && w.session.mode != Pointer.PhysicalFallback && Checked(j, w, check)
    ensures Kept(j, w, check.world, ds)
  {
  }

  lemma LaterKeeps(j: Job, w: World, v: World, ds: seq<Entry>, t: Instant)
    requires Kept(j, w, v, ds)
    ensures Kept(j, w, v.(now := t), ds)
  {
    TweakKeeps(j, v, v.(now := t));
  }

  lemma SleepKeeps(j: Job, w: World, ds: seq<Entry>, ms: nat)
    requires On(j, w, ds) && w.session.mode != Pointer.PhysicalFallback && 1 <= ms <= 50
    ensures Kept(j, w, Ask(w, Sleep(ms)).world, ds)
  {
    Passes(j, w, ds, Sleep(ms));
  }

  lemma NapIs(w: World, deadline: Instant)
    requires w.now < deadline
    ensures var ms := Min(deadline - w.now, POLL_MS);
            var slept := Ask(w, Sleep(ms)).world;
            var nap := Nap(w, deadline);
            && nap.world == (if nap.interrupted then slept else slept.(now := Max(slept.now, w.now + ms)))
            && (nap.interrupted ==> Fired(slept))
  {
  }

  lemma NapKeeps(j: Job, w: World, ds: seq<Entry>, deadline: Instant)
    requires On(j, w, ds) && w.session.mode != Pointer.PhysicalFallback && w.now < deadline
    ensures var nap := Nap(w, deadline); Kept(j, w, nap.world, ds) && (nap.interrupted ==> Fired(nap.world))
  {
    var ms := Min(deadline - w.now, POLL_MS);
    var slept := Ask(w, Sleep(ms)).world;
    SleepKeeps(j, w, ds, ms);
    LaterKeeps(j, w, slept, ds, Max(slept.now, w.now + ms));
    NapIs(w, deadline);
  }

  /** A wait keeps the rules, and unless it is cut short it lasts to its deadline. */
  ghost predicate WaitedWell(j: Job, w: World, ds: seq<Entry>, deadline: Instant, waited: Waited) {
    var well := Kept(j, w, waited.world, ds) && (!waited.interrupted ==> waited.world.now >= deadline);
    well
  }

  lemma WaitedLater(j: Job, w: World, v: World, ds: seq<Entry>, deadline: Instant, waited: Waited)
    requires Kept(j, w, v, ds) && WaitedWell(j, v, ds, deadline, waited)
    ensures WaitedWell(j, w, ds, deadline, waited)
  {
    SinceTransitive(j, w, v, waited.world);
  }

  lemma {:induction false} WaitKeeps(j: Job, w: World, ds: seq<Entry>, deadline: Instant, tapActive: bool,
          policy: TakeoverPolicy)
    requires On(j, w, ds) && w.session.mode != Pointer.PhysicalFallback
    ensures WaitedWell(j, w, ds, deadline, WaitUntil(w, deadline, tapActive, policy))
    decreases if w.now < deadline then deadline - w.now else 0
  {
    if w.now < deadline {
      WaitStep(w, deadline, tapActive, policy);
      var check := TakeoverCheck(w, tapActive, policy);
      CheckKeeps(j, w, tapActive, policy);
      if check.stop {
        StoppedWait(j, w, ds, check);
      } else {
        NapKeeps(j, w, ds, deadline);
        var nap := Nap(w, deadline);
        if !nap.interrupted {
          WaitKeeps(j, nap.world, ds, deadline, tapActive, policy);
          WaitedLater(j, w, nap.world, ds, deadline, WaitUntil(nap.world, deadline, tapActive, policy));
        }
      }
    }
  }

  lemma {:induction false} InterruptedWaitFired(j: Job, w: World, ds: seq<Entry>, deadline: Instant,
          policy: TakeoverPolicy)
    requires On(j, w, ds) && w.session.mode != Pointer.PhysicalFallback && Calm(w)
    ensures var waited := WaitUntil(w, deadline, true, policy); waited.interrupted ==> Fired(waited.world)
    decreases if w.now < deadline then deadline - w.now else 0
  {
    if w.now < deadline {
      WaitStep(w, deadline, true, policy);
      NapKeeps(j, w, ds, deadline);
      var v := Nap(w, deadline).world;
      if Fired(v) {
        WaitKeeps(j, v, ds, deadline, true, policy);
      } else {
        InterruptedWaitFired(j, v, ds, deadline, policy);
      }
    }
  }

  // ---- gates ----

  /** The gates have let `r` through, with deeds `ds` (a focus read, or none) done. */
  ghost predicate Ready(j: Job, w: World, ds: seq<Entry>, r: ResolvedAction) {
    var ready :=
      && On(j, w, ds)
      && (r.ClickAt? ==> Aimed(j, w.index, r) && ds == [] && !Fired(w))
      && (!r.ClickAt? && !r.MoveTo? && !r.WaitFor? ==>
            && May(j, w.index, ds, Execute(r))
            && (Fired(w) ==> IsKeyboard(r) && |ds| == 1 && ds[0].Made? && ds[0].call == ReadFocus));
    ready
  }

  /** Only a Move depends on where the pointer is; what passes containment is aimed. */
  lemma ContainmentAims(j: Job, k: nat, last: Point)
    requires k < |j.actions| && Containment(j.scope, j.actions[k], j.geometry, last).Ok?
    ensures var r := Containment(j.scope, j.actions[k], j.geometry, last).value;
            && Contained(j, r) && (!r.MoveTo? ==> Aimed(j, k, r))
            && (r.DragTo? || (r.ScrollBy? && r.where.Some?) ==> NeedsPhysical(j.actions[k]))
            && (IsKeyboard(r) <==> NeedsFocus(j.actions[k]))
            && (r.ScrollBy? && r.where.None? && j.scope.resolvedTarget.Some? ==>
                  j.actions[k].Scroll? && (j.actions[k].sx.Some? || j.actions[k].sy.Some?))
  {
    var r := Containment(j.scope, j.actions[k], j.geometry, last).value;
    if j.scope.targetBounds.Some? {
      GateCoversTouchedPoints(r, j.scope.targetBounds.value);
    }
  }

  lemma PassedGates(j: Job, w: World, ds: seq<Entry>, last: Point)
    requires On(j, w, ds)
    requires Containment(j.scope, j.actions[w.index], j.geometry, last).Ok?
    requires NeedsPhysical(j.actions[w.index]) ==> j.scope.policy == Pointer.PhysicalAllowed
    requires if NeedsFocus(j.actions[w.index]) && Guarded(j) then InFront(j, ds) else ds == [] && !Fired(w)
    ensures Ready(j, w, ds, Containment(j.scope, j.actions[w.index], j.geometry, last).value)
  {
    ContainmentAims(j, w.index, last);
  }

  lemma GatesKeep(j: Job, w: World, last: Point) returns (ds: seq<Entry>)
    requires On(j, w, []) && !Fired(w) && w.session.mode != Pointer.PhysicalFallback
    ensures var g := Gates(w, j.actions[w.index], j.geometry, last);
            && Kept(j, w, g.world, ds)
            && (g.verdict.Ok? ==> Ready(j, g.world, ds, g.verdict.value))
  {
    var a := j.actions[w.index];
    ds := [];
    var allowed := NeedsPhysical(a) ==> j.scope.policy == Pointer.PhysicalAllowed;
    if allowed && NeedsFocus(a) && Guarded(j) {
      Does(j, w, [], ReadFocus);
      ds := [EntryOf(w, ReadFocus)];
      assert [] + ds == ds;
      var live := Ask(w, ReadFocus);
      if Focused(j.scope.target.value, live.reply) && Containment(j.scope, a, j.geometry, last).Ok? {
        PassedGates(j, live.world, ds, last);
      }
    } else if allowed && Containment(j.scope, a, j.geometry, last).Ok? {
      PassedGates(j, w, [], last);
    }
  }

  // ---- dispatch ----

  lemma MoveKeeps(j: Job, w: World, ds: seq<Entry>, to: Point)
    requires On(j, w, ds) && w.session.mode != Pointer.PhysicalFallback
    ensures Kept(j, w, Ask(Stamp(w).(session := w.session.(location := to)), Overlay).world, ds)
  {
    var v := Stamp(w).(session := w.session.(location := to));
    TweakKeeps(j, w, v);
    Passes(j, v, ds, Overlay);
  }

  lemma ExecuteKeeps(j: Job, w: World, ds: seq<Entry>, r: ResolvedAction)
    requires Ready(j, w, ds, r) && !r.ClickAt? && !r.MoveTo? && !r.WaitFor?
    requires w.session.mode != Pointer.PhysicalFallback
    ensures Kept(j, w, Ask(Stamp(w), Execute(r)).world, ds + [EntryOf(Stamp(w), Execute(r))])
  {
    StampsAndDoes(j, w, ds, Execute(r));
  }

  lemma ClickActionKeeps(j: Job, w: World, ds: seq<Entry>, c: ClickRequest) returns (es: seq<Entry>)
    requires Ready(j, w, ds, ClickAt(c.p, c.button, c.double)) && w.session.mode != Pointer.PhysicalFallback
    ensures Kept(j, w, Worlds.Click(w, c).world, es)
  {
    es := ClickKeeps(j, w, c);
  }

  lemma WaitActionKeeps(j: Job, w: World, ds: seq<Entry>, ms: nat, tapActive: bool, policy: TakeoverPolicy)
    requires On(j, w, ds) && w.session.mode != Pointer.PhysicalFallback
    ensures Kept(j, w, WaitOut(w, ms, tapActive, policy).world, ds)
  {
    WaitKeeps(j, w, ds, w.now + ms, tapActive, policy);
  }

  lemma PerformKeeps(j: Job, w: World, ds: seq<Entry>, r: ResolvedAction, tapActive: bool, policy: TakeoverPolicy)
    returns (es: seq<Entry>)
    requires Ready(j, w, ds, r) && w.session.mode != Pointer.PhysicalFallback
    ensures Kept(j, w, Perform(w, r, tapActive, policy).world, es)
  {
    match r
    case ClickAt(p, button, double) =>
      es := ClickActionKeeps(j, w, ds, ClickRequest(p, button, double));
    case MoveTo(_, to, _) =>
      es := ds;
      MoveKeeps(j, w, ds, to);
    case WaitFor(ms) =>
      es := ds;
      WaitActionKeeps(j, w, ds, ms, tapActive, policy);
    case _ =>
      es := ds + [EntryOf(Stamp(w), Execute(r))];
      ExecuteKeeps(j, w, ds, r);
  }

  // ---- one action ----

  /** Between actions: everything logged so far belongs to an action before `i`. */
  ghost predicate Between(j: Job, w: World, i: nat) {
    var between := Good(j, w) && w.session.mode != Pointer.PhysicalFallback && (forall e :: e in w.log ==> e.index < i);
    between
  }

  /** Where action `i`, begun in `w`, has led. */
  ghost predicate Went(j: Job, w: World, i: nat, v: World) {
    var went := Between(j, v, i + 1) && Since(j, w, v) && (!Fired(w) ==> StillOn(v.log, i));
    went
  }

  lemma {:induction false} NoDeedsYet(log: seq<Entry>, k: nat)
    requires forall e :: e in log ==> e.index < k
    ensures Deeds(log, k) == []
    decreases |log|
  {
    if log != [] {
      NoDeedsYet(log[..|log| - 1], k);
    }
  }

  lemma Begins(j: Job, w: World, i: nat)
    requires Between(j, w, i)
    ensures var v := w.(index := i);
            && Good(j, v) && Since(j, w, v) && v.session.mode != Pointer.PhysicalFallback
            && (i < |j.actions| && !Fired(v) ==> On(j, v, []))
  {
    NoDeedsYet(w.log, i);
  }

  lemma Finishes(j: Job, w: World, i: nat, v: World)
    requires Between(j, w, i) && Undisturbed(j, w.(index := i), v) && v.session.mode != Pointer.PhysicalFallback
    ensures Went(j, w, i, v)
  {
    assert Since(j, w, v);
  }

  lemma KeptFinishes(j: Job, w: World, i: nat, u: World, v: World, ds: seq<Entry>)
    requires Since(j, w, u) && u.index == i && Kept(j, u, v, ds)
    ensures Went(j, w, i, v)
  {
    SinceTransitive(j, w, u, v);
  }

  predicate MadeFor(j: Job, b: Batch) { j.actions == b.actions && j.geometry == b.geometry }

  lemma ProbeKeeps(j: Job, b: Batch, p: Progress, w: World, i: nat, ds: seq<Entry>)
    requires MadeFor(j, b) && i < |b.actions| && On(j, p.world, ds) && p.world.index == i && Went(j, w, i, p.world)
    ensures Went(j, w, i, Probe(b, p, i).p.world)
  {
    if !b.tapActive && !MovesPointer(b.actions[i]) {
      var v := Ask(p.world, ReadCursor).world;
      Passes(j, p.world, ds, ReadCursor);
      KeptFinishes(j, w, i, p.world, v, ds);
      if p.detector.policy != Ignore {
        var target := if p.detector.policy == AutoPause then Paused else UserTakeover;
        ToStateKeeps(j, v, target);
        SinceTransitive(j, w, v, ToState(v, target));
      }
    }
  }

  lemma RecordKeeps(j: Job, w: World, i: nat, v: World, es: seq<Entry>)
    requires On(j, v, es) && v.index == i && Went(j, w, i, v)
    ensures var u := Ask(v, RecordTrace).world; On(j, u, es) && u.index == i && Went(j, w, i, u)
  {
    Passes(j, v, es, RecordTrace);
    KeptFinishes(j, w, i, v, Ask(v, RecordTrace).world, es);
  }

  lemma ReportKeeps(j: Job, b: Batch, p: Progress, w: World, i: nat, es: seq<Entry>)
    requires MadeFor(j, b) && i < |b.actions| && On(j, p.world, es) && p.world.index == i && Went(j, w, i, p.world)
    ensures var recorded := Ask(p.world, RecordTrace).world;
            Went(j, w, i, recorded) && Went(j, w, i, Probe(b, p.(world := recorded), i).p.world)
    ensures Went(j, w, i, Probe(b, p, i).p.world)
  {
    var recorded := Ask(p.world, RecordTrace).world;
    RecordKeeps(j, w, i, p.world, es);
    ProbeKeeps(j, b, p.(world := recorded), w, i, es);
    ProbeKeeps(j, b, p, w, i, es);
  }

  /** The dispatched half of an action: it runs, is recorded, and is probed. */
  lemma DispatchKeeps(j: Job, b: Batch, p: Progress, w: World, i: nat, r: ResolvedAction, ds: seq<Entry>)
    requires MadeFor(j, b) && i < |b.actions| && Ready(j, p.world, ds, r)
    requires p.world.session.mode != Pointer.PhysicalFallback
    requires p.world.index == i && Since(j, w, p.world)
    ensures Went(j, w, i, Dispatch(b, p, i, r).p.world)
  {
    var done := Perform(p.world, r, b.tapActive, p.detector.policy);
    var es := PerformKeeps(j, p.world, ds, r, b.tapActive, p.detector.policy);
    KeptFinishes(j, w, i, p.world, done.world, es);
    ReportKeeps(j, b, p.(world := done.world, reports := p.reports + [ReportOf(i, done)]), w, i, es);
  }

  lemma OneActionKeeps(j: Job, b: Batch, p: Progress, i: nat)
    requires MadeFor(j, b) && i < |b.actions| && Between(j, p.world, i)
    ensures Went(j, p.world, i, OneAction(b, p, i).p.world)
  {
    var w := p.world.(index := i);
    Begins(j, p.world, i);
    var check := TakeoverCheck(w, b.tapActive, p.detector.policy);
    CheckKeeps(j, w, b.tapActive, p.detector.policy);
    if check.stop {
      Finishes(j, p.world, i, check.world);
    } else {
      var gated := Gates(w, b.actions[i], b.geometry, p.last);
      var ds := GatesKeep(j, w, p.last);
      if gated.verdict.Ok? {
        DispatchKeeps(j, b, p.(world := gated.world), p.world, i, gated.verdict.value, ds);
      } else {
        KeptFinishes(j, p.world, i, w, gated.world, ds);
      }
    }
  }

  // ---- the whole batch ----

  /** Where a run, or the rest of one, has led. */
  ghost predicate Ran(j: Job, w: World, v: World) {
    var ran := Good(j, v) && Since(j, w, v) && v.session.mode != Pointer.PhysicalFallback;
    ran
  }

  lemma WentRan(j: Job, w: World, i: nat, u: World, v: World)
    requires Went(j, w, i, u) && Ran(j, u, v)
    ensures Ran(j, w, v)
  {
    SinceTransitive(j, w, u, v);
  }

  lemma StaysPut(j: Job, w: World)
    requires Good(j, w) && w.session.mode != Pointer.PhysicalFallback
    ensures Ran(j, w, w)
  {
  }

  lemma {:induction false} RunKeeps(j: Job, b: Batch, p: Progress, i: nat)
    requires MadeFor(j, b) && i <= |b.actions| && Between(j, p.world, i)
    ensures Ran(j, p.world, RunFrom(b, p, i).p.world)
    decreases |b.actions| - i, 0
  {
    if i == |b.actions| {
      StaysPut(j, p.world);
    } else {
      OneActionKeeps(j, b, p, i);
      AfterKeeps(j, b, p, OneAction(b, p, i), i);
    }
  }

  lemma {:induction false} AfterKeeps(j: Job, b: Batch, p: Progress, next: Next, i: nat)
    requires MadeFor(j, b) && i < |b.actions| && Went(j, p.world, i, next.p.world)
    ensures Ran(j, p.world, After(b, next, i).p.world)
    decreases |b.actions| - i - 1, 1
  {
    if next.Continue? {
      RunKeeps(j, b, next.p, i + 1);
    } else {
      StaysPut(j, next.p.world);
    }
    WentRan(j, p.world, i, next.p.world, After(b, next, i).p.world);
  }
}
