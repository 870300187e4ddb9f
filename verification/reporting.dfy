/** The reports of a batch: one per action, in order, cancelled from some point on, and
    cancelled for every action after one in which the token was seen fired. */
module Reporting {
  import opened Basics
  import opened Actions
  import opened Sessions
  import opened Worlds
  import opened Queues
  import opened Rules
  import opened Safety
  import opened Running
  import Pointer

  /** `i` actions are reported, none of them cancelled. */
  predicate Tidy(rs: seq<ActionRun>, i: nat) {
    |rs| == i && forall k :: 0 <= k < i ==> rs[k].index == k && rs[k].status != Cancelled
  }

  /** One report per action, and everything after a cancelled report is cancelled. */
  predicate Complete(rs: seq<ActionRun>, n: nat) {
    && |rs| == n
    && (forall k :: 0 <= k < n ==> rs[k].index == k)
    && (forall a, b :: 0 <= a <= b < n && rs[a].status == Cancelled ==> rs[b].status == Cancelled)
  }

  /** Every report after the `from`-th is cancelled. */
  predicate CancelledFrom(rs: seq<ActionRun>, from: int) {
    forall k :: 0 <= k < |rs| && from <= k ==> rs[k].status == Cancelled
  }

  /** Filling up leaves what was reported and cancels exactly the rest. */
  lemma {:induction false} FillsUp(rs: seq<ActionRun>, from: nat, n: nat)
    requires |rs| == from <= n
    ensures var filled := FillCancelled(rs, from, n);
            && |filled| == n && filled[..from] == rs
            && forall k :: from <= k < n ==> filled[k] == CancelledRun(k)
    decreases n - from
  {
    if from < n {
      FillsUp(rs + [CancelledRun(from)], from + 1, n);
      var filled := FillCancelled(rs, from, n);
      assert filled[..from] == filled[..from + 1][..from];
    }
  }

  lemma FilledIsComplete(rs: seq<ActionRun>, i: nat, last: ActionRun, n: nat)
    requires Tidy(rs, i) && i < n && last.index == i
    ensures Complete(FillCancelled(rs, i, n), n) && CancelledFrom(FillCancelled(rs, i, n), i)
    ensures var filled := FillCancelled(rs + [last], i + 1, n); Complete(filled, n) && CancelledFrom(filled, i + 1)
    ensures last.status != Cancelled ==> Tidy(rs + [last], i + 1)
  {
    FilledFrom(rs, i, n);
    FilledFrom(rs + [last], i + 1, n);
  }

  /** The reports before the fill are in place, and only the last may be cancelled. */
  lemma FilledFrom(rs: seq<ActionRun>, from: nat, n: nat)
    requires |rs| == from <= n
    requires forall k :: 0 <= k < from ==> rs[k].index == k && (k < from - 1 ==> rs[k].status != Cancelled)
    ensures Complete(FillCancelled(rs, from, n), n) && CancelledFrom(FillCancelled(rs, from, n), from)
  {
    var filled := FillCancelled(rs, from, n);
    FillsUp(rs, from, n);
    forall k | 0 <= k < from
      ensures filled[k] == rs[k]
    {
      assert filled[..from][k] == filled[k];
    }
  }

  /** The reports after action `i` began with `i` tidy ones. */
  ghost predicate Reported(next: Next, i: nat, n: nat) {
    var reported :=
      match next
      case Continue(q) => Tidy(q.reports, i + 1)
      case Stop(q) => Complete(q.reports, n) && CancelledFrom(q.reports, i + 1)
      case Abort(_) => true;
    reported
  }

  lemma ReportInPlace(i: nat, done: Performed)
    ensures ReportOf(i, done).index == i && (ReportOf(i, done).status == Cancelled <==> done.interrupted)
  {
  }

  lemma ProbeReports(b: Batch, p: Progress, i: nat)
    requires i < |b.actions| && Tidy(p.reports, i + 1)
    ensures Reported(Probe(b, p, i), i, |b.actions|)
  {
    FilledFrom(p.reports, i + 1, |b.actions|);
  }

  lemma DispatchReports(b: Batch, p: Progress, i: nat, r: ResolvedAction)
    requires i < |b.actions| && Tidy(p.reports, i)
    ensures Reported(Dispatch(b, p, i, r), i, |b.actions|)
  {
    var done := Perform(p.world, r, b.tapActive, p.detector.policy);
    var report := ReportOf(i, done);
    ReportInPlace(i, done);
    FilledIsComplete(p.reports, i, report, |b.actions|);
    if !done.interrupted {
      var after := p.(world := done.world, reports := p.reports + [report]);
      ProbeReports(b, after, i);
      ProbeReports(b, after.(world := Ask(done.world, RecordTrace).world), i);
    }
  }

  lemma OneActionReports(b: Batch, p: Progress, i: nat)
    requires i < |b.actions| && Tidy(p.reports, i)
    ensures Reported(OneAction(b, p, i), i, |b.actions|)
  {
    var check := TakeoverCheck(p.world.(index := i), b.tapActive, p.detector.policy);
    if check.stop {
      FilledIsComplete(p.reports, i, CancelledRun(i), |b.actions|);
    } else {
      var gated := Gates(check.world, b.actions[i], b.geometry, p.last);
      match gated.verdict
      case Err(e) => FilledIsComplete(p.reports, i, FailedRun(i, Gate(e)), |b.actions|);
      case Ok(r) => DispatchReports(b, p.(world := gated.world), i, r);
    }
  }

  // ---- reports and the log ----

  lemma {:induction false} EventsAdd(w: World, es: seq<Event>, e: Entry)
    requires e in ApplyAll(w, es).log
    ensures e in w.log || e.index == w.index
    ensures ApplyAll(w, es).index == w.index
    decreases |es|
  {
    if es != [] {
      EventsAdd(Apply(w, es[0]), es[1..], e);
    }
  }

  /** A boundary check logs nothing under another action's index. */
  lemma CheckAdds(w: World, tapActive: bool, policy: TakeoverPolicy, e: Entry)
    requires e in TakeoverCheck(w, tapActive, policy).world.log
    ensures e in w.log || e.index == w.index
  {
    if w.human.pendingReal {
      RealTakeoverIs(w);
      EventsAdd(Sent(Marked(w), Overlay), NextTurn(Marked(w)).events, e);
    }
  }

  /** No action before the last one saw the token fire. */
  predicate Fresh(log: seq<Entry>, i: nat) { forall e :: e in log && e.fired ==> e.index == i - 1 }

  /** Every action after one in which the token was seen fired is cancelled. */
  ghost predicate Answered(log: seq<Entry>, rs: seq<ActionRun>) {
    var answered := forall e :: e in log && e.fired ==> CancelledFrom(rs, e.index + 1);
    answered
  }

  lemma BoundaryAnswers(b: Batch, p: Progress, i: nat, e: Entry)
    requires i < |b.actions| && Tidy(p.reports, i) && Fresh(p.world.log, i)
    requires TakeoverCheck(p.world.(index := i), b.tapActive, p.detector.policy).stop
    requires e in OneAction(b, p, i).p.world.log && e.fired
    ensures CancelledFrom(OneAction(b, p, i).p.reports, e.index + 1)
  {
    CheckAdds(p.world.(index := i), b.tapActive, p.detector.policy, e);
    FilledIsComplete(p.reports, i, CancelledRun(i), |b.actions|);
  }

  lemma StillGoing(j: Job, b: Batch, p: Progress, i: nat)
    requires MadeFor(j, b) && i < |b.actions| && Between(j, p.world, i)
    requires !TakeoverCheck(p.world.(index := i), b.tapActive, p.detector.policy).stop
    ensures StillOn(OneAction(b, p, i).p.world.log, i)
  {
    Begins(j, p.world, i);
    CheckKeeps(j, p.world.(index := i), b.tapActive, p.detector.policy);
    OneActionKeeps(j, b, p, i);
  }

  lemma ActionAnswers(j: Job, b: Batch, p: Progress, i: nat)
    requires MadeFor(j, b) && i < |b.actions| && Between(j, p.world, i) && Tidy(p.reports, i) && Fresh(p.world.log, i)
    ensures var next := OneAction(b, p, i);
            && (next.Continue? ==> Fresh(next.p.world.log, i + 1))
            && (next.Stop? ==> Answered(next.p.world.log, next.p.reports))
  {
    var next := OneAction(b, p, i);
    if TakeoverCheck(p.world.(index := i), b.tapActive, p.detector.policy).stop {
      forall e | e in next.p.world.log && e.fired
        ensures CancelledFrom(next.p.reports, e.index + 1)
      {
        BoundaryAnswers(b, p, i, e);
      }
    } else {
      StillGoing(j, b, p, i);
      OneActionReports(b, p, i);
    }
  }

  /** What an Ok result of the run guarantees about its reports. */
  ghost predicate WellReported(n: nat, r: BatchResult) {
    var well := r.ok ==> Complete(r.p.reports, n) && Answered(r.p.world.log, r.p.reports);
    well
  }

  lemma {:induction false} RunReports(j: Job, b: Batch, p: Progress, i: nat)
    requires MadeFor(j, b) && i <= |b.actions| && Between(j, p.world, i) && Tidy(p.reports, i) && Fresh(p.world.log, i)
    ensures WellReported(|b.actions|, RunFrom(b, p, i))
    decreases |b.actions| - i, 0
  {
    if i < |b.actions| {
      OneActionKeeps(j, b, p, i);
      OneActionReports(b, p, i);
      ActionAnswers(j, b, p, i);
      AfterReports(j, b, OneAction(b, p, i), i);
    }
  }

  lemma {:induction false} AfterReports(j: Job, b: Batch, next: Next, i: nat)
    requires MadeFor(j, b) && i < |b.actions| && Between(j, next.p.world, i + 1) && Reported(next, i, |b.actions|)
    requires next.Continue? ==> Fresh(next.p.world.log, i + 1)
    requires next.Stop? ==> Answered(next.p.world.log, next.p.reports)
    ensures WellReported(|b.actions|, After(b, next, i))
    decreases |b.actions| - i - 1, 1
  {
    if next.Continue? {
      RunReports(j, b, next.p, i + 1);
    }
  }

  // ---- nothing is cancelled without a reason ----

  /** A run the gates stopped at action `i`. */
  predicate GateStopped(rs: seq<ActionRun>, i: nat, n: nat) {
    && i < n && |rs| == n
    && (forall k :: 0 <= k < i ==> rs[k].status != Cancelled)
    && rs[i].status == Status.Failed && rs[i].cause.Some? && rs[i].cause.value.Gate?
    && CancelledFrom(rs, i + 1)
  }

  /** Either every action was carried out, or a gate refused one and the rest were cancelled. */
  ghost predicate Unhindered(rs: seq<ActionRun>, n: nat) {
    var unhindered := Tidy(rs, n) || exists i :: 0 <= i < n && GateStopped(rs, i, n);
    unhindered
  }

  lemma RefusedReports(rs: seq<ActionRun>, i: nat, e: GateError, n: nat)
    requires Tidy(rs, i) && i < n
    ensures GateStopped(FillCancelled(rs + [FailedRun(i, Gate(e))], i + 1, n), i, n)
  {
    var last := FailedRun(i, Gate(e));
    var filled := FillCancelled(rs + [last], i + 1, n);
    FillsUp(rs + [last], i + 1, n);
    forall k | 0 <= k <= i
      ensures filled[k] == (rs + [last])[k]
    {
      assert filled[..i + 1][k] == filled[k];
    }
  }

  lemma CalmWaitOut(j: Job, w: World, ds: seq<Entry>, ms: nat, policy: TakeoverPolicy)
    requires On(j, w, ds) && w.session.mode != Pointer.PhysicalFallback && Calm(w)
    ensures var waited := WaitOut(w, ms, true, policy); waited.interrupted ==> Fired(waited.world)
  {
    InterruptedWaitFired(j, w, ds, w.now + ms, policy);
    WaitOutIs(w, ms, true, policy);
  }

  /** Only a fired token interrupts a calm wait, and it then stays fired. */
  lemma CalmPerform(j: Job, b: Batch, p: Progress, i: nat, r: ResolvedAction, ds: seq<Entry>)
    requires b.tapActive && i < |b.actions| && Ready(j, p.world, ds, r)
    requires p.world.session.mode != Pointer.PhysicalFallback && Calm(p.world)
    ensures var done := Perform(p.world, r, true, p.detector.policy); done.interrupted ==> Fired(done.world)
  {
    OnlyWaitsAreInterrupted(p.world, r, true, p.detector.policy);
    if r.WaitFor? {
      CalmWaitOut(j, p.world, ds, r.waitMs, p.detector.policy);
    }
  }

  lemma CalmDispatch(j: Job, b: Batch, p: Progress, i: nat, r: ResolvedAction, ds: seq<Entry>)
    requires MadeFor(j, b) && b.tapActive && i < |b.actions|
    requires Ready(j, p.world, ds, r) && p.world.session.mode != Pointer.PhysicalFallback && Calm(p.world)
    requires !Fired(Dispatch(b, p, i, r).p.world)
    ensures !Dispatch(b, p, i, r).Stop?
  {
    CalmPerform(j, b, p, i, r, ds);
  }

  /** A calm, live boundary lets the action through to its gates. */
  lemma CalmBoundary(j: Job, b: Batch, p: Progress, i: nat)
    requires i < |b.actions| && Between(j, p.world, i) && b.tapActive && Calm(p.world) && !Fired(p.world)
    ensures var gated := Gates(p.world.(index := i), b.actions[i], b.geometry, p.last);
            OneAction(b, p, i) ==
            if gated.verdict.Ok? then Dispatch(b, p.(world := gated.world), i, gated.verdict.value)
            else
              var failed := FailedRun(i, Gate(gated.verdict.error));
              Stop(p.(world := gated.world, reports := FillCancelled(p.reports + [failed], i + 1, |b.actions|)))
  {
  }

  /** What a calm action leaves. */
  ghost predicate CalmNext(next: Next, i: nat, n: nat) {
    var calm :=
      && Calm(next.p.world)
      && (next.Continue? ==> Tidy(next.p.reports, i + 1))
      && (next.Stop? ==> GateStopped(next.p.reports, i, n));
    calm
  }

  lemma CalmGated(j: Job, b: Batch, p: Progress, w: World, i: nat, r: ResolvedAction, ds: seq<Entry>)
    requires MadeFor(j, b) && b.tapActive && i < |b.actions| && Tidy(p.reports, i) && Kept(j, w, p.world, ds)
    requires Ready(j, p.world, ds, r) && p.world.index == i && Calm(w) && !Fired(Dispatch(b, p, i, r).p.world)
    ensures CalmNext(Dispatch(b, p, i, r), i, |b.actions|)
  {
    DispatchKeeps(j, b, p, p.world, i, r, ds);
    DispatchReports(b, p, i, r);
    CalmDispatch(j, b, p, i, r, ds);
  }

  lemma CalmAction(j: Job, b: Batch, p: Progress, i: nat)
    requires MadeFor(j, b) && b.tapActive && i < |b.actions| && Between(j, p.world, i) && Tidy(p.reports, i)
    requires Calm(p.world) && !Fired(p.world) && !Fired(OneAction(b, p, i).p.world)
    ensures CalmNext(OneAction(b, p, i), i, |b.actions|)
  {
    var w := p.world.(index := i);
    Begins(j, p.world, i);
    CalmBoundary(j, b, p, i);
    var gated := Gates(w, b.actions[i], b.geometry, p.last);
    var ds := GatesKeep(j, w, p.last);
    match gated.verdict
    case Err(e) => RefusedReports(p.reports, i, e, |b.actions|);
    case Ok(r) => CalmGated(j, b, p.(world := gated.world), w, i, r, ds);
  }

  lemma {:induction false} CalmRun(j: Job, b: Batch, p: Progress, i: nat)
    requires MadeFor(j, b) && b.tapActive && i <= |b.actions| && Between(j, p.world, i) && Tidy(p.reports, i)
    requires Calm(p.world)
    ensures var r := RunFrom(b, p, i); r.ok && !Fired(r.p.world) ==> Unhindered(r.p.reports, |b.actions|)
    decreases |b.actions| - i, 0
  {
    if i < |b.actions| {
      OneActionKeeps(j, b, p, i);
      CalmAfter(j, b, p, OneAction(b, p, i), i);
    }
  }

  lemma {:induction false} CalmAfter(j: Job, b: Batch, p: Progress, next: Next, i: nat)
    requires MadeFor(j, b) && b.tapActive && i < |b.actions| && Between(j, p.world, i) && Tidy(p.reports, i)
    requires Calm(p.world)
    requires next == OneAction(b, p, i) && Went(j, p.world, i, next.p.world)
    ensures var r := After(b, next, i); r.ok && !Fired(r.p.world) ==> Unhindered(r.p.reports, |b.actions|)
    decreases |b.actions| - i - 1, 1
  {
    if next.Continue? {
      RunKeeps(j, b, next.p, i + 1);
    }
    if !Fired(After(b, next, i).p.world) {
      CalmAction(j, b, p, i);
      if next.Continue? {
        CalmRun(j, b, next.p, i + 1);
      }
    }
  }
}
