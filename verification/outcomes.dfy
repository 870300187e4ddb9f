/** What the reports of a run say, against its log: each action's report is told from the
    calls made in that action and what they were answered. */
module Outcomes {
  import opened Basics
  import opened Coordinates
  import opened Actions
  import opened Sessions
  import opened HumanInput
  import opened Worlds
  import opened Queues
  import opened Rules
  import opened Safety
  import opened Borrowing
  import opened Clicking
  import opened Running
  import opened Reporting
  import opened Theorems
  import opened Modes
  import opened Stamping
  import opened Gating
  import Pointer
  import PointerDetail

  // ---- other actions' deeds are left alone ----

  /** From `w` to `v` nothing was done in any other action. */
  ghost predicate Elsewhere(w: World, v: World) {
    var elsewhere := v.index == w.index && forall k: nat :: k != w.index ==> Deeds(v.log, k) == Deeds(w.log, k);
    elsewhere
  }

  lemma ElsewhereTransitive(w: World, u: World, v: World)
    requires Elsewhere(w, u) && Elsewhere(u, v)
    ensures Elsewhere(w, v)
  {
  }

  lemma EntryElsewhere(w: World, v: World, e: Entry)
    requires v.log == w.log + [e] && v.index == w.index && (e.Made? ==> e.index == w.index)
    ensures Elsewhere(w, v)
  {
    forall k: nat | k != w.index
      ensures Deeds(v.log, k) == Deeds(w.log, k)
    {
      DeedsAppend(w.log, e, k);
    }
  }

  lemma SameLogElsewhere(w: World, v: World)
    requires v.log == w.log && v.index == w.index
    ensures Elsewhere(w, v)
  {
  }

  lemma {:induction false} EventsElsewhere(w: World, es: seq<Event>)
    ensures Elsewhere(w, ApplyAll(w, es))
    decreases |es|
  {
    if es == [] {
      SameLogElsewhere(w, w);
    } else {
      var u := Effect(w, es[0]);
      EntryElsewhere(w, Apply(w, es[0]), Happened(w.index, es[0], w.session.state, u.session.state, Fired(u)));
      EventsElsewhere(Apply(w, es[0]), es[1..]);
      ElsewhereTransitive(w, Apply(w, es[0]), ApplyAll(w, es));
    }
  }

  lemma AskElsewhere(w: World, c: Call)
    ensures Elsewhere(w, Ask(w, c).world)
  {
    EntryElsewhere(w, Sent(w, c), EntryOf(w, c));
    EventsElsewhere(Sent(w, c), NextTurn(w).events);
    ElsewhereTransitive(w, Sent(w, c), Ask(w, c).world);
  }

  /** A call made after a change the log does not show. */
  lemma ThenAskElsewhere(w: World, u: World, c: Call)
    requires u.log == w.log && u.index == w.index
    ensures Elsewhere(w, Ask(u, c).world)
  {
    SameLogElsewhere(w, u);
    AskElsewhere(u, c);
    ElsewhereTransitive(w, u, Ask(u, c).world);
  }

  lemma CheckElsewhere(w: World, tapActive: bool, policy: TakeoverPolicy)
    ensures Elsewhere(w, TakeoverCheck(w, tapActive, policy).world)
  {
    if w.human.pendingReal {
      RealTakeoverIs(w);
      EntryElsewhere(w, Marked(w), Consumption(w));
      AskElsewhere(Marked(w), Overlay);
      ElsewhereTransitive(w, Marked(w), RealTakeover(w));
    } else {
      SameLogElsewhere(w, TakeoverCheck(w, tapActive, policy).world);
    }
  }

  lemma NapElsewhere(w: World, deadline: Instant)
    requires w.now < deadline
    ensures Elsewhere(w, Nap(w, deadline).world)
  {
    var slept := Ask(w, Sleep(Min(deadline - w.now, POLL_MS))).world;
    NapIs(w, deadline);
    AskElsewhere(w, Sleep(Min(deadline - w.now, POLL_MS)));
    SameLogElsewhere(slept, Nap(w, deadline).world);
    ElsewhereTransitive(w, slept, Nap(w, deadline).world);
  }

  lemma {:induction false} WaitElsewhere(w: World, deadline: Instant, tapActive: bool, policy: TakeoverPolicy)
    ensures Elsewhere(w, WaitUntil(w, deadline, tapActive, policy).world)
    decreases if w.now < deadline then deadline - w.now else 0
  {
    if w.now >= deadline {
      SameLogElsewhere(w, w);
    } else {
      WaitStep(w, deadline, tapActive, policy);
      CheckElsewhere(w, tapActive, policy);
      if !TakeoverCheck(w, tapActive, policy).stop {
        var nap := Nap(w, deadline);
        NapElsewhere(w, deadline);
        if !nap.interrupted {
          WaitElsewhere(nap.world, deadline, tapActive, policy);
          ElsewhereTransitive(w, nap.world, WaitUntil(nap.world, deadline, tapActive, policy).world);
        }
      }
    }
  }

  // ---- who is to blame for a failed click ----

  predicate ClickCall(c: Call) { c.DirectClick? || c.AxPress? || c.PhysicalClick? }

  /** Deed `i` is a click the driver failed with an error. */
  predicate ErredAt(es: seq<Entry>, i: nat)
    requires i < |es|
  {
    es[i].Made? && ClickCall(es[i].call) && es[i].reply.verdict.Fails?
  }

  predicate NoneErred(es: seq<Entry>) {
    var none := forall i :: 0 <= i < |es| ==> !ErredAt(es, i);
    none
  }

  /** The outcome that carries the error of deed `i`; a press after a hit-test says that the
      point was covered. */
  function BlameFor(es: seq<Entry>, i: nat): Outcome
    requires i < |es| && ErredAt(es, i)
  {
    var m := es[i].reply.verdict.message;
    if es[i].call.PhysicalClick? then DriverError(m)
    else if es[i].call.AxPress? && i > 0 && es[i - 1].Made? && es[i - 1].call.HitTest? then Refused(OccludedAxError(m))
    else Refused(DriverSaid(m))
  }

  /** An error of a click is the outcome, and only a borrowed click ends in a driver error. */
  ghost predicate Blamed(es: seq<Entry>, o: Outcome) {
    var blamed :=
      && (forall i :: 0 <= i < |es| && ErredAt(es, i) ==> o == BlameFor(es, i))
      && (o.DriverError? ==> exists i :: 0 <= i < |es| && ErredAt(es, i) && es[i].call.PhysicalClick?);
    blamed
  }

  lemma NoneBlamed(es: seq<Entry>, o: Outcome)
    requires NoneErred(es) && !o.DriverError?
    ensures Blamed(es, o)
  {
  }

  lemma NoneErredStill(es: seq<Entry>, e: Entry)
    requires NoneErred(es) && (e.Made? && ClickCall(e.call) ==> !e.reply.verdict.Fails?)
    ensures NoneErred(es + [e])
  {
    forall i | 0 <= i < |es + [e]|
      ensures !ErredAt(es + [e], i)
    {
      if i < |es| {
        assert !ErredAt(es, i);
      }
    }
  }

  lemma LastBlamed(es: seq<Entry>, e: Entry)
    requires NoneErred(es) && e.Made? && ClickCall(e.call) && e.reply.verdict.Fails?
    ensures ErredAt(es + [e], |es|) && Blamed(es + [e], BlameFor(es + [e], |es|))
  {
    forall i | 0 <= i < |es|
      ensures !ErredAt(es + [e], i)
    {
      assert !ErredAt(es, i);
    }
  }

  lemma BlamedStill(es: seq<Entry>, e: Entry, o: Outcome)
    requires Blamed(es, o) && (e.Made? ==> !ClickCall(e.call))
    ensures Blamed(es + [e], o)
  {
    forall i | 0 <= i < |es + [e]| && ErredAt(es + [e], i)
      ensures o == BlameFor(es + [e], i)
    {
      assert ErredAt(es, i);
    }
    if o.DriverError? {
      var i :| 0 <= i < |es| && ErredAt(es, i) && es[i].call.PhysicalClick?;
      assert ErredAt(es + [e], i) && (es + [e])[i].call.PhysicalClick?;
    }
  }

  // ---- the click, call by call ----

  /** A stretch of a click in which no click erred. */
  ghost predicate Clean(w: World, v: World) {
    var clean := Elsewhere(w, v) && (NoneErred(Current(w)) ==> NoneErred(Current(v)));
    clean
  }

  /** A finished click: other actions are left alone, and it says who is to blame. */
  ghost predicate Tells(w: World, d: Done) {
    var tells := Elsewhere(w, d.world) && (NoneErred(Current(w)) ==> Blamed(Current(d.world), d.outcome));
    tells
  }

  lemma CleanTransitive(w: World, u: World, v: World)
    requires Clean(w, u) && Clean(u, v)
    ensures Clean(w, v)
  {
    ElsewhereTransitive(w, u, v);
  }

  lemma TellsSooner(w: World, v: World, d: Done)
    requires Clean(w, v) && Tells(v, d)
    ensures Tells(w, d)
  {
    ElsewhereTransitive(w, v, d.world);
  }

  lemma CleanTells(w: World, d: Done)
    requires Clean(w, d.world) && !d.outcome.DriverError?
    ensures Tells(w, d)
  {
    if NoneErred(Current(w)) {
      NoneBlamed(Current(d.world), d.outcome);
    }
  }

  lemma CleanCall(w: World, u: World, c: Call)
    requires u.log == w.log && u.index == w.index && (ClickCall(c) ==> !ReplyTo(u, c).verdict.Fails?)
    ensures Clean(w, Ask(u, c).world)
  {
    ThenAskElsewhere(w, u, c);
    AskBooks(u, c);
    if NoneErred(Current(w)) && IsDeed(c) {
      NoneErredStill(Current(u), EntryOf(u, c));
    } else if !IsDeed(c) {
      assert Current(u) + [] == Current(u);
    }
  }

  /** A call after which the mode is set or a stamp taken, and the overlay follows. */
  lemma CleanEnd(w: World, u: World, v: World)
    requires Clean(w, u) && v.log == u.log && v.index == u.index
    ensures Clean(w, Ask(v, Overlay).world)
  {
    CleanCall(u, v, Overlay);
    CleanTransitive(w, u, Ask(v, Overlay).world);
  }

  lemma StaysClean(w: World)
    ensures Clean(w, w)
  {
    SameLogElsewhere(w, w);
  }

  lemma ErredCall(w: World, u: World, c: Call, o: Outcome)
    requires u.log == w.log && u.index == w.index && ClickCall(c) && ReplyTo(u, c).verdict.Fails?
    requires var es := Current(w) + [EntryOf(u, c)]; ErredAt(es, |Current(w)|) && o == BlameFor(es, |Current(w)|)
    ensures Tells(w, Done(Ask(u, c).world, o))
  {
    ThenAskElsewhere(w, u, c);
    AskBooks(u, c);
    if NoneErred(Current(w)) {
      LastBlamed(Current(u), EntryOf(u, c));
    }
  }

  /** Calls that are no clicks change neither the blame nor other actions. */
  lemma TellsStill(w: World, u: World, v: World, c: Call, o: Outcome)
    requires Tells(w, Done(u, o)) && v.log == u.log && v.index == u.index && !ClickCall(c)
    ensures Tells(w, Done(Ask(v, c).world, o))
  {
    ThenAskElsewhere(u, v, c);
    ElsewhereTransitive(w, u, Ask(v, c).world);
    AskBooks(v, c);
    if NoneErred(Current(w)) && IsDeed(c) {
      BlamedStill(Current(v), EntryOf(v, c), o);
    } else if !IsDeed(c) {
      assert Current(v) + [] == Current(v);
    }
  }

  // ---- the borrow ----

  /** The click has been made, and what will be said of it blames its error. */
  lemma ClickedTells(w: World, c: ClickRequest, detail: PointerDetail.Detail)
    ensures Tells(w, Done(Rippled(w, c), Worlds.Reported(ClickEntry(w, c).reply, detail)))
  {
    var (click, o) := (PhysicalClick(c.button, c.p, c.double), Worlds.Reported(ClickEntry(w, c).reply, detail));
    var u := Ask(Stamp(w), click).world;
    if ClickEntry(w, c).reply.verdict.Fails? {
      ErredCall(w, Stamp(w), click, o);
    } else {
      CleanCall(w, Stamp(w), click);
      CleanTells(w, Done(u, o));
    }
    TellsStill(w, u, u, Overlay, o);
  }

  lemma PressTells(w: World, c: ClickRequest, home: Point, generation: nat)
    ensures Tells(w, Press(w, c, home, generation))
  {
    var u := Rippled(w, c);
    PressIsReturn(w, c, home, generation);
    if Grabbed(u, generation) {
      var hidden := Ask(SetMode(u, Pointer.UserTakeover), Overlay).world;
      var detail := PointerDetail.PhysicalGrabbed(TelemetryOf(hidden.human));
      ClickedTells(w, c, detail);
      TellsStill(w, u, SetMode(u, Pointer.UserTakeover), Overlay, Worlds.Reported(ClickEntry(w, c).reply, detail));
    } else {
      var back := Ask(u, Restore(c.p, home));
      var detail := PointerDetail.PhysicalReturned(back.reply.verdict == Yes);
      var o := Worlds.Reported(ClickEntry(w, c).reply, detail);
      ClickedTells(w, c, detail);
      TellsStill(w, u, u, Restore(c.p, home), o);
      TellsStill(w, back.world, SetMode(back.world, Pointer.Isolated), Overlay, o);
    }
  }

  lemma WarpingClean(w: World, c: ClickRequest, home: Point)
    ensures Clean(w, Warping(w, c, home))
  {
    CleanCall(w, SetMode(w, Pointer.PhysicalFallback), Overlay);
    CleanCall(Shown(w), Stamp(Shown(w)), Warp(home, c.p));
    CleanTransitive(w, Shown(w), Warping(w, c, home));
  }

  lemma BorrowTells(w: World, c: ClickRequest, home: Point, generation: nat)
    ensures Tells(w, Borrow(w, c, home, generation))
  {
    var v := Warping(w, c, home);
    WarpingClean(w, c, home);
    if WarpEntry(w, c, home).reply.verdict != Yes || Grabbed(v, generation) {
      CleanEnd(w, v, SetMode(v, Pointer.UserTakeover));
      CleanTells(w, Borrow(w, c, home, generation));
    } else {
      PressTells(v, c, home, generation);
      TellsSooner(w, v, Press(v, c, home, generation));
    }
  }

  lemma FallbackTells(w: World, c: ClickRequest)
    ensures Tells(w, PhysicalFallback(w, c))
  {
    var v := Looked(w);
    CleanCall(w, w, ReadCursor);
    if NotLent(w) {
      CleanTells(w, PhysicalFallback(w, c));
    } else {
      BorrowTells(v, c, ReplyTo(w, ReadCursor).location, v.human.generation);
      TellsSooner(w, v, PhysicalFallback(w, c));
    }
  }

  // ---- the dispatcher ----

  /** A click or press that landed, its stamp and its ripple. */
  lemma LandedTells(w: World, c: Call, o: Outcome)
    requires ReplyTo(w, c).verdict == Yes && !o.DriverError?
    ensures var v := Ask(w, c).world; Tells(w, Done(Ask(Stamp(v), Overlay).world, o))
  {
    var v := Ask(w, c).world;
    CleanCall(w, w, c);
    CleanEnd(w, v, Stamp(v));
    CleanTells(w, Done(Ask(Stamp(v), Overlay).world, o));
  }

  lemma DeclinedTells(w: World, c: ClickRequest)
    requires Current(w) != [] && Current(w)[|Current(w)| - 1].Made?
    requires Current(w)[|Current(w)| - 1].call.DirectClick?
    ensures Tells(w, Declined(w, c))
  {
    var pid := TargetPid(w.session.scope);
    StaysClean(w);
    if c.double {
      FallbackTells(w, c);
      CleanTells(w, Done(w, Refused(AxUnsupported)));
    } else if pid.None? {
      CleanTells(w, Declined(w, c));
    } else {
      PressedTells(w, c, pid.value);
    }
  }

  lemma PressedTells(w: World, c: ClickRequest, pid: int)
    requires !c.double && TargetPid(w.session.scope) == Some(pid)
    requires Current(w) != [] && Current(w)[|Current(w)| - 1].Made?
    requires Current(w)[|Current(w)| - 1].call.DirectClick?
    ensures Tells(w, Declined(w, c))
  {
    var (v, e) := (Pressed(w, c, pid), PressEntry(w, c, pid));
    DeclinedIs(w, c, pid);
    match e.reply.verdict
    case Yes => LandedTells(w, AxPress(pid, c.p), Declined(w, c).outcome);
    case Fails(m) => ErredCall(w, w, AxPress(pid, c.p), Refused(DriverSaid(m)));
    case No =>
      CleanCall(w, w, AxPress(pid, c.p));
      FallbackTells(v, c);
      TellsSooner(w, v, PhysicalFallback(v, c));
      CleanTells(w, Done(v, Refused(Unavailable)));
  }

  lemma UnoccludedTells(w: World, c: ClickRequest, generation: nat)
    ensures Tells(w, Unoccluded(w, c, generation))
  {
    var (v, e, direct) := (Struck(w, c), DirectEntry(w, c), DirectClick(c.p, c.button, c.double));
    if Grabbed(w, generation) {
      StaysClean(w);
      CleanTells(w, Unoccluded(w, c, generation));
    } else {
      DirectIs(w, c, generation);
      match e.reply.verdict
      case Yes => LandedTells(w, direct, Finished(true, Some(PointerDetail.Direct)));
      case Fails(m) => ErredCall(w, w, direct, Refused(DriverSaid(m)));
      case No => DeclinedDirectTells(w, c, generation);
    }
  }

  lemma DeclinedDirectTells(w: World, c: ClickRequest, generation: nat)
    requires !Grabbed(w, generation) && DirectEntry(w, c).reply.verdict == No
    ensures Tells(w, Unoccluded(w, c, generation))
  {
    var (v, direct) := (Struck(w, c), DirectClick(c.p, c.button, c.double));
    DirectIs(w, c, generation);
    CleanCall(w, w, direct);
    if Grabbed(v, generation) {
      SameLogElsewhere(v, Stamp(v));
      CleanTransitive(w, v, Stamp(v));
      CleanTells(w, Unoccluded(w, c, generation));
    } else {
      Booked(w, direct);
      DeclinedTells(v, c);
      TellsSooner(w, v, Declined(v, c));
    }
  }

  lemma ObstructedTells(w: World, c: ClickRequest, generation: nat, verdict: Occlusion)
    requires Current(w) != [] && Current(w)[|Current(w)| - 1].Made?
    requires Current(w)[|Current(w)| - 1].call.HitTest?
    ensures Tells(w, Obstructed(w, c, generation, verdict))
  {
    var pid := TargetPid(w.session.scope);
    if verdict != Blocked || c.double || pid.None? || Grabbed(w, generation) {
      StaysClean(w);
      CleanTells(w, Obstructed(w, c, generation, verdict));
    } else {
      ObstructedIs(w, c, generation, pid.value);
      match PressEntry(w, c, pid.value).reply.verdict
      case Yes => LandedTells(w, AxPress(pid.value, c.p), Obstructed(w, c, generation, verdict).outcome);
      case Fails(m) => ErredCall(w, w, AxPress(pid.value, c.p), Refused(OccludedAxError(m)));
      case No =>
        CleanCall(w, w, AxPress(pid.value, c.p));
        CleanTells(w, Obstructed(w, c, generation, verdict));
    }
  }

  lemma ClickTells(w: World, c: ClickRequest)
    ensures Tells(w, Worlds.Click(w, c))
  {
    var target := w.session.scope.resolvedTarget;
    if target.None? {
      UnoccludedTells(w, c, w.human.generation);
    } else {
      var v := Tested(w, c);
      var verdict := Judge(target.value, Hit(w, c).reply);
      ScopedClickIs(w, c, target.value);
      CleanCall(w, w, HitTest(c.p));
      Booked(w, HitTest(c.p));
      UnoccludedTells(v, c, w.human.generation);
      ObstructedTells(v, c, w.human.generation, verdict);
      TellsSooner(w, v, Worlds.Click(w, c));
    }
  }

  // ---- what a report says ----

  /** The last call of the action was the one that carries it out. */
  predicate Sends(es: seq<Entry>) {
    es != [] && var last := es[|es| - 1]; last.Made? && last.call.Execute?
  }

  /** The calls of the action carried it out: a click landed, or the driver answered yes to
      what was sent; a move or a wait makes no such call. */
  predicate CarriedOut(a: ComputerAction, es: seq<Entry>) {
    match a
    case Click(_, _, _, _) => exists e :: e in es && Lands(e)
    case DoubleClick(_, _, _, _) => exists e :: e in es && Lands(e)
    case Move(_, _, _, _) => true
    case Wait(_) => true
    case _ => Sends(es) && es[|es| - 1].reply.verdict == Yes
  }

  predicate ClickAction(a: ComputerAction) { a.Click? || a.DoubleClick? }

  predicate SentAction(a: ComputerAction) { a.Drag? || a.Scroll? || a.TypeText? || a.Key? }

  /** The detail of a landed click names the call that landed, and how a restore went. */
  predicate NamesBackend(es: seq<Entry>, d: PointerDetail.Detail) {
    es != [] && var last := es[|es| - 1];
    && last.Made?
    && match last.call
       case DirectClick(_, _, _) => d.Direct?
       case AxPress(_, _) => d.Accessibility?
       case PhysicalClick(_, _, _) => d.PhysicalGrabbed?
       case Restore(_, _) => d == PointerDetail.PhysicalReturned(last.reply.verdict == Yes)
       case _ => false
  }

  function DetailOf(r: Reply): Option<PointerDetail.Detail> {
    match r.detail
    case Some(text) => Some(PointerDetail.Message(text))
    case None => None
  }

  /** The detail of a success. */
  predicate DetailTold(a: ComputerAction, es: seq<Entry>, detail: Option<PointerDetail.Detail>) {
    && (ClickAction(a) ==> detail.Some? && NamesBackend(es, detail.value))
    && (a.Move? ==> detail == Some(PointerDetail.Virtual))
    && (a.Wait? ==> detail.None?)
    && (SentAction(a) ==> Sends(es) && detail == DetailOf(es[|es| - 1].reply))
  }

  /** What the driver answered to an action that was sent and not carried out. */
  predicate AnswerTold(es: seq<Entry>, o: Outcome) {
    && Sends(es)
    && match es[|es| - 1].reply.verdict
       case Yes => false
       case No => o == Finished(false, DetailOf(es[|es| - 1].reply))
       case Fails(m) => o == DriverError(m)
  }

  /** The outcome is told from the calls. */
  ghost predicate OutcomeTold(a: ComputerAction, es: seq<Entry>, o: Outcome) {
    var told :=
      && (Succeeds(o) <==> CarriedOut(a, es))
      && (Succeeds(o) ==> DetailTold(a, es, o.detail))
      && (!Succeeds(o) && ClickAction(a) ==> Blamed(es, o))
      && (!Succeeds(o) && SentAction(a) ==> AnswerTold(es, o));
    told
  }

  lemma ClickOutcome(j: Job, a: ComputerAction, es: seq<Entry>, d: Done)
    requires ClickAction(a) && Honest(j, es, d) && Blamed(es, d.outcome)
    ensures OutcomeTold(a, es, d.outcome)
  {
    if Succeeds(d.outcome) {
      LandedSomewhere(j, es, d);
    }
  }

  lemma LandedSomewhere(j: Job, es: seq<Entry>, d: Done)
    requires Honest(j, es, d) && Succeeds(d.outcome)
    ensures d.outcome.detail.Some? && NamesBackend(es, d.outcome.detail.value) && exists e :: e in es && Lands(e)
  {
    var n := |es|;
    if d.outcome.detail.value.PhysicalReturned? {
      assert es[n - 2] in es;
    } else {
      assert es[n - 1] in es;
    }
  }

  lemma PerformedClick(j: Job, w: World, c: ClickRequest, a: ComputerAction)
    requires Pointing(j, w, c, []) && !Fired(w) && ClickAction(a)
    ensures var d := Worlds.Click(w, c); OutcomeTold(a, Current(d.world), d.outcome) && Elsewhere(w, d.world)
  {
    var es := ClickKeeps(j, w, c);
    ClickTells(w, c);
    assert NoneErred([]);
    ClickOutcome(j, a, es, Worlds.Click(w, c));
  }

  lemma PerformedSend(w: World, r: ResolvedAction, a: ComputerAction)
    requires SentAction(a)
    ensures var d := Posted(w, r);
            && OutcomeTold(a, Current(d.world), d.outcome) && Elsewhere(w, d.world)
            && Current(d.world) == Current(w) + [EntryOf(Stamp(w), Execute(r))]
  {
    ThenAskElsewhere(w, Stamp(w), Execute(r));
    Booked(Stamp(w), Execute(r));
    SendOutcome(a, Current(w), EntryOf(Stamp(w), Execute(r)), Posted(w, r).outcome);
  }

  lemma SendOutcome(a: ComputerAction, ds: seq<Entry>, e: Entry, o: Outcome)
    requires SentAction(a) && e.Made? && e.call.Execute?
    requires o == match e.reply.verdict
                  case Yes => Finished(true, SaidBy(e.reply))
                  case No => Finished(false, SaidBy(e.reply))
                  case Fails(m) => DriverError(m)
    ensures OutcomeTold(a, ds + [e], o)
  {
    assert Sends(ds + [e]) && (ds + [e])[|ds + [e]| - 1] == e;
  }

  /** No deed was done from `w` to `v`. */
  ghost predicate Idle(w: World, v: World) {
    var idle := Elsewhere(w, v) && Current(v) == Current(w);
    idle
  }

  lemma AskIdle(w: World, u: World, c: Call)
    requires u.log == w.log && u.index == w.index && !IsDeed(c)
    ensures Idle(w, Ask(u, c).world)
  {
    ThenAskElsewhere(w, u, c);
    Unbooked(u, c);
  }

  lemma IdleTransitive(w: World, u: World, v: World)
    requires Idle(w, u) && Idle(u, v)
    ensures Idle(w, v)
  {
    ElsewhereTransitive(w, u, v);
  }

  lemma IdleUntil(j: Job, w: World, ds: seq<Entry>, deadline: Instant, tapActive: bool, policy: TakeoverPolicy,
          waited: Waited)
    requires On(j, w, ds) && w.session.mode != Pointer.PhysicalFallback
    requires EndsWait(w, deadline, tapActive, policy, waited)
    ensures Idle(w, waited.world)
  {
    WaitKeeps(j, w, ds, deadline, tapActive, policy);
    WaitElsewhere(w, deadline, tapActive, policy);
  }

  lemma IdleWait(j: Job, w: World, ds: seq<Entry>, ms: nat, deadline: Instant, tapActive: bool,
          policy: TakeoverPolicy, waited: Waited)
    requires On(j, w, ds) && w.session.mode != Pointer.PhysicalFallback
    requires deadline == w.now + ms && waited == WaitOut(w, ms, tapActive, policy)
    ensures Idle(w, waited.world)
  {
    WaitOutEnds(w, ms, deadline, tapActive, policy, waited);
    IdleUntil(j, w, ds, deadline, tapActive, policy, waited);
  }

  /** What performing action `a` leaves. */
  ghost predicate PerformedWell(a: ComputerAction, w: World, done: Performed) {
    var well :=
      && Elsewhere(w, done.world)
      && (done.interrupted ==> a.Wait? && Current(done.world) == Current(w))
      && (SentAction(a) && Current(w) != [] ==> Current(done.world) != [] && Current(done.world)[0] == Current(w)[0])
      && (!done.interrupted ==> OutcomeTold(a, Current(done.world), done.outcome));
    well
  }

  lemma ClicksWell(j: Job, w: World, c: ClickRequest, a: ComputerAction)
    requires Pointing(j, w, c, []) && !Fired(w) && ClickAction(a)
    ensures var d := Worlds.Click(w, c); PerformedWell(a, w, Performed(d.world, d.outcome, false))
  {
    PerformedClick(j, w, c, a);
  }

  lemma SendsWell(w: World, r: ResolvedAction, a: ComputerAction)
    requires SentAction(a)
    ensures var d := Posted(w, r); PerformedWell(a, w, Performed(d.world, d.outcome, false))
  {
    PerformedSend(w, r, a);
  }

  lemma MovesWell(w: World, to: Point, a: ComputerAction)
    requires a.Move?
    ensures var v := Ask(Stamp(w).(session := w.session.(location := to)), Overlay).world;
            PerformedWell(a, w, Performed(v, Finished(true, Some(PointerDetail.Virtual)), false))
  {
    AskIdle(w, Stamp(w).(session := w.session.(location := to)), Overlay);
  }

  lemma WaitsWell(w: World, waited: Waited, a: ComputerAction)
    requires a.Wait? && Idle(w, waited.world)
    ensures PerformedWell(a, w, Performed(waited.world,
                                          if waited.interrupted then Refused(WaitInterrupted) else Finished(true, None),
                                          waited.interrupted))
  {
  }

  lemma PerformsWell(j: Job, w: World, ds: seq<Entry>, a: ComputerAction, r: ResolvedAction, tapActive: bool,
          policy: TakeoverPolicy)
    requires Ready(j, w, ds, r) && w.session.mode != Pointer.PhysicalFallback && AsAsked(a, j.geometry, r)
    ensures PerformedWell(a, w, Perform(w, r, tapActive, policy))
  {
    match r
    case ClickAt(p, button, double) => ClicksWell(j, w, ClickRequest(p, button, double), a);
    case MoveTo(_, to, _) => MovesWell(w, to, a);
    case WaitFor(ms) =>
      IdleWait(j, w, ds, ms, w.now + ms, tapActive, policy, WaitOut(w, ms, tapActive, policy));
      WaitsWell(w, WaitOut(w, ms, tapActive, policy), a);
    case _ => SendsWell(w, r, a);
  }

  // ---- one report ----

  /** The cause that carries the error of deed `i`. */
  function CauseFor(es: seq<Entry>, i: nat): Cause
    requires i < |es| && ErredAt(es, i)
  {
    var m := es[i].reply.verdict.message;
    if es[i].call.PhysicalClick? then Driver(m)
    else if es[i].call.AxPress? && i > 0 && es[i - 1].Made? && es[i - 1].call.HitTest?
    then Said(PointerDetail.Message("TARGET_OCCLUDED;ax_error:" + m))
    else Said(PointerDetail.Message(m))
  }

  /** Why an action that passed its gates failed. */
  ghost predicate Explained(a: ComputerAction, es: seq<Entry>, cause: Cause) {
    && (ClickAction(a) ==>
          && (forall i :: 0 <= i < |es| && ErredAt(es, i) ==> cause == CauseFor(es, i))
          && (cause.Driver? ==> exists i :: 0 <= i < |es| && ErredAt(es, i) && es[i].call.PhysicalClick?))
    && (SentAction(a) ==>
          && Sends(es)
          && var reply := es[|es| - 1].reply;
             match reply.verdict
             case Yes => false
             case Fails(m) => cause == Driver(m)
             case No =>
               cause == Said(PointerDetail.Message(if reply.detail.Some? then reply.detail.value else "action failed")))
  }

  /** The pointer field of a success. */
  ghost predicate PointerTold(a: ComputerAction, es: seq<Entry>, p: Option<PointerDetail.PointerResult>) {
    && (ClickAction(a) ==>
          exists d :: NamesBackend(es, d) && p == PointerDetail.ParseDetail(PointerDetail.DetailText(d)))
    && (a.Move? ==>
          p == Some(PointerDetail.PointerResult("virtual", true, false, 0, None, None, None, None, None)))
    && (a.Wait? ==> p.None?)
    && (SentAction(a) ==>
          && Sends(es)
          && var said := es[|es| - 1].reply.detail;
             p == if said.Some? then PointerDetail.ParseDetail(said.value) else None)
  }

  /** A report of an action that was performed: a success exactly when it was carried out. */
  ghost predicate ReportTold(a: ComputerAction, es: seq<Entry>, r: ActionRun) {
    var told :=
      && (r.status == Success <==> CarriedOut(a, es))
      && (r.status == Success ==> r.cause.None? && PointerTold(a, es, r.pointer))
      && (r.status != Success ==>
            && r.status == Status.Failed && r.pointer.None? && r.cause.Some? && !r.cause.value.Gate?
            && Explained(a, es, r.cause.value));
    told
  }

  lemma BlamedExplains(a: ComputerAction, es: seq<Entry>, o: Outcome)
    requires ClickAction(a) && !Succeeds(o) && Blamed(es, o)
    ensures var r := ReportWith(0, o, false); r.cause.Some? && Explained(a, es, r.cause.value)
  {
  }

  lemma SuccessTold(a: ComputerAction, es: seq<Entry>, o: Outcome, i: nat)
    requires Succeeds(o) && CarriedOut(a, es) && DetailTold(a, es, o.detail)
    ensures ReportTold(a, es, ReportWith(i, o, false))
  {
    if a.Move? {
      PointerDetail.DetailParses(PointerDetail.Virtual);
    }
  }

  lemma FailureTold(a: ComputerAction, es: seq<Entry>, o: Outcome, i: nat)
    requires !Succeeds(o) && !CarriedOut(a, es)
    requires ClickAction(a) ==> Blamed(es, o)
    requires SentAction(a) ==> AnswerTold(es, o)
    ensures ReportTold(a, es, ReportWith(i, o, false))
  {
    if ClickAction(a) {
      BlamedExplains(a, es, o);
    }
  }

  lemma ToldReport(a: ComputerAction, es: seq<Entry>, o: Outcome, i: nat)
    requires OutcomeTold(a, es, o)
    ensures ReportTold(a, es, ReportWith(i, o, false))
  {
    if Succeeds(o) {
      SuccessTold(a, es, o, i);
    } else {
      FailureTold(a, es, o, i);
    }
  }

  // ---- what is left behind ----

  lemma EventsKeepLocation(w: World, es: seq<Event>)
    ensures ApplyAll(w, es).session.location == w.session.location
    decreases |es|
  {
    if es != [] {
      EventsKeepLocation(Apply(w, es[0]), es[1..]);
    }
  }

  lemma AskKeepsLocation(w: World, c: Call)
    ensures Ask(w, c).world.session.location == w.session.location
  {
    EventsKeepLocation(Sent(w, c), NextTurn(w).events);
  }

  /** The clock does not go back, nor does the virtual pointer move. */
  predicate Later(w: World, v: World) { w.now <= v.now && v.session.location == w.session.location }

  lemma ProbeLater(b: Batch, p: Progress, i: nat)
    requires i < |b.actions|
    ensures Later(p.world, Probe(b, p, i).p.world)
  {
    AskKeepsLocation(p.world, ReadCursor);
    ProbeEnds(b, p, i);
  }

  // ---- every report of a run ----

  /** What the focus read of an action answered, if it made one: it then came first. */
  function ReadOf(es: seq<Entry>): Reply {
    if es != [] && es[0].Made? then es[0].reply else Reply(Yes, None, ORIGIN, None, None)
  }

  /** No gate has a reason to refuse action `k`. */
  ghost predicate Unrefused(j: Job, k: nat, es: seq<Entry>)
    requires k < |j.actions|
  {
    forall e: GateError :: !Refuses(j.scope, j.actions[k], j.geometry, ReadOf(es), e)
  }

  /** A gate refused action `k`, for its one reason, and nothing was sent. */
  ghost predicate RefusalTold(j: Job, k: nat, es: seq<Entry>, r: ActionRun)
    requires k < |j.actions|
  {
    && r.status == Status.Failed && r.pointer.None? && r.cause.Some? && r.cause.value.Gate?
    && Refuses(j.scope, j.actions[k], j.geometry, ReadOf(es), r.cause.value.error)
    && (forall e :: e in es ==> e.Made? && e.call == ReadFocus)
  }

  /** The report of action `k`, told from its calls `es`. A cancelled action made none; a
      refused one only its focus read; and any other passed its gates, and its report is a
      success exactly when it was carried out. */
  ghost predicate Accounts(j: Job, k: nat, es: seq<Entry>, r: ActionRun)
    requires k < |j.actions|
  {
    var accounts :=
      && r.index == k
      && (r.status == Cancelled ==> es == [])
      && (r.status != Cancelled ==>
            RefusalTold(j, k, es, r) || (Unrefused(j, k, es) && ReportTold(j.actions[k], es, r)));
    accounts
  }

  /** Every report so far is told from the log. */
  ghost predicate Accounted(j: Job, log: seq<Entry>, rs: seq<ActionRun>) {
    var accounted := |rs| <= |j.actions| && forall k :: 0 <= k < |rs| ==> Accounts(j, k, Deeds(log, k), rs[k]);
    accounted
  }

  lemma AccountedStill(j: Job, w: World, v: World, rs: seq<ActionRun>)
    requires Accounted(j, w.log, rs) && Elsewhere(w, v) && w.index >= |rs|
    ensures Accounted(j, v.log, rs)
  {
  }

  lemma AccountedNext(j: Job, log: seq<Entry>, rs: seq<ActionRun>, r: ActionRun)
    requires Accounted(j, log, rs) && |rs| < |j.actions| && Accounts(j, |rs|, Deeds(log, |rs|), r)
    ensures Accounted(j, log, rs + [r])
  {
  }

  /** Cancelled actions made no call. */
  lemma AccountedFilled(j: Job, log: seq<Entry>, rs: seq<ActionRun>, n: nat)
    requires Accounted(j, log, rs) && |rs| <= n == |j.actions|
    requires forall k: nat :: k >= |rs| ==> Deeds(log, k) == []
    ensures Accounted(j, log, FillCancelled(rs, |rs|, n))
  {
    var filled := FillCancelled(rs, |rs|, n);
    FillsUp(rs, |rs|, n);
    forall k | 0 <= k < n
      ensures Accounts(j, k, Deeds(log, k), filled[k])
    {
      if k < |rs| {
        assert filled[..|rs|][k] == filled[k];
      } else {
        assert filled[k] == CancelledRun(k);
      }
    }
  }

  lemma NoDeedsBeyond(j: Job, w: World, i: nat)
    requires Between(j, w, i)
    ensures forall k: nat :: k >= i ==> Deeds(w.log, k) == []
  {
    forall k: nat | k >= i
      ensures Deeds(w.log, k) == []
    {
      NoDeedsYet(w.log, k);
    }
  }

  /** Where action `i` of a run begins. */
  ghost predicate Starting(j: Job, b: Batch, p: Progress, i: nat) {
    var starting :=
      && MadeFor(j, b) && i < |b.actions| && Between(j, p.world, i)
      && |p.reports| == i && Accounted(j, p.world.log, p.reports);
    starting
  }

  /** What one iteration leaves of the reports. */
  ghost predicate AccountedNextly(j: Job, next: Next, i: nat, n: nat) {
    var accounted := match next
      case Continue(q) => |q.reports| == i + 1 && Accounted(j, q.world.log, q.reports)
      case Stop(q) => |q.reports| == n && Accounted(j, q.world.log, q.reports)
      case Abort(_) => true;
    accounted
  }

  /** A batch stopped at a boundary. */
  lemma BoundaryAccounts(j: Job, b: Batch, p: Progress, i: nat)
    requires Starting(j, b, p, i)
    requires TakeoverCheck(p.world.(index := i), b.tapActive, p.detector.policy).stop
    ensures AccountedNextly(j, OneAction(b, p, i), i, |b.actions|)
  {
    var w := p.world.(index := i);
    var v := TakeoverCheck(w, b.tapActive, p.detector.policy).world;
    CheckElsewhere(w, b.tapActive, p.detector.policy);
    AccountedStill(j, w, v, p.reports);
    Begins(j, p.world, i);
    CheckKeeps(j, w, b.tapActive, p.detector.policy);
    OneActionKeeps(j, b, p, i);
    NoDeedsBeyond(j, p.world, i);
    NoDeedsBeyond(j, v, i + 1);
    AccountedFilled(j, v.log, p.reports, |b.actions|);
    FillsUp(p.reports, i, |b.actions|);
  }

  /** The deeds of the gates: the focus read, where there is one. */
  lemma GateDeeds(j: Job, w: World, last: Point)
    requires w.index < |j.actions| && w.session.scope == j.scope && Current(w) == []
    ensures var g := Gates(w, j.actions[w.index], j.geometry, last);
            var es := Current(g.world);
            && Elsewhere(w, g.world)
            && es == (if ReadsFocus(j.scope, j.actions[w.index]) then [EntryOf(w, ReadFocus)] else [])
            && (g.verdict.Ok? ==> Unrefused(j, w.index, es) && AsAsked(j.actions[w.index], j.geometry, g.verdict.value))
            && (g.verdict.Err? ==> RefusalTold(j, w.index, es, FailedRun(w.index, Gate(g.verdict.error))))
  {
    var a := j.actions[w.index];
    var g := Gates(w, a, j.geometry, last);
    SameLogElsewhere(w, w);
    AskElsewhere(w, ReadFocus);
    Booked(w, ReadFocus);
    assert [] + [EntryOf(w, ReadFocus)] == [EntryOf(w, ReadFocus)];
    GatesRefuseExactly(w, a, j.geometry, last, OutOfImage);
    forall e: GateError
      ensures g.verdict == Err(e) <==> Refuses(j.scope, a, j.geometry, ReadOf(Current(g.world)), e)
    {
      GatesRefuseExactly(w, a, j.geometry, last, e);
    }
  }

  lemma RefusalAccounts(j: Job, b: Batch, p: Progress, i: nat)
    requires Starting(j, b, p, i)
    requires !TakeoverCheck(p.world.(index := i), b.tapActive, p.detector.policy).stop
    requires Gates(p.world.(index := i), b.actions[i], b.geometry, p.last).verdict.Err?
    ensures AccountedNextly(j, OneAction(b, p, i), i, |b.actions|)
  {
    var w := p.world.(index := i);
    Begins(j, p.world, i);
    CheckKeeps(j, w, b.tapActive, p.detector.policy);
    NoDeedsBeyond(j, p.world, i);
    GateDeeds(j, w, p.last);
    OneActionKeeps(j, b, p, i);
    var g := Gates(w, b.actions[i], b.geometry, p.last);
    var r := FailedRun(i, Gate(g.verdict.error));
    AccountedStill(j, w, g.world, p.reports);
    AccountedNext(j, g.world.log, p.reports, r);
    NoDeedsBeyond(j, g.world, i + 1);
    AccountedFilled(j, g.world.log, p.reports + [r], |b.actions|);
    FillsUp(p.reports + [r], i + 1, |b.actions|);
  }

  /** What follows an action, its trace and its probe, does no deed. */
  lemma ProbeIdle(b: Batch, p: Progress, i: nat)
    requires i < |b.actions|
    ensures Idle(p.world, Probe(b, p, i).p.world)
  {
    var v := Ask(p.world, ReadCursor).world;
    SameLogElsewhere(p.world, p.world);
    AskIdle(p.world, p.world, ReadCursor);
    TakeoverIdle(v, p.detector.policy);
    IdleTransitive(p.world, v, ApplyTakeover(v, p.detector.policy));
    ProbeEnds(b, p, i);
  }

  lemma TakeoverIdle(w: World, policy: TakeoverPolicy)
    ensures Idle(w, ApplyTakeover(w, policy))
  {
    SameLogElsewhere(w, ApplyTakeover(w, policy));
  }

  /** The progress once action `i` is performed and reported. */
  function Performing(b: Batch, p: Progress, i: nat, r: ResolvedAction): Progress {
    var done := Perform(p.world, r, b.tapActive, p.detector.policy);
    p.(world := done.world, reports := p.reports + [ReportOf(i, done)])
  }

  /** The gates' reasons look at the focus read, which stays the first call. */
  lemma UnrefusedStill(j: Job, k: nat, ds: seq<Entry>, es: seq<Entry>)
    requires k < |j.actions| && Unrefused(j, k, ds)
    requires ReadsFocus(j.scope, j.actions[k]) ==> ds != [] && es != [] && es[0] == ds[0]
    ensures Unrefused(j, k, es)
  {
    forall e: GateError
      ensures !Refuses(j.scope, j.actions[k], j.geometry, ReadOf(es), e)
    {
      assert !Refuses(j.scope, j.actions[k], j.geometry, ReadOf(ds), e);
    }
  }

  lemma PerformedAccounts(j: Job, i: nat, w: World, done: Performed)
    requires i < |j.actions| && PerformedWell(j.actions[i], w, done) && Unrefused(j, i, Current(w))
    requires if ReadsFocus(j.scope, j.actions[i]) then Current(w) != [] else Current(w) == []
    ensures Accounts(j, i, Current(done.world), ReportOf(i, done))
  {
    if !done.interrupted {
      ToldReport(j.actions[i], Current(done.world), done.outcome, i);
      UnrefusedStill(j, i, Current(w), Current(done.world));
    }
    ReportInPlace(i, done);
  }

  lemma ReportedAccounts(j: Job, b: Batch, p: Progress, i: nat, r: ResolvedAction, ds: seq<Entry>)
    requires i < |j.actions| && p.world.index == i && |p.reports| == i && Accounted(j, p.world.log, p.reports)
    requires Ready(j, p.world, ds, r) && p.world.session.mode != Pointer.PhysicalFallback
    requires AsAsked(j.actions[i], j.geometry, r)
    requires Unrefused(j, i, Current(p.world))
    requires if ReadsFocus(j.scope, j.actions[i]) then Current(p.world) != [] else Current(p.world) == []
    ensures var q := Performing(b, p, i, r); |q.reports| == i + 1 && Accounted(j, q.world.log, q.reports)
  {
    var a := j.actions[i];
    var done := Perform(p.world, r, b.tapActive, p.detector.policy);
    PerformsWell(j, p.world, ds, a, r, b.tapActive, p.detector.policy);
    AccountedStill(j, p.world, done.world, p.reports);
    PerformedAccounts(j, i, p.world, done);
    AccountedNext(j, done.world.log, p.reports, ReportOf(i, done));
  }

  lemma AccountedIdle(j: Job, w: World, v: World, rs: seq<ActionRun>)
    requires Accounted(j, w.log, rs) && Idle(w, v)
    ensures Accounted(j, v.log, rs)
  {
  }

  /** What is left of a dispatched action once it is performed. */
  lemma DispatchEnds(b: Batch, p: Progress, i: nat, r: ResolvedAction)
    requires i < |b.actions|
    ensures var (q, next) := (Performing(b, p, i, r), Dispatch(b, p, i, r));
            var recorded := q.(world := Ask(q.world, RecordTrace).world);
            if Perform(p.world, r, b.tapActive, p.detector.policy).interrupted then
              next == Stop(q.(reports := FillCancelled(q.reports, i + 1, |b.actions|)))
            else next.Abort? || next == Probe(b, q, i) || next == Probe(b, recorded, i)
  {
  }

  lemma ProbeAccounts(j: Job, b: Batch, q: Progress, i: nat)
    requires MadeFor(j, b) && i < |b.actions| && |q.reports| == i + 1 && Accounted(j, q.world.log, q.reports)
    requires Between(j, Probe(b, q, i).p.world, i + 1)
    ensures AccountedNextly(j, Probe(b, q, i), i, |b.actions|)
  {
    var v := Probe(b, q, i).p.world;
    ProbeIdle(b, q, i);
    AccountedIdle(j, q.world, v, q.reports);
    NoDeedsBeyond(j, v, i + 1);
    AccountedFilled(j, v.log, q.reports, |b.actions|);
    FillsUp(q.reports, i + 1, |b.actions|);
  }

  lemma DispatchAccounts(j: Job, b: Batch, p: Progress, i: nat, r: ResolvedAction)
    requires MadeFor(j, b) && i < |b.actions| && Between(j, Dispatch(b, p, i, r).p.world, i + 1)
    requires var q := Performing(b, p, i, r); |q.reports| == i + 1 && Accounted(j, q.world.log, q.reports)
    ensures AccountedNextly(j, Dispatch(b, p, i, r), i, |b.actions|)
  {
    var q := Performing(b, p, i, r);
    var u := Ask(q.world, RecordTrace).world;
    DispatchEnds(b, p, i, r);
    if Perform(p.world, r, b.tapActive, p.detector.policy).interrupted {
      NoDeedsBeyond(j, q.world, i + 1);
      AccountedFilled(j, q.world.log, q.reports, |b.actions|);
      FillsUp(q.reports, i + 1, |b.actions|);
    } else if Dispatch(b, p, i, r) == Probe(b, q, i) {
      ProbeAccounts(j, b, q, i);
    } else if !Dispatch(b, p, i, r).Abort? {
      AskIdle(q.world, q.world, RecordTrace);
      AccountedIdle(j, q.world, u, q.reports);
      ProbeAccounts(j, b, q.(world := u), i);
    }
  }

  /** An action that passed its gates. */
  lemma PassedAccounts(j: Job, b: Batch, p: Progress, i: nat)
    requires Starting(j, b, p, i)
    requires !TakeoverCheck(p.world.(index := i), b.tapActive, p.detector.policy).stop
    requires Gates(p.world.(index := i), b.actions[i], b.geometry, p.last).verdict.Ok?
    ensures AccountedNextly(j, OneAction(b, p, i), i, |b.actions|)
  {
    var w := p.world.(index := i);
    var g := Gates(w, b.actions[i], b.geometry, p.last);
    Begins(j, p.world, i);
    CheckKeeps(j, w, b.tapActive, p.detector.policy);
    NoDeedsBeyond(j, p.world, i);
    GateDeeds(j, w, p.last);
    var ds := GatesKeep(j, w, p.last);
    OneActionKeeps(j, b, p, i);
    AccountedStill(j, w, g.world, p.reports);
    ReportedAccounts(j, b, p.(world := g.world), i, g.verdict.value, ds);
    DispatchAccounts(j, b, p.(world := g.world), i, g.verdict.value);
  }

  lemma OneActionAccounts(j: Job, b: Batch, p: Progress, i: nat)
    requires Starting(j, b, p, i)
    ensures AccountedNextly(j, OneAction(b, p, i), i, |b.actions|)
  {
    var w := p.world.(index := i);
    if TakeoverCheck(w, b.tapActive, p.detector.policy).stop {
      BoundaryAccounts(j, b, p, i);
    } else if Gates(w, b.actions[i], b.geometry, p.last).verdict.Err? {
      RefusalAccounts(j, b, p, i);
    } else {
      PassedAccounts(j, b, p, i);
    }
  }

  /** An Ok run has a report for each action, told from its log. */
  ghost predicate Reckoned(j: Job, n: nat, r: BatchResult) {
    var reckoned := r.ok ==> |r.p.reports| == n && Accounted(j, r.p.world.log, r.p.reports);
    reckoned
  }

  lemma {:induction false} RunAccounts(j: Job, b: Batch, p: Progress, i: nat)
    requires MadeFor(j, b) && i <= |b.actions| && Between(j, p.world, i)
    requires |p.reports| == i && Accounted(j, p.world.log, p.reports)
    ensures Reckoned(j, |b.actions|, RunFrom(b, p, i))
    decreases |b.actions| - i, 0
  {
    if i < |b.actions| {
      OneActionKeeps(j, b, p, i);
      OneActionAccounts(j, b, p, i);
      AfterAccounts(j, b, OneAction(b, p, i), i);
    }
  }

  lemma StopReckoned(j: Job, next: Next, i: nat, n: nat)
    requires AccountedNextly(j, next, i, n)
    ensures next.Continue? ==> |next.p.reports| == i + 1 && Accounted(j, next.p.world.log, next.p.reports)
    ensures !next.Continue? ==> Reckoned(j, n, BatchResult(next.p, next.Stop?))
  {
  }

  lemma SameReckoned(j: Job, n: nat, r: BatchResult, s: BatchResult)
    requires r == s && Reckoned(j, n, s)
    ensures Reckoned(j, n, r)
  {
  }

  lemma AfterIs(b: Batch, next: Next, i: nat)
    requires i < |b.actions|
    ensures After(b, next, i)
         == if next.Continue? then RunFrom(b, next.p, i + 1) else BatchResult(next.p, next.Stop?)
  {
  }

  lemma {:induction false} AfterAccounts(j: Job, b: Batch, next: Next, i: nat)
    requires MadeFor(j, b) && i < |b.actions| && Between(j, next.p.world, i + 1)
    requires AccountedNextly(j, next, i, |b.actions|)
    ensures Reckoned(j, |b.actions|, After(b, next, i))
    decreases |b.actions| - i - 1, 1
  {
    StopReckoned(j, next, i, |b.actions|);
    AfterIs(b, next, i);
    if next.Continue? {
      RunAccounts(j, b, next.p, i + 1);
      SameReckoned(j, |b.actions|, After(b, next, i), RunFrom(b, next.p, i + 1));
    } else {
      SameReckoned(j, |b.actions|, After(b, next, i), BatchResult(next.p, next.Stop?));
    }
  }

  /** Every Ok run's reports are told from its log. A cancelled action made no call that
      posts or reads a gate. An action a gate refused failed for that gate's one reason, and
      sent nothing. Every other action passed its gates, and its report is a success exactly
      when it was carried out: a click landed, the driver answered yes to what was sent, or
      it is a move or a finished wait. A failure carries the driver's error, or its detail. */
  lemma ReportsTellTheLog(j: Job, b: Batch, w: World, d: Detector)
    requires Started(j, b, w)
    ensures Reckoned(j, |b.actions|, RunBatch(b, w, d))
  {
    StartsBetween(j, b, w);
    RunAccounts(j, b, Progress(w, [], w.session.location, d.(streak := 0)), 0);
  }

  // ---- moves and waits ----

  lemma DispatchLater(b: Batch, p: Progress, i: nat, r: ResolvedAction)
    requires i < |b.actions| && Dispatch(b, p, i, r).Continue?
    ensures var done := Perform(p.world, r, b.tapActive, p.detector.policy);
            !done.interrupted && Later(done.world, Dispatch(b, p, i, r).p.world)
  {
    var q := Performing(b, p, i, r);
    DispatchEnds(b, p, i, r);
    ProbeLater(b, q, i);
    AskKeepsLocation(q.world, RecordTrace);
    ProbeLater(b, q.(world := Ask(q.world, RecordTrace).world), i);
  }

  lemma MoveArrives(w: World, to: Point, from: Point, durationMs: Option<nat>, tapActive: bool, policy: TakeoverPolicy)
    ensures Perform(w, MoveTo(from, to, durationMs), tapActive, policy).world.session.location == to
  {
    AskKeepsLocation(Stamp(w).(session := w.session.(location := to)), Overlay);
  }

  lemma WaitedOut(j: Job, w: World, ds: seq<Entry>, deadline: Instant, tapActive: bool, policy: TakeoverPolicy,
          waited: Waited)
    requires On(j, w, ds) && w.session.mode != Pointer.PhysicalFallback
    requires EndsWait(w, deadline, tapActive, policy, waited)
    ensures !waited.interrupted ==> waited.world.now >= deadline
  {
    WaitKeeps(j, w, ds, deadline, tapActive, policy);
  }

  lemma WaitLasts(j: Job, w: World, ds: seq<Entry>, ms: nat, tapActive: bool, policy: TakeoverPolicy)
    requires On(j, w, ds) && w.session.mode != Pointer.PhysicalFallback
    ensures var done := Perform(w, WaitFor(ms), tapActive, policy); !done.interrupted ==> done.world.now >= w.now + ms
  {
    var done := Perform(w, WaitFor(ms), tapActive, policy);
    OnlyWaitsAreInterrupted(w, WaitFor(ms), tapActive, policy);
    WaitOutEnds(w, ms, w.now + ms, tapActive, policy, Waited(done.world, done.interrupted));
    WaitedOut(j, w, ds, w.now + ms, tapActive, policy, Waited(done.world, done.interrupted));
  }

  /** A move the batch goes on from has left the virtual pointer at the global image of its
      point; a wait the batch goes on from has lasted as long as was asked. */
  lemma MovesAndWaitsAsAsked(j: Job, b: Batch, p: Progress, i: nat)
    requires MadeFor(j, b) && i < |b.actions| && Between(j, p.world, i) && OneAction(b, p, i).Continue?
    ensures var (a, v) := (b.actions[i], OneAction(b, p, i).p.world);
            && (a.Move? ==> b.geometry.ToGlobal(a.space, Point(a.x, a.y)) == Ok(v.session.location))
            && (a.Wait? ==> v.now >= p.world.now + a.waitMs)
  {
    var w := p.world.(index := i);
    var g := Gates(w, b.actions[i], b.geometry, p.last);
    Begins(j, p.world, i);
    CheckKeeps(j, w, b.tapActive, p.detector.policy);
    var ds := GatesKeep(j, w, p.last);
    GatesRefuseExactly(w, b.actions[i], b.geometry, p.last, OutOfImage);
    DispatchLater(b, p.(world := g.world), i, g.verdict.value);
    match g.verdict.value
    case MoveTo(from, to, durationMs) =>
      MoveArrives(g.world, to, from, durationMs, b.tapActive, p.detector.policy);
    case WaitFor(ms) => WaitLasts(j, g.world, ds, ms, b.tapActive, p.detector.policy);
    case _ =>
  }

  // ---- the telemetry of a borrow ----

  lemma {:induction false} EventsMarkNothing(w: World, es: seq<Event>)
    ensures ApplyAll(w, es).human.takeoverStartedAt == w.human.takeoverStartedAt
    decreases |es|
  {
    if es != [] {
      EventsMarkNothing(Apply(w, es[0]), es[1..]);
    }
  }

  lemma AskMarksNothing(w: World, c: Call)
    ensures Ask(w, c).world.human.takeoverStartedAt == w.human.takeoverStartedAt
  {
    EventsMarkNothing(Sent(w, c), NextTurn(w).events);
  }

  lemma WarpMarksNothing(w: World, c: ClickRequest, home: Point)
    ensures Warping(w, c, home).human.takeoverStartedAt == w.human.takeoverStartedAt
  {
    AskMarksNothing(SetMode(w, Pointer.PhysicalFallback), Overlay);
    AskMarksNothing(Stamp(Shown(w)), Warp(home, c.p));
  }

  lemma ClickMarksNothing(w: World, c: ClickRequest)
    ensures Rippled(w, c).human.takeoverStartedAt == w.human.takeoverStartedAt
  {
    var click := PhysicalClick(c.button, c.p, c.double);
    AskMarksNothing(Stamp(w), click);
    AskMarksNothing(Ask(Stamp(w), click).world, Overlay);
  }

  lemma SettledMarksNothing(w: World, c: ClickRequest)
    requires Settled(w, c).Some?
    ensures Settled(w, c).value.human.takeoverStartedAt == w.human.takeoverStartedAt
  {
    var v := Looked(w);
    var warping := Warping(v, c, w.cursor);
    AskMarksNothing(w, ReadCursor);
    WarpMarksNothing(v, c, w.cursor);
    ClickMarksNothing(warping, c);
    AskMarksNothing(Rippled(warping, c), Restore(c.p, w.cursor));
  }

  /** A borrow marks no takeover: what its report says of one was measured against a mark
      from before it, and it says nothing exactly when there was none or no event. */
  lemma BorrowMarksNothing(w: World, c: ClickRequest)
    ensures var v := PhysicalFallback(w, c).world;
            && v.human.takeoverStartedAt == w.human.takeoverStartedAt
            && (TelemetryOf(v.human).takeover.Some? <==>
                  v.human.humanEventAt.Some? && w.human.takeoverStartedAt.Some?)
  {
    BorrowSettles(w, c);
    if Settled(w, c).Some? {
      SettledMarksNothing(w, c);
      AskMarksNothing(Settled(w, c).value, Overlay);
    } else {
      AskMarksNothing(w, ReadCursor);
    }
  }
}
