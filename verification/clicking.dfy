/** The click dispatcher: every click obeys the rules, reports exactly what landed, and
    gives up only when the rules leave it nothing to try. */
module Clicking {
  import opened Basics
  import opened Coordinates
  import opened Actions
  import opened Worlds
  import opened Rules
  import opened Safety
  import opened Borrowing
  import Pointer
  import PointerDetail

  /** A deed that clicked. */
  predicate Lands(e: Entry) {
    e.Made? && (e.call.DirectClick? || e.call.AxPress? || e.call.PhysicalClick?) && e.reply.verdict == Yes
  }

  predicate NothingLanded(es: seq<Entry>) { forall e :: e in es ==> !Lands(e) }

  predicate Succeeds(o: Outcome) { o.Finished? && o.success }

  /** A reported success names the backend whose click landed; anything else means that
      no click landed. */
  ghost predicate Honest(j: Job, es: seq<Entry>, d: Done) {
    var n := |es|;
    var honest :=
      if !Succeeds(d.outcome) then NothingLanded(es)
      else
        && d.outcome.detail.Some? && n >= 1
        && match d.outcome.detail.value
           case Direct => Lands(es[n - 1]) && es[n - 1].call.DirectClick?
           case Accessibility(occluded) =>
             Lands(es[n - 1]) && es[n - 1].call.AxPress? && (occluded.Some? <==> Covered(j, es[..n - 1]))
           case PhysicalGrabbed(_) => Lands(es[n - 1]) && es[n - 1].call.PhysicalClick? && Fired(d.world)
           case PhysicalReturned(restored) =>
             && n >= 2 && Lands(es[n - 2]) && es[n - 2].call.PhysicalClick?
             && es[n - 1].Made? && es[n - 1].call.Restore? && restored == (es[n - 1].reply.verdict == Yes)
           case _ => false;
    honest
  }

  predicate Clicks(c: Call) { c.DirectClick? || c.AxPress? || c.Warp? || c.PhysicalClick? }

  /** An undisturbed click that fails has tried every backend the rules allow, except
      that the cursor is not borrowed when it cannot be read or the user is at it. */
  ghost predicate Exhausted(j: Job, k: nat, es: seq<Entry>, d: Done)
    requires k < |j.actions|
  {
    var exhausted := !Succeeds(d.outcome) && !Fired(d.world) ==>
      forall c :: Clicks(c) && May(j, k, es, c) ==>
        c.Warp? && (d.outcome == Refused(Unavailable) || d.outcome == Refused(HumanTakeover));
    exhausted
  }

  /** What a finished click guarantees. */
  ghost predicate Clicked(j: Job, w: World, es: seq<Entry>, d: Done)
    requires w.index < |j.actions|
  {
    Kept(j, w, d.world, es) && Honest(j, es, d) && Exhausted(j, w.index, es, d)
  }

  lemma ClickedSooner(j: Job, w: World, v: World, es: seq<Entry>, d: Done)
    requires v.index == w.index < |j.actions| && Since(j, w, v) && Clicked(j, v, es, d)
    ensures Clicked(j, w, es, d)
  {
    SinceTransitive(j, w, v, d.world);
  }

  /** A click that makes no further call. */
  lemma GivesUp(j: Job, w: World, es: seq<Entry>, d: Done)
    requires On(j, w, es) && w.session.mode != Pointer.PhysicalFallback && d.world == w && !Succeeds(d.outcome)
    requires NothingLanded(es)
    requires Fired(w) || forall c :: Clicks(c) ==> !May(j, w.index, es, c)
    ensures Clicked(j, w, es, d)
  {
  }

  // ---- the physical backend ----

  lemma BorrowLandedNothing(es: seq<Entry>, n: nat, c: ClickRequest, home: Point, d: Done, i: nat)
    requires n <= i < |es| && (forall e :: e in es ==> e.Made?) && Told(es, n, c, home, d) && !Succeeds(d.outcome)
    ensures !Lands(es[i])
  {
    assert es[i] in es;
    if i == n + 1 {
      assert es[n + 1] == es[i] && |es| >= n + 2;
    }
  }

  lemma BorrowLanded(j: Job, es: seq<Entry>, n: nat, c: ClickRequest, home: Point, d: Done)
    requires n <= |es| && (forall e :: e in es ==> e.Made?) && Told(es, n, c, home, d) && Succeeds(d.outcome)
    ensures Honest(j, es, d)
  {
    if |es| == n + 2 {
      assert es[n + 1] in es;
    } else {
      assert |es| == n + 3 && es[n + 1] in es && es[n + 2] in es;
    }
  }

  lemma BorrowIsHonest(j: Job, w: World, n: nat, c: ClickRequest, home: Point, es: seq<Entry>, d: Done)
    requires n <= |es| && Borrowed(j, w, n, c, home, es, d) && NothingLanded(es[..n])
    ensures Honest(j, es, d)
  {
    if Succeeds(d.outcome) {
      BorrowLanded(j, es, n, c, home, d);
    } else {
      forall i | 0 <= i < |es|
        ensures !Lands(es[i])
      {
        if i < n {
          assert es[..n][i] == es[i];
        } else {
          BorrowLandedNothing(es, n, c, home, d, i);
        }
      }
    }
  }

  lemma BorrowExhausts(j: Job, w: World, n: nat, c: ClickRequest, home: Point, es: seq<Entry>, d: Done)
    requires n <= |es| && w.index < |j.actions| && Borrowed(j, w, n, c, home, es, d)
    requires |es| > n
    ensures Exhausted(j, w.index, es, d)
  {
  }

  /** Whatever came before a warp was declined. */
  lemma DeclinedBeforeWarp(j: Job, k: nat, es: seq<Entry>, n: nat)
    requires k < |j.actions| && Chain(j, k, es) && n < |es| && es[n].Made? && es[n].call.Warp?
    ensures NothingLanded(es[..n])
  {
    ChainAt(j, k, es, n);
    var d := if DirectDeclined(es[..n]) then n - 1 else n - 2;
    ChainAt(j, k, es, d);
    forall e | e in es[..n]
      ensures !Lands(e)
    {
      var i :| 0 <= i < n && es[i] == e;
      if i < d {
        assert OnTop(j, es[..d], es[d].call.p);
        assert es[..d][i] == e;
      }
    }
  }

  lemma NothingBorrowed(j: Job, w: World, c: ClickRequest, ds: seq<Entry>, d: Done)
    requires Borrowed(j, w, |ds|, c, w.cursor, ds, d) && w.index < |j.actions| && NothingLanded(ds)
    requires Fired(d.world) || d.outcome == Refused(Unavailable) || d.outcome == Refused(HumanTakeover)
    requires forall q :: Clicks(q) && May(j, w.index, ds, q) ==> q.Warp?
    ensures Clicked(j, w, ds, d)
  {
  }

  lemma BorrowClicks(j: Job, w: World, n: nat, c: ClickRequest, home: Point, es: seq<Entry>, d: Done)
    requires n < |es| && w.index < |j.actions| && Borrowed(j, w, n, c, home, es, d)
    ensures Clicked(j, w, es, d)
  {
    DeedsChain(j, d.world.log, w.index);
    DeclinedBeforeWarp(j, w.index, es, n);
    BorrowIsHonest(j, w, n, c, home, es, d);
    BorrowExhausts(j, w, n, c, home, es, d);
  }

  lemma FallbackClicks(j: Job, w: World, c: ClickRequest, ds: seq<Entry>) returns (es: seq<Entry>)
    requires On(j, w, ds) && Borrows(j, w.index, ds, c) && w.session.mode != Pointer.PhysicalFallback
    requires NothingLanded(ds)
    requires forall q :: Clicks(q) && May(j, w.index, ds, q) ==> q.Warp?
    ensures Clicked(j, w, es, PhysicalFallback(w, c))
  {
    var d := PhysicalFallback(w, c);
    es := FallbackKeeps(j, w, c, ds);
    if |es| == |ds| {
      NothingBorrowed(j, w, c, ds, d);
    } else {
      BorrowClicks(j, w, |ds|, c, w.cursor, es, d);
    }
  }

  // ---- the accessibility backend ----

  /** Success at the last deed: the stamp and the ripple follow. */
  lemma Landed(j: Job, w: World, v: World, es: seq<Entry>, detail: PointerDetail.Detail)
    requires On(j, v, es) && Since(j, w, v) && v.index == w.index < |j.actions|
    requires w.session.mode != Pointer.PhysicalFallback
    requires es != [] && Lands(es[|es| - 1])
    requires (es[|es| - 1].call.DirectClick? && detail.Direct?)
          || (es[|es| - 1].call.AxPress? && detail.Accessibility?
              && (detail.occludedBy.Some? <==> Covered(j, es[..|es| - 1])))
    ensures Clicked(j, w, es, Done(Ask(Stamp(v), Overlay).world, Finished(true, Some(detail))))
  {
    TweakKeeps(j, v, Stamp(v));
    Passes(j, Stamp(v), es, Overlay);
    SinceTransitive(j, w, v, Ask(Stamp(v), Overlay).world);
  }

  /** A deed that did not click, after which nothing more may be tried. */
  lemma LastTry(j: Job, w: World, v: World, ds: seq<Entry>, e: Entry, o: Outcome)
    requires On(j, v, ds + [e]) && Since(j, w, v) && v.index == w.index < |j.actions|
    requires w.session.mode != Pointer.PhysicalFallback
    requires NothingLanded(ds) && !Lands(e) && !Succeeds(o)
    requires Fired(v) || forall c :: Clicks(c) ==> !May(j, w.index, ds + [e], c)
    ensures Clicked(j, w, ds + [e], Done(v, o))
  {
  }

  /** A failed press leaves nothing but, if it was plainly declined, a borrow. */
  lemma AfterPress(j: Job, k: nat, ds: seq<Entry>, e: Entry, c: Call)
    requires k < |j.actions| && ds != [] && DeedOf(e, k) && e.call.AxPress? && e.reply.verdict != Yes
    requires Clicks(c) && May(j, k, ds + [e], c)
    ensures c.Warp? && j.scope.policy == Pointer.PhysicalAllowed && e.reply.verdict == No && DirectDeclined(ds)
  {
    assert (ds + [e])[..|ds|] == ds;
  }

  lemma PressMayBorrow(j: Job, k: nat, ds: seq<Entry>, e: Entry, c: ClickRequest)
    requires k < |j.actions| && DeedOf(e, k) && e.call.AxPress? && e.reply.verdict == No && DirectDeclined(ds)
    requires Aimed(j, k, ClickAt(c.p, c.button, c.double)) && !c.double && j.scope.policy == Pointer.PhysicalAllowed
    ensures Borrows(j, k, ds + [e], c)
  {
    assert (ds + [e])[..|ds|] == ds;
  }

  // ---- the dispatcher ----

  /** In the middle of click `c`, with nothing landed so far. */
  ghost predicate Pointing(j: Job, w: World, c: ClickRequest, ds: seq<Entry>) {
    var pointing :=
      && On(j, w, ds) && NothingLanded(ds) && w.session.mode != Pointer.PhysicalFallback
      && Aimed(j, w.index, ClickAt(c.p, c.button, c.double));
    pointing
  }

  function PressEntry(w: World, c: ClickRequest, pid: int): Entry { EntryOf(w, AxPress(pid, c.p)) }

  function Pressed(w: World, c: ClickRequest, pid: int): World { Ask(w, AxPress(pid, c.p)).world }

  lemma PressStep(j: Job, w: World, c: ClickRequest, pid: int, ds: seq<Entry>)
    requires Pointing(j, w, c, ds) && !Fired(w) && May(j, w.index, ds, AxPress(pid, c.p))
    ensures var (v, es) := (Pressed(w, c, pid), ds + [PressEntry(w, c, pid)]);
            && On(j, v, es) && Since(j, w, v) && v.index == w.index && v.session.mode != Pointer.PhysicalFallback
            && (!Lands(es[|ds|]) ==> Pointing(j, v, c, es))
  {
    Does(j, w, ds, AxPress(pid, c.p));
  }

  /** After a declined direct click. */
  ghost predicate DeclinedHere(j: Job, w: World, c: ClickRequest, ds: seq<Entry>) {
    Pointing(j, w, c, ds) && !Fired(w) && DirectDeclined(ds)
  }

  /** A declined double click leaves only a borrow. */
  lemma OnlyBorrowAfterDouble(j: Job, k: nat, ds: seq<Entry>, c: ClickRequest, q: Call)
    requires k < |j.actions| && DirectDeclined(ds) && c.double && Aimed(j, k, ClickAt(c.p, c.button, c.double))
    requires Clicks(q) && May(j, k, ds, q)
    ensures q.Warp? && j.scope.policy == Pointer.PhysicalAllowed
  {
  }

  lemma DeclinedDouble(j: Job, w: World, c: ClickRequest, ds: seq<Entry>) returns (es: seq<Entry>)
    requires DeclinedHere(j, w, c, ds) && c.double
    ensures Clicked(j, w, es, Declined(w, c))
  {
    forall q | Clicks(q) && May(j, w.index, ds, q)
      ensures q.Warp? && j.scope.policy == Pointer.PhysicalAllowed
    {
      OnlyBorrowAfterDouble(j, w.index, ds, c, q);
    }
    if j.scope.policy == Pointer.PhysicalAllowed {
      es := FallbackClicks(j, w, c, ds);
    } else {
      es := ds;
      GivesUp(j, w, ds, Declined(w, c));
    }
  }

  lemma DeclinedNowhere(j: Job, w: World, c: ClickRequest, ds: seq<Entry>)
    requires DeclinedHere(j, w, c, ds) && !c.double && TargetPid(j.scope).None?
    ensures Clicked(j, w, ds, Declined(w, c))
  {
    GivesUp(j, w, ds, Declined(w, c));
  }

  /** What the dispatcher does with the answer of a press after a declined direct click. */
  lemma DeclinedIs(w: World, c: ClickRequest, pid: int)
    requires !c.double && TargetPid(w.session.scope) == Some(pid)
    ensures var v := Pressed(w, c, pid);
            Declined(w, c) ==
            match PressEntry(w, c, pid).reply.verdict
            case Yes => Done(Ask(Stamp(v), Overlay).world, Finished(true, Some(PointerDetail.Accessibility(None))))
            case No =>
              if w.session.scope.policy == Pointer.PhysicalAllowed then PhysicalFallback(v, c)
              else Done(v, Refused(Unavailable))
            case Fails(m) => Done(v, Refused(DriverSaid(m)))
  {
  }

  lemma DeclinedThenBorrowed(j: Job, w: World, c: ClickRequest, pid: int, ds: seq<Entry>) returns (es: seq<Entry>)
    requires DeclinedHere(j, w, c, ds) && !c.double && TargetPid(j.scope) == Some(pid)
    requires PressEntry(w, c, pid).reply.verdict == No && j.scope.policy == Pointer.PhysicalAllowed
    ensures Clicked(j, w, es, PhysicalFallback(Pressed(w, c, pid), c))
  {
    var (v, e) := (Pressed(w, c, pid), PressEntry(w, c, pid));
    PressStep(j, w, c, pid, ds);
    forall q | Clicks(q) && May(j, w.index, ds + [e], q)
      ensures q.Warp?
    {
      AfterPress(j, w.index, ds, e, q);
    }
    PressMayBorrow(j, w.index, ds, e, c);
    es := FallbackClicks(j, v, c, ds + [e]);
    ClickedSooner(j, w, v, es, PhysicalFallback(v, c));
  }

  /** A press that did not land, with no borrow to follow it. */
  lemma PressedInVain(j: Job, w: World, c: ClickRequest, pid: int, ds: seq<Entry>, o: Outcome)
    requires Pointing(j, w, c, ds) && !Fired(w) && May(j, w.index, ds, AxPress(pid, c.p)) && !Succeeds(o)
    requires PressEntry(w, c, pid).reply.verdict != Yes
    requires PressEntry(w, c, pid).reply.verdict == No && DirectDeclined(ds) ==>
               j.scope.policy != Pointer.PhysicalAllowed
    ensures Clicked(j, w, ds + [PressEntry(w, c, pid)], Done(Pressed(w, c, pid), o))
  {
    var e := PressEntry(w, c, pid);
    PressStep(j, w, c, pid, ds);
    forall q | Clicks(q)
      ensures !May(j, w.index, ds + [e], q)
    {
      if May(j, w.index, ds + [e], q) {
        AfterPress(j, w.index, ds, e, q);
      }
    }
    LastTry(j, w, Pressed(w, c, pid), ds, e, o);
  }

  lemma DeclinedSingle(j: Job, w: World, c: ClickRequest, pid: int, ds: seq<Entry>) returns (es: seq<Entry>)
    requires DeclinedHere(j, w, c, ds) && !c.double && TargetPid(j.scope) == Some(pid)
    ensures Clicked(j, w, es, Declined(w, c))
  {
    var e := PressEntry(w, c, pid);
    DeclinedIs(w, c, pid);
    es := ds + [e];
    if e.reply.verdict == Yes {
      PressStep(j, w, c, pid, ds);
      assert es[..|es| - 1] == ds;
      Landed(j, w, Pressed(w, c, pid), es, PointerDetail.Accessibility(None));
    } else if e.reply.verdict == No && j.scope.policy == Pointer.PhysicalAllowed {
      es := DeclinedThenBorrowed(j, w, c, pid, ds);
    } else {
      PressedInVain(j, w, c, pid, ds, Declined(w, c).outcome);
    }
  }

  lemma DeclinedKeeps(j: Job, w: World, c: ClickRequest, ds: seq<Entry>) returns (es: seq<Entry>)
    requires DeclinedHere(j, w, c, ds)
    ensures Clicked(j, w, es, Declined(w, c))
  {
    if c.double {
      es := DeclinedDouble(j, w, c, ds);
    } else if TargetPid(j.scope).None? {
      es := ds;
      DeclinedNowhere(j, w, c, ds);
    } else {
      es := DeclinedSingle(j, w, c, TargetPid(j.scope).value, ds);
    }
  }

  /** A failed direct click leaves a press or a borrow, and only if plainly declined. */
  lemma AfterDirect(j: Job, k: nat, ds: seq<Entry>, e: Entry, c: Call, p: Point)
    requires k < |j.actions| && OnTop(j, ds, p) && DeedOf(e, k) && e.call.DirectClick?
    requires Clicks(c) && May(j, k, ds + [e], c)
    ensures (c.AxPress? || c.Warp?) && e.reply.verdict == No
  {
    assert (ds + [e])[..|ds|] == ds;
  }

  function DirectEntry(w: World, c: ClickRequest): Entry { EntryOf(w, DirectClick(c.p, c.button, c.double)) }

  function Struck(w: World, c: ClickRequest): World { Ask(w, DirectClick(c.p, c.button, c.double)).world }

  /** What the dispatcher does with the answer of the direct click. */
  lemma UnoccludedIs(j: Job, w0: World, w: World, c: ClickRequest)
    requires Since(j, w0, w) && Since(j, w, Struck(w, c)) && !Fired(w)
    ensures var v := Struck(w, c);
            var stamped := if c.double then Stamp(v) else v;
            Unoccluded(w, c, w0.human.generation) ==
            match DirectEntry(w, c).reply.verdict
            case Yes => Done(Ask(Stamp(v), Overlay).world, Finished(true, Some(PointerDetail.Direct)))
            case Fails(m) => Done(v, Refused(DriverSaid(m)))
            case No => if Fired(v) then Done(stamped, CancelledBy(stamped)) else Declined(v, c)
  {
  }

  lemma StruckKeeps(j: Job, w: World, c: ClickRequest, ds: seq<Entry>)
    requires Pointing(j, w, c, ds) && !Fired(w) && OnTop(j, ds, c.p)
    ensures var (v, es) := (Struck(w, c), ds + [DirectEntry(w, c)]);
            && On(j, v, es) && Since(j, w, v) && v.index == w.index && v.session.mode != Pointer.PhysicalFallback
            && (!Lands(es[|ds|]) ==> Pointing(j, v, c, es))
  {
    Does(j, w, ds, DirectClick(c.p, c.button, c.double));
  }

  lemma UnoccludedLive(j: Job, w0: World, w: World, c: ClickRequest, ds: seq<Entry>) returns (es: seq<Entry>)
    requires Pointing(j, w, c, ds) && Since(j, w0, w) && !Fired(w) && OnTop(j, ds, c.p)
    ensures Clicked(j, w, es, Unoccluded(w, c, w0.human.generation))
  {
    var (v, e, d) := (Struck(w, c), DirectEntry(w, c), Unoccluded(w, c, w0.human.generation));
    StruckKeeps(j, w, c, ds);
    UnoccludedIs(j, w0, w, c);
    es := ds + [e];
    if e.reply.verdict == Yes {
      Landed(j, w, v, es, PointerDetail.Direct);
    } else if e.reply.verdict == No && !Fired(v) {
      es := DeclinedKeeps(j, v, c, es);
      ClickedSooner(j, w, v, es, d);
    } else {
      forall q | Clicks(q) && May(j, w.index, es, q)
        ensures e.reply.verdict == No
      {
        AfterDirect(j, w.index, ds, e, q, c.p);
      }
      TweakKeeps(j, v, Stamp(v));
      LastTry(j, w, d.world, ds, e, d.outcome);
    }
  }

  lemma UnoccludedKeeps(j: Job, w0: World, w: World, c: ClickRequest, ds: seq<Entry>) returns (es: seq<Entry>)
    requires Pointing(j, w, c, ds) && Since(j, w0, w) && OnTop(j, ds, c.p)
    ensures Clicked(j, w, es, Unoccluded(w, c, w0.human.generation))
  {
    GrabIsFired(j, w0, w);
    if Fired(w) {
      es := ds;
      GivesUp(j, w, ds, Unoccluded(w, c, w0.human.generation));
    } else {
      es := UnoccludedLive(j, w0, w, c, ds);
    }
  }

  // ---- a covered point ----

  /** The hit-test did not put the target on top. */
  predicate NotOnTop(j: Job, ds: seq<Entry>) {
    && j.scope.resolvedTarget.Some? && |ds| == 1 && ds[0].Made? && ds[0].call.HitTest?
    && !SawTarget(j.scope.resolvedTarget.value, ds[0].reply)
  }

  lemma ObstructedMayOnlyPress(j: Job, k: nat, ds: seq<Entry>, c: Call)
    requires k < |j.actions| && NotOnTop(j, ds) && Clicks(c) && May(j, k, ds, c)
    ensures c.AxPress? && Covered(j, ds) && AimedAt(j, k, c.p, false) && TargetPid(j.scope) == Some(c.pid)
  {
  }

  lemma ObstructedIs(w: World, c: ClickRequest, generation: nat, pid: int)
    requires !c.double && TargetPid(w.session.scope) == Some(pid) && !Grabbed(w, generation)
    ensures var v := Pressed(w, c, pid);
            Obstructed(w, c, generation, Blocked) ==
            match PressEntry(w, c, pid).reply.verdict
            case Yes =>
              Done(Ask(Stamp(v), Overlay).world,
                   Finished(true, Some(PointerDetail.Accessibility(Some("blocked")))))
            case No => Done(v, Refused(Refusal.Occluded))
            case Fails(m) => Done(v, Refused(OccludedAxError(m)))
  {
  }

  lemma ObstructedPress(j: Job, w0: World, w: World, c: ClickRequest, pid: int, ds: seq<Entry>)
    requires Pointing(j, w, c, ds) && Since(j, w0, w) && NotOnTop(j, ds) && Covered(j, ds)
    requires !c.double && TargetPid(j.scope) == Some(pid) && !Fired(w)
    ensures Clicked(j, w, ds + [PressEntry(w, c, pid)], Obstructed(w, c, w0.human.generation, Blocked))
  {
    var (v, e) := (Pressed(w, c, pid), PressEntry(w, c, pid));
    GrabIsFired(j, w0, w);
    ObstructedIs(w, c, w0.human.generation, pid);
    if e.reply.verdict == Yes {
      PressStep(j, w, c, pid, ds);
      assert (ds + [e])[..|ds + [e]| - 1] == ds;
      Landed(j, w, v, ds + [e], PointerDetail.Accessibility(Some("blocked")));
    } else {
      PressedInVain(j, w, c, pid, ds, Obstructed(w, c, w0.human.generation, Blocked).outcome);
    }
  }

  lemma ObstructedKeeps(j: Job, w0: World, w: World, c: ClickRequest, ds: seq<Entry>) returns (es: seq<Entry>)
    requires Pointing(j, w, c, ds) && Since(j, w0, w) && NotOnTop(j, ds)
    ensures Clicked(j, w, es, Obstructed(w, c, w0.human.generation, Judge(j.scope.resolvedTarget.value, ds[0].reply)))
  {
    var verdict := Judge(j.scope.resolvedTarget.value, ds[0].reply);
    if verdict == Blocked && !c.double && TargetPid(j.scope).Some? && !Fired(w) {
      es := ds + [PressEntry(w, c, TargetPid(j.scope).value)];
      ObstructedPress(j, w0, w, c, TargetPid(j.scope).value, ds);
    } else {
      es := ds;
      GrabIsFired(j, w0, w);
      forall q | Clicks(q) && May(j, w.index, ds, q)
        ensures Covered(j, ds) && !c.double && TargetPid(j.scope).Some?
      {
        ObstructedMayOnlyPress(j, w.index, ds, q);
      }
      GivesUp(j, w, ds, Obstructed(w, c, w0.human.generation, verdict));
    }
  }

  // ---- every click ----

  lemma ClickKeeps(j: Job, w: World, c: ClickRequest) returns (es: seq<Entry>)
    requires Pointing(j, w, c, []) && !Fired(w)
    ensures Clicked(j, w, es, Worlds.Click(w, c))
  {
    var target := j.scope.resolvedTarget;
    if target.None? {
      es := UnoccludedKeeps(j, w, w, c, []);
    } else {
      var (v, hit) := (Ask(w, HitTest(c.p)).world, EntryOf(w, HitTest(c.p)));
      Does(j, w, [], HitTest(c.p));
      assert [] + [hit] == [hit];
      if Judge(target.value, hit.reply) == Clear {
        es := UnoccludedKeeps(j, w, v, c, [hit]);
      } else {
        es := ObstructedKeeps(j, w, v, c, [hit]);
      }
      ClickedSooner(j, w, v, es, Worlds.Click(w, c));
    }
  }
}
