/** The physical fallback: every borrow of the real cursor obeys the rules, tells the
    truth about what it did, and leaves no trace of itself when left alone. */
module Borrowing {
  import opened Coordinates
  import opened Actions
  import opened Sessions
  import opened Worlds
  import opened Rules
  import opened Safety
  import Pointer
  import PointerDetail

  /** With the hook installed, the two tests of a grab agree: an event since the
      snapshot has fired the token. */
  lemma GrabIsFired(j: Job, w: World, v: World)
    requires Since(j, w, v)
    ensures Grabbed(v, w.human.generation) <==> Fired(v)
  {
  }

  /** What a borrow that set out from `home` did, from the deeds at `n` and later, and
      that its outcome tells it truthfully. */
  ghost predicate Told(es: seq<Entry>, n: nat, c: ClickRequest, home: Point, d: Done)
    requires n <= |es| && forall e :: e in es ==> e.Made?
  {
    var told :=
      && |es| <= n + 3
      && (|es| > n ==> es[n].call == Warp(home, c.p))
      && (|es| > n + 1 ==> es[n + 1].call.PhysicalClick?)
      && (|es| > n + 2 ==> es[n + 2].call.Restore?)
      && match |es| - n
         case 0 => d.outcome.Refused?
         case 1 => d.outcome == CancelledBy(d.world) && (es[n].reply.verdict == Yes ==> Fired(d.world))
         case 2 =>
           && Fired(d.world)
           && d.outcome == Reported(es[n + 1].reply, PointerDetail.PhysicalGrabbed(TelemetryOf(d.world.human)))
         case _ =>
           d.outcome == Reported(es[n + 1].reply, PointerDetail.PhysicalReturned(es[n + 2].reply.verdict == Yes));
    told
  }

  /** Where the real cursor is left if nobody touched it. */
  ghost function LeftAt(es: seq<Entry>, n: nat, c: ClickRequest, home: Point): Point
    requires n <= |es| && forall e :: e in es ==> e.Made?
  {
    if |es| == n || (|es| == n + 1 && es[n].reply.verdict != Yes) || (|es| == n + 3 && es[n + 2].reply.verdict == Yes)
    then home else c.p
  }

  /** The end of every borrow: a mode is set and the overlay follows. */
  lemma Ends(j: Job, w: World, ds: seq<Entry>, m: Pointer.PointerMode)
    requires On(j, w, ds) && m != Pointer.PhysicalFallback
    ensures var v := Ask(SetMode(w, m), Overlay).world;
            && On(j, v, ds) && v.index == w.index && v.session.mode != Pointer.PhysicalFallback
            && (Fired(w) ==> Fired(v))
            && Since(j, w, v) && (v.human.generation == w.human.generation ==> v.cursor == w.cursor)
  {
    TweakKeeps(j, w, SetMode(w, m));
    Passes(j, SetMode(w, m), ds, Overlay);
  }

  /** A deed that posts is stamped first. */
  lemma StampsAndDoes(j: Job, w: World, ds: seq<Entry>, c: Call)
    requires On(j, w, ds) && IsDeed(c) && May(j, w.index, ds, c) && (Fired(w) ==> Late(EntryOf(Stamp(w), c), ds))
    ensures var v := Ask(Stamp(w), c).world;
            On(j, v, ds + [EntryOf(Stamp(w), c)]) && Since(j, w, v) && v.index == w.index
    ensures var v := Ask(Stamp(w), c).world;
            v.human.generation == w.human.generation ==> v.cursor == CursorAfter(w.cursor, c, ReplyTo(Stamp(w), c))
  {
    TweakKeeps(j, w, Stamp(w));
    Does(j, Stamp(w), ds, c);
  }

  /** What a finished borrow guarantees. */
  ghost predicate Borrowed(j: Job, w: World, n: nat, c: ClickRequest, home: Point, es: seq<Entry>, d: Done)
    requires n <= |es|
  {
    var borrowed :=
      && Kept(j, w, d.world, es) && Told(es, n, c, home, d)
      && (d.world.human.generation == w.human.generation ==> d.world.cursor == LeftAt(es, n, c, home));
    borrowed
  }

  /** Just after the borrowed click, with `w0` the world at the warp's end and the warp
      the `n`-th deed. */
  ghost predicate JustClicked(j: Job, w0: World, w: World, n: nat, c: ClickRequest, home: Point, ds: seq<Entry>,
                              phys: Reply)
  {
    var clicked :=
      && On(j, w, ds) && Since(j, w0, w) && w0.index == w.index && |ds| == n + 2
      && ds[n].Made? && ds[n].call == Warp(home, c.p)
      && ds[n + 1].Made? && ds[n + 1].call.PhysicalClick? && ds[n + 1].reply == phys
      && (w.human.generation == w0.human.generation ==> w.cursor == c.p);
    clicked
  }

  lemma GrabbedAfterClick(j: Job, w0: World, w: World, n: nat, c: ClickRequest, home: Point, ds: seq<Entry>,
                          phys: Reply)
    requires JustClicked(j, w0, w, n, c, home, ds, phys) && Fired(w)
    ensures Borrowed(j, w0, n, c, home, ds, Return(w, c, home, w0.human.generation, phys))
  {
    Ends(j, w, ds, Pointer.UserTakeover);
  }

  lemma RestoredBorrow(j: Job, w0: World, n: nat, c: ClickRequest, home: Point, es: seq<Entry>, d: Done)
    requires Kept(j, w0, d.world, es) && |es| == n + 3
    requires es[n].Made? && es[n].call == Warp(home, c.p)
    requires es[n + 1].Made? && es[n + 1].call.PhysicalClick? && es[n + 2].Made? && es[n + 2].call.Restore?
    requires d.outcome == Reported(es[n + 1].reply, PointerDetail.PhysicalReturned(es[n + 2].reply.verdict == Yes))
    requires d.world.human.generation == w0.human.generation ==>
               d.world.cursor == if es[n + 2].reply.verdict == Yes then home else c.p
    ensures Borrowed(j, w0, n, c, home, es, d)
  {
  }

  lemma NotGrabbedAfterClick(j: Job, w0: World, w: World, n: nat, c: ClickRequest, home: Point, ds: seq<Entry>,
                             phys: Reply)
    requires JustClicked(j, w0, w, n, c, home, ds, phys) && !Fired(w) && May(j, w.index, ds, Restore(c.p, home))
    ensures Borrowed(j, w0, n, c, home, ds + [EntryOf(w, Restore(c.p, home))],
                     Return(w, c, home, w0.human.generation, phys))
  {
    var es := ds + [EntryOf(w, Restore(c.p, home))];
    Does(j, w, ds, Restore(c.p, home));
    Ends(j, Ask(w, Restore(c.p, home)).world, es, Pointer.Isolated);
    GrabIsFired(j, w0, w);
    RestoredBorrow(j, w0, n, c, home, es, Return(w, c, home, w0.human.generation, phys));
  }

  lemma AfterClick(j: Job, w0: World, w: World, n: nat, c: ClickRequest, home: Point, ds: seq<Entry>, phys: Reply)
    returns (es: seq<Entry>)
    requires JustClicked(j, w0, w, n, c, home, ds, phys) && May(j, w.index, ds, Restore(c.p, home))
    ensures n + 2 <= |es| && Borrowed(j, w0, n, c, home, es, Return(w, c, home, w0.human.generation, phys))
  {
    es := ds;
    if Fired(w) {
      GrabbedAfterClick(j, w0, w, n, c, home, ds, phys);
    } else {
      NotGrabbedAfterClick(j, w0, w, n, c, home, ds, phys);
      es := ds + [EntryOf(w, Restore(c.p, home))];
    }
  }

  lemma SinceTransitive(j: Job, w: World, u: World, v: World)
    requires Since(j, w, u) && Since(j, u, v)
    ensures Since(j, w, v)
  {
  }

  lemma RestoreMayFollow(j: Job, k: nat, ds: seq<Entry>, click: Entry, home: Point, c: ClickRequest)
    requires k < |j.actions| && ds != [] && ds[|ds| - 1].Made? && ds[|ds| - 1].call == Warp(home, c.p)
    requires click.Made? && click.call.PhysicalClick? && click.call.p == c.p
    requires j.scope.policy == Pointer.PhysicalAllowed
    ensures May(j, k, ds + [click], Restore(c.p, home))
  {
  }

  /** The stamped click and its ripple. */
  lemma ClickAndRipple(j: Job, w: World, c: Call, ds: seq<Entry>)
    requires On(j, w, ds) && !Fired(w) && c.PhysicalClick? && c.p == w.cursor && May(j, w.index, ds, c)
    ensures var v := Ask(Ask(Stamp(w), c).world, Overlay).world;
            && On(j, v, ds + [EntryOf(Stamp(w), c)]) && v.index == w.index && Since(j, w, v)
            && (v.human.generation == w.human.generation ==> v.cursor == w.cursor)
            && (Grabbed(v, w.human.generation) <==> Fired(v))
  {
    StampsAndDoes(j, w, ds, c);
    Passes(j, Ask(Stamp(w), c).world, ds + [EntryOf(Stamp(w), c)], Overlay);
  }

  /** Ready to click with the borrowed cursor: the last deed was the warp to the point. */
  ghost predicate Warped(j: Job, w: World, n: nat, c: ClickRequest, home: Point, ds: seq<Entry>) {
    var warped :=
      && On(j, w, ds) && !Fired(w) && w.cursor == c.p && |ds| == n + 1 && ds[n].call == Warp(home, c.p)
      && May(j, w.index, ds, PhysicalClick(c.button, c.p, c.double));
    warped
  }

  function ClickEntry(w: World, c: ClickRequest): Entry { EntryOf(Stamp(w), PhysicalClick(c.button, c.p, c.double)) }

  function Rippled(w: World, c: ClickRequest): World {
    Ask(Ask(Stamp(w), PhysicalClick(c.button, c.p, c.double)).world, Overlay).world
  }

  lemma RippledClick(j: Job, w: World, n: nat, c: ClickRequest, home: Point, ds: seq<Entry>)
    requires Warped(j, w, n, c, home, ds)
    ensures JustClicked(j, w, Rippled(w, c), n, c, home, ds + [ClickEntry(w, c)], ClickEntry(w, c).reply)
    ensures May(j, w.index, ds + [ClickEntry(w, c)], Restore(c.p, home))
  {
    ClickAndRipple(j, w, PhysicalClick(c.button, c.p, c.double), ds);
    RestoreMayFollow(j, w.index, ds, ClickEntry(w, c), home, c);
  }

  lemma PressIsReturn(w: World, c: ClickRequest, home: Point, generation: nat)
    ensures Press(w, c, home, generation) == Return(Rippled(w, c), c, home, generation, ClickEntry(w, c).reply)
  {
  }

  /** From a successful warp on. */
  lemma PressKeeps(j: Job, w: World, n: nat, c: ClickRequest, home: Point, ds: seq<Entry>)
    returns (es: seq<Entry>)
    requires Warped(j, w, n, c, home, ds)
    ensures n + 2 <= |es| && Borrowed(j, w, n, c, home, es, Press(w, c, home, w.human.generation))
  {
    RippledClick(j, w, n, c, home, ds);
    PressIsReturn(w, c, home, w.human.generation);
    es := AfterClick(j, w, Rippled(w, c), n, c, home, ds + [ClickEntry(w, c)], ClickEntry(w, c).reply);
  }

  ghost predicate Borrows(j: Job, k: nat, ds: seq<Entry>, c: ClickRequest)
    requires k < |j.actions|
  {
    Aimed(j, k, ClickAt(c.p, c.button, c.double)) && forall home :: May(j, k, ds, Warp(home, c.p))
  }

  /** Showing the fallback, then the stamped warp. */
  lemma ShowAndWarp(j: Job, w: World, home: Point, c: ClickRequest, ds: seq<Entry>)
    requires On(j, w, ds) && Borrows(j, w.index, ds, c)
    ensures var shown := Ask(SetMode(w, Pointer.PhysicalFallback), Overlay).world;
            var v := Ask(Stamp(shown), Warp(home, c.p)).world;
            var es := ds + [EntryOf(Stamp(shown), Warp(home, c.p))];
            && On(j, v, es) && v.index == w.index
            && Since(j, SetMode(w, Pointer.PhysicalFallback), v)
            && (v.human.generation == w.human.generation ==>
                  v.cursor == if es[|ds|].reply.verdict == Yes then c.p else w.cursor)
            && (Grabbed(v, w.human.generation) <==> Fired(v))
  {
    var v := SetMode(w, Pointer.PhysicalFallback);
    TweakKeeps(j, w, v);
    Passes(j, v, ds, Overlay);
    StampsAndDoes(j, Ask(v, Overlay).world, ds, Warp(home, c.p));
  }

  function Shown(w: World): World { Ask(SetMode(w, Pointer.PhysicalFallback), Overlay).world }

  function WarpEntry(w: World, c: ClickRequest, home: Point): Entry { EntryOf(Stamp(Shown(w)), Warp(home, c.p)) }

  function Warping(w: World, c: ClickRequest, home: Point): World { Ask(Stamp(Shown(w)), Warp(home, c.p)).world }

  /** The warp failed, or the user took over around it: neither click nor restore. */
  function Hidden(w: World, c: ClickRequest, home: Point): World {
    Ask(SetMode(Warping(w, c, home), Pointer.UserTakeover), Overlay).world
  }

  lemma WarpThenHide(w: World, c: ClickRequest, home: Point)
    requires WarpEntry(w, c, home).reply.verdict != Yes || Fired(Warping(w, c, home))
    ensures Borrow(w, c, home, w.human.generation) == Done(Hidden(w, c, home), CancelledBy(Hidden(w, c, home)))
  {
  }

  lemma BorrowRefused(j: Job, w: World, c: ClickRequest, home: Point, ds: seq<Entry>)
    requires On(j, w, ds) && Borrows(j, w.index, ds, c) && w.cursor == home
    requires WarpEntry(w, c, home).reply.verdict != Yes || Fired(Warping(w, c, home))
    ensures Borrowed(j, w, |ds|, c, home, ds + [WarpEntry(w, c, home)], Borrow(w, c, home, w.human.generation))
  {
    var (v, es) := (Warping(w, c, home), ds + [WarpEntry(w, c, home)]);
    ShowAndWarp(j, w, home, c, ds);
    Ends(j, v, es, Pointer.UserTakeover);
    WarpThenHide(w, c, home);
    SinceTransitive(j, SetMode(w, Pointer.PhysicalFallback), v, Hidden(w, c, home));
    RefusedBorrow(j, w, v, |ds|, c, home, es, Borrow(w, c, home, w.human.generation));
  }

  lemma RefusedBorrow(j: Job, w: World, v: World, n: nat, c: ClickRequest, home: Point, es: seq<Entry>, d: Done)
    requires |es| == n + 1 && On(j, d.world, es) && d.world.index == w.index
    requires d.world.session.mode != Pointer.PhysicalFallback
    requires Since(j, SetMode(w, Pointer.PhysicalFallback), d.world) && Since(j, v, d.world)
    requires w.human.generation <= v.human.generation
    requires es[n].Made? && es[n].call == Warp(home, c.p) && d.outcome == CancelledBy(d.world)
    requires es[n].reply.verdict == Yes ==> Fired(v)
    requires v.human.generation == w.human.generation ==> v.cursor == if es[n].reply.verdict == Yes then c.p else home
    requires v.human.generation == d.world.human.generation ==> v.cursor == d.world.cursor
    ensures Borrowed(j, w, n, c, home, es, d)
  {
  }

  lemma WarpWorked(j: Job, w: World, c: ClickRequest, home: Point, ds: seq<Entry>)
    requires On(j, w, ds) && Borrows(j, w.index, ds, c)
    requires WarpEntry(w, c, home).reply.verdict == Yes && !Fired(Warping(w, c, home))
    ensures var v := Warping(w, c, home);
            Warped(j, v, |ds|, c, home, ds + [WarpEntry(w, c, home)]) && v.index == w.index
            && Since(j, SetMode(w, Pointer.PhysicalFallback), v)
            && v.human.generation == w.human.generation
  {
    ShowAndWarp(j, w, home, c, ds);
    WarpedMayClick(j, w.index, ds, WarpEntry(w, c, home), c, home);
  }

  lemma WarpedMayClick(j: Job, k: nat, ds: seq<Entry>, e: Entry, c: ClickRequest, home: Point)
    requires k < |j.actions| && Borrows(j, k, ds, c) && e.Made? && e.call == Warp(home, c.p) && e.reply.verdict == Yes
    ensures May(j, k, ds + [e], PhysicalClick(c.button, c.p, c.double))
  {
    assert May(j, k, ds, Warp(home, c.p));
  }

  lemma WarpThenPress(w: World, c: ClickRequest, home: Point)
    requires var v := Warping(w, c, home);
             WarpEntry(w, c, home).reply.verdict == Yes && !Fired(v) && v.human.generation == w.human.generation
    ensures Borrow(w, c, home, w.human.generation) == Press(Warping(w, c, home), c, home, w.human.generation)
  {
  }

  lemma BorrowedSooner(j: Job, w: World, v: World, n: nat, c: ClickRequest, home: Point, es: seq<Entry>, d: Done)
    requires n <= |es| && Borrowed(j, v, n, c, home, es, d)
    requires v.index == w.index && Since(j, SetMode(w, Pointer.PhysicalFallback), v)
    requires v.human.generation == w.human.generation
    ensures Borrowed(j, w, n, c, home, es, d)
  {
    SinceTransitive(j, SetMode(w, Pointer.PhysicalFallback), v, d.world);
  }

  lemma BorrowKeeps(j: Job, w: World, c: ClickRequest, home: Point, ds: seq<Entry>) returns (es: seq<Entry>)
    requires On(j, w, ds) && Borrows(j, w.index, ds, c) && w.cursor == home
    ensures |ds| < |es| && Borrowed(j, w, |ds|, c, home, es, Borrow(w, c, home, w.human.generation))
  {
    var warp := WarpEntry(w, c, home);
    if warp.reply.verdict != Yes || Fired(Warping(w, c, home)) {
      es := ds + [warp];
      BorrowRefused(j, w, c, home, ds);
    } else {
      WarpWorked(j, w, c, home, ds);
      WarpThenPress(w, c, home);
      var v := Warping(w, c, home);
      es := PressKeeps(j, v, |ds|, c, home, ds + [warp]);
      BorrowedSooner(j, w, v, |ds|, c, home, es, Press(v, c, home, w.human.generation));
    }
  }

  function Looked(w: World): World { Ask(w, ReadCursor).world }

  /** The cursor stays with the user: it cannot be read, or the user is at the mouse. */
  predicate NotLent(w: World) {
    ReplyTo(w, ReadCursor).verdict != Yes || Operating(Looked(w)) || Fired(Looked(w))
  }

  lemma NothingLent(j: Job, w: World, c: ClickRequest, ds: seq<Entry>)
    requires On(j, w, ds) && NotLent(w) && w.session.mode != Pointer.PhysicalFallback
    ensures var d := PhysicalFallback(w, c);
            && Borrowed(j, w, |ds|, c, w.cursor, ds, d)
            && (!Fired(d.world) ==> d.outcome == Refused(Unavailable) || d.outcome == Refused(HumanTakeover))
  {
    Passes(j, w, ds, ReadCursor);
    assert forall e :: e in ds ==> e.Made?;
  }

  lemma CursorLent(j: Job, w: World, c: ClickRequest, ds: seq<Entry>)
    requires On(j, w, ds) && !NotLent(w)
    ensures var v := Looked(w);
            && On(j, v, ds) && Since(j, w, v) && v.index == w.index && v.cursor == w.cursor
            && v.human.generation == w.human.generation
            && PhysicalFallback(w, c) == Borrow(v, c, w.cursor, v.human.generation)
  {
    Passes(j, w, ds, ReadCursor);
  }

  /** The whole transaction: it borrows from where the cursor was at its first read,
      refuses without a deed when the read fails or the user is at the mouse, and never
      leaves the pointer in the fallback mode. */
  lemma FallbackKeeps(j: Job, w: World, c: ClickRequest, ds: seq<Entry>) returns (es: seq<Entry>)
    requires On(j, w, ds) && Borrows(j, w.index, ds, c) && w.session.mode != Pointer.PhysicalFallback
    ensures var d := PhysicalFallback(w, c);
            && |ds| <= |es| && Borrowed(j, w, |ds|, c, w.cursor, es, d)
            && (|es| == |ds| ==>
                  && es == ds
                  && (Fired(d.world) || d.outcome == Refused(Unavailable) || d.outcome == Refused(HumanTakeover)))
  {
    if NotLent(w) {
      es := ds;
      NothingLent(j, w, c, ds);
    } else {
      CursorLent(j, w, c, ds);
      var v := Looked(w);
      es := BorrowKeeps(j, v, c, w.cursor, ds);
      BorrowedSooner(j, w, v, |ds|, c, w.cursor, es, Borrow(v, c, w.cursor, v.human.generation));
    }
  }
}
