/** The synthetic-event stamps behind the interrupt metric, against the calls that put
    input out: which are stamped, and which are not. */
module Stamping {
  import opened Basics
  import opened Coordinates
  import opened Actions
  import opened Sessions
  import opened Worlds
  import opened Queues
  import opened Rules
  import opened Safety
  import opened Borrowing
  import opened Clicking
  import opened Theorems
  import opened Modes
  import Pointer
  import PointerDetail

  function Count(w: World): nat { w.human.syntheticCount }

  /** The deeds of the action under way. */
  function Current(w: World): seq<Entry> { Deeds(w.log, w.index) }

  // ---- what each deed is due ----

  /** A warp, a borrowed click and everything sent to `execute` is stamped before it is
      sent. */
  predicate Early(e: Entry) { e.Made? && (e.call.Warp? || e.call.PhysicalClick? || e.call.Execute?) }

  /** A direct or accessibility click is stamped once it has landed. */
  function Stamped(e: Entry): nat {
    if Early(e) || (e.Made? && (e.call.DirectClick? || e.call.AxPress?) && e.reply.verdict == Yes) then 1 else 0
  }

  function Stamps(es: seq<Entry>): nat
    decreases |es|
  {
    if es == [] then 0 else Stamps(es[..|es| - 1]) + Stamped(es[|es| - 1])
  }

  /** A double click cut between its pairs: the first pair is stamped for, although the
      direct click as a whole was declined. */
  predicate Cut(es: seq<Entry>, o: Outcome) {
    es != [] && o.Finished? &&
    var last := es[|es| - 1];
    last.Made? && last.call.DirectClick? && last.call.double && last.reply.verdict == No
  }

  lemma NotCut(es: seq<Entry>, e: Entry, o: Outcome)
    requires !e.Made? || !e.call.DirectClick?
    ensures !Cut(es + [e], o)
  {
  }

  // ---- the ledger ----

  /** How many stamps the monitor is ahead of the deeds of the action under way. */
  function Ahead(w: World): int { Count(w) - Stamps(Current(w)) }

  lemma DeedsAppend(log: seq<Entry>, e: Entry, k: nat)
    ensures Deeds(log + [e], k) == Deeds(log, k) + if DeedOf(e, k) then [e] else []
  {
    InitOf(log, e);
  }

  lemma StampsAppend(es: seq<Entry>, e: Entry)
    ensures Stamps(es + [e]) == Stamps(es) + Stamped(e)
  {
    assert (es + [e])[..|es|] == es;
  }

  /** Nothing was stamped, and no deed made. */
  predicate Untouched(w: World, v: World) {
    && v.index == w.index && Current(v) == Current(w)
    && Count(v) == Count(w) && v.human.lastSyntheticAt == w.human.lastSyntheticAt
  }

  lemma EventOnlyHappens(w: World, e: Event)
    ensures Untouched(w, Apply(w, e))
  {
    var u := Effect(w, e);
    DeedsAppend(w.log, Happened(w.index, e, w.session.state, u.session.state, Fired(u)), w.index);
  }

  /** Events stamp nothing and add no deed. */
  lemma {:induction false} EventsOnlyHappen(w: World, es: seq<Event>)
    ensures Untouched(w, ApplyAll(w, es))
    decreases |es|
  {
    if es != [] {
      EventOnlyHappens(w, es[0]);
      EventsOnlyHappen(Apply(w, es[0]), es[1..]);
    }
  }

  lemma AskBooks(w: World, c: Call)
    ensures var v := Ask(w, c).world;
            && v.index == w.index && Current(v) == Current(w) + DeedIn(w, c) && Count(v) == Count(w)
            && v.human.lastSyntheticAt == w.human.lastSyntheticAt
            && Ahead(v) == Ahead(w) - (if IsDeed(c) then Stamped(EntryOf(w, c)) else 0)
  {
    var e := EntryOf(w, c);
    DeedsAppend(w.log, e, w.index);
    EventsOnlyHappen(Sent(w, c), NextTurn(w).events);
    if IsDeed(c) {
      StampsAppend(Current(w), e);
    } else {
      assert Current(w) + [] == Current(w);
    }
  }

  // ---- when each deed was made ----

  /** Each deed of an action that began with `base` stamps was made when every deed before
      it had its stamp, and itself only if it is stamped early. */
  predicate OnTime(es: seq<Entry>, base: int) {
    var timed := forall m :: 0 <= m < |es| ==> MadeAt(es, m, base);
    timed
  }

  predicate MadeAt(es: seq<Entry>, m: nat, base: int)
    requires m < |es|
  {
    es[m].Made? && es[m].stamps == base + Stamps(es[..m]) + if Early(es[m]) then 1 else 0
  }

  predicate Timely(w: World) { OnTime(Current(w), Ahead(w)) }

  lemma OnTimeAppend(es: seq<Entry>, e: Entry, base: int)
    requires OnTime(es, base) && e.Made? && e.stamps == base + Stamps(es) + if Early(e) then 1 else 0
    ensures OnTime(es + [e], base)
  {
    forall m | 0 <= m < |es + [e]|
      ensures MadeAt(es + [e], m, base)
    {
      assert (es + [e])[..m] == es[..m];
      if m < |es| {
        assert MadeAt(es, m, base);
      } else {
        assert es[..m] == es;
      }
    }
  }

  /** The overlay, and the reads of cursor and screen, leave the books alone. */
  lemma Unbooked(w: World, c: Call)
    requires !IsDeed(c)
    ensures var v := Ask(w, c).world; v.index == w.index && Current(v) == Current(w) && Ahead(v) == Ahead(w)
  {
    AskBooks(w, c);
    assert Current(w) + [] == Current(w);
  }

  lemma Booked(w: World, c: Call)
    requires IsDeed(c)
    ensures var (v, e) := (Ask(w, c).world, EntryOf(w, c));
            v.index == w.index && Current(v) == Current(w) + [e] && Ahead(v) == Ahead(w) - Stamped(e)
  {
    AskBooks(w, c);
  }

  lemma BookedLate(w: World, c: Call)
    requires IsDeed(c) && !Early(EntryOf(w, c)) && Timely(w)
    ensures OnTime(Current(Ask(w, c).world), Ahead(w))
  {
    Booked(w, c);
    OnTimeAppend(Current(w), EntryOf(w, c), Ahead(w));
  }

  lemma BookedEarly(w: World, c: Call)
    requires IsDeed(c) && Early(EntryOf(w, c)) && Timely(w)
    ensures OnTime(Current(Ask(Stamp(w), c).world), Ahead(w))
  {
    Booked(Stamp(w), c);
    OnTimeAppend(Current(w), EntryOf(Stamp(w), c), Ahead(w));
  }

  // ---- the borrow ----

  /** The books balance: no stamp without its deed and no deed without its stamp, but for
      a cut double click; and every deed was made on time. */
  predicate Balanced(w: World, d: Done) {
    && d.world.index == w.index
    && Ahead(d.world) == Ahead(w) + (if Cut(Current(d.world), d.outcome) then 1 else 0)
    && (Timely(w) ==> OnTime(Current(d.world), Ahead(w)))
  }

  lemma BalancedSooner(w: World, v: World, d: Done)
    requires v.index == w.index && Ahead(v) == Ahead(w) && (Timely(w) ==> Timely(v)) && Balanced(v, d)
    ensures Balanced(w, d)
  {
  }

  /** A last deed that is not a cut double click leaves nothing over. */
  predicate Even(w: World, v: World) {
    && v.index == w.index && Ahead(v) == Ahead(w) && (Timely(w) ==> Timely(v))
    && !Cut(Current(v), Finished(false, None))
  }

  lemma EvenBalances(w: World, d: Done)
    requires Even(w, d.world)
    ensures Balanced(w, d)
  {
  }

  lemma EndsEven(w: World, m: Pointer.PointerMode)
    requires !Cut(Current(w), Finished(false, None))
    ensures Even(w, Ask(SetMode(w, m), Overlay).world)
  {
    Unbooked(SetMode(w, m), Overlay);
  }

  lemma RestoreEven(w: World, restore: Call)
    requires restore.Restore?
    ensures Even(w, Ask(w, restore).world)
  {
    Booked(w, restore);
    if Timely(w) {
      BookedLate(w, restore);
    }
    NotCut(Current(w), EntryOf(w, restore), Finished(false, None));
  }

  lemma ReturnBalances(w: World, c: ClickRequest, home: Point, generation: nat, phys: Reply)
    requires !Cut(Current(w), Finished(false, None))
    ensures Balanced(w, Return(w, c, home, generation, phys))
  {
    var d := Return(w, c, home, generation, phys);
    if Grabbed(w, generation) {
      EndsEven(w, Pointer.UserTakeover);
    } else {
      RestoreEven(w, Restore(c.p, home));
      EndsEven(Ask(w, Restore(c.p, home)).world, Pointer.Isolated);
    }
    EvenBalances(w, d);
  }

  /** A stamped call leaves the books even. */
  lemma StampedCall(w: World, c: Call)
    requires IsDeed(c) && Early(EntryOf(w, c))
    ensures Even(w, Ask(Stamp(w), c).world)
  {
    Booked(Stamp(w), c);
    if Timely(w) {
      BookedEarly(w, c);
    }
    NotCut(Current(w), EntryOf(Stamp(w), c), Finished(false, None));
  }

  lemma EvenSooner(w: World, u: World, v: World)
    requires u.index == w.index && Current(u) == Current(w) && Ahead(u) == Ahead(w) && Even(u, v)
    ensures Even(w, v)
  {
  }

  /** The stamped click and its ripple. */
  lemma RippledBooks(w: World, c: ClickRequest)
    ensures Even(w, Rippled(w, c))
  {
    var click := PhysicalClick(c.button, c.p, c.double);
    StampedCall(w, click);
    Unbooked(Ask(Stamp(w), click).world, Overlay);
  }

  lemma PressBalances(w: World, c: ClickRequest, home: Point, generation: nat)
    ensures Balanced(w, Press(w, c, home, generation))
  {
    var v := Rippled(w, c);
    RippledBooks(w, c);
    ReturnBalances(v, c, home, generation, ClickEntry(w, c).reply);
    BalancedSooner(w, v, Return(v, c, home, generation, ClickEntry(w, c).reply));
  }

  /** Showing the fallback, then the stamped warp. */
  lemma WarpingBooks(w: World, c: ClickRequest, home: Point)
    ensures Even(w, Warping(w, c, home))
  {
    Unbooked(SetMode(w, Pointer.PhysicalFallback), Overlay);
    StampedCall(Shown(w), Warp(home, c.p));
    EvenSooner(w, Shown(w), Warping(w, c, home));
  }

  lemma BorrowBalances(w: World, c: ClickRequest, home: Point, generation: nat)
    ensures Balanced(w, Borrow(w, c, home, generation))
  {
    var v := Warping(w, c, home);
    WarpingBooks(w, c, home);
    if WarpEntry(w, c, home).reply.verdict != Yes || Grabbed(v, generation) {
      EndsEven(v, Pointer.UserTakeover);
      EvenBalances(w, Borrow(w, c, home, generation));
    } else {
      PressBalances(v, c, home, generation);
      BalancedSooner(w, v, Press(v, c, home, generation));
    }
  }

  lemma FallbackBalances(w: World, c: ClickRequest)
    ensures Balanced(w, PhysicalFallback(w, c))
  {
    var v := Looked(w);
    Unbooked(w, ReadCursor);
    if !NotLent(w) {
      BorrowBalances(v, c, ReplyTo(w, ReadCursor).location, v.human.generation);
    }
  }

  // ---- the dispatcher ----

  lemma StampAndShow(w: World)
    ensures var v := Ask(Stamp(w), Overlay).world;
            v.index == w.index && Current(v) == Current(w) && Ahead(v) == Ahead(w) + 1
  {
    Unbooked(Stamp(w), Overlay);
  }

  /** After a landed click comes its stamp, and the books balance. */
  lemma LandedBalances(w: World, c: Call, o: Outcome)
    requires (c.DirectClick? || c.AxPress?) && ReplyTo(w, c).verdict == Yes
    ensures Balanced(w, Done(Ask(Stamp(Ask(w, c).world), Overlay).world, o))
  {
    Booked(w, c);
    if Timely(w) {
      BookedLate(w, c);
    }
    StampAndShow(Ask(w, c).world);
  }

  lemma PressedInVainBalances(w: World, c: ClickRequest, pid: int, o: Outcome)
    requires PressEntry(w, c, pid).reply.verdict != Yes
    ensures var v := Pressed(w, c, pid);
            && Balanced(w, Done(v, o)) && Ahead(v) == Ahead(w) && v.index == w.index && (Timely(w) ==> Timely(v))
  {
    Booked(w, AxPress(pid, c.p));
    if Timely(w) {
      BookedLate(w, AxPress(pid, c.p));
    }
  }

  lemma DeclinedBalances(w: World, c: ClickRequest)
    ensures Balanced(w, Declined(w, c))
  {
    var pid := TargetPid(w.session.scope);
    if c.double {
      FallbackBalances(w, c);
    } else if pid.Some? {
      DeclinedIs(w, c, pid.value);
      if PressEntry(w, c, pid.value).reply.verdict == Yes {
        LandedBalances(w, AxPress(pid.value, c.p), Declined(w, c).outcome);
      } else {
        var v := Pressed(w, c, pid.value);
        PressedInVainBalances(w, c, pid.value, Declined(w, c).outcome);
        if PressEntry(w, c, pid.value).reply.verdict == No && w.session.scope.policy == Pointer.PhysicalAllowed {
          FallbackBalances(v, c);
          BalancedSooner(w, v, PhysicalFallback(v, c));
        }
      }
    }
  }

  /** What the dispatcher does with the answer of a direct click. */
  lemma DirectIs(w: World, c: ClickRequest, generation: nat)
    requires !Grabbed(w, generation)
    ensures var v := Struck(w, c);
            var stamped := if c.double then Stamp(v) else v;
            Unoccluded(w, c, generation) ==
            match DirectEntry(w, c).reply.verdict
            case Yes => Done(Ask(Stamp(v), Overlay).world, Finished(true, Some(PointerDetail.Direct)))
            case Fails(m) => Done(v, Refused(DriverSaid(m)))
            case No => if Grabbed(v, generation) then Done(stamped, CancelledBy(stamped)) else Declined(v, c)
  {
  }

  lemma DirectInVainBalances(w: World, c: ClickRequest, generation: nat)
    requires !Grabbed(w, generation) && DirectEntry(w, c).reply.verdict != Yes
    ensures Balanced(w, Unoccluded(w, c, generation))
  {
    var v := Struck(w, c);
    Booked(w, DirectClick(c.p, c.button, c.double));
    DirectIs(w, c, generation);
    if Timely(w) {
      BookedLate(w, DirectClick(c.p, c.button, c.double));
    }
    if DirectEntry(w, c).reply.verdict == No && !Grabbed(v, generation) {
      DeclinedBalances(v, c);
      BalancedSooner(w, v, Declined(v, c));
    }
  }

  lemma UnoccludedBalances(w: World, c: ClickRequest, generation: nat)
    requires !Cut(Current(w), Finished(false, None))
    ensures Balanced(w, Unoccluded(w, c, generation))
  {
    if !Grabbed(w, generation) {
      if DirectEntry(w, c).reply.verdict == Yes {
        DirectIs(w, c, generation);
        LandedBalances(w, DirectClick(c.p, c.button, c.double), Finished(true, Some(PointerDetail.Direct)));
      } else {
        DirectInVainBalances(w, c, generation);
      }
    }
  }

  lemma ObstructedBalances(w: World, c: ClickRequest, generation: nat, verdict: Occlusion)
    requires !Cut(Current(w), Finished(false, None))
    ensures Balanced(w, Obstructed(w, c, generation, verdict))
  {
    var pid := TargetPid(w.session.scope);
    if pid.Some? && verdict == Blocked && !c.double && !Grabbed(w, generation) {
      var d := Obstructed(w, c, generation, verdict);
      ObstructedIs(w, c, generation, pid.value);
      if PressEntry(w, c, pid.value).reply.verdict == Yes {
        LandedBalances(w, AxPress(pid.value, c.p), d.outcome);
      } else {
        PressedInVainBalances(w, c, pid.value, d.outcome);
      }
    }
  }

  function Hit(w: World, c: ClickRequest): Entry { EntryOf(w, HitTest(c.p)) }

  function Tested(w: World, c: ClickRequest): World { Ask(w, HitTest(c.p)).world }

  /** A click under a target begins with its hit-test. */
  lemma ScopedClickIs(w: World, c: ClickRequest, target: ResolvedTarget)
    requires w.session.scope.resolvedTarget == Some(target)
    ensures var verdict := Judge(target, Hit(w, c).reply);
            Worlds.Click(w, c) ==
            if verdict == Clear then Unoccluded(Tested(w, c), c, w.human.generation)
            else Obstructed(Tested(w, c), c, w.human.generation, verdict)
  {
  }

  lemma TestedBooks(w: World, c: ClickRequest)
    ensures Even(w, Tested(w, c))
  {
    Booked(w, HitTest(c.p));
    if Timely(w) {
      BookedLate(w, HitTest(c.p));
    }
    NotCut(Current(w), Hit(w, c), Finished(false, None));
  }

  lemma ClickBalances(w: World, c: ClickRequest)
    requires Current(w) == []
    ensures Balanced(w, Worlds.Click(w, c))
  {
    var target := w.session.scope.resolvedTarget;
    if target.None? {
      UnoccludedBalances(w, c, w.human.generation);
    } else {
      ScopedClickIs(w, c, target.value);
      TestedBooks(w, c);
      var verdict := Judge(target.value, Hit(w, c).reply);
      UnoccludedBalances(Tested(w, c), c, w.human.generation);
      ObstructedBalances(Tested(w, c), c, w.human.generation, verdict);
      BalancedSooner(w, Tested(w, c), Worlds.Click(w, c));
    }
  }

  // ---- what is stamped ----

  /** The stamps a click takes, under every schedule: one for each warp, each borrowed
      click and each direct or accessibility click that landed, and one more for a double
      click cut between its pairs. */
  lemma ClickStamps(w: World, c: ClickRequest)
    requires Current(w) == []
    ensures var d := Worlds.Click(w, c);
            var es := Deeds(d.world.log, w.index);
            Count(d.world) - Count(w) == Stamps(es) + if Cut(es, d.outcome) then 1 else 0
  {
    ClickBalances(w, c);
  }

  // ---- which calls put input out, and which of them are stamped ----

  /** Deed `m` put input out: it was sent to post, and was answered that it did; or it is a
      double click cut after its first pair. */
  predicate PutsOut(es: seq<Entry>, m: nat, o: Outcome)
    requires m < |es|
  {
    es[m].Made? && Posts(es[m].call) && (es[m].reply.verdict == Yes || (m == |es| - 1 && Cut(es, o)))
  }

  /** The stamp count when a call was made. */
  function CountAt(e: Entry): nat { if e.Made? then e.stamps else 0 }

  /** The count rose between deed `m` and the one before it, or the beginning. */
  predicate RoseBefore(es: seq<Entry>, m: nat, first: nat)
    requires m < |es|
  {
    (if m == 0 then first else CountAt(es[m - 1])) < CountAt(es[m])
  }

  /** The count rose between deed `m` and the one after it, or the end. */
  predicate RoseAfter(es: seq<Entry>, m: nat, last: nat)
    requires m < |es|
  {
    CountAt(es[m]) < if m == |es| - 1 then last else CountAt(es[m + 1])
  }

  /** A click and a press are stamped after the fact, everything else before it is sent; a
      restore would do with either. */
  predicate HasStamp(es: seq<Entry>, m: nat, first: nat, last: nat)
    requires m < |es|
  {
    es[m].Made? &&
    var after := es[m].call.DirectClick? || es[m].call.AxPress?;
    (!after && RoseBefore(es, m, first)) || ((after || es[m].call.Restore?) && RoseAfter(es, m, last))
  }

  /** Of the deeds that put input out, exactly the restores go unstamped. */
  predicate OnlyRestoresUnstamped(es: seq<Entry>, first: nat, last: nat, o: Outcome) {
    var only := forall m :: 0 <= m < |es| && PutsOut(es, m, o) ==>
      (HasStamp(es, m, first, last) <==> !es[m].call.Restore?);
    only
  }

  predicate AllStamped(es: seq<Entry>, first: nat, last: nat, o: Outcome) {
    var all := forall m :: 0 <= m < |es| && PutsOut(es, m, o) ==> HasStamp(es, m, first, last);
    all
  }

  lemma StampsUpTo(es: seq<Entry>, m: nat)
    requires m < |es|
    ensures Stamps(es[..m + 1]) == Stamps(es[..m]) + Stamped(es[m]) && es[..|es|] == es
  {
    assert es[..m + 1] == es[..m] + [es[m]];
    StampsAppend(es[..m], es[m]);
  }

  /** How far the count rises around deed `m`. */
  lemma Rises(es: seq<Entry>, m: nat, first: nat)
    requires OnTime(es, first) && m < |es| && forall e :: e in es ==> e.Made?
    ensures m == 0 ==> es[m].stamps == first + if Early(es[m]) then 1 else 0
    ensures m + 1 < |es| ==>
              es[m + 1].stamps == es[m].stamps + Stamped(es[m]) - (if Early(es[m]) then 1 else 0)
                                + if Early(es[m + 1]) then 1 else 0
    ensures m == |es| - 1 ==> first + Stamps(es) == es[m].stamps + Stamped(es[m]) - if Early(es[m]) then 1 else 0
  {
    assert MadeAt(es, m, first);
    StampsUpTo(es, m);
    if m + 1 < |es| {
      assert MadeAt(es, m + 1, first);
    }
    assert es[..0] == [];
  }

  lemma EarlyHasStamp(es: seq<Entry>, m: nat, first: nat, last: nat)
    requires OnTime(es, first) && m < |es| && (forall e :: e in es ==> e.Made?) && Early(es[m])
    ensures HasStamp(es, m, first, last)
  {
    if m == 0 {
      Rises(es, m, first);
    } else {
      Rises(es, m - 1, first);
    }
  }

  lemma LandedHasStamp(es: seq<Entry>, m: nat, first: nat, last: nat, o: Outcome)
    requires OnTime(es, first) && m < |es| && (forall e :: e in es ==> e.Made?)
    requires last == first + Stamps(es) + if Cut(es, o) then 1 else 0
    requires (es[m].call.DirectClick? || es[m].call.AxPress?) && PutsOut(es, m, o)
    ensures HasStamp(es, m, first, last)
  {
    Rises(es, m, first);
  }

  /** A restore comes last, right after the borrowed click, and the count stands still
      around it. */
  lemma RestoreHasNone(es: seq<Entry>, m: nat, first: nat, last: nat, o: Outcome)
    requires OnTime(es, first) && m == |es| - 1 && m > 0 && (forall e :: e in es ==> e.Made?)
    requires last == first + Stamps(es) + if Cut(es, o) then 1 else 0
    requires es[m].call.Restore? && es[m - 1].call.PhysicalClick?
    ensures !HasStamp(es, m, first, last)
  {
    Rises(es, m - 1, first);
    Rises(es, m, first);
  }

  lemma BooksOf(w: World, d: Done)
    requires Current(w) == [] && Balanced(w, d)
    ensures var es := Current(d.world);
            OnTime(es, Count(w)) && Count(d.world) == Count(w) + Stamps(es) + if Cut(es, d.outcome) then 1 else 0
  {
    assert OnTime([], Count(w));
  }

  /** The books of a whole click: its deeds were made on time, and the count at the end. */
  lemma ClickOnTime(w: World, c: ClickRequest)
    requires Current(w) == []
    ensures var d := Worlds.Click(w, c);
            var es := Deeds(d.world.log, w.index);
            OnTime(es, Count(w)) && Count(d.world) == Count(w) + Stamps(es) + if Cut(es, d.outcome) then 1 else 0
  {
    ClickBalances(w, c);
    BooksOf(w, Worlds.Click(w, c));
  }

  predicate Restored(es: seq<Entry>) {
    exists m :: 0 <= m < |es| && es[m].Made? && es[m].call.Restore? && es[m].reply.verdict == Yes
  }

  lemma RestoreIsLast(j: Job, k: nat, es: seq<Entry>, m: nat)
    requires k < |j.actions| && Chain(j, k, es) && m < |es| && es[m].Made? && es[m].call.Restore?
    ensures m == |es| - 1 && m > 0 && es[m - 1].Made? && es[m - 1].call.PhysicalClick?
  {
    BorrowInOrder(j, k, es, m);
    if m < |es| - 1 {
      BackendsInOrder(j, k, es, m, m + 1);
    }
  }

  lemma StampedUnlessRestore(j: Job, k: nat, es: seq<Entry>, m: nat, first: nat, last: nat, o: Outcome)
    requires k < |j.actions| && Chain(j, k, es) && OnTime(es, first) && (forall e :: e in es ==> e.Made?)
    requires last == first + Stamps(es) + if Cut(es, o) then 1 else 0
    requires m < |es| && PutsOut(es, m, o)
    ensures HasStamp(es, m, first, last) <==> !es[m].call.Restore?
  {
    if Early(es[m]) {
      EarlyHasStamp(es, m, first, last);
    } else if es[m].call.Restore? {
      RestoreIsLast(j, k, es, m);
      RestoreHasNone(es, m, first, last, o);
    } else {
      LandedHasStamp(es, m, first, last, o);
    }
  }

  lemma StampsOf(j: Job, k: nat, es: seq<Entry>, first: nat, last: nat, o: Outcome)
    requires k < |j.actions| && Chain(j, k, es) && OnTime(es, first) && (forall e :: e in es ==> e.Made?)
    requires last == first + Stamps(es) + if Cut(es, o) then 1 else 0
    ensures OnlyRestoresUnstamped(es, first, last, o)
  {
    forall m | 0 <= m < |es| && PutsOut(es, m, o)
      ensures HasStamp(es, m, first, last) <==> !es[m].call.Restore?
    {
      StampedUnlessRestore(j, k, es, m, first, last, o);
    }
  }

  lemma AllButRestores(es: seq<Entry>, first: nat, last: nat, o: Outcome)
    requires OnlyRestoresUnstamped(es, first, last, o)
    ensures AllStamped(es, first, last, o) <==> !Restored(es)
  {
    if Restored(es) {
      var m :| 0 <= m < |es| && es[m].Made? && es[m].call.Restore? && es[m].reply.verdict == Yes;
      assert PutsOut(es, m, o);
    }
  }

  /** Of the calls of a click that put input out, exactly the restore goes unstamped: they
      all have their stamps if and only if no restore succeeded. */
  lemma StampedExactlyWithoutRestore(j: Job, w: World, c: ClickRequest)
    requires Pointing(j, w, c, []) && !Fired(w)
    ensures var d := Worlds.Click(w, c);
            var es := Deeds(d.world.log, w.index);
            && OnlyRestoresUnstamped(es, Count(w), Count(d.world), d.outcome)
            && (AllStamped(es, Count(w), Count(d.world), d.outcome) <==> !Restored(es))
  {
    var d := Worlds.Click(w, c);
    var es := Deeds(d.world.log, w.index);
    EveryClick(j, w, c);
    ClickOnTime(w, c);
    StampsOf(j, w.index, es, Count(w), Count(d.world), d.outcome);
    AllButRestores(es, Count(w), Count(d.world), d.outcome);
  }

  lemma WarpingDeeds(w: World, c: ClickRequest, home: Point)
    ensures var v := Warping(w, c, home); v.index == w.index && Current(v) == Current(w) + [WarpEntry(w, c, home)]
  {
    Unbooked(SetMode(w, Pointer.PhysicalFallback), Overlay);
    Booked(Stamp(Shown(w)), Warp(home, c.p));
  }

  lemma RippledDeeds(w: World, c: ClickRequest)
    ensures var v := Rippled(w, c); v.index == w.index && Current(v) == Current(w) + [ClickEntry(w, c)]
  {
    var click := PhysicalClick(c.button, c.p, c.double);
    Booked(Stamp(w), click);
    Unbooked(Ask(Stamp(w), click).world, Overlay);
  }

  lemma StruckDeeds(w: World, c: ClickRequest)
    ensures var v := Looked(Struck(w, c)); v.index == w.index && Current(v) == Current(w) + [DirectEntry(w, c)]
  {
    Booked(w, DirectClick(c.p, c.button, c.double));
    Unbooked(Struck(w, c), ReadCursor);
  }

  /** The deeds of a borrow, up to its restore. */
  lemma DeedsToRestore(w: World, c: ClickRequest)
    ensures var v := Looked(Struck(w, c));
            var u := Warping(v, c, ORIGIN);
            && Rippled(u, c).index == w.index
            && Current(Rippled(u, c))
               == Current(w) + [DirectEntry(w, c)] + [WarpEntry(v, c, ORIGIN)] + [ClickEntry(u, c)]
  {
    StruckDeeds(w, c);
    WarpingDeeds(Looked(Struck(w, c)), c, ORIGIN);
    RippledDeeds(Warping(Looked(Struck(w, c)), c, ORIGIN), c);
  }

  lemma DeedsAfterRestore(r: World, c: ClickRequest)
    ensures var v := Ask(SetMode(Ask(r, Restore(c.p, ORIGIN)).world, Pointer.Isolated), Overlay).world;
            v.index == r.index && Current(v) == Current(r) + [EntryOf(r, Restore(c.p, ORIGIN))]
  {
    Booked(r, Restore(c.p, ORIGIN));
    Unbooked(SetMode(Ask(r, Restore(c.p, ORIGIN)).world, Pointer.Isolated), Overlay);
  }

  lemma OrdinaryDeclines(c: ClickRequest, rest: seq<Turn>)
    ensures var w := Ordinary(LENT, [Says(No)] + rest);
            Current(w) == [] && w.index == 0 && Count(w) == 0 && DirectEntry(w, c).reply.verdict == No
  {
  }

  /** The deeds of a declined double click that borrows and restores. */
  predicate FourCalls(es: seq<Entry>, answer: Verdict) {
    && |es| == 4 && (forall m :: 0 <= m < 4 ==> es[m].Made?)
    && es[0].call.DirectClick? && es[0].reply.verdict == No && es[1].call.Warp? && es[2].call.PhysicalClick?
    && es[3].call.Restore? && es[3].reply.verdict == answer
  }

  lemma FourInARow(direct: Entry, warp: Entry, click: Entry, back: Entry)
    requires direct.Made? && direct.call.DirectClick? && direct.reply.verdict == No
    requires warp.Made? && warp.call.Warp? && click.Made? && click.call.PhysicalClick?
    requires back.Made? && back.call.Restore?
    ensures FourCalls([] + [direct] + [warp] + [click] + [back], back.reply.verdict)
  {
  }

  lemma BorrowDeeds(c: ClickRequest, answer: Verdict)
    requires c.double
    ensures FourCalls(Deeds(Worlds.Click(Ordinary(LENT, FullBorrow(Says(answer))), c).world.log, 0), answer)
  {
    var w := Ordinary(LENT, FullBorrow(Says(answer)));
    var r := ReachesRestore(c, Says(answer));
    var v := Looked(Struck(w, c));
    OrdinaryDeclines(c, FullBorrow(Says(answer))[1..]);
    assert FullBorrow(Says(answer)) == [Says(No)] + FullBorrow(Says(answer))[1..];
    DeedsToRestore(w, c);
    DeedsAfterRestore(r, c);
    PlainAnswers(r, Restore(c.p, ORIGIN), Pointer.PhysicalFallback, Says(answer));
    FourInARow(DirectEntry(w, c), WarpEntry(v, c, ORIGIN), ClickEntry(Warping(v, c, ORIGIN), c),
               EntryOf(r, Restore(c.p, ORIGIN)));
  }

  lemma PlainAnswers(w: World, c: Call, m: Pointer.PointerMode, t: Turn)
    requires Plain(w, m, [t])
    ensures EntryOf(w, c).reply.verdict == t.reply.verdict
  {
  }

  lemma FourStamps(es: seq<Entry>, o: Outcome, answer: Verdict)
    requires FourCalls(es, answer)
    ensures Stamps(es) == 2 && !Cut(es, o) && (PutsOut(es, 3, o) <==> answer == Yes)
  {
    StampsUpTo(es, 0);
    StampsUpTo(es, 1);
    StampsUpTo(es, 2);
    StampsUpTo(es, 3);
  }

  /** Of such a click the warp and the borrowed click have the two stamps taken, and the
      restore, which puts input out exactly when it is answered so, has none. */
  predicate RestoreGoesWithout(es: seq<Entry>, count: nat, o: Outcome, answer: Verdict) {
    var without :=
      && FourCalls(es, answer) && count == 2
      && HasStamp(es, 1, 0, count) && HasStamp(es, 2, 0, count) && !HasStamp(es, 3, 0, count)
      && (PutsOut(es, 3, o) <==> answer == Yes);
    without
  }

  lemma FourUnstamped(es: seq<Entry>, count: nat, o: Outcome, answer: Verdict)
    requires FourCalls(es, answer) && OnTime(es, 0) && count == Stamps(es) + if Cut(es, o) then 1 else 0
    ensures RestoreGoesWithout(es, count, o, answer)
  {
    FourStamps(es, o, answer);
    EarlyHasStamp(es, 1, 0, count);
    EarlyHasStamp(es, 2, 0, count);
    RestoreHasNone(es, 3, 0, count, o);
  }

  /** A quiet double click that borrows and restores, whatever the restore is answered. */
  lemma RestoreIsUnstamped(c: ClickRequest, answer: Verdict)
    requires c.double
    ensures var d := Worlds.Click(Ordinary(LENT, FullBorrow(Says(answer))), c);
            RestoreGoesWithout(Deeds(d.world.log, 0), Count(d.world), d.outcome, answer)
  {
    var w := Ordinary(LENT, FullBorrow(Says(answer)));
    var d := Worlds.Click(w, c);
    BorrowDeeds(c, answer);
    OrdinaryIsFresh(LENT, FullBorrow(Says(answer)));
    ClickOnTime(w, c);
    FourUnstamped(Deeds(d.world.log, 0), Count(d.world), d.outcome, answer);
  }

  lemma OrdinaryIsFresh(scope: Scope, turns: seq<Turn>)
    ensures var w := Ordinary(scope, turns); Current(w) == [] && w.index == 0 && Count(w) == 0
  {
  }
}

/** The operations behind one `execute`: the queue stamps once, before the call, and the
    driver's gestures post as many operations as they need. */
module Operations {
  import opened Basics
  import opened Coordinates
  import opened Actions
  import opened Worlds
  import opened Queues
  import opened Stamping
  import Gestures
  import KeyEvents
  import Paths

  /** One stamp for the whole action, at the clock reading before it is sent. */
  lemma ExecuteStampsOnce(w: World, r: ResolvedAction)
    ensures var v := Posted(w, r).world; Count(v) == Count(w) + 1 && v.human.lastSyntheticAt == Some(w.now)
  {
    AskBooks(Stamp(w), Execute(r));
  }

  /** A drag's one stamp covers all it posts only when it is cancelled before the button
      goes down; left alone it posts a move, a press, every point and a release. */
  lemma DragOperations(s: Gestures.Schedule, from: Point, to: Point, dist: real, duration: nat)
    ensures var path := Paths.Route(from, to, dist, duration);
            var t := Gestures.DragTrace(s, from, to, path);
            && (|t| <= 1 <==> s.Some? && s.value <= 1)
            && (s.None? ==> |t| == |path| + 3)
  {
  }

  /** A scroll's one stamp covers all it posts exactly when one chunk is enough and no
      move comes first, or there is nothing to scroll. */
  lemma ScrollOperations(at: Option<Point>, rx: int, ry: int)
    ensures var t := Gestures.ScrollTrace(None, at, Gestures.Chunks(rx, ry));
            |t| <= 1 <==>
              if at.Some? then rx == 0 && ry == 0 else Abs(rx) <= Gestures.CHUNK && Abs(ry) <= Gestures.CHUNK
  {
    Gestures.ScrollConserves(rx, ry);
  }

  /** Text: two key events a character at least. */
  lemma {:induction false} TextOperations(text: string)
    ensures |KeyEvents.TypeEvents(text)| >= 2 * |text|
    ensures |KeyEvents.TypeEvents(text)| <= 1 <==> text == ""
    decreases |text|
  {
    if text != "" {
      TextOperations(text[..|text| - 1]);
    }
  }

  /** A key combination: more than one event unless it is empty. */
  lemma ComboOperations(combo: KeyEvents.KeyCombo)
    ensures |KeyEvents.ComboEvents(combo)| <= 1 <==> combo.flags == {} && combo.keycode.None?
  {
    if combo.flags != {} {
      var m :| m in combo.flags;
      assert m.Command? || m.Shift? || m.Alternate? || m.Control? || m.SecondaryFn?;
    }
  }
}
