/** What a run may do, as a language over its log. Nothing here mentions how the queue
    is written: `Sound` says when each entry may follow the entries before it. */
module Rules {
  import opened Basics
  import opened Cancellation
  import opened Coordinates
  import opened Actions
  import opened Sessions
  import opened Worlds
  import opened Queues
  import Pointer

  /** What a batch is asked to do, what its session may touch, and its token. */
  datatype Job = Job(actions: seq<ComputerAction>, geometry: ImageGeometry, scope: Scope, batch: TokenId)

  // ---- the deeds of one action ----

  /** The two live gate reads, and every call that posts input. */
  predicate IsDeed(c: Call) { Posts(c) || c.HitTest? || c.ReadFocus? }

  predicate DeedOf(e: Entry, k: nat) { e.Made? && IsDeed(e.call) && e.index == k }

  function Deeds(log: seq<Entry>, k: nat): (ds: seq<Entry>)
    ensures forall d :: d in ds ==> DeedOf(d, k) && d in log
    decreases |log|
  {
    if log == [] then [] else
    var (rest, last) := (Deeds(log[..|log| - 1], k), log[|log| - 1]);
    if DeedOf(last, k) then rest + [last] else rest
  }

  /** What action `k` resolves to; only a Move depends on where the pointer is. */
  function Meant(j: Job, k: nat): Resolution
    requires k < |j.actions|
  {
    ToResolved(j.actions[k], j.geometry, Point(0.0, 0.0))
  }

  predicate Contained(j: Job, r: ResolvedAction) {
    j.scope.targetBounds.Some? ==> forall p :: p in TouchedPoints(r) ==> j.scope.targetBounds.value.ContainsGlobal(p)
  }

  /** The driver may be sent exactly the resolved action, inside the target. */
  predicate Aimed(j: Job, k: nat, r: ResolvedAction)
    requires k < |j.actions|
  {
    Meant(j, k) == Ok(r) && Contained(j, r)
  }

  predicate AimedAt(j: Job, k: nat, p: Point, double: bool)
    requires k < |j.actions|
  {
    Meant(j, k).Ok? && Aimed(j, k, Meant(j, k).value) && Meant(j, k).value.ClickAt?
    && Meant(j, k).value.at == p && Meant(j, k).value.double == double
  }

  /** The window a hit-test saw is the target's own: the same window of the same process,
      and the same bundle where both are known. */
  predicate SawTarget(t: ResolvedTarget, r: Reply) {
    && !r.verdict.Fails? && r.window.Some?
    && var top := r.window.value;
    && t.windowId == top.windowId
    && t.pid == top.pid
    && (t.bundleId == top.bundleId || t.bundleId == "unknown" || top.bundleId == "unknown")
  }

  /** It saw a window, and not the target's. */
  predicate SawAnother(t: ResolvedTarget, r: Reply) { !r.verdict.Fails? && r.window.Some? && !SawTarget(t, r) }

  /** The queue's verdict is told from the fields of the answer: a click may go through
      only to the target's own window, and each other verdict has exactly one reason. */
  lemma VerdictExactly(t: ResolvedTarget, r: Reply)
    ensures Judge(t, r) == Clear <==> SawTarget(t, r)
    ensures Judge(t, r) == Blocked <==> SawAnother(t, r)
    ensures Judge(t, r) == NoWindow <==> !r.verdict.Fails? && r.window.None?
    ensures Judge(t, r) == Unverifiable <==> r.verdict.Fails?
  {
    if !r.verdict.Fails? && r.window.Some? {
      var top := r.window.value;
      assert Judge(t, r) == Clear <==>
        t.windowId == top.windowId && t.pid == top.pid
        && (t.bundleId == top.bundleId || t.bundleId == "unknown" || top.bundleId == "unknown");
    }
  }

  /** The application in front, read live, is the one the target names: it is there if the
      target names anything, and equal in everything the target names. */
  predicate SawFront(t: SessionTarget, r: Reply) {
    && (Names(t) ==> !r.verdict.Fails? && r.application.Some?)
    && (t.bundleId.Some? ==> r.application.value.bundleId == t.bundleId.value)
    && (t.pid.Some? ==> r.application.value.pid == Some(t.pid.value))
    && (t.windowId.Some? ==> r.application.value.windowId == Some(t.windowId.value))
  }

  /** The target names a bundle, a process or a window. */
  predicate Names(t: SessionTarget) { !(t.bundleId.None? && t.pid.None? && t.windowId.None?) }

  /** The queue's focus test, from the fields of the answer. */
  lemma FocusExactly(t: SessionTarget, r: Reply)
    ensures HasIdentity(t) <==> Names(t)
    ensures Focused(t, r) <==> SawFront(t, r)
  {
  }

  /** The hit-test at `p` put the target on top; without a target nothing is asked. */
  predicate OnTop(j: Job, ds: seq<Entry>, p: Point) {
    match j.scope.resolvedTarget
    case None => ds == []
    case Some(t) => |ds| == 1 && ds[0].Made? && ds[0].call == HitTest(p) && SawTarget(t, ds[0].reply)
  }

  predicate Covered(j: Job, ds: seq<Entry>) {
    && j.scope.resolvedTarget.Some?
    && |ds| == 1 && ds[0].Made? && ds[0].call.HitTest?
    && SawAnother(j.scope.resolvedTarget.value, ds[0].reply)
  }

  /** The last deed made call `c`-like and was answered with a plain no. */
  predicate DirectDeclined(ds: seq<Entry>) {
    ds != [] && var last := ds[|ds| - 1]; last.Made? && last.call.DirectClick? && last.reply.verdict == No
  }

  predicate PressDeclined(ds: seq<Entry>) {
    && ds != []
    && (var last := ds[|ds| - 1]; last.Made? && last.call.AxPress? && last.reply.verdict == No)
    && DirectDeclined(ds[..|ds| - 1])
  }

  predicate WarpedTo(ds: seq<Entry>, p: Point) {
    ds != [] && var last := ds[|ds| - 1]; last.Made? && last.call.Warp? && last.call.p == p && last.reply.verdict == Yes
  }

  /** May call `c` follow the deeds `ds` of action `k`? */
  predicate May(j: Job, k: nat, ds: seq<Entry>, c: Call)
    requires k < |j.actions|
  {
    match c
    case HitTest(p) =>
      ds == [] && j.scope.resolvedTarget.Some? && (AimedAt(j, k, p, false) || AimedAt(j, k, p, true))
    case ReadFocus =>
      ds == [] && (j.actions[k].TypeText? || j.actions[k].Key?)
    case DirectClick(p, button, double) =>
      Aimed(j, k, ClickAt(p, button, double)) && OnTop(j, ds, p)
    case AxPress(pid, p) =>
      AimedAt(j, k, p, false) && TargetPid(j.scope) == Some(pid) && (DirectDeclined(ds) || Covered(j, ds))
    case Warp(_, p) =>
      && j.scope.policy == Pointer.PhysicalAllowed
      && ((AimedAt(j, k, p, true) && DirectDeclined(ds)) || (AimedAt(j, k, p, false) && PressDeclined(ds)))
    case PhysicalClick(button, p, double) =>
      j.scope.policy == Pointer.PhysicalAllowed && Aimed(j, k, ClickAt(p, button, double)) && WarpedTo(ds, p)
    case Restore(p, home) =>
      j.scope.policy == Pointer.PhysicalAllowed && |ds| >= 2 && var (warp, press) := (ds[|ds| - 2], ds[|ds| - 1]);
      press.Made? && press.call.PhysicalClick? && press.call.p == p && warp.Made? && warp.call == Warp(home, p)
    case Execute(r) =>
      && Aimed(j, k, r) && (IsKeyboard(r) || r.ScrollBy? || r.DragTo?)
      && (r.DragTo? || (r.ScrollBy? && r.where.Some?) ==> j.scope.policy == Pointer.PhysicalAllowed)
      && (r.ScrollBy? && r.where.None? && j.scope.resolvedTarget.Some? ==>
            j.actions[k].Scroll? && (j.actions[k].sx.Some? || j.actions[k].sy.Some?))
      && (if IsKeyboard(r) && Guarded(j) then InFront(j, ds) else ds == [])
    case _ => true
  }

  predicate Guarded(j: Job) { j.scope.target.Some? && Names(j.scope.target.value) }

  predicate InFront(j: Job, ds: seq<Entry>)
    requires Guarded(j)
  {
    |ds| == 1 && ds[0].Made? && ds[0].call == ReadFocus && SawFront(j.scope.target.value, ds[0].reply)
  }

  /** The only deeds once the token has fired: a warp, which then posts nothing, and a
      keyboard action whose live focus read was already under way. */
  predicate Late(e: Entry, ds: seq<Entry>)
    requires e.Made?
  {
    || (e.call.Warp? && e.reply.verdict != Yes)
    || (e.call.Execute? && IsKeyboard(e.call.action) && |ds| == 1 && ds[0].Made? && ds[0].call == ReadFocus)
  }

  // ---- whole logs ----

  /** Events after which the batch must be dead. */
  predicate Interrupts(j: Job, e: Entry) {
    e.Happened? && match e.event
    case HumanEvent(_, _) => true
    case CancelSession => true
    case CancelToken(t) => t == j.batch
    case StateRequest(target) => Legal(e.before, target) && Halts(target)
    case _ => false
  }

  /** No earlier action saw the token fire. */
  predicate StillOn(log: seq<Entry>, k: nat) { forall e :: e in log && e.fired ==> e.index == k }

  predicate Deedful(j: Job, log: seq<Entry>, e: Entry)
    requires e.Made?
  {
    && e.index < |j.actions| && StillOn(log, e.index)
    && (e.call.Sleep? ==> 1 <= e.call.ms <= 50)
    && (IsDeed(e.call) ==>
          && May(j, e.index, Deeds(log, e.index), e.call)
          && (e.fired ==> Late(e, Deeds(log, e.index))))
  }

  predicate Next(j: Job, log: seq<Entry>, e: Entry) {
    && (forall d :: d in log ==> d.index <= e.index && (d.fired ==> e.fired))
    && (Interrupts(j, e) ==> e.fired)
    && (e.Made? && !e.call.Overlay? ==> Deedful(j, log, e))
    && (e.Consumed? && Legal(e.before, UserTakeover) ==> e.after == UserTakeover && e.fired)
  }

  predicate Sound(j: Job, log: seq<Entry>)
    decreases |log|
  {
    log == [] || (Sound(j, log[..|log| - 1]) && Next(j, log[..|log| - 1], log[|log| - 1]))
  }

  /** The real channel's flag, told from the log: up after a hardware event, down after
      a boundary or a poll consumed it. */
  predicate Pending(before: bool, log: seq<Entry>)
    decreases |log|
  {
    if log == [] then before
    else
      var last := log[|log| - 1];
      if last.Consumed? then false
      else (last.Happened? && last.event.HumanEvent?) || Pending(before, log[..|log| - 1])
  }

  // ---- growing a log ----

  lemma InitOf(log: seq<Entry>, e: Entry)
    ensures (log + [e])[..|log + [e]| - 1] == log && (log + [e])[|log + [e]| - 1] == e
  {
  }

  lemma Append(j: Job, log: seq<Entry>, e: Entry, k: nat, before: bool)
    ensures Sound(j, log + [e]) <==> Sound(j, log) && Next(j, log, e)
    ensures Deeds(log + [e], k) == Deeds(log, k) + if DeedOf(e, k) then [e] else []
    ensures Pending(before, log + [e])
         <==> !e.Consumed? && ((e.Happened? && e.event.HumanEvent?) || Pending(before, log))
    ensures forall d :: d in log + [e] <==> d in log || d == e
  {
    InitOf(log, e);
  }

  // ---- what a sound log guarantees ----

  lemma {:induction false} SoundAt(j: Job, log: seq<Entry>, i: nat)
    requires Sound(j, log) && i < |log|
    ensures Sound(j, log[..i]) && Next(j, log[..i], log[i])
    decreases |log|
  {
    if i < |log| - 1 {
      SoundAt(j, log[..|log| - 1], i);
      assert log[..|log| - 1][..i] == log[..i];
    }
  }

  lemma FiredSpreads(j: Job, log: seq<Entry>, i: nat, m: nat)
    requires Sound(j, log) && i < m < |log|
    ensures log[i].index <= log[m].index && (log[i].fired ==> log[m].fired)
  {
    SoundAt(j, log, m);
    assert log[i] in log[..m];
  }

  /** The human always wins: after an interrupting event no later action makes any
      call but hiding the overlay, and within the interrupted action no further call posts
      anything except the text of a keyboard action whose focus read had begun before the
      event (a warp is asked for, but posts nothing). */
  lemma NothingAfterInterrupt(j: Job, log: seq<Entry>, i: nat, m: nat)
    requires Sound(j, log) && i < m < |log| && Interrupts(j, log[i])
    requires log[m].Made? && !log[m].call.Overlay?
    ensures log[m].fired && log[m].index == log[i].index
    ensures Posts(log[m].call) ==>
              || (log[m].call.Warp? && log[m].reply.verdict != Yes)
              || (log[m].call.Execute? && IsKeyboard(log[m].call.action)
                  && exists q :: 0 <= q < i && DeedOf(log[q], log[i].index) && log[q].call == ReadFocus
                                 && !log[q].fired)
  {
    SoundAt(j, log, i);
    FiredSpreads(j, log, i, m);
    SoundAt(j, log, m);
    assert log[i] in log[..m];
    var ds := Deeds(log[..m], log[m].index);
    if Posts(log[m].call) && !log[m].call.Warp? {
      assert ds[0] in ds;
      var q :| 0 <= q < m && log[q] == ds[0];
      SoundAt(j, log, q);
      if i < q {
        FiredSpreads(j, log, i, q);
        assert false;
      }
      assert q != i;
    }
  }

  // ---- the language of one action ----

  /** Every deed of action `k` was allowed by the deeds before it. */
  predicate Chain(j: Job, k: nat, ds: seq<Entry>)
    requires k < |j.actions|
    decreases |ds|
  {
    ds == [] ||
    var rest := ds[..|ds| - 1];
    var last := ds[|ds| - 1];
    Chain(j, k, rest) && DeedOf(last, k) && May(j, k, rest, last.call) && (last.fired ==> Late(last, rest))
  }

  lemma {:induction false} DeedsChain(j: Job, log: seq<Entry>, k: nat)
    requires Sound(j, log) && k < |j.actions|
    ensures Chain(j, k, Deeds(log, k))
    decreases |log|
  {
    if log != [] {
      var (rest, last) := (log[..|log| - 1], log[|log| - 1]);
      DeedsChain(j, rest, k);
      var ds := Deeds(rest, k);
      if DeedOf(last, k) {
        assert (ds + [last])[..|ds|] == ds;
      }
    }
  }

  lemma {:induction false} ChainAt(j: Job, k: nat, ds: seq<Entry>, i: nat)
    requires k < |j.actions| && Chain(j, k, ds) && i < |ds|
    ensures Chain(j, k, ds[..i]) && DeedOf(ds[i], k) && May(j, k, ds[..i], ds[i].call)
    ensures ds[i].fired ==> Late(ds[i], ds[..i])
    decreases |ds|
  {
    if i < |ds| - 1 {
      ChainAt(j, k, ds[..|ds| - 1], i);
      assert ds[..|ds| - 1][..i] == ds[..i];
    }
  }

  function Rank(c: Call): nat {
    match c
    case HitTest(_) => 0
    case ReadFocus => 0
    case AxPress(_, _) => 2
    case Warp(_, _) => 3
    case PhysicalClick(_, _, _) => 4
    case Restore(_, _) => 5
    case _ => 1
  }

  /** Each gate and each backend is used at most once in an action, in this order. */
  lemma {:induction false} BackendsInOrder(j: Job, k: nat, ds: seq<Entry>, i: nat, m: nat)
    requires k < |j.actions| && Chain(j, k, ds) && i < m < |ds|
    ensures ds[i].Made? && ds[m].Made? && Rank(ds[i].call) < Rank(ds[m].call)
    decreases m
  {
    ChainAt(j, k, ds, m);
    ChainAt(j, k, ds, m - 1);
    if i < m - 1 {
      BackendsInOrder(j, k, ds, i, m - 1);
    }
  }

  /** A click on a covered point yields at most one accessibility press, only under a
      confirmed other window, and no other input. */
  lemma OccludedClickIsIsolated(j: Job, k: nat, ds: seq<Entry>)
    requires k < |j.actions| && Chain(j, k, ds) && j.scope.resolvedTarget.Some?
    requires ds != [] && ds[0].Made? && ds[0].call.HitTest?
    requires !SawTarget(j.scope.resolvedTarget.value, ds[0].reply)
    ensures |ds| <= 2
    ensures |ds| == 2 ==> ds[1].call.AxPress? && SawAnother(j.scope.resolvedTarget.value, ds[0].reply)
  {
    if |ds| >= 2 {
      ChainAt(j, k, ds, 1);
    }
    if |ds| >= 3 {
      ChainAt(j, k, ds, 2);
    }
  }

  /** The calls that end with a mouse press at a point. */
  predicate ClicksAt(c: Call, p: Point) {
    || (c.DirectClick? && c.p == p)
    || (c.Warp? && c.p == p)
    || (c.PhysicalClick? && c.p == p)
    || (c.Restore? && c.p == p)
  }

  predicate MovesCursor(c: Call) {
    c.Warp? || c.PhysicalClick? || c.Restore?
    || (c.Execute? && (c.action.DragTo? || (c.action.ScrollBy? && c.action.where.Some?)))
  }

  /** A direct click at `p` was declined, at a point known to be clear. */
  predicate DeclinedAt(j: Job, ds: seq<Entry>, d: nat, p: Point) {
    && d < |ds| && ds[d].Made? && ds[d].call.DirectClick? && ds[d].call.p == p && ds[d].reply.verdict == No
    && (j.scope.resolvedTarget.Some? ==>
          ds[0].Made? && ds[0].call == HitTest(p) && SawTarget(j.scope.resolvedTarget.value, ds[0].reply))
  }

  lemma WarpIsBacked(j: Job, k: nat, ds: seq<Entry>, c: Call) returns (d: nat)
    requires k < |j.actions| && Chain(j, k, ds) && c.Warp? && May(j, k, ds, c)
    ensures DeclinedAt(j, ds, d, c.p) && AimedAt(j, k, c.p, ds[d].call.double)
  {
    d := if DirectDeclined(ds) then |ds| - 1 else |ds| - 2;
    ChainAt(j, k, ds, d);
  }

  /** The declined direct click behind every borrow of the cursor. */
  lemma {:induction false} BorrowIsBacked(j: Job, k: nat, ds: seq<Entry>, c: Call, p: Point) returns (d: nat)
    requires k < |j.actions| && Chain(j, k, ds) && May(j, k, ds, c) && ClicksAt(c, p) && !c.DirectClick?
    ensures j.scope.policy == Pointer.PhysicalAllowed
    ensures DeclinedAt(j, ds, d, p) && AimedAt(j, k, p, ds[d].call.double)
    decreases |ds|
  {
    if c.Warp? {
      d := WarpIsBacked(j, k, ds, c);
    } else {
      var last := |ds| - 1;
      ChainAt(j, k, ds, last);
      d := BorrowIsBacked(j, k, ds[..last], ds[last].call, p);
    }
  }

  /** A click with the borrowed cursor directly follows a successful warp to its point;
      a restore directly follows that click and returns to where the warp set out. */
  lemma BorrowInOrder(j: Job, k: nat, ds: seq<Entry>, i: nat)
    requires k < |j.actions| && Chain(j, k, ds) && i < |ds|
    ensures ds[i].Made?
    ensures ds[i].call.PhysicalClick? ==>
              && i >= 1 && ds[i - 1].Made? && ds[i - 1].call.Warp?
              && ds[i - 1].call.p == ds[i].call.p && ds[i - 1].reply.verdict == Yes && !ds[i].fired
    ensures ds[i].call.Restore? ==>
              && i >= 2 && ds[i - 1].Made? && ds[i - 1].call.PhysicalClick?
              && ds[i - 2].Made? && ds[i - 2].call == Warp(ds[i].call.home, ds[i].call.p)
              && ds[i - 2].reply.verdict == Yes && !ds[i].fired
    ensures ds[i].call.Warp? && ds[i].fired ==> ds[i].reply.verdict != Yes && i == |ds| - 1
  {
    ChainAt(j, k, ds, i);
    if ds[i].call.Restore? {
      ChainAt(j, k, ds, i - 1);
    }
    if ds[i].call.Warp? && i < |ds| - 1 {
      ChainAt(j, k, ds, i + 1);
      BackendsInOrder(j, k, ds, i, i + 1);
    }
  }

  /** No gate is ever bypassed. For every call that posts input: the real cursor is
      moved only under PhysicalAllowed; a borrowed press, like its warp, comes only after
      a declined direct click; a mouse press under a target follows, in the same action,
      a hit-test at that very point that found the target on top; text goes out only
      after a live focus read that matched; an accessibility press is only ever a single
      click; under a target no scroll goes out without a coordinate; and every point is
      inside the target's bounds. */
  lemma GatesHold(j: Job, log: seq<Entry>, m: nat)
    requires Sound(j, log) && m < |log| && log[m].Made? && Posts(log[m].call)
    ensures log[m].index < |j.actions|
    ensures MovesCursor(log[m].call) ==> j.scope.policy == Pointer.PhysicalAllowed
    ensures forall p :: ClicksAt(log[m].call, p) && j.scope.resolvedTarget.Some? ==>
              exists q :: 0 <= q < m && DeedOf(log[q], log[m].index) && log[q].call == HitTest(p)
                          && SawTarget(j.scope.resolvedTarget.value, log[q].reply)
    ensures forall p :: ClicksAt(log[m].call, p) && !log[m].call.DirectClick? ==>
              exists q :: 0 <= q < m && DeedOf(log[q], log[m].index) && log[q].call.DirectClick?
                          && log[q].call.p == p && log[q].reply.verdict == No
    ensures log[m].call.Execute? && IsKeyboard(log[m].call.action) && Guarded(j) ==>
              exists q :: 0 <= q < m && DeedOf(log[q], log[m].index) && log[q].call == ReadFocus
                          && SawFront(j.scope.target.value, log[q].reply)
    ensures log[m].call.Execute? && log[m].call.action.ScrollBy? && j.scope.resolvedTarget.Some? ==>
              var a := j.actions[log[m].index]; a.Scroll? && (a.sx.Some? || a.sy.Some?)
    ensures log[m].call.AxPress? ==> AimedAt(j, log[m].index, log[m].call.p, false)
    ensures Meant(j, log[m].index).Ok? && Contained(j, Meant(j, log[m].index).value)
    ensures log[m].call.Execute? ==> Meant(j, log[m].index).value == log[m].call.action
    ensures forall p :: ClicksAt(log[m].call, p) ==>
              Meant(j, log[m].index).value.ClickAt? && Meant(j, log[m].index).value.at == p
  {
    SoundAt(j, log, m);
    var (k, c) := (log[m].index, log[m].call);
    var ds := Deeds(log[..m], k);
    DeedsChain(j, log[..m], k);
    if c.Execute? && IsKeyboard(c.action) && Guarded(j) {
      var q := Earlier(log, m, k, ds[0]);
    }
    if !c.Execute? && !c.AxPress? {
      if !c.DirectClick? {
        var d := BorrowIsBacked(j, k, ds, c, c.p);
        var q := Earlier(log, m, k, ds[d]);
      }
      if j.scope.resolvedTarget.Some? {
        var q := Earlier(log, m, k, ds[0]);
      }
    }
  }

  /** What is sent is what was asked for, field by field. A drag, a scroll, a text or a key
      list goes out as the action has it; a direct or borrowed click at its point, with its
      button, and doubled only for a double click; a warp or a restore is made only for a
      click at that point; and an accessibility press only for a single click at its point,
      in the process of the resolved target, or of the requested one if none is resolved. */
  lemma SentAsAsked(j: Job, log: seq<Entry>, m: nat)
    requires Sound(j, log) && m < |log| && log[m].Made? && Posts(log[m].call)
    ensures log[m].index < |j.actions|
    ensures var (a, c) := (j.actions[log[m].index], log[m].call);
            && (c.Execute? ==> AsAsked(a, j.geometry, c.action))
            && (c.DirectClick? || c.PhysicalClick? ==> AsAsked(a, j.geometry, ClickAt(c.p, c.button, c.double)))
            && (c.Warp? || c.Restore? || c.AxPress? ==>
                  (a.Click? || a.DoubleClick?) && j.geometry.ToGlobal(a.space, Point(a.x, a.y)) == Ok(c.p))
            && (c.AxPress? ==>
                  && a.Click?
                  && (j.scope.resolvedTarget.Some? ==> c.pid == j.scope.resolvedTarget.value.pid)
                  && (j.scope.resolvedTarget.None? ==>
                        j.scope.target.Some? && j.scope.target.value.pid == Some(c.pid)))
  {
    GatesHold(j, log, m);
    SoundAt(j, log, m);
    var (k, c) := (log[m].index, log[m].call);
    ResolvesAsAsked(j.actions[k], j.geometry, Point(0.0, 0.0), Meant(j, k).value);
    if c.DirectClick? || c.PhysicalClick? || c.Warp? || c.Restore? {
      assert ClicksAt(c, c.p);
    }
  }

  /** A wait looks again at least every 50 ms. */
  lemma SleepsAreShort(j: Job, log: seq<Entry>, m: nat)
    requires Sound(j, log) && m < |log| && log[m].Made? && log[m].call.Sleep?
    ensures log[m].index < |j.actions| && 1 <= log[m].call.ms <= 50
  {
    SoundAt(j, log, m);
  }

  lemma Earlier(log: seq<Entry>, m: nat, k: nat, d: Entry) returns (q: nat)
    requires m < |log| && d in Deeds(log[..m], k)
    ensures q < m && log[q] == d && DeedOf(log[q], k)
  {
    q :| 0 <= q < m && log[q] == d;
  }
}
