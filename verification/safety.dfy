/** Every run of the queue obeys the rules. The predicates of these proofs name their
    whole body before giving it, so that a proof carries each as one fact. */
module Safety {
  import opened Coordinates
  import opened Sessions
  import opened Worlds
  import opened Rules
  import Pointer

  /** The invariant of a run: the batch is registered, the log is sound, the token has
      fired if any entry saw it fire, and the real flag is what the log says. */
  ghost predicate Good(j: Job, w: World) {
    var good :=
      && w.batch == j.batch && w.session.scope == j.scope
      && j.batch in w.session.batchTokens && (forall t :: t in w.session.batchTokens ==> t < w.issued)
      && Coherent(w.session)
      && Sound(j, w.log)
      && (forall e :: e in w.log ==> e.index <= w.index && (e.fired ==> Fired(w)))
      && w.human.pendingReal == Pending(w.pendedBefore, w.log);
    good
  }

  /** Nothing has disturbed the batch: nobody took over, and nobody is waiting to. */
  predicate Calm(w: World) { w.session.state == Active && !w.human.pendingReal }

  /** What only grows, and what does not change, from `w` to a later `v`. */
  ghost predicate Since(j: Job, w: World, v: World) {
    var since :=
      && w.pendedBefore == v.pendedBefore
      && (Fired(w) ==> Fired(v))
      && w.human.generation <= v.human.generation
      && (w.human.generation < v.human.generation ==> Fired(v))
      && (Calm(w) && !Fired(v) ==> Calm(v))
      && (w.session.mode != Pointer.PhysicalFallback ==> v.session.mode != Pointer.PhysicalFallback)
      && (j.scope.policy != Pointer.PhysicalAllowed && w.human.generation == v.human.generation ==>
            w.cursor == v.cursor);
    since
  }

  /** In the middle of the live action `w.index`, with deeds `ds` done so far. */
  ghost predicate On(j: Job, w: World, ds: seq<Entry>) {
    var live :=
      Good(j, w) && w.index < |j.actions| && StillOn(w.log, w.index) && Deeds(w.log, w.index) == ds;
    live
  }

  /** A change the rules do not look at: the clock, the stamps, the pointer's mode and place. */
  ghost predicate Tweaked(w: World, v: World) {
    && v.session.(mode := w.session.mode, location := w.session.location) == w.session
    && v.human.pendingReal == w.human.pendingReal && v.human.generation == w.human.generation
    && v.(session := w.session, human := w.human, now := w.now) == w
  }

  lemma TweakKeeps(j: Job, w: World, v: World)
    requires Tweaked(w, v)
    ensures Good(j, w) ==> Good(j, v)
    ensures forall ds :: On(j, w, ds) ==> On(j, v, ds)
  {
  }

  /** A stretch of a live action: `w` led to `v`, with deeds `ds` done by then. */
  ghost predicate Kept(j: Job, w: World, v: World, ds: seq<Entry>) {
    var kept :=
      On(j, v, ds) && v.index == w.index && Since(j, w, v) && v.session.mode != Pointer.PhysicalFallback;
    kept
  }

  // ---- the environment's events ----

  lemma Logged(j: Job, w: World, v: World, e: Entry)
    requires Good(j, w) && v.log == w.log + [e] && v.pendedBefore == w.pendedBefore
    requires e.index == w.index == v.index && (e.fired ==> Fired(v)) && (Fired(w) ==> e.fired)
    requires Interrupts(j, e) ==> e.fired
    requires e.Made? && !e.call.Overlay? ==> Deedful(j, w.log, e)
    requires e.Consumed? && Legal(e.before, UserTakeover) ==> e.after == UserTakeover && e.fired
    requires v.batch == j.batch && v.session.scope == j.scope && Coherent(v.session)
    requires j.batch in v.session.batchTokens && (forall t :: t in v.session.batchTokens ==> t < v.issued)
    requires v.human.pendingReal <==>
      !e.Consumed? && ((e.Happened? && e.event.HumanEvent?) || w.human.pendingReal)
    ensures Good(j, v)
    ensures forall k :: Deeds(v.log, k) == Deeds(w.log, k) + if DeedOf(e, k) then [e] else []
    ensures StillOn(w.log, w.index) ==> StillOn(v.log, v.index)
  {
    Append(j, w.log, e, 0, w.pendedBefore);
    forall k: nat
      ensures Deeds(v.log, k) == Deeds(w.log, k) + if DeedOf(e, k) then [e] else []
    {
      Append(j, w.log, e, k, w.pendedBefore);
    }
  }

  lemma EffectKeeps(j: Job, w: World, e: Event)
    requires Good(j, w)
    ensures var v := Effect(w, e);
            && v.(log := w.log, human := w.human, session := w.session, fired := w.fired,
                  issued := w.issued, cursor := w.cursor) == w
            && v.log == w.log && v.session.scope == w.session.scope && Coherent(v.session)
            && j.batch in v.session.batchTokens && (forall t :: t in v.session.batchTokens ==> t < v.issued)
            && (Fired(w) ==> Fired(v))
            && (v.human.pendingReal <==> e.HumanEvent? || w.human.pendingReal)
            && (Interrupts(j, Happened(w.index, e, w.session.state, v.session.state, Fired(v))) ==> Fired(v))
            && w.human.generation <= v.human.generation
            && (w.human.generation < v.human.generation ==> Fired(v))
            && (Calm(w) && !Fired(v) ==> Calm(v))
            && (w.session.mode != Pointer.PhysicalFallback ==> v.session.mode != Pointer.PhysicalFallback)
            && (w.human.generation == v.human.generation ==> w.cursor == v.cursor)
  {
  }

  lemma ApplyKeeps(j: Job, w: World, e: Event)
    requires Good(j, w)
    ensures var v := Apply(w, e); Good(j, v) && Since(j, w, v) && v.index == w.index
    ensures var v := Apply(w, e); v.human.generation == w.human.generation ==> v.cursor == w.cursor
    ensures var v := Apply(w, e);
            Deeds(v.log, w.index) == Deeds(w.log, w.index) && (StillOn(w.log, w.index) ==> StillOn(v.log, w.index))
  {
    EffectKeeps(j, w, e);
    var u := Effect(w, e);
    var v := Apply(w, e);
    Logged(j, w, v, Happened(w.index, e, w.session.state, u.session.state, Fired(u)));
  }

  lemma {:induction false} ApplyAllKeeps(j: Job, w: World, es: seq<Event>)
    requires Good(j, w)
    ensures var v := ApplyAll(w, es); Good(j, v) && Since(j, w, v) && v.index == w.index
    ensures var v := ApplyAll(w, es); v.human.generation == w.human.generation ==> v.cursor == w.cursor
    ensures var v := ApplyAll(w, es);
            Deeds(v.log, w.index) == Deeds(w.log, w.index) && (StillOn(w.log, w.index) ==> StillOn(v.log, w.index))
    decreases |es|
  {
    if es != [] {
      ApplyKeeps(j, w, es[0]);
      ApplyAllKeeps(j, Apply(w, es[0]), es[1..]);
    }
  }

  // ---- one driver call ----

  function EntryOf(w: World, c: Call): Entry {
    Made(w.index, c, ReplyTo(w, c), Fired(w), w.human.syntheticCount)
  }

  function DeedIn(w: World, c: Call): seq<Entry> { if IsDeed(c) then [EntryOf(w, c)] else [] }

  /** What the rules ask before call `c`; the overlay is free. */
  ghost predicate Allowed(j: Job, w: World, c: Call) {
    c.Overlay? || Deedful(j, w.log, EntryOf(w, c))
  }

  lemma CursorStays(j: Job, k: nat, ds: seq<Entry>, c: Call, at: Point, r: Reply)
    requires k < |j.actions| && (IsDeed(c) ==> May(j, k, ds, c)) && j.scope.policy != Pointer.PhysicalAllowed
    ensures CursorAfter(at, c, r) == at
  {
  }

  lemma SentKeeps(j: Job, w: World, c: Call)
    requires Good(j, w) && Allowed(j, w, c)
    ensures var v := Sent(w, c);
            Good(j, v) && Since(j, w, v) && v.index == w.index && v.human.generation == w.human.generation
    ensures var v := Sent(w, c); Deeds(v.log, w.index) == Deeds(w.log, w.index) + DeedIn(w, c)
                                 && (StillOn(w.log, w.index) ==> StillOn(v.log, w.index))
  {
    var v := Sent(w, c);
    Logged(j, w, v, EntryOf(w, c));
    if j.scope.policy != Pointer.PhysicalAllowed && !c.Overlay? {
      CursorStays(j, w.index, Deeds(w.log, w.index), c, w.cursor, ReplyTo(w, c));
    }
  }

  lemma AskKeeps(j: Job, w: World, c: Call)
    requires Good(j, w) && Allowed(j, w, c)
    ensures var v := Ask(w, c).world; Good(j, v) && Since(j, w, v) && v.index == w.index
    ensures var v := Ask(w, c).world;
            v.human.generation == w.human.generation ==> v.cursor == CursorAfter(w.cursor, c, ReplyTo(w, c))
    ensures var v := Ask(w, c).world; Deeds(v.log, w.index) == Deeds(w.log, w.index) + DeedIn(w, c)
                                      && (StillOn(w.log, w.index) ==> StillOn(v.log, w.index))
  {
    SentKeeps(j, w, c);
    ApplyAllKeeps(j, Sent(w, c), NextTurn(w).events);
  }

  /** One more deed of the live action. */
  lemma Does(j: Job, w: World, ds: seq<Entry>, c: Call)
    requires On(j, w, ds) && IsDeed(c) && May(j, w.index, ds, c) && (Fired(w) ==> Late(EntryOf(w, c), ds))
    ensures var v := Ask(w, c).world; On(j, v, ds + [EntryOf(w, c)]) && Since(j, w, v) && v.index == w.index
    ensures var v := Ask(w, c).world;
            v.human.generation == w.human.generation ==> v.cursor == CursorAfter(w.cursor, c, ReplyTo(w, c))
  {
    AskKeeps(j, w, c);
  }

  /** A call of the live action that posts nothing and reads no gate. */
  lemma Passes(j: Job, w: World, ds: seq<Entry>, c: Call)
    requires On(j, w, ds) && !IsDeed(c) && (c.Sleep? ==> 1 <= c.ms <= 50)
    ensures var v := Ask(w, c).world; On(j, v, ds) && Since(j, w, v) && v.index == w.index
    ensures var v := Ask(w, c).world; v.human.generation == w.human.generation ==> v.cursor == w.cursor
  {
    AskKeeps(j, w, c);
    assert ds + [] == ds;
  }
}
