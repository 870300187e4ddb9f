/** Why an action is refused before it is dispatched: each refusal of the gates, told from
    the action, the session's scope and what was read live, and what is let through. */
module Gating {
  import opened Basics
  import opened Coordinates
  import opened Actions
  import opened Sessions
  import opened Worlds
  import opened Queues
  import opened Rules
  import Pointer

  /** A scroll at a point of its own. */
  predicate ScrollsAtPoint(a: ComputerAction) { a.Scroll? && a.sx.Some? && a.sy.Some? }

  /** A keyboard action of a session whose target names something. */
  predicate ReadsFocus(s: Scope, a: ComputerAction) {
    (a.TypeText? || a.Key?) && s.target.Some? && Names(s.target.value)
  }

  /** Nothing the action does takes the real cursor, or the policy lends it. */
  predicate Permitted(s: Scope, a: ComputerAction) {
    s.policy == Pointer.PhysicalAllowed || !(a.Drag? || ScrollsAtPoint(a))
  }

  predicate LeavesBounds(b: DisplayBounds, a: ComputerAction, g: ImageGeometry)
    requires InItsImage(a, g)
  {
    exists p :: p in NamedPoints(a) && !b.ContainsGlobal(g.ToGlobal(a.space, p).value)
  }

  /** The one reason for each refusal; `read` is what the focus read answers. */
  predicate Refuses(s: Scope, a: ComputerAction, g: ImageGeometry, read: Reply, e: GateError) {
    match e
    case IsolatedDragUnavailable => a.Drag? && s.policy == Pointer.IsolatedOnly
    case PhysicalFallbackNotAllowed => ScrollsAtPoint(a) && s.policy == Pointer.IsolatedOnly
    case PhysicalFallbackRequired => (a.Drag? || ScrollsAtPoint(a)) && s.policy == Pointer.IsolatedPreferred
    case InputFocusMismatch => ReadsFocus(s, a) && !SawFront(s.target.value, read)
    case OutOfImage => Permitted(s, a) && !InItsImage(a, g)
    case TargetCoordinateRequired => a.Scroll? && a.sx.None? && a.sy.None? && s.resolvedTarget.Some?
    case TargetOutsideSession =>
      Permitted(s, a) && InItsImage(a, g) && s.targetBounds.Some? && LeavesBounds(s.targetBounds.value, a, g)
  }

  lemma {:induction false} EventsKeepScope(w: World, es: seq<Event>)
    ensures ApplyAll(w, es).session.scope == w.session.scope
    decreases |es|
  {
    if es != [] {
      EventsKeepScope(Apply(w, es[0]), es[1..]);
    }
  }

  lemma AskKeepsScope(w: World, c: Call)
    ensures Ask(w, c).world.session.scope == w.session.scope
  {
    EventsKeepScope(Sent(w, c), NextTurn(w).events);
  }

  /** The bounds gate looks at the images of the points the action names. */
  lemma BoundsExactly(a: ComputerAction, g: ImageGeometry, r: ResolvedAction, b: DisplayBounds)
    requires AsAsked(a, g, r)
    ensures InItsImage(a, g) && (ResolvedWithinBounds(r, b) <==> !LeavesBounds(b, a, g))
  {
    assert forall p :: p in NamedPoints(a) ==> g.ToGlobal(a.space, p).Ok?;
    match r
    case ClickAt(p, _, _) => assert Point(a.x, a.y) in NamedPoints(a);
    case MoveTo(_, p, _) => assert Point(a.x, a.y) in NamedPoints(a);
    case ScrollBy(Some(p), _, _) => assert Point(a.sx.value, a.sy.value) in NamedPoints(a);
    case DragTo(_, _, _) => assert a.start in NamedPoints(a) && a.end in NamedPoints(a);
    case _ => assert NamedPoints(a) == [];
  }

  /** Containment alone, once policy and focus are past. */
  lemma ContainmentExactly(s: Scope, a: ComputerAction, g: ImageGeometry, last: Point, read: Reply, e: GateError)
    requires Permitted(s, a) && !Refuses(s, a, g, read, InputFocusMismatch)
    ensures Containment(s, a, g, last) == Err(e) <==> Refuses(s, a, g, read, e)
    ensures forall r :: Containment(s, a, g, last) == Ok(r) ==>
                          AsAsked(a, g, r) && (r.MoveTo? ==> r.from == last)
  {
    match ToResolved(a, g, last)
    case Err(_) => ResolvesAsAsked(a, g, last, WaitFor(0));
    case Ok(r) =>
      ResolvesAsAsked(a, g, last, r);
      if s.targetBounds.Some? {
        BoundsExactly(a, g, r, s.targetBounds.value);
      }
  }

  /** The gates refuse an action exactly for the reasons above, and let through exactly the
      action that was asked for. The frontmost application is read exactly for the keyboard
      actions of a session whose target names something. */
  lemma GatesRefuseExactly(w: World, a: ComputerAction, g: ImageGeometry, last: Point, e: GateError)
    ensures var gated := Gates(w, a, g, last);
            && (gated.verdict == Err(e) <==> Refuses(w.session.scope, a, g, ReplyTo(w, ReadFocus), e))
            && (gated.verdict.Ok? ==>
                  && AsAsked(a, g, gated.verdict.value)
                  && (gated.verdict.value.MoveTo? ==> gated.verdict.value.from == last))
            && gated.world == if ReadsFocus(w.session.scope, a) then Ask(w, ReadFocus).world else w
  {
    var (s, read) := (w.session.scope, ReplyTo(w, ReadFocus));
    AskKeepsScope(w, ReadFocus);
    if s.target.Some? {
      FocusExactly(s.target.value, read);
    }
    if Permitted(s, a) && !Refuses(s, a, g, read, InputFocusMismatch) {
      ContainmentExactly(s, a, g, last, read, e);
    }
  }
}
