/** Cancellation tokens, the session state machine and the global control lock. */

/** Cancellation tokens. A token is a shared flag that only ever goes from live to
    fired; a handle is an identity, so the flags live in one arena. */
module Cancellation {

  type TokenId = nat

  class TokenArena {
    var issued: nat
    var fired: set<TokenId>

    constructor ()
      ensures issued == 0 && fired == {}
    {
      issued, fired := 0, {};
    }

    method ChildToken() returns (t: TokenId)
      modifies this
      ensures t == old(issued) && issued == old(issued) + 1
      ensures fired == old(fired) - {t}
    {
      t := issued;
      issued := issued + 1;
      fired := fired - {t};
    }

    method Cancel(t: TokenId)
      modifies this
      ensures fired == old(fired) + {t} && issued == old(issued)
    {
      fired := fired + {t};
    }
  }
}

module Sessions {
  import opened Basics
  import opened Cancellation
  import opened Coordinates
  import Pointer

  datatype SessionState = Starting | Active | Paused | UserTakeover | Stopping | Stopped | Failed

  /** The requested target: any subset of bundle, process and window. */
  datatype SessionTarget = SessionTarget(bundleId: Option<string>, pid: Option<int>, windowId: Option<int>)

  /** The target as the driver resolved it. */
  datatype ResolvedTarget = ResolvedTarget(bundleId: string, pid: int, windowId: int, bounds: Option<DisplayBounds>)

  /** What a session is allowed to touch; fixed while one of its batches runs. */
  datatype Scope = Scope(
    policy: Pointer.PointerPolicy,
    target: Option<SessionTarget>,
    resolvedTarget: Option<ResolvedTarget>,
    targetBounds: Option<DisplayBounds>)

  datatype SessionView = SessionView(
    state: SessionState,
    paused: bool,
    userTakeover: bool,
    mode: Pointer.PointerMode,
    location: Point,
    batchTokens: seq<TokenId>,
    scope: Scope)

  // ---- the transition table ----

  predicate Legal(current: SessionState, target: SessionState) {
    match target
    case Active => current in {Starting, Active, Paused, UserTakeover}
    case Paused => current == Active
    case UserTakeover => current == Active || current == Paused
    case Stopping => true
    case Stopped => true
    case Failed => true
    case Starting => false
  }

  /** States whose entry cancels every in-flight batch. */
  predicate Halts(target: SessionState) {
    target != Starting && target != Active
  }

  function ModeFor(state: SessionState): Pointer.PointerMode {
    match state
    case UserTakeover => Pointer.UserTakeover
    case Paused => Pointer.Paused
    case _ => Pointer.Isolated
  }

  function Elements(s: seq<TokenId>): set<TokenId> { set t | t in s }

  function Transition(v: SessionView, target: SessionState): SessionView {
    if !Legal(v.state, target) then v else
    v.(state := target,
       paused := if target == Paused then true
                 else if target == UserTakeover || target == Active then false
                 else v.paused,
       userTakeover := if target == UserTakeover then true
                       else if target == Active then false
                       else v.userTakeover,
       mode := ModeFor(target))
  }

  /** The tokens `Transition` fires. */
  function TransitionFires(v: SessionView, target: SessionState): set<TokenId> {
    if Legal(v.state, target) && Halts(target) then Elements(v.batchTokens) else {}
  }

  /** The queue's test before every action. */
  predicate SessionAborted(v: SessionView) {
    v.paused || v.userTakeover || v.state in {Stopping, Stopped, Failed}
  }

  /** Flags and state agree, as they do in every state `Transition` can reach. */
  predicate Coherent(v: SessionView) {
    && v.state != Starting
    && (v.state == Active ==> !v.paused && !v.userTakeover)
    && (v.state == Paused ==> v.paused)
    && (v.state == UserTakeover ==> v.userTakeover)
  }

  // ---- every run of session requests ----

  datatype Request = Goto(target: SessionState) | Begin | End(t: TokenId) | CancelAll

  /** A session with the arena its tokens live in. */
  datatype Run = Run(session: SessionView, issued: nat, fired: set<TokenId>)

  function Step(r: Run, q: Request): Run {
    match q
    case Goto(target) =>
      r.(session := Transition(r.session, target), fired := r.fired + TransitionFires(r.session, target))
    case Begin =>
      r.(session := r.session.(batchTokens := r.session.batchTokens + [r.issued]),
         issued := r.issued + 1, fired := r.fired - {r.issued})
    case End(t) => r.(session := r.session.(batchTokens := Without(r.session.batchTokens, t)))
    case CancelAll => r.(fired := r.fired + Elements(r.session.batchTokens))
  }

  function Steps(r: Run, qs: seq<Request>): Run
    decreases |qs|
  {
    if qs == [] then r else Steps(Step(r, qs[0]), qs[1..])
  }

  predicate Registered(r: Run) {
    && Coherent(r.session)
    && (forall t :: t in r.session.batchTokens ==> t < r.issued)
    && (forall t :: t in r.fired ==> t < r.issued)
  }

  lemma {:induction false} RunsStayCoherent(r: Run, qs: seq<Request>)
    requires Registered(r)
    ensures Registered(Steps(r, qs))
    ensures SessionAborted(Steps(r, qs).session) <==> Steps(r, qs).session.state != Active
    decreases |qs|
  {
    if qs != [] {
      RunsStayCoherent(Step(r, qs[0]), qs[1..]);
    }
  }

  /** Nothing leaves {Stopping, Stopped, Failed}. */
  lemma {:induction false} StopIsAbsorbing(r: Run, qs: seq<Request>)
    requires r.session.state in {Stopping, Stopped, Failed}
    ensures Steps(r, qs).session.state in {Stopping, Stopped, Failed}
    decreases |qs|
  {
    if qs != [] {
      StopIsAbsorbing(Step(r, qs[0]), qs[1..]);
    }
  }

  /** Whether `q`, asked of `r`, fires the registered token `t`. */
  predicate Cancels(r: Run, q: Request, t: TokenId) {
    && t in r.session.batchTokens
    && (q == CancelAll || (q.Goto? && Legal(r.session.state, q.target) && Halts(q.target)))
  }

  predicate EverCancelled(r: Run, qs: seq<Request>, t: TokenId)
    decreases |qs|
  {
    qs != [] && (Cancels(r, qs[0], t) || EverCancelled(Step(r, qs[0]), qs[1..], t))
  }

  /** A token reads fired exactly when some request fired it while it was registered. */
  lemma {:induction false} FiredExactlyWhenCancelled(r: Run, qs: seq<Request>, t: TokenId)
    requires Registered(r) && t < r.issued
    ensures t in Steps(r, qs).fired <==> t in r.fired || EverCancelled(r, qs, t)
    decreases |qs|
  {
    if qs != [] {
      FiredExactlyWhenCancelled(Step(r, qs[0]), qs[1..], t);
    }
  }

  /** No ABA: a batch in flight when the session entered a halting state finds its
      token fired at every later look, even if the session is Active again by then;
      and a batch begun at that later point gets a live token. */
  lemma NoAba(r: Run, target: SessionState, qs: seq<Request>, t: TokenId)
    requires Registered(r) && t in r.session.batchTokens
    requires Legal(r.session.state, target) && Halts(target)
    ensures t in Steps(Step(r, Goto(target)), qs).fired
    ensures var later := Steps(Step(r, Goto(target)), qs);
            var begun := Step(later, Begin);
            later.issued in begun.session.batchTokens && later.issued !in begun.fired && t in begun.fired
  {
    var halted := Step(r, Goto(target));
    FiredExactlyWhenCancelled(halted, qs, t);
    RunsStayCoherent(halted, qs);
  }

  // ---- the objects ----

  class Session {
    const tokens: TokenArena
    var state: SessionState
    var paused: bool
    var userTakeover: bool
    var mode: Pointer.PointerMode
    var location: Point
    var batchTokens: seq<TokenId>
    var scope: Scope

    constructor (tokens: TokenArena)
      ensures this.tokens == tokens
      ensures View() == SessionView(Active, false, false, Pointer.Isolated, Point(0.0, 0.0), [],
                                    Scope(Pointer.IsolatedPreferred, None, None, None))
      ensures Coherent(View())
    {
      this.tokens := tokens;
      state, paused, userTakeover := Active, false, false;
      mode, location := Pointer.Isolated, Point(0.0, 0.0);
      batchTokens, scope := [], Scope(Pointer.IsolatedPreferred, None, None, None);
    }

    ghost function View(): SessionView
      reads this
    {
      SessionView(state, paused, userTakeover, mode, location, batchTokens, scope)
    }

    method SetMode(m: Pointer.PointerMode)
      modifies this
      ensures View() == old(View()).(mode := m)
    {
      mode := m;
    }

    method SetVirtualPointer(p: Point)
      modifies this
      ensures View() == old(View()).(location := p)
    {
      location := p;
    }

    /** Mirrors the resolved target's bounds into the containment gate. */
    method SetResolvedTarget(t: Option<ResolvedTarget>)
      modifies this
      ensures View() == old(View()).(scope := old(scope).(resolvedTarget := t,
                                     targetBounds := if t.Some? then t.value.bounds else None))
    {
      scope := scope.(resolvedTarget := t, targetBounds := if t.Some? then t.value.bounds else None);
    }

    method SyncPointerMode(s: SessionState)
      modifies this
      ensures View() == old(View()).(mode := ModeFor(s))
    {
      match s
      case UserTakeover => mode := Pointer.UserTakeover;
      case Paused => mode := Pointer.Paused;
      case _ => mode := Pointer.Isolated;
    }

    method CancelInFlight()
      modifies tokens
      ensures tokens.fired == old(tokens.fired) + Elements(batchTokens)
      ensures tokens.issued == old(tokens.issued)
    {
      for i := 0 to |batchTokens|
        invariant tokens.issued == old(tokens.issued)
        invariant tokens.fired == old(tokens.fired) + Elements(batchTokens[..i])
      {
        assert batchTokens[..i + 1] == batchTokens[..i] + [batchTokens[i]];
        tokens.Cancel(batchTokens[i]);
      }
      assert batchTokens[..|batchTokens|] == batchTokens;
    }

    /** `ok` is the source's Ok; an illegal request changes nothing. */
    method TransitionTo(target: SessionState) returns (ok: bool)
      modifies this, tokens
      ensures ok == Legal(old(state), target)
      ensures View() == Transition(old(View()), target)
      ensures tokens.fired == old(tokens.fired) + TransitionFires(old(View()), target)
      ensures tokens.issued == old(tokens.issued)
    {
      ok := match (state, target)
            case (Starting, Active) => true
            case (Active, Active) => true
            case (_, Paused) => state == Active
            case (Paused, Active) => true
            case (_, UserTakeover) => state == Active || state == Paused
            case (UserTakeover, Active) => true
            case (_, Stopping) => true
            case (_, Stopped) => true
            case (_, Failed) => true
            case _ => false;
      if !ok {
        return;
      }
      state := target;
      match target {
        case Paused =>
          paused := true;
          CancelInFlight();
        case UserTakeover =>
          userTakeover := true;
          paused := false;
          CancelInFlight();
        case Stopping =>
          CancelInFlight();
        case Stopped =>
          CancelInFlight();
        case Failed =>
          CancelInFlight();
        case Active =>
          userTakeover := false;
          paused := false;
        case Starting =>
      }
      SyncPointerMode(target);
    }

    method BeginBatch() returns (t: TokenId)
      modifies this, tokens
      ensures t == old(tokens.issued)
      ensures View() == old(View()).(batchTokens := old(batchTokens) + [t])
      ensures tokens.issued == old(tokens.issued) + 1 && tokens.fired == old(tokens.fired) - {t}
    {
      t := tokens.ChildToken();
      batchTokens := batchTokens + [t];
    }

    method EndBatch(t: TokenId)
      modifies this
      ensures View() == old(View()).(batchTokens := Without(old(batchTokens), t))
    {
      batchTokens := Without(batchTokens, t);
    }
  }

  /** At most one session drives the pointer. */
  class ControlLock {
    var holder: Option<string>

    constructor ()
      ensures holder == None
    {
      holder := None;
    }

    method TryAcquire(id: string) returns (r: Result<(), string>)
      modifies this
      ensures r == if old(holder).None? || old(holder).value == id then Ok(()) else Err(old(holder).value)
      ensures holder == if r.Ok? then Some(id) else old(holder)
    {
      if holder.Some? && holder.value != id {
        return Err(holder.value);
      }
      holder := Some(id);
      r := Ok(());
    }

    method Release(id: string)
      modifies this
      ensures holder == if old(holder) == Some(id) then None else old(holder)
    {
      if holder == Some(id) {
        holder := None;
      }
    }
  }
}
