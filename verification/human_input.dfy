/** The human-input monitor: two takeover channels, the event generation and the
    interrupt-latency chain. Instants are milliseconds of a monotonic clock. */
module HumanInput {
  import opened Basics
  import opened Sessions

  type Instant = nat

  datatype HumanView = HumanView(
    lastHuman: Option<Instant>,
    pendingReal: bool,
    pendingHeuristic: bool,
    lastLatency: Option<nat>,
    humanEventAt: Option<Instant>,
    eventCallbackAt: Option<Instant>,
    takeoverStartedAt: Option<Instant>,
    lastSyntheticAt: Option<Instant>,
    syntheticCount: nat,
    generation: nat)

  const FRESH: HumanView := HumanView(None, false, false, None, None, None, None, None, 0, 0)

  /** A hardware event whose tap callback runs at `now`, `latency` after the event. */
  function OnHuman(v: HumanView, latency: nat, now: Instant): HumanView {
    v.(lastHuman := Some(now), lastLatency := Some(latency),
       humanEventAt := Some(if latency <= now then now - latency else now),
       eventCallbackAt := Some(now), pendingReal := true, generation := v.generation + 1)
  }

  function OnSynthetic(v: HumanView, now: Instant): HumanView {
    v.(lastSyntheticAt := Some(now), syntheticCount := v.syntheticCount + 1)
  }

  function Saturating(a: Instant, b: Instant): nat { if a >= b then a - b else 0 }

  function HumanToInputStop(v: HumanView): Option<nat> {
    match (v.lastSyntheticAt, v.humanEventAt)
    case (Some(s), Some(h)) => Some(Saturating(s, h))
    case (None, Some(_)) => Some(0)
    case _ => None
  }

  function EventToTakeover(v: HumanView): Option<nat> {
    match (v.humanEventAt, v.takeoverStartedAt)
    case (Some(e), Some(s)) => Some(Saturating(s, e))
    case _ => None
  }

  function IdleSecs(v: HumanView, now: Instant): Option<nat> {
    if v.lastHuman.None? then None else Some(Saturating(now, v.lastHuman.value) / 1000)
  }

  // ---- every history of the monitor ----

  datatype Signal = Hardware(latency: nat) | Heuristic | Synthetic | TakeoverApplied | ConsumeReal | ConsumeHeuristic

  /** One signal and the clock reading it arrives at. */
  datatype Timed = Timed(signal: Signal, at: Instant)

  function Observe(v: HumanView, t: Timed): HumanView {
    match t.signal
    case Hardware(latency) => OnHuman(v, latency, t.at)
    case Heuristic => v.(pendingHeuristic := true)
    case Synthetic => OnSynthetic(v, t.at)
    case TakeoverApplied => v.(takeoverStartedAt := Some(t.at))
    case ConsumeReal => v.(pendingReal := false)
    case ConsumeHeuristic => v.(pendingHeuristic := false)
  }

  function ObserveAll(v: HumanView, ts: seq<Timed>): HumanView {
    if ts == [] then v else Observe(ObserveAll(v, ts[..|ts| - 1]), ts[|ts| - 1])
  }

  /** The last signal of `ts` that either raises or clears the real channel raises it. */
  predicate RealPending(before: bool, ts: seq<Timed>) {
    if ts == [] then before
    else if ts[|ts| - 1].signal.Hardware? then true
    else if ts[|ts| - 1].signal.ConsumeReal? then false
    else RealPending(before, ts[..|ts| - 1])
  }

  function HardwareEvents(ts: seq<Timed>): nat {
    if ts == [] then 0 else HardwareEvents(ts[..|ts| - 1]) + if ts[|ts| - 1].signal.Hardware? then 1 else 0
  }

  function WithoutHeuristics(ts: seq<Timed>): seq<Timed> {
    if ts == [] then [] else
    var rest := WithoutHeuristics(ts[..|ts| - 1]);
    if ts[|ts| - 1].signal in {Heuristic, ConsumeHeuristic} then rest else rest + [ts[|ts| - 1]]
  }

  /** Everything but the heuristic flag. */
  function Real(v: HumanView): HumanView { v.(pendingHeuristic := false) }

  lemma ObserveReal(v: HumanView, w: HumanView, t: Timed)
    requires Real(v) == Real(w)
    ensures Real(Observe(v, t)) == Real(Observe(w, t))
    ensures t.signal in {Heuristic, ConsumeHeuristic} ==> Real(Observe(v, t)) == Real(w)
  {
  }

  /** The real flag is up exactly when a hardware event came after the last consume,
      and the generation counts hardware events. */
  lemma {:induction false} RealFlagTracksEvents(v: HumanView, ts: seq<Timed>)
    ensures ObserveAll(v, ts).pendingReal == RealPending(v.pendingReal, ts)
    ensures ObserveAll(v, ts).generation == v.generation + HardwareEvents(ts)
  {
    if ts != [] {
      RealFlagTracksEvents(v, ts[..|ts| - 1]);
    }
  }

  /** Deleting every heuristic signal from a history changes nothing else. */
  lemma {:induction false} RealChannelIsIndependent(v: HumanView, ts: seq<Timed>)
    ensures Real(ObserveAll(v, ts)) == Real(ObserveAll(v, WithoutHeuristics(ts)))
  {
    if ts != [] {
      var (init, last) := (ts[..|ts| - 1], ts[|ts| - 1]);
      var kept := WithoutHeuristics(init);
      RealChannelIsIndependent(v, init);
      ObserveReal(ObserveAll(v, init), ObserveAll(v, kept), last);
      if last.signal !in {Heuristic, ConsumeHeuristic} {
        assert (kept + [last])[..|kept|] == kept;
      }
    }
  }

  predicate ClockMonotone(ts: seq<Timed>) {
    forall i, j :: 0 <= i < j < |ts| ==> ts[i].at <= ts[j].at
  }

  /** When the hardware event itself happened, `latency` before its callback. */
  function EventTime(latency: nat, at: Instant): Instant { if latency <= at then at - latency else at }

  /** The interrupt KPI after one hardware event and no other: the exact distance from the
      event to the agent's last input, 0 if that came first or there was none. An input
      after the callback always counts; one during the detection latency does too. */
  lemma {:induction false} InputStopMeasuresLastInput(v: HumanView, latency: nat, at: Instant, ts: seq<Timed>)
    requires ClockMonotone(ts) && (ts != [] ==> at <= ts[0].at) && HardwareEvents(ts) == 0
    ensures var w := ObserveAll(OnHuman(v, latency, at), ts);
            var event := EventTime(latency, at);
            && w.humanEventAt == Some(event)
            && HumanToInputStop(w)
               == Some(if w.lastSyntheticAt.Some? then Saturating(w.lastSyntheticAt.value, event) else 0)
            && w.syntheticCount >= v.syntheticCount
            && (w.syntheticCount == v.syntheticCount ==> w.lastSyntheticAt == v.lastSyntheticAt)
            && (w.syntheticCount > v.syntheticCount ==>
                  w.lastSyntheticAt.Some? && at <= w.lastSyntheticAt.value
                  && HumanToInputStop(w) == Some(w.lastSyntheticAt.value - event))
  {
    if ts != [] {
      InputStopMeasuresLastInput(v, latency, at, ts[..|ts| - 1]);
    }
  }

  // ---- the object ----

  class HumanInputMonitor {
    var lastHuman: Option<Instant>
    var pendingReal: bool
    var pendingHeuristic: bool
    var lastLatency: Option<nat>
    var humanEventAt: Option<Instant>
    var eventCallbackAt: Option<Instant>
    var takeoverStartedAt: Option<Instant>
    var lastSyntheticAt: Option<Instant>
    var syntheticCount: nat
    var generation: nat
    /** The session the installed takeover hook acts on; null when no hook is installed. */
    var hook: Session?

    constructor ()
      ensures View() == FRESH && hook == null
    {
      lastHuman, lastLatency, humanEventAt, eventCallbackAt := None, None, None, None;
      takeoverStartedAt, lastSyntheticAt := None, None;
      pendingReal, pendingHeuristic := false, false;
      syntheticCount, generation := 0, 0;
      hook := null;
    }

    function View(): HumanView
      reads this
    {
      HumanView(lastHuman, pendingReal, pendingHeuristic, lastLatency, humanEventAt, eventCallbackAt,
                takeoverStartedAt, lastSyntheticAt, syntheticCount, generation)
    }

    method SetRealTakeoverHook(s: Session)
      modifies this
      ensures hook == s && View() == old(View())
    {
      hook := s;
    }

    /** Whole seconds since the last hardware event, if there was one. */
    method IdleSeconds(now: Instant) returns (idle: Option<nat>)
      ensures idle == IdleSecs(View(), now)
      ensures idle.None? <==> lastHuman.None?
      ensures idle.Some? && lastHuman.value <= now ==>
                lastHuman.value + 1000 * idle.value <= now < lastHuman.value + 1000 * (idle.value + 1)
      ensures idle.Some? && now < lastHuman.value ==> idle.value == 0
    {
      idle := match lastHuman
              case None => None
              case Some(t) => Some((if t <= now then now - t else 0) / 1000);
    }

    method ConsumeRealTakeover() returns (was: bool)
      modifies this
      ensures was == old(View()).pendingReal && View() == old(View()).(pendingReal := false) && hook == old(hook)
    {
      was := pendingReal;
      pendingReal := false;
    }

    method ConsumeTakeover() returns (was: bool)
      modifies this
      ensures was == old(View()).pendingHeuristic && hook == old(hook)
      ensures View() == old(View()).(pendingHeuristic := false)
    {
      was := pendingHeuristic;
      pendingHeuristic := false;
    }

    method RecordHeuristicDetection()
      modifies this
      ensures View() == old(View()).(pendingHeuristic := true) && hook == old(hook)
    {
      pendingHeuristic := true;
    }

    method MarkTakeoverStarted(now: Instant)
      modifies this
      ensures View() == old(View()).(takeoverStartedAt := Some(now)) && hook == old(hook)
    {
      takeoverStartedAt := Some(now);
    }

    method RecordSyntheticEvent(now: Instant)
      modifies this
      ensures View() == OnSynthetic(old(View()), now) && hook == old(hook)
    {
      lastSyntheticAt := Some(now);
      syntheticCount := syntheticCount + 1;
    }

    /** The sink the event tap drives. With the hook installed the session's
        in-flight batches are cancelled and it moves to UserTakeover before the
        call returns. */
    method OnHumanEvent(latency: nat, now: Instant)
      modifies this, if hook == null then {} else {hook as object, hook.tokens}
      ensures View() == OnHuman(old(View()), latency, now) && hook == old(hook)
      ensures hook != null ==>
        && hook.View() == Transition(old(hook.View()), UserTakeover)
        && hook.tokens.fired == old(hook.tokens.fired) + old(Elements(hook.batchTokens))
        && hook.tokens.issued == old(hook.tokens.issued)
    {
      var at := if latency <= now then now - latency else now;
      lastHuman := Some(now);
      lastLatency := Some(latency);
      humanEventAt := Some(at);
      eventCallbackAt := Some(now);
      pendingReal := true;
      generation := generation + 1;
      if hook != null {
        hook.CancelInFlight();
        var _ := hook.TransitionTo(UserTakeover);
      }
    }
  }
}
