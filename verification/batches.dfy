/** One batch from its registration to its end, on the objects themselves. */
module Batches {
  import opened Cancellation
  import opened Coordinates
  import opened Sessions
  import opened HumanInput
  import opened Worlds
  import opened Queues
  import opened Rules
  import opened Safety
  import opened Running
  import opened Reporting
  import opened Theorems
  import opened Executor
  import Pointer

  /** A session as it is between batches. */
  ghost predicate Usable(s: Session)
    reads s, s.tokens
  {
    && Coherent(s.View()) && s.mode != Pointer.PhysicalFallback
    && (forall t :: t in s.batchTokens ==> t < s.tokens.issued)
  }

  /** A fresh session whose input monitor has the runtime's takeover hook for it. */
  method Start() returns (session: Session, human: HumanInputMonitor)
    ensures fresh(session) && fresh(human) && fresh(session.tokens) && human.hook == session
    ensures Usable(session) && session.state == Active && human.View() == FRESH
  {
    var tokens := new TokenArena();
    session := new Session(tokens);
    human := new HumanInputMonitor();
    human.SetRealTakeoverHook(session);
  }

  /** Registers a batch, runs it, and drops its token: whatever the driver answers and
      whatever happens meanwhile, what it did obeys the rules, its reports are complete,
      everything after an action that saw the token fire is cancelled, and the session
      is usable again. */
  method Act(session: Session, human: HumanInputMonitor, b: Batch, d: Detector, turns: seq<Turn>, now: Instant,
          cursor: Point)
    returns (ok: bool, t: Tally, ghost job: Job, ghost log: seq<Entry>)
    requires human.hook == session && Usable(session)
    modifies session, human, session.tokens
    ensures Usable(session) && session.scope == old(session.scope)
    ensures MadeFor(job, b) && job.scope == old(session.scope) && Sound(job, log)
    ensures ok ==> Complete(t.reports, |b.actions|) && Answered(log, t.reports)
    ensures human.pendingReal == Pending(old(human.pendingReal), log)
  {
    var token := session.BeginBatch();
    job := Job(b.actions, b.geometry, session.scope, token);
    var m := new Machine(session, human, token, turns, now, cursor);
    ghost var w := m.Snapshot();
    assert Started(job, b, w);
    ok, t := m.Run(b, d);
    log := m.log;
    EveryRunIsSound(job, b, w, d);
    RunInvariant(job, b, w, d);
    assert m.Snapshot() == RunBatch(b, w, d).p.world;
    session.EndBatch(token);
  }

  lemma RunInvariant(j: Job, b: Batch, w: World, d: Detector)
    requires Started(j, b, w)
    ensures var v := RunBatch(b, w, d).p.world; Good(j, v) && v.pendedBefore == w.pendedBefore
  {
    StartsBetween(j, b, w);
    RunKeeps(j, b, Progress(w, [], w.session.location, d.(streak := 0)), 0);
  }
}
