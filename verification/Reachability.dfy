/** Building runs step by step. */
module Reachability {
  import opened Values
  import opened Protocol
  import Conservation
  import Lists
  import Order
  import Synchronous

  /**
   * Some run ends in `s`; if asked for, it hands nothing to a thread pool, or never has two
   * drains under way at once.
   */
  ghost predicate Reachable(cfg: Config, s: State, sync: bool, calm: bool) {
    exists states: seq<State>, steps: seq<Step> ::
      && Run(cfg, states, steps) && Last(states) == s
      && (sync ==> forall i | 0 <= i < |steps| :: Synchronous.Sync(steps[i]))
      && (calm ==> forall i | 0 <= i < |states| :: Order.OneInFlight(states[i]))
  }

  lemma StartIsReachable(cfg: Config)
    ensures Reachable(cfg, START, true, true)
    ensures Reachable(cfg, START, false, true) && Reachable(cfg, START, true, false)
  {
    var states: seq<State>, steps: seq<Step> := [START], [];
    assert Run(cfg, states, steps) && Last(states) == START;
  }

  /** One more step. */
  lemma Go(cfg: Config, s: State, step: Step, t: State, sync: bool, calm: bool)
    requires Reachable(cfg, s, sync, calm) && Enabled(cfg, s, step) && t == Next(cfg, s, step)
    requires (sync ==> Synchronous.Sync(step)) && (calm ==> Order.OneInFlight(t))
    ensures Reachable(cfg, t, sync, calm)
  {
    hide Enabled, Next, Order.OneInFlight, Synchronous.Sync;
    var states: seq<State>, steps: seq<Step> :|
      && Run(cfg, states, steps) && Last(states) == s
      && (sync ==> forall i | 0 <= i < |steps| :: Synchronous.Sync(steps[i]))
      && (calm ==> forall i | 0 <= i < |states| :: Order.OneInFlight(states[i]));
    RunExtends(cfg, states, steps, step, t);
    hide Run;
    assert Last(states + [t]) == t;
  }

  /** An enabled worker between two requests. */
  predicate Rests(s: State, a: nat) {
    a < |s.actors| && s.actors[a].job == Resting && s.actors[a].pc == Idle && s.actors[a].enabled
  }

  /** A state in which one actor is somewhere in a job, and the mutex is as given. */
  function At(s: State, a: nat, job: Job, pc: Pc, lock: Option<nat>): State
    requires a < |s.actors|
  {
    s.(lock := lock, actors := s.actors[a := s.actors[a].(job := job, pc := pc)])
  }

  lemma Moved(s: State, a: nat, job: Job, pc: Pc, lock: Option<nat>, next: Pc)
    requires a < |s.actors|
    ensures Goto(At(s, a, job, pc, lock), a, next) == At(s, a, job, next, lock)
  {
    var t := At(s, a, job, pc, lock);
    assert t.actors[a := t.actors[a].(pc := next)] == At(s, a, job, next, lock).actors;
  }

  /** Queued entries have the arity of the format. */
  lemma QueueHasArity(cfg: Config, s: State, sync: bool, calm: bool)
    requires 1 <= cfg.n && Reachable(cfg, s, sync, calm)
    ensures Lists.AllOfLength(cfg.n, s.queue)
  {
    hide Enabled, Next, Order.OneInFlight, Synchronous.Sync;
    var states: seq<State>, steps: seq<Step> :| Run(cfg, states, steps) && Last(states) == s;
    Conservation.RunConserves(cfg, states, steps);
  }

  // Pieces that handlers have in common. `sync` asks for a run without thread pools.

  /** Whoever wants the free mutex gets it. */
  lemma Enter(cfg: Config, s: State, a: nat, job: Job, body: Body, sync: bool)
    requires a < |s.actors| && Reachable(cfg, At(s, a, job, Want(body), None), sync, false)
    ensures Reachable(cfg, At(s, a, job, Hold(body), Some(a)), sync, false)
  {
    hide Reachable, Order.OneInFlight, SpawnStep, InsertStep, PostStep, CompleteStep, QuitStep, ActStep;
    Moved(s, a, job, Want(body), None, Hold(body));
    Go(cfg, At(s, a, job, Want(body), None), Acquire(a), At(s, a, job, Hold(body), Some(a)), sync, false);
  }

  /** The holder releases it. */
  lemma LetGo(cfg: Config, s: State, a: nat, job: Job, next: Then, sync: bool)
    requires a < |s.actors| && Reachable(cfg, At(s, a, job, Leave(next), Some(a)), sync, false)
    ensures Reachable(cfg, At(s, a, job, if next == Relock then Want(Check) else Do(next), None), sync, false)
  {
    hide Reachable, Order.OneInFlight, SpawnStep, InsertStep, PostStep, CompleteStep, QuitStep, ActStep;
    var pc := if next == Relock then Want(Check) else Do(next);
    Moved(s, a, job, Leave(next), Some(a), pc);
    Go(cfg, At(s, a, job, Leave(next), Some(a)), Release(a), At(s, a, job, pc, None), sync, false);
  }

  /** The holder runs its body, with a given effect on the rest of the state. */
  lemma Runs(cfg: Config, s: State, a: nat, job: Job, body: Body, ok: bool, t: State, pc: Pc, sync: bool)
    requires a < |s.actors| == |t.actors| && Reachable(cfg, At(s, a, job, Hold(body), Some(a)), sync, false)
    requires ActStep(cfg, At(s, a, job, Hold(body), Some(a)), a, ok) == At(t, a, job, pc, Some(a))
    ensures Reachable(cfg, At(t, a, job, pc, Some(a)), sync, false)
  {
    hide Reachable, Order.OneInFlight, SpawnStep, InsertStep, PostStep, CompleteStep, QuitStep, ActStep;
    Go(cfg, At(s, a, job, Hold(body), Some(a)), Act(a, ok), At(t, a, job, pc, Some(a)), sync, false);
  }
}
