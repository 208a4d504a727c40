/** Runs without thread pools. */
module Synchronous {
  import opened Values
  import opened Protocol
  import opened Effects
  import opened Sqlite
  import opened LockDiscipline
  import opened Order
  import Database
  import Lists

  /** No step that hands work to a thread pool, or shares a connection with one. */
  predicate Sync(step: Step) {
    match step
    case Begin(_, _, async) => !async
    case Timer(_, async) => !async
    case Share(_, _) => false
    case _ => true
  }

  predicate SyncActor(actor: Actor) {
    && actor.job in {Resting, Request, Flush, Exit}
    && match actor.pc
       case Want(List(_)) => false
       case Leave(next) => !next.Post? && !next.PostFlush?
       case Do(next) => !next.Post? && !next.PostFlush?
       case _ => true
  }

  ghost predicate AllSync(s: State) {
    forall a | 0 <= a < |s.actors| :: SyncActor(s.actors[a])
  }

  /** A step that changes one actor, and keeps it to what a synchronous one does. */
  ghost predicate SyncMove(s: State, t: State, a: nat) {
    && a < |s.actors| == |t.actors| && t.actors == s.actors[a := t.actors[a]]
    && SyncActor(t.actors[a])
  }

  lemma StartsAreSync(cfg: Config, s: State, step: Step)
    requires AllSync(s) && Enabled(cfg, s, step) && Sync(step)
    requires step.Begin? || step.NoEntry? || step.Timer? || step.Quit? || step.Complete?
    ensures SyncMove(s, Next(cfg, s, step), step.a)
  {
    hide SpawnStep, InsertStep, PostStep, ActStep;
    assert SyncActor(s.actors[step.a]);
    match step
    case Begin(_, _, _) =>
    case NoEntry(_) =>
    case Timer(_, _) =>
    case Quit(_) =>
    case Complete(_, _) =>
  }

  lemma LaterStepsAreSync(cfg: Config, s: State, step: Step)
    requires AllSync(s) && Enabled(cfg, s, step)
    requires step.Acquire? || step.Release? || step.Insert?
    ensures SyncMove(s, Next(cfg, s, step), step.a)
  {
    hide Database.InsertListSpec, SpawnStep, QuitStep, CompleteStep, PostStep, ActStep, Lists.Entries;
    assert SyncActor(s.actors[step.a]);
    match step
    case Acquire(_) =>
    case Release(_) =>
    case Insert(_, _) =>
  }

  lemma BodiesAreSync(cfg: Config, s: State, a: nat, ok: bool)
    requires AllSync(s) && Enabled(cfg, s, Act(a, ok))
    ensures SyncMove(s, ActStep(cfg, s, a, ok), a)
  {
    hide Lists.Relist;
    assert SyncActor(s.actors[a]);
    match s.actors[a].pc.body
    case Push(_) =>
    case Peek =>
    case Check =>
    case List(_) =>
    case Unshift(_) =>
  }

  lemma NoTaskToPost(s: State, a: nat)
    requires AllSync(s) && a < |s.actors|
    ensures !(s.actors[a].pc.Do? && (s.actors[a].pc.next.Post? || s.actors[a].pc.next.PostFlush?))
  {
    assert SyncActor(s.actors[a]);
  }

  /** A synchronous run never gets to a task. */
  lemma {:induction false} StepStaysSync(cfg: Config, s: State, step: Step)
    requires AllSync(s) && Enabled(cfg, s, step) && Sync(step)
    ensures AllSync(Next(cfg, s, step))
  {
    hide SyncActor, SpawnStep, InsertStep, PostStep, ActStep;
    match step
    case Spawn(o) => FreshWorkerIsSync(cfg, s, o);
    case PostTask(a, _) => NoTaskToPost(s, a);
    case Act(a, ok) => BodiesAreSync(cfg, s, a, ok);
    case Acquire(_) => LaterStepsAreSync(cfg, s, step);
    case Release(_) => LaterStepsAreSync(cfg, s, step);
    case Insert(_, _) => LaterStepsAreSync(cfg, s, step);
    case _ => StartsAreSync(cfg, s, step);
  }

  lemma FreshWorkerIsSync(cfg: Config, s: State, o: Oracle)
    requires AllSync(s)
    ensures AllSync(SpawnStep(cfg, s, o))
  {
    hide Database.InitSpec;
  }

  /** Without thread pools an overflowed entry waits only under the mutex, so nobody pushes past it. */
  lemma SyncStepsArePatient(cfg: Config, s: State, step: Step)
    requires AllSync(s) && Exclusive(s) && Enabled(cfg, s, step)
    ensures Patient(s, step)
  {
    if step.Act? && s.actors[step.a].pc.body.Push? {
      forall i | 0 <= i < |s.actors|
        ensures Late(s.actors[i].pc) == []
      {
        assert SyncActor(s.actors[i]);
        assert Critical(s.actors[i].pc) <==> s.lock == Some(i);
        assert Critical(s.actors[step.a].pc);
      }
    }
  }

  // ---------------------------------------------------------------- whole runs

  ghost predicate SyncRun(cfg: Config, states: seq<State>, steps: seq<Step>) {
    && Run(cfg, states, steps)
    && forall i | 0 <= i < |steps| :: Sync(steps[i])
  }

  lemma {:induction false} RunStaysSync(cfg: Config, states: seq<State>, steps: seq<Step>)
    requires SyncRun(cfg, states, steps)
    ensures AllSync(Last(states))
    decreases |steps|
  {
    if steps != [] {
      var k := |steps| - 1;
      RunPrefix(cfg, states, steps);
      RunStaysSync(cfg, states[..|steps|], steps[..k]);
      assert Sync(steps[k]);
      hide AllSync, Next, Sync;
      StepStaysSync(cfg, states[k], steps[k]);
    }
  }

  /** In a synchronous run no push ever gets past a waiting entry. */
  lemma SyncRunsArePatient(cfg: Config, states: seq<State>, steps: seq<Step>)
    requires SyncRun(cfg, states, steps)
    ensures forall i | 0 <= i < |steps| :: Patient(states[i], steps[i])
  {
    forall i | 0 <= i < |steps|
      ensures Patient(states[i], steps[i])
    {
      assert Enabled(cfg, states[i], steps[i]);
      assert SyncRun(cfg, states[..i + 1], steps[..i]);
      RunStaysSync(cfg, states[..i + 1], steps[..i]);
      MutualExclusion(cfg, states[..i + 1], steps[..i]);
      hide AllSync, Exclusive, Patient;
      SyncStepsArePatient(cfg, states[i], steps[i]);
    }
  }

  /** Without thread pools, drains that do not overlap suffice for the order. */
  lemma SyncRunsKeepOrder(cfg: Config, states: seq<State>, steps: seq<Step>)
    requires 1 <= cfg.n && SyncRun(cfg, states, steps)
    requires forall i | 0 <= i < |states| :: OneInFlight(states[i])
    ensures var s := Last(states);
            && Subseq(Kept(s), s.pushed)
            && |s.pushed| - |Kept(s)| == |s.dropped|
            && (s.dropped == [] ==> Kept(s) == s.pushed)
  {
    hide OneInFlight, Patient, Subseq, Kept;
    SyncRunsArePatient(cfg, states, steps);
    OrderThroughOverflow(cfg, states, steps);
  }

  /** One synchronous worker at a time appends to one log: the order needs no further hypothesis. */
  lemma SingleWorkerKeepsOrder(cfg: Config, states: seq<State>, steps: seq<Step>)
    requires 1 <= cfg.n && SyncRun(cfg, states, steps)
    requires forall i | 0 <= i < |states| :: Live(states[i].actors) <= 1
    ensures var s := Last(states);
            && Subseq(Kept(s), s.pushed)
            && |s.pushed| - |Kept(s)| == |s.dropped|
            && (s.dropped == [] ==> Kept(s) == s.pushed)
  {
    hide Patient, Subseq, Kept;
    forall i | 0 <= i < |states|
      ensures OneInFlight(states[i])
    {
      OneLiveOneInFlight(states[i]);
    }
    SyncRunsKeepOrder(cfg, states, steps);
  }

  lemma OneLiveOneInFlight(s: State)
    requires Live(s.actors) <= 1
    ensures OneInFlight(s)
  {
    forall i: nat, j: nat | i < |s.actors| && j < |s.actors| && i < j
      ensures !(Flying(s.actors[i].pc) && Flying(s.actors[j].pc))
    {
      if s.actors[i].pc != Gone && s.actors[j].pc != Gone {
        TwoLive(s.actors, i, j);
      }
    }
  }

  // ------------------------------------------------------- drains of filled queues

  /** Whoever is about to list without an overflowed entry in hand has something to list. */
  ghost predicate DrainsAreFilled(s: State) {
    forall a | 0 <= a < |s.actors| && s.actors[a].pc == Hold(List(None)) :: s.queue != []
  }

  lemma MoverListsFilled(cfg: Config, s: State, step: Step)
    requires AllSync(s) && Enabled(cfg, s, step) && !step.Spawn?
    ensures step.a < |s.actors|
    ensures Next(cfg, s, step).actors[step.a].pc == Hold(List(None)) ==> Next(cfg, s, step).queue != []
  {
    hide Database.InsertListSpec, SpawnStep, Lists.Relist, Lists.Entries;
    assert SyncActor(s.actors[step.a]);
  }

  lemma StepKeepsFilled(cfg: Config, s: State, step: Step)
    requires DrainsAreFilled(s) && AllSync(s) && Exclusive(s) && Enabled(cfg, s, step)
    ensures DrainsAreFilled(Next(cfg, s, step))
  {
    hide Next, Enabled, AllSync, SyncActor;
    EveryStepIsMutexStep(cfg, s, step);
    if !step.Spawn? {
      MoverListsFilled(cfg, s, step);
    }
    var t := Next(cfg, s, step);
    forall i: nat | i < |t.actors| && t.actors[i].pc == Hold(List(None))
      ensures t.queue != []
    {
      assert i < |s.actors|;
      if !Moves(step, i) {
        assert Critical(s.actors[i].pc);
        StepUnderMutex(cfg, s, step, i);
      }
    }
  }

  lemma {:induction false} RunStaysFilled(cfg: Config, states: seq<State>, steps: seq<Step>)
    requires SyncRun(cfg, states, steps)
    ensures DrainsAreFilled(Last(states))
    decreases |steps|
  {
    if steps != [] {
      var k := |steps| - 1;
      RunPrefix(cfg, states, steps);
      RunStaysFilled(cfg, states[..|steps|], steps[..k]);
      RunStaysSync(cfg, states[..|steps|], steps[..k]);
      MutualExclusion(cfg, states[..|steps|], steps[..k]);
      hide AllSync, Next, Sync, Exclusive, DrainsAreFilled;
      StepKeepsFilled(cfg, states[k], steps[k]);
    }
  }
}
