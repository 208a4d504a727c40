/** Shutting down: what is left in the buffer once every worker is gone. */
module Shutdown {
  import opened Values
  import opened Protocol
  import opened Effects
  import opened Sqlite
  import Conservation
  import Database
  import Lists
  import Synchronous

  /** Exiting workers and posted tasks end; nobody else does. */
  predicate Ends(job: Job) {
    job == Exit || job == InsertTask || job == FlushTask
  }

  /** The work of those who end: a check, a drain, and for tasks an unshift; nothing else. */
  predicate EndingBody(job: Job, body: Body) {
    match body
    case Check => true
    case List(pend) => job == Exit ==> pend == None
    case Unshift(_) => job != Exit
    case _ => false
  }

  predicate EndingNext(job: Job, next: Then) {
    match next
    case Finish(_) => true
    case Commit(_, pend) => job == Exit ==> pend == None
    case _ => false
  }

  predicate Proper(actor: Actor) {
    if Ends(actor.job) then
      match actor.pc
      case Want(body) => EndingBody(actor.job, body)
      case Hold(body) => EndingBody(actor.job, body)
      case Leave(next) => EndingNext(actor.job, next)
      case Do(next) => EndingNext(actor.job, next)
      case Gone => true
      case Idle => false
    else actor.pc != Gone
  }

  /** An actor that will not touch the queue again. */
  predicate Past(actor: Actor) {
    && Ends(actor.job)
    && match actor.pc
       case Leave(Finish(_)) => true
       case Do(Finish(_)) => true
       case Leave(Commit(_, pend)) => pend == None
       case Do(Commit(_, pend)) => pend == None
       case Gone => true
       case _ => false
  }

  ghost predicate AllProper(s: State) {
    forall a | 0 <= a < |s.actors| :: Proper(s.actors[a])
  }

  ghost predicate AllPast(s: State) {
    forall a | 0 <= a < |s.actors| :: Past(s.actors[a])
  }

  /** The queue after an actor's last look at it: taken, put back to, or as it was. */
  function AfterLook(s: State, step: Step): seq<Row>
    requires step.Act? ==> step.a < |s.actors|
  {
    if !step.Act? || !step.ok then s.queue
    else match s.actors[step.a].pc
      case Hold(List(_)) => []
      case Hold(Unshift(entry)) => [entry] + s.queue
      case _ => s.queue
  }

  /**
   * What one step means for the end: it changes one actor and keeps it proper; if that one was
   * past it stays past and the queue is left alone; if it gets past now, the queue is `AfterLook`.
   */
  ghost predicate EndStep(s: State, t: State, step: Step)
    requires !step.Spawn? && step.a < |s.actors|
  {
    var a := step.a;
    && |s.actors| <= |t.actors|
    && (forall i | 0 <= i < |s.actors| && i != a :: t.actors[i] == s.actors[i])
    && (forall i | |s.actors| <= i < |t.actors| :: Proper(t.actors[i]) && !Past(t.actors[i]))
    && Proper(t.actors[a])
    && (Past(s.actors[a]) ==> Past(t.actors[a]) && t.queue == s.queue)
    && (Past(t.actors[a]) ==> t.queue == AfterLook(s, step))
  }

  lemma StartsAreEndSteps(cfg: Config, s: State, step: Step)
    requires AllProper(s) && Enabled(cfg, s, step)
    requires step.Begin? || step.NoEntry? || step.Timer? || step.Quit? || step.Complete? || step.Share?
    ensures EndStep(s, Next(cfg, s, step), step)
  {
    hide InsertStep, PostStep, SpawnStep, ActStep;
    assert Proper(s.actors[step.a]);
    match step
    case Begin(_, _, _) =>
    case NoEntry(_) =>
    case Timer(_, _) =>
    case Quit(_) =>
    case Complete(_, _) =>
    case Share(_, _) =>
  }

  lemma LaterStepsAreEndSteps(cfg: Config, s: State, step: Step)
    requires AllProper(s) && Enabled(cfg, s, step)
    requires step.Acquire? || step.Release? || step.Insert? || step.PostTask?
    ensures EndStep(s, Next(cfg, s, step), step)
  {
    hide Database.InsertListSpec, SpawnStep, QuitStep, CompleteStep, ActStep, Lists.Entries;
    assert Proper(s.actors[step.a]);
    match step
    case Acquire(_) =>
    case Release(_) =>
    case Insert(_, _) =>
    case PostTask(_, _) =>
  }

  lemma BodiesAreEndSteps(cfg: Config, s: State, a: nat, ok: bool)
    requires AllProper(s) && Enabled(cfg, s, Act(a, ok))
    ensures EndStep(s, ActStep(cfg, s, a, ok), Act(a, ok))
  {
    hide Lists.Relist;
    assert Proper(s.actors[a]);
    match s.actors[a].pc.body
    case Push(_) =>
    case Peek =>
    case Check =>
    case List(_) =>
    case Unshift(_) =>
  }

  lemma StepsAreEndSteps(cfg: Config, s: State, step: Step)
    requires AllProper(s) && Enabled(cfg, s, step) && !step.Spawn?
    ensures EndStep(s, Next(cfg, s, step), step)
  {
    hide AllProper, EndStep, ActStep, InsertStep, PostStep;
    match step
    case Act(a, ok) => BodiesAreEndSteps(cfg, s, a, ok);
    case Acquire(_) => LaterStepsAreEndSteps(cfg, s, step);
    case Release(_) => LaterStepsAreEndSteps(cfg, s, step);
    case Insert(_, _) => LaterStepsAreEndSteps(cfg, s, step);
    case PostTask(_, _) => LaterStepsAreEndSteps(cfg, s, step);
    case _ => StartsAreEndSteps(cfg, s, step);
  }

  lemma EndStepKeepsProper(s: State, t: State, step: Step)
    requires !step.Spawn? && step.a < |s.actors| && AllProper(s) && EndStep(s, t, step)
    ensures AllProper(t)
  {
    hide Proper, Past;
    forall i | 0 <= i < |t.actors|
      ensures Proper(t.actors[i])
    {
      assert i < |s.actors| ==> Proper(s.actors[i]);
    }
  }

  /** A worker that starts has all its work before it. */
  lemma SpawnIsProper(cfg: Config, s: State, o: Oracle)
    requires AllProper(s)
    ensures AllProper(SpawnStep(cfg, s, o)) && !AllPast(SpawnStep(cfg, s, o))
  {
    hide Database.InitSpec;
    var t := SpawnStep(cfg, s, o);
    assert !Past(t.actors[|s.actors|]);
  }

  lemma StepStaysProper(cfg: Config, s: State, step: Step)
    requires AllProper(s) && Enabled(cfg, s, step)
    ensures AllProper(Next(cfg, s, step))
  {
    if step.Spawn? {
      SpawnIsProper(cfg, s, step.o);
    } else {
      StepsAreEndSteps(cfg, s, step);
      hide Next, Enabled, AllProper, EndStep;
      assert step.a < |s.actors| by {
        ActorExists(cfg, s, step);
      }
      EndStepKeepsProper(s, Next(cfg, s, step), step);
    }
  }

  lemma ActorExists(cfg: Config, s: State, step: Step)
    requires Enabled(cfg, s, step) && !step.Spawn?
    ensures step.a < |s.actors|
  {
  }

  /** Once nobody is left who will touch the queue, it stays as it is, until a worker starts. */
  lemma PastStaysPast(cfg: Config, s: State, step: Step)
    requires AllProper(s) && AllPast(s) && Enabled(cfg, s, step)
    ensures AllPast(Next(cfg, s, step)) ==> !step.Spawn? && Next(cfg, s, step).queue == s.queue
  {
    if step.Spawn? {
      SpawnIsProper(cfg, s, step.o);
    } else {
      StepsAreEndSteps(cfg, s, step);
      ActorExists(cfg, s, step);
      hide Next, Enabled, Past, Proper;
      assert Past(s.actors[step.a]);
    }
  }

  /** The step after which nobody will touch the queue any more. */
  lemma LastLook(cfg: Config, s: State, step: Step)
    requires AllProper(s) && !AllPast(s) && Enabled(cfg, s, step) && AllPast(Next(cfg, s, step))
    ensures !step.Spawn? && step.a < |s.actors| && !Past(s.actors[step.a])
    ensures Next(cfg, s, step).queue == AfterLook(s, step)
  {
    if step.Spawn? {
      SpawnIsProper(cfg, s, step.o);
    } else {
      StepsAreEndSteps(cfg, s, step);
      ActorExists(cfg, s, step);
      hide Next, Enabled, Past, Proper, AfterLook;
      var t := Next(cfg, s, step);
      assert Past(t.actors[step.a]);
      forall i | 0 <= i < |s.actors| && i != step.a
        ensures Past(s.actors[i])
      {
        assert Past(t.actors[i]);
      }
    }
  }

  // ---------------------------------------------------------------- whole runs

  lemma {:induction false} RunStaysProper(cfg: Config, states: seq<State>, steps: seq<Step>)
    requires Run(cfg, states, steps)
    ensures AllProper(Last(states))
    decreases |steps|
  {
    if steps != [] {
      var k := |steps| - 1;
      RunPrefix(cfg, states, steps);
      RunStaysProper(cfg, states[..|steps|], steps[..k]);
      hide Next, AllProper;
      StepStaysProper(cfg, states[k], steps[k]);
    }
  }

  /** Step `i` is the last look: somebody is not past before it, and everybody is from then on. */
  ghost predicate IsLastLook(states: seq<State>, steps: seq<Step>, i: nat)
    requires |states| == |steps| + 1
  {
    && i < |steps|
    && !AllPast(states[i])
    && (forall j | i < j < |states| :: AllPast(states[j]))
    && !steps[i].Spawn? && steps[i].a < |states[i].actors|
    && !Past(states[i].actors[steps[i].a])
  }

  /**
   * In every run at whose end nobody will touch the queue any more there is a last look, and what
   * is in the queue at the end is what was there just after it.
   */
  lemma {:induction false} LastLookDecides(cfg: Config, states: seq<State>, steps: seq<Step>) returns (i: nat)
    requires Run(cfg, states, steps) && AllPast(Last(states)) && Last(states).actors != []
    ensures IsLastLook(states, steps, i)
    ensures Last(states).queue == AfterLook(states[i], steps[i])
    decreases |steps|
  {
    assert steps != [];
    var k := |steps| - 1;
    RunPrefix(cfg, states, steps);
    RunStaysProper(cfg, states[..|steps|], steps[..k]);
    assert states[k].actors == [] ==> steps[k].Spawn?;
    if AllPast(states[k]) {
      PastStaysPast(cfg, states[k], steps[k]);
      hide Next, AfterLook, AllPast;
      i := LastLookDecides(cfg, states[..|steps|], steps[..k]);
      forall j | i < j < |states|
        ensures AllPast(states[j])
      {
        assert j < |steps| ==> states[..|steps|][j] == states[j];
      }
    } else {
      LastLook(cfg, states[k], steps[k]);
      i := k;
    }
  }

  /** Every process has ended, and so has every task. */
  ghost predicate AllGone(s: State) {
    forall a | 0 <= a < |s.actors| :: s.actors[a].pc == Gone
  }

  lemma {:induction false} GoneHoldNothing(actors: seq<Actor>)
    requires forall a | 0 <= a < |actors| :: actors[a].pc == Gone
    ensures Conservation.InHands(actors) == []
  {
    if actors != [] {
      GoneHoldNothing(actors[1..]);
      assert Held(actors[0].pc) == [];
    }
  }

  lemma GoneIsPast(s: State)
    requires AllProper(s) && AllGone(s)
    ensures AllPast(s)
  {
    forall a | 0 <= a < |s.actors|
      ensures Past(s.actors[a])
    {
      assert Proper(s.actors[a]) && s.actors[a].pc == Gone;
    }
  }

  /**
   * Shutdown. Once all workers and tasks are gone, every entry that ever arrived is a row, or was
   * dropped by a failure, or is among those left in the queue by the last look at it. The queue is
   * empty if and only if that look listed it, or found it empty and did not put an entry back.
   * Workers may have come and gone in between, as they do on a reload.
   */
  lemma ShutdownKeepsEverything(cfg: Config, states: seq<State>, steps: seq<Step>) returns (i: nat)
    requires 1 <= cfg.n && Run(cfg, states, steps) && AllGone(Last(states)) && Last(states).actors != []
    ensures IsLastLook(states, steps, i)
    ensures var s, left := Last(states), AfterLook(states[i], steps[i]);
            && s.queue == left
            && multiset(s.arrived) == multiset(Lists.Entries(s.committed)) + multiset(s.dropped) + multiset(left)
    ensures Last(states).queue == [] <==>
            || (steps[i].Act? && steps[i].ok && Listing(states[i], steps[i].a))
            || (states[i].queue == [] && !(steps[i].Act? && steps[i].ok && Unshifting(states[i], steps[i].a)))
  {
    RunStaysProper(cfg, states, steps);
    GoneIsPast(Last(states));
    Conservation.NothingIsLostOrDuplicated(cfg, states, steps);
    GoneHoldNothing(Last(states).actors);
    hide Next, AllPast, AllProper, Lists.Entries;
    i := LastLookDecides(cfg, states, steps);
  }

  predicate Listing(s: State, a: nat)
    requires a < |s.actors|
  {
    s.actors[a].pc.Hold? && s.actors[a].pc.body.List?
  }

  predicate Unshifting(s: State, a: nat)
    requires a < |s.actors|
  {
    s.actors[a].pc.Hold? && s.actors[a].pc.body.Unshift?
  }

  /**
   * The last look of an exiting worker: it quits without one, which only a worker does that is
   * disabled or not connected; or it finds the queue empty; or it lists the queue, or fails to.
   */
  lemma HowWorkersLook(cfg: Config, s: State, step: Step)
    requires AllProper(s) && Enabled(cfg, s, step) && !step.Spawn?
    requires var t := Next(cfg, s, step);
             step.a < |t.actors| && t.actors[step.a].job == Exit && Past(t.actors[step.a]) && !Past(s.actors[step.a])
    ensures match step
            case Quit(a) => !s.actors[a].enabled || s.actors[a].conn == Null
            case Act(a, _) => (s.actors[a].pc == Hold(Check) && s.queue == []) || Listing(s, a)
            case _ => false
  {
    hide Database.InsertListSpec, Database.InitSpec, Lists.Entries, Lists.Relist;
    assert Proper(s.actors[step.a]);
    match step
    case Quit(_) =>
    case Act(_, _) =>
    case _ =>
  }

  /**
   * If the last worker leaves without a look, because it is disabled or not connected, whatever is
   * queued then is never written: no later step before a new worker starts changes the queue.
   */
  lemma QuitLeavesTheQueue(cfg: Config, s: State, a: nat)
    requires AllProper(s) && Enabled(cfg, s, Quit(a)) && (!s.actors[a].enabled || s.actors[a].conn == Null)
    requires forall i | 0 <= i < |s.actors| && i != a :: Past(s.actors[i])
    ensures var t := Next(cfg, s, Quit(a)); AllPast(t) && AllProper(t) && t.queue == s.queue
  {
    StepStaysProper(cfg, s, Quit(a));
  }

  /**
   * Shutdown without thread pools. The last look is that of a worker. It leaves without one, which
   * it does only if it is disabled or not connected, and the queue stays; or it finds the queue
   * empty; or it lists a queue with entries, which is empty afterwards if and only if that works.
   */
  lemma SyncShutdown(cfg: Config, states: seq<State>, steps: seq<Step>) returns (i: nat)
    requires 1 <= cfg.n && Synchronous.SyncRun(cfg, states, steps)
    requires AllGone(Last(states)) && Last(states).actors != []
    ensures IsLastLook(states, steps, i)
    ensures var s, left := states[i], Last(states).queue;
            match steps[i]
            case Quit(a) => (!s.actors[a].enabled || s.actors[a].conn == Null) && left == s.queue
            case Act(a, ok) =>
              || (s.actors[a].pc == Hold(Check) && s.queue == [] && left == [])
              || (s.actors[a].pc == Hold(List(None)) && s.queue != [] && left == if ok then [] else s.queue)
            case _ => false
  {
    hide Next, Enabled, AllPast, AllProper, Past, Synchronous.AllSync, Synchronous.DrainsAreFilled;
    i := ShutdownKeepsEverything(cfg, states, steps);
    LookAt(cfg, states, steps, i);
    SyncLook(cfg, states[i], steps[i]);
  }

  /** What is known at the last look of a synchronous run. */
  lemma LookAt(cfg: Config, states: seq<State>, steps: seq<Step>, i: nat)
    requires Synchronous.SyncRun(cfg, states, steps) && IsLastLook(states, steps, i)
    ensures Enabled(cfg, states[i], steps[i]) && Synchronous.Sync(steps[i])
    ensures Synchronous.AllSync(states[i]) && AllProper(states[i]) && Synchronous.DrainsAreFilled(states[i])
    ensures AllPast(Next(cfg, states[i], steps[i])) && !Past(states[i].actors[steps[i].a])
  {
    hide Next, Enabled, Synchronous.AllSync, Synchronous.DrainsAreFilled, AllProper, Past, Synchronous.Sync;
    assert Synchronous.SyncRun(cfg, states[..i + 1], steps[..i]);
    Synchronous.RunStaysSync(cfg, states[..i + 1], steps[..i]);
    Synchronous.RunStaysFilled(cfg, states[..i + 1], steps[..i]);
    RunStaysProper(cfg, states[..i + 1], steps[..i]);
    assert states[i + 1] == Next(cfg, states[i], steps[i]);
  }

  lemma SyncLook(cfg: Config, s: State, step: Step)
    requires Synchronous.AllSync(s) && AllProper(s) && Synchronous.DrainsAreFilled(s)
    requires Enabled(cfg, s, step) && Synchronous.Sync(step) && !step.Spawn? && step.a < |s.actors|
    requires AllPast(Next(cfg, s, step)) && !Past(s.actors[step.a])
    ensures match step
            case Quit(a) => !s.actors[a].enabled || s.actors[a].conn == Null
            case Act(a, _) =>
              || (s.actors[a].pc == Hold(Check) && s.queue == [])
              || (s.actors[a].pc == Hold(List(None)) && s.queue != [])
            case _ => false
  {
    var t := Next(cfg, s, step);
    StepsAreEndSteps(cfg, s, step);
    Synchronous.StepStaysSync(cfg, s, step);
    hide Next;
    assert Past(t.actors[step.a]) && Synchronous.SyncActor(t.actors[step.a]);
    assert t.actors[step.a].job == Exit;
    HowWorkersLook(cfg, s, step);
    if step.Act? && Listing(s, step.a) {
      ListingExits(cfg, s, step.a, step.ok);
    }
  }

  lemma ListingExits(cfg: Config, s: State, a: nat, ok: bool)
    requires AllProper(s) && Enabled(cfg, s, Act(a, ok)) && Listing(s, a)
    requires Next(cfg, s, Act(a, ok)).actors[a].job == Exit
    ensures s.actors[a].pc == Hold(List(None))
  {
    hide Lists.Relist;
    assert Proper(s.actors[a]);
  }
}
