/** How full the buffer gets: unshifts ignore the maximum, yet the queue stays bounded. */
module Occupancy {
  import opened Values
  import opened Protocol
  import opened Effects
  import opened Sqlite
  import LockDiscipline
  import Synchronous
  import Database
  import Lists

  /** An actor that holds an overflowed entry it has yet to put back. */
  predicate Overflowed(pc: Pc) {
    match pc
    case Leave(Commit(_, pend)) => pend.Some?
    case Do(Commit(_, pend)) => pend.Some?
    case Want(Unshift(_)) => true
    case Hold(Unshift(_)) => true
    case _ => false
  }

  predicate Listing(pc: Pc) {
    match pc
    case Hold(List(_)) => true
    case _ => false
  }

  function One(pc: Pc): nat {
    if Overflowed(pc) then 1 else 0
  }

  function Overflows(actors: seq<Actor>): nat {
    if actors == [] then 0 else One(actors[0].pc) + Overflows(actors[1..])
  }

  lemma {:induction false} OverflowsChange(actors: seq<Actor>, a: nat, actor: Actor)
    requires a < |actors|
    ensures Overflows(actors[a := actor]) + One(actors[a].pc) == Overflows(actors) + One(actor.pc)
  {
    hide One;
    var changed := actors[a := actor];
    if a == 0 {
      assert changed[1..] == actors[1..];
    } else {
      OverflowsChange(actors[1..], a - 1, actor);
      assert changed[0] == actors[0] && changed[1..] == actors[1..][a - 1 := actor];
    }
  }

  lemma {:induction false} OverflowsGrow(actors: seq<Actor>, actor: Actor)
    ensures Overflows(actors + [actor]) == Overflows(actors) + One(actor.pc)
  {
    hide One;
    if actors == [] {
      assert actors + [actor] == [actor];
      assert Overflows([actor]) == One(actor.pc) + Overflows([actor][1..]);
    } else {
      OverflowsGrow(actors[1..], actor);
      assert (actors + [actor])[1..] == actors[1..] + [actor] && (actors + [actor])[0] == actors[0];
    }
  }

  lemma {:induction false} OverflowsAtMost(actors: seq<Actor>)
    ensures Overflows(actors) <= Live(actors)
  {
    if actors != [] {
      OverflowsAtMost(actors[1..]);
    }
  }

  function Bound(cfg: Config, workers: nat): nat {
    workers + if cfg.max <= 2 then 0 else cfg.max - 2
  }

  /**
   * Queue and overflowed entries together; a drain that is about to happen is not counted.
   * `workers` is the largest number of workers that are alive at the same time.
   */
  ghost predicate Bounded(cfg: Config, s: State, workers: nat) {
    || (exists a :: 0 <= a < |s.actors| && Listing(s.actors[a].pc))
    || |s.queue| + Overflows(s.actors) <= Bound(cfg, workers)
  }

  /** A drain for which memory runs out. */
  predicate FailedDrain(s: State, step: Step) {
    && step.Act? && !step.ok && step.a < |s.actors| && Listing(s.actors[step.a].pc)
  }

  // -------------------------------------------------------------- step by step

  /** A step that changes neither the queue nor who holds an overflowed entry. */
  ghost predicate Level(s: State, t: State, a: nat) {
    && a < |s.actors| == |t.actors| && t.actors == s.actors[a := t.actors[a]]
    && |t.queue| + One(t.actors[a].pc) <= |s.queue| + One(s.actors[a].pc)
    && (Listing(s.actors[a].pc) ==> Listing(t.actors[a].pc))
  }

  lemma LevelStaysBounded(cfg: Config, s: State, t: State, a: nat, workers: nat)
    requires Bounded(cfg, s, workers) && Level(s, t, a)
    ensures Bounded(cfg, t, workers)
  {
    hide One, Listing;
    if b :| 0 <= b < |s.actors| && Listing(s.actors[b].pc) {
      assert Listing(t.actors[b].pc);
    } else {
      OverflowsChange(s.actors, a, t.actors[a]);
    }
  }

  lemma StartsAreLevel(cfg: Config, s: State, step: Step)
    requires Enabled(cfg, s, step)
    requires step.Begin? || step.NoEntry? || step.Timer? || step.Quit? || step.Complete? || step.Share?
    ensures Level(s, Next(cfg, s, step), step.a)
  {
    hide Database.InsertListSpec, Database.InitSpec, ActStep, Lists.Entries;
    match step
    case Begin(_, _, _) =>
    case NoEntry(_) =>
    case Timer(_, _) =>
    case Quit(_) =>
    case Complete(_, _) =>
    case Share(_, _) =>
  }

  lemma MutexStepsAreLevel(cfg: Config, s: State, step: Step)
    requires Enabled(cfg, s, step) && (step.Acquire? || step.Release? || step.Insert?)
    ensures Level(s, Next(cfg, s, step), step.a)
  {
    hide Database.InsertListSpec, Database.InitSpec, ActStep, Lists.Entries;
    match step
    case Acquire(_) =>
    case Release(_) =>
    case Insert(_, _) =>
  }

  /** Bodies of critical sections, but for an accepted push and a drain. */
  lemma BodiesAreLevel(cfg: Config, s: State, a: nat, ok: bool)
    requires Enabled(cfg, s, Act(a, ok))
    requires var pc := s.actors[a].pc; pc.body.Peek? || pc.body.Check? || pc.body.Unshift?
    ensures Level(s, ActStep(cfg, s, a, ok), a)
  {
    match s.actors[a].pc.body
    case Peek =>
    case Check =>
    case Unshift(_) =>
  }

  lemma PushStaysBounded(cfg: Config, s: State, a: nat, entry: Row, fits: bool, workers: nat)
    requires 1 <= cfg.max && Bounded(cfg, s, workers) && Live(s.actors) <= workers
    requires LockDiscipline.Exclusive(s) && s.lock == Some(a)
    requires a < |s.actors| && s.actors[a].pc == Hold(Push(entry)) && s.actors[a].job != AsyncRequest
    ensures Bounded(cfg, PushStep(cfg, s, a, entry, fits), workers)
  {
    var t := PushStep(cfg, s, a, entry, fits);
    if !Listing(t.actors[a].pc) {
      OverflowsChange(s.actors, a, t.actors[a]);
      OverflowsOthers(s.actors, a);
      OverflowsAtMost(Others(s.actors, a));
      LiveOthers(s.actors, a);
      assert |t.queue| + 1 <= cfg.max;
    }
  }

  lemma {:induction false} OverflowsOthers(actors: seq<Actor>, a: nat)
    requires a < |actors|
    ensures Overflows(actors) == One(actors[a].pc) + Overflows(Others(actors, a))
  {
    hide One;
    if a == 0 {
      assert Others(actors, a) == actors[1..];
    } else {
      OverflowsOthers(actors[1..], a - 1);
      assert Others(actors, a) == [actors[0]] + Others(actors[1..], a - 1);
    }
  }

  lemma ListStaysBounded(cfg: Config, s: State, a: nat, pend: Option<Row>, workers: nat)
    requires a < |s.actors| && s.actors[a].pc == Hold(List(pend))
    requires Live(ListStep(cfg, s, a, pend, true).actors) <= workers
    ensures Bounded(cfg, ListStep(cfg, s, a, pend, true), workers)
  {
    hide Lists.Relist;
    OverflowsAtMost(ListStep(cfg, s, a, pend, true).actors);
  }

  lemma SpawnStaysBounded(cfg: Config, s: State, o: Oracle, workers: nat)
    requires Bounded(cfg, s, workers)
    ensures Bounded(cfg, SpawnStep(cfg, s, o), workers)
  {
    hide Database.InitSpec;
    var t := SpawnStep(cfg, s, o);
    OverflowsGrow(s.actors, t.actors[|s.actors|]);
    hide Overflowed;
    if b :| 0 <= b < |s.actors| && Listing(s.actors[b].pc) {
      assert Listing(t.actors[b].pc);
    }
  }

  lemma ActStaysBounded(cfg: Config, s: State, a: nat, ok: bool, workers: nat)
    requires 1 <= cfg.max && Bounded(cfg, s, workers) && LockDiscipline.Exclusive(s) && Synchronous.AllSync(s)
    requires Enabled(cfg, s, Act(a, ok)) && !FailedDrain(s, Act(a, ok))
    requires Live(s.actors) <= workers && Live(ActStep(cfg, s, a, ok).actors) <= workers
    ensures Bounded(cfg, ActStep(cfg, s, a, ok), workers)
  {
    hide Bounded, Level, PushStep, ListStep, UnshiftStep, PeekStep, CheckStep;
    assert LockDiscipline.Critical(s.actors[a].pc) && s.lock == Some(a);
    assert Synchronous.SyncActor(s.actors[a]);
    match s.actors[a].pc.body
    case Push(entry) => PushStaysBounded(cfg, s, a, entry, ok, workers);
    case List(pend) => ListStaysBounded(cfg, s, a, pend, workers);
    case _ =>
      BodiesAreLevel(cfg, s, a, ok);
      LevelStaysBounded(cfg, s, ActStep(cfg, s, a, ok), a, workers);
  }

  lemma StepStaysBounded(cfg: Config, s: State, step: Step, workers: nat)
    requires 1 <= cfg.max && Bounded(cfg, s, workers) && LockDiscipline.Exclusive(s) && Synchronous.AllSync(s)
    requires Enabled(cfg, s, step) && !FailedDrain(s, step)
    requires Live(s.actors) <= workers && Live(Next(cfg, s, step).actors) <= workers
    ensures Bounded(cfg, Next(cfg, s, step), workers)
  {
    var t := Next(cfg, s, step);
    if step.Begin? || step.NoEntry? || step.Timer? || step.Quit? || step.Complete? || step.Share? {
      StartsAreLevel(cfg, s, step);
      hide *;
      LevelStaysBounded(cfg, s, t, step.a, workers);
    } else if step.Acquire? || step.Release? || step.Insert? {
      MutexStepsAreLevel(cfg, s, step);
      hide *;
      LevelStaysBounded(cfg, s, t, step.a, workers);
    } else {
      hide Bounded, Level, SpawnStep, ActStep, PostStep, Live;
      match step
      case Spawn(o) => SpawnStaysBounded(cfg, s, o, workers);
      case PostTask(a, _) => Synchronous.NoTaskToPost(s, a);
      case Act(a, ok) => ActStaysBounded(cfg, s, a, ok, workers);
      case _ =>
    }
  }

  // ---------------------------------------------------------------- whole runs

  /** Never are more than `workers` workers alive at the same time. */
  ghost predicate AtMost(workers: nat, states: seq<State>) {
    forall i | 0 <= i < |states| :: Live(states[i].actors) <= workers
  }

  lemma {:induction false} RunStaysBounded(cfg: Config, states: seq<State>, steps: seq<Step>, workers: nat)
    requires 1 <= cfg.max && Synchronous.SyncRun(cfg, states, steps) && AtMost(workers, states)
    requires forall i | 0 <= i < |steps| :: !FailedDrain(states[i], steps[i])
    ensures Bounded(cfg, Last(states), workers)
    decreases |steps|
  {
    if steps != [] {
      var k := |steps| - 1;
      RunPrefix(cfg, states, steps);
      RunStaysBounded(cfg, states[..|steps|], steps[..k], workers);
      LockDiscipline.MutualExclusion(cfg, states[..|steps|], steps[..k]);
      Synchronous.RunStaysSync(cfg, states[..|steps|], steps[..k]);
      assert !FailedDrain(states[k], steps[k]);
      assert Live(states[k].actors) <= workers && Live(states[k + 1].actors) <= workers;
      hide Bounded, Synchronous.AllSync, LockDiscipline.Exclusive, Next, FailedDrain, Live;
      StepStaysBounded(cfg, states[k], steps[k], workers);
    }
  }

  /**
   * The occupancy bound. In a run without thread pools in which no drain fails, whenever the
   * mutex is free, the queue and the overflowed entries that will go back to it together number
   * at most `max - 1` plus the workers that are alive at the same time, and one less for a maximum
   * of two or more. However often workers are replaced, the bound does not grow.
   */
  lemma QueueStaysBounded(cfg: Config, states: seq<State>, steps: seq<Step>, workers: nat)
    requires 1 <= cfg.max && Synchronous.SyncRun(cfg, states, steps) && AtMost(workers, states)
    requires forall i | 0 <= i < |steps| :: !FailedDrain(states[i], steps[i])
    requires Last(states).lock == None
    ensures var s := Last(states);
            && |s.queue| + Overflows(s.actors) <= Bound(cfg, workers)
            && |s.queue| + Overflows(s.actors) <= cfg.max - 1 + workers
  {
    RunStaysBounded(cfg, states, steps, workers);
    LockDiscipline.MutualExclusion(cfg, states, steps);
    var s := Last(states);
    forall a: nat | a < |s.actors|
      ensures !Listing(s.actors[a].pc)
    {
      assert !LockDiscipline.Critical(s.actors[a].pc);
    }
  }
}
