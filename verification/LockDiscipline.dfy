/** The mutex over whole runs: exclusion, prompt release, no SQLite call inside, no deadlock. */
module LockDiscipline {
  import opened Values
  import opened Protocol
  import Buffer
  import Database
  import Lists
  import Sqlite

  predicate Critical(pc: Pc) {
    pc.Hold? || pc.Leave?
  }

  /** An actor is in its critical section exactly if it is the one that holds the mutex. */
  ghost predicate Exclusive(s: State) {
    && (s.lock.Some? ==> s.lock.value < |s.actors|)
    && (forall i: nat | i < |s.actors| :: Critical(s.actors[i].pc) <==> s.lock == Some(i))
    && (forall i: nat | i < |s.actors| :: s.actors[i].pc != Do(Relock))
  }

  predicate Moves(step: Step, a: nat) {
    match step
    case Spawn(_) => false
    case _ => step.a == a
  }

  /**
   * What a step does to the mutex and to actors. It changes the actor that takes it and may add
   * a new one; the mutex is taken by Acquire and given back by Release.
   */
  ghost predicate MutexStep(s: State, t: State, step: Step) {
    && |s.actors| <= |t.actors| <= |s.actors| + 1
    && (forall i: nat | i < |s.actors| && !Moves(step, i) :: t.actors[i] == s.actors[i])
    && (|s.actors| < |t.actors| ==>
          var pc := t.actors[|s.actors|].pc; !Critical(pc) && pc != Do(Relock))
    && match step
       case Spawn(_) => t.lock == s.lock
       case _ =>
         && step.a < |s.actors|
         && t.actors[step.a].pc != Do(Relock)
         && (step.Acquire? || step.Release? || t.lock == s.lock)
         && (step.Acquire? ==> s.lock == None && t.lock == Some(step.a))
         && (step.Release? ==> t.lock == None)
         && (Critical(s.actors[step.a].pc) <==> step.Act? || step.Release?)
         && (Critical(t.actors[step.a].pc) <==> step.Act? || step.Acquire?)
  }

  /** How many more steps of its own an actor stays in its critical section, at most. */
  function Remaining(pc: Pc): nat {
    match pc
    case Hold(Push(_)) => 3
    case Hold(Check) => 3
    case Hold(_) => 2
    case Leave(_) => 1
    case _ => 0
  }

  lemma ActIsMutexStep(cfg: Config, s: State, a: nat, ok: bool)
    requires Enabled(cfg, s, Act(a, ok))
    ensures MutexStep(s, ActStep(cfg, s, a, ok), Act(a, ok))
    ensures 1 <= Remaining(ActStep(cfg, s, a, ok).actors[a].pc) < Remaining(s.actors[a].pc)
  {
    hide Lists.Relist, Buffer.PushSpec;
    match s.actors[a].pc.body
    case Push(_) =>
    case Peek =>
    case Check =>
    case List(_) =>
    case Unshift(_) =>
  }

  lemma StartIsMutexStep(cfg: Config, s: State, step: Step)
    requires Enabled(cfg, s, step)
    requires step.Spawn? || step.Begin? || step.NoEntry? || step.Timer? || step.Quit?
    ensures MutexStep(s, Next(cfg, s, step), step)
  {
    hide InsertStep, PostStep, CompleteStep, Database.InitSpec, ActStep;
    match step
    case Spawn(_) =>
    case Begin(_, _, _) =>
    case NoEntry(_) =>
    case Timer(_, _) =>
    case Quit(_) =>
  }

  lemma LaterIsMutexStep(cfg: Config, s: State, step: Step)
    requires Enabled(cfg, s, step)
    requires step.Acquire? || step.Release? || step.Insert? || step.PostTask? || step.Complete? || step.Share?
    ensures MutexStep(s, Next(cfg, s, step), step)
  {
    hide Database.InsertListSpec, SpawnStep, QuitStep, ActStep, Lists.Entries;
    match step
    case Acquire(_) =>
    case Release(_) =>
    case Insert(_, _) =>
    case PostTask(_, _) =>
    case Complete(_, _) =>
    case Share(_, _) =>
  }

  lemma {:induction false} EveryStepIsMutexStep(cfg: Config, s: State, step: Step)
    requires Enabled(cfg, s, step)
    ensures MutexStep(s, Next(cfg, s, step), step)
  {
    hide MutexStep, ActStep, Database.InitSpec, Database.InsertListSpec;
    match step
    case Act(a, ok) => ActIsMutexStep(cfg, s, a, ok);
    case Acquire(_) => LaterIsMutexStep(cfg, s, step);
    case Release(_) => LaterIsMutexStep(cfg, s, step);
    case Insert(_, _) => LaterIsMutexStep(cfg, s, step);
    case PostTask(_, _) => LaterIsMutexStep(cfg, s, step);
    case Complete(_, _) => LaterIsMutexStep(cfg, s, step);
    case Share(_, _) => LaterIsMutexStep(cfg, s, step);
    case _ => StartIsMutexStep(cfg, s, step);
  }

  lemma MutexStepKeepsExclusion(s: State, t: State, step: Step)
    requires Exclusive(s) && MutexStep(s, t, step)
    ensures Exclusive(t)
  {
    forall i: nat | i < |t.actors|
      ensures Critical(t.actors[i].pc) <==> t.lock == Some(i)
    {
      if i < |s.actors| {
        assert Critical(s.actors[i].pc) <==> s.lock == Some(i);
      }
    }
  }

  /** In every reachable state at most one actor is in a critical section. */
  lemma {:induction false} MutualExclusion(cfg: Config, states: seq<State>, steps: seq<Step>)
    requires Run(cfg, states, steps)
    ensures Exclusive(Last(states))
    ensures forall i: nat, j: nat | i < j < |Last(states).actors| ::
              !(Critical(Last(states).actors[i].pc) && Critical(Last(states).actors[j].pc))
    decreases |steps|
  {
    if steps != [] {
      var k := |steps| - 1;
      RunPrefix(cfg, states, steps);
      MutualExclusion(cfg, states[..|steps|], steps[..k]);
      EveryStepIsMutexStep(cfg, states[k], steps[k]);
      MutexStepKeepsExclusion(states[k], Last(states), steps[k]);
    }
  }

  /** The steps in which a worker or task calls SQLite. */
  predicate CallsSqlite(step: Step, a: nat) {
    match step
    case Insert(b, _) => a == b
    case Complete(b, _) => a == b
    case _ => false
  }

  /** Nobody calls SQLite while holding the mutex. */
  lemma NoSqliteUnderTheMutex(cfg: Config, states: seq<State>, steps: seq<Step>, i: nat, a: nat)
    requires Run(cfg, states, steps) && i < |steps| && CallsSqlite(steps[i], a)
    ensures a < |states[i].actors| && states[i].lock != Some(a)
  {
    assert Enabled(cfg, states[i], steps[i]);
    assert Run(cfg, states[..i + 1], steps[..i]);
    MutualExclusion(cfg, states[..i + 1], steps[..i]);
    assert Exclusive(states[i]);
  }

  /**
   * The holder always has a step to take. Each of its steps brings it closer to the release, of
   * which it is at most three away, and nobody else can release the mutex or touch the queue.
   */
  lemma CriticalSectionsEnd(cfg: Config, s: State, step: Step, a: nat)
    requires Exclusive(s) && s.lock == Some(a) && Enabled(cfg, s, step)
    ensures Enabled(cfg, s, Act(a, true)) || Enabled(cfg, s, Release(a))
    ensures var t := Next(cfg, s, step);
            && a < |t.actors|
            && (Moves(step, a) ==>
                  && Remaining(t.actors[a].pc) < Remaining(s.actors[a].pc) <= 3
                  && (t.lock == None <==> Remaining(t.actors[a].pc) == 0))
            && (!Moves(step, a) ==>
                  t.lock == s.lock && t.actors[a] == s.actors[a] && t.queue == s.queue)
  {
    hide ActStep, Database.InsertListSpec, Database.InitSpec;
    EveryStepIsMutexStep(cfg, s, step);
    assert Critical(s.actors[a].pc);
    match step
    case Act(b, ok) =>
      assert Critical(s.actors[b].pc);
      ActIsMutexStep(cfg, s, b, ok);
    case Release(b) => assert Critical(s.actors[b].pc);
    case _ =>
  }

  /** How many of the steps from `i` to before `j` are steps of `a`. */
  function OwnSteps(steps: seq<Step>, i: nat, j: nat, a: nat): nat
    requires i <= j <= |steps|
  {
    if i == j then 0 else OwnSteps(steps, i, j - 1, a) + if Moves(steps[j - 1], a) then 1 else 0
  }

  /** The mutex is not free after any of the steps from `i` to before `j`. */
  ghost predicate LockedFrom(states: seq<State>, i: nat, j: nat)
    requires i <= j < |states|
  {
    forall k | i < k <= j :: states[k].lock != None
  }

  /** A step while `a` holds the mutex: only `a` can release it, and every own step brings it closer. */
  lemma StepUnderMutex(cfg: Config, s: State, step: Step, a: nat)
    requires Exclusive(s) && s.lock == Some(a) && Enabled(cfg, s, step)
    ensures var t := Next(cfg, s, step);
            && a < |s.actors| && a < |t.actors|
            && (t.lock == None <==> step == Release(a)) && (t.lock != None ==> t.lock == Some(a))
            && (step.Release? ==> step == Release(a))
            && (Moves(step, a) ==> Remaining(t.actors[a].pc) < Remaining(s.actors[a].pc))
            && (!Moves(step, a) ==> t.queue == s.queue && t.actors[a] == s.actors[a])
            && (t.lock != None ==> 1 <= Remaining(t.actors[a].pc))
  {
    CriticalSectionsEnd(cfg, s, step, a);
    EveryStepIsMutexStep(cfg, s, step);
    hide Next;
    MutexStepKeepsExclusion(s, Next(cfg, s, step), step);
    assert step.Act? || step.Release? ==> Critical(s.actors[step.a].pc);
    assert step.Acquire? ==> s.lock == None;
    var t := Next(cfg, s, step);
    assert t.lock == Some(a) ==> Critical(t.actors[a].pc);
  }

  /** Taking the mutex. */
  lemma StepIntoMutex(cfg: Config, s: State, a: nat)
    requires Enabled(cfg, s, Acquire(a))
    ensures var t := Next(cfg, s, Acquire(a));
            t.lock == Some(a) && a < |t.actors| && 1 <= Remaining(t.actors[a].pc) <= 3
  {
    hide InsertStep, SpawnStep, PostStep, CompleteStep, QuitStep, ActStep;
  }

  lemma RunAt(cfg: Config, states: seq<State>, steps: seq<Step>, k: nat)
    requires Run(cfg, states, steps) && k < |steps|
    ensures Enabled(cfg, states[k], steps[k]) && states[k + 1] == Next(cfg, states[k], steps[k])
    ensures Exclusive(states[k])
  {
    hide Next, Enabled, Exclusive;
    assert Run(cfg, states[..k + 1], steps[..k]);
    MutualExclusion(cfg, states[..k + 1], steps[..k]);
  }

  /**
   * Over any stretch of a run that begins with taking the mutex and in which it does not become
   * free, it stays with the same holder, whose steps are counted down; nobody releases it, and
   * whoever else takes steps leaves the queue alone.
   */
  lemma {:induction false} HeldThroughout(cfg: Config, states: seq<State>, steps: seq<Step>, i: nat, j: nat, a: nat)
    requires Run(cfg, states, steps) && i < j <= |steps| && steps[i] == Acquire(a) && LockedFrom(states, i, j)
    ensures states[j].lock == Some(a) && a < |states[j].actors|
    ensures 1 <= Remaining(states[j].actors[a].pc)
    ensures OwnSteps(steps, i + 1, j, a) + Remaining(states[j].actors[a].pc) <= 3
    ensures forall k | i < k < j :: !steps[k].Release?
    ensures forall k | i < k < j && !Moves(steps[k], a) :: states[k + 1].queue == states[k].queue
    decreases j
  {
    hide Next, Enabled, Exclusive, Remaining;
    var k := j - 1;
    RunAt(cfg, states, steps, k);
    assert states[j].lock != None;
    if k > i {
      HeldThroughout(cfg, states, steps, i, k, a);
      StepUnderMutex(cfg, states[k], steps[k], a);
    } else {
      StepIntoMutex(cfg, states[k], a);
    }
  }

  /**
   * Every critical section of a run that ends, ends with the release by its holder, which is the
   * only release since the mutex was taken; the holder takes at most three steps in between,
   * counting the release.
   */
  lemma OneReleasePerAcquire(cfg: Config, states: seq<State>, steps: seq<Step>, i: nat, j: nat, a: nat)
    requires Run(cfg, states, steps) && i < j < |steps| && steps[i] == Acquire(a)
    requires LockedFrom(states, i, j) && states[j + 1].lock == None
    ensures steps[j] == Release(a)
    ensures forall k | i < k < j :: !steps[k].Release?
    ensures OwnSteps(steps, i + 1, j + 1, a) <= 3
    ensures forall k | i < k <= j && !Moves(steps[k], a) :: states[k + 1].queue == states[k].queue
  {
    hide Next, Enabled, Exclusive, Remaining;
    HeldThroughout(cfg, states, steps, i, j, a);
    RunAt(cfg, states, steps, j);
    StepUnderMutex(cfg, states[j], steps[j], a);
  }

  /** The step an actor takes when nobody is in its way. */
  function OwnStep(s: State, a: nat): Step
    requires a < |s.actors|
  {
    match s.actors[a].pc
    case Want(_) => Acquire(a)
    case Hold(_) => Act(a, true)
    case Leave(_) => Release(a)
    case Do(Commit(_, _)) => Insert(a, (i: nat) => Sqlite.Works)
    case Do(Post(_)) => PostTask(a, true)
    case Do(PostFlush) => PostTask(a, true)
    case Do(_) => Complete(a, true)
    case _ => Quit(a)
  }

  /**
   * No deadlock: in every reachable state every actor that is not gone can take a step, or waits
   * for the mutex while its holder can take one.
   */
  lemma NobodyIsStuck(cfg: Config, states: seq<State>, steps: seq<Step>, a: nat)
    requires Run(cfg, states, steps)
    requires a < |Last(states).actors| && !Last(states).actors[a].pc.Gone?
    ensures var s := Last(states);
            || Enabled(cfg, s, OwnStep(s, a))
            || (&& s.actors[a].pc.Want? && s.lock.Some? && s.lock.value < |s.actors|
                && Enabled(cfg, s, OwnStep(s, s.lock.value)))
  {
    MutualExclusion(cfg, states, steps);
    var s := Last(states);
    if s.lock.Some? {
      assert Critical(s.actors[s.lock.value].pc);
    }
  }
}
