/** The effect of protocol steps on the rows in flight. */
module Effects {
  import opened Values
  import opened Protocol
  import Lists

  /** The entries an actor has in its hands, neither queued nor committed. */
  function HeldBody(body: Body): seq<Row> {
    match body
    case Push(entry) => [entry]
    case List(pend) => Pending(pend)
    case Unshift(entry) => [entry]
    case _ => []
  }

  function HeldNext(next: Then): seq<Row> {
    match next
    case Post(pend) => Pending(pend)
    case Commit(batch, pend) => Lists.Entries(batch) + Pending(pend)
    case _ => []
  }

  function Held(pc: Pc): seq<Row> {
    match pc
    case Want(body) => HeldBody(body)
    case Hold(body) => HeldBody(body)
    case Leave(next) => HeldNext(next)
    case Do(next) => HeldNext(next)
    case _ => []
  }

  /** A step in which no entry changes hands. */
  ghost predicate Quiet(s: State, t: State, a: nat) {
    && a < |s.actors|
    && |t.actors| == |s.actors|
    && t.actors == s.actors[a := t.actors[a]]
    && Held(t.actors[a].pc) == Held(s.actors[a].pc)
    && t.queue == s.queue && t.committed == s.committed
    && t.arrived == s.arrived && t.pushed == s.pushed && t.dropped == s.dropped
  }

  predicate IsQuiet(s: State, step: Step)
    requires !step.Spawn? ==> step.a < |s.actors|
  {
    match step
    case Spawn(_) => false
    case Begin(_, _, _) => false
    case Insert(_, _) => false
    case PostTask(_, _) => false
    case Act(a, _) => s.actors[a].pc == Hold(Peek) || s.actors[a].pc == Hold(Check)
    case _ => true
  }

  lemma QuietStart(cfg: Config, s: State, step: Step)
    requires Enabled(cfg, s, step) && (step.NoEntry? || step.Timer? || step.Quit? || step.Complete? || step.Share?)
    ensures Quiet(s, Next(cfg, s, step), step.a)
  {
    hide InsertStep, SpawnStep, PostStep, ActStep;
    match step
    case NoEntry(a) =>
    case Timer(a, _) =>
    case Quit(a) =>
    case Complete(a, _) =>
    case Share(a, _) =>
  }

  lemma QuietMutex(cfg: Config, s: State, step: Step)
    requires Enabled(cfg, s, step) && IsQuiet(s, step) && (step.Acquire? || step.Act? || step.Release?)
    ensures Quiet(s, Next(cfg, s, step), step.a)
  {
    hide InsertStep, SpawnStep, PostStep, CompleteStep, QuitStep, PushStep, ListStep, UnshiftStep;
    match step
    case Acquire(a) =>
    case Release(a) =>
    case Act(a, _) =>
  }

  lemma QuietSteps(cfg: Config, s: State, step: Step)
    requires Enabled(cfg, s, step) && IsQuiet(s, step)
    ensures Quiet(s, Next(cfg, s, step), step.a)
  {
    if step.Acquire? || step.Act? || step.Release? {
      hide *;
      QuietMutex(cfg, s, step);
    } else {
      assert step.NoEntry? || step.Timer? || step.Quit? || step.Complete? || step.Share?;
      hide *;
      QuietStart(cfg, s, step);
    }
  }

  /** How many workers and tasks have not ended yet. */
  function Live(actors: seq<Actor>): nat {
    if actors == [] then 0 else (if actors[0].pc == Gone then 0 else 1) + Live(actors[1..])
  }

  /** All actors but one. */
  function Others(actors: seq<Actor>, a: nat): seq<Actor>
    requires a < |actors|
  {
    actors[..a] + actors[a + 1..]
  }

  lemma {:induction false} LiveOthers(actors: seq<Actor>, a: nat)
    requires a < |actors|
    ensures Live(actors) == Live(Others(actors, a)) + if actors[a].pc == Gone then 0 else 1
  {
    if a == 0 {
      assert Others(actors, a) == actors[1..];
    } else {
      LiveOthers(actors[1..], a - 1);
      assert Others(actors, a) == [actors[0]] + Others(actors[1..], a - 1);
    }
  }

  lemma TwoLive(actors: seq<Actor>, i: nat, j: nat)
    requires i < j < |actors| && actors[i].pc != Gone && actors[j].pc != Gone
    ensures 2 <= Live(actors)
  {
    LiveOthers(actors, j);
    assert Others(actors, j)[i] == actors[i];
    LiveOthers(Others(actors, j), i);
  }
}
