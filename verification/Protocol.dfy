/**
 * The shared buffer under concurrency, as a transition system. Any number of workers and posted
 * tasks take turns, one step at a time. Whoever holds the mutex may work on the queue; everything
 * else an actor does is private to it, except that a commit adds to the database.
 *
 * A step label resolves all nondeterminism of the step: who moves, whether memory suffices, and
 * how SQLite answers.
 */
module Protocol {
  import opened Values
  import opened Sqlite
  import Buffer
  import Database
  import Lists

  /** The arity of the log format, the buffer's maximum (0 for none), and the init script. */
  datatype Config = Config(n: nat, max: nat, script: bool)

  /** What an actor is busy with. A posted task is an actor of its own. */
  datatype Job =
    | Resting | Request | AsyncRequest | Flush | AsyncFlush | Exit
    | InsertTask | FlushTask

  /** Work on the queue, for which the mutex is held. */
  datatype Body =
    | Push(entry: Row)
    | Peek                         // the flush timer's first look at the length
    | Check                        // the length is checked again before listing
    | List(pend: Option<Row>)      // `pend` is an entry that overflowed the buffer
    | Unshift(entry: Row)

  /** What an actor does once the mutex is free again. */
  datatype Then =
    | Finish(ok: bool)
    | Relock
    | Post(pend: Option<Row>)      // hand listing and inserting to a task
    | PostFlush                    // hand the flush to a task
    | Commit(batch: seq<Row>, pend: Option<Row>)

  datatype Pc =
    | Idle
    | Want(body: Body)             // waiting for the mutex
    | Hold(body: Body)             // holding the mutex, about to run the body
    | Leave(next: Then)            // holding the mutex, about to release it
    | Do(next: Then)
    | Gone

  datatype Actor = Actor(job: Job, pc: Pc, enabled: bool, timer: bool, conn: Conn)

  /**
   * `arrived` lists every entry handed to a handler, `pushed` every push attempt in mutex order,
   * `dropped` the entries given up by a failure.
   */
  datatype State = State(
    queue: seq<Row>, lock: Option<nat>, actors: seq<Actor>, committed: seq<Row>,
    arrived: seq<Row>, pushed: seq<Row>, dropped: seq<Row>)

  datatype Step =
    | Spawn(o: Oracle)                              // a worker starts, also after a reload
    | Begin(a: nat, entry: Row, async: bool)        // a request with its log entry
    | NoEntry(a: nat)                               // a request whose log entry could not be built
    | Timer(a: nat, async: bool)
    | Quit(a: nat)
    | Acquire(a: nat)
    | Act(a: nat, ok: bool)                         // runs the body; `ok`: memory suffices
    | Release(a: nat)
    | Insert(a: nat, o: Oracle)
    | PostTask(a: nat, ok: bool)
    | Complete(a: nat, closes: bool)                // the end of a handler; `closes`: closing works
    | Share(a: nat, conn: Conn)                     // a connection is found changed by its other user

  const START := State([], None, [], [], [], [], [])

  /** When a step can be taken. */
  predicate Enabled(cfg: Config, s: State, step: Step) {
    match step
    case Spawn(_) => true
    case Begin(a, entry, _) =>
      a < |s.actors| && s.actors[a].pc.Idle? && s.actors[a].enabled && |entry| == cfg.n
    case NoEntry(a) => a < |s.actors| && s.actors[a].pc.Idle? && s.actors[a].enabled
    case Timer(a, _) => a < |s.actors| && s.actors[a].pc.Idle? && s.actors[a].timer
    case Quit(a) => a < |s.actors| && s.actors[a].pc.Idle?
    case Acquire(a) => a < |s.actors| && s.actors[a].pc.Want? && s.lock == None
    case Act(a, _) => a < |s.actors| && s.actors[a].pc.Hold?
    case Release(a) => a < |s.actors| && s.actors[a].pc.Leave?
    case Insert(a, _) => a < |s.actors| && s.actors[a].pc.Do? && s.actors[a].pc.next.Commit?
    case PostTask(a, _) =>
      && a < |s.actors| && s.actors[a].pc.Do?
      && (s.actors[a].pc.next.Post? || s.actors[a].pc.next.PostFlush?)
    case Complete(a, _) => a < |s.actors| && s.actors[a].pc.Do? && s.actors[a].pc.next.Finish?
    case Share(a, _) =>
      && a < |s.actors|
      && (s.actors[a].pc.Idle? || (s.actors[a].job == FlushTask && s.actors[a].pc.Do? && s.actors[a].pc.next.Commit?))
  }

  function Goto(s: State, a: nat, pc: Pc): State
    requires a < |s.actors|
  {
    s.(actors := s.actors[a := s.actors[a].(pc := pc)])
  }

  function Pending(pend: Option<Row>): seq<Row> {
    match pend
    case None => []
    case Some(e) => [e]
  }

  /** A worker process starts: it connects, and is disabled if that fails. */
  function SpawnStep(cfg: Config, s: State, o: Oracle): State {
    var init := Database.InitSpec(o, Session(Null, s.committed, 0, None), cfg.script);
    var up := init.rc == OK;
    s.(actors := s.actors + [Actor(Resting, Idle, up, up, init.s.conn)], committed := init.s.committed)
  }

  function BeginStep(s: State, a: nat, entry: Row, async: bool): State
    requires a < |s.actors|
  {
    var actor := s.actors[a].(job := if async then AsyncRequest else Request, pc := Want(Push(entry)));
    s.(actors := s.actors[a := actor], arrived := s.arrived + [entry])
  }

  function StartJob(s: State, a: nat, job: Job, pc: Pc): State
    requires a < |s.actors|
  {
    s.(actors := s.actors[a := s.actors[a].(job := job, pc := pc)])
  }

  /** A worker leaves; it drains the buffer only if it is enabled and still connected. */
  function QuitStep(s: State, a: nat): State
    requires a < |s.actors|
  {
    if s.actors[a].enabled && !s.actors[a].conn.Null? then StartJob(s, a, Exit, Want(Check))
    else StartJob(s, a, Exit, Gone)
  }

  function PushStep(cfg: Config, s: State, a: nat, entry: Row, fits: bool): State
    requires a < |s.actors|
  {
    var (rows, rc) := Buffer.PushSpec(cfg.max, s.queue, entry, fits);
    var pend := if rc == Buffer.Overflow then Some(entry) else None;
    var pc :=
      if rc == Buffer.Accepted then Leave(Finish(true))
      else if s.actors[a].job == AsyncRequest then Leave(Post(pend))
      else Hold(List(pend));
    Goto(s.(queue := rows, pushed := s.pushed + [entry]), a, pc)
  }

  function PeekStep(s: State, a: nat): State
    requires a < |s.actors|
  {
    Goto(s, a, Leave(
      if s.queue == [] then Finish(true)
      else if s.actors[a].job == AsyncFlush then PostFlush
      else Relock))
  }

  function CheckStep(s: State, a: nat): State
    requires a < |s.actors|
  {
    if s.queue != [] then Goto(s, a, Hold(List(None)))
    else Goto(s, a, Leave(Finish(true)))
  }

  function ListStep(cfg: Config, s: State, a: nat, pend: Option<Row>, ok: bool): State
    requires a < |s.actors|
  {
    if ok then Goto(s.(queue := []), a, Leave(Commit(Lists.Relist(cfg.n, s.queue), pend)))
    else Goto(s.(dropped := s.dropped + Pending(pend)), a, Leave(Finish(false)))
  }

  function UnshiftStep(s: State, a: nat, entry: Row, ok: bool): State
    requires a < |s.actors|
  {
    if ok then Goto(s.(queue := [entry] + s.queue), a, Leave(Finish(true)))
    else Goto(s.(dropped := s.dropped + [entry]), a, Leave(Finish(false)))
  }

  function ActStep(cfg: Config, s: State, a: nat, ok: bool): State
    requires a < |s.actors| && s.actors[a].pc.Hold?
  {
    match s.actors[a].pc.body
    case Push(entry) => PushStep(cfg, s, a, entry, ok)
    case Peek => PeekStep(s, a)
    case Check => CheckStep(s, a)
    case List(pend) => ListStep(cfg, s, a, pend, ok)
    case Unshift(entry) => UnshiftStep(s, a, entry, ok)
  }

  function ReleaseStep(s: State, a: nat): State
    requires a < |s.actors| && s.actors[a].pc.Leave?
  {
    var next := s.actors[a].pc.next;
    Goto(s, a, if next == Relock then Want(Check) else Do(next)).(lock := None)
  }

  /** Writes the batch; an overflowed entry then goes back to the front of the queue. */
  function InsertStep(cfg: Config, s: State, a: nat, o: Oracle): State
    requires a < |s.actors| && s.actors[a].pc.Do? && s.actors[a].pc.next.Commit?
  {
    var actor, commit := s.actors[a], s.actors[a].pc.next;
    var reply := Database.InsertListSpec(o, Session(actor.conn, s.committed, 0, None), cfg.script, commit.batch);
    var ok := reply.rc == OK;
    var pc :=
      if ok && commit.pend.Some? then Want(Unshift(commit.pend.value)) else Do(Finish(ok));
    s.(actors := s.actors[a := actor.(pc := pc, conn := reply.s.conn)],
       committed := reply.s.committed,
       dropped := s.dropped + if ok then [] else Lists.Entries(commit.batch) + Pending(commit.pend))
  }

  /** Hands the work to a thread pool, with the connection as it is now. */
  function PostStep(s: State, a: nat, ok: bool): State
    requires a < |s.actors| && s.actors[a].pc.Do? && (s.actors[a].pc.next.Post? || s.actors[a].pc.next.PostFlush?)
  {
    var actor := s.actors[a];
    var pend := if actor.pc.next.Post? then actor.pc.next.pend else None;
    if !ok then Goto(s.(dropped := s.dropped + Pending(pend)), a, Do(Finish(false)))
    else
      var task :=
        if actor.pc.next.Post? then Actor(InsertTask, Want(List(pend)), true, false, actor.conn)
        else Actor(FlushTask, Want(Check), true, false, actor.conn);
      var posted := Goto(s, a, Do(Finish(true)));
      posted.(actors := posted.actors + [task])
  }

  /** A failed request disables its worker; leaving workers and tasks are gone. */
  function CompleteStep(s: State, a: nat, closes: bool): State
    requires a < |s.actors| && s.actors[a].pc.Do? && s.actors[a].pc.next.Finish?
  {
    var actor := s.actors[a];
    var failed := (actor.job == Request || actor.job == AsyncRequest) && !actor.pc.next.ok;
    var gone := actor.job == Exit || actor.job == InsertTask || actor.job == FlushTask;
    var conn := if closes && (failed || actor.job == Exit) then Null else actor.conn;
    s.(actors := s.actors[a := Actor(if gone then actor.job else Resting, if gone then Gone else Idle,
                                     actor.enabled && !failed, actor.timer, conn)])
  }

  /** A worker and its flush tasks use one connection, so each may find it closed or replaced. */
  function ShareStep(s: State, a: nat, conn: Conn): State
    requires a < |s.actors|
  {
    s.(actors := s.actors[a := s.actors[a].(conn := conn)])
  }

  function Next(cfg: Config, s: State, step: Step): State
    requires Enabled(cfg, s, step)
  {
    match step
    case Spawn(o) => SpawnStep(cfg, s, o)
    case Begin(a, entry, async) => BeginStep(s, a, entry, async)
    case NoEntry(a) => StartJob(s, a, Request, Do(Finish(false)))
    case Timer(a, async) => StartJob(s, a, if async then AsyncFlush else Flush, Want(Peek))
    case Quit(a) => QuitStep(s, a)
    case Acquire(a) => Goto(s, a, Hold(s.actors[a].pc.body)).(lock := Some(a))
    case Act(a, ok) => ActStep(cfg, s, a, ok)
    case Release(a) => ReleaseStep(s, a)
    case Insert(a, o) => InsertStep(cfg, s, a, o)
    case PostTask(a, ok) => PostStep(s, a, ok)
    case Complete(a, closes) => CompleteStep(s, a, closes)
    case Share(a, conn) => ShareStep(s, a, conn)
  }

  /** A run from the start: the states it passes through, one more than the steps it takes. */
  ghost predicate Run(cfg: Config, states: seq<State>, steps: seq<Step>) {
    && |states| == |steps| + 1
    && states[0] == START
    && forall i | 0 <= i < |steps| ::
         Enabled(cfg, states[i], steps[i]) && states[i + 1] == Next(cfg, states[i], steps[i])
  }

  function Last(states: seq<State>): State
    requires states != []
  {
    states[|states| - 1]
  }

  lemma RunPrefix(cfg: Config, states: seq<State>, steps: seq<Step>)
    requires Run(cfg, states, steps) && steps != []
    ensures Run(cfg, states[..|steps|], steps[..|steps| - 1])
    ensures var before := Last(states[..|steps|]);
            && Enabled(cfg, before, steps[|steps| - 1])
            && Last(states) == Next(cfg, before, steps[|steps| - 1])
  {
    var k := |steps| - 1;
    assert states[k + 1] == Next(cfg, states[k], steps[k]);
  }

  lemma RunExtends(cfg: Config, states: seq<State>, steps: seq<Step>, step: Step, t: State)
    requires Run(cfg, states, steps) && Enabled(cfg, Last(states), step) && t == Next(cfg, Last(states), step)
    ensures Run(cfg, states + [t], steps + [step])
  {
    hide Enabled, Next;
    var moreStates, moreSteps := states + [t], steps + [step];
    forall i | 0 <= i < |moreSteps|
      ensures Enabled(cfg, moreStates[i], moreSteps[i])
           && moreStates[i + 1] == Next(cfg, moreStates[i], moreSteps[i])
    {
      if i < |steps| {
        assert Enabled(cfg, states[i], steps[i]) && states[i + 1] == Next(cfg, states[i], steps[i]);
        assert moreStates[i] == states[i] && moreStates[i + 1] == states[i + 1];
      }
    }
  }
}
