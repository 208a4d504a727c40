/** Runs that show where the hypotheses of the theorems are needed. */
module Scenarios {
  import opened Values
  import opened Protocol
  import opened Reachability
  import opened Sqlite
  import Buffer
  import Database
  import Lists
  import Order
  import Shutdown
  import Synchronous
  import Uninterrupted

  const UP: Actor := Actor(Resting, Idle, true, true, Open(None))

  function Busy(actor: Actor, job: Job, pc: Pc): Actor {
    actor.(job := job, pc := pc)
  }

  lemma WorkingSpawn(cfg: Config, s: State)
    ensures SpawnStep(cfg, s, Database.OBLIGING) == s.(actors := s.actors + [UP])
  {
  }

  lemma WorkerStarts(cfg: Config, s: State, sync: bool, calm: bool, t: State)
    requires Reachable(cfg, s, sync, calm) && t == s.(actors := s.actors + [UP])
    requires calm ==> Order.OneInFlight(t)
    ensures Reachable(cfg, t, sync, calm)
  {
    hide SpawnStep, Reachable, Order.OneInFlight;
    WorkingSpawn(cfg, s);
    Go(cfg, s, Spawn(Database.OBLIGING), SpawnStep(cfg, s, Database.OBLIGING), sync, calm);
  }

  lemma IdleDoNotFly(s: State)
    requires forall a | 0 <= a < |s.actors| :: s.actors[a].pc == Idle
    ensures Order.OneInFlight(s)
  {
  }

  /** One or two workers have started. */
  lemma WorkersStart(cfg: Config, sync: bool, calm: bool)
    requires sync || calm
    ensures Reachable(cfg, START.(actors := [UP]), sync, calm)
    ensures Reachable(cfg, START.(actors := [UP, UP]), sync, calm)
  {
    hide Reachable, Order.OneInFlight;
    StartIsReachable(cfg);
    IdleDoNotFly(START.(actors := [UP]));
    IdleDoNotFly(START.(actors := [UP, UP]));
    WorkerStarts(cfg, START, sync, calm, START.(actors := [UP]));
    WorkerStarts(cfg, START.(actors := [UP]), sync, calm, START.(actors := [UP, UP]));
  }

  lemma WorkingInsert(cfg: Config, s: State, a: nat)
    requires a < |s.actors| && s.actors[a].pc.Do? && s.actors[a].pc.next.Commit? && s.actors[a].conn == Open(None)
    ensures var commit := s.actors[a].pc.next;
            var pc := if commit.pend.Some? then Want(Unshift(commit.pend.value)) else Do(Finish(true));
            InsertStep(cfg, s, a, Database.OBLIGING) == Goto(s, a, pc).(committed := s.committed + commit.batch)
  {
    hide Database.InsertListSpec;
    var batch, session := s.actors[a].pc.next.batch, Session(Open(None), s.committed, 0, None);
    Database.WorkingSqliteWritesIffFit(Database.OBLIGING, session, cfg.script, batch);
    assert s.dropped + [] == s.dropped;
  }

  const ONE: Row := [Some([1])]
  const TWO: Row := [Some([2])]

  /** Nobody but `a` is draining, if that matters. */
  ghost predicate Alone(s: State, a: nat, calm: bool) {
    calm ==> forall i: nat | i < |s.actors| && i != a :: !Order.Flying(s.actors[i].pc)
  }

  /** A push gets the mutex. */
  lemma PushBegins(cfg: Config, s: State, a: nat, e: Row, async: bool, sync: bool, calm: bool, t: State)
    requires |e| == cfg.n && Reachable(cfg, s, sync, calm) && (sync ==> !async) && Alone(s, a, calm)
    requires s.lock == None && Rests(s, a)
    requires t == s.(arrived := s.arrived + [e], lock := Some(a),
                     actors := s.actors[a := Busy(s.actors[a], if async then AsyncRequest else Request, Hold(Push(e)))])
    ensures Reachable(cfg, t, sync, calm)
  {
    hide Reachable;
    var s1 := BeginStep(s, a, e, async);
    Go(cfg, s, Begin(a, e, async), BeginStep(s, a, e, async), sync, calm);
    Go(cfg, s1, Acquire(a), Goto(s1, a, Hold(Push(e))).(lock := Some(a)), sync, calm);
    assert Goto(s1, a, Hold(Push(e))).(lock := Some(a)) == t;
  }

  /** With a maximum of one, a push drains at once; here until the drained entry is in hand. */
  lemma PushAndDrain(cfg: Config, s: State, a: nat, e: Row, t: State)
    requires cfg.n == 1 == cfg.max && |e| == 1
    requires Reachable(cfg, s, true, false) && s.queue == [] && s.lock == None && a < |s.actors| && s.actors[a] == UP
    requires t == s.(arrived := s.arrived + [e], pushed := s.pushed + [e],
                     actors := s.actors[a := Busy(UP, Request, Do(Commit([e], None)))])
    ensures Reachable(cfg, t, true, false)
  {
    hide Reachable, Order.OneInFlight, ActStep, ReleaseStep;
    var s2 := s.(arrived := s.arrived + [e], lock := Some(a),
                 actors := s.actors[a := Busy(UP, Request, Hold(Push(e)))]);
    PushBegins(cfg, s, a, e, false, true, false, s2);
    Go(cfg, s2, Act(a, true), ActStep(cfg, s2, a, true), true, false);
    PushReachesMax(cfg, s2, a, e);
    var s3 := Goto(s2, a, Hold(List(None))).(queue := [e], pushed := s.pushed + [e]);
    Go(cfg, s3, Act(a, true), ActStep(cfg, s3, a, true), true, false);
    ListsOne(cfg, s3, a, e, None);
    var s4 := Goto(s3, a, Leave(Commit([e], None))).(queue := []);
    Go(cfg, s4, Release(a), ReleaseStep(s4, a), true, false);
    LeavesWith(s4, a, Commit([e], None));
    assert Goto(s4, a, Do(Commit([e], None))).(lock := None) == t;
  }

  lemma PushReachesMax(cfg: Config, s: State, a: nat, e: Row)
    requires cfg.max == 1 && s.queue == [] && a < |s.actors|
    requires s.actors[a].pc == Hold(Push(e)) && s.actors[a].job == Request
    ensures ActStep(cfg, s, a, true) == Goto(s, a, Hold(List(None))).(queue := [e], pushed := s.pushed + [e])
  {
  }

  lemma ListsOne(cfg: Config, s: State, a: nat, e: Row, pend: Option<Row>)
    requires cfg.n == 1 == |e| && s.queue == [e] && a < |s.actors|
    requires s.actors[a].pc == Hold(List(pend)) && s.actors[a].job != Exit
    ensures ActStep(cfg, s, a, true) == Goto(s, a, Leave(Commit([e], pend))).(queue := [])
  {
    hide Lists.Relist;
    Lists.RelistArity(1, [e]);
  }

  lemma LeavesWith(s: State, a: nat, next: Then)
    requires a < |s.actors| && s.actors[a].pc == Leave(next) && next != Relock
    ensures ReleaseStep(s, a) == Goto(s, a, Do(next)).(lock := None)
  {
  }

  const DRAINED_1: Actor := Busy(UP, Request, Do(Commit([ONE], None)))
  const DRAINED_2: Actor := Busy(UP, Request, Do(Commit([TWO], None)))
  const WRITTEN: Actor := Busy(UP, Request, Do(Finish(true)))

  lemma BothDrain(cfg: Config)
    requires cfg == Config(1, 1, false)
    ensures var drained := START.(actors := [DRAINED_1, DRAINED_2], arrived := [ONE, TWO], pushed := [ONE, TWO]);
            Reachable(cfg, drained, true, false)
  {
    hide Reachable;
    WorkersStart(cfg, true, false);
    var s1 := START.(actors := [DRAINED_1, UP], arrived := [ONE], pushed := [ONE]);
    PushAndDrain(cfg, START.(actors := [UP, UP]), 0, ONE, s1);
    var s2 := START.(actors := [DRAINED_1, DRAINED_2], arrived := [ONE, TWO], pushed := [ONE, TWO]);
    PushAndDrain(cfg, s1, 1, TWO, s2);
  }

  lemma Writes(cfg: Config, s: State, a: nat, sync: bool, t: State)
    requires a < |s.actors| && s.actors[a].pc.Do? && s.actors[a].pc.next.Commit? && s.actors[a].conn == Open(None)
    requires Reachable(cfg, s, sync, false) && s.actors[a].pc.next.pend == None
    requires t == Goto(s, a, Do(Finish(true))).(committed := s.committed + s.actors[a].pc.next.batch)
    ensures Reachable(cfg, t, sync, false)
  {
    hide InsertStep, Reachable;
    WorkingInsert(cfg, s, a);
    Go(cfg, s, Insert(a, Database.OBLIGING), InsertStep(cfg, s, a, Database.OBLIGING), sync, false);
  }

  /** About to write a drained batch, over a connection in order. */
  predicate Ready(s: State, a: nat) {
    a < |s.actors| && s.actors[a].pc.Do? && s.actors[a].pc.next.Commit? && s.actors[a].conn == Open(None)
  }

  function Batch(s: State, a: nat): seq<Row>
    requires Ready(s, a)
  {
    s.actors[a].pc.next.batch
  }

  lemma ReadyWrites(cfg: Config, s: State, a: nat, b: nat, sync: bool) returns (t: State)
    requires Reachable(cfg, s, sync, false) && Ready(s, a) && a != b
    ensures Reachable(cfg, t, sync, false)
    ensures t.pushed == s.pushed && t.dropped == s.dropped && t.committed == s.committed + Batch(s, a)
    ensures Ready(s, b) ==> Ready(t, b) && Batch(t, b) == Batch(s, b)
  {
    hide Reachable, InsertStep;
    WorkingInsert(cfg, s, a);
    Go(cfg, s, Insert(a, Database.OBLIGING), InsertStep(cfg, s, a, Database.OBLIGING), sync, false);
    t := InsertStep(cfg, s, a, Database.OBLIGING);
  }

  /**
   * Whenever two drains are ready to be written, either may win: both orders are reachable from
   * there, without any failure. So the order theorem needs its hypothesis on drains.
   */
  lemma EitherDrainMayWin(cfg: Config, s: State, a: nat, b: nat, sync: bool)
    requires Reachable(cfg, s, sync, false) && Ready(s, a) && Ready(s, b) && a != b
    ensures exists t ::
              && Reachable(cfg, t, sync, false) && t.pushed == s.pushed && t.dropped == s.dropped
              && t.committed == s.committed + Batch(s, a) + Batch(s, b)
    ensures exists t ::
              && Reachable(cfg, t, sync, false) && t.pushed == s.pushed && t.dropped == s.dropped
              && t.committed == s.committed + Batch(s, b) + Batch(s, a)
  {
    hide Reachable;
    var ta := ReadyWrites(cfg, s, a, b, sync);
    var tab := ReadyWrites(cfg, ta, b, a, sync);
    var tb := ReadyWrites(cfg, s, b, a, sync);
    var tba := ReadyWrites(cfg, tb, a, b, sync);
  }

  /** Two drains under way at once may be committed in either order. */
  lemma DrainsMayOvertake()
    ensures exists cfg, s ::
              && Reachable(cfg, s, true, false)
              && s.pushed == [ONE, TWO] && s.committed == [TWO, ONE] && s.dropped == []
  {
    hide Reachable;
    var cfg := Config(1, 1, false);
    BothDrain(cfg);
    var s2 := START.(actors := [DRAINED_1, DRAINED_2], arrived := [ONE, TWO], pushed := [ONE, TWO]);
    var s3 := s2.(actors := [DRAINED_1, WRITTEN], committed := [TWO]);
    Writes(cfg, s2, 1, true, s3);
    var s4 := s2.(actors := [WRITTEN, WRITTEN], committed := [TWO, ONE]);
    Writes(cfg, s3, 0, true, s4);
  }

  /** A push that fits, from Idle to Idle. */
  lemma PushFits(cfg: Config, s: State, a: nat, e: Row, async: bool, sync: bool, calm: bool, t: State)
    requires cfg.max == 0 && |e| == cfg.n && Reachable(cfg, s, sync, calm) && (sync ==> !async)
    requires Alone(s, a, calm)
    requires s.lock == None && Rests(s, a)
    requires t == s.(arrived := s.arrived + [e], pushed := s.pushed + [e], queue := s.queue + [e])
    ensures Reachable(cfg, t, sync, calm)
  {
    hide Reachable, Order.OneInFlight, SpawnStep, InsertStep, PostStep, QuitStep, ListStep, UnshiftStep;
    var job := if async then AsyncRequest else Request;
    var s2 := s.(arrived := s.arrived + [e], lock := Some(a),
                 actors := s.actors[a := Busy(s.actors[a], job, Hold(Push(e)))]);
    PushBegins(cfg, s, a, e, async, sync, calm, s2);
    var s3 := Goto(s2, a, Leave(Finish(true))).(queue := s.queue + [e], pushed := s.pushed + [e]);
    assert ActStep(cfg, s2, a, true) == s3;
    StaysAlone(s, s3, a, calm);
    Go(cfg, s2, Act(a, true), s3, sync, calm);
    assert s.actors[a := s3.actors[a]] == s3.actors && s3.actors[a := s.actors[a]] == s.actors;
    PushCompletes(cfg, s3, a, s.actors[a], sync, calm, t);
  }

  lemma StaysAlone(s: State, t: State, a: nat, calm: bool)
    requires Alone(s, a, calm) && a < |s.actors| && |t.actors| == |s.actors|
    requires t.actors == s.actors[a := t.actors[a]]
    ensures Alone(t, a, calm) && (calm ==> Order.OneInFlight(t))
  {
  }

  lemma PushCompletes(cfg: Config, s: State, a: nat, x: Actor, sync: bool, calm: bool, t: State)
    requires Reachable(cfg, s, sync, calm) && Alone(s, a, calm) && a < |s.actors|
    requires s.actors[a].pc == Leave(Finish(true)) && s.actors[a].(job := Resting, pc := Idle) == x
    requires s.actors[a].job == Request || s.actors[a].job == AsyncRequest
    requires t == s.(lock := None, actors := s.actors[a := x])
    ensures Reachable(cfg, t, sync, calm)
  {
    hide Reachable, Order.OneInFlight, SpawnStep, InsertStep, PostStep, QuitStep, ActStep;
    var s4 := Goto(s, a, Do(Finish(true))).(lock := None);
    LeavesWith(s, a, Finish(true));
    StaysAlone(s, s4, a, calm);
    Go(cfg, s, Release(a), s4, sync, calm);
    StaysAlone(s, t, a, calm);
    assert CompleteStep(s4, a, true) == t;
    Go(cfg, s4, Complete(a, true), t, sync, calm);
  }

  /** The only worker pushed an entry and was disabled later: its exit leaves the entry behind. */
  lemma DisabledWorkerLeavesEntries()
    ensures exists cfg, s ::
              && Reachable(cfg, s, true, true) && Shutdown.AllGone(s)
              && s.arrived == s.queue == [ONE] && s.committed == s.dropped == []
  {
    hide Reachable;
    var cfg := Config(1, 0, false);
    WorkersStart(cfg, true, true);
    var s0 := START.(actors := [UP]);
    var s1 := s0.(arrived := [ONE], pushed := [ONE], queue := [ONE]);
    PushFits(cfg, s0, 0, ONE, false, true, true, s1);
    Go(cfg, s1, NoEntry(0), StartJob(s1, 0, Request, Do(Finish(false))), true, true);
    var s2 := s1.(actors := [Busy(UP, Request, Do(Finish(false)))]);
    assert StartJob(s1, 0, Request, Do(Finish(false))) == s2;
    Go(cfg, s2, Complete(0, true), CompleteStep(s2, 0, true), true, true);
    var s3 := s1.(actors := [Actor(Resting, Idle, false, true, Null)]);
    assert CompleteStep(s2, 0, true) == s3;
    Go(cfg, s3, Quit(0), QuitStep(s3, 0), true, true);
    var s4 := s1.(actors := [Actor(Exit, Gone, false, true, Null)]);
    assert QuitStep(s3, 0) == s4;
  }

  /** A disabled worker has closed its connection, and its flush timer still runs. */
  const DOWN: Actor := Actor(Resting, Idle, false, true, Null)

  /** Listing the queue and releasing the mutex, for a flush. */
  function FlushListed(cfg: Config, s: State, a: nat): State
    requires a < |s.actors| && s.actors[a].pc == Hold(List(None))
  {
    ListStep(cfg, s, a, None, true)
  }

  function FlushReleased(cfg: Config, s: State, a: nat): State
    requires a < |s.actors| && s.actors[a].pc == Hold(List(None))
  {
    ReleaseStep(FlushListed(cfg, s, a), a)
  }

  /** The same and then the transaction. */
  function Flushed(cfg: Config, s: State, a: nat, o: Oracle): State
    requires a < |s.actors| && s.actors[a].pc == Hold(List(None))
  {
    InsertStep(cfg, FlushReleased(cfg, s, a), a, o)
  }

  lemma FlushedShape(cfg: Config, s: State, a: nat, o: Oracle)
    requires 1 <= cfg.n && Lists.AllOfLength(cfg.n, s.queue)
    requires a < |s.actors| && s.actors[a].pc == Hold(List(None))
    ensures var session := Session(s.actors[a].conn, s.committed, 0, None);
            var reply := Database.InsertListSpec(o, session, cfg.script, Lists.Relist(cfg.n, s.queue));
            var x := s.actors[a].(pc := Do(Finish(reply.rc == OK)), conn := reply.s.conn);
            Flushed(cfg, s, a, o) ==
            s.(queue := [], lock := None, committed := reply.s.committed, actors := s.actors[a := x],
               dropped := s.dropped + if reply.rc == OK then [] else s.queue)
  {
    hide Database.InsertListSpec, Lists.Relist, Lists.Entries, Lists.AllOfLength;
    Lists.RelistEntries(cfg.n, s.queue);
    assert s.queue + Pending(None) == s.queue;
    var t := Flushed(cfg, s, a, o);
    assert t.actors == s.actors[a := t.actors[a]];
  }

  /**
   * While SQLite works, a flush of a queue with entries writes it if and only if the connection is
   * fit for it. Otherwise it drops everything that anybody queued, and leaves the connection as
   * unfit as it was: missing, failed to open, or with a transaction in progress.
   */
  lemma FlushWritesIffFit(cfg: Config, s: State, a: nat, o: Oracle)
    requires 1 <= cfg.n && Lists.AllOfLength(cfg.n, s.queue) && s.queue != []
    requires a < |s.actors| && s.actors[a].pc == Hold(List(None)) && Database.WorksFrom(o, 0)
    ensures var t, conn := Flushed(cfg, s, a, o), s.actors[a].conn;
            && (Database.Fit(conn) <==> t.dropped == s.dropped)
            && (Database.Fit(conn) ==> Lists.Entries(t.committed) == Lists.Entries(s.committed) + s.queue)
            && (Database.Fit(conn) ==> t.actors[a].conn == Open(None))
            && (!Database.Fit(conn) ==> t.dropped == s.dropped + s.queue && t.committed == s.committed)
            && (!Database.Fit(conn) ==> t.actors[a].conn == conn)
  {
    hide Flushed, Database.InsertListSpec, Lists.Relist, Lists.Entries, Lists.AllOfLength, Database.Fit;
    var session, parts := Session(s.actors[a].conn, s.committed, 0, None), Lists.Relist(cfg.n, s.queue);
    Database.WorkingSqliteWritesIffFit(o, session, cfg.script, parts);
    Lists.CommittedDrain(cfg.n, s.committed, s.queue);
    FlushedShape(cfg, s, a, o);
    assert s.dropped + [] == s.dropped && |s.dropped + s.queue| != |s.dropped|;
  }

  /** A flush loses the queue whatever SQLite does, if and only if it has no open connection. */
  lemma FlushIsHopelessIffNotOpen(cfg: Config, s: State, a: nat)
    requires 1 <= cfg.n && Lists.AllOfLength(cfg.n, s.queue) && s.queue != []
    requires a < |s.actors| && s.actors[a].pc == Hold(List(None))
    ensures var conn := s.actors[a].conn;
            (forall o: Oracle :: Flushed(cfg, s, a, o).dropped == s.dropped + s.queue)
            <==> conn == Null || (conn.Sick? && !Database.Fit(conn))
  {
    hide Flushed, Database.InsertListSpec, Lists.Relist, Lists.Entries, Lists.AllOfLength;
    var conn, parts := s.actors[a].conn, Lists.Relist(cfg.n, s.queue);
    Database.HopelessIffNotOpen(conn, s.committed, cfg.script, parts);
    assert s.dropped + [] == s.dropped && |s.dropped + s.queue| != |s.dropped|;
    forall o: Oracle
      ensures Flushed(cfg, s, a, o).dropped == s.dropped + s.queue
              <==> Database.InsertListSpec(o, Session(conn, s.committed, 0, None), cfg.script, parts).rc != OK
    {
      FlushedShape(cfg, s, a, o);
    }
  }

  lemma OneWorkerIsDisabled(cfg: Config)
    requires cfg == Config(1, 0, false)
    ensures Reachable(cfg, START.(actors := [DOWN, UP], arrived := [ONE], pushed := [ONE], queue := [ONE]), true, false)
  {
    hide Reachable;
    WorkersStart(cfg, true, false);
    var s0 := START.(actors := [UP, UP]);
    Go(cfg, s0, NoEntry(0), StartJob(s0, 0, Request, Do(Finish(false))), true, false);
    var s1 := s0.(actors := [Busy(UP, Request, Do(Finish(false))), UP]);
    assert StartJob(s0, 0, Request, Do(Finish(false))) == s1;
    Go(cfg, s1, Complete(0, true), CompleteStep(s1, 0, true), true, false);
    var s2 := s0.(actors := [DOWN, UP]);
    assert CompleteStep(s1, 0, true) == s2;
    PushFits(cfg, s2, 1, ONE, false, true, false, s2.(arrived := [ONE], pushed := [ONE], queue := [ONE]));
  }

  /**
   * From every reachable state in which a worker rests, the mutex is free and the queue holds
   * entries, the worker's timer can flush, with any SQLite: the queue is written or dropped, and
   * the worker rests again, as enabled as before.
   */
  lemma TimerFlushes(cfg: Config, s: State, a: nat, o: Oracle) returns (t: State)
    requires Uninterrupted.CanBegin(cfg, s, a, true) && s.actors[a].timer && s.queue != []
    ensures Reachable(cfg, t, true, false)
    ensures var session := Session(s.actors[a].conn, s.committed, 0, None);
            var reply := Database.InsertListSpec(o, session, cfg.script, Lists.Relist(cfg.n, s.queue));
            t == s.(queue := [], committed := reply.s.committed,
                    dropped := s.dropped + (if reply.rc == OK then [] else s.queue),
                    actors := s.actors[a := s.actors[a].(conn := reply.s.conn)])
  {
    hide Reachable, Database.InsertListSpec, Lists.Relist, Buffer.DrainCost;
    t := Uninterrupted.TimerRuns(cfg, s, a, 2 + Buffer.DrainCost(s.queue), o);
  }

  /** The flush timer of a disabled worker loses an entry that a worker in perfect order pushed. */
  lemma HealthyWorkersEntryIsLost()
    ensures exists cfg, s ::
              && Reachable(cfg, s, true, false) && |s.actors| == 2 && s.actors[1] == UP
              && s.arrived == s.dropped == [ONE] && s.queue == s.committed == []
  {
    hide Reachable, Order.OneInFlight, Database.InsertListSpec, Lists.Relist;
    var cfg := Config(1, 0, false);
    OneWorkerIsDisabled(cfg);
    var s0 := START.(actors := [DOWN, UP], arrived := [ONE], pushed := [ONE], queue := [ONE]);
    Database.WorkingSqliteWritesIffFit(Database.OBLIGING, Session(Null, [], 0, None), false, Lists.Relist(1, [ONE]));
    var t := TimerFlushes(cfg, s0, 0, Database.OBLIGING);
    assert [] + [ONE] == [ONE];
  }

  // -------------------------------------------------------- wedged connections

  /**
   * The timer of an enabled worker whose connection has a transaction in progress drops whatever
   * is queued, although SQLite works, and the worker goes on like that.
   */
  lemma WedgedTimerDropsTheQueue(cfg: Config, s: State, a: nat, o: Oracle) returns (t: State)
    requires Uninterrupted.CanBegin(cfg, s, a, true) && s.queue != [] && Database.WorksFrom(o, 0)
    requires s.actors[a].timer && s.actors[a].enabled
    requires s.actors[a].conn.Open? && s.actors[a].conn.txn.Some?
    ensures Reachable(cfg, t, true, false)
    ensures t == s.(queue := [], dropped := s.dropped + s.queue)
  {
    hide Reachable, Database.InsertListSpec, Lists.Relist, Lists.AllOfLength;
    var session := Session(s.actors[a].conn, s.committed, 0, None);
    Database.WorkingSqliteWritesIffFit(o, session, cfg.script, Lists.Relist(cfg.n, s.queue));
    t := TimerFlushes(cfg, s, a, o);
    assert s.actors[a := s.actors[a]] == s.actors;
  }

  /** A worker gets there when its timer flushes and the COMMIT fails, as it does for a busy file. */
  lemma BusyCommitWedges(cfg: Config, s: State, a: nat) returns (t: State)
    requires Uninterrupted.CanBegin(cfg, s, a, true) && s.queue != []
    requires s.actors[a].timer && s.actors[a].conn == Open(None)
    ensures Reachable(cfg, t, true, false)
    ensures t == s.(queue := [], dropped := s.dropped + s.queue,
                    actors := s.actors[a := s.actors[a].(conn := Open(Some(s.queue)))])
  {
    hide Reachable, Database.InsertListSpec, Lists.Relist, Lists.AllOfLength, Database.Calls;
    var session := Session(s.actors[a].conn, s.committed, 0, None);
    var o := Database.BusyAt(1 + Database.Calls(s.queue));
    QueueHasArity(cfg, s, true, false);
    Lists.RelistArity(cfg.n, s.queue);
    Database.FailedCommitWedges(o, session, cfg.script, s.queue);
    t := TimerFlushes(cfg, s, a, o);
  }

  /**
   * A run in which SQLite fails once, at a COMMIT: from then on nothing is written, and an entry
   * that comes later is lost while SQLite works and the worker believes that all is well.
   */
  lemma OneBusyCommitLosesLaterEntries()
    ensures exists cfg, s ::
              && Reachable(cfg, s, true, false)
              && s.actors == [UP.(conn := Open(Some([ONE])))]
              && s.arrived == s.dropped == [ONE, TWO] && s.queue == s.committed == []
  {
    hide Reachable, Order.OneInFlight;
    var cfg := Config(1, 0, false);
    WorkersStart(cfg, true, false);
    var s0 := START.(actors := [UP]);
    var s1 := s0.(arrived := [ONE], pushed := [ONE], queue := [ONE]);
    PushFits(cfg, s0, 0, ONE, false, true, false, s1);
    var s2 := BusyCommitWedges(cfg, s1, 0);
    var wedged := UP.(conn := Open(Some([ONE])));
    assert s2 == s1.(queue := [], dropped := [ONE], actors := [wedged]);
    var s3 := s2.(arrived := [ONE, TWO], pushed := [ONE, TWO], queue := [TWO]);
    PushFits(cfg, s2, 0, TWO, false, true, false, s3);
    var s4 := WedgedTimerDropsTheQueue(cfg, s3, 0, Database.OBLIGING);
    assert s4.actors == [wedged] && s4.dropped == [ONE, TWO];
  }

  /** An overflow with a thread pool: the entry is now with a task that waits for the mutex. */
  lemma OverflowGoesToATask(cfg: Config, t: State)
    requires cfg == Config(1, 0, false)
    requires t == START.(actors := [UP, Actor(InsertTask, Want(List(Some(ONE))), true, false, Open(None))],
                         arrived := [ONE], pushed := [ONE])
    ensures Reachable(cfg, t, false, true)
  {
    hide Reachable;
    WorkersStart(cfg, false, true);
    var s0 := START.(actors := [UP]);
    var s1 := s0.(arrived := [ONE], lock := Some(0), actors := [Busy(UP, AsyncRequest, Hold(Push(ONE)))]);
    PushBegins(cfg, s0, 0, ONE, true, false, true, s1);
    Go(cfg, s1, Act(0, false), ActStep(cfg, s1, 0, false), false, true);
    var s2 := s1.(pushed := [ONE], actors := [Busy(UP, AsyncRequest, Leave(Post(Some(ONE))))]);
    assert ActStep(cfg, s1, 0, false) == s2;
    Go(cfg, s2, Release(0), ReleaseStep(s2, 0), false, true);
    var s3 := s2.(lock := None, actors := [Busy(UP, AsyncRequest, Do(Post(Some(ONE))))]);
    assert ReleaseStep(s2, 0) == s3;
    var task := Actor(InsertTask, Want(List(Some(ONE))), true, false, Open(None));
    var s4 := s3.(actors := [Busy(UP, AsyncRequest, Do(Finish(true))), task]);
    assert PostStep(s3, 0, true) == s4;
    Go(cfg, s3, PostTask(0, true), PostStep(s3, 0, true), false, true);
    Go(cfg, s4, Complete(0, true), CompleteStep(s4, 0, true), false, true);
    assert CompleteStep(s4, 0, true) == t;
  }

  const TASK: Actor := Actor(InsertTask, Idle, true, false, Open(None))

  /** A posted task takes what was pushed after its own entry. */
  lemma TaskTakesTheLaterPush(cfg: Config, s: State, own: Row, later: Row, t: State)
    requires cfg.n == 1 == |later| && Reachable(cfg, s, false, true)
    requires s.lock == None && s.queue == [later] && s.actors == [UP, TASK.(pc := Want(List(Some(own))))]
    requires t == s.(actors := [UP, TASK.(pc := Do(Commit([later], Some(own))))], queue := [])
    ensures Reachable(cfg, t, false, true)
  {
    hide Reachable, Order.OneInFlight, ActStep;
    var s1 := s.(actors := [UP, TASK.(pc := Hold(List(Some(own))))], lock := Some(1));
    assert Goto(s, 1, Hold(List(Some(own)))).(lock := Some(1)) == s1;
    FirstDoesNotFly(s1);
    Go(cfg, s, Acquire(1), Goto(s, 1, Hold(List(Some(own)))).(lock := Some(1)), false, true);
    var s2 := s1.(actors := [UP, TASK.(pc := Leave(Commit([later], Some(own))))], queue := []);
    ListsOne(cfg, s1, 1, later, Some(own));
    assert Goto(s1, 1, Leave(Commit([later], Some(own)))).(queue := []) == s2;
    FirstDoesNotFly(s2);
    Go(cfg, s1, Act(1, true), ActStep(cfg, s1, 1, true), false, true);
    FirstDoesNotFly(t);
    assert ReleaseStep(s2, 1) == t;
    Go(cfg, s2, Release(1), ReleaseStep(s2, 1), false, true);
  }

  lemma FirstDoesNotFly(s: State)
    requires |s.actors| == 2 && s.actors[0] == UP
    ensures Order.OneInFlight(s)
  {
  }

  /** It commits the later push and then puts its own entry behind it. */
  lemma TaskUnshifts(cfg: Config, s: State, t: State)
    requires Reachable(cfg, s, false, true) && s.lock == None && s.queue == [] && s.committed == []
    requires s.actors == [UP, TASK.(pc := Do(Commit([TWO], Some(ONE))))]
    requires t == s.(actors := [UP, TASK.(pc := Leave(Finish(true)))],
                     committed := [TWO], queue := [ONE], lock := Some(1))
    ensures Reachable(cfg, t, false, true)
  {
    hide Reachable, InsertStep, ActStep, Order.OneInFlight;
    WorkingInsert(cfg, s, 1);
    var s1 := s.(actors := [UP, TASK.(pc := Want(Unshift(ONE)))], committed := [TWO]);
    assert InsertStep(cfg, s, 1, Database.OBLIGING) == s1;
    FirstDoesNotFly(s1);
    Go(cfg, s, Insert(1, Database.OBLIGING), InsertStep(cfg, s, 1, Database.OBLIGING), false, true);
    var s2 := s1.(actors := [UP, TASK.(pc := Hold(Unshift(ONE)))], lock := Some(1));
    assert Goto(s1, 1, Hold(Unshift(ONE))).(lock := Some(1)) == s2;
    FirstDoesNotFly(s2);
    Go(cfg, s1, Acquire(1), Goto(s1, 1, Hold(Unshift(ONE))).(lock := Some(1)), false, true);
    assert ActStep(cfg, s2, 1, true) == t by {
      TaskUnshiftsOne(cfg, s2);
    }
    FirstDoesNotFly(t);
    Go(cfg, s2, Act(1, true), ActStep(cfg, s2, 1, true), false, true);
  }

  lemma TaskUnshiftsOne(cfg: Config, s: State)
    requires s.actors == [UP, TASK.(pc := Hold(Unshift(ONE)))] && s.queue == []
    ensures ActStep(cfg, s, 1, true) == s.(actors := [UP, TASK.(pc := Leave(Finish(true)))], queue := [ONE])
  {
  }

  /**
   * With a thread pool an overflowed entry may be overtaken by a later push that fits, although
   * never more than one drain is under way and nothing fails.
   */
  lemma TasksLetLaterEntriesOvertake()
    ensures exists cfg, s ::
              && Reachable(cfg, s, false, true) && s.dropped == []
              && s.pushed == [ONE, TWO] && s.committed == [TWO] && s.queue == [ONE]
  {
    hide Reachable;
    var cfg := Config(1, 0, false);
    var s0 := START.(actors := [UP, TASK.(pc := Want(List(Some(ONE))))], arrived := [ONE], pushed := [ONE]);
    OverflowGoesToATask(cfg, s0);
    var s1 := s0.(arrived := [ONE, TWO], pushed := [ONE, TWO], queue := [TWO]);
    PushFits(cfg, s0, 0, TWO, true, false, true, s1);
    var s2 := s1.(actors := [UP, TASK.(pc := Do(Commit([TWO], Some(ONE))))], queue := []);
    TaskTakesTheLaterPush(cfg, s1, ONE, TWO, s2);
    TaskUnshifts(cfg, s2, s2.(actors := [UP, TASK.(pc := Leave(Finish(true)))],
                              committed := [TWO], queue := [ONE], lock := Some(1)));
  }
}
