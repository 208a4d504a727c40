/**
 * Handlers that nobody interrupts. From every reachable state in which an actor rests and the mutex
 * is free, the transition system can run a handler of that actor from beginning to end, and what it
 * does then is what the methods of a worker do. With a thread pool, the tasks do it.
 */
module Uninterrupted {
  import opened Values
  import opened Protocol
  import opened Reachability
  import opened Sqlite
  import Buffer
  import Database
  import Lists
  import Node
  import Order
  import Worker

  // ------------------------------------------------------------------- pushing

  /** A push leaves the queue to be drained: it has no room, or the queue has reached its maximum. */
  predicate Fills(cfg: Config, s: State, fits: bool) {
    !fits || (cfg.max != 0 && cfg.max <= |s.queue| + 1)
  }

  /**
   * Where a push goes. It is the end of the request if and only if the entry fits and the queue
   * stays below the maximum; otherwise a request without thread pools lists the queue itself, and
   * one with a thread pool posts a task. An entry without room goes along.
   */
  lemma WherePushesGo(cfg: Config, s: State, a: nat, e: Row, fits: bool)
    requires a < |s.actors| && s.actors[a].pc == Hold(Push(e))
    ensures var t := ActStep(cfg, s, a, fits);
            var pc, pend := t.actors[a].pc, if fits then None else Some(e);
            && (pc == Leave(Finish(true)) <==> fits && (cfg.max == 0 || |s.queue| + 1 < cfg.max))
            && (Fills(cfg, s, fits) ==>
                  pc == if s.actors[a].job == AsyncRequest then Leave(Post(pend)) else Hold(List(pend)))
            && t.queue == s.queue + (if fits then [e] else [])
  {
  }

  /** The state behind a push. */
  function Pushed(s: State, e: Row, fits: bool): State {
    s.(arrived := s.arrived + [e], pushed := s.pushed + [e], queue := s.queue + if fits then [e] else [])
  }

  /** A request gets the mutex and pushes its entry. */
  lemma PushRuns(cfg: Config, s: State, a: nat, e: Row, job: Job, fits: bool, sync: bool)
    requires Reachable(cfg, s, sync, false) && s.lock == None && Rests(s, a) && |e| == cfg.n
    requires job == (if sync then Request else AsyncRequest)
    ensures var pend := if fits then None else Some(e);
            var pc := if !Fills(cfg, s, fits) then Leave(Finish(true))
                      else if sync then Hold(List(pend)) else Leave(Post(pend));
            Reachable(cfg, At(Pushed(s, e, fits), a, job, pc, Some(a)), sync, false)
  {
    hide Reachable, Order.OneInFlight, SpawnStep, InsertStep, PostStep, CompleteStep, QuitStep, ListStep, UnshiftStep;
    var s1 := s.(arrived := s.arrived + [e]);
    Go(cfg, s, Begin(a, e, !sync), At(s1, a, job, Want(Push(e)), None), sync, false);
    Enter(cfg, s1, a, job, Push(e), sync);
    var held := At(s1, a, job, Hold(Push(e)), Some(a));
    var t := ActStep(cfg, held, a, fits);
    WherePushesGo(cfg, held, a, e, fits);
    assert t.actors == held.actors[a := t.actors[a]];
    Moved(s1, a, job, Hold(Push(e)), Some(a), t.actors[a].pc);
    assert t == At(Pushed(s, e, fits), a, job, t.actors[a].pc, Some(a));
    Runs(cfg, s1, a, job, Push(e), fits, Pushed(s, e, fits), t.actors[a].pc, sync);
  }

  // ------------------------------------------------------------------ draining

  function DrainReply(cfg: Config, s: State, a: nat, o: Oracle): Reply
    requires a < |s.actors|
  {
    var session := Session(s.actors[a].conn, s.committed, 0, None);
    Database.InsertListSpec(o, session, cfg.script, Lists.Relist(cfg.n, s.queue))
  }

  /** The state behind a drain; `lists` says whether there was memory to list the queue. */
  function Drained(cfg: Config, s: State, a: nat, pend: Option<Row>, lists: bool, o: Oracle): State
    requires a < |s.actors|
  {
    var reply := DrainReply(cfg, s, a, o);
    if !lists then s.(dropped := s.dropped + Pending(pend))
    else s.(queue := [], committed := reply.s.committed,
            dropped := s.dropped + (if reply.rc == OK then [] else s.queue + Pending(pend)),
            actors := s.actors[a := s.actors[a].(conn := reply.s.conn)])
  }

  function DrainedPc(cfg: Config, s: State, a: nat, pend: Option<Row>, lists: bool, o: Oracle): Pc
    requires a < |s.actors|
  {
    var ok := lists && DrainReply(cfg, s, a, o).rc == OK;
    if ok && pend.Some? then Want(Unshift(pend.value)) else Do(Finish(ok))
  }

  /** List, release, insert. */
  lemma DrainRuns(cfg: Config, s: State, a: nat, job: Job, pend: Option<Row>, lists: bool, o: Oracle, sync: bool)
    requires 1 <= cfg.n && Lists.AllOfLength(cfg.n, s.queue) && a < |s.actors|
    requires Reachable(cfg, At(s, a, job, Hold(List(pend)), Some(a)), sync, false)
    ensures var t := Drained(cfg, s, a, pend, lists, o);
            Reachable(cfg, At(t, a, job, DrainedPc(cfg, s, a, pend, lists, o), None), sync, false)
  {
    hide Reachable, Order.OneInFlight, Lists.Relist, Lists.Entries, Lists.AllOfLength, Database.InsertListSpec;
    hide SpawnStep, InsertStep, PostStep, CompleteStep, QuitStep, PushStep, UnshiftStep;
    var held := At(s, a, job, Hold(List(pend)), Some(a));
    if lists {
      var next, t := Commit(Lists.Relist(cfg.n, s.queue), pend), s.(queue := []);
      Moved(s, a, job, Hold(List(pend)), Some(a), Leave(next));
      assert ActStep(cfg, held, a, true) == At(t, a, job, Leave(next), Some(a));
      Runs(cfg, s, a, job, List(pend), true, t, Leave(next), sync);
      LetGo(cfg, t, a, job, next, sync);
      InsertRuns(cfg, s, a, job, pend, o, sync);
    } else {
      var t := s.(dropped := s.dropped + Pending(pend));
      Moved(s, a, job, Hold(List(pend)), Some(a), Leave(Finish(false)));
      assert ActStep(cfg, held, a, false) == At(t, a, job, Leave(Finish(false)), Some(a));
      Runs(cfg, s, a, job, List(pend), false, t, Leave(Finish(false)), sync);
      LetGo(cfg, t, a, job, Finish(false), sync);
    }
  }

  lemma InsertRuns(cfg: Config, s: State, a: nat, job: Job, pend: Option<Row>, o: Oracle, sync: bool)
    requires 1 <= cfg.n && Lists.AllOfLength(cfg.n, s.queue) && a < |s.actors|
    requires var next := Commit(Lists.Relist(cfg.n, s.queue), pend);
             Reachable(cfg, At(s.(queue := []), a, job, Do(next), None), sync, false)
    ensures var t := Drained(cfg, s, a, pend, true, o);
            Reachable(cfg, At(t, a, job, DrainedPc(cfg, s, a, pend, true, o), None), sync, false)
  {
    hide Reachable, Order.OneInFlight, Lists.Relist, Lists.Entries, Lists.AllOfLength, Database.InsertListSpec;
    hide SpawnStep, ActStep, PostStep, CompleteStep, QuitStep;
    Lists.RelistEntries(cfg.n, s.queue);
    var before := At(s.(queue := []), a, job, Do(Commit(Lists.Relist(cfg.n, s.queue), pend)), None);
    var t := At(Drained(cfg, s, a, pend, true, o), a, job, DrainedPc(cfg, s, a, pend, true, o), None);
    assert t.actors == before.actors[a := t.actors[a]];
    assert InsertStep(cfg, before, a, o) == t;
    Go(cfg, before, Insert(a, o), t, sync, false);
  }

  /** An overflowed entry goes back, if there is memory. */
  function PutBack(s: State, e: Row, fits: bool): State {
    if fits then s.(queue := [e] + s.queue) else s.(dropped := s.dropped + [e])
  }

  lemma UnshiftRuns(cfg: Config, s: State, a: nat, job: Job, e: Row, fits: bool, sync: bool)
    requires a < |s.actors| && Reachable(cfg, At(s, a, job, Want(Unshift(e)), None), sync, false)
    ensures Reachable(cfg, At(PutBack(s, e, fits), a, job, Do(Finish(fits)), None), sync, false)
  {
    hide Reachable, Order.OneInFlight, SpawnStep, InsertStep, PostStep, CompleteStep, QuitStep, PushStep, ListStep;
    Enter(cfg, s, a, job, Unshift(e), sync);
    var t, next := PutBack(s, e, fits), Finish(fits);
    Moved(s, a, job, Hold(Unshift(e)), Some(a), Leave(next));
    assert ActStep(cfg, At(s, a, job, Hold(Unshift(e)), Some(a)), a, fits) == At(t, a, job, Leave(next), Some(a));
    Runs(cfg, s, a, job, Unshift(e), fits, t, Leave(next), sync);
    LetGo(cfg, t, a, job, next, sync);
  }

  /** A drain and, for an overflowed entry, the unshift: everything up to the end of the handler. */
  function Finished(cfg: Config, s: State, a: nat, pend: Option<Row>, lists: bool, o: Oracle, fits: bool): State
    requires a < |s.actors|
  {
    var t := Drained(cfg, s, a, pend, lists, o);
    if lists && DrainReply(cfg, s, a, o).rc == OK && pend.Some? then PutBack(t, pend.value, fits) else t
  }

  /** Whether nothing failed on the way. */
  predicate AllWell(cfg: Config, s: State, a: nat, pend: Option<Row>, lists: bool, o: Oracle, fits: bool)
    requires a < |s.actors|
  {
    lists && DrainReply(cfg, s, a, o).rc == OK && (pend.Some? ==> fits)
  }

  lemma DrainFinishes(
    cfg: Config, s: State, a: nat, job: Job, pend: Option<Row>, lists: bool, o: Oracle, fits: bool, sync: bool)
    requires 1 <= cfg.n && Lists.AllOfLength(cfg.n, s.queue) && a < |s.actors|
    requires Reachable(cfg, At(s, a, job, Hold(List(pend)), Some(a)), sync, false)
    ensures var t, ok := Finished(cfg, s, a, pend, lists, o, fits), AllWell(cfg, s, a, pend, lists, o, fits);
            |t.actors| == |s.actors| && Reachable(cfg, At(t, a, job, Do(Finish(ok)), None), sync, false)
  {
    hide Reachable, At, DrainReply, Lists.AllOfLength;
    DrainRuns(cfg, s, a, job, pend, lists, o, sync);
    if lists && DrainReply(cfg, s, a, o).rc == OK && pend.Some? {
      UnshiftRuns(cfg, Drained(cfg, s, a, pend, lists, o), a, job, pend.value, fits, sync);
    }
  }

  // ----------------------------------------------------------------- the end

  /** The end of a request or flush: the actor rests again, disabled if a request failed. */
  lemma RestsAgain(cfg: Config, s: State, a: nat, job: Job, ok: bool, closes: bool, sync: bool)
    requires a < |s.actors| && job in {Request, AsyncRequest, Flush, AsyncFlush}
    requires Reachable(cfg, At(s, a, job, Do(Finish(ok)), None), sync, false)
    ensures var failed := !ok && (job == Request || job == AsyncRequest);
            var x := s.actors[a].(job := Resting, pc := Idle, enabled := s.actors[a].enabled && !failed,
                                  conn := if failed && closes then Null else s.actors[a].conn);
            Reachable(cfg, s.(lock := None, actors := s.actors[a := x]), sync, false)
  {
    hide Reachable, Order.OneInFlight, SpawnStep, InsertStep, PostStep, ActStep, QuitStep;
    var before := At(s, a, job, Do(Finish(ok)), None);
    var t := CompleteStep(before, a, closes);
    Go(cfg, before, Complete(a, closes), t, sync, false);
    assert t.actors == s.actors[a := t.actors[a]];
  }

  /** The end of a task or of a worker. */
  lemma IsGone(cfg: Config, s: State, a: nat, job: Job, ok: bool, closes: bool, sync: bool)
    requires a < |s.actors| && job in {Exit, InsertTask, FlushTask}
    requires Reachable(cfg, At(s, a, job, Do(Finish(ok)), None), sync, false)
    ensures var x := s.actors[a].(job := job, pc := Gone,
                                  conn := if job == Exit && closes then Null else s.actors[a].conn);
            Reachable(cfg, s.(lock := None, actors := s.actors[a := x]), sync, false)
  {
    hide Reachable, Order.OneInFlight, SpawnStep, InsertStep, PostStep, ActStep, QuitStep;
    var before := At(s, a, job, Do(Finish(ok)), None);
    var t := CompleteStep(before, a, closes);
    Go(cfg, before, Complete(a, closes), t, sync, false);
    assert t.actors == s.actors[a := t.actors[a]];
  }

  // ------------------------------------------------ handlers, and what workers do

  function TheSetup(cfg: Config, o: Oracle): Worker.Setup {
    Worker.Setup(cfg.n, cfg.max, o, cfg.script)
  }

  /** The shared queue and the database, as an actor sees them. */
  function TheLog(s: State, a: nat): Worker.Log
    requires a < |s.actors|
  {
    Worker.Log(s.queue, Session(s.actors[a].conn, s.committed, 0, None))
  }

  /** A state in which a handler of an actor can begin. */
  ghost predicate CanBegin(cfg: Config, s: State, a: nat, sync: bool) {
    && 1 <= cfg.n && Reachable(cfg, s, sync, false) && s.lock == None
    && a < |s.actors| && s.actors[a].job == Resting && s.actors[a].pc == Idle
  }

  /** A drain that finishes does what handling an entry comes to after its push. */
  lemma FinishedIsHandled(cfg: Config, s: State, a: nat, e: Row, memory: Worker.Memory, o: Oracle)
    requires a < |s.actors| && Fills(cfg, s, 2 + NonNull(e) <= memory.push)
    ensures var fits := 2 + NonNull(e) <= memory.push;
            var p, pend, back := Pushed(s, e, fits), if fits then None else Some(e), 2 + NonNull(e) <= memory.unshift;
            var lists := 1 + Buffer.DrainCost(p.queue) <= memory.list;
            var t := Finished(cfg, p, a, pend, lists, o, back);
            var r := Worker.HandleSpec(TheSetup(cfg, o), TheLog(s, a), e, memory);
            && (r.ok <==> AllWell(cfg, p, a, pend, lists, o, back))
            && t.queue == r.log.queue && t.committed == r.log.session.committed
            && t.arrived == s.arrived + [e] && t.pushed == s.pushed + [e]
            && t.actors == s.actors[a := s.actors[a].(conn := r.log.session.conn)]
  {
    hide Worker.HandleSpec, Database.InsertListSpec, Lists.Relist, Buffer.DrainCost, NonNull;
    Worker.HandlingComesTo(TheSetup(cfg, o), TheLog(s, a), e, memory);
    var fits := 2 + NonNull(e) <= memory.push;
    var p, rows := Pushed(s, e, fits), if fits then s.queue + [e] else s.queue;
    assert p.queue == rows && TheLog(p, a) == Worker.Log(rows, TheLog(s, a).session);
    assert Worker.Written(TheSetup(cfg, o), TheLog(p, a)) == DrainReply(cfg, p, a, o);
    assert s.actors[a := s.actors[a].(conn := s.actors[a].conn)] == s.actors;
  }

  lemma PushKeepsArity(cfg: Config, s: State, e: Row, fits: bool)
    requires Lists.AllOfLength(cfg.n, s.queue) && |e| == cfg.n
    ensures Lists.AllOfLength(cfg.n, Pushed(s, e, fits).queue)
  {
  }

  /**
   * A request without thread pools does what `Worker.RequestSpec` says: to the queue, to the
   * database, to the connection, and to the worker, which is disabled by a failure.
   */
  lemma RequestRuns(cfg: Config, s: State, a: nat, e: Row, memory: Worker.Memory, o: Oracle) returns (t: State)
    requires CanBegin(cfg, s, a, true) && s.actors[a].enabled && |e| == cfg.n
    ensures Reachable(cfg, t, true, false) && t.lock == None
    ensures var r := Worker.RequestSpec(TheSetup(cfg, o), TheLog(s, a), Some(e), memory);
            && t.queue == r.log.queue && t.committed == r.log.session.committed
            && t.arrived == s.arrived + [e] && t.pushed == s.pushed + [e]
            && t.actors == s.actors[a := s.actors[a].(enabled := r.ok, conn := r.log.session.conn)]
  {
    hide Reachable, At, Worker.HandleSpec, Lists.AllOfLength, NonNull;
    var fits := 2 + NonNull(e) <= memory.push;
    var p := Pushed(s, e, fits);
    PushRuns(cfg, s, a, e, Request, fits, true);
    if Fills(cfg, s, fits) {
      t := FullRequestRuns(cfg, s, a, e, memory, o);
    } else {
      Worker.HandlingComesTo(TheSetup(cfg, o), TheLog(s, a), e, memory);
      LetGo(cfg, p, a, Request, Finish(true), true);
      RestsAgain(cfg, p, a, Request, true, true, true);
      t := p.(lock := None, actors := p.actors[a := s.actors[a]]);
    }
  }

  lemma FullRequestRuns(cfg: Config, s: State, a: nat, e: Row, memory: Worker.Memory, o: Oracle) returns (t: State)
    requires CanBegin(cfg, s, a, true) && s.actors[a].enabled && |e| == cfg.n
    requires var fits := 2 + NonNull(e) <= memory.push;
             var list := List(if fits then None else Some(e));
             Fills(cfg, s, fits) && Reachable(cfg, At(Pushed(s, e, fits), a, Request, Hold(list), Some(a)), true, false)
    ensures Reachable(cfg, t, true, false) && t.lock == None
    ensures var r := Worker.RequestSpec(TheSetup(cfg, o), TheLog(s, a), Some(e), memory);
            && t.queue == r.log.queue && t.committed == r.log.session.committed
            && t.arrived == s.arrived + [e] && t.pushed == s.pushed + [e]
            && t.actors == s.actors[a := s.actors[a].(enabled := r.ok, conn := r.log.session.conn)]
  {
    hide Reachable, At, Finished, AllWell, Worker.HandleSpec, Lists.AllOfLength, Buffer.DrainCost, NonNull, Fills;
    QueueHasArity(cfg, s, true, false);
    var fits := 2 + NonNull(e) <= memory.push;
    var p, pend := Pushed(s, e, fits), if fits then None else Some(e);
    var handled := Worker.HandleSpec(TheSetup(cfg, o), TheLog(s, a), e, memory);
    PushKeepsArity(cfg, s, e, fits);
    var lists, back := 1 + Buffer.DrainCost(p.queue) <= memory.list, 2 + NonNull(e) <= memory.unshift;
    var f, ok := Finished(cfg, p, a, pend, lists, o, back), AllWell(cfg, p, a, pend, lists, o, back);
    var closes := Close(o, handled.log.session).rc == OK;
    DrainFinishes(cfg, p, a, Request, pend, lists, o, back, true);
    FinishedIsHandled(cfg, s, a, e, memory, o);
    RestsAgain(cfg, f, a, Request, ok, closes, true);
    var x := s.actors[a].(enabled := ok, conn := if !ok && closes then Null else handled.log.session.conn);
    t := f.(lock := None, actors := f.actors[a := x]);
    assert f.actors[a := x] == s.actors[a := x];
  }

  /** A request whose entry cannot be built disables its worker and closes its connection. */
  lemma EmptyRequestRuns(cfg: Config, s: State, a: nat, memory: Worker.Memory, o: Oracle) returns (t: State)
    requires CanBegin(cfg, s, a, true) && s.actors[a].enabled
    ensures Reachable(cfg, t, true, false)
    ensures var r := Worker.RequestSpec(TheSetup(cfg, o), TheLog(s, a), None, memory);
            !r.ok && t == s.(actors := s.actors[a := s.actors[a].(enabled := false, conn := r.log.session.conn)])
  {
    hide Reachable, Order.OneInFlight, SpawnStep, InsertStep, PostStep, ActStep, QuitStep, Lists.AllOfLength;
    var closes := Close(o, TheLog(s, a).session).rc == OK;
    Go(cfg, s, NoEntry(a), At(s, a, Request, Do(Finish(false)), None), true, false);
    RestsAgain(cfg, s, a, Request, false, closes, true);
    var x := s.actors[a].(enabled := false, conn := if closes then Null else s.actors[a].conn);
    t := s.(lock := None, actors := s.actors[a := x]);
  }

  // ---------------------------------------------------------------- the timer

  /** The timer gets the mutex, looks at the length, and gives it back. */
  lemma TimerLooks(cfg: Config, s: State, a: nat, sync: bool)
    requires CanBegin(cfg, s, a, sync) && s.actors[a].timer
    ensures var job := if sync then Flush else AsyncFlush;
            var pc := if s.queue == [] then Do(Finish(true)) else if sync then Want(Check) else Do(PostFlush);
            Reachable(cfg, At(s, a, job, pc, None), sync, false)
  {
    hide Reachable, Order.OneInFlight, SpawnStep, InsertStep, PostStep, CompleteStep, QuitStep, PushStep, ListStep;
    hide Lists.AllOfLength;
    var job := if sync then Flush else AsyncFlush;
    var next := if s.queue == [] then Finish(true) else if sync then Relock else PostFlush;
    Go(cfg, s, Timer(a, !sync), At(s, a, job, Want(Peek), None), sync, false);
    Enter(cfg, s, a, job, Peek, sync);
    Moved(s, a, job, Hold(Peek), Some(a), Leave(next));
    Runs(cfg, s, a, job, Peek, true, s, Leave(next), sync);
    LetGo(cfg, s, a, job, next, sync);
  }

  /** A check under the mutex: an empty queue is the end, a filled one is listed. */
  lemma CheckRuns(cfg: Config, s: State, a: nat, job: Job, sync: bool)
    requires a < |s.actors| && Reachable(cfg, At(s, a, job, Want(Check), None), sync, false)
    ensures s.queue == [] ==> Reachable(cfg, At(s, a, job, Do(Finish(true)), None), sync, false)
    ensures s.queue != [] ==> Reachable(cfg, At(s, a, job, Hold(List(None)), Some(a)), sync, false)
  {
    hide Reachable, Order.OneInFlight, SpawnStep, InsertStep, PostStep, CompleteStep, QuitStep, PushStep, ListStep;
    Enter(cfg, s, a, job, Check, sync);
    var pc := if s.queue == [] then Leave(Finish(true)) else Hold(List(None));
    Moved(s, a, job, Hold(Check), Some(a), pc);
    Runs(cfg, s, a, job, Check, true, s, pc, sync);
    if s.queue == [] {
      LetGo(cfg, s, a, job, Finish(true), sync);
    }
  }

  /** A flush that finishes does what the drain of a worker does. */
  lemma FinishedIsDrained(cfg: Config, s: State, a: nat, memory: nat, o: Oracle)
    requires a < |s.actors|
    ensures var t := Finished(cfg, s, a, None, 1 + Buffer.DrainCost(s.queue) <= memory, o, true);
            var r := Worker.DrainSpec(TheSetup(cfg, o), TheLog(s, a), memory);
            && t == s.(queue := r.log.queue, committed := r.log.session.committed,
                       dropped := s.dropped + (if r.log.queue == [] && !r.ok then s.queue else []),
                       actors := s.actors[a := s.actors[a].(conn := r.log.session.conn)])
            && (r.ok <==> AllWell(cfg, s, a, None, 1 + Buffer.DrainCost(s.queue) <= memory, o, true))
  {
    hide Database.InsertListSpec, Lists.Relist;
    assert s.dropped + [] == s.dropped && s.queue + [] == s.queue;
    assert s.actors[a := s.actors[a].(conn := s.actors[a].conn)] == s.actors;
  }

  /**
   * The flush timer without thread pools does what `Worker.FlushSpec` says. The queue is written,
   * or kept for want of memory, or dropped, and the worker rests again, as enabled as before.
   */
  lemma TimerRuns(cfg: Config, s: State, a: nat, memory: nat, o: Oracle) returns (t: State)
    requires CanBegin(cfg, s, a, true) && s.actors[a].timer
    ensures Reachable(cfg, t, true, false)
    ensures var r := Worker.FlushSpec(TheSetup(cfg, o), TheLog(s, a), memory);
            t == s.(queue := r.log.queue, committed := r.log.session.committed,
                    dropped := s.dropped + (if r.log.queue == [] && !r.ok then s.queue else []),
                    actors := s.actors[a := s.actors[a].(conn := r.log.session.conn)])
  {
    hide Reachable, At, Finished, AllWell, Worker.DrainSpec, Lists.AllOfLength, Buffer.DrainCost;
    QueueHasArity(cfg, s, true, false);
    assert s.dropped + [] == s.dropped;
    TimerLooks(cfg, s, a, true);
    if s.queue == [] {
      RestsAgain(cfg, s, a, Flush, true, true, true);
      t := s;
      assert s.actors[a := s.actors[a]] == s.actors;
    } else {
      var left := if memory == 0 then 0 else memory - 1;
      var lists := 1 + Buffer.DrainCost(s.queue) <= left;
      var f, ok := Finished(cfg, s, a, None, lists, o, true), AllWell(cfg, s, a, None, lists, o, true);
      CheckRuns(cfg, s, a, Flush, true);
      DrainFinishes(cfg, s, a, Flush, None, lists, o, true, true);
      FinishedIsDrained(cfg, s, a, left, o);
      RestsAgain(cfg, f, a, Flush, ok, true, true);
      t := f.(lock := None, actors := f.actors[a := f.actors[a].(job := Resting, pc := Idle)]);
      assert t.actors == f.actors;
      if memory == 0 {
        NoMemoryToList(cfg, s, a, o);
      }
    }
  }

  lemma NoMemoryToList(cfg: Config, s: State, a: nat, o: Oracle)
    requires a < |s.actors|
    ensures Worker.DrainSpec(TheSetup(cfg, o), TheLog(s, a), 0) == Worker.Outcome(TheLog(s, a), false)
  {
  }

  // ------------------------------------------------------------ thread pools

  /** The task that is posted, with the connection of the worker that posts it. */
  function TaskFor(s: State, a: nat, next: Then): Actor
    requires a < |s.actors|
  {
    if next.Post? then Actor(InsertTask, Want(List(next.pend)), true, false, s.actors[a].conn)
    else Actor(FlushTask, Want(Check), true, false, s.actors[a].conn)
  }

  function WithTask(s: State, a: nat, next: Then): State
    requires a < |s.actors|
  {
    s.(lock := None, actors := s.actors + [TaskFor(s, a, next)])
  }

  /** A handler posts a task, and its actor rests again while the task waits for the mutex. */
  lemma PostRuns(cfg: Config, s: State, a: nat, job: Job, next: Then)
    requires a < |s.actors| && job in {AsyncRequest, AsyncFlush} && (next.Post? || next.PostFlush?)
    requires s.actors[a].job == Resting && s.actors[a].pc == Idle
    requires Reachable(cfg, At(s, a, job, Do(next), None), false, false)
    ensures Reachable(cfg, WithTask(s, a, next), false, false)
  {
    hide Reachable, Order.OneInFlight, SpawnStep, InsertStep, CompleteStep, ActStep, QuitStep;
    var before, t := At(s, a, job, Do(next), None), WithTask(s, a, next);
    var posted := At(t, a, job, Do(Finish(true)), None);
    assert PostStep(before, a, true).actors == posted.actors;
    Go(cfg, before, PostTask(a, true), posted, false, false);
    RestsAgain(cfg, t, a, job, true, true, false);
    assert t.actors[a := t.actors[a]] == t.actors;
  }

  /** A posted task drains, and puts an overflowed entry back, until it is gone. */
  lemma TaskRuns(
    cfg: Config, s: State, b: nat, job: Job, pend: Option<Row>, lists: bool, o: Oracle, fits: bool)
    requires 1 <= cfg.n && Lists.AllOfLength(cfg.n, s.queue) && b < |s.actors| && job in {InsertTask, FlushTask}
    requires Reachable(cfg, At(s, b, job, Hold(List(pend)), Some(b)), false, false)
    ensures var t := Finished(cfg, s, b, pend, lists, o, fits);
            && |t.actors| == |s.actors|
            && var actors := t.actors[b := t.actors[b].(job := job, pc := Gone)];
               Reachable(cfg, t.(lock := None, actors := actors), false, false)
  {
    hide Reachable, At, Finished, AllWell, Lists.AllOfLength;
    var t, ok := Finished(cfg, s, b, pend, lists, o, fits), AllWell(cfg, s, b, pend, lists, o, fits);
    DrainFinishes(cfg, s, b, job, pend, lists, o, fits, false);
    IsGone(cfg, t, b, job, ok, false, false);
  }

  lemma TaskWaits(s: State, a: nat, next: Then)
    requires a < |s.actors|
    ensures var t, b := WithTask(s, a, next), |s.actors|;
            && (next.Post? ==> t == At(t, b, InsertTask, Want(List(next.pend)), None))
            && (next.PostFlush? ==> t == At(t, b, FlushTask, Want(Check), None))
  {
    var t := WithTask(s, a, next);
    assert t.actors[|s.actors| := t.actors[|s.actors|]] == t.actors;
  }

  /**
   * A request with a thread pool. If its push fits and stays below the maximum, that is all.
   * Otherwise it posts a task, and when that is done the queue and the database are as
   * `Worker.HandleSpec` says. The worker is enabled and rests; whatever fails, fails in the task.
   */
  lemma AsyncRequestRuns(cfg: Config, s: State, a: nat, e: Row, memory: Worker.Memory, o: Oracle) returns (t: State)
    requires CanBegin(cfg, s, a, false) && s.actors[a].enabled && |e| == cfg.n
    ensures Reachable(cfg, t, false, false) && t.lock == None
    ensures var r := Worker.HandleSpec(TheSetup(cfg, o), TheLog(s, a), e, memory);
            && t.queue == r.log.queue && t.committed == r.log.session.committed
            && t.arrived == s.arrived + [e] && t.pushed == s.pushed + [e]
            && t.actors == s.actors + if !Fills(cfg, s, 2 + NonNull(e) <= memory.push) then []
                                      else [Actor(InsertTask, Gone, true, false, r.log.session.conn)]
  {
    hide Reachable, At, Finished, Worker.HandleSpec, Lists.AllOfLength, Buffer.DrainCost, NonNull;
    QueueHasArity(cfg, s, false, false);
    var fits := 2 + NonNull(e) <= memory.push;
    var p, pend, b := Pushed(s, e, fits), if fits then None else Some(e), |s.actors|;
    PushRuns(cfg, s, a, e, AsyncRequest, fits, false);
    PushKeepsArity(cfg, s, e, fits);
    if Fills(cfg, s, fits) {
      var lists, back := 1 + Buffer.DrainCost(p.queue) <= memory.list, 2 + NonNull(e) <= memory.unshift;
      LetGo(cfg, p, a, AsyncRequest, Post(pend), false);
      PostRuns(cfg, p, a, AsyncRequest, Post(pend));
      TaskWaits(p, a, Post(pend));
      var waiting, q := WithTask(s, a, Post(pend)), WithTask(p, a, Post(pend));
      assert q == Pushed(waiting, e, fits) && TheLog(waiting, b) == TheLog(s, a);
      Enter(cfg, q, b, InsertTask, List(pend), false);
      TaskRuns(cfg, q, b, InsertTask, pend, lists, o, back);
      FinishedIsHandled(cfg, waiting, b, e, memory, o);
      var f := Finished(cfg, q, b, pend, lists, o, back);
      t := f.(lock := None, actors := f.actors[b := f.actors[b].(job := InsertTask, pc := Gone)]);
    } else {
      Worker.HandlingComesTo(TheSetup(cfg, o), TheLog(s, a), e, memory);
      LetGo(cfg, p, a, AsyncRequest, Finish(true), false);
      RestsAgain(cfg, p, a, AsyncRequest, true, true, false);
      t := p.(lock := None, actors := p.actors[a := s.actors[a]]);
    }
  }

  /** If no task can be posted, the worker is disabled, and an entry without room is dropped. */
  lemma UnpostedRequestRuns(cfg: Config, s: State, a: nat, e: Row, fits: bool, closes: bool) returns (t: State)
    requires CanBegin(cfg, s, a, false) && s.actors[a].enabled && |e| == cfg.n && Fills(cfg, s, fits)
    ensures Reachable(cfg, t, false, false)
    ensures var conn := if closes then Null else s.actors[a].conn;
            t == Pushed(s, e, fits).(dropped := s.dropped + (if fits then [] else [e]),
                                     actors := s.actors[a := s.actors[a].(enabled := false, conn := conn)])
  {
    hide Reachable, Order.OneInFlight, SpawnStep, InsertStep, CompleteStep, ActStep, QuitStep, Lists.AllOfLength;
    var p, pend := Pushed(s, e, fits), if fits then None else Some(e);
    PushRuns(cfg, s, a, e, AsyncRequest, fits, false);
    LetGo(cfg, p, a, AsyncRequest, Post(pend), false);
    Moved(p, a, AsyncRequest, Do(Post(pend)), None, Do(Finish(false)));
    var q := p.(dropped := p.dropped + Pending(pend));
    assert PostStep(At(p, a, AsyncRequest, Do(Post(pend)), None), a, false)
        == At(q, a, AsyncRequest, Do(Finish(false)), None);
    Go(cfg, At(p, a, AsyncRequest, Do(Post(pend)), None), PostTask(a, false),
       At(q, a, AsyncRequest, Do(Finish(false)), None), false, false);
    RestsAgain(cfg, q, a, AsyncRequest, false, closes, false);
    var x := s.actors[a].(enabled := false, conn := if closes then Null else s.actors[a].conn);
    t := q.(lock := None, actors := q.actors[a := x]);
  }

  /** The flush timer with a thread pool: a task does what the drain of a worker does. */
  lemma AsyncTimerRuns(cfg: Config, s: State, a: nat, memory: nat, o: Oracle) returns (t: State)
    requires CanBegin(cfg, s, a, false) && s.actors[a].timer && s.queue != []
    ensures Reachable(cfg, t, false, false)
    ensures var r := Worker.DrainSpec(TheSetup(cfg, o), TheLog(s, a), memory);
            t == s.(queue := r.log.queue, committed := r.log.session.committed,
                    dropped := s.dropped + (if r.log.queue == [] && !r.ok then s.queue else []),
                    actors := s.actors + [Actor(FlushTask, Gone, true, false, r.log.session.conn)])
  {
    hide Reachable, At, Finished, AllWell, Worker.DrainSpec, Lists.AllOfLength, Buffer.DrainCost;
    QueueHasArity(cfg, s, false, false);
    var b, lists := |s.actors|, 1 + Buffer.DrainCost(s.queue) <= memory;
    TimerLooks(cfg, s, a, false);
    PostRuns(cfg, s, a, AsyncFlush, PostFlush);
    TaskWaits(s, a, PostFlush);
    var q := WithTask(s, a, PostFlush);
    CheckRuns(cfg, q, b, FlushTask, false);
    TaskRuns(cfg, q, b, FlushTask, None, lists, o, true);
    assert TheLog(q, b) == TheLog(s, a);
    FinishedIsDrained(cfg, q, b, memory, o);
    var f := Finished(cfg, q, b, None, lists, o, true);
    t := f.(lock := None, actors := f.actors[b := f.actors[b].(job := FlushTask, pc := Gone)]);
    var conn := Worker.DrainSpec(TheSetup(cfg, o), TheLog(s, a), memory).log.session.conn;
    assert t.actors == s.actors + [Actor(FlushTask, Gone, true, false, conn)];
  }

  /** The worker goes on with the connection that its task has left behind. */
  lemma AsyncTimerShares(cfg: Config, s: State, a: nat, memory: nat, o: Oracle) returns (t: State)
    requires CanBegin(cfg, s, a, false) && s.actors[a].timer && s.queue != []
    ensures Reachable(cfg, t, false, false)
    ensures var r := Worker.DrainSpec(TheSetup(cfg, o), TheLog(s, a), memory);
            && t.queue == r.log.queue && t.committed == r.log.session.committed
            && |s.actors| < |t.actors|
            && t.actors[..|s.actors|] == s.actors[a := s.actors[a].(conn := r.log.session.conn)]
  {
    hide Reachable, Order.OneInFlight, Worker.DrainSpec;
    hide SpawnStep, InsertStep, PostStep, ActStep, QuitStep, CompleteStep;
    var u := AsyncTimerRuns(cfg, s, a, memory, o);
    var conn := Worker.DrainSpec(TheSetup(cfg, o), TheLog(s, a), memory).log.session.conn;
    t := u.(actors := u.actors[a := u.actors[a].(conn := conn)]);
    Go(cfg, u, Share(a, conn), t, false, false);
  }

  /** If the queue is empty, the timer leaves everything as it is, with or without thread pools. */
  lemma IdleTimerRuns(cfg: Config, s: State, a: nat, sync: bool)
    requires CanBegin(cfg, s, a, sync) && s.actors[a].timer && s.queue == []
    ensures Reachable(cfg, At(s, a, if sync then Flush else AsyncFlush, Do(Finish(true)), None), sync, false)
  {
    hide Reachable, At;
    TimerLooks(cfg, s, a, sync);
  }

  // ------------------------------------------------------------ start and exit

  /** A worker starts enabled and with a timer if and only if every call of connecting works. */
  lemma WhoStartsEnabled(cfg: Config, s: State, o: Oracle)
    ensures var t := SpawnStep(cfg, s, o);
            var x := t.actors[|s.actors|];
            var works := o(0).Works? && o(1).Works? && o(2).Works? && (cfg.script ==> o(3).Works?);
            && x.enabled == x.timer == works && (works ==> x.conn == Open(None))
            && x.job == Resting && x.pc == Idle && t == s.(actors := s.actors + [x])
  {
    hide Database.InitSpec;
    var session := Session(Null, s.committed, 0, None);
    Database.InitCommitsNothing(o, session, cfg.script);
    Database.InitSucceedsIff(o, session, cfg.script);
    assert Database.WorksBetween(o, 0, if cfg.script then 4 else 3) ==> o(0).Works? && o(1).Works? && o(2).Works?;
    assert cfg.script && Database.WorksBetween(o, 0, 4) ==> o(3).Works?;
  }

  /** A leaving worker does what `Worker.ExitSpec` says, and is gone. */
  lemma ExitRuns(cfg: Config, s: State, a: nat, memory: nat, o: Oracle) returns (t: State)
    requires CanBegin(cfg, s, a, true)
    ensures Reachable(cfg, t, true, false)
    ensures var r := Worker.ExitSpec(TheSetup(cfg, o), TheLog(s, a), s.actors[a].enabled, memory);
            && t.queue == r.log.queue && t.committed == r.log.session.committed
            && t.actors == s.actors[a := s.actors[a].(job := Exit, pc := Gone, conn := r.log.session.conn)]
  {
    hide Reachable, Order.OneInFlight, Finished, AllWell, Worker.DrainSpec, Lists.AllOfLength, Buffer.DrainCost;
    hide SpawnStep, InsertStep, PostStep, ActStep, CompleteStep;
    var session := TheLog(s, a).session;
    if !s.actors[a].enabled || s.actors[a].conn == Null {
      t := QuitStep(s, a);
      Go(cfg, s, Quit(a), t, true, false);
    } else {
      Go(cfg, s, Quit(a), At(s, a, Exit, Want(Check), None), true, false);
      CheckRuns(cfg, s, a, Exit, true);
      if s.queue == [] {
        var closes := Close(o, session).rc == OK;
        IsGone(cfg, s, a, Exit, true, closes, true);
        var x := s.actors[a].(job := Exit, pc := Gone, conn := if closes then Null else s.actors[a].conn);
        t := s.(lock := None, actors := s.actors[a := x]);
      } else {
        t := DrainingExitRuns(cfg, s, a, memory, o);
      }
    }
  }

  lemma DrainingExitRuns(cfg: Config, s: State, a: nat, memory: nat, o: Oracle) returns (t: State)
    requires CanBegin(cfg, s, a, true) && s.queue != []
    requires Reachable(cfg, At(s, a, Exit, Hold(List(None)), Some(a)), true, false)
    ensures Reachable(cfg, t, true, false)
    ensures var r := Worker.DrainSpec(TheSetup(cfg, o), TheLog(s, a), memory);
            && t.queue == r.log.queue && t.committed == r.log.session.committed
            && t.actors == s.actors[a := s.actors[a].(job := Exit, pc := Gone, conn := Close(o, r.log.session).s.conn)]
  {
    hide Reachable, At, Finished, AllWell, Worker.DrainSpec, Lists.AllOfLength, Buffer.DrainCost;
    QueueHasArity(cfg, s, true, false);
    var lists := 1 + Buffer.DrainCost(s.queue) <= memory;
    var f, ok := Finished(cfg, s, a, None, lists, o, true), AllWell(cfg, s, a, None, lists, o, true);
    DrainFinishes(cfg, s, a, Exit, None, lists, o, true, true);
    FinishedIsDrained(cfg, s, a, memory, o);
    var last := Worker.DrainSpec(TheSetup(cfg, o), TheLog(s, a), memory).log.session;
    var closes := Close(o, last).rc == OK;
    IsGone(cfg, f, a, Exit, ok, closes, true);
    var x := s.actors[a].(job := Exit, pc := Gone, conn := if closes then Null else last.conn);
    t := f.(lock := None, actors := f.actors[a := x]);
    assert f.actors[a := x] == s.actors[a := x];
  }

  // ------------------------------------------------- while SQLite works

  /**
   * With a thread pool, a working SQLite, memory and a fit connection, a request that fills the
   * queue has it written with its entry, and one without room for its entry has the others written
   * and its own queued.
   */
  lemma AsyncRequestIsWritten(cfg: Config, s: State, a: nat, e: Row, memory: Worker.Memory) returns (t: State)
    requires CanBegin(cfg, s, a, false) && s.actors[a].enabled && |e| == cfg.n && Database.Fit(s.actors[a].conn)
    requires 1 + Buffer.DrainCost(s.queue + [e]) <= memory.list && 2 + NonNull(e) <= memory.unshift
    ensures Reachable(cfg, t, false, false) && s.actors <= t.actors
    ensures var fits := 2 + NonNull(e) <= memory.push;
            && (fits && cfg.max != 0 && cfg.max <= |s.queue| + 1 ==>
                  t.queue == [] && Lists.Entries(t.committed) == Lists.Entries(s.committed) + s.queue + [e])
            && (!fits ==> t.queue == [e] && Lists.Entries(t.committed) == Lists.Entries(s.committed) + s.queue)
            && (fits && (cfg.max == 0 || |s.queue| + 1 < cfg.max) ==>
                  t.queue == s.queue + [e] && t.committed == s.committed)
  {
    hide Reachable, Worker.HandleSpec, Lists.AllOfLength, Buffer.DrainCost, NonNull, Lists.Entries, Database.Fit;
    QueueHasArity(cfg, s, false, false);
    t := AsyncRequestRuns(cfg, s, a, e, memory, Database.OBLIGING);
    Worker.WorkingHandlingSucceeds(TheSetup(cfg, Database.OBLIGING), TheLog(s, a), e, memory);
  }

  /** And the timer has a filled queue written. */
  lemma AsyncTimerWrites(cfg: Config, s: State, a: nat) returns (t: State)
    requires CanBegin(cfg, s, a, false) && s.actors[a].timer && s.queue != [] && Database.Fit(s.actors[a].conn)
    ensures Reachable(cfg, t, false, false) && s.actors <= t.actors
    ensures t.queue == [] && Lists.Entries(t.committed) == Lists.Entries(s.committed) + s.queue
    ensures t.dropped == s.dropped
  {
    hide Reachable, Worker.DrainSpec, Lists.AllOfLength, Buffer.DrainCost, Lists.Entries, Database.Fit;
    QueueHasArity(cfg, s, false, false);
    var memory := 1 + Buffer.DrainCost(s.queue);
    t := AsyncTimerRuns(cfg, s, a, memory, Database.OBLIGING);
    Worker.DrainWorksIffFit(TheSetup(cfg, Database.OBLIGING), TheLog(s, a), memory);
    Worker.DrainIsAtomic(TheSetup(cfg, Database.OBLIGING), TheLog(s, a), memory);
    assert s.dropped + [] == s.dropped;
  }
}
