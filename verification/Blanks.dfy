/** Blank rows: what reaches the database when an empty queue is drained. */
module Blanks {
  import opened Values
  import opened Protocol
  import opened Sqlite
  import Conservation
  import Database
  import Lists
  import Synchronous

  /** How many rows have no values. */
  function BlankRows(rows: seq<Row>): nat {
    if rows == [] then 0 else BlankRows(rows[..|rows| - 1]) + if rows[|rows| - 1] == [] then 1 else 0
  }

  lemma {:induction false} BlankRowsAppend(a: seq<Row>, b: seq<Row>)
    ensures BlankRows(a + b) == BlankRows(a) + BlankRows(b)
    decreases |b|
  {
    if b == [] {
      assert a + b == a;
    } else {
      BlankRowsAppend(a, b[..|b| - 1]);
      assert (a + b)[..|a + b| - 1] == a + b[..|b| - 1];
    }
  }

  lemma {:induction false} EntriesAreNotBlank(n: nat, rows: seq<Row>)
    requires 1 <= n && Lists.AllOfLength(n, rows)
    ensures BlankRows(rows) == 0
    decreases |rows|
  {
    if rows != [] {
      EntriesAreNotBlank(n, rows[..|rows| - 1]);
    }
  }

  /** A drain carries a blank row if and only if it found the queue empty. */
  lemma BlankRowsOfDrain(n: nat, queue: seq<Row>)
    requires 1 <= n && Lists.AllOfLength(n, queue)
    ensures BlankRows(Lists.Relist(n, queue)) == if queue == [] then 1 else 0
  {
    hide Lists.Relist;
    Lists.RelistArity(n, queue);
    EntriesAreNotBlank(n, queue);
    var blank: seq<Row> := [[]];
    assert BlankRows(blank) == BlankRows(blank[..0]) + 1;
  }

  /** An actor on its way to write a batch. */
  predicate Carries(s: State, a: nat, batch: seq<Row>, pend: Option<Row>) {
    && a < |s.actors|
    && (s.actors[a].pc == Leave(Commit(batch, pend)) || s.actors[a].pc == Do(Commit(batch, pend)))
  }

  /** It listed the queue in this step, or carried the same batch before. */
  lemma BatchArises(cfg: Config, s: State, step: Step, a: nat, batch: seq<Row>, pend: Option<Row>)
    requires Enabled(cfg, s, step) && Carries(Next(cfg, s, step), a, batch, pend)
    ensures || Carries(s, a, batch, pend)
            || (&& a < |s.actors| && step == Act(a, true) && s.actors[a].pc == Hold(List(pend))
                && batch == Lists.Relist(cfg.n, s.queue))
  {
    hide Database.InsertListSpec, Database.InitSpec, ActStep, Lists.Entries;
    match step
    case Act(b, ok) => BodyBatchArises(cfg, s, b, ok, a, batch, pend);
    case _ =>
  }

  lemma BodyBatchArises(
    cfg: Config, s: State, b: nat, ok: bool, a: nat, batch: seq<Row>, pend: Option<Row>)
    requires Enabled(cfg, s, Act(b, ok)) && Carries(ActStep(cfg, s, b, ok), a, batch, pend)
    ensures || Carries(s, a, batch, pend)
            || (&& a == b && ok && s.actors[a].pc == Hold(List(pend)) && batch == Lists.Relist(cfg.n, s.queue))
  {
    hide Lists.Relist;
    match s.actors[b].pc.body
    case Push(_) =>
    case Peek =>
    case Check =>
    case List(_) =>
    case Unshift(_) =>
  }

  /** Every batch comes from the step of the run in which its actor drained the queue. */
  lemma {:induction false} BatchComesFromDrain(
    cfg: Config, states: seq<State>, steps: seq<Step>, k: nat, a: nat, batch: seq<Row>, pend: Option<Row>)
    returns (j: nat)
    requires Run(cfg, states, steps) && k < |states| && Carries(states[k], a, batch, pend)
    ensures j < k && a < |states[j].actors|
    ensures steps[j] == Act(a, true) && states[j].actors[a].pc == Hold(List(pend))
    ensures batch == Lists.Relist(cfg.n, states[j].queue)
    decreases k
  {
    hide Next, Enabled, Lists.Relist;
    assert k > 0;
    var i := k - 1;
    assert Enabled(cfg, states[i], steps[i]) && states[i + 1] == Next(cfg, states[i], steps[i]);
    BatchArises(cfg, states[i], steps[i], a, batch, pend);
    if Carries(states[i], a, batch, pend) {
      j := BatchComesFromDrain(cfg, states, steps, i, a, batch, pend);
    } else {
      j := i;
    }
  }

  lemma OnlyInsertsCommit(cfg: Config, s: State, step: Step)
    requires Enabled(cfg, s, step) && !step.Insert?
    ensures Next(cfg, s, step).committed == s.committed
  {
    hide Database.InitSpec, Lists.Relist, Lists.Entries;
    match step
    case Spawn(o) => Database.InitCommitsNothing(o, Session(Null, s.committed, 0, None), cfg.script);
    case _ =>
  }

  lemma InsertCommits(cfg: Config, s: State, a: nat, o: Oracle)
    requires Enabled(cfg, s, Insert(a, o))
    ensures var batch := s.actors[a].pc.next.batch;
            Next(cfg, s, Insert(a, o)).committed
            == s.committed + if Conservation.Fails(cfg, s, Insert(a, o)) then [] else batch
  {
    hide Database.InsertListSpec;
    var session := Session(s.actors[a].conn, s.committed, 0, None);
    Database.InsertListIsAtomic(o, session, cfg.script, s.actors[a].pc.next.batch);
  }

  /**
   * Over runs: a step commits a blank row if and only if it is a transaction that succeeds and
   * whose actor found the queue empty when it drained it; no other step does.
   */
  lemma BlankRowIffEmptyDrain(cfg: Config, states: seq<State>, steps: seq<Step>, k: nat) returns (j: nat)
    requires 1 <= cfg.n && Run(cfg, states, steps) && k < |steps|
    ensures Enabled(cfg, states[k], steps[k])
    ensures !steps[k].Insert? ==> states[k + 1].committed == states[k].committed
    ensures steps[k].Insert? ==>
              var a := steps[k].a;
              && j < k && steps[j] == Act(a, true) && a < |states[j].actors| && a < |states[k].actors|
              && states[j].actors[a].pc == Hold(List(states[k].actors[a].pc.next.pend))
              && BlankRows(states[k + 1].committed) - BlankRows(states[k].committed)
                 == if !Conservation.Fails(cfg, states[k], steps[k]) && states[j].queue == [] then 1 else 0
  {
    hide Next, Lists.Relist, Lists.AllOfLength, Conservation.Fails;
    var s, step := states[k], steps[k];
    assert Enabled(cfg, s, step) && states[k + 1] == Next(cfg, s, step);
    j := 0;
    if step.Insert? {
      var a, commit := step.a, s.actors[step.a].pc.next;
      j := BatchComesFromDrain(cfg, states, steps, k, a, commit.batch, commit.pend);
      assert Run(cfg, states[..j + 1], steps[..j]);
      Conservation.RunConserves(cfg, states[..j + 1], steps[..j]);
      BlankRowsOfDrain(cfg.n, states[j].queue);
      InsertCommits(cfg, s, a, step.o);
      BlankRowsAppend(s.committed, commit.batch);
      assert s.committed + [] == s.committed;
    } else {
      OnlyInsertsCommit(cfg, s, step);
    }
  }

  /** Without thread pools, only a push that overflowed drains an empty queue. */
  lemma SyncBlankRowsComeFromOverflows(cfg: Config, states: seq<State>, steps: seq<Step>, j: nat, a: nat,
                                       pend: Option<Row>)
    requires Synchronous.SyncRun(cfg, states, steps) && j < |states| && a < |states[j].actors|
    requires states[j].actors[a].pc == Hold(List(pend)) && states[j].queue == []
    ensures pend.Some?
  {
    hide Next, Enabled;
    assert Synchronous.SyncRun(cfg, states[..j + 1], steps[..j]);
    Synchronous.RunStaysFilled(cfg, states[..j + 1], steps[..j]);
  }
}
