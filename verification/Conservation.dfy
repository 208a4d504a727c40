/** Nothing is duplicated or silently lost, over every interleaving. */
module Conservation {
  import opened Values
  import opened Protocol
  import opened Effects
  import opened Sqlite
  import Database
  import Lists

  function Count(rows: seq<Row>, r: Row): nat {
    multiset(rows)[r]
  }

  lemma CountAppend(a: seq<Row>, b: seq<Row>, r: Row)
    ensures Count(a + b, r) == Count(a, r) + Count(b, r)
  {
  }

  /** The entries in the hands of all actors. */
  ghost function InHands(actors: seq<Actor>): seq<Row> {
    if actors == [] then [] else Held(actors[0].pc) + InHands(actors[1..])
  }

  lemma {:induction false} InHandsChange(actors: seq<Actor>, a: nat, actor: Actor, r: Row)
    requires a < |actors|
    ensures Count(InHands(actors[a := actor]), r) + Count(Held(actors[a].pc), r)
         == Count(InHands(actors), r) + Count(Held(actor.pc), r)
  {
    hide Held, Count;
    var changed := actors[a := actor];
    CountAppend(Held(changed[0].pc), InHands(changed[1..]), r);
    CountAppend(Held(actors[0].pc), InHands(actors[1..]), r);
    if a == 0 {
      assert changed[1..] == actors[1..];
    } else {
      InHandsChange(actors[1..], a - 1, actor, r);
      assert changed[0] == actors[0] && changed[1..] == actors[1..][a - 1 := actor];
    }
  }

  lemma {:induction false} InHandsGrow(actors: seq<Actor>, actor: Actor)
    ensures InHands(actors + [actor]) == InHands(actors) + Held(actor.pc)
  {
    hide Held;
    if actors == [] {
      assert actors + [actor] == [actor];
      assert InHands([actor]) == Held(actor.pc) + InHands([actor][1..]);
    } else {
      InHandsGrow(actors[1..], actor);
      assert (actors + [actor])[1..] == actors[1..] + [actor];
    }
  }

  /** How often `r` is somewhere: queued, in somebody's hands, committed, or dropped. */
  ghost function Accounted(s: State, r: Row): nat {
    Count(s.queue, r) + Count(InHands(s.actors), r) + Count(Lists.Entries(s.committed), r) + Count(s.dropped, r)
  }

  /** Every arrived entry is in exactly one place; entries have the arity of the format. */
  ghost predicate Conserved(cfg: Config, s: State) {
    && (forall r :: Count(s.arrived, r) == Accounted(s, r))
    && Lists.AllOfLength(cfg.n, s.queue)
    && forall a | 0 <= a < |s.actors| :: Lists.AllOfLength(cfg.n, Held(s.actors[a].pc))
  }

  /** The same balance, seen from one actor: where its entries are, less those that arrived. */
  ghost function Balance(
    queue: seq<Row>, held: seq<Row>, entries: seq<Row>, dropped: seq<Row>, arrived: seq<Row>, r: Row): int
  {
    Count(queue, r) + Count(held, r) + Count(entries, r) + Count(dropped, r) - Count(arrived, r)
  }

  ghost function Local(s: State, a: nat, r: Row): int
    requires a < |s.actors|
  {
    Balance(s.queue, Held(s.actors[a].pc), Lists.Entries(s.committed), s.dropped, s.arrived, r)
  }

  /** A step that keeps the balance of the actor that takes it. */
  ghost predicate Balanced(cfg: Config, s: State, t: State, a: nat) {
    && a < |s.actors| == |t.actors| && t.actors == s.actors[a := t.actors[a]]
    && (forall r :: Local(t, a, r) == Local(s, a, r))
    && Lists.AllOfLength(cfg.n, t.queue)
    && Lists.AllOfLength(cfg.n, Held(t.actors[a].pc))
  }

  lemma BalancedConserves(cfg: Config, s: State, t: State, a: nat)
    requires Conserved(cfg, s) && Balanced(cfg, s, t, a)
    ensures Conserved(cfg, t)
  {
    hide Held, Count, Lists.Entries;
    forall r
      ensures Count(t.arrived, r) == Accounted(t, r)
    {
      InHandsChange(s.actors, a, t.actors[a], r);
      assert Local(t, a, r) == Local(s, a, r);
    }
  }

  // ------------------------------------------------- ways entries change hands

  lemma Arrive(q: seq<Row>, e: Row, c: seq<Row>, d: seq<Row>, ar: seq<Row>)
    ensures forall r :: Balance(q, [e], c, d, ar + [e], r) == Balance(q, [], c, d, ar, r)
  {
  }

  lemma Enqueue(q: seq<Row>, e: Row, c: seq<Row>, d: seq<Row>, ar: seq<Row>)
    ensures forall r :: Balance(q + [e], [], c, d, ar, r) == Balance(q, [e], c, d, ar, r)
    ensures forall r :: Balance([e] + q, [], c, d, ar, r) == Balance(q, [e], c, d, ar, r)
  {
  }

  lemma Take(q: seq<Row>, p: seq<Row>, c: seq<Row>, d: seq<Row>, ar: seq<Row>)
    ensures forall r :: Balance([], q + p, c, d, ar, r) == Balance(q, p, c, d, ar, r)
  {
  }

  lemma Drop(q: seq<Row>, h: seq<Row>, c: seq<Row>, d: seq<Row>, ar: seq<Row>)
    ensures forall r :: Balance(q, [], c, d + h, ar, r) == Balance(q, h, c, d, ar, r)
  {
  }

  lemma Write(q: seq<Row>, b: seq<Row>, p: seq<Row>, c: seq<Row>, d: seq<Row>, ar: seq<Row>)
    ensures forall r :: Balance(q, p, c + b, d, ar, r) == Balance(q, b + p, c, d, ar, r)
  {
  }

  // ------------------------------------------------------------- step by step

  lemma QuietBalances(cfg: Config, s: State, t: State, a: nat)
    requires Conserved(cfg, s) && Quiet(s, t, a)
    ensures Balanced(cfg, s, t, a)
  {
    hide Held, Balance, Lists.Entries;
  }

  lemma {:induction false} SpawnConserves(cfg: Config, s: State, o: Oracle)
    requires Conserved(cfg, s)
    ensures Conserved(cfg, SpawnStep(cfg, s, o))
  {
    hide Database.InitSpec, Count, Lists.Entries;
    Database.InitCommitsNothing(o, Session(Null, s.committed, 0, None), cfg.script);
    var t := SpawnStep(cfg, s, o);
    InHandsGrow(s.actors, t.actors[|s.actors|]);
    assert InHands(s.actors) + [] == InHands(s.actors);
    assert forall r :: Accounted(t, r) == Accounted(s, r);
  }

  lemma BeginBalances(cfg: Config, s: State, a: nat, entry: Row, async: bool)
    requires Conserved(cfg, s) && a < |s.actors| && s.actors[a].pc.Idle? && |entry| == cfg.n
    ensures Balanced(cfg, s, BeginStep(s, a, entry, async), a)
  {
    hide Balance, Lists.Entries;
    assert Held(s.actors[a].pc) == [];
    Arrive(s.queue, entry, Lists.Entries(s.committed), s.dropped, s.arrived);
  }

  lemma {:induction false} PushBalances(cfg: Config, s: State, a: nat, entry: Row, fits: bool)
    requires Conserved(cfg, s) && a < |s.actors| && s.actors[a].pc == Hold(Push(entry))
    ensures Balanced(cfg, s, PushStep(cfg, s, a, entry, fits), a)
  {
    hide Balance, Lists.Entries;
    var t := PushStep(cfg, s, a, entry, fits);
    assert Held(s.actors[a].pc) == [entry];
    assert Held(t.actors[a].pc) == if fits then [] else [entry];
    Enqueue(s.queue, entry, Lists.Entries(s.committed), s.dropped, s.arrived);
  }

  /** What listing does: the queue moves into the hands of the actor, or its entry is dropped. */
  lemma ListOutcome(cfg: Config, s: State, a: nat, pend: Option<Row>, ok: bool)
    requires 1 <= cfg.n && Lists.AllOfLength(cfg.n, s.queue)
    requires a < |s.actors| && s.actors[a].pc == Hold(List(pend))
    ensures var t := ListStep(cfg, s, a, pend, ok);
            && |t.actors| == |s.actors| && t.actors == s.actors[a := t.actors[a]]
            && t.committed == s.committed && t.arrived == s.arrived && t.pushed == s.pushed && t.lock == s.lock
            && Held(s.actors[a].pc) == Pending(pend)
            && t.queue == (if ok then [] else s.queue)
            && t.dropped == (if ok then s.dropped else s.dropped + Pending(pend))
            && Held(t.actors[a].pc) == (if ok then s.queue + Pending(pend) else [])
  {
    hide Lists.Entries, Lists.Relist, Lists.AllOfLength;
    Lists.RelistEntries(cfg.n, s.queue);
  }

  lemma {:induction false} ListBalances(cfg: Config, s: State, a: nat, pend: Option<Row>, ok: bool)
    requires 1 <= cfg.n && Conserved(cfg, s) && a < |s.actors| && s.actors[a].pc == Hold(List(pend))
    ensures Balanced(cfg, s, ListStep(cfg, s, a, pend, ok), a)
  {
    hide ListStep, Balance, Lists.Entries, Held;
    ListOutcome(cfg, s, a, pend, ok);
    assert Lists.AllOfLength(cfg.n, Held(s.actors[a].pc));
    Take(s.queue, Pending(pend), Lists.Entries(s.committed), s.dropped, s.arrived);
    Drop(s.queue, Pending(pend), Lists.Entries(s.committed), s.dropped, s.arrived);
  }

  lemma {:induction false} UnshiftBalances(cfg: Config, s: State, a: nat, entry: Row, ok: bool)
    requires Conserved(cfg, s) && a < |s.actors| && s.actors[a].pc == Hold(Unshift(entry))
    ensures Balanced(cfg, s, UnshiftStep(s, a, entry, ok), a)
  {
    hide Balance, Lists.Entries;
    assert Held(s.actors[a].pc) == [entry] && Held(UnshiftStep(s, a, entry, ok).actors[a].pc) == [];
    Enqueue(s.queue, entry, Lists.Entries(s.committed), s.dropped, s.arrived);
    Drop(s.queue, [entry], Lists.Entries(s.committed), s.dropped, s.arrived);
  }

  /** What a commit attempt does: it writes the batch and keeps the entry for later, or drops both. */
  lemma InsertOutcome(cfg: Config, s: State, a: nat, o: Oracle)
    requires Enabled(cfg, s, Insert(a, o))
    ensures var commit, t := s.actors[a].pc.next, InsertStep(cfg, s, a, o);
            var entries, pend := Lists.Entries(commit.batch), Pending(commit.pend);
            && |t.actors| == |s.actors| && t.actors == s.actors[a := t.actors[a]]
            && t.queue == s.queue && t.arrived == s.arrived && t.pushed == s.pushed && t.lock == s.lock
            && Held(s.actors[a].pc) == entries + pend
            && (|| (&& Lists.Entries(t.committed) == Lists.Entries(s.committed) + entries
                    && t.dropped == s.dropped && Held(t.actors[a].pc) == pend)
                || (&& Lists.Entries(t.committed) == Lists.Entries(s.committed)
                    && t.dropped == s.dropped + (entries + pend) && Held(t.actors[a].pc) == []))
  {
    hide Database.InsertListSpec, Lists.Entries;
    var commit := s.actors[a].pc.next;
    Database.InsertListIsAtomic(o, Session(s.actors[a].conn, s.committed, 0, None), cfg.script, commit.batch);
    Lists.EntriesAppend(s.committed, commit.batch);
    assert s.committed + [] == s.committed && s.dropped + [] == s.dropped;
  }

  lemma {:induction false} InsertBalances(cfg: Config, s: State, a: nat, o: Oracle)
    requires Conserved(cfg, s) && Enabled(cfg, s, Insert(a, o))
    ensures Balanced(cfg, s, InsertStep(cfg, s, a, o), a)
  {
    hide InsertStep, Balance, Lists.Entries, Held, Lists.AllOfLength;
    var commit, t := s.actors[a].pc.next, InsertStep(cfg, s, a, o);
    var c, entries, pend := Lists.Entries(s.committed), Lists.Entries(commit.batch), Pending(commit.pend);
    InsertOutcome(cfg, s, a, o);
    LaterOnesOfLength(cfg.n, entries, pend);
    Write(s.queue, entries, pend, c, s.dropped, s.arrived);
    Drop(s.queue, entries + pend, c, s.dropped, s.arrived);
    assert Lists.AllOfLength(cfg.n, entries + pend);
  }

  lemma LaterOnesOfLength(n: nat, a: seq<Row>, b: seq<Row>)
    ensures Lists.AllOfLength(n, a + b) ==> Lists.AllOfLength(n, b)
    ensures Lists.AllOfLength<Value>(n, [])
  {
    assert forall i | 0 <= i < |b| :: b[i] == (a + b)[|a| + i];
  }

  /** What posting does: the entry moves into the hands of the new task, or it is dropped. */
  lemma PostOutcome(cfg: Config, s: State, a: nat, ok: bool)
    requires Enabled(cfg, s, PostTask(a, ok))
    ensures var t, pend := PostStep(s, a, ok), HeldNext(s.actors[a].pc.next);
            && t.queue == s.queue && t.committed == s.committed && t.arrived == s.arrived
            && |t.actors| == |s.actors| + (if ok then 1 else 0)
            && t.actors[..|s.actors|] == s.actors[a := t.actors[a]]
            && Held(s.actors[a].pc) == pend && Held(t.actors[a].pc) == []
            && t.lock == s.lock && t.pushed == s.pushed
            && t.dropped == (if ok then s.dropped else s.dropped + pend)
            && (ok ==> Held(t.actors[|s.actors|].pc) == pend)
  {
  }

  /** An actor passes everything it holds to a new actor. */
  lemma HandOverConserves(cfg: Config, s: State, t: State, a: nat, x: Actor, y: Actor)
    requires Conserved(cfg, s) && a < |s.actors| && t.actors == s.actors[a := x] + [y]
    requires Held(x.pc) == [] && Held(y.pc) == Held(s.actors[a].pc)
    requires t.queue == s.queue && t.committed == s.committed
    requires t.arrived == s.arrived && t.dropped == s.dropped
    ensures Conserved(cfg, t)
  {
    hide Lists.Entries, Held;
    InHandsGrow(s.actors[a := x], y);
    forall r
      ensures Count(t.arrived, r) == Accounted(t, r)
    {
      InHandsChange(s.actors, a, x, r);
      CountAppend(InHands(s.actors[a := x]), Held(y.pc), r);
      assert Count([], r) == 0;
      hide Count;
    }
    forall b | 0 <= b < |t.actors|
      ensures Lists.AllOfLength(cfg.n, Held(t.actors[b].pc))
    {
      assert b < |s.actors| && b != a ==> t.actors[b] == s.actors[b];
    }
  }

  lemma PostConserves(cfg: Config, s: State, a: nat, ok: bool)
    requires Conserved(cfg, s) && Enabled(cfg, s, PostTask(a, ok))
    ensures Conserved(cfg, PostStep(s, a, ok))
  {
    hide PostStep, Lists.Entries, Held, Balance;
    var pend, t := HeldNext(s.actors[a].pc.next), PostStep(s, a, ok);
    PostOutcome(cfg, s, a, ok);
    if ok {
      assert t.actors == s.actors[a := t.actors[a]] + [t.actors[|s.actors|]];
      HandOverConserves(cfg, s, t, a, t.actors[a], t.actors[|s.actors|]);
    } else {
      assert t.actors[..|s.actors|] == t.actors;
      Drop(s.queue, pend, Lists.Entries(s.committed), s.dropped, s.arrived);
      BalancedConserves(cfg, s, t, a);
    }
  }

  lemma ActConserves(cfg: Config, s: State, a: nat, ok: bool)
    requires 1 <= cfg.n && Conserved(cfg, s) && Enabled(cfg, s, Act(a, ok))
    requires !IsQuiet(s, Act(a, ok))
    ensures Conserved(cfg, ActStep(cfg, s, a, ok))
  {
    hide Conserved, Balanced, PushStep, PeekStep, CheckStep, ListStep, UnshiftStep;
    match s.actors[a].pc.body
    case Push(entry) =>
      PushBalances(cfg, s, a, entry, ok);
      BalancedConserves(cfg, s, ActStep(cfg, s, a, ok), a);
    case List(pend) =>
      ListBalances(cfg, s, a, pend, ok);
      BalancedConserves(cfg, s, ActStep(cfg, s, a, ok), a);
    case Unshift(entry) =>
      UnshiftBalances(cfg, s, a, entry, ok);
      BalancedConserves(cfg, s, ActStep(cfg, s, a, ok), a);
    case _ =>
  }

  lemma StepConserves(cfg: Config, s: State, step: Step)
    requires 1 <= cfg.n && Conserved(cfg, s) && Enabled(cfg, s, step)
    ensures Conserved(cfg, Next(cfg, s, step))
  {
    if !step.Spawn? && IsQuiet(s, step) {
      QuietSteps(cfg, s, step);
      hide *;
      QuietBalances(cfg, s, Next(cfg, s, step), step.a);
      BalancedConserves(cfg, s, Next(cfg, s, step), step.a);
    } else {
      hide Conserved, Balanced, SpawnStep, BeginStep, InsertStep, PostStep, ActStep;
      match step
      case Spawn(o) => SpawnConserves(cfg, s, o);
      case Begin(a, entry, async) =>
        BeginBalances(cfg, s, a, entry, async);
        BalancedConserves(cfg, s, BeginStep(s, a, entry, async), a);
      case Insert(a, o) =>
        InsertBalances(cfg, s, a, o);
        BalancedConserves(cfg, s, InsertStep(cfg, s, a, o), a);
      case PostTask(a, ok) => PostConserves(cfg, s, a, ok);
      case Act(a, ok) => ActConserves(cfg, s, a, ok);
      case _ =>
    }
  }

  // ---------------------------------------------------------------- whole runs

  lemma {:induction false} RunConserves(cfg: Config, states: seq<State>, steps: seq<Step>)
    requires 1 <= cfg.n && Run(cfg, states, steps)
    ensures Conserved(cfg, Last(states))
    decreases |steps|
  {
    if steps != [] {
      RunPrefix(cfg, states, steps);
      RunConserves(cfg, states[..|steps|], steps[..|steps| - 1]);
      hide Conserved, Next;
      StepConserves(cfg, states[|steps| - 1], steps[|steps| - 1]);
    }
  }

  /** Where entries can be: queued, in somebody's hands, committed, dropped. */
  ghost function Whereabouts(s: State): multiset<Row> {
    multiset(s.queue) + multiset(InHands(s.actors)) + multiset(Lists.Entries(s.committed)) + multiset(s.dropped)
  }

  /**
   * Conservation. In every run of any number of workers and tasks, whatever fails on the way, the
   * arrived entries are exactly those queued, in somebody's hands, committed, and dropped.
   */
  lemma {:induction false} NothingIsLostOrDuplicated(cfg: Config, states: seq<State>, steps: seq<Step>)
    requires 1 <= cfg.n && Run(cfg, states, steps)
    ensures Whereabouts(Last(states)) == multiset(Last(states).arrived)
  {
    hide InHands, Lists.Entries;
    RunConserves(cfg, states, steps);
    var s := Last(states);
    forall r: Row
      ensures multiset(s.arrived)[r] == Whereabouts(s)[r]
    {
      assert Count(s.arrived, r) == Accounted(s, r);
    }
  }

  /** The steps in which something fails, except that a push without room is not a failure yet. */
  predicate Fails(cfg: Config, s: State, step: Step)
    requires Enabled(cfg, s, step)
  {
    match step
    case Act(a, ok) => !ok && !s.actors[a].pc.body.Push?
    case PostTask(_, ok) => !ok
    case Insert(a, o) =>
      var session := Session(s.actors[a].conn, s.committed, 0, None);
      Database.InsertListSpec(o, session, cfg.script, s.actors[a].pc.next.batch).rc != OK
    case _ => false
  }

  /** A step gives up exactly what its actor has in its hands if it fails, and nothing otherwise. */
  lemma FailuresDropWhatIsHeld(cfg: Config, s: State, step: Step)
    requires Enabled(cfg, s, step)
    ensures Next(cfg, s, step).dropped ==
            s.dropped + if Fails(cfg, s, step) then Held(s.actors[step.a].pc) else []
  {
    if step.Act? && !IsQuiet(s, step) {
      ActDrops(cfg, s, step.a, step.ok);
    } else if step.Insert? {
      InsertDrops(cfg, s, step.a, step.o);
    } else {
      hide InsertStep, Database.InitSpec, PushStep, ListStep, UnshiftStep;
    }
  }

  lemma ActDrops(cfg: Config, s: State, a: nat, ok: bool)
    requires Enabled(cfg, s, Act(a, ok))
    ensures ActStep(cfg, s, a, ok).dropped ==
            s.dropped + if Fails(cfg, s, Act(a, ok)) then Held(s.actors[a].pc) else []
  {
    hide Lists.Relist;
  }

  lemma InsertDrops(cfg: Config, s: State, a: nat, o: Oracle)
    requires Enabled(cfg, s, Insert(a, o))
    ensures InsertStep(cfg, s, a, o).dropped ==
            s.dropped + if Fails(cfg, s, Insert(a, o)) then Held(s.actors[a].pc) else []
  {
    hide Database.InsertListSpec, Lists.Entries;
  }
}
