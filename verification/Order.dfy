/**
 * Entries reach the database in the order of their pushes, also through overflows, as long as no
 * two drains are under way at the same time and nobody pushes past an overflowed entry.
 */
module Order {
  import opened Values
  import opened Protocol
  import opened Effects
  import opened Sqlite
  import Conservation
  import Database
  import Lists

  // -------------------------------------------------------------- subsequences

  /** `a` is what is left of `b` after leaving out some elements. */
  ghost predicate Subseq(a: seq<Row>, b: seq<Row>)
    decreases |b|
  {
    || a == []
    || (b != [] && Subseq(a, b[..|b| - 1]))
    || (b != [] && a[|a| - 1] == b[|b| - 1] && Subseq(a[..|a| - 1], b[..|b| - 1]))
  }

  lemma SubseqExtend(a: seq<Row>, b: seq<Row>, e: Row)
    requires Subseq(a, b)
    ensures Subseq(a + [e], b + [e])
  {
    assert (a + [e])[..|a|] == a && (b + [e])[..|b|] == b;
  }

  lemma {:induction false} SubseqLength(a: seq<Row>, b: seq<Row>)
    requires Subseq(a, b)
    ensures |a| <= |b|
    ensures |a| == |b| ==> a == b
    decreases |b|
  {
    if a != [] {
      if Subseq(a, b[..|b| - 1]) {
        SubseqLength(a, b[..|b| - 1]);
      } else {
        SubseqLength(a[..|a| - 1], b[..|b| - 1]);
        assert a == a[..|a| - 1] + [a[|a| - 1]] && b == b[..|b| - 1] + [b[|b| - 1]];
      }
    }
  }

  /** Leaving out a stretch in the middle gives a subsequence. */
  lemma {:induction false} SubseqLeaveOut(x: seq<Row>, y: seq<Row>, z: seq<Row>, b: seq<Row>)
    requires Subseq(x + y + z, b)
    ensures Subseq(x + z, b)
    decreases |b|
  {
    var a := x + y + z;
    if x + z != [] {
      var init := b[..|b| - 1];
      if Subseq(a, init) {
        SubseqLeaveOut(x, y, z, init);
      } else if z != [] {
        assert a[..|a| - 1] == x + y + z[..|z| - 1];
        SubseqLeaveOut(x, y, z[..|z| - 1], init);
        assert (x + z)[..|x + z| - 1] == x + z[..|z| - 1];
      } else if y != [] {
        assert a[..|a| - 1] == x + y[..|y| - 1] + [];
        SubseqLeaveOut(x, y[..|y| - 1], [], init);
        assert x + [] == x + z;
      } else {
        assert a == x + z;
      }
    }
  }

  // ------------------------------------------------------- rows between places

  /** An actor between its drain and the end of its handler. */
  predicate Flying(pc: Pc) {
    match pc
    case Leave(Commit(_, _)) => true
    case Do(Commit(_, _)) => true
    case Want(Unshift(_)) => true
    case Hold(Unshift(_)) => true
    case _ => false
  }

  function Carry(pc: Pc): seq<Row> {
    if Flying(pc) then Held(pc) else []
  }

  /** An entry that overflowed and whose drain has not happened yet, maybe in the hands of a task. */
  function Late(pc: Pc): seq<Row> {
    match pc
    case Leave(Post(pend)) => Pending(pend)
    case Do(Post(pend)) => Pending(pend)
    case Want(List(pend)) => Pending(pend)
    case Hold(List(pend)) => Pending(pend)
    case _ => []
  }

  function Concat(f: Pc -> seq<Row>, actors: seq<Actor>): seq<Row> {
    if actors == [] then [] else f(actors[0].pc) + Concat(f, actors[1..])
  }

  lemma {:induction false} ConcatSame(f: Pc -> seq<Row>, actors: seq<Actor>, a: nat, actor: Actor)
    requires a < |actors| && f(actor.pc) == f(actors[a].pc)
    ensures Concat(f, actors[a := actor]) == Concat(f, actors)
  {
    var changed := actors[a := actor];
    if a == 0 {
      assert changed[1..] == actors[1..];
    } else {
      ConcatSame(f, actors[1..], a - 1, actor);
      assert changed[0] == actors[0] && changed[1..] == actors[1..][a - 1 := actor];
    }
  }

  lemma {:induction false} ConcatOnly(f: Pc -> seq<Row>, actors: seq<Actor>, a: nat)
    requires a < |actors| && forall i | 0 <= i < |actors| && i != a :: f(actors[i].pc) == []
    ensures Concat(f, actors) == f(actors[a].pc)
  {
    if a == 0 {
      ConcatNone(f, actors[1..]);
      assert f(actors[0].pc) + [] == f(actors[0].pc);
    } else {
      ConcatOnly(f, actors[1..], a - 1);
      assert [] + f(actors[a].pc) == f(actors[a].pc);
    }
  }

  lemma {:induction false} ConcatNone(f: Pc -> seq<Row>, actors: seq<Actor>)
    requires forall i | 0 <= i < |actors| :: f(actors[i].pc) == []
    ensures Concat(f, actors) == []
  {
    if actors != [] {
      ConcatNone(f, actors[1..]);
    }
  }

  lemma {:induction false} ConcatGrow(f: Pc -> seq<Row>, actors: seq<Actor>, actor: Actor)
    ensures Concat(f, actors + [actor]) == Concat(f, actors) + f(actor.pc)
  {
    if actors == [] {
      assert actors + [actor] == [actor];
      assert Concat(f, [actor]) == f(actor.pc) + Concat(f, [actor][1..]);
    } else {
      ConcatGrow(f, actors[1..], actor);
      assert (actors + [actor])[1..] == actors[1..] + [actor] && (actors + [actor])[0] == actors[0];
    }
  }

  // What a step does to the kept rows: committed, carried, queued, late.

  lemma ListKept(c: seq<Row>, k: seq<Row>, q: seq<Row>, p: seq<Row>, l: seq<Row>, b: seq<Row>)
    requires Subseq(c + k + q + (p + l), b)
    ensures k == [] ==> c + (q + p) + [] + l == c + k + q + (p + l)
    ensures Subseq(c + k + q + l, b)
  {
    assert k == [] ==> c + (q + p) + [] + l == c + k + q + (p + l);
    assert c + k + q + (p + l) == c + k + q + p + l;
    SubseqLeaveOut(c + k + q, p, l, b);
  }

  lemma PushKept(c: seq<Row>, k: seq<Row>, q: seq<Row>, e: seq<Row>, late: bool)
    ensures c + k + (q + if late then [] else e) + (if late then e else []) == c + k + q + [] + e
  {
    assert c + k + q + [] + e == c + k + (q + e) + [];
    assert q + [] == q;
  }

  lemma UnshiftKept(c: seq<Row>, e: seq<Row>, q: seq<Row>, l: seq<Row>, b: seq<Row>)
    requires Subseq(c + e + q + l, b)
    ensures Subseq(c + [] + (e + q) + l, b)
    ensures Subseq(c + [] + q + l, b)
  {
    assert c + [] + (e + q) + l == c + e + q + l == c + e + (q + l);
    SubseqLeaveOut(c, e, q + l, b);
    assert c + [] + q + l == c + (q + l);
  }

  lemma InsertKept(c: seq<Row>, e: seq<Row>, p: seq<Row>, q: seq<Row>, l: seq<Row>, b: seq<Row>)
    requires Subseq(c + (e + p) + q + l, b)
    ensures Subseq((c + e) + p + q + l, b)
    ensures Subseq(c + [] + q + l, b)
  {
    assert (c + e) + p + q + l == c + (e + p) + q + l;
    UnshiftKept(c, e + p, q, l, b);
  }

  /** Everything pushed and not dropped, oldest first. */
  ghost function Kept(s: State): seq<Row> {
    Lists.Entries(s.committed) + Concat(Carry, s.actors) + s.queue + Concat(Late, s.actors)
  }

  /** At most one drain is under way. */
  ghost predicate OneInFlight(s: State) {
    forall i: nat, j: nat | i < |s.actors| && j < |s.actors| && i != j ::
      !(Flying(s.actors[i].pc) && Flying(s.actors[j].pc))
  }

  /** At most one overflowed entry waits for its drain. */
  ghost predicate OneLate(s: State) {
    forall i: nat, j: nat | i < |s.actors| && j < |s.actors| && i != j ::
      Late(s.actors[i].pc) == [] || Late(s.actors[j].pc) == []
  }

  ghost predicate NobodyLate(s: State) {
    forall i | 0 <= i < |s.actors| :: Late(s.actors[i].pc) == []
  }

  /** What is kept is the push history without what was dropped. */
  ghost predicate InOrder(s: State) {
    && OneLate(s)
    && Subseq(Kept(s), s.pushed)
    && |s.pushed| == |Kept(s)| + |s.dropped|
  }

  /** A step that does not push past an overflowed entry. */
  ghost predicate Patient(s: State, step: Step) {
    step.Act? && step.a < |s.actors| && s.actors[step.a].pc.Hold? && s.actors[step.a].pc.body.Push?
    ==> NobodyLate(s)
  }

  // -------------------------------------------------------------- step by step

  /** A step that moves no entry. */
  ghost predicate Still(s: State, t: State, a: nat) {
    && a < |s.actors| == |t.actors| && t.actors == s.actors[a := t.actors[a]]
    && Carry(t.actors[a].pc) == Carry(s.actors[a].pc) && Late(t.actors[a].pc) == Late(s.actors[a].pc)
    && t.queue == s.queue && t.committed == s.committed && t.pushed == s.pushed && t.dropped == s.dropped
  }

  lemma StillInOrder(s: State, t: State, a: nat)
    requires InOrder(s) && Still(s, t, a)
    ensures InOrder(t)
  {
    hide Carry, Late, Subseq;
    ConcatSame(Carry, s.actors, a, t.actors[a]);
    ConcatSame(Late, s.actors, a, t.actors[a]);
  }

  lemma StartsAreStill(cfg: Config, s: State, step: Step)
    requires Enabled(cfg, s, step)
    requires step.Begin? || step.NoEntry? || step.Timer? || step.Quit? || step.Complete? || step.Share?
    ensures Still(s, Next(cfg, s, step), step.a)
  {
    hide SpawnStep, InsertStep, PostStep, ActStep, Lists.Entries;
    match step
    case Begin(_, _, _) =>
    case NoEntry(_) =>
    case Timer(_, _) =>
    case Quit(_) =>
    case Complete(_, _) =>
    case Share(_, _) =>
  }

  lemma MutexStepsAreStill(cfg: Config, s: State, step: Step)
    requires Enabled(cfg, s, step)
    requires step.Acquire? || step.Release? || (step.Act? && IsQuiet(s, step))
    ensures Still(s, Next(cfg, s, step), step.a)
  {
    hide InsertStep, SpawnStep, PostStep, CompleteStep, QuitStep, PushStep, ListStep, UnshiftStep, Lists.Entries;
    match step
    case Acquire(_) =>
    case Release(_) =>
    case Act(_, _) =>
  }

  lemma NobodyElseCarries(s: State, a: nat)
    requires OneInFlight(s) && a < |s.actors| && Flying(s.actors[a].pc)
    ensures forall i | 0 <= i < |s.actors| && i != a :: Carry(s.actors[i].pc) == []
  {
    forall i: nat | i < |s.actors| && i != a
      ensures !Flying(s.actors[i].pc)
    {
    }
  }

  /** An actor whose late entry is gone, or moved into its own hands. */
  lemma LateLeaves(s: State, t: State, a: nat)
    requires OneLate(s) && a < |s.actors| == |t.actors| && t.actors == s.actors[a := t.actors[a]]
    requires Late(t.actors[a].pc) == []
    ensures OneLate(t)
    ensures Late(s.actors[a].pc) != [] ==>
              Concat(Late, s.actors) == Late(s.actors[a].pc) && Concat(Late, t.actors) == []
    ensures Late(s.actors[a].pc) == [] ==> Concat(Late, t.actors) == Concat(Late, s.actors)
  {
    hide Late;
    if Late(s.actors[a].pc) == [] {
      ConcatSame(Late, s.actors, a, t.actors[a]);
    } else {
      ConcatOnly(Late, s.actors, a);
      ConcatNone(Late, t.actors);
    }
  }

  /** What a push does: the entry joins the queue, or it is late. */
  lemma PushOutcome(cfg: Config, s: State, a: nat, entry: Row, fits: bool)
    requires a < |s.actors| && s.actors[a].pc == Hold(Push(entry))
    ensures var t := PushStep(cfg, s, a, entry, fits);
            && |t.actors| == |s.actors| && t.actors == s.actors[a := t.actors[a]]
            && t.queue == s.queue + (if fits then [entry] else [])
            && Late(t.actors[a].pc) == (if fits then [] else [entry])
            && Late(s.actors[a].pc) == [] && Carry(t.actors[a].pc) == [] == Carry(s.actors[a].pc)
            && t.pushed == s.pushed + [entry] && t.committed == s.committed && t.dropped == s.dropped
  {
  }

  /** A push puts the entry behind all others, in the queue or, after an overflow, in hand. */
  lemma PushInOrder(cfg: Config, s: State, a: nat, entry: Row, fits: bool)
    requires InOrder(s) && NobodyLate(s)
    requires a < |s.actors| && s.actors[a].pc == Hold(Push(entry))
    ensures InOrder(PushStep(cfg, s, a, entry, fits))
  {
    hide PushStep, Subseq, Lists.Entries, Late, Carry, Concat;
    var t := PushStep(cfg, s, a, entry, fits);
    PushOutcome(cfg, s, a, entry, fits);
    ConcatNone(Late, s.actors);
    ConcatSame(Carry, s.actors, a, t.actors[a]);
    ConcatOnly(Late, t.actors, a);
    PushKept(Lists.Entries(s.committed), Concat(Carry, s.actors), s.queue, [entry], !fits);
    SubseqExtend(Kept(s), s.pushed, entry);
  }

  /** What a drain does to late and carried entries. */
  lemma ListMoves(cfg: Config, s: State, a: nat, pend: Option<Row>, ok: bool)
    requires a < |s.actors| && s.actors[a].pc == Hold(List(pend))
    ensures var x := ListStep(cfg, s, a, pend, ok).actors[a];
            Late(x.pc) == [] && Carry(x.pc) == Held(x.pc) && (ok ==> Flying(x.pc))
    ensures Carry(s.actors[a].pc) == [] && Late(s.actors[a].pc) == Pending(pend)
  {
    hide Lists.Entries, Lists.Relist;
  }

  /** What it does to all of them: the late entry of the actor goes, and others keep theirs. */
  lemma ListLate(cfg: Config, s: State, a: nat, pend: Option<Row>, ok: bool)
    requires 1 <= cfg.n && Lists.AllOfLength(cfg.n, s.queue)
    requires OneLate(s) && a < |s.actors| && s.actors[a].pc == Hold(List(pend))
    ensures var t := ListStep(cfg, s, a, pend, ok);
            OneLate(t) && Concat(Late, s.actors) == Pending(pend) + Concat(Late, t.actors)
  {
    hide ListStep, Lists.Entries, Held, Lists.AllOfLength, Late, OneLate, Flying, Concat, Carry;
    var t, p := ListStep(cfg, s, a, pend, ok), Pending(pend);
    Conservation.ListOutcome(cfg, s, a, pend, ok);
    ListMoves(cfg, s, a, pend, ok);
    LateLeaves(s, t, a);
    var l := Concat(Late, t.actors);
    assert p == [] ==> [] + l == l;
    assert p != [] ==> p + [] == p;
  }

  /** A drain that works puts the queue and the late entry in hand. */
  lemma ListedInOrder(cfg: Config, s: State, a: nat, pend: Option<Row>)
    requires 1 <= cfg.n && Lists.AllOfLength(cfg.n, s.queue)
    requires InOrder(s) && a < |s.actors| && s.actors[a].pc == Hold(List(pend))
    requires OneInFlight(ListStep(cfg, s, a, pend, true))
    ensures InOrder(ListStep(cfg, s, a, pend, true))
  {
    hide ListStep, Subseq, Lists.Entries, Held, Lists.AllOfLength, Late, OneInFlight, OneLate, Flying, Concat, Carry;
    var t := ListStep(cfg, s, a, pend, true);
    Conservation.ListOutcome(cfg, s, a, pend, true);
    ListMoves(cfg, s, a, pend, true);
    ListLate(cfg, s, a, pend, true);
    NobodyElseCarries(t, a);
    CarriedByOthers(s, t, a);
    ConcatNone(Carry, s.actors);
    ConcatOnly(Carry, t.actors, a);
    ListKept(Lists.Entries(s.committed), [], s.queue, Pending(pend), Concat(Late, t.actors), s.pushed);
  }

  /** Without memory it loses the late entry. */
  lemma UnlistedInOrder(cfg: Config, s: State, a: nat, pend: Option<Row>)
    requires 1 <= cfg.n && Lists.AllOfLength(cfg.n, s.queue)
    requires InOrder(s) && a < |s.actors| && s.actors[a].pc == Hold(List(pend))
    ensures InOrder(ListStep(cfg, s, a, pend, false))
  {
    hide ListStep, Subseq, Lists.Entries, Held, Lists.AllOfLength, Late, OneInFlight, OneLate, Flying, Concat, Carry;
    var t := ListStep(cfg, s, a, pend, false);
    Conservation.ListOutcome(cfg, s, a, pend, false);
    ListMoves(cfg, s, a, pend, false);
    ListLate(cfg, s, a, pend, false);
    ConcatSame(Carry, s.actors, a, t.actors[a]);
    var k := Concat(Carry, s.actors);
    ListKept(Lists.Entries(s.committed), k, s.queue, Pending(pend), Concat(Late, t.actors), s.pushed);
  }

  lemma CarriedByOthers(s: State, t: State, a: nat)
    requires a < |s.actors| == |t.actors| && t.actors == s.actors[a := t.actors[a]]
    requires forall i | 0 <= i < |t.actors| && i != a :: Carry(t.actors[i].pc) == []
    ensures forall i | 0 <= i < |s.actors| && i != a :: Carry(s.actors[i].pc) == []
  {
    forall i | 0 <= i < |s.actors| && i != a
      ensures Carry(s.actors[i].pc) == []
    {
      assert t.actors[i] == s.actors[i];
    }
  }

  lemma UnshiftInOrder(cfg: Config, s: State, a: nat, entry: Row, ok: bool)
    requires InOrder(s) && OneInFlight(s)
    requires a < |s.actors| && s.actors[a].pc == Hold(Unshift(entry))
    ensures InOrder(UnshiftStep(s, a, entry, ok))
  {
    hide Subseq, Lists.Entries;
    var t := UnshiftStep(s, a, entry, ok);
    NobodyElseCarries(s, a);
    LateLeaves(s, t, a);
    ConcatOnly(Carry, s.actors, a);
    ConcatNone(Carry, t.actors);
    assert Carry(s.actors[a].pc) == [entry];
    hide Carry, Late;
    UnshiftKept(Lists.Entries(s.committed), [entry], s.queue, Concat(Late, s.actors), s.pushed);
  }

  lemma InsertMoves(cfg: Config, s: State, a: nat, o: Oracle)
    requires Enabled(cfg, s, Insert(a, o))
    ensures var actor := InsertStep(cfg, s, a, o).actors[a];
            Carry(actor.pc) == Held(actor.pc) && Late(actor.pc) == [] == Late(s.actors[a].pc)
    ensures Flying(s.actors[a].pc) && Carry(s.actors[a].pc) == Held(s.actors[a].pc)
  {
    hide Database.InsertListSpec, Lists.Entries;
  }

  lemma InsertInOrder(cfg: Config, s: State, a: nat, o: Oracle)
    requires InOrder(s) && OneInFlight(s) && Enabled(cfg, s, Insert(a, o))
    ensures InOrder(InsertStep(cfg, s, a, o))
  {
    hide InsertStep, Lists.Entries, Subseq, Carry, Late, Held, Flying, OneInFlight, OneLate;
    var t, commit := InsertStep(cfg, s, a, o), s.actors[a].pc.next;
    var entries, pend := Lists.Entries(commit.batch), Pending(commit.pend);
    Conservation.InsertOutcome(cfg, s, a, o);
    InsertMoves(cfg, s, a, o);
    NobodyElseCarries(s, a);
    LateLeaves(s, t, a);
    ConcatOnly(Carry, s.actors, a);
    ConcatOnly(Carry, t.actors, a);
    InsertKept(Lists.Entries(s.committed), entries, pend, s.queue, Concat(Late, s.actors), s.pushed);
  }

  /** Posting moves a late entry to the new task. */
  lemma PostMoves(cfg: Config, s: State, a: nat, ok: bool)
    requires Enabled(cfg, s, PostTask(a, ok))
    ensures var t := PostStep(s, a, ok);
            && Carry(s.actors[a].pc) == Carry(t.actors[a].pc) == Late(t.actors[a].pc) == []
            && Late(s.actors[a].pc) == HeldNext(s.actors[a].pc.next)
            && (ok ==> && Carry(t.actors[|s.actors|].pc) == []
                       && Late(t.actors[|s.actors|].pc) == Late(s.actors[a].pc))
  {
  }

  lemma PostInOrder(cfg: Config, s: State, a: nat, ok: bool)
    requires InOrder(s) && Enabled(cfg, s, PostTask(a, ok))
    ensures InOrder(PostStep(s, a, ok))
  {
    hide PostStep, Lists.Entries, Subseq, Carry, Late, Held, HeldNext, Concat;
    var t, n := PostStep(s, a, ok), |s.actors|;
    Conservation.PostOutcome(cfg, s, a, ok);
    PostMoves(cfg, s, a, ok);
    var rest := s.(actors := t.actors[..n]);
    LateLeaves(s, rest, a);
    ConcatSame(Carry, s.actors, a, t.actors[a]);
    var e := Lists.Entries(s.committed) + Concat(Carry, s.actors) + s.queue;
    var p, l := Late(s.actors[a].pc), Concat(Late, rest.actors);
    if ok {
      assert t.actors == rest.actors + [t.actors[n]];
      ConcatGrow(Carry, rest.actors, t.actors[n]);
      ConcatGrow(Late, rest.actors, t.actors[n]);
      assert p == [] ==> l + p == l;
      assert p != [] ==> l + p == p;
      assert Concat(Carry, s.actors) + [] == Concat(Carry, s.actors);
    } else {
      assert t.actors == rest.actors;
      if p == [] {
        assert s.dropped + [] == s.dropped;
      } else {
        assert e + p == e + p + [] && e + [] == e;
        SubseqLeaveOut(e, p, [], s.pushed);
      }
    }
  }

  lemma SpawnInOrder(cfg: Config, s: State, o: Oracle)
    requires InOrder(s)
    ensures InOrder(SpawnStep(cfg, s, o))
  {
    hide Database.InitSpec, Subseq;
    Database.InitCommitsNothing(o, Session(Null, s.committed, 0, None), cfg.script);
    var t := SpawnStep(cfg, s, o);
    ConcatGrow(Carry, s.actors, t.actors[|s.actors|]);
    ConcatGrow(Late, s.actors, t.actors[|s.actors|]);
    assert Concat(Carry, s.actors) + [] == Concat(Carry, s.actors);
    assert Concat(Late, s.actors) + [] == Concat(Late, s.actors);
  }

  lemma StepInOrder(cfg: Config, s: State, step: Step)
    requires 1 <= cfg.n && Lists.AllOfLength(cfg.n, s.queue)
    requires InOrder(s) && OneInFlight(s) && Enabled(cfg, s, step) && Patient(s, step)
    requires OneInFlight(Next(cfg, s, step))
    ensures InOrder(Next(cfg, s, step))
  {
    var t := Next(cfg, s, step);
    if step.Begin? || step.NoEntry? || step.Timer? || step.Quit? || step.Complete? || step.Share? {
      StartsAreStill(cfg, s, step);
      hide *;
      StillInOrder(s, t, step.a);
    } else if step.Acquire? || step.Release? || (step.Act? && IsQuiet(s, step)) {
      MutexStepsAreStill(cfg, s, step);
      hide *;
      StillInOrder(s, t, step.a);
    } else {
      hide InOrder, OneInFlight, SpawnStep, InsertStep, PostStep, PushStep, ListStep, UnshiftStep, PeekStep, CheckStep;
      match step
      case Spawn(o) => SpawnInOrder(cfg, s, o);
      case Insert(a, o) => InsertInOrder(cfg, s, a, o);
      case PostTask(a, ok) => PostInOrder(cfg, s, a, ok);
      case Act(a, ok) =>
        match s.actors[a].pc.body
        case Push(entry) => PushInOrder(cfg, s, a, entry, ok);
        case List(pend) =>
          if ok { ListedInOrder(cfg, s, a, pend); } else { UnlistedInOrder(cfg, s, a, pend); }
        case Unshift(entry) => UnshiftInOrder(cfg, s, a, entry, ok);
        case _ =>
    }
  }

  // ---------------------------------------------------------------- whole runs

  /** At most one drain at a time, and no push past an overflowed entry. */
  ghost predicate Calm(states: seq<State>, steps: seq<Step>)
    requires |states| == |steps| + 1
  {
    && (forall i | 0 <= i < |states| :: OneInFlight(states[i]))
    && (forall i | 0 <= i < |steps| :: Patient(states[i], steps[i]))
  }

  lemma CalmPrefix(states: seq<State>, steps: seq<Step>)
    requires |states| == |steps| + 1 && Calm(states, steps) && steps != []
    ensures Calm(states[..|steps|], steps[..|steps| - 1])
    ensures OneInFlight(Last(states[..|steps|])) && OneInFlight(Last(states))
    ensures Patient(Last(states[..|steps|]), steps[|steps| - 1])
  {
    hide OneInFlight, Patient;
  }

  lemma {:induction false} RunInOrder(cfg: Config, states: seq<State>, steps: seq<Step>)
    requires 1 <= cfg.n && Run(cfg, states, steps) && Calm(states, steps)
    ensures InOrder(Last(states))
    decreases |steps|
  {
    if steps != [] {
      hide InOrder, OneInFlight, Patient, Enabled, Next, Calm, Lists.AllOfLength;
      var k := |steps| - 1;
      RunPrefix(cfg, states, steps);
      CalmPrefix(states, steps);
      RunInOrder(cfg, states[..|steps|], steps[..k]);
      Conservation.RunConserves(cfg, states[..|steps|], steps[..k]);
      StepInOrder(cfg, Last(states[..|steps|]), steps[k]);
    }
  }

  /**
   * Order. In every run, with or without thread pools, in which at most one drain is under way at
   * a time and nobody pushes while an overflowed entry waits for its drain, the committed entries,
   * the drained ones, the queue and the waiting one, one after the other, are the entries in push
   * order without the dropped ones. Without failures they are the push history itself.
   */
  lemma OrderThroughOverflow(cfg: Config, states: seq<State>, steps: seq<Step>)
    requires 1 <= cfg.n && Run(cfg, states, steps) && Calm(states, steps)
    ensures var s := Last(states);
            && Subseq(Kept(s), s.pushed)
            && |s.pushed| - |Kept(s)| == |s.dropped|
            && (s.dropped == [] ==> Kept(s) == s.pushed)
  {
    RunInOrder(cfg, states, steps);
    SubseqLength(Kept(Last(states)), Last(states).pushed);
  }

  // ------------------------------------------------- where the order is lost

  /**
   * A push that fits while an overflowed entry waits gets ahead of it. So where the order was
   * intact, such a push keeps it only if the two entries are equal.
   */
  lemma AcceptedPushOvertakes(cfg: Config, s: State, a: nat, b: nat, entry: Row, waiting: Row)
    requires OneLate(s) && a < |s.actors| && b < |s.actors|
    requires s.actors[a].pc == Hold(Push(entry)) && Late(s.actors[b].pc) == [waiting]
    ensures var t := PushStep(cfg, s, a, entry, true);
            && Kept(t) == Lists.Entries(s.committed) + Concat(Carry, s.actors) + s.queue + [entry] + [waiting]
            && Late(t.actors[b].pc) == [waiting]
            && (Kept(s) == s.pushed ==> (Kept(t) == t.pushed <==> entry == waiting))
  {
    hide PushStep, Lists.Entries, Concat, Late, Carry;
    var t := PushStep(cfg, s, a, entry, true);
    PushOutcome(cfg, s, a, entry, true);
    ConcatSame(Carry, s.actors, a, t.actors[a]);
    ConcatSame(Late, s.actors, a, t.actors[a]);
    ConcatOnly(Late, s.actors, b);
    var before := Lists.Entries(s.committed) + Concat(Carry, s.actors) + s.queue;
    assert Kept(s) == before + [waiting] && Kept(t) == before + [entry] + [waiting];
    if Kept(s) == s.pushed {
      assert t.pushed == before + [waiting] + [entry];
      assert Kept(t)[|before|] == entry && t.pushed[|before|] == waiting;
    }
  }

  /** A waiting entry gets the mutex and drains the queue. */
  function Listed(cfg: Config, s: State, a: nat): State
    requires a < |s.actors| && s.actors[a].pc.Want? && s.actors[a].pc.body.List?
  {
    var body := s.actors[a].pc.body;
    ListStep(cfg, Goto(s, a, Hold(body)).(lock := Some(a)), a, body.pend, true)
  }

  /** Of two waiting entries the one that is drained first gets ahead, whichever was pushed first. */
  lemma EitherWaitingEntryMayWin(cfg: Config, s: State, a: nat, b: nat, x: Row, y: Row)
    requires 1 <= cfg.n && Lists.AllOfLength(cfg.n, s.queue)
    requires a < |s.actors| && b < |s.actors| && a != b
    requires s.actors[a].pc == Want(List(Some(x))) && s.actors[b].pc == Want(List(Some(y)))
    requires forall i | 0 <= i < |s.actors| && i != a && i != b :: Late(s.actors[i].pc) == []
    requires forall i | 0 <= i < |s.actors| :: Carry(s.actors[i].pc) == []
    ensures Kept(Listed(cfg, s, a)) == Lists.Entries(s.committed) + s.queue + [x] + [y]
    ensures Kept(Listed(cfg, s, b)) == Lists.Entries(s.committed) + s.queue + [y] + [x]
  {
    FirstDrainedIsAhead(cfg, s, a, b, x, y);
    FirstDrainedIsAhead(cfg, s, b, a, y, x);
  }

  lemma FirstDrainedIsAhead(cfg: Config, s: State, a: nat, b: nat, x: Row, y: Row)
    requires 1 <= cfg.n && Lists.AllOfLength(cfg.n, s.queue)
    requires a < |s.actors| && b < |s.actors| && a != b
    requires s.actors[a].pc == Want(List(Some(x))) && s.actors[b].pc == Want(List(Some(y)))
    requires forall i | 0 <= i < |s.actors| && i != a && i != b :: Late(s.actors[i].pc) == []
    requires forall i | 0 <= i < |s.actors| :: Carry(s.actors[i].pc) == []
    ensures Kept(Listed(cfg, s, a)) == Lists.Entries(s.committed) + s.queue + [x] + [y]
  {
    hide ListStep, Lists.Entries, Held, Lists.AllOfLength, Concat;
    var h, t := Goto(s, a, Hold(List(Some(x)))).(lock := Some(a)), Listed(cfg, s, a);
    Conservation.ListOutcome(cfg, h, a, Some(x), true);
    ListMoves(cfg, h, a, Some(x), true);
    assert t.actors == s.actors[a := t.actors[a]];
    assert Late(s.actors[b].pc) == [y];
    hide Late, Carry;
    ConcatOnly(Late, t.actors, b);
    ConcatOnly(Carry, t.actors, a);
    var e := Lists.Entries(s.committed);
    assert e + (s.queue + [x]) + [] + [y] == e + s.queue + [x] + [y];
  }
}
