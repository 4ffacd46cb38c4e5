/** What the steps of a run add up to: every await_rw is accounted for, and flush callbacks do not pile up. */
module SchedCounts {
  import opened Common
  import opened PutModel
  import opened PutInvariant
  import opened SchedModel
  import opened SchedProofs
  import opened SchedResults

  // ---- counting ----

  /** How often `actions` wait for the settled phase on behalf of task `t`. */
  function AwaitsOf(actions: seq<Action>, t: nat): nat {
    if actions == [] then 0 else (if actions[0] == DoAwait(t) then 1 else 0) + AwaitsOf(actions[1..], t)
  }

  function AwaitsIn(oracle: Oracle, t: nat): nat {
    if oracle == [] then 0 else AwaitsOf(oracle[0], t) + AwaitsIn(oracle[1..], t)
  }

  /** Values put by flushes. */
  function PutsIn(log: seq<Entry>): nat {
    if log == [] then 0 else PutsIn(Front(log)) + if Last(log).Committed? then 1 else 0
  }

  function Waiting(awaits: seq<Await>, t: nat): nat {
    if awaits == [] then 0 else Waiting(Front(awaits), t) + if Last(awaits).task == t then 1 else 0
  }

  function Resumed(resumes: seq<Resume>, t: nat): nat {
    if resumes == [] then 0 else Resumed(Front(resumes), t) + if Last(resumes).task == t then 1 else 0
  }

  /** The simulator runs the next element of the oracle inside each put, as far as it goes. */
  function Ran(oracle: Oracle, puts: nat): Oracle {
    oracle[..Min(puts, |oracle|)]
  }

  function Logged(e: Env, d: Env): seq<Entry> {
    if |e.hist| <= |d.hist| then d.hist[|e.hist|..] else []
  }

  /** How often task `t` calls await_rw in a step from `e` to `d`, inside the puts of a flush included. */
  function AwaitedBy(e: Env, ev: Event, d: Env, t: nat): nat {
    match ev
    case Lua(a) => AwaitsOf([a], t)
    case FireFlush(o) => if e.hasBak then AwaitsIn(Ran(o, PutsIn(Logged(e, d))), t) else 0
    case FireAwait(_, o) => if e.hasBak then AwaitsIn(Ran(o, PutsIn(Logged(e, d))), t) else 0
    case _ => 0
  }

  ghost function Awaited(e: Env, events: seq<Event>, t: nat): nat
    requires RunOf(e, events)
    decreases |events|
  {
    if events == [] then 0
    else
      match Step(e, events[0])
      case Err(_) => 0
      case Ok(d) => AwaitedBy(e, events[0], d, t) + Awaited(d, events[1..], t)
  }

  /** Tasks that still wait, and wakeups so far. */
  function Account(e: Env, t: nat): nat {
    Waiting(e.sim.awaitNow, t) + Waiting(e.sim.awaitNext, t) + Resumed(e.sim.resumed, t)
  }

  lemma {:induction false} WaitingConcat(a: seq<Await>, b: seq<Await>, t: nat)
    ensures Waiting(a + b, t) == Waiting(a, t) + Waiting(b, t)
  {
    if b == [] {
      assert a + b == a;
    } else {
      WaitingConcat(a, Front(b), t);
      assert Front(a + b) == a + Front(b);
    }
  }

  lemma WaitingWithout(a: seq<Await>, i: nat, t: nat)
    requires i < |a|
    ensures Waiting(a, t) == Waiting(a[..i] + a[i + 1..], t) + if a[i].task == t then 1 else 0
  {
    assert a == a[..i] + ([a[i]] + a[i + 1..]);
    WaitingConcat(a[..i], [a[i]] + a[i + 1..], t);
    WaitingConcat([a[i]], a[i + 1..], t);
    WaitingConcat(a[..i], a[i + 1..], t);
    assert Front([a[i]]) == [];
  }

  lemma WaitingSnoc(a: seq<Await>, x: Await, t: nat)
    ensures Waiting(a + [x], t) == Waiting(a, t) + if x.task == t then 1 else 0
  {
    assert Front(a + [x]) == a;
  }

  lemma ResumedSnoc(a: seq<Resume>, x: Resume, t: nat)
    ensures Resumed(a + [x], t) == Resumed(a, t) + if x.task == t then 1 else 0
  {
    assert Front(a + [x]) == a;
  }

  lemma {:induction false} PutsConcat(a: seq<Entry>, b: seq<Entry>)
    ensures PutsIn(a + b) == PutsIn(a) + PutsIn(b)
  {
    if b == [] {
      assert a + b == a;
    } else {
      PutsConcat(a, Front(b));
      assert Front(a + b) == a + Front(b);
    }
  }

  lemma {:induction false} AwaitsConcat(a: Oracle, b: Oracle, t: nat)
    ensures AwaitsIn(a + b, t) == AwaitsIn(a, t) + AwaitsIn(b, t)
  {
    if a == [] {
      assert a + b == b;
    } else {
      AwaitsConcat(a[1..], b, t);
      assert (a + b)[1..] == a[1..] + b;
    }
  }

  // ---- flushes ----

  /** Outstanding flush callbacks, and one more where the next write may register one. */
  function FlushRoom(e: Env): nat {
    Flushes(e) + if e.rwPassed && !e.reReg then 1 else 0
  }

  /** Between `e` and `d`: that many awaits of `t`, that many puts, no new room for flush callbacks. */
  ghost predicate Adds(e: Env, d: Env, t: nat, awaits: nat, puts: nat) {
    && Account(d, t) == Account(e, t) + awaits
    && e.hist <= d.hist && PutsIn(d.hist) == PutsIn(e.hist) + puts
    && d.rwPassed == e.rwPassed && d.hasBak == e.hasBak && FlushRoom(d) <= FlushRoom(e)
  }

  lemma AddsTrans(a: Env, b: Env, c: Env, t: nat, m: nat, p: nat, n: nat, q: nat)
    requires Adds(a, b, t, m, p) && Adds(b, c, t, n, q)
    ensures Adds(a, c, t, m + n, p + q)
  {
  }

  lemma LogAdds(e: Env, d: Env, t: nat, x: Entry)
    requires d.sim.awaitNow == e.sim.awaitNow && d.sim.awaitNext == e.sim.awaitNext && d.sim.resumed == e.sim.resumed
    requires d.hist == e.hist + [x] && d.rwPassed == e.rwPassed && d.hasBak == e.hasBak && FlushRoom(d) <= FlushRoom(e)
    ensures Adds(e, d, t, 0, if x.Committed? then 1 else 0)
  {
    assert Front(e.hist + [x]) == e.hist;
  }

  lemma PushRoom(e: Env, h: Handle)
    ensures FlushRoom(Push(e, h)) <= FlushRoom(e)
    ensures var d := Push(e, h);
      && d.sim == e.sim.(flushNext := d.sim.flushNext) && d.hist == e.hist
      && d.rwPassed == e.rwPassed && d.hasBak == e.hasBak
  {
  }

  lemma PostAdds(e: Env, h: Handle, op: Op, t: nat)
    requires Handles(e) && ActionOk(e.beats, DoPost(h, op)) && Post(e, h, op).Ok?
    ensures Adds(e, Post(e, h, op).env, t, 0, 0)
  {
    hide Push, WriteHandle, DropStale, Adds;
    var logged := e.(hist := e.hist + [Posted(h, op)]);
    if !Rejects(e.hs[h], op.flag) {
      var c := Unqueued(logged, h).env;
      PushRoom(c.(hs := c.hs[h := WriteHandle(e.beats[h], e.hs[h], op)]), h);
    }
    LogAdds(e, Post(e, h, op).env, t, Posted(h, op));
  }

  lemma ActAdds(e: Env, a: Action, t: nat)
    requires Handles(e) && ActionOk(e.beats, a) && Act(e, a).Ok?
    ensures Adds(e, Act(e, a).env, t, AwaitsOf([a], t), 0)
  {
    hide Post, ReleaseImm;
    assert AwaitsOf([a], t) == if a == DoAwait(t) then 1 else 0 by {
      assert [a][1..] == [];
    }
    match a
    case DoPost(h, op) => PostAdds(e, h, op, t);
    case DoReleaseImm(h) => LogAdds(e, ReleaseImm(e, h), t, ReleasedNow(h));
    case DoAwait(task) => AwaitAdds(e, task, t);
  }

  lemma AwaitAdds(e: Env, task: nat, t: nat)
    ensures Adds(e, RegisterAwait(e, task), t, if task == t then 1 else 0, 0)
  {
    WaitingSnoc(e.sim.awaitNext, Last(RegisterAwait(e, task).sim.awaitNext), t);
  }

  lemma {:induction false} ReenterAdds(e: Env, actions: seq<Action>, t: nat)
    requires Handles(e) && ActionsOk(e.beats, actions) && Reenter(e, actions).Ok?
    ensures Adds(e, Reenter(e, actions).env, t, AwaitsOf(actions, t), 0)
    decreases |actions|
  {
    hide Act, Adds;
    if actions == [] {
      SameAdds(e, t);
    } else {
      ActAdds(e, actions[0], t);
      var d := Act(e, actions[0]).env;
      ReenterAdds(d, actions[1..], t);
      assert [actions[0]][1..] == [];
      AddsTrans(e, d, Reenter(e, actions).env, t, AwaitsOf([actions[0]], t), 0, AwaitsOf(actions[1..], t), 0);
    }
  }

  lemma SameAdds(e: Env, t: nat)
    ensures Adds(e, e, t, 0, 0)
  {
  }

  /** Awaits inside `puts` puts of a flush. */
  function Inner(e: Env, oracle: Oracle, puts: nat, t: nat): nat {
    if e.hasBak then AwaitsIn(Ran(oracle, puts), t) else 0
  }

  lemma InnerOne(e: Env, oracle: Oracle, t: nat)
    ensures Inner(e, oracle, 0, t) == 0
    ensures Inner(e, oracle, 1, t) == AwaitsOf(Inside(e, oracle), t)
  {
    assert Ran(oracle, 0) == [];
    if oracle == [] {
      assert Ran(oracle, 1) == [];
    } else {
      assert Ran(oracle, 1) == [oracle[0]];
      assert [oracle[0]][1..] == [];
      assert AwaitsIn([oracle[0]], t) == AwaitsOf(oracle[0], t);
    }
  }

  lemma ApplyOneAdds(e: Env, i: nat, oracle: Oracle, t: nat)
    requires i < |e.queue| && Handles(e) && OracleOk(e.beats, oracle) && e.queue[i] in e.beats
    requires ApplyOne(e, i, oracle).Ok?
    ensures Adds(e, ApplyOne(e, i, oracle).env, t, Inner(e, oracle, 1, t), 1)
  {
    hide Adds, Reenter;
    var c := Commit(e, e.queue[i]).env;
    LogAdds(e, c, t, Last(c.hist));
    ReenterAdds(c, Inside(c, oracle), t);
    InnerOne(e, oracle, t);
    assert Inside(c, oracle) == Inside(e, oracle);
    AddsTrans(e, c, ApplyOne(e, i, oracle).env, t, 0, 1, AwaitsOf(Inside(c, oracle), t), 0);
  }

  /** The oracle behind its first `n` elements. */
  function Beyond(oracle: Oracle, n: nat): Oracle {
    oracle[Min(n, |oracle|)..]
  }

  lemma BeyondNext(oracle: Oracle, n: nat)
    ensures Beyond(oracle, 0) == oracle && Beyond(oracle, 1) == Later(oracle)
    ensures Beyond(Later(oracle), n) == Beyond(oracle, n + 1)
  {
  }

  lemma InnerSplit(e: Env, oracle: Oracle, m: nat, n: nat, t: nat)
    ensures Inner(e, oracle, m + n, t) == Inner(e, oracle, m, t) + Inner(e, Beyond(oracle, m), n, t)
  {
    var rest := Beyond(oracle, m);
    assert Ran(oracle, m + n) == Ran(oracle, m) + Ran(rest, n);
    AwaitsConcat(Ran(oracle, m), Ran(rest, n), t);
  }

  lemma SameInner(e: Env, d: Env, oracle: Oracle, n: nat, t: nat)
    requires d.hasBak == e.hasBak
    ensures Inner(d, oracle, n, t) == Inner(e, oracle, n, t)
  {
  }

  lemma {:induction false} ApplyFromAdds(e: Env, i: nat, oracle: Oracle, t: nat)
    requires i <= |e.queue| && Handles(e) && OracleOk(e.beats, oracle)
    requires forall h | h in e.queue :: h in e.beats
    requires ApplyFrom(e, i, oracle).outcome.Ok?
    ensures var n := |e.queue| - i;
      && Adds(e, ApplyFrom(e, i, oracle).outcome.env, t, Inner(e, oracle, n, t), n)
      && ApplyFrom(e, i, oracle).rest == Beyond(oracle, n)
    decreases |e.queue| - i
  {
    hide Adds, ApplyOne, Ran, Beyond, Inner;
    if i == |e.queue| {
      SameAdds(e, t);
      InnerOne(e, oracle, t);
      BeyondNext(oracle, 0);
    } else {
      var n := |e.queue| - i - 1;
      ApplyOneAdds(e, i, oracle, t);
      var d := ApplyOne(e, i, oracle).env;
      ApplyFromAdds(d, i + 1, Later(oracle), t);
      BeyondNext(oracle, n);
      InnerSplit(e, oracle, 1, n, t);
      SameInner(e, d, Later(oracle), n, t);
      AddsTrans(e, d, ApplyFrom(e, i, oracle).outcome.env, t, Inner(e, oracle, 1, t), 1, Inner(d, Later(oracle), n, t), n);
    }
  }

  lemma {:induction false} RoundsAdd(e: Env, oracle: Oracle, t: nat) returns (puts: nat)
    requires QueuesKnown(e) && OracleOk(e.beats, oracle) && Rounds(e, oracle).outcome.Ok?
    ensures Adds(e, Rounds(e, oracle).outcome.env, t, Inner(e, oracle, puts, t), puts)
    decreases |oracle|, |e.queue| + |e.bak|
  {
    hide Adds, ApplyFrom;
    if e.queue == [] {
      SameAdds(e, t);
      puts := 0;
      assert Ran(oracle, 0) == [];
    } else {
      ApplyFromAdds(e, 0, oracle, t);
      ApplyFromKnown(e, 0, oracle);
      var a := ApplyFrom(e, 0, oracle);
      var next := Swapped(a.outcome.env);
      QueueAdds(e, a.outcome.env, next, t, Inner(e, oracle, |e.queue|, t), |e.queue|);
      var later := RoundsAdd(next, a.rest, t);
      puts := |e.queue| + later;
      InnerSplit(e, oracle, |e.queue|, later, t);
      AddsTrans(e, next, Rounds(next, a.rest).outcome.env, t, Inner(e, oracle, |e.queue|, t), |e.queue|, Inner(next, a.rest, later, t), later);
    }
  }

  /** The queues themselves do not enter the account. */
  lemma QueueAdds(e: Env, d: Env, d': Env, t: nat, awaits: nat, puts: nat)
    requires Adds(e, d, t, awaits, puts)
    requires d'.sim == d.sim && d'.hist == d.hist && d'.rwPassed == d.rwPassed && d'.reReg == d.reReg && d'.hasBak == d.hasBak
    ensures Adds(e, d', t, awaits, puts) && d'.hasBak == e.hasBak
  {
  }

  lemma StartedAdds(e: Env, d: Env, t: nat, awaits: nat, puts: nat)
    requires Adds(Started(e), d, t, awaits, puts)
    ensures Adds(e, d, t, awaits, puts)
  {
  }

  lemma PendingAdds(e: Env, oracle: Oracle, t: nat) returns (puts: nat)
    requires QueuesKnown(e) && OracleOk(e.beats, oracle) && ApplyPending(e, oracle).outcome.Ok?
    ensures Adds(e, ApplyPending(e, oracle).outcome.env, t, Inner(e, oracle, puts, t), puts)
  {
    hide Adds, ApplyFrom, Rounds;
    var s, d := Started(e), ApplyPending(e, oracle).outcome.env;
    if e.queue == [] {
      SameAdds(e, t);
      puts := 0;
      assert Ran(oracle, 0) == [];
    } else if e.hasBak {
      puts := RoundsAdd(s, oracle, t);
      StartedAdds(e, Rounds(s, oracle).outcome.env, t, Inner(s, oracle, puts, t), puts);
      QueueAdds(e, Rounds(s, oracle).outcome.env, d, t, Inner(s, oracle, puts, t), puts);
    } else {
      puts := |e.queue|;
      ApplyFromAdds(s, 0, oracle, t);
      StartedAdds(e, ApplyFrom(s, 0, oracle).outcome.env, t, Inner(s, oracle, puts, t), puts);
      QueueAdds(e, ApplyFrom(s, 0, oracle).outcome.env, d, t, Inner(s, oracle, puts, t), puts);
    }
  }

  lemma LoggedPuts(e: Env, d: Env, puts: nat)
    requires e.hist <= d.hist && PutsIn(d.hist) == PutsIn(e.hist) + puts
    ensures PutsIn(Logged(e, d)) == puts
  {
    assert d.hist == e.hist + Logged(e, d);
    PutsConcat(e.hist, Logged(e, d));
  }

  // ---- one step ----

  predicate StepOk(e: Env, ev: Event) {
    Handles(e) && Enabled(e, ev) && Step(e, ev).Ok?
  }

  lemma FlushStepAdds(e: Env, o: Oracle, t: nat)
    requires Proto(e) && StepOk(e, FireFlush(o))
    ensures var d := Step(e, FireFlush(o)).env;
      Account(d, t) == Account(e, t) + AwaitedBy(e, FireFlush(o), d, t) && FlushRoom(d) <= FlushRoom(e)
  {
    hide ApplyPending, Fit, Quiet;
    var fired := e.(sim := e.sim.(flushNow := e.sim.flushNow - 1));
    var puts := PendingAdds(fired, o, t);
    var d := ApplyPending(fired, o).outcome.env;
    LoggedPuts(e, FlushDone(d), puts);
    FlushEffect(fired, o);
    FlushDoneRoom(fired, d);
  }

  lemma FlushDoneRoom(e: Env, d: Env)
    requires d == e || Quiet(Started(e), d)
    requires FlushRoom(d) <= FlushRoom(e)
    ensures FlushRoom(FlushDone(d)) <= FlushRoom(e) + 1
  {
  }

  lemma AwaitStepAdds(e: Env, i: nat, o: Oracle, t: nat)
    requires Proto(e) && StepOk(e, FireAwait(i, o))
    ensures var d := Step(e, FireAwait(i, o)).env;
      Account(d, t) == Account(e, t) + AwaitedBy(e, FireAwait(i, o), d, t) && FlushRoom(d) <= FlushRoom(e)
  {
    hide ApplyPending, Fit;
    var a := e.sim.awaitNow[i];
    var fired := e.(sim := e.sim.(awaitNow := e.sim.awaitNow[..i] + e.sim.awaitNow[i + 1..]));
    var puts := PendingAdds(fired, o, t);
    var d := ApplyPending(fired, o).outcome.env;
    LoggedPuts(e, Judge(d, a), puts);
    WaitingWithout(e.sim.awaitNow, i, t);
    JudgeAdds(d, a, t);
  }

  lemma JudgeAdds(d: Env, a: Await, t: nat)
    ensures Account(Judge(d, a), t) == Account(d, t) + if a.task == t then 1 else 0
    ensures FlushRoom(Judge(d, a)) == FlushRoom(d)
  {
    var j := Judge(d, a);
    if d.epoch != a.epoch {
      WaitingSnoc(d.sim.awaitNext, Last(j.sim.awaitNext), t);
    } else {
      ResumedSnoc(d.sim.resumed, Last(j.sim.resumed), t);
    }
  }

  lemma StepAdds(e: Env, ev: Event, t: nat)
    requires Proto(e) && StepOk(e, ev)
    ensures var d := Step(e, ev).env;
      && Account(d, t) == Account(e, t) + AwaitedBy(e, ev, d, t)
      && FlushRoom(d) <= FlushRoom(e) + if ev.NextSim? then 1 else 0
  {
    hide Fit, Act;
    match ev
    case Lua(a) => ActAdds(e, a, t);
    case FireFlush(o) => FlushStepAdds(e, o, t);
    case FireAwait(i, o) => AwaitStepAdds(e, i, o, t);
    case _ =>
  }

  // ---- runs ----

  function NextSims(events: seq<Event>): nat {
    if events == [] then 0 else (if events[0].NextSim? then 1 else 0) + NextSims(events[1..])
  }

  lemma {:induction false} RunAdds(e: Env, events: seq<Event>, d: Env, t: nat)
    requires Proto(e) && RunOf(e, events) && After(e, events) == Ok(d)
    ensures Account(d, t) == Account(e, t) + Awaited(e, events, t)
    ensures FlushRoom(d) <= FlushRoom(e) + NextSims(events)
    decreases |events|
  {
    hide Proto, Step, Account, FlushRoom, AwaitedBy;
    if events != [] {
      ProtoHandles(e);
      StepKeeps(e, events[0]);
      StepAdds(e, events[0], t);
      RunAdds(Step(e, events[0]).env, events[1..], d, t);
    }
  }

  lemma ProtoHandles(e: Env)
    requires Proto(e)
    ensures Handles(e)
  {
  }

  /** Each call of await_rw, in a coroutine of its own or inside a put, is one wakeup of that task or still waits. */
  lemma AwaitsAreServed(e: Env, events: seq<Event>, d: Env, t: nat)
    requires Reached(e, events, d)
    ensures Awaited(e, events, t) ==
            Resumed(d.sim.resumed, t) + Waiting(d.sim.awaitNow, t) + Waiting(d.sim.awaitNext, t)
  {
    InitialProto(e);
    RunAdds(e, events, d, t);
  }

  /** Flush callbacks do not pile up: no more are outstanding than NextSims have come. */
  lemma FlushesBounded(e: Env, events: seq<Event>, d: Env)
    requires Reached(e, events, d)
    ensures Flushes(d) <= NextSims(events)
  {
    InitialProto(e);
    RunAdds(e, events, d, 0);
  }

  // ---- what a wakeup records ----

  /** The record of a wakeup tells the truth about its task and the state in which it happened. */
  predicate TrueRecord(r: Resume, a: Await, d: Env) {
    && r.task == a.task && r.await == a
    && (r.queueEmpty <==> d.queue == [] && d.bak == [])
    && (r.dirty <==> d.sim.dirty) && (r.loose <==> d.sim.loose)
    && r.total == d.sim.total && r.pass == PassLog(d)
  }

  /** Only an await callback wakes a task, its own, and it does so once. */
  lemma StepWakes(e: Env, ev: Event)
    requires Proto(e) && StepOk(e, ev)
    ensures var d := Step(e, ev).env;
      || d.sim.resumed == e.sim.resumed
      || (&& ev.FireAwait? && d.sim.resumed != [] && d.sim.resumed == e.sim.resumed + [Last(d.sim.resumed)]
          && TrueRecord(Last(d.sim.resumed), e.sim.awaitNow[ev.i], d))
  {
    hide Fit, TrueRecord, Act, FlushCallback, AwaitCallback, OracleOk, ActionOk, Heartbeat, Stepping, Attended, AwaitsOk, PassOk, MarkOk, LooseOk, Drains, Beating, ResumeOk;
    match ev
    case Lua(a) => ActWakesNone(e, a);
    case FireFlush(o) => FlushWakesNone(e.(sim := e.sim.(flushNow := e.sim.flushNow - 1)), o);
    case FireAwait(i, o) =>
      AwaitWakes(e.(sim := e.sim.(awaitNow := e.sim.awaitNow[..i] + e.sim.awaitNow[i + 1..])), e.sim.awaitNow[i], o);
    case _ =>
  }

  lemma ActWakesNone(e: Env, a: Action)
    requires Handles(e) && ActionOk(e.beats, a) && Act(e, a).Ok?
    ensures Act(e, a).env.sim.resumed == e.sim.resumed
  {
    hide Act, FreshAwaits, SameHandles;
    QuietAct(e, a);
  }

  lemma FlushWakesNone(e: Env, o: Oracle)
    requires QueuesKnown(e) && !e.useBak && OracleOk(e.beats, o) && FlushCallback(e, o).Ok?
    ensures FlushCallback(e, o).env.sim.resumed == e.sim.resumed
  {
    hide ApplyPending, FreshAwaits, SameHandles, QueuesKnown, OracleOk;
    FlushEffect(e, o);
  }

  lemma AwaitWakes(e: Env, a: Await, o: Oracle)
    requires QueuesKnown(e) && !e.useBak && OracleOk(e.beats, o) && AwaitCallback(e, a, o).Ok?
    ensures var d := AwaitCallback(e, a, o).env;
      || d.sim.resumed == e.sim.resumed
      || (&& d.sim.resumed != [] && d.sim.resumed == e.sim.resumed + [Last(d.sim.resumed)]
          && TrueRecord(Last(d.sim.resumed), a, d))
  {
    hide ApplyPending, TrueRecord, Judge, FreshAwaits, SameHandles, QueuesKnown, OracleOk;
    FlushEffect(e, o);
    JudgeWakes(ApplyPending(e, o).outcome.env, a);
  }

  lemma JudgeWakes(d: Env, a: Await)
    ensures var j := Judge(d, a);
      || j.sim.resumed == d.sim.resumed
      || (&& j.sim.resumed != [] && j.sim.resumed == d.sim.resumed + [Last(j.sim.resumed)]
          && TrueRecord(Last(j.sim.resumed), a, j))
  {
    var j := Judge(d, a);
    if d.epoch == a.epoch {
      JudgeResumes(d, a);
      LastOf(d.sim.resumed, Last(j.sim.resumed));
    }
  }

  lemma JudgeResumes(d: Env, a: Await)
    requires d.epoch == a.epoch
    ensures var j := Judge(d, a);
      exists r :: j == d.(sim := d.sim.(resumed := d.sim.resumed + [r])) && TrueRecord(r, a, d)
  {
    var r := Resume(a.task, a, d.queue == [] && d.bak == [], d.sim.dirty, d.sim.loose, d.sim.total, PassLog(d));
    assert TrueRecord(r, a, d);
    assert Judge(d, a) == d.(sim := d.sim.(resumed := d.sim.resumed + [r]));
  }

  lemma LastOf(s: seq<Resume>, r: Resume)
    ensures s + [r] != [] && Last(s + [r]) == r
  {
  }

  lemma {:induction false} RunWakes(e: Env, events: seq<Event>, d: Env, r: Resume)
    requires Proto(e) && RunOf(e, events) && After(e, events) == Ok(d)
    requires r in d.sim.resumed && r !in e.sim.resumed
    ensures r.task == r.await.task
    decreases |events|
  {
    hide Proto, Step, TrueRecord;
    if events != [] {
      ProtoHandles(e);
      StepKeeps(e, events[0]);
      StepWakes(e, events[0]);
      var d1 := Step(e, events[0]).env;
      if r in d1.sim.resumed {
        assert TrueRecord(r, e.sim.awaitNow[events[0].i], d1);
        OwnTask(r, e.sim.awaitNow[events[0].i], d1);
      } else {
        RunWakes(d1, events[1..], d, r);
      }
    }
  }

  lemma OwnTask(r: Resume, a: Await, d: Env)
    requires TrueRecord(r, a, d)
    ensures r.task == r.await.task
  {
  }

  /** In every run a wakeup goes to the task whose await it was. */
  lemma WakesItsOwn(e: Env, events: seq<Event>, d: Env, r: Resume)
    requires Reached(e, events, d) && r in d.sim.resumed
    ensures r.task == r.await.task
  {
    InitialProto(e);
    RunWakes(e, events, d, r);
  }
}
