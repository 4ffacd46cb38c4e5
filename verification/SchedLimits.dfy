/** The one fault of the deferred writes, reached in a run. */
module SchedLimits {
  import opened Common
  import opened PutModel
  import opened SchedModel

  const SET := Op(NoDelay, Value32(1))

  // ---- the end of a run ----

  /** What the flush callback of the next slot starts from. */
  function Fired(e: Env): Env {
    var began := NextSimCallback(e.(sim := e.sim.(nextSim := 0)));
    began.(sim := began.sim.(flushNow := e.sim.flushNext, flushNext := 0, awaitNow := e.sim.awaitNext, awaitNext := [],
                             inPass := true, passTotal := e.sim.total, passMark := |e.hist|, passQueue := e.queue))
  }

  predicate Quiescent(e: Env) {
    Handles(e) && !e.innerStep && !e.sim.inPass && !e.sim.dirty && !e.sim.loose && e.sim.nextSim == 1
  }

  lemma FiredSame(e: Env)
    ensures SameHandles(e, Fired(e)) && Fired(e).hs == e.hs && Fired(e).queue == e.queue && Fired(e).bak == e.bak
    ensures Fired(e).useBak == e.useBak
  {
  }

  lemma LuaLeads(e: Env, a: Action, rest: seq<Event>)
    requires Handles(e) && ActionOk(e.beats, a) && Act(e, a).Ok? && RunOf(Act(e, a).env, rest)
    ensures RunOf(e, [Lua(a)] + rest) && After(e, [Lua(a)] + rest) == After(Act(e, a).env, rest)
  {
    var run := [Lua(a)] + rest;
    assert run[0] == Lua(a) && run[1..] == rest;
  }

  /** A slot whose flush faults ends the run. */
  lemma SlotFaults(e: Env, oracle: Oracle)
    requires Quiescent(e) && QueuesKnown(Fired(e)) && OracleOk(e.beats, oracle)
    requires FlushCallback(Fired(e), oracle).Err?
    ensures RunOf(e, [NextSim, BeginPass, FireFlush(oracle)])
    ensures After(e, [NextSim, BeginPass, FireFlush(oracle)]) == FlushCallback(Fired(e), oracle)
  {
    hide FlushCallback, OracleOk, QueuesKnown;
    var run := [NextSim, BeginPass, FireFlush(oracle)];
    var e1 := Step(e, NextSim).env;
    var e2 := Step(e1, BeginPass).env;
    assert run[1..] == [BeginPass, run[2]] && run[1..][1..] == [run[2]];
    SameQueues(Fired(e), e2);
    assert e2.(sim := e2.sim.(flushNow := e2.sim.flushNow - 1)) == Fired(e);
    assert Step(e2, run[2]) == FlushCallback(Fired(e), oracle);
    assert RunOf(e2, [run[2]]) && After(e2, [run[2]]) == FlushCallback(Fired(e), oracle);
    assert RunOf(e1, [BeginPass, run[2]]);
    assert After(e1, [BeginPass, run[2]]) == FlushCallback(Fired(e), oracle);
  }

  lemma SameQueues(e: Env, d: Env)
    requires QueuesKnown(e) && d.queue == e.queue && d.bak == e.bak && SameHandles(e, d)
    ensures QueuesKnown(d)
  {
  }

  /** Set `a` and `b`; in the flush of the next slot, the put of `a` wakes a coroutine that sets `b` again. */
  function SecondSetInsidePut(a: Handle, b: Handle): seq<Event> {
    [Lua(DoPost(a, SET)), Lua(DoPost(b, SET)), NextSim, BeginPass, FireFlush([[DoPost(b, SET)]])]
  }

  lemma SetTwo(e: Env, a: Handle, b: Handle)
    requires Initial(e) && a in e.beats && b in e.beats && a != b
    ensures Post(e, a, SET).Ok? && Post(Post(e, a, SET).env, b, SET).Ok?
    ensures var d := Post(Post(e, a, SET).env, b, SET).env;
      && SameHandles(e, d) && d.queue == [a, b] && d.bak == [] && !d.useBak && !d.rwPassed && !d.reReg
      && d.sim == e.sim && d.hs[a].flag == Some(NoDelay) && d.hs[b].flag == Some(NoDelay)
  {
    assert e.hs[a].flag == None && e.hs[b].flag == None;
    assert [] + [a] == [a] && [a] + [b] == [a, b];
  }

  /** The flush commits `a`, and the write to `b` takes `b` out of the vector being applied. */
  lemma FlushFaults(d: Env, a: Handle, b: Handle)
    requires Handles(d) && a in d.beats && b in d.beats && a != b && d.hasBak
    requires d.queue == [a, b] && d.hs[a].flag == Some(NoDelay) && d.hs[b].flag == Some(NoDelay)
    requires d.bak == []
    ensures QueuesKnown(d) && OracleOk(d.beats, [[DoPost(b, SET)]])
    ensures FlushCallback(d, [[DoPost(b, SET)]]) == Err(BatchChanged)
  {
    var oracle := [[DoPost(b, SET)]];
    var s := Started(d);
    var c := Commit(s, a).env;
    assert Remove([a, b], b) == [a] by {
      assert [a, b][1..] == [b] && [b][1..] == [];
    }
    assert Post(c, b, SET).Ok? && Post(c, b, SET).env.queue == [a];
    assert Inside(c, oracle) == [DoPost(b, SET)];
    assert Reenter(c, [DoPost(b, SET)]) == Err(BatchChanged);
    assert ApplyOne(s, 0, oracle) == Err(BatchChanged);
    assert ApplyFrom(s, 0, oracle).outcome == Err(BatchChanged);
  }

  /**
   From every initial state with two handles, on a simulator that runs coroutines inside a put, a run
   ends in the fault: a write to a handle whose turn is still to come changes the vector under its iterator.
   */
  lemma BatchFaultReached(e: Env, a: Handle, b: Handle)
    requires Initial(e) && e.hasBak && !e.innerStep && a in e.beats && b in e.beats && a != b
    ensures RunOf(e, SecondSetInsidePut(a, b))
    ensures After(e, SecondSetInsidePut(a, b)) == Err(BatchChanged)
  {
    hide Post, FlushCallback, OracleOk, Fired, Step;
    SetTwo(e, a, b);
    var e1 := Post(e, a, SET).env;
    var e2 := Post(e1, b, SET).env;
    var oracle := [[DoPost(b, SET)]];
    FiredSame(e2);
    FlushFaults(Fired(e2), a, b);
    SlotFaults(e2, oracle);
    LuaLeads(e1, DoPost(b, SET), [NextSim, BeginPass, FireFlush(oracle)]);
    LuaLeads(e, DoPost(a, SET), [Lua(DoPost(b, SET)), NextSim, BeginPass, FireFlush(oracle)]);
  }

  /** Set `a`; in the flush of the next slot, its put wakes a coroutine that performs `actions`. */
  function OwnPutWakes(a: Handle, actions: seq<Action>): seq<Event> {
    [Lua(DoPost(a, SET)), NextSim, BeginPass, FireFlush([actions])]
  }

  lemma SetOne(e: Env, a: Handle)
    requires Initial(e) && a in e.beats
    ensures Post(e, a, SET).Ok?
    ensures var d := Post(e, a, SET).env;
      && SameHandles(e, d) && d.queue == [a] && d.bak == [] && !d.useBak && !d.rwPassed && !d.reReg
      && d.sim == e.sim && d.hs[a].flag == Some(NoDelay)
  {
    assert e.hs[a].flag == None;
    assert [] + [a] == [a];
  }

  /** Two sets of the handle just committed, or one release of it: its entry leaves the vector. */
  predicate Disturbs(a: Handle, actions: seq<Action>) {
    actions == [DoPost(a, SET), DoPost(a, SET)] || actions == [DoReleaseImm(a)]
  }

  lemma DisturbingReenter(c: Env, a: Handle, actions: seq<Action>)
    requires Handles(c) && a in c.beats && c.hasBak && c.useBak && c.queue == [a] && c.bak == [] && c.hs[a].flag == None
    requires Disturbs(a, actions)
    ensures ActionsOk(c.beats, actions) && Reenter(c, actions) == Err(BatchChanged)
  {
    assert Remove([a], a) == [];
    if actions == [DoReleaseImm(a)] {
      assert ReleaseImm(c, a).queue == [];
    } else {
      FirstSetQueues(c, a);
      var c1 := Post(c, a, SET).env;
      SecondSetDisturbs(c1, a);
      assert actions[1..] == [DoPost(a, SET)];
      assert Reenter(c1, actions[1..]) == Err(BatchChanged);
    }
  }

  lemma FirstSetQueues(c: Env, a: Handle)
    requires Handles(c) && a in c.beats && c.hasBak && c.useBak && c.queue == [a] && c.bak == [] && c.hs[a].flag == None
    ensures Post(c, a, SET).Ok?
    ensures var d := Post(c, a, SET).env;
      SameHandles(c, d) && d.queue == [a] && d.useBak && d.hs[a].flag == Some(NoDelay)
  {
  }

  lemma SecondSetDisturbs(c: Env, a: Handle)
    requires Handles(c) && a in c.beats && c.hasBak && c.useBak && c.queue == [a] && c.hs[a].flag == Some(NoDelay)
    ensures Post(c, a, SET).Ok? && Post(c, a, SET).env.queue == []
  {
    assert Remove([a], a) == [];
  }

  lemma OwnFlushFaults(d: Env, a: Handle, actions: seq<Action>)
    requires Handles(d) && a in d.beats && d.hasBak && d.queue == [a] && d.bak == [] && d.hs[a].flag == Some(NoDelay)
    requires Disturbs(a, actions)
    ensures QueuesKnown(d) && OracleOk(d.beats, [actions])
    ensures FlushCallback(d, [actions]) == Err(BatchChanged)
  {
    var s := Started(d);
    var c := Commit(s, a).env;
    assert Inside(c, [actions]) == actions;
    DisturbingReenter(c, a, actions);
    assert ApplyOne(s, 0, [actions]) == Err(BatchChanged);
    assert ApplyFrom(s, 0, [actions]).outcome == Err(BatchChanged);
  }

  /**
   One handle is enough: a task woken by its own signal sets it twice, or releases it at once, while the
   vector that committed it is still being applied.
   */
  lemma OwnHandleFaultReached(e: Env, a: Handle, actions: seq<Action>)
    requires Initial(e) && e.hasBak && !e.innerStep && a in e.beats && Disturbs(a, actions)
    ensures RunOf(e, OwnPutWakes(a, actions))
    ensures After(e, OwnPutWakes(a, actions)) == Err(BatchChanged)
  {
    hide Post, FlushCallback, OracleOk, Fired, Step;
    SetOne(e, a);
    var e1 := Post(e, a, SET).env;
    FiredSame(e1);
    OwnFlushFaults(Fired(e1), a, actions);
    SlotFaults(e1, [actions]);
    LuaLeads(e, DoPost(a, SET), [NextSim, BeginPass, FireFlush([actions])]);
  }
}
