/** The protocol results as statements about runs from the initial state. */
module SchedResults {
  import opened Common
  import opened PutModel
  import opened PutHistory
  import opened PutInvariant
  import opened PutFlush
  import opened SchedModel
  import opened SchedProofs

  /** `d` is reached by some run of simulator and coroutines. */
  ghost predicate Reached(e: Env, events: seq<Event>, d: Env) {
    Initial(e) && Handles(d) && RunOf(e, events) && After(e, events) == Ok(d)
  }

  lemma ReachedProto(e: Env, events: seq<Event>, d: Env)
    requires Reached(e, events, d)
    ensures Proto(d) && d.innerStep == e.innerStep
  {
    InitialProto(e);
    RunKeeps(e, events);
  }

  /**
   Single heartbeat. Where libverilua drives itself: never two cbNextSimTime registrations; and when
   there is none, the flush that makes the next one is outstanding, so the driver never dies. Where
   the main loop drives it: never a registration, and from the first step on a slot whose flush is
   not over has it outstanding.
   */
  lemma SingleHeartbeat(e: Env, events: seq<Event>, d: Env)
    requires Reached(e, events, d)
    ensures d.innerStep == e.innerStep
    ensures !d.innerStep ==>
            && d.sim.nextSim <= 1
            && (d.sim.nextSim == 0 ==> !d.rwPassed && Flushes(d) >= 1)
            && (Enabled(d, EndPass) ==> d.sim.nextSim == 1)
    ensures d.innerStep ==>
            && d.sim.nextSim == 0
            && (d.sim.stepped ==> d.rwPassed || Flushes(d) >= 1)
            && (Enabled(d, EndPass) && d.sim.stepped ==> d.rwPassed)
  {
    ReachedProto(e, events, d);
  }

  /** The two flags cannot be misread: a re-registration is only remembered in its slot, while its flush is outstanding. */
  lemma ReRegisteredMeansOutstanding(e: Env, events: seq<Event>, d: Env)
    requires Reached(e, events, d)
    ensures d.reReg ==> d.rwPassed && Flushes(d) >= 1
  {
    ReachedProto(e, events, d);
  }

  /** No reachable state is stuck: a pass goes on until it ends, and after an evaluation the next one can begin. */
  lemma PassesGoOn(e: Env, events: seq<Event>, d: Env)
    requires Reached(e, events, d)
    ensures d.sim.inPass ==>
      || (forall o | OracleOk(d.beats, o) :: Enabled(d, FireFlush(o)))
      || (d.sim.awaitNow != [] && forall o | OracleOk(d.beats, o) :: Enabled(d, FireAwait(0, o)))
      || Enabled(d, EndPass)
    ensures !d.sim.inPass ==>
      Enabled(d, Eval) && Handles(Step(d, Eval).env) && Enabled(Step(d, Eval).env, BeginPass)
  {
    ReachedProto(e, events, d);
  }

  /** No stranded write, whoever drives the steps: what waits has a flush coming, except before the first NextSim. */
  lemma NoStrandedWrite(e: Env, events: seq<Event>, d: Env)
    requires Reached(e, events, d)
    ensures d.queue != [] ==> Flushes(d) >= 1 || (!d.sim.stepped && !d.rwPassed)
    ensures HasPendingPutValues(d) && !d.sim.inPass ==> d.sim.flushNext >= 1
    ensures d.rwPassed && !HasPendingPutValues(d) ==> d.queue == [] && d.bak == []
    ensures d.bak == [] && !d.useBak
  {
    ReachedProto(e, events, d);
  }

  /** Steps between the begin and the end of one pass. */
  predicate WithinPass(events: seq<Event>) {
    forall ev | ev in events :: !ev.BeginPass? && !ev.EndPass?
  }

  lemma {:induction false} PassKeepsMark(e: Env, events: seq<Event>, d: Env)
    requires Proto(e) && e.sim.inPass && WithinPass(events) && RunOf(e, events) && After(e, events) == Ok(d)
    ensures Proto(d) && d.sim.inPass && d.sim.passMark == e.sim.passMark && d.sim.passQueue == e.sim.passQueue
    ensures d.sim.stepped == e.sim.stepped
    decreases |events|
  {
    if events != [] {
      var ev := events[0];
      assert ev in events;
      StepKeeps(e, ev);
      var e1 := Step(e, ev).env;
      PassStep(e, ev);
      assert WithinPass(events[1..]);
      PassKeepsMark(e1, events[1..], d);
    }
  }

  ghost predicate SamePass(e: Env, d: Env) {
    d.sim.inPass == e.sim.inPass && d.sim.passMark == e.sim.passMark && d.sim.passQueue == e.sim.passQueue
    && d.sim.stepped == e.sim.stepped
  }

  lemma FlushSamePass(e: Env, oracle: Oracle)
    requires QueuesKnown(e) && !e.useBak && OracleOk(e.beats, oracle) && ApplyPending(e, oracle).outcome.Ok?
    ensures SamePass(e, ApplyPending(e, oracle).outcome.env)
  {
    FlushEffect(e, oracle);
  }

  lemma FireFlushSamePass(e: Env, o: Oracle)
    requires Handles(e) && !e.useBak && Enabled(e, FireFlush(o)) && Step(e, FireFlush(o)).Ok?
    ensures SamePass(e, Step(e, FireFlush(o)).env)
  {
    hide ApplyPending;
    FlushSamePass(e.(sim := e.sim.(flushNow := e.sim.flushNow - 1)), o);
  }

  lemma FireAwaitSamePass(e: Env, i: nat, o: Oracle)
    requires Handles(e) && !e.useBak && Enabled(e, FireAwait(i, o)) && Step(e, FireAwait(i, o)).Ok?
    ensures SamePass(e, Step(e, FireAwait(i, o)).env)
  {
    hide ApplyFrom;
    var fired := e.(sim := e.sim.(awaitNow := e.sim.awaitNow[..i] + e.sim.awaitNow[i + 1..]));
    hide ApplyPending;
    FlushSamePass(fired, o);
    assert SamePass(e, fired);
    var d := ApplyPending(fired, o).outcome.env;
    assert Step(e, FireAwait(i, o)).env == Judge(d, e.sim.awaitNow[i]);
  }

  lemma PassStep(e: Env, ev: Event)
    requires Handles(e) && !e.useBak && e.sim.inPass
    requires Enabled(e, ev) && !ev.BeginPass? && !ev.EndPass? && Step(e, ev).Ok?
    ensures SamePass(e, Step(e, ev).env)
  {
    match ev
    case Lua(a) => QuietAct(e, a);
    case FireFlush(o) => FireFlushSamePass(e, o);
    case FireAwait(i, o) => FireAwaitSamePass(e, i, o);
    case _ =>
  }

  /**
   Whenever verilator_has_pending_put_values is true, and in fact in every pass after the first
   NextSim, the next ReadWrite pass drains the queue: by its end every write that was waiting has
   been committed or cancelled. On inner-step builds, the ones that ask, as well as on all others.
   */
  lemma PendingIsDrained(e: Env, before: seq<Event>, d: Env, pass: seq<Event>, last: Env)
    requires Reached(e, before, d) && !d.sim.inPass
    requires HasPendingPutValues(d) || d.sim.stepped
    requires Enabled(d, BeginPass) && WithinPass(pass)
    requires RunOf(Step(d, BeginPass).env, pass) && After(Step(d, BeginPass).env, pass) == Ok(last)
    requires Handles(last) && Enabled(last, EndPass)
    ensures forall h | h in d.queue :: SettledSince(last.hist, |d.hist|, h)
  {
    ReachedProto(e, before, d);
    BeginPassKeeps(d);
    var begun := Step(d, BeginPass).env;
    PassKeepsMark(begun, pass, last);
    assert last.sim.flushNow == 0;
    assert Drains(last) && Beating(last);
  }

  /**
   await_rw safety: a task resumes only when nothing is queued and, given fewer than 2^64 flushes
   since its latest registration, only when no flush has committed a value since then; the design
   was therefore evaluated after the last commit.
   */
  lemma AwaitResumesSettled(e: Env, events: seq<Event>, d: Env, r: Resume)
    requires Reached(e, events, d) && r in d.sim.resumed
    ensures r.queueEmpty
    ensures r.total - r.await.since < EPOCH_LIMIT ==> r.total == r.await.since && !r.dirty
    ensures r.loose ==> Released(r.pass)
  {
    ReachedProto(e, events, d);
  }

  /** await_rw progress: a waiting task was deferred at most once per committing flush. */
  lemma AwaitDeferredPerFlush(e: Env, events: seq<Event>, d: Env, a: Await)
    requires Reached(e, events, d) && (a in d.sim.awaitNow || a in d.sim.awaitNext)
    ensures a.deferrals <= a.since - a.born <= d.sim.total - a.born
  {
    ReachedProto(e, events, d);
    if a in d.sim.awaitNow {
      assert AwaitOk(d.sim.total, a);
    } else {
      assert AwaitOk(d.sim.total, a);
    }
  }

  /** Each value committed in a run was the winning write of its handle's log at that moment. */
  lemma CommitsAreWinners(e: Env, events: seq<Event>, d: Env, p: nat)
    requires Reached(e, events, d) && p < |d.hist| && d.hist[p].Committed?
    ensures var put := d.hist[p].put;
            var live := Live(d.hist[..p], put.handle);
            put.handle in d.beats && live != [] && OpOk(d.beats[put.handle], Winner(live).op)
            && Delivers(d.beats[put.handle], put, Winner(live).op)
  {
    ReachedProto(e, events, d);
    assert CommitFit(d.beats, d.hist, p);
  }

  /** A run ends in a fault only if a write made inside a put hits the vector being applied. */
  lemma OnlyFault(e: Env, events: seq<Event>)
    requires Initial(e) && RunOf(e, events) && After(e, events).Err?
    ensures After(e, events).fault == BatchChanged && e.hasBak
  {
    InitialProto(e);
    RunKeeps(e, events);
  }
}
