/**
 The time-slot protocol around the deferred writes: the flush callback, await_rw callbacks and the
 NextSimTime driver as steps between the environment and the simulator's lists of callbacks.
 */
module SchedModel {
  import opened Common
  import opened PutModel

  /**
   Eval        the design settles
   BeginPass, EndPass   one round of cbReadWriteSynch calls: exactly the callbacks registered before it
   FireFlush, FireAwait   one of those calls, with the writes the simulator runs inside its puts
   NextSim     libverilua_next_sim_time_cb, from its callback or from the main loop of Verilator
   Lua         an action of a coroutine, in any phase
   */
  datatype Event =
    | Lua(action: Action)
    | Eval
    | BeginPass
    | FireFlush(oracle: Oracle)
    | FireAwait(i: nat, oracle: Oracle)
    | EndPass
    | NextSim

  /** After initialisation, before time advances: the driver's first cbNextSimTime is registered, where there is one. */
  ghost predicate Initial(e: Env) {
    && Handles(e) && (forall h | h in e.hs :: e.hs[h].flag == None)
    && e.queue == [] && e.bak == [] && !e.useBak && e.hist == []
    && !e.rwPassed && !e.reReg && e.epoch == 0
    && e.sim == Sim(0, 0, [], [], if e.innerStep then 0 else 1, false, false, false, false, 0, 0, 0, [], [])
  }

  /** When the simulator may take a step; an evaluation precedes every pass. */
  predicate Enabled(e: Env, ev: Event)
    requires Handles(e)
  {
    match ev
    case Lua(a) => ActionOk(e.beats, a)
    case Eval => !e.sim.inPass
    case BeginPass => !e.sim.inPass && !e.sim.dirty && !e.sim.loose
    case FireFlush(o) => e.sim.inPass && e.sim.flushNow > 0 && QueuesKnown(e) && OracleOk(e.beats, o)
    case FireAwait(i, o) => e.sim.inPass && i < |e.sim.awaitNow| && QueuesKnown(e) && OracleOk(e.beats, o)
    case EndPass => e.sim.inPass && e.sim.flushNow == 0 && e.sim.awaitNow == []
    case NextSim => !e.sim.inPass && (e.innerStep || e.sim.nextSim > 0)
  }

  /** libverilua_flush_put_values after its flush. */
  function FlushDone(d: Env): Env {
    d.(sim := if d.rwPassed || d.innerStep then d.sim else d.sim.(nextSim := d.sim.nextSim + 1),
       rwPassed := true,
       reReg := false)
  }

  function FlushCallback(e: Env, oracle: Oracle): Outcome
    requires QueuesKnown(e) && OracleOk(e.beats, oracle)
  {
    match ApplyPending(e, oracle).outcome
    case Err(f) => Err(f)
    case Ok(d) => Ok(FlushDone(d))
  }

  /** The log since the pass began. */
  function PassLog(e: Env): seq<Entry> {
    if e.sim.passMark <= |e.hist| then e.hist[e.sim.passMark..] else []
  }

  /** rw_synch_callback after its flush: defer if a flush happened since the registration. */
  function Judge(d: Env, a: Await): Env {
    if d.epoch != a.epoch then
      var again := Await(a.task, d.epoch, d.sim.total, a.born, a.deferrals + 1);
      d.(sim := d.sim.(awaitNext := d.sim.awaitNext + [again]))
    else
      var r := Resume(a.task, a, d.queue == [] && d.bak == [], d.sim.dirty, d.sim.loose, d.sim.total, PassLog(d));
      d.(sim := d.sim.(resumed := d.sim.resumed + [r]))
  }

  function AwaitCallback(e: Env, a: Await, oracle: Oracle): Outcome
    requires QueuesKnown(e) && OracleOk(e.beats, oracle)
  {
    match ApplyPending(e, oracle).outcome
    case Err(f) => Err(f)
    case Ok(d) => Ok(Judge(d, a))
  }

  /** The part of libverilua_next_sim_time_cb that concerns the deferred writes. */
  function NextSimCallback(e: Env): Env {
    e.(rwPassed := false,
       reReg := false,
       sim := e.sim.(flushNext := e.sim.flushNext + 1, stepped := true))
  }

  function Step(e: Env, ev: Event): Outcome
    requires Handles(e) && Enabled(e, ev)
  {
    var s := e.sim;
    match ev
    case Lua(a) => Act(e, a)
    case Eval => Ok(e.(sim := s.(dirty := false, loose := false)))
    case BeginPass =>
      Ok(e.(sim := s.(flushNow := s.flushNext, flushNext := 0, awaitNow := s.awaitNext, awaitNext := [],
                      inPass := true, passTotal := s.total, passMark := |e.hist|, passQueue := e.queue)))
    case FireFlush(o) => FlushCallback(e.(sim := s.(flushNow := s.flushNow - 1)), o)
    case FireAwait(i, o) =>
      AwaitCallback(e.(sim := s.(awaitNow := s.awaitNow[..i] + s.awaitNow[i + 1..])), s.awaitNow[i], o)
    case EndPass => Ok(e.(sim := s.(inPass := false)))
    case NextSim => Ok(NextSimCallback(if e.innerStep then e else e.(sim := s.(nextSim := s.nextSim - 1))))
  }

  /** verilator_has_pending_put_values. */
  predicate HasPendingPutValues(e: Env) {
    e.rwPassed && e.queue != []
  }

  // ---- runs ----

  ghost predicate RunOf(e: Env, events: seq<Event>)
    decreases |events|
  {
    events == [] ||
    (Handles(e) && Enabled(e, events[0]) &&
     (Step(e, events[0]).Ok? ==> RunOf(Step(e, events[0]).env, events[1..])))
  }

  ghost function After(e: Env, events: seq<Event>): Outcome
    requires RunOf(e, events)
    decreases |events|
  {
    if events == [] then Ok(e)
    else
      match Step(e, events[0])
      case Err(f) => Err(f)
      case Ok(d) => After(d, events[1..])
  }
}
