/**
 Deferred writes of libverilua: `set`, `force` and `release` are arbitrated per handle, queued, and
 committed by `apply_pending_put_values`.  Each operation is a function of the environment; a
 `Fault` is the panic or undefined behaviour it would run into.
 */
module PutModel {
  import opened Common

  type Handle = nat  // the vpi_handle; one ComplexHandle per vpi_handle

  const WORD_LIMIT := 0x1_0000_0000
  type Word = x: int | 0 <= x < WORD_LIMIT
  type Word64 = x: int | 0 <= x < WORD_LIMIT * WORD_LIMIT

  const EPOCH_LIMIT := 0x1_0000_0000_0000_0000  // flush_epoch is a u64
  const MAX_VECTOR_SIZE := 32

  datatype Flag = NoDelay | Force | Release
  datatype Format = Vector | HexStr | BinStr | DecStr
  datatype VecVal = VecVal(aval: Word, bval: Word)

  const ZERO := VecVal(0, 0)

  /** What a setter writes into the handle's buffers. */
  datatype Write =
    | Value32(v: Word)                    // vpiml_<action>_value
    | Value64(v64: Word64)                // vpiml_<action>_value64
    | Single64(s64: Word64)               // vpiml_<action>_value64_force_single
    | Multi(words: seq<Word>)             // vpiml_<action>_value_multi
    | MultiBeat(beats: seq<Word>)         // vpiml_<action>_value_multi_beat_N
    | Text(format: Format, text: string)  // the string setters
    | Current(read: seq<VecVal>)          // vpiml_release_value: the value read back

  datatype Op = Op(flag: Flag, write: Write)

  /** put_value_vectors: a fixed buffer, of which the first beat_num words belong to the signal. */
  type Buffer = v: seq<VecVal> | |v| == MAX_VECTOR_SIZE witness seq(MAX_VECTOR_SIZE, _ => ZERO)
  type BeatNum = n: nat | 1 <= n <= MAX_VECTOR_SIZE witness 1

  datatype HandleState = HandleState(flag: Option<Flag>, format: Format, vectors: Buffer, str: string)

  /** The words a setter needs from its caller for a handle of this width. */
  predicate WriteOk(beatNum: BeatNum, w: Write) {
    match w
    case Multi(words) => |words| >= beatNum
    case MultiBeat(beats) => 2 <= |beats| <= 8
    case Text(format, _) => format != Vector
    case Current(read) => |read| == beatNum
    case _ => true
  }

  predicate OpOk(beatNum: BeatNum, op: Op) {
    WriteOk(beatNum, op.write) && (op.flag == Release <==> op.write.Current?)
  }

  function WriteFormat(w: Write): Format {
    if w.Text? then w.format else Vector
  }

  /** The buffer after a setter: only the words and planes it assigns change. */
  function WriteVectors(beatNum: BeatNum, buf: Buffer, w: Write): Buffer
    requires WriteOk(beatNum, w)
  {
    match w
    case Value32(v) => buf[0 := buf[0].(aval := v)]
    case Value64(v) =>
      seq(MAX_VECTOR_SIZE, i requires 0 <= i < MAX_VECTOR_SIZE =>
        if i == 0 then VecVal(v % WORD_LIMIT, 0)
        else if i == 1 then VecVal(v / WORD_LIMIT, 0)
        else if i < beatNum then ZERO
        else buf[i])
    case Single64(v) =>
      seq(MAX_VECTOR_SIZE, i requires 0 <= i < MAX_VECTOR_SIZE =>
        var cleared := if i < beatNum then ZERO else buf[i];
        if i == 0 then cleared.(aval := v % WORD_LIMIT)
        else if i == 1 then cleared.(aval := v / WORD_LIMIT)
        else cleared)
    case Multi(words) =>
      seq(MAX_VECTOR_SIZE, i requires 0 <= i < MAX_VECTOR_SIZE =>
        if i < beatNum then VecVal(words[i], 0) else buf[i])
    case MultiBeat(beats) =>
      seq(MAX_VECTOR_SIZE, i requires 0 <= i < MAX_VECTOR_SIZE =>
        if i < |beats| then buf[i].(aval := beats[i]) else buf[i])
    case Text(_, _) => buf
    case Current(read) =>
      seq(MAX_VECTOR_SIZE, i requires 0 <= i < MAX_VECTOR_SIZE =>
        if i < beatNum then read[i] else buf[i])
  }

  function WriteHandle(beatNum: BeatNum, h: HandleState, op: Op): HandleState
    requires OpOk(beatNum, op)
  {
    HandleState(Some(op.flag),
                WriteFormat(op.write),
                WriteVectors(beatNum, h.vectors, op.write),
                if op.write.Text? then op.write.text else h.str)
  }

  /** What vpi_put_value receives. */
  datatype Payload = Words(words: seq<VecVal>) | Str(format: Format, text: string)
  datatype Put = Put(handle: Handle, flag: Flag, payload: Payload)

  function PayloadOf(beatNum: BeatNum, h: HandleState): Payload {
    if h.format == Vector then Words(h.vectors[..beatNum]) else Str(h.format, h.str)
  }

  /** History: every deferred write posted, every immediate release put, every value committed by a flush. */
  datatype Entry =
    | Posted(handle: Handle, op: Op)
    | ReleasedNow(handle: Handle)
    | Committed(put: Put)

  /** A cbReadWriteSynch registration of await_rw, with the number of committing flushes before it. */
  datatype Await = Await(task: nat, epoch: nat, since: nat, born: nat, deferrals: nat)

  /** A resumed task: what was unsettled then, and the log of the pass so far. */
  datatype Resume = Resume(task: nat, await: Await, queueEmpty: bool, dirty: bool, loose: bool, total: nat, pass: seq<Entry>)

  /**
   hs, queue, bak, useBak, rwPassed, reReg, epoch   fields of VeriluaEnv and its handles
   beats      beat_num of every handle, fixed
   hasBak     vcs or iverilog: vpi_put_value runs value-change callbacks before it returns
   innerStep  verilator_inner_step_callback: the main loop calls the NextSimTime function itself
   flushNow, awaitNow     cbReadWriteSynch callbacks of the pass under way
   flushNext, awaitNext   those registered for a later pass
   nextSim    cbNextSimTime registrations of the driver
   stepped    libverilua_next_sim_time_cb has run at least once
   inPass     the simulator is calling cbReadWriteSynch callbacks
   dirty      a flush committed a value and the design was not evaluated since
   loose      an immediate release was put and the design was not evaluated since
   total, passTotal   committing flushes so far, and when the pass began
   passMark, passQueue   length of the history and the queue when the pass began
   */
  datatype Env = Env(
    hasBak: bool,
    innerStep: bool,
    beats: map<Handle, BeatNum>,
    hs: map<Handle, HandleState>,
    queue: seq<Handle>,
    bak: seq<Handle>,
    useBak: bool,
    rwPassed: bool,
    reReg: bool,
    epoch: nat,
    hist: seq<Entry>,
    sim: Sim)

  datatype Sim = Sim(
    flushNow: nat, flushNext: nat, awaitNow: seq<Await>, awaitNext: seq<Await>, nextSim: nat, stepped: bool,
    inPass: bool, dirty: bool, loose: bool, total: nat, passTotal: nat, passMark: nat, passQueue: seq<Handle>,
    resumed: seq<Resume>)

  predicate Handles(e: Env) {
    e.hs.Keys == e.beats.Keys
  }

  datatype Fault =
    | StaleEntryMissing   // the assertion in try_put_value
    | FlagMissing         // unwrap_unchecked of an absent put_value_flag
    | BatchChanged        // the vector being applied is modified under its iterator

  datatype Outcome = Ok(env: Env) | Err(fault: Fault)

  // ---- posting ----

  ghost predicate SameHandles(e: Env, e': Env) {
    e'.hs.Keys == e.hs.Keys && e'.beats == e.beats && e'.hasBak == e.hasBak && e'.innerStep == e.innerStep
  }

  function Remove(q: seq<Handle>, h: Handle): (r: seq<Handle>)
    requires h in q
    ensures |r| == |q| - 1 && forall x | x in r :: x in q
  {
    if q[0] == h then q[1..] else [q[0]] + Remove(q[1..], h)
  }

  /** A pending force is only replaced by another force or a release. */
  predicate Rejects(h: HandleState, flag: Flag) {
    h.flag == Some(Force) && flag == NoDelay
  }

  /** Take the stale entry of a handle that is already pending out of the queue that holds it. */
  function DropStale(e: Env, h: Handle): (r: Outcome)
    ensures r.Ok? ==> r.env == e.(queue := r.env.queue, bak := r.env.bak)
  {
    if h in e.queue then Ok(e.(queue := Remove(e.queue, h)))
    else if e.hasBak && h in e.bak then Ok(e.(bak := Remove(e.bak, h)))
    else Err(StaleEntryMissing)
  }

  /** A handle that is already pending must give up its place. */
  function Unqueued(e: Env, h: Handle): (r: Outcome)
    requires h in e.hs
    ensures r.Ok? ==> r.env == e.(queue := r.env.queue, bak := r.env.bak)
  {
    if e.hs[h].flag.Some? then DropStale(e, h) else Ok(e)
  }

  /** do_push_hdl_put_value. */
  function Push(e: Env, h: Handle): (r: Env)
    ensures r.hs == e.hs && SameHandles(e, r)
  {
    var pushed := if e.hasBak && e.useBak then e.(bak := e.bak + [h]) else e.(queue := e.queue + [h]);
    if e.rwPassed && !e.reReg then
      pushed.(reReg := true, sim := e.sim.(flushNext := e.sim.flushNext + 1))
    else pushed
  }

  /** A deferred set, force or release. */
  function Post(e: Env, h: Handle, op: Op): (r: Outcome)
    requires h in e.beats && Handles(e) && OpOk(e.beats[h], op)
    ensures r.Ok? ==> SameHandles(e, r.env)
  {
    var logged := e.(hist := e.hist + [Posted(h, op)]);
    if Rejects(e.hs[h], op.flag) then Ok(logged)
    else
      match Unqueued(logged, h)
      case Err(f) => Err(f)
      case Ok(c) => Ok(Push(c.(hs := c.hs[h := WriteHandle(e.beats[h], e.hs[h], op)]), h))
  }

  /** vpiml_release_imm_value: drop a pending write and put the release at once. */
  function ReleaseImm(e: Env, h: Handle): (r: Env)
    requires h in e.beats && Handles(e)
    ensures r == e.(hist := e.hist + [ReleasedNow(h)], sim := e.sim.(loose := true), hs := r.hs, queue := r.queue, bak := r.bak)
    ensures r.hs.Keys == e.hs.Keys
  {
    var logged := e.(hist := e.hist + [ReleasedNow(h)], sim := e.sim.(loose := true));
    var idle := e.hs[h := e.hs[h].(flag := None)];
    if h in e.queue then logged.(queue := Remove(e.queue, h), hs := idle)
    else if e.hasBak && h in e.bak then logged.(bak := Remove(e.bak, h), hs := idle)
    else logged
  }

  /** vpiml_register_rw_synch_callback. */
  function RegisterAwait(e: Env, task: nat): Env {
    e.(sim := e.sim.(awaitNext := e.sim.awaitNext + [Await(task, e.epoch, e.sim.total, e.sim.total, 0)]))
  }

  /** What a Lua coroutine may do to the environment while it runs. */
  datatype Action =
    | DoPost(handle: Handle, op: Op)
    | DoReleaseImm(handle: Handle)
    | DoAwait(task: nat)

  predicate ActionOk(beats: map<Handle, BeatNum>, a: Action) {
    match a
    case DoPost(h, op) => h in beats && OpOk(beats[h], op)
    case DoReleaseImm(h) => h in beats
    case DoAwait(_) => true
  }

  predicate ActionsOk(beats: map<Handle, BeatNum>, actions: seq<Action>) {
    forall a | a in actions :: ActionOk(beats, a)
  }

  function Act(e: Env, a: Action): (r: Outcome)
    requires Handles(e) && ActionOk(e.beats, a)
    ensures r.Ok? ==> SameHandles(e, r.env)
  {
    match a
    case DoPost(h, op) => Post(e, h, op)
    case DoReleaseImm(h) => Ok(ReleaseImm(e, h))
    case DoAwait(task) => Ok(RegisterAwait(e, task))
  }

  // ---- flushing ----

  /** The put of one handle in do_apply_pending_put_values: the flag is taken before vpi_put_value runs. */
  function Commit(e: Env, h: Handle): Outcome
    requires h in e.beats && Handles(e)
  {
    match e.hs[h].flag
    case None => Err(FlagMissing)
    case Some(flag) =>
      Ok(e.(hs := e.hs[h := e.hs[h].(flag := None)],
            hist := e.hist + [Committed(Put(h, flag, PayloadOf(e.beats[h], e.hs[h])))],
            sim := e.sim.(dirty := true)))
  }

  /** The actions run inside one vpi_put_value; touching the queue being applied is a fault. */
  function Reenter(e: Env, actions: seq<Action>): (r: Outcome)
    requires Handles(e) && ActionsOk(e.beats, actions)
    ensures r.Ok? ==> SameHandles(e, r.env) && r.env.queue == e.queue
    decreases |actions|
  {
    if actions == [] then Ok(e)
    else
      match Act(e, actions[0])
      case Err(f) => Err(f)
      case Ok(e') =>
        if e'.queue != e.queue then Err(BatchChanged)
        else Reenter(e', actions[1..])
  }

  /** The actions the simulator runs inside successive puts; beyond its end there are none. */
  type Oracle = seq<seq<Action>>

  predicate OracleOk(beats: map<Handle, BeatNum>, oracle: Oracle) {
    forall i | 0 <= i < |oracle| :: ActionsOk(beats, oracle[i])
  }

  datatype Applied = Applied(outcome: Outcome, rest: Oracle)

  function Upcoming(oracle: Oracle): seq<Action> {
    if oracle == [] then [] else oracle[0]
  }

  function Later(oracle: Oracle): Oracle {
    if oracle == [] then [] else oracle[1..]
  }

  /** Only vcs and iverilog run callbacks before vpi_put_value returns. */
  function Inside(e: Env, oracle: Oracle): seq<Action> {
    if e.hasBak then Upcoming(oracle) else []
  }

  /** One iteration of the loop: commit, then run what the simulator runs inside the put. */
  function ApplyOne(e: Env, i: nat, oracle: Oracle): (r: Outcome)
    requires i < |e.queue| && Handles(e) && OracleOk(e.beats, oracle) && e.queue[i] in e.beats
    ensures r.Ok? ==> SameHandles(e, r.env) && r.env.queue == e.queue
    ensures r.Ok? && oracle == [] ==> r.env.bak == e.bak
  {
    match Commit(e, e.queue[i])
    case Err(f) => Err(f)
    case Ok(c) => Reenter(c, Inside(c, oracle))
  }

  /** do_apply_pending_put_values from position `i` of the queue on, without the final clear. */
  function ApplyFrom(e: Env, i: nat, oracle: Oracle): (r: Applied)
    requires i <= |e.queue| && Handles(e) && OracleOk(e.beats, oracle)
    requires forall h | h in e.queue :: h in e.beats
    ensures |r.rest| <= |oracle| && OracleOk(e.beats, r.rest)
    ensures oracle != [] && i < |e.queue| && r.outcome.Ok? ==> |r.rest| < |oracle|
    ensures r.outcome.Ok? ==> SameHandles(e, r.outcome.env) && r.outcome.env.queue == e.queue
    ensures r.outcome.Ok? && oracle == [] ==> r.outcome.env.bak == e.bak
    decreases |e.queue| - i
  {
    if i == |e.queue| then Applied(Ok(e), oracle)
    else
      match ApplyOne(e, i, oracle)
      case Err(f) => Applied(Err(f), Later(oracle))
      case Ok(d) => ApplyFrom(d, i + 1, Later(oracle))
  }

  predicate QueuesKnown(e: Env) {
    Handles(e) && (forall h | h in e.queue :: h in e.beats) && forall h | h in e.bak :: h in e.beats
  }

  /** The applied queue cleared and the backup queue appended in its place. */
  function Swapped(d: Env): Env {
    d.(queue := d.bak, bak := [])
  }

  /** The loop of apply_pending_put_values on vcs and iverilog: until both queues are empty. */
  function Rounds(e: Env, oracle: Oracle): (r: Applied)
    requires QueuesKnown(e) && OracleOk(e.beats, oracle)
    ensures OracleOk(e.beats, r.rest)
    ensures r.outcome.Ok? ==> SameHandles(e, r.outcome.env)
    decreases |oracle|, |e.queue| + |e.bak|
  {
    if e.queue == [] then Applied(Ok(e), oracle)
    else
      var a := ApplyFrom(e, 0, oracle);
      match a.outcome
      case Err(f) => a
      case Ok(d) =>
        ApplyFromKnown(e, 0, oracle);
        Rounds(Swapped(d), a.rest)
  }

  lemma {:induction false} ReenterKnown(e: Env, actions: seq<Action>)
    requires QueuesKnown(e) && ActionsOk(e.beats, actions)
    ensures Reenter(e, actions).Ok? ==> QueuesKnown(Reenter(e, actions).env)
    decreases |actions|
  {
    if actions != [] {
      ActKnown(e, actions[0]);
      if Act(e, actions[0]).Ok? && Act(e, actions[0]).env.queue == e.queue {
        ReenterKnown(Act(e, actions[0]).env, actions[1..]);
      }
    }
  }

  lemma ActKnown(e: Env, a: Action)
    requires QueuesKnown(e) && ActionOk(e.beats, a)
    ensures Act(e, a).Ok? ==> QueuesKnown(Act(e, a).env)
  {
    match a
    case DoPost(h, op) =>
      PostKnown(e, h, op);
    case DoReleaseImm(_) =>
    case DoAwait(_) =>
  }

  lemma PushKnown(e: Env, h: Handle)
    requires QueuesKnown(e) && h in e.beats
    ensures QueuesKnown(Push(e, h))
  {
  }

  lemma PostKnown(e: Env, h: Handle, op: Op)
    requires QueuesKnown(e) && h in e.beats && OpOk(e.beats[h], op)
    ensures Post(e, h, op).Ok? ==> QueuesKnown(Post(e, h, op).env)
  {
    var logged := e.(hist := e.hist + [Posted(h, op)]);
    var cleared := Unqueued(logged, h);
    hide Push, WriteHandle;
    if cleared.Ok? {
      PushKnown(cleared.env.(hs := cleared.env.hs[h := WriteHandle(e.beats[h], e.hs[h], op)]), h);
      var c := cleared.env;
      assert forall x | x in c.queue :: x in e.beats;
      assert forall x | x in c.bak :: x in e.beats;
    }
  }

  lemma ApplyOneKnown(e: Env, i: nat, oracle: Oracle)
    requires i < |e.queue| && QueuesKnown(e) && OracleOk(e.beats, oracle)
    ensures ApplyOne(e, i, oracle).Ok? ==> QueuesKnown(ApplyOne(e, i, oracle).env)
  {
    var r := Commit(e, e.queue[i]);
    if r.Ok? {
      assert QueuesKnown(r.env);
      ReenterKnown(r.env, Inside(r.env, oracle));
    }
  }

  lemma {:induction false} ApplyFromKnown(e: Env, i: nat, oracle: Oracle)
    requires i <= |e.queue| && QueuesKnown(e) && OracleOk(e.beats, oracle)
    ensures ApplyFrom(e, i, oracle).outcome.Ok? ==> QueuesKnown(ApplyFrom(e, i, oracle).outcome.env)
    decreases |e.queue| - i
  {
    if i < |e.queue| {
      ApplyOneKnown(e, i, oracle);
      if ApplyOne(e, i, oracle).Ok? {
        ApplyFromKnown(ApplyOne(e, i, oracle).env, i + 1, Later(oracle));
      }
    }
  }

  /** The environment as a flush starts on its queue. */
  function Started(e: Env): Env {
    e.(epoch := (e.epoch + 1) % EPOCH_LIMIT,
       sim := e.sim.(total := e.sim.total + 1),
       useBak := e.hasBak || e.useBak)
  }

  /** apply_pending_put_values. */
  function ApplyPending(e: Env, oracle: Oracle): (r: Applied)
    requires QueuesKnown(e) && OracleOk(e.beats, oracle)
    ensures OracleOk(e.beats, r.rest)
    ensures r.outcome.Ok? ==> SameHandles(e, r.outcome.env)
  {
    if e.queue == [] then Applied(Ok(e), oracle)
    else if e.hasBak then
      var r := Rounds(Started(e), oracle);
      match r.outcome
      case Err(f) => r
      case Ok(d) => Applied(Ok(d.(useBak := false)), r.rest)
    else
      var r := ApplyFrom(Started(e), 0, oracle);
      match r.outcome
      case Err(f) => r
      case Ok(d) => Applied(Ok(d.(queue := [])), r.rest)
  }
}
