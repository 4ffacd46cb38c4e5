/**
 Edge-callback batching of libverilua (features opt_cb_task, chunk_task and merge_cb): the state
 shared by the register macro, the generated chunk callbacks and the NextSimTime driver, and each
 of their actions as a function of that state.  `None` stands for a panic.
 */
module EdgeModel {
  import opened Common

  type Signal = nat
  type TaskId = nat
  type CbId = nat

  datatype EdgeType = Posedge | Negedge | Edge
  datatype EdgeValue = Low | High | DontCare

  /** A task waits for one edge type of one signal. */
  datatype Key = Key(signal: Signal, edge: EdgeType)
  datatype Wait = Wait(key: Key, task: TaskId)

  /** User data of one armed chunk callback. */
  datatype Reg = Reg(key: Key, tasks: seq<TaskId>)

  /** One entry of pending_<edge>_cb_chunk: the three hash tables are told apart by the edge. */
  datatype Slot = Slot(edge: EdgeType, id: CbId)
  datatype Parked = Parked(signal: Signal, tasks: seq<TaskId>)

  const MAX_CHUNK := 16

  /** The value delivered with a value change, cut to a byte before it is classified. */
  function ReadEdgeValue(v: int): Option<EdgeValue> {
    match v % 256
    case 0 => Some(Low)
    case 1 => Some(High)
    case 2 => Some(DontCare)
    case _ => None
  }

  function ExpectedValue(edge: EdgeType): EdgeValue {
    match edge
    case Posedge => High
    case Negedge => Low
    case Edge => DontCare
  }

  predicate Matches(edge: EdgeType, v: int) {
    var read := ReadEdgeValue(v);
    read.Some? && (read.value == ExpectedValue(edge) || ExpectedValue(edge) == DontCare)
  }

  /**
   count        posedge/negedge/edge_cb_count of every handle
   pending      pending_<edge>_cb_map
   parked       pending_<edge>_cb_chunk: callbacks kept armed after firing
   slab         edge_cb_slab, with the user data of the callback in each slot
   due          callbacks the simulator has still to call for a value change that happened
   firing       callbacks whose Lua tasks run now
   kept         callbacks that fired since the last arming and stayed in the slab
   registered, woken   history: every wait posted and every task resumed, in order
   */
  datatype State = State(
    count: map<Wait, nat>,
    pending: map<Key, seq<TaskId>>,
    parked: map<Slot, Parked>,
    slab: map<CbId, Reg>,
    due: set<CbId>,
    firing: set<CbId>,
    kept: set<CbId>,
    registered: seq<Wait>,
    woken: seq<Wait>)

  const INIT := State(map[], map[], map[], map[], {}, {}, {}, [], [])

  datatype Event =
    | Register(wait: Wait)
    | Change(signal: Signal, value: int)
    | Begin(id: CbId)
    | End(id: CbId)
    | Arm(order: seq<Slot>, keys: seq<Key>, ids: seq<CbId>)

  // ---- Register: vpiml_register_<edge>_callback_common ----

  function PendingOf(s: State, k: Key): seq<TaskId> {
    if k in s.pending then s.pending[k] else []
  }

  function CountOf(s: State, w: Wait): nat {
    if w in s.count then s.count[w] else 0
  }

  function AfterRegister(s: State, w: Wait): State {
    s.(count := s.count[w := CountOf(s, w) + 1],
       pending := s.pending[w.key := PendingOf(s, w.key) + [w.task]],
       registered := s.registered + [w])
  }

  // ---- Change: the simulator owes a call to every armed callback that matches ----

  predicate Hit(r: Reg, signal: Signal, v: int) {
    r.key.signal == signal && Matches(r.key.edge, v)
  }

  function AfterChange(s: State, signal: Signal, v: int): State {
    s.(due := s.due + set id | id in s.slab && Hit(s.slab[id], signal, v))
  }

  // ---- Begin / End: edge_callback_chunk_N around the Lua call ----

  function WaitsOf(r: Reg): seq<Wait> {
    seq(|r.tasks|, i requires 0 <= i < |r.tasks| => Wait(r.key, r.tasks[i]))
  }

  function AfterBegin(s: State, id: CbId): State
    requires id in s.slab
  {
    s.(due := s.due - {id}, firing := s.firing + {id}, woken := s.woken + WaitsOf(s.slab[id]))
  }

  datatype Counted = Counted(count: map<Wait, nat>, finished: seq<TaskId>)

  /** The loop over task_id_vec: a missing count is an unwrap of None, a zero one an underflow. */
  function Decrement(count: map<Wait, nat>, key: Key, tasks: seq<TaskId>): Option<Counted> {
    if tasks == [] then Some(Counted(count, []))
    else
      match Decrement(count, key, Front(tasks))
      case None => None
      case Some(c) =>
        var w := Wait(key, Last(tasks));
        if w !in c.count || c.count[w] == 0 then None
        else
          Some(Counted(c.count[w := c.count[w] - 1],
                       if c.count[w] == 1 then c.finished + [w.task] else c.finished))
  }

  function RemoveCounts(count: map<Wait, nat>, key: Key, tasks: seq<TaskId>): map<Wait, nat> {
    count - set t | t in tasks :: Wait(key, t)
  }

  function SlotOf(s: State, id: CbId): Slot
    requires id in s.slab
  {
    Slot(s.slab[id].key.edge, id)
  }

  function AfterEnd(s: State, id: CbId): Option<State>
    requires id in s.slab
  {
    var r := s.slab[id];
    var slot := SlotOf(s, id);
    match Decrement(s.count, r.key, r.tasks)
    case None => None
    case Some(c) =>
      if c.finished == [] then
        Some(s.(count := c.count,
                parked := if slot in s.parked then s.parked
                          else s.parked[slot := Parked(r.key.signal, r.tasks)],
                firing := s.firing - {id},
                kept := s.kept + {id}))
      else
        Some(s.(count := RemoveCounts(c.count, r.key, c.finished),
                parked := s.parked - {slot},
                slab := s.slab - {id},
                firing := s.firing - {id},
                kept := s.kept - {id}))
  }

  // ---- Arm: libverilua_next_sim_time_cb ----

  /** One iteration of process_cb_chunk. */
  function UnparkOne(pending: map<Key, seq<TaskId>>, key: Key, tasks: seq<TaskId>): map<Key, seq<TaskId>> {
    if key in pending && forall t | t in tasks :: t in pending[key] then
      var rest := Without(pending[key], tasks);
      if rest == [] then pending - {key} else pending[key := rest]
    else
      pending
  }

  function ParkedKey(parked: map<Slot, Parked>, slot: Slot): Key
    requires slot in parked
  {
    Key(parked[slot].signal, slot.edge)
  }

  function Unpark(pending: map<Key, seq<TaskId>>, parked: map<Slot, Parked>, order: seq<Slot>): map<Key, seq<TaskId>>
    requires forall slot | slot in order :: slot in parked
  {
    if order == [] then pending
    else
      var slot := Last(order);
      UnparkOne(Unpark(pending, parked, Front(order)), ParkedKey(parked, slot), parked[slot].tasks)
  }

  /** The chunking loop of gen_callback_policy.rs for one signal. */
  function Chunks(key: Key, tasks: seq<TaskId>): seq<Reg> {
    if tasks == [] then []
    else
      var n := Min(MAX_CHUNK, |tasks|);
      [Reg(key, tasks[..n])] + Chunks(key, tasks[n..])
  }

  function Registrations(pending: map<Key, seq<TaskId>>, keys: seq<Key>): seq<Reg>
    requires forall k | k in keys :: k in pending
  {
    if keys == [] then []
    else Registrations(pending, Front(keys)) + Chunks(Last(keys), pending[Last(keys)])
  }

  function Install(slab: map<CbId, Reg>, regs: seq<Reg>, ids: seq<CbId>): map<CbId, Reg>
    requires |regs| == |ids|
  {
    if regs == [] then slab
    else Install(slab, Front(regs), Front(ids))[Last(ids) := Last(regs)]
  }

  /** The iteration orders and slab slots a run of the driver may use. */
  ghost predicate ArmChoice(s: State, order: seq<Slot>, keys: seq<Key>, ids: seq<CbId>) {
    && Enumerates(order, s.parked.Keys)
    && var rest := Unpark(s.pending, s.parked, order);
    && Enumerates(keys, rest.Keys)
    && |ids| == |Registrations(rest, keys)|
    && NoDup(ids)
    && forall id | id in ids :: id !in s.slab
  }

  ghost function AfterArm(s: State, order: seq<Slot>, keys: seq<Key>, ids: seq<CbId>): State
    requires ArmChoice(s, order, keys, ids)
  {
    s.(slab := Install(s.slab, Registrations(Unpark(s.pending, s.parked, order), keys), ids),
       pending := map[],
       kept := {})
  }

  // ---- Runs ----

  /** What the simulator and the slab guarantee before an action. */
  ghost predicate Enabled(s: State, e: Event) {
    match e
    case Register(_) => true
    case Change(_, _) => true
    case Begin(id) => id in s.due && id in s.slab && id !in s.firing
    case End(id) => id in s.firing && id in s.slab
    case Arm(order, keys, ids) => s.due == {} && s.firing == {} && ArmChoice(s, order, keys, ids)
  }

  ghost function Step(s: State, e: Event): Option<State>
    requires Enabled(s, e)
  {
    match e
    case Register(w) => Some(AfterRegister(s, w))
    case Change(signal, v) => Some(AfterChange(s, signal, v))
    case Begin(id) => Some(AfterBegin(s, id))
    case End(id) => AfterEnd(s, id)
    case Arm(order, keys, ids) => Some(AfterArm(s, order, keys, ids))
  }
}
