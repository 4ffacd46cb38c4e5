/** The imperative form: the fields of VeriluaEnv and its handles, updated in place. */
module EdgeEnv {
  import opened Common
  import opened EdgeModel

  class EdgeCallbackEnv {
    // posedge/negedge/edge_cb_count, pending_<edge>_cb_map, pending_<edge>_cb_chunk, edge_cb_slab
    var count: map<Wait, nat>
    var pending: map<Key, seq<TaskId>>
    var parked: map<Slot, Parked>
    var slab: map<CbId, Reg>

    // The simulator's side of the armed callbacks
    var due: set<CbId>
    var firing: set<CbId>

    ghost var kept: set<CbId>
    ghost var registered: seq<Wait>
    ghost var woken: seq<Wait>

    ghost function View(): State
      reads this
    {
      State(count, pending, parked, slab, due, firing, kept, registered, woken)
    }

    constructor ()
      ensures View() == INIT
    {
      count, pending, parked, slab := map[], map[], map[], map[];
      due, firing, kept := {}, {}, {};
      registered, woken := [], [];
    }

    method Register(key: Key, task: TaskId)
      modifies this
      ensures View() == AfterRegister(old(View()), Wait(key, task))
    {
      var w := Wait(key, task);
      CountUp(w);
      if key !in pending {
        pending := pending[key := []];
      }
      pending := pending[key := pending[key] + [task]];
      registered := registered + [w];
    }

    method CountUp(w: Wait)
      modifies this`count
      ensures count == old(count)[w := CountOf(old(View()), w) + 1]
    {
      if w !in count {
        count := count[w := 0];
      }
      count := count[w := count[w] + 1];
    }

    method ValueChange(signal: Signal, v: int)
      modifies this`due
      ensures View() == AfterChange(old(View()), signal, v)
    {
      due := due + set id | id in slab && Hit(slab[id], signal, v);
    }

    /** Up to call_sim_event_chunk: returns the tasks handed to Lua. */
    method BeginFire(id: CbId) returns (tasks: seq<TaskId>)
      requires Enabled(View(), Begin(id))
      modifies this
      ensures View() == AfterBegin(old(View()), id)
      ensures tasks == slab[id].tasks
    {
      tasks := slab[id].tasks;
      due := due - {id};
      firing := firing + {id};
      woken := woken + WaitsOf(slab[id]);
    }

    /** The loop over task_id_vec: one off each count; returns the tasks whose count reaches zero. */
    method TakeCounts(r: Reg) returns (finished: seq<TaskId>)
      requires Decrement(count, r.key, r.tasks).Some?
      modifies this`count
      ensures Some(Counted(count, finished)) == Decrement(old(count), r.key, r.tasks)
    {
      finished := [];
      ghost var before := count;
      assert r.tasks[..|r.tasks|] == r.tasks;
      for i := 0 to |r.tasks|
        invariant Decrement(before, r.key, r.tasks[..i]) == Some(Counted(count, finished))
      {
        ghost var prefix := r.tasks[..i + 1];
        assert Front(prefix) == r.tasks[..i] && Last(prefix) == r.tasks[i];
        DecrementPrefix(before, r.key, r.tasks, i + 1);
        var w := Wait(r.key, r.tasks[i]);
        count := count[w := count[w] - 1];
        if count[w] == 0 {
          finished := finished + [r.tasks[i]];
        }
      }
    }

    /** After call_sim_event_chunk: settle the counts, then keep or release the callback. */
    method EndFire(id: CbId)
      requires Enabled(View(), End(id))
      requires AfterEnd(View(), id).Some?
      modifies this
      ensures Some(View()) == AfterEnd(old(View()), id)
    {
      hide Decrement;
      var r := slab[id];
      var slot := Slot(r.key.edge, id);
      var finished := TakeCounts(r);
      if finished == [] {
        if slot !in parked {
          parked := parked[slot := Parked(r.key.signal, r.tasks)];
        }
        kept := kept + {id};
      } else {
        count := RemoveCounts(count, r.key, finished);
        parked := parked - {slot};
        slab := slab - {id};
        kept := kept - {id};
      }
      firing := firing - {id};
    }

    /** One parked callback: if all its tasks wait again, it stays armed and they leave the pending list. */
    method UnparkSlot(slot: Slot, ghost done: seq<Slot>, ghost before: map<Key, seq<TaskId>>)
      requires slot in parked && forall s | s in done :: s in parked
      requires pending == Unpark(before, parked, done)
      modifies this`pending
      ensures pending == UnparkOne(Unpark(before, parked, done), ParkedKey(parked, slot), parked[slot].tasks)
    {
      var key, tasks := ParkedKey(parked, slot), parked[slot].tasks;
      if key in pending {
        var allMatch := true;
        var i := 0;
        while i < |tasks| && allMatch
          invariant 0 <= i <= |tasks|
          invariant allMatch <==> forall j | 0 <= j < i :: tasks[j] in pending[key]
        {
          allMatch := tasks[i] in pending[key];
          i := i + 1;
        }
        if allMatch {
          pending := pending[key := Without(pending[key], tasks)];
          if pending[key] == [] {
            pending := pending - {key};
          }
        }
      }
    }

    /** process_cb_chunk for one edge type, walking the hash table in any order. */
    method ProcessCbChunk(edge: EdgeType, ghost done: seq<Slot>, ghost before: map<Key, seq<TaskId>>)
      returns (ghost order: seq<Slot>)
      requires NoDup(done) && forall slot | slot in done :: slot in parked && slot.edge != edge
      requires pending == Unpark(before, parked, done)
      modifies this`pending
      ensures NoDup(order) && forall slot | slot in order :: slot in parked
      ensures done <= order && forall slot :: slot in order <==> slot in done || (slot in parked && slot.edge == edge)
      ensures pending == Unpark(before, parked, order)
    {
      order := done;
      var todo := set slot | slot in parked && slot.edge == edge;
      while todo != {}
        invariant NoDup(order) && forall slot | slot in order :: slot in parked
        invariant done <= order
        invariant forall slot :: slot in order <==> slot in done || (slot in parked && slot.edge == edge && slot !in todo)
        invariant forall slot | slot in todo :: slot in parked && slot.edge == edge
        invariant pending == Unpark(before, parked, order)
        decreases todo
      {
        var slot :| slot in todo;
        UnparkSlot(slot, order, before);
        ghost var next := order + [slot];
        assert Front(next) == order && Last(next) == slot;
        order := next;
        todo := todo - {slot};
      }
    }

    /** The chunking loop for one signal: fresh slab slots, at most MAX_CHUNK tasks each. */
    method ArmSignal(key: Key, tasks: seq<TaskId>) returns (ghost ids: seq<CbId>)
      modifies this`slab
      ensures |ids| == |Chunks(key, tasks)| && NoDup(ids)
      ensures forall id | id in ids :: id !in old(slab)
      ensures slab == Install(old(slab), Chunks(key, tasks), ids)
      ensures forall id :: id in slab <==> id in old(slab) || id in ids
    {
      var idx := 0;
      ids := [];
      ghost var done: seq<Reg> := [];
      assert tasks[0..] == tasks;
      while idx < |tasks|
        invariant 0 <= idx <= |tasks|
        invariant Chunks(key, tasks) == done + Chunks(key, tasks[idx..])
        invariant |ids| == |done| && NoDup(ids)
        invariant forall id | id in ids :: id !in old(slab)
        invariant slab == Install(old(slab), done, ids)
        invariant forall id :: id in slab <==> id in old(slab) || id in ids
      {
        var end := Min(idx + MAX_CHUNK, |tasks|);
        var chunk := tasks[idx..end];
        var id := VacantKey(slab);
        NextChunk(key, tasks, idx);
        InstallSnoc(old(slab), done, ids, Reg(key, chunk), id);
        NoDupConcat(ids, [id]);
        slab := slab[id := Reg(key, chunk)];
        done, ids := done + [Reg(key, chunk)], ids + [id];
        idx := end;
      }
      assert Chunks(key, tasks) == done;
    }

    /** libverilua_next_sim_time_cb: drop what kept callbacks cover, arm the rest, forget the requests. */
    method NextSimTime() returns (ghost order: seq<Slot>, ghost keys: seq<Key>, ghost ids: seq<CbId>)
      requires due == {} && firing == {}
      modifies this
      ensures ArmChoice(old(View()), order, keys, ids)
      ensures View() == AfterArm(old(View()), order, keys, ids)
    {
      ghost var before := pending;
      order := ProcessCbChunk(Posedge, [], before);
      order := ProcessCbChunk(Negedge, order, before);
      order := ProcessCbChunk(Edge, order, before);
      keys, ids := ArmPending();
      pending := map[];
      kept := {};
    }

    method ArmPending() returns (ghost keys: seq<Key>, ghost ids: seq<CbId>)
      modifies this`slab
      ensures Enumerates(keys, pending.Keys)
      ensures |ids| == |Registrations(pending, keys)| && NoDup(ids)
      ensures forall id | id in ids :: id !in old(slab)
      ensures slab == Install(old(slab), Registrations(pending, keys), ids)
    {
      keys, ids := [], [];
      var todo := pending.Keys;
      while todo != {}
        invariant todo <= pending.Keys
        invariant Enumerates(keys, pending.Keys - todo)
        invariant |ids| == |Registrations(pending, keys)| && NoDup(ids)
        invariant forall id | id in ids :: id !in old(slab)
        invariant slab == Install(old(slab), Registrations(pending, keys), ids)
        invariant forall id :: id in slab <==> id in old(slab) || id in ids
        decreases todo
      {
        var key :| key in todo;
        ghost var new_ids := ArmSignal(key, pending[key]);
        ghost var next := keys + [key];
        assert Front(next) == keys && Last(next) == key;
        InstallConcat(old(slab), Registrations(pending, keys), ids, Chunks(key, pending[key]), new_ids);
        NoDupConcat(ids, new_ids);
        keys, ids := next, ids + new_ids;
        todo := todo - {key};
      }
    }
  }

  /** The slab hands out some key that is not in use; which one is its own business. */
  method VacantKey(slab: map<CbId, Reg>) returns (id: CbId)
    ensures id !in slab
  {
    id := 0;
    var used := slab.Keys;
    while id in used
      invariant used <= slab.Keys && forall j | j in slab && j >= id :: j in used
      decreases used
    {
      used := used - {id};
      id := id + 1;
    }
  }

  lemma {:induction false} DecrementPrefix(count: map<Wait, nat>, key: Key, tasks: seq<TaskId>, n: nat)
    requires n <= |tasks| && Decrement(count, key, tasks).Some?
    ensures Decrement(count, key, tasks[..n]).Some?
  {
    if n == |tasks| {
      assert tasks[..n] == tasks;
    } else {
      DecrementPrefix(count, key, Front(tasks), n);
      assert Front(tasks)[..n] == tasks[..n];
    }
  }

  lemma NextChunk(key: Key, tasks: seq<TaskId>, idx: nat)
    requires idx < |tasks|
    ensures var end := Min(idx + MAX_CHUNK, |tasks|);
            Chunks(key, tasks[idx..]) == [Reg(key, tasks[idx..end])] + Chunks(key, tasks[end..])
  {
    var end := Min(idx + MAX_CHUNK, |tasks|);
    assert tasks[idx..][..end - idx] == tasks[idx..end] && tasks[idx..][end - idx..] == tasks[end..];
  }

  lemma InstallSnoc(slab: map<CbId, Reg>, regs: seq<Reg>, ids: seq<CbId>, r: Reg, id: CbId)
    requires |regs| == |ids|
    ensures Install(slab, regs + [r], ids + [id]) == Install(slab, regs, ids)[id := r]
  {
    assert Front(regs + [r]) == regs && Front(ids + [id]) == ids;
  }

  lemma {:induction false} InstallConcat(slab: map<CbId, Reg>, a: seq<Reg>, ia: seq<CbId>, b: seq<Reg>, ib: seq<CbId>)
    requires |a| == |ia| && |b| == |ib|
    ensures Install(slab, a + b, ia + ib) == Install(Install(slab, a, ia), b, ib)
  {
    if b == [] {
      assert a + b == a && ia + ib == ia;
    } else {
      InstallConcat(slab, a, ia, Front(b), Front(ib));
      assert Front(a + b) == a + Front(b) && Front(ia + ib) == ia + Front(ib);
    }
  }
}
