/**
 The invariant of the batching scheme: which counts, parked entries and slab slots can coexist.
 Every action that respects the waiting discipline keeps it, and none of them panics.
 */
module EdgeInvariant {
  import opened Common
  import opened EdgeModel

  predicate InReg(r: Reg, w: Wait) {
    r.key == w.key && w.task in r.tasks
  }

  predicate IsPending(s: State, w: Wait) {
    w.key in s.pending && w.task in s.pending[w.key]
  }

  /** `w` sits in a callback that has not yet settled its count since the last arming. */
  ghost predicate IsActive(s: State, w: Wait) {
    exists id :: id in s.slab && id !in s.kept && InReg(s.slab[id], w)
  }

  /** `w` sits in a callback that is armed and untouched since the last arming. */
  ghost predicate IsArmed(s: State, w: Wait) {
    exists id :: id in s.slab && id !in s.kept && id !in s.due && id !in s.firing && InReg(s.slab[id], w)
  }

  /** `w` sits in a callback the simulator has still to call. */
  ghost predicate IsDue(s: State, w: Wait) {
    exists id :: id in s.slab && id in s.due && InReg(s.slab[id], w)
  }

  ghost predicate RegOk(r: Reg) {
    1 <= |r.tasks| <= MAX_CHUNK && NoDup(r.tasks)
  }

  ghost predicate Apart(a: Reg, b: Reg) {
    forall w :: !(InReg(a, w) && InReg(b, w))
  }

  ghost predicate SlabOk(slab: map<CbId, Reg>) {
    && (forall id | id in slab :: RegOk(slab[id]))
    && (forall i, j | i in slab && j in slab && i != j :: Apart(slab[i], slab[j]))
  }

  ghost predicate PhasesOk(s: State) {
    && s.due <= s.slab.Keys && s.firing <= s.slab.Keys && s.kept <= s.slab.Keys
    && s.due !! s.firing && s.due !! s.kept && s.firing !! s.kept
  }

  ghost predicate PendingOk(s: State) {
    forall k | k in s.pending :: s.pending[k] != [] && NoDup(s.pending[k])
  }

  /** A callback that has not fired holds no task that already waits again. */
  ghost predicate FreshOk(s: State) {
    forall id, w | id in s.slab && id !in s.firing && id !in s.kept && InReg(s.slab[id], w) :: !IsPending(s, w)
  }

  /** A kept callback is parked, and all of its tasks wait again. */
  ghost predicate KeptOk(s: State) {
    && (forall id | id in s.kept && id in s.slab :: SlotOf(s, id) in s.parked)
    && (forall id, w | id in s.kept && id in s.slab && InReg(s.slab[id], w) :: IsPending(s, w))
  }

  /** Slab coherence: a parked entry describes the callback that occupies its slot now. */
  ghost predicate ParkedOk(s: State) {
    forall slot | slot in s.parked ::
      slot.id in s.slab && s.slab[slot.id] == Reg(ParkedKey(s.parked, slot), s.parked[slot].tasks)
  }

  ghost function Owed(s: State, w: Wait): nat {
    (if IsActive(s, w) then 1 else 0) + (if IsPending(s, w) then 1 else 0)
  }

  /** The count map is exactly the multiset of waits still to be served. */
  ghost predicate CountsOk(s: State) {
    forall w :: CountOf(s, w) == Owed(s, w) && (w in s.count ==> s.count[w] > 0)
  }

  ghost predicate Inv(s: State) {
    && SlabOk(s.slab)
    && PhasesOk(s)
    && PendingOk(s)
    && FreshOk(s)
    && KeptOk(s)
    && ParkedOk(s)
    && CountsOk(s)
  }

  /**
   The discipline on callers: a task posts a wait only when it has none outstanding for that key,
   and no value change hits a callback that already fired since the last arming.
   */
  ghost predicate Disciplined(s: State, e: Event) {
    match e
    case Register(w) => !IsPending(s, w) && !IsArmed(s, w) && !IsDue(s, w)
    case Change(signal, v) =>
      forall id | id in s.slab && Hit(s.slab[id], signal, v) :: id !in s.kept && id !in s.due && id !in s.firing
    case _ => true
  }

  lemma InitInv()
    ensures Inv(INIT)
  {
  }

  // ---- Register ----

  lemma RegisterPending(s: State, w: Wait, x: Wait)
    ensures IsPending(AfterRegister(s, w), x) <==> IsPending(s, x) || x == w
  {
  }

  lemma RegisterCounts(s: State, w: Wait)
    requires Inv(s) && Disciplined(s, Register(w))
    ensures CountsOk(AfterRegister(s, w))
  {
    var s' := AfterRegister(s, w);
    forall x ensures CountOf(s', x) == Owed(s', x) && (x in s'.count ==> s'.count[x] > 0) {
      assert CountOf(s, x) == Owed(s, x) && (x in s.count ==> s.count[x] > 0);
      RegisterPending(s, w, x);
      if IsActive(s, x) {
        var id :| id in s.slab && id !in s.kept && InReg(s.slab[id], x);
        assert id in s'.slab && InReg(s'.slab[id], x);
      }
    }
  }

  lemma RegisterInv(s: State, w: Wait)
    requires Inv(s) && Disciplined(s, Register(w))
    ensures Inv(AfterRegister(s, w))
  {
    hide CountsOk;
    RegisterCounts(s, w);
    forall x ensures IsPending(AfterRegister(s, w), x) <==> IsPending(s, x) || x == w {
      RegisterPending(s, w, x);
    }
  }

  // ---- Change and Begin leave counts, pending waits and the slab alone ----

  lemma PhaseChangeInv(s: State, s': State)
    requires Inv(s) && PhasesOk(s')
    requires s'.(due := s.due, firing := s.firing, registered := s.registered, woken := s.woken) == s
    requires s.firing <= s'.firing
    ensures Inv(s')
  {
    forall w ensures IsActive(s', w) <==> IsActive(s, w) {
      if IsActive(s, w) {
        var id :| id in s.slab && id !in s.kept && InReg(s.slab[id], w);
        assert id in s'.slab && InReg(s'.slab[id], w);
      }
      if IsActive(s', w) {
        var id :| id in s'.slab && id !in s'.kept && InReg(s'.slab[id], w);
        assert id in s.slab && InReg(s.slab[id], w);
      }
    }
    forall w ensures IsPending(s', w) <==> IsPending(s, w) {}
    assert FreshOk(s') by {
      forall id, w | id in s'.slab && id !in s'.firing && id !in s'.kept && InReg(s'.slab[id], w)
        ensures !IsPending(s', w)
      {
        assert id in s.slab && InReg(s.slab[id], w) && id !in s.firing;
      }
    }
  }

  lemma ChangeInv(s: State, signal: Signal, v: int)
    requires Inv(s) && Disciplined(s, Change(signal, v))
    ensures Inv(AfterChange(s, signal, v))
  {
    PhaseChangeInv(s, AfterChange(s, signal, v));
  }

  lemma BeginInv(s: State, id: CbId)
    requires Inv(s) && Enabled(s, Begin(id))
    ensures Inv(AfterBegin(s, id))
  {
    PhaseChangeInv(s, AfterBegin(s, id));
  }

  // ---- End ----

  /** The decrement loop on distinct tasks: it panics only on a task without a count. */
  lemma {:induction false} DecrementEffect(count: map<Wait, nat>, key: Key, tasks: seq<TaskId>)
    requires NoDup(tasks)
    requires forall t | t in tasks :: Wait(key, t) in count && count[Wait(key, t)] > 0
    ensures Decrement(count, key, tasks).Some?
    ensures var c := Decrement(count, key, tasks).value;
            && c.count.Keys == count.Keys
            && (forall w | w in count ::
                  c.count[w] == if w.key == key && w.task in tasks then count[w] - 1 else count[w])
            && (forall t :: t in c.finished <==> t in tasks && count[Wait(key, t)] == 1)
  {
    if tasks != [] {
      DecrementEffect(count, key, Front(tasks));
      assert tasks == Front(tasks) + [Last(tasks)];
      assert Last(tasks) !in Front(tasks);
    }
  }

  /** When a callback settles, each of its tasks has count 1, or 2 if it waits again. */
  lemma FiringCounts(s: State, id: CbId, t: TaskId)
    requires Inv(s) && id in s.firing && t in s.slab[id].tasks
    ensures var w := Wait(s.slab[id].key, t); w in s.count && s.count[w] == if IsPending(s, w) then 2 else 1
  {
    var w := Wait(s.slab[id].key, t);
    assert InReg(s.slab[id], w);
    assert IsActive(s, w);
    assert CountOf(s, w) == Owed(s, w);
  }

  lemma EndCounts(s: State, id: CbId) returns (c: Counted)
    requires Inv(s) && Enabled(s, End(id))
    ensures Decrement(s.count, s.slab[id].key, s.slab[id].tasks) == Some(c)
    ensures c.count.Keys == s.count.Keys
    ensures forall w | w in s.count :: c.count[w] == if InReg(s.slab[id], w) then s.count[w] - 1 else s.count[w]
    ensures forall t :: t in c.finished <==> t in s.slab[id].tasks && !IsPending(s, Wait(s.slab[id].key, t))
  {
    var r := s.slab[id];
    forall t | t in r.tasks
      ensures var w := Wait(r.key, t); w in s.count && s.count[w] == if IsPending(s, w) then 2 else 1
    {
      FiringCounts(s, id, t);
    }
    DecrementEffect(s.count, r.key, r.tasks);
    c := Decrement(s.count, r.key, r.tasks).value;
  }

  /** Settling a callback takes its waits, and nothing else, out of the active ones. */
  lemma EndActive(s: State, id: CbId, s': State, w: Wait)
    requires Inv(s) && id in s.firing
    requires (s'.slab == s.slab && s'.kept == s.kept + {id}) || (s'.slab == s.slab - {id} && s'.kept == s.kept - {id})
    ensures IsActive(s', w) <==> IsActive(s, w) && !InReg(s.slab[id], w)
  {
    if IsActive(s, w) && !InReg(s.slab[id], w) {
      var j :| j in s.slab && j !in s.kept && InReg(s.slab[j], w);
      assert j in s'.slab && j !in s'.kept && InReg(s'.slab[j], w);
    }
    if IsActive(s', w) {
      var j :| j in s'.slab && j !in s'.kept && InReg(s'.slab[j], w);
      assert j in s.slab && j != id && InReg(s.slab[j], w);
      assert Apart(s.slab[id], s.slab[j]);
    }
  }

  lemma EndCountsOk(s: State, id: CbId)
    requires Inv(s) && Enabled(s, End(id))
    ensures AfterEnd(s, id).Some? && CountsOk(AfterEnd(s, id).value)
  {
    hide Decrement, SlabOk, ParkedOk;
    var r := s.slab[id];
    var c := EndCounts(s, id);
    var s' := AfterEnd(s, id).value;
    forall w ensures CountOf(s', w) == Owed(s', w) && (w in s'.count ==> s'.count[w] > 0) {
      assert CountOf(s, w) == Owed(s, w) && (w in s.count ==> s.count[w] > 0);
      EndActive(s, id, s', w);
      assert IsPending(s', w) <==> IsPending(s, w);
      if InReg(r, w) {
        FiringCounts(s, id, w.task);
        assert w == Wait(r.key, w.task);
      } else {
        assert !(w.key == r.key && w.task in c.finished);
      }
    }
  }

  lemma EndInv(s: State, id: CbId)
    requires Inv(s) && Enabled(s, End(id))
    ensures AfterEnd(s, id).Some? && Inv(AfterEnd(s, id).value)
  {
    var c := EndCounts(s, id);
    EndCountsOk(s, id);
    if c.finished == [] {
      EndKeeps(s, id, AfterEnd(s, id).value);
    } else {
      EndReleases(s, id, AfterEnd(s, id).value);
    }
  }

  lemma EndKeeps(s: State, id: CbId, s': State)
    requires Inv(s) && Enabled(s, End(id)) && AfterEnd(s, id) == Some(s')
    requires s'.slab == s.slab && CountsOk(s')
    ensures Inv(s')
  {
    hide CountsOk;
    var r := s.slab[id];
    var c := EndCounts(s, id);
    assert forall w :: IsPending(s', w) <==> IsPending(s, w);
    forall j, w | j in s'.kept && j in s'.slab && InReg(s'.slab[j], w) ensures IsPending(s', w) {
      if j == id {
        assert w == Wait(r.key, w.task) && w.task !in c.finished;
      }
    }
  }

  lemma EndReleases(s: State, id: CbId, s': State)
    requires Inv(s) && Enabled(s, End(id)) && AfterEnd(s, id) == Some(s')
    requires s'.slab == s.slab - {id} && CountsOk(s')
    ensures Inv(s')
  {
    hide CountsOk, Decrement, RemoveCounts;
    assert forall w :: IsPending(s', w) <==> IsPending(s, w);
    assert s'.firing == s.firing - {id} && s'.kept == s.kept - {id};
    ReleasedParked(s, id, s');
    assert SlabOk(s'.slab);
  }

  lemma ReleasedParked(s: State, id: CbId, s': State)
    requires ParkedOk(s) && id in s.slab && s'.slab == s.slab - {id} && s'.parked == s.parked - {SlotOf(s, id)}
    ensures ParkedOk(s')
  {
    forall slot | slot in s'.parked
      ensures slot.id in s'.slab && s'.slab[slot.id] == Reg(ParkedKey(s'.parked, slot), s'.parked[slot].tasks)
    {
      assert slot in s.parked && slot != SlotOf(s, id);
    }
  }
}
