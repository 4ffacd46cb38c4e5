/**
 Arming at NextSimTime: the waits left over by process_cb_chunk are cut into chunks and put into
 fresh slab slots, so afterwards every outstanding wait sits in exactly one armed callback.
 */
module EdgeArming {
  import opened Common
  import opened EdgeModel
  import opened EdgeInvariant

  predicate InPending(p: map<Key, seq<TaskId>>, w: Wait) {
    w.key in p && w.task in p[w.key]
  }

  ghost predicate TidyPending(p: map<Key, seq<TaskId>>) {
    forall k | k in p :: p[k] != [] && NoDup(p[k])
  }

  ghost predicate InKept(s: State, order: seq<Slot>, w: Wait) {
    exists slot :: slot in order && slot.id in s.kept && slot.id in s.slab && InReg(s.slab[slot.id], w)
  }

  // ---- process_cb_chunk ----

  lemma UnparkOneTidy(p: map<Key, seq<TaskId>>, key: Key, tasks: seq<TaskId>)
    requires TidyPending(p)
    ensures TidyPending(UnparkOne(p, key, tasks))
  {
    if key in p {
      WithoutNoDup(p[key], tasks);
    }
  }

  lemma UnparkOneMatch(p: map<Key, seq<TaskId>>, r: Reg, w: Wait)
    requires forall t | t in r.tasks :: InPending(p, Wait(r.key, t))
    requires r.tasks != []
    ensures InPending(UnparkOne(p, r.key, r.tasks), w) <==> InPending(p, w) && !InReg(r, w)
  {
    assert InPending(p, Wait(r.key, r.tasks[0]));
    assert forall t | t in r.tasks :: t in p[r.key] by {
      forall t | t in r.tasks ensures t in p[r.key] {
        assert InPending(p, Wait(r.key, t));
      }
    }
  }

  lemma UnparkOneMiss(p: map<Key, seq<TaskId>>, r: Reg)
    requires exists t :: t in r.tasks && !InPending(p, Wait(r.key, t))
    ensures UnparkOne(p, r.key, r.tasks) == p
  {
  }

  /** Whatever order the hash table is walked in, exactly the waits of kept callbacks go away. */
  lemma {:induction false} UnparkEffect(s: State, order: seq<Slot>)
    requires Inv(s) && s.firing == {} && NoDup(order)
    requires forall slot | slot in order :: slot in s.parked
    ensures TidyPending(Unpark(s.pending, s.parked, order))
    ensures forall w :: InPending(Unpark(s.pending, s.parked, order), w) <==> IsPending(s, w) && !InKept(s, order, w)
  {
    if order != [] {
      var before, slot := Front(order), Last(order);
      assert order == before + [slot] && slot !in before;
      UnparkEffect(s, before);
      var p := Unpark(s.pending, s.parked, before);
      var r := s.slab[slot.id];
      assert r == Reg(ParkedKey(s.parked, slot), s.parked[slot].tasks);
      UnparkOneTidy(p, r.key, r.tasks);
      if slot.id in s.kept {
        forall t | t in r.tasks ensures InPending(p, Wait(r.key, t)) {
          KeptAlone(s, before, slot, Wait(r.key, t));
        }
        forall w
          ensures InPending(UnparkOne(p, r.key, r.tasks), w) <==> IsPending(s, w) && !InKept(s, order, w)
        {
          UnparkOneMatch(p, r, w);
          InKeptSnoc(s, before, slot, w);
        }
      } else {
        assert InReg(r, Wait(r.key, r.tasks[0]));
        assert !InPending(p, Wait(r.key, r.tasks[0]));
        UnparkOneMiss(p, r);
        forall w ensures InKept(s, order, w) <==> InKept(s, before, w) {
          InKeptSnoc(s, before, slot, w);
        }
      }
    }
  }

  lemma InKeptSnoc(s: State, before: seq<Slot>, slot: Slot, w: Wait)
    ensures InKept(s, before + [slot], w) <==>
            InKept(s, before, w) || (slot.id in s.kept && slot.id in s.slab && InReg(s.slab[slot.id], w))
  {
    var order := before + [slot];
    if InKept(s, before, w) {
      var x :| x in before && x.id in s.kept && x.id in s.slab && InReg(s.slab[x.id], w);
      assert x in order;
    }
    assert slot in order;
  }

  lemma KeptAlone(s: State, before: seq<Slot>, slot: Slot, w: Wait)
    requires Inv(s) && slot in s.parked && slot !in before
    requires forall x | x in before :: x in s.parked
    requires slot.id in s.kept && InReg(s.slab[slot.id], w)
    ensures IsPending(s, w) && !InKept(s, before, w)
  {
  }

  /** The waits left to arm are those that wait and sit in no callback. */
  lemma LeftToArm(s: State, order: seq<Slot>, w: Wait)
    requires Inv(s) && s.firing == {} && Enumerates(order, s.parked.Keys)
    ensures InPending(Unpark(s.pending, s.parked, order), w) <==>
            IsPending(s, w) && forall id | id in s.slab :: !InReg(s.slab[id], w)
  {
    UnparkEffect(s, order);
    forall id | id in s.slab && InReg(s.slab[id], w)
      ensures IsPending(s, w) ==> InKept(s, order, w)
    {
      if id in s.kept {
        assert SlotOf(s, id) in order;
      }
    }
  }

  // ---- the chunking loops ----

  ghost predicate Covers(regs: seq<Reg>, w: Wait) {
    exists i :: 0 <= i < |regs| && InReg(regs[i], w)
  }

  ghost predicate RegsOk(regs: seq<Reg>) {
    && (forall i | 0 <= i < |regs| :: RegOk(regs[i]))
    && (forall i, j | 0 <= i < j < |regs| :: Apart(regs[i], regs[j]))
  }

  lemma CoversConcat(a: seq<Reg>, b: seq<Reg>, w: Wait)
    ensures Covers(a + b, w) <==> Covers(a, w) || Covers(b, w)
  {
    if Covers(a, w) {
      var i :| 0 <= i < |a| && InReg(a[i], w);
      assert InReg((a + b)[i], w);
    }
    if Covers(b, w) {
      var i :| 0 <= i < |b| && InReg(b[i], w);
      assert InReg((a + b)[|a| + i], w);
    }
  }

  lemma RegsOkConcat(a: seq<Reg>, b: seq<Reg>)
    requires RegsOk(a) && RegsOk(b)
    requires forall w :: !(Covers(a, w) && Covers(b, w))
    ensures RegsOk(a + b)
  {
    forall i, j | 0 <= i < j < |a + b| ensures Apart((a + b)[i], (a + b)[j]) {
      if i < |a| <= j {
        forall w ensures !(InReg(a[i], w) && InReg(b[j - |a|], w)) {
          assert InReg(a[i], w) ==> Covers(a, w);
          assert InReg(b[j - |a|], w) ==> Covers(b, w);
        }
      }
    }
  }

  /** Chunking loses no task and repeats none; each chunk has 1 to 16 tasks. */
  lemma {:induction false} ChunksEffect(key: Key, tasks: seq<TaskId>)
    requires NoDup(tasks)
    ensures RegsOk(Chunks(key, tasks))
    ensures forall w :: Covers(Chunks(key, tasks), w) <==> w.key == key && w.task in tasks
  {
    if tasks != [] {
      var n := Min(MAX_CHUNK, |tasks|);
      var head, tail := [Reg(key, tasks[..n])], Chunks(key, tasks[n..]);
      ChunksEffect(key, tasks[n..]);
      assert tasks == tasks[..n] + tasks[n..];
      forall w ensures Covers(head, w) <==> w.key == key && w.task in tasks[..n] {
        assert InReg(head[0], w) <==> w.key == key && w.task in tasks[..n];
      }
      RegsOkConcat(head, tail);
      forall w ensures Covers(head + tail, w) <==> w.key == key && w.task in tasks {
        CoversConcat(head, tail, w);
      }
    }
  }

  lemma {:induction false} RegistrationsEffect(p: map<Key, seq<TaskId>>, keys: seq<Key>)
    requires TidyPending(p) && NoDup(keys)
    requires forall k | k in keys :: k in p
    ensures RegsOk(Registrations(p, keys))
    ensures forall w :: Covers(Registrations(p, keys), w) <==> w.key in keys && InPending(p, w)
  {
    if keys != [] {
      var before, k := Front(keys), Last(keys);
      assert keys == before + [k] && k !in before;
      var a, b := Registrations(p, before), Chunks(k, p[k]);
      RegistrationsEffect(p, before);
      ChunksEffect(k, p[k]);
      RegsOkConcat(a, b);
      forall w ensures Covers(a + b, w) <==> w.key in keys && InPending(p, w) {
        CoversConcat(a, b, w);
      }
    }
  }

  ghost predicate InSlab(slab: map<CbId, Reg>, w: Wait) {
    exists id :: id in slab && InReg(slab[id], w)
  }

  lemma InstallOne(slab: map<CbId, Reg>, id: CbId, r: Reg)
    requires SlabOk(slab) && RegOk(r) && id !in slab
    requires forall w :: !(InSlab(slab, w) && InReg(r, w))
    ensures SlabOk(slab[id := r])
    ensures forall w :: InSlab(slab[id := r], w) <==> InSlab(slab, w) || InReg(r, w)
  {
    var after := slab[id := r];
    forall i | i in slab ensures Apart(slab[i], r) && Apart(r, slab[i]) {
      forall w ensures !(InReg(slab[i], w) && InReg(r, w)) {
        assert InReg(slab[i], w) ==> InSlab(slab, w);
      }
    }
    forall w ensures InSlab(after, w) <==> InSlab(slab, w) || InReg(r, w) {
      if InSlab(slab, w) {
        var i :| i in slab && InReg(slab[i], w);
        assert i in after && InReg(after[i], w);
      }
      assert InReg(after[id], w) <==> InReg(r, w);
    }
  }

  lemma {:induction false} InstallEffect(slab: map<CbId, Reg>, regs: seq<Reg>, ids: seq<CbId>)
    requires |regs| == |ids| && NoDup(ids) && forall id | id in ids :: id !in slab
    requires SlabOk(slab) && RegsOk(regs)
    requires forall w :: !(InSlab(slab, w) && Covers(regs, w))
    ensures SlabOk(Install(slab, regs, ids))
    ensures forall id :: id in Install(slab, regs, ids) <==> id in slab || id in ids
    ensures forall id | id in slab :: Install(slab, regs, ids)[id] == slab[id]
    ensures forall w :: InSlab(Install(slab, regs, ids), w) <==> InSlab(slab, w) || Covers(regs, w)
  {
    if regs != [] {
      var r, id := Last(regs), Last(ids);
      assert regs == Front(regs) + [r] && ids == Front(ids) + [id];
      forall w ensures Covers(regs, w) <==> Covers(Front(regs), w) || InReg(r, w) {
        CoversConcat(Front(regs), [r], w);
        assert Covers([r], w) <==> InReg([r][0], w);
      }
      InstallEffect(slab, Front(regs), Front(ids));
      var before := Install(slab, Front(regs), Front(ids));
      forall w ensures !(InSlab(before, w) && InReg(r, w)) {
        LastApart(regs, w);
      }
      InstallOne(before, id, r);
    }
  }

  lemma LastApart(regs: seq<Reg>, w: Wait)
    requires RegsOk(regs) && regs != []
    ensures !(Covers(Front(regs), w) && InReg(Last(regs), w))
  {
    if Covers(Front(regs), w) {
      var i :| 0 <= i < |Front(regs)| && InReg(Front(regs)[i], w);
      assert Apart(regs[i], regs[|regs| - 1]);
    }
  }

  // ---- Arm ----

  /** What arming does to the slab, independent of every iteration order and slot chosen. */
  lemma ArmEffect(s: State, order: seq<Slot>, keys: seq<Key>, ids: seq<CbId>)
    requires Inv(s) && Enabled(s, Arm(order, keys, ids))
    ensures var s' := AfterArm(s, order, keys, ids);
            && SlabOk(s'.slab)
            && (forall id | id in s.slab :: id in s'.slab && s'.slab[id] == s.slab[id])
            && (forall w :: InSlab(s'.slab, w) <==> InSlab(s.slab, w) || IsPending(s, w))
  {
    var p := Unpark(s.pending, s.parked, order);
    UnparkEffect(s, order);
    RegistrationsEffect(p, keys);
    var regs := Registrations(p, keys);
    forall w ensures InPending(p, w) <==> IsPending(s, w) && !InSlab(s.slab, w) {
      LeftToArm(s, order, w);
    }
    forall w ensures Covers(regs, w) <==> InPending(p, w) {}
    InstallEffect(s.slab, regs, ids);
  }

  /** Right after arming, the count map equals the multiset of tasks in live callbacks: all ones. */
  lemma CountsAfterArm(s: State, order: seq<Slot>, keys: seq<Key>, ids: seq<CbId>)
    requires Inv(s) && Enabled(s, Arm(order, keys, ids))
    ensures var s' := AfterArm(s, order, keys, ids);
            forall w :: (w in s'.count <==> InSlab(s'.slab, w)) && (w in s'.count ==> s'.count[w] == 1)
  {
    var s' := AfterArm(s, order, keys, ids);
    ArmEffect(s, order, keys, ids);
    forall w
      ensures (w in s'.count <==> InSlab(s'.slab, w)) && (w in s'.count ==> s'.count[w] == 1)
    {
      assert CountOf(s, w) == Owed(s, w) && (w in s.count ==> s.count[w] > 0);
      if IsActive(s, w) {
        var id :| id in s.slab && id !in s.kept && InReg(s.slab[id], w);
        assert InSlab(s.slab, w) && !IsPending(s, w);
      } else if InSlab(s.slab, w) {
        var id :| id in s.slab && InReg(s.slab[id], w);
        assert id in s.kept && IsPending(s, w);
      }
    }
  }

  lemma ArmInv(s: State, order: seq<Slot>, keys: seq<Key>, ids: seq<CbId>)
    requires Inv(s) && Enabled(s, Arm(order, keys, ids))
    ensures Inv(AfterArm(s, order, keys, ids))
  {
    var s' := AfterArm(s, order, keys, ids);
    ArmEffect(s, order, keys, ids);
    CountsAfterArm(s, order, keys, ids);
    assert CountsOk(s') by {
      forall w ensures CountOf(s', w) == Owed(s', w) && (w in s'.count ==> s'.count[w] > 0) {
        assert InSlab(s'.slab, w) <==> IsActive(s', w);
      }
    }
    assert PhasesOk(s') && PendingOk(s') && FreshOk(s') && KeptOk(s');
    assert ParkedOk(s');
  }
}
