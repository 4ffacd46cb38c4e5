/** Edges that hit kept callbacks: exactly when the next arming finds the books in order. */
module EdgeGlitch {
  import opened Common
  import opened EdgeModel
  import opened EdgeInvariant
  import opened EdgeArming
  import opened EdgeSlot

  // ---- process_cb_chunk with repeated requests ----

  function AskedIn(p: map<Key, seq<TaskId>>, w: Wait): nat {
    if w.key in p then Occ(p[w.key], w.task) else 0
  }

  ghost predicate NonEmpty(p: map<Key, seq<TaskId>>) {
    forall k | k in p :: p[k] != []
  }

  lemma {:induction false} OccWithout(q: seq<TaskId>, drop: seq<TaskId>, t: TaskId)
    ensures Occ(Without(q, drop), t) == if t in drop then 0 else Occ(q, t)
  {
    if q != [] {
      OccWithout(Front(q), drop, t);
      if Last(q) !in drop {
        OccSnoc(Without(Front(q), drop), Last(q), t);
      }
    }
  }

  lemma UnparkOneCounts(p: map<Key, seq<TaskId>>, r: Reg, w: Wait)
    requires r.tasks != [] && forall t | t in r.tasks :: InPending(p, Wait(r.key, t))
    ensures AskedIn(UnparkOne(p, r.key, r.tasks), w) == if InReg(r, w) then 0 else AskedIn(p, w)
  {
    assert InPending(p, Wait(r.key, r.tasks[0]));
    assert forall t | t in r.tasks :: t in p[r.key] by {
      forall t | t in r.tasks ensures t in p[r.key] {
        assert InPending(p, Wait(r.key, t));
      }
    }
    if w.key == r.key {
      OccWithout(p[r.key], r.tasks, w.task);
    }
  }

  /** Whatever order the table is walked in, all requests of kept callbacks go away, and no other. */
  lemma {:induction false} UnparkCounts(s: State, asleep: set<Wait>, order: seq<Slot>)
    requires SlotInv(s, asleep) && s.firing == {} && NoDup(order)
    requires forall slot | slot in order :: slot in s.parked
    ensures NonEmpty(Unpark(s.pending, s.parked, order))
    ensures forall w :: AskedIn(Unpark(s.pending, s.parked, order), w) == if InKept(s, order, w) then 0 else Asked(s, w)
  {
    hide UnparkOne, SlotInv, AskedIn, Asked, InKept;
    if order == [] {
      UnparkNone(s, asleep);
    } else {
      var before, slot := Front(order), Last(order);
      assert order == before + [slot] && slot !in before;
      UnparkCounts(s, asleep, before);
      UnparkSlot(s, asleep, before, slot, Unpark(s.pending, s.parked, before));
    }
  }

  lemma UnparkNone(s: State, asleep: set<Wait>)
    requires SlotInv(s, asleep)
    ensures NonEmpty(s.pending)
    ensures forall w :: AskedIn(s.pending, w) == Asked(s, w) && !InKept(s, [], w)
  {
  }

  lemma UnparkSlot(s: State, asleep: set<Wait>, before: seq<Slot>, slot: Slot, p: map<Key, seq<TaskId>>)
    requires SlotInv(s, asleep) && s.firing == {} && slot in s.parked && slot !in before
    requires forall x | x in before :: x in s.parked
    requires NonEmpty(p) && forall w :: AskedIn(p, w) == if InKept(s, before, w) then 0 else Asked(s, w)
    ensures var q := UnparkOne(p, ParkedKey(s.parked, slot), s.parked[slot].tasks);
      NonEmpty(q) && forall w :: AskedIn(q, w) == if InKept(s, before + [slot], w) then 0 else Asked(s, w)
  {
    var r := s.slab[slot.id];
    assert r == Reg(ParkedKey(s.parked, slot), s.parked[slot].tasks) && RegOk(r);
    forall w ensures InPending(p, w) <==> AskedIn(p, w) > 0 {
      if w.key in p {
        OccIn(p[w.key], w.task);
      }
    }
    if slot.id in s.kept {
      forall t | t in r.tasks ensures InPending(p, Wait(r.key, t)) {
        ParkedAlone(s, asleep, before, slot, Wait(r.key, t));
      }
      forall w ensures AskedIn(UnparkOne(p, r.key, r.tasks), w) == if InKept(s, before + [slot], w) then 0 else Asked(s, w) {
        UnparkOneCounts(p, r, w);
        InKeptSnoc(s, before, slot, w);
      }
    } else {
      assert InReg(r, Wait(r.key, r.tasks[0]));
      assert HeldOk(s, asleep, slot.id, Wait(r.key, r.tasks[0]));
      assert !InPending(p, Wait(r.key, r.tasks[0]));
      UnparkOneMiss(p, r);
      forall w ensures InKept(s, before + [slot], w) <==> InKept(s, before, w) {
        InKeptSnoc(s, before, slot, w);
      }
    }
  }

  lemma SameSlot(s: State, x: Slot, y: Slot)
    requires ParkedOk(s) && x in s.parked && y in s.parked && x.id == y.id
    ensures x == y
  {
  }

  lemma ParkedAlone(s: State, asleep: set<Wait>, before: seq<Slot>, slot: Slot, w: Wait)
    requires SlotInv(s, asleep) && s.firing == {} && slot in s.parked && slot !in before
    requires forall x | x in before :: x in s.parked
    requires slot.id in s.kept && InReg(s.slab[slot.id], w)
    ensures Asked(s, w) > 0 && !InKept(s, before, w)
  {
    assert HeldOk(s, asleep, slot.id, w);
    if InKept(s, before, w) {
      var x :| x in before && x.id in s.kept && x.id in s.slab && InReg(s.slab[x.id], w);
      OneHolder(s, slot.id, x.id, w);
      SameSlot(s, x, slot);
    }
  }

  /** What is left to arm: the requests of tasks that sit in no callback. */
  lemma LeftAsked(s: State, asleep: set<Wait>, order: seq<Slot>, w: Wait)
    requires SlotInv(s, asleep) && s.firing == {} && Enumerates(order, s.parked.Keys)
    ensures AskedIn(Unpark(s.pending, s.parked, order), w) == if Held(s, w) then 0 else Asked(s, w)
    ensures NonEmpty(Unpark(s.pending, s.parked, order))
  {
    UnparkCounts(s, asleep, order);
    if Held(s, w) {
      var id :| id in s.slab && InReg(s.slab[id], w);
      assert HeldOk(s, asleep, id, w);
      if id in s.kept {
        assert SlotOf(s, id) in order;
        assert InKept(s, order, w);
      }
    }
  }

  // ---- fair requests: arming restores the invariant ----

  lemma {:induction false} OccNoDup(q: seq<TaskId>)
    requires forall t :: Occ(q, t) <= 1
    ensures NoDup(q)
  {
    if q != [] {
      var f, x := Front(q), Last(q);
      assert q == f + [x];
      forall t ensures Occ(f, t) <= 1 {
        assert Occ(q, t) <= 1;
      }
      OccNoDup(f);
      assert Occ(q, x) <= 1;
      OccIn(f, x);
    }
  }

  lemma FairLeft(s: State, asleep: set<Wait>, order: seq<Slot>)
    requires SlotInv(s, asleep) && Fair(s, asleep) && s.firing == {} && Enumerates(order, s.parked.Keys)
    ensures var p := Unpark(s.pending, s.parked, order);
      TidyPending(p) && forall w :: InPending(p, w) <==> !Held(s, w) && CountOf(s, w) == 1
  {
    var p := Unpark(s.pending, s.parked, order);
    UnparkCounts(s, asleep, order);
    forall w
      ensures AskedIn(p, w) <= 1
      ensures InPending(p, w) <==> AskedIn(p, w) > 0
      ensures InPending(p, w) <==> !Held(s, w) && CountOf(s, w) == 1
    {
      LeftAsked(s, asleep, order, w);
      if w.key in p {
        OccIn(p[w.key], w.task);
      }
      assert !Held(s, w) ==> FairlyAsked(s, asleep, w);
    }
    forall k | k in p ensures NoDup(p[k]) {
      forall t ensures Occ(p[k], t) <= 1 {
        assert AskedIn(p, Wait(k, t)) <= 1;
      }
      OccNoDup(p[k]);
    }
  }

  lemma FairArms(s: State, asleep: set<Wait>, order: seq<Slot>, keys: seq<Key>, ids: seq<CbId>)
    requires SlotInv(s, asleep) && Fair(s, asleep) && s.due == {} && s.firing == {} && ArmChoice(s, order, keys, ids)
    ensures Inv(AfterArm(s, order, keys, ids))
  {
    var p := Unpark(s.pending, s.parked, order);
    var s' := AfterArm(s, order, keys, ids);
    FairLeft(s, asleep, order);
    RegistrationsEffect(p, keys);
    var regs := Registrations(p, keys);
    forall w ensures InSlab(s.slab, w) <==> Held(s, w) {}
    forall w ensures Covers(regs, w) <==> InPending(p, w) {}
    InstallEffect(s.slab, regs, ids);
    forall w ensures CountOf(s', w) == Owed(s', w) {
      assert IsActive(s', w) <==> InSlab(s'.slab, w);
      FairCount(s, asleep, w);
    }
    assert PhasesOk(s') && PendingOk(s') && FreshOk(s') && KeptOk(s');
    assert ParkedOk(s');
  }

  lemma FairCount(s: State, asleep: set<Wait>, w: Wait)
    requires SlotInv(s, asleep) && Fair(s, asleep) && s.firing == {}
    ensures CountOf(s, w) <= 1
    ensures Held(s, w) ==> CountOf(s, w) == 1
  {
    if Held(s, w) {
      var id :| id in s.slab && InReg(s.slab[id], w);
      assert HeldOk(s, asleep, id, w);
    } else {
      assert FairlyAsked(s, asleep, w);
    }
  }

  // ---- a request without its count: calling what gets armed panics ----

  function Served(r: Reg, w: Wait): nat {
    if r.key == w.key then Occ(r.tasks, w.task) else 0
  }

  function ServedBy(regs: seq<Reg>, w: Wait): nat {
    if regs == [] then 0 else ServedBy(Front(regs), w) + Served(Last(regs), w)
  }

  lemma {:induction false} ServedConcat(a: seq<Reg>, b: seq<Reg>, w: Wait)
    ensures ServedBy(a + b, w) == ServedBy(a, w) + ServedBy(b, w)
  {
    if b == [] {
      assert a + b == a;
    } else {
      ServedConcat(a, Front(b), w);
      assert Front(a + b) == a + Front(b);
    }
  }

  lemma {:induction false} OccConcat(a: seq<TaskId>, b: seq<TaskId>, t: TaskId)
    ensures Occ(a + b, t) == Occ(a, t) + Occ(b, t)
  {
    if b == [] {
      assert a + b == a;
    } else {
      OccConcat(a, Front(b), t);
      assert Front(a + b) == a + Front(b);
    }
  }

  /** Chunking arms every request, repeated ones included. */
  lemma {:induction false} ChunksServe(key: Key, tasks: seq<TaskId>, w: Wait)
    ensures ServedBy(Chunks(key, tasks), w) == if w.key == key then Occ(tasks, w.task) else 0
    decreases |tasks|
  {
    if tasks != [] {
      var n := Min(MAX_CHUNK, |tasks|);
      var head, tail := [Reg(key, tasks[..n])], Chunks(key, tasks[n..]);
      ChunksServe(key, tasks[n..], w);
      assert tasks == tasks[..n] + tasks[n..];
      OccConcat(tasks[..n], tasks[n..], w.task);
      ServedConcat(head, tail, w);
      assert Front(head) == [];
    }
  }

  lemma {:induction false} RegistrationsServe(p: map<Key, seq<TaskId>>, keys: seq<Key>, w: Wait)
    requires NoDup(keys) && forall k | k in keys :: k in p
    ensures ServedBy(Registrations(p, keys), w) == if w.key in keys then AskedIn(p, w) else 0
  {
    if keys != [] {
      var before, k := Front(keys), Last(keys);
      assert keys == before + [k] && k !in before;
      RegistrationsServe(p, before, w);
      ChunksServe(k, p[k], w);
      ServedConcat(Registrations(p, before), Chunks(k, p[k]), w);
    }
  }

  /** Every callback of `ids` is called in turn, and no task waits again. */
  function CallEach(s: State, ids: seq<CbId>): Option<State> {
    if ids == [] then Some(s)
    else
      match CallEach(s, Front(ids))
      case None => None
      case Some(m) => if Last(ids) in m.slab then AfterEnd(AfterBegin(m, Last(ids)), Last(ids)) else None
  }

  /** The decrement loop takes off one for each occurrence, so there must be as many. */
  lemma {:induction false} DecrementTakes(count: map<Wait, nat>, key: Key, tasks: seq<TaskId>, w: Wait)
    requires Decrement(count, key, tasks).Some?
    ensures var c := Decrement(count, key, tasks).value;
      && (if w in c.count then c.count[w] else 0) + Served(Reg(key, tasks), w) == (if w in count then count[w] else 0)
      && (w.key == key && w.task in c.finished ==> w in c.count && c.count[w] == 0)
  {
    if tasks != [] {
      DecrementTakes(count, key, Front(tasks), w);
      var front := Decrement(count, key, Front(tasks)).value;
      assert forall t :: t in front.finished + [Last(tasks)] <==> t in front.finished || t == Last(tasks);
    }
  }

  lemma CallTakes(s: State, id: CbId, w: Wait)
    requires id in s.slab && AfterEnd(AfterBegin(s, id), id).Some?
    ensures var s' := AfterEnd(AfterBegin(s, id), id).value;
      && CountOf(s', w) + Served(s.slab[id], w) == CountOf(s, w)
      && (forall j | j in s.slab && j != id :: j in s'.slab && s'.slab[j] == s.slab[j])
  {
    var r := s.slab[id];
    DecrementTakes(s.count, r.key, r.tasks, w);
    assert Reg(r.key, r.tasks) == r;
  }

  lemma {:induction false} CallEachTakes(s: State, regs: seq<Reg>, ids: seq<CbId>, w: Wait)
    requires |regs| == |ids| && NoDup(ids) && forall i | 0 <= i < |ids| :: ids[i] in s.slab && s.slab[ids[i]] == regs[i]
    requires CallEach(s, ids).Some?
    ensures var m := CallEach(s, ids).value;
      && CountOf(m, w) + ServedBy(regs, w) == CountOf(s, w)
      && (forall j | j in s.slab && j !in ids :: j in m.slab && m.slab[j] == s.slab[j])
  {
    if ids != [] {
      var before, id := Front(ids), Last(ids);
      assert ids == before + [id] && id !in before;
      CallEachTakes(s, Front(regs), before, w);
      CallTakes(CallEach(s, before).value, id, w);
    }
  }

  lemma {:induction false} InstalledAt(slab: map<CbId, Reg>, regs: seq<Reg>, ids: seq<CbId>, i: nat)
    requires |regs| == |ids| && NoDup(ids) && i < |ids|
    ensures ids[i] in Install(slab, regs, ids) && Install(slab, regs, ids)[ids[i]] == regs[i]
  {
    if i < |ids| - 1 {
      InstalledAt(slab, Front(regs), Front(ids), i);
      assert ids[i] != ids[|ids| - 1];
    }
  }

  lemma UnfairArms(s: State, asleep: set<Wait>, order: seq<Slot>, keys: seq<Key>, ids: seq<CbId>)
    requires SlotInv(s, asleep) && !Fair(s, asleep) && s.due == {} && s.firing == {} && ArmChoice(s, order, keys, ids)
    ensures CallEach(AfterArm(s, order, keys, ids), ids) == None
  {
    var w :| !Held(s, w) && !FairlyAsked(s, asleep, w);
    var p := Unpark(s.pending, s.parked, order);
    var regs := Registrations(p, keys);
    LeftAsked(s, asleep, order, w);
    RegistrationsServe(p, keys, w);
    assert ServedBy(regs, w) > CountOf(s, w);
    var s' := AfterArm(s, order, keys, ids);
    if CallEach(s', ids).Some? {
      forall i | 0 <= i < |ids| ensures ids[i] in s'.slab && s'.slab[ids[i]] == regs[i] {
        InstalledAt(s.slab, regs, ids, i);
      }
      CallEachTakes(s', regs, ids, w);
      assert false;
    }
  }

  // ---- and then no state with the invariant is reached ----

  lemma {:induction false} CallEachKeeps(s: State, ids: seq<CbId>)
    requires Inv(s) && s.due == {} && s.firing == {} && s.kept == {} && s.pending == map[]
    requires NoDup(ids) && forall id | id in ids :: id in s.slab
    ensures CallEach(s, ids).Some?
    ensures var m := CallEach(s, ids).value;
      && Inv(m) && m.due == {} && m.firing == {} && m.kept == {} && m.pending == map[]
      && (forall j | j in s.slab && j !in ids :: j in m.slab)
  {
    if ids != [] {
      var before, id := Front(ids), Last(ids);
      assert ids == before + [id] && id !in before;
      CallEachKeeps(s, before);
      CallKeeps(CallEach(s, before).value, id);
    }
  }

  lemma CallKeeps(s: State, id: CbId)
    requires Inv(s) && s.due == {} && s.firing == {} && s.kept == {} && s.pending == map[] && id in s.slab
    ensures AfterEnd(AfterBegin(s, id), id).Some?
    ensures var m := AfterEnd(AfterBegin(s, id), id).value;
      && Inv(m) && m.due == {} && m.firing == {} && m.kept == {} && m.pending == map[]
      && (forall j | j in s.slab && j != id :: j in m.slab)
  {
    var b := AfterBegin(s, id);
    PhaseChangeInv(s, b);
    EndInv(b, id);
    var c := EndCounts(b, id);
    assert RegOk(b.slab[id]) && b.slab[id].tasks[0] in c.finished;
  }

  /**
   Between two armings any changes may come, each once the callbacks it hits are done with earlier
   ones, hitting any number of kept callbacks, in any order. Nothing fails then. The next arming
   restores the invariant if and only if, each time a kept callback was called again, all of its
   tasks waited again before it settled; if not, calling what was armed, with nobody waiting again,
   panics.
   */
  lemma GlitchHarmlessIff(s: State, events: seq<Event>, order: seq<Slot>, keys: seq<Key>, ids: seq<CbId>)
    requires Inv(s) && s.due == {} && s.firing == {} && OrderlyRun(s, s.count.Keys, events)
    ensures SlotRun(s, s.count.Keys, events).Some?
    ensures var last := SlotRun(s, s.count.Keys, events).value;
      last.due == {} && last.firing == {} && ArmChoice(last, order, keys, ids) ==>
        var armed := AfterArm(last, order, keys, ids);
        && (Inv(armed) <==> AlwaysWaitedAgain(s, s.count.Keys, events))
        && (Inv(armed) <==> CallEach(armed, ids).Some?)
  {
    hide Inv, SlotInv, Fair, AlwaysWaitedAgain, OrderlyRun, AfterArm, ArmChoice, CallEach;
    DisciplinedSlot(s);
    var last, asleep := SlotRunKeeps(s, s.count.Keys, events);
    if last.due == {} && last.firing == {} && ArmChoice(last, order, keys, ids) {
      if AlwaysWaitedAgain(s, s.count.Keys, events) {
        FairArms(last, asleep, order, keys, ids);
      } else {
        UnfairArms(last, asleep, order, keys, ids);
      }
      ArmedCallable(last, order, keys, ids);
    }
  }

  lemma ArmedCallable(s: State, order: seq<Slot>, keys: seq<Key>, ids: seq<CbId>)
    requires s.due == {} && s.firing == {} && ArmChoice(s, order, keys, ids)
    ensures Inv(AfterArm(s, order, keys, ids)) ==> CallEach(AfterArm(s, order, keys, ids), ids).Some?
  {
    var s' := AfterArm(s, order, keys, ids);
    var regs := Registrations(Unpark(s.pending, s.parked, order), keys);
    if Inv(s') {
      forall id | id in ids ensures id in s'.slab {
        var i :| 0 <= i < |ids| && ids[i] == id;
        InstalledAt(s.slab, regs, ids, i);
      }
      CallEachKeeps(s', ids);
    }
  }
}
