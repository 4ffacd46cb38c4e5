/** Order: the tasks of one signal and edge are armed, and so woken, in the order in which they asked. */
module EdgeOrder {
  import opened Common
  import opened EdgeModel
  import opened EdgeInvariant
  import opened EdgeArming
  import opened EdgeRefinement

  // ---- requests ----

  /** The tasks that ask for `key`, in order. */
  function AskedFor(events: seq<Event>, key: Key): seq<TaskId> {
    if events == [] then []
    else
      (if events[0].Register? && events[0].wait.key == key then [events[0].wait.task] else []) + AskedFor(events[1..], key)
  }

  predicate WithoutArming(events: seq<Event>) {
    forall e | e in events :: !e.Arm?
  }

  lemma {:induction false} RequestsInOrder(s: State, events: seq<Event>, key: Key)
    requires Inv(s) && DisciplinedRun(s, events) && WithoutArming(events)
    ensures Run(s, events).Some? && Inv(Run(s, events).value)
    ensures PendingOf(Run(s, events).value, key) == PendingOf(s, key) + AskedFor(events, key)
    decreases |events|
  {
    hide Inv, Disciplined;
    if events == [] {
      assert PendingOf(s, key) + [] == PendingOf(s, key);
    } else {
      var e := events[0];
      assert e in events;
      StepKeepsInv(s, e);
      StepRequests(s, e, key);
      RequestsInOrder(Step(s, e).value, events[1..], key);
    }
  }

  lemma StepKeepsInv(s: State, e: Event)
    requires Inv(s) && Enabled(s, e) && Disciplined(s, e) && !e.Arm?
    ensures Step(s, e).Some? && Inv(Step(s, e).value)
  {
    match e
    case Register(w) => RegisterInv(s, w);
    case Change(signal, v) => ChangeInv(s, signal, v);
    case Begin(id) => BeginInv(s, id);
    case End(id) => EndInv(s, id);
  }

  lemma StepRequests(s: State, e: Event, key: Key)
    requires Enabled(s, e) && !e.Arm? && Step(s, e).Some?
    ensures PendingOf(Step(s, e).value, key) ==
            PendingOf(s, key) + if e.Register? && e.wait.key == key then [e.wait.task] else []
  {
    hide Decrement;
    assert PendingOf(s, key) + [] == PendingOf(s, key);
  }

  // ---- process_cb_chunk keeps the order ----

  /** Without the tasks that sit in a kept callback among `order`. */
  ghost function LeftIn(s: State, order: seq<Slot>, key: Key, q: seq<TaskId>): seq<TaskId> {
    if q == [] then []
    else if InKept(s, order, Wait(key, Last(q))) then LeftIn(s, order, key, Front(q))
    else LeftIn(s, order, key, Front(q)) + [Last(q)]
  }

  function OrNone(p: map<Key, seq<TaskId>>, key: Key): seq<TaskId> {
    if key in p then p[key] else []
  }

  lemma {:induction false} WithoutLeft(s: State, before: seq<Slot>, slot: Slot, r: Reg, q: seq<TaskId>)
    requires slot.id in s.kept && slot.id in s.slab && s.slab[slot.id] == r
    ensures Without(LeftIn(s, before, r.key, q), r.tasks) == LeftIn(s, before + [slot], r.key, q)
  {
    if q != [] {
      WithoutLeft(s, before, slot, r, Front(q));
      InKeptSnoc(s, before, slot, Wait(r.key, Last(q)));
      var front := LeftIn(s, before, r.key, Front(q));
      if !InKept(s, before, Wait(r.key, Last(q))) {
        assert Front(front + [Last(q)]) == front;
      }
    }
  }

  lemma {:induction false} SameLeft(s: State, before: seq<Slot>, slot: Slot, key: Key, q: seq<TaskId>)
    requires slot.id in s.kept && slot.id in s.slab ==> s.slab[slot.id].key != key
    ensures LeftIn(s, before + [slot], key, q) == LeftIn(s, before, key, q)
  {
    if q != [] {
      SameLeft(s, before, slot, key, Front(q));
      InKeptSnoc(s, before, slot, Wait(key, Last(q)));
    }
  }

  lemma NothingKept(s: State, w: Wait)
    ensures !InKept(s, [], w)
  {
  }

  lemma {:induction false} NoneKept(s: State, key: Key, q: seq<TaskId>)
    ensures LeftIn(s, [], key, q) == q
  {
    hide InKept;
    if q != [] {
      NoneKept(s, key, Front(q));
      NothingKept(s, Wait(key, Last(q)));
      assert q == Front(q) + [Last(q)];
    }
  }

  lemma {:induction false} UnparkInOrder(s: State, order: seq<Slot>, key: Key)
    requires Inv(s) && s.firing == {} && NoDup(order)
    requires forall slot | slot in order :: slot in s.parked
    ensures OrNone(Unpark(s.pending, s.parked, order), key) == LeftIn(s, order, key, PendingOf(s, key))
  {
    if order == [] {
      NoneKept(s, key, PendingOf(s, key));
    } else {
      var before, slot := Front(order), Last(order);
      assert order == before + [slot] && slot !in before;
      UnparkInOrder(s, before, key);
      UnparkEffect(s, before);
      UnparkSlotInOrder(s, before, slot, key, Unpark(s.pending, s.parked, before));
    }
  }

  lemma UnparkSlotInOrder(s: State, before: seq<Slot>, slot: Slot, key: Key, p: map<Key, seq<TaskId>>)
    requires Inv(s) && s.firing == {} && slot in s.parked && slot !in before
    requires forall x | x in before :: x in s.parked
    requires forall w :: InPending(p, w) <==> IsPending(s, w) && !InKept(s, before, w)
    requires OrNone(p, key) == LeftIn(s, before, key, PendingOf(s, key))
    ensures OrNone(UnparkOne(p, ParkedKey(s.parked, slot), s.parked[slot].tasks), key) ==
            LeftIn(s, before + [slot], key, PendingOf(s, key))
  {
    var r := s.slab[slot.id];
    assert r == Reg(ParkedKey(s.parked, slot), s.parked[slot].tasks) && RegOk(r);
    if slot.id in s.kept {
      forall t | t in r.tasks ensures InPending(p, Wait(r.key, t)) {
        KeptAlone(s, before, slot, Wait(r.key, t));
      }
      assert InPending(p, Wait(r.key, r.tasks[0]));
      assert forall t | t in r.tasks :: t in p[r.key] by {
        forall t | t in r.tasks ensures t in p[r.key] {
          assert InPending(p, Wait(r.key, t));
        }
      }
      if r.key == key {
        WithoutLeft(s, before, slot, r, PendingOf(s, key));
      } else {
        SameLeft(s, before, slot, key, PendingOf(s, key));
      }
    } else {
      assert InReg(r, Wait(r.key, r.tasks[0]));
      assert !InPending(p, Wait(r.key, r.tasks[0]));
      UnparkOneMiss(p, r);
      SameLeft(s, before, slot, key, PendingOf(s, key));
    }
  }

  // ---- chunking keeps the order ----

  /** The tasks of the chunks for `key`, one chunk after the other. */
  function Joined(regs: seq<Reg>, key: Key): seq<TaskId> {
    if regs == [] then [] else (if regs[0].key == key then regs[0].tasks else []) + Joined(regs[1..], key)
  }

  lemma {:induction false} JoinedConcat(a: seq<Reg>, b: seq<Reg>, key: Key)
    ensures Joined(a + b, key) == Joined(a, key) + Joined(b, key)
  {
    if a == [] {
      assert a + b == b;
    } else {
      JoinedConcat(a[1..], b, key);
      assert (a + b)[1..] == a[1..] + b;
    }
  }

  lemma {:induction false} ChunksInOrder(key: Key, tasks: seq<TaskId>, k: Key)
    ensures Joined(Chunks(key, tasks), k) == if k == key then tasks else []
    decreases |tasks|
  {
    if tasks != [] {
      var n := Min(MAX_CHUNK, |tasks|);
      ChunksInOrder(key, tasks[n..], k);
      assert tasks == tasks[..n] + tasks[n..];
      var rest := Chunks(key, tasks[n..]);
      assert ([Reg(key, tasks[..n])] + rest)[1..] == rest;
    }
  }

  lemma {:induction false} RegistrationsInOrder(p: map<Key, seq<TaskId>>, keys: seq<Key>, k: Key)
    requires NoDup(keys) && forall key | key in keys :: key in p
    ensures Joined(Registrations(p, keys), k) == if k in keys then p[k] else []
  {
    if keys != [] {
      var before, key := Front(keys), Last(keys);
      assert keys == before + [key] && key !in before;
      RegistrationsInOrder(p, before, k);
      ChunksInOrder(key, p[key], k);
      JoinedConcat(Registrations(p, before), Chunks(key, p[key]), k);
    }
  }

  /** The callbacks that arming installs, in the order of their slots. */
  ghost function Armed(s: State, ids: seq<CbId>): seq<Reg>
    requires forall id | id in ids :: id in s.slab
  {
    seq(|ids|, i requires 0 <= i < |ids| => s.slab[ids[i]])
  }

  lemma {:induction false} InstalledRegs(slab: map<CbId, Reg>, regs: seq<Reg>, ids: seq<CbId>, i: nat)
    requires |regs| == |ids| && NoDup(ids) && i < |ids|
    ensures ids[i] in Install(slab, regs, ids) && Install(slab, regs, ids)[ids[i]] == regs[i]
  {
    if i < |ids| - 1 {
      InstalledRegs(slab, Front(regs), Front(ids), i);
      assert ids[i] != ids[|ids| - 1];
    }
  }

  /**
   From one arming to the next: the new callbacks of a signal and edge hold, one after the other, exactly
   the tasks that asked for it since, in the order in which they asked, less those that a kept callback
   serves.
   */
  lemma ArmedInOrder(s: State, events: seq<Event>, order: seq<Slot>, keys: seq<Key>, ids: seq<CbId>, key: Key)
    requires Inv(s) && s.pending == map[] && DisciplinedRun(s, events) && WithoutArming(events)
    ensures Run(s, events).Some?
    ensures var last := Run(s, events).value;
      last.due == {} && last.firing == {} && ArmChoice(last, order, keys, ids) ==>
        var armed := AfterArm(last, order, keys, ids);
        && (forall id | id in ids :: id in armed.slab)
        && Joined(Armed(armed, ids), key) == LeftIn(last, order, key, AskedFor(events, key))
  {
    hide Inv;
    RequestsInOrder(s, events, key);
    assert [] + AskedFor(events, key) == AskedFor(events, key);
    var last := Run(s, events).value;
    if last.due == {} && last.firing == {} && ArmChoice(last, order, keys, ids) {
      var p := Unpark(last.pending, last.parked, order);
      var regs := Registrations(p, keys);
      UnparkInOrder(last, order, key);
      RegistrationsInOrder(p, keys, key);
      var armed := AfterArm(last, order, keys, ids);
      forall i | 0 <= i < |ids| ensures ids[i] in armed.slab && armed.slab[ids[i]] == regs[i] {
        InstalledRegs(last.slab, regs, ids, i);
      }
      assert Armed(armed, ids) == regs;
    }
  }

  /** A callback wakes its tasks in the order in which it holds them. */
  lemma WokenInOrder(s: State, id: CbId, i: nat)
    requires Enabled(s, Begin(id)) && i < |s.slab[id].tasks|
    ensures var woken := Step(s, Begin(id)).value.woken;
      && |woken| == |s.woken| + |s.slab[id].tasks| && s.woken <= woken
      && woken[|s.woken| + i] == Wait(s.slab[id].key, s.slab[id].tasks[i])
  {
  }
}
