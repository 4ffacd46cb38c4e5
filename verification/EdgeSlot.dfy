/**
 What can happen between two armings when a value change may also hit callbacks that were already
 called and kept. Repeated requests are allowed here, and so are callbacks called again.
 */
module EdgeSlot {
  import opened Common
  import opened EdgeModel
  import opened EdgeInvariant

  /** How often `t` occurs. */
  function Occ(q: seq<TaskId>, t: TaskId): nat {
    if q == [] then 0 else Occ(Front(q), t) + if Last(q) == t then 1 else 0
  }

  /** How many requests for `w` wait to be armed. */
  function Asked(s: State, w: Wait): nat {
    Occ(PendingOf(s, w.key), w.task)
  }

  lemma {:induction false} OccIn(q: seq<TaskId>, t: TaskId)
    ensures Occ(q, t) > 0 <==> t in q
  {
    if q != [] {
      OccIn(Front(q), t);
      assert q == Front(q) + [Last(q)];
    }
  }

  lemma OccSnoc(q: seq<TaskId>, x: TaskId, t: TaskId)
    ensures Occ(q + [x], t) == Occ(q, t) + if x == t then 1 else 0
  {
    assert Front(q + [x]) == q;
  }

  // ---- the failing lookup ----

  lemma {:induction false} DecrementFailsIff(count: map<Wait, nat>, key: Key, tasks: seq<TaskId>)
    requires NoDup(tasks)
    ensures Decrement(count, key, tasks).None? <==> exists t :: t in tasks && (Wait(key, t) !in count || count[Wait(key, t)] == 0)
  {
    if tasks != [] {
      var front, t := Front(tasks), Last(tasks);
      assert tasks == front + [t] && t !in front;
      DecrementFailsIff(count, key, front);
      if Decrement(count, key, front).Some? {
        DecrementEffect(count, key, front);
      }
    }
  }

  /** Settling panics if and only if some task of the callback has no positive count. */
  lemma EndPanicsIff(s: State, id: CbId)
    requires id in s.slab && NoDup(s.slab[id].tasks)
    ensures AfterEnd(s, id).None? <==> exists t :: t in s.slab[id].tasks && CountOf(s, Wait(s.slab[id].key, t)) == 0
  {
    var r := s.slab[id];
    DecrementFailsIff(s.count, r.key, r.tasks);
    forall t | t in r.tasks
      ensures CountOf(s, Wait(r.key, t)) == 0 <==> Wait(r.key, t) !in s.count || s.count[Wait(r.key, t)] == 0
    {
    }
  }

  // ---- who is asleep ----

  /** `asleep` holds the waits that were posted and whose task has not been resumed since. */
  function Track(asleep: set<Wait>, s: State, e: Event): set<Wait> {
    match e
    case Register(w) => asleep + {w}
    case Begin(id) => if id in s.slab then asleep - set t | t in s.slab[id].tasks :: Wait(s.slab[id].key, t) else asleep
    case _ => asleep
  }

  /**
   What is still asked of callers: a task that sleeps posts nothing, and a change hits no callback
   that is about to be called or being called. Callbacks that were called before may be hit.
   */
  ghost predicate Orderly(s: State, asleep: set<Wait>, e: Event) {
    match e
    case Register(w) => w !in asleep
    case Change(signal, v) => forall id | id in s.slab && Hit(s.slab[id], signal, v) :: id !in s.due && id !in s.firing
    case Arm(_, _, _) => false
    case _ => true
  }

  /** If `e` settles a callback that had been called and kept before, all of its tasks wait again. */
  ghost predicate WaitedAgain(s: State, asleep: set<Wait>, e: Event) {
    e.End? && e.id in s.kept && e.id in s.slab ==> forall w | InReg(s.slab[e.id], w) :: w in asleep
  }

  // ---- invariant ----

  function Sleeps(asleep: set<Wait>, w: Wait): nat {
    if w in asleep then 1 else 0
  }

  /** Count and requests of a task that sits in callback `id`. */
  predicate HeldOk(s: State, asleep: set<Wait>, id: CbId, w: Wait) {
    var b := Sleeps(asleep, w);
    if id in s.firing then
      CountOf(s, w) == 1 + b && if id in s.kept then Asked(s, w) >= 1 + b else Asked(s, w) == b
    else
      b == 1 && CountOf(s, w) == 1 && if id in s.kept then Asked(s, w) >= 1 else Asked(s, w) == 0
  }

  ghost predicate Held(s: State, w: Wait) {
    exists id :: id in s.slab && InReg(s.slab[id], w)
  }

  /** A request that sits in no callback is counted once. */
  predicate FairlyAsked(s: State, asleep: set<Wait>, w: Wait) {
    Asked(s, w) == CountOf(s, w) == Sleeps(asleep, w)
  }

  ghost predicate SlotShape(s: State) {
    && SlabOk(s.slab)
    && s.due <= s.slab.Keys && s.firing <= s.slab.Keys && s.kept <= s.slab.Keys && s.due !! s.firing
    && ParkedOk(s)
    && (forall id | id in s.kept :: id in s.slab && SlotOf(s, id) in s.parked)
    && (forall w | w in s.count :: s.count[w] > 0)
    && (forall k | k in s.pending :: s.pending[k] != [])
  }

  ghost predicate SlotInv(s: State, asleep: set<Wait>) {
    && SlotShape(s)
    && (forall id, w | id in s.slab && InReg(s.slab[id], w) :: HeldOk(s, asleep, id, w))
    && (forall w | !Held(s, w) :: Asked(s, w) > CountOf(s, w) || FairlyAsked(s, asleep, w))
  }

  /** No request has lost its count. */
  ghost predicate Fair(s: State, asleep: set<Wait>) {
    forall w | !Held(s, w) :: FairlyAsked(s, asleep, w)
  }

  lemma {:induction false} OccOnce(q: seq<TaskId>, t: TaskId)
    requires NoDup(q)
    ensures Occ(q, t) == if t in q then 1 else 0
  {
    if q != [] {
      OccOnce(Front(q), t);
      assert q == Front(q) + [Last(q)];
      assert Last(q) !in Front(q);
    }
  }

  /** Between deliveries of a disciplined run everything that counts sleeps, and all is fair. */
  lemma DisciplinedSlot(s: State)
    requires Inv(s) && s.due == {} && s.firing == {}
    ensures SlotInv(s, s.count.Keys) && Fair(s, s.count.Keys)
  {
    forall w ensures Asked(s, w) == if IsPending(s, w) then 1 else 0 {
      if w.key in s.pending {
        OccOnce(s.pending[w.key], w.task);
      }
    }
    forall id, w | id in s.slab && InReg(s.slab[id], w) ensures HeldOk(s, s.count.Keys, id, w) {
      assert CountOf(s, w) == Owed(s, w);
      if id in s.kept {
        assert !IsActive(s, w) by {
          forall j | j in s.slab && j !in s.kept ensures !InReg(s.slab[j], w) {
            assert Apart(s.slab[id], s.slab[j]);
          }
        }
      } else {
        assert IsActive(s, w);
      }
    }
    forall w | !Held(s, w) ensures FairlyAsked(s, s.count.Keys, w) {
      assert CountOf(s, w) == Owed(s, w) && (w in s.count ==> s.count[w] > 0);
      assert !IsActive(s, w);
    }
  }

  // ---- steps ----

  lemma OneHolder(s: State, id: CbId, j: CbId, w: Wait)
    requires SlabOk(s.slab) && id in s.slab && j in s.slab && InReg(s.slab[id], w) && InReg(s.slab[j], w)
    ensures id == j
  {
    assert id != j ==> Apart(s.slab[id], s.slab[j]);
  }

  lemma RegisterSlot(s: State, asleep: set<Wait>, w: Wait)
    requires SlotInv(s, asleep) && w !in asleep
    ensures var s', asleep' := AfterRegister(s, w), asleep + {w};
      SlotInv(s', asleep') && (Fair(s', asleep') <==> Fair(s, asleep))
  {
    var s', asleep' := AfterRegister(s, w), asleep + {w};
    forall x
      ensures Asked(s', x) == Asked(s, x) + if x == w then 1 else 0
      ensures CountOf(s', x) == CountOf(s, x) + if x == w then 1 else 0
      ensures Sleeps(asleep', x) == Sleeps(asleep, x) + if x == w then 1 else 0
    {
      OccSnoc(PendingOf(s, w.key), w.task, x.task);
    }
    assert SlotShape(s');
    PostedBooks(s, s', asleep, asleep', w);
  }

  /** One more request, count and sleeper for `w`, whose task was awake. */
  lemma PostedBooks(s: State, s': State, asleep: set<Wait>, asleep': set<Wait>, w: Wait)
    requires SlotInv(s, asleep) && SlotShape(s') && w !in asleep
    requires s'.slab == s.slab && s'.firing == s.firing && s'.kept == s.kept
    requires forall x :: Asked(s', x) == Asked(s, x) + if x == w then 1 else 0
    requires forall x :: CountOf(s', x) == CountOf(s, x) + if x == w then 1 else 0
    requires forall x :: Sleeps(asleep', x) == Sleeps(asleep, x) + if x == w then 1 else 0
    ensures SlotInv(s', asleep') && (Fair(s', asleep') <==> Fair(s, asleep))
  {
    hide SlotShape, Asked, CountOf;
    SameHolders(s, s');
    forall id, x | id in s'.slab && InReg(s'.slab[id], x) ensures HeldOk(s', asleep', id, x) {
      assert HeldOk(s, asleep, id, x);
    }
    forall x | !Held(s', x) ensures FairlyAsked(s', asleep', x) <==> FairlyAsked(s, asleep, x) {
    }
  }

  lemma ChangeSlot(s: State, asleep: set<Wait>, signal: Signal, v: int)
    requires SlotInv(s, asleep) && Orderly(s, asleep, Change(signal, v))
    ensures var s' := AfterChange(s, signal, v);
      SlotInv(s', asleep) && (Fair(s', asleep) <==> Fair(s, asleep))
  {
    var s' := AfterChange(s, signal, v);
    SameBooks(s, s', asleep);
    assert SlotShape(s');
    forall id, x | id in s'.slab && InReg(s'.slab[id], x) ensures HeldOk(s', asleep, id, x) {
      assert HeldOk(s, asleep, id, x);
    }
  }

  lemma SameBooks(s: State, s': State, asleep: set<Wait>)
    requires s'.slab == s.slab && s'.count == s.count && s'.pending == s.pending
    ensures forall w :: (Held(s', w) <==> Held(s, w)) && Asked(s', w) == Asked(s, w) && CountOf(s', w) == CountOf(s, w)
    ensures forall w :: FairlyAsked(s', asleep, w) <==> FairlyAsked(s, asleep, w)
  {
  }

  lemma BeginSlot(s: State, asleep: set<Wait>, id: CbId)
    requires SlotInv(s, asleep) && Enabled(s, Begin(id))
    ensures var s', asleep' := AfterBegin(s, id), Track(asleep, s, Begin(id));
      SlotInv(s', asleep') && (Fair(s', asleep') <==> Fair(s, asleep))
  {
    var s', asleep' := AfterBegin(s, id), Track(asleep, s, Begin(id));
    SameBooks(s, s', asleep);
    assert SlotShape(s');
    forall x ensures x in asleep' <==> x in asleep && !InReg(s.slab[id], x) {
    }
    forall j, x | j in s'.slab && InReg(s'.slab[j], x) ensures HeldOk(s', asleep', j, x) {
      assert HeldOk(s, asleep, j, x);
      if InReg(s.slab[id], x) {
        OneHolder(s, id, j, x);
      }
    }
    forall x | !Held(s', x) ensures FairlyAsked(s', asleep', x) <==> FairlyAsked(s, asleep, x) {
      assert !InReg(s.slab[id], x);
    }
  }

  /** What the decrement loop makes of the counts of a callback that settles. */
  lemma SettlingCounts(s: State, asleep: set<Wait>, id: CbId) returns (c: Counted)
    requires SlotInv(s, asleep) && Enabled(s, End(id))
    ensures Decrement(s.count, s.slab[id].key, s.slab[id].tasks) == Some(c)
    ensures c.count.Keys == s.count.Keys
    ensures forall w | w in s.count :: c.count[w] == if InReg(s.slab[id], w) then s.count[w] - 1 else s.count[w]
    ensures forall w | InReg(s.slab[id], w) :: w in s.count && c.count[w] == Sleeps(asleep, w)
    ensures forall t :: t in c.finished <==> t in s.slab[id].tasks && Wait(s.slab[id].key, t) !in asleep
    ensures c.finished != [] ==> exists w :: InReg(s.slab[id], w) && w !in asleep
  {
    var r := s.slab[id];
    forall t | t in r.tasks
      ensures var w := Wait(r.key, t); w in s.count && s.count[w] == 1 + Sleeps(asleep, w)
    {
      assert InReg(r, Wait(r.key, t));
      assert HeldOk(s, asleep, id, Wait(r.key, t));
    }
    DecrementEffect(s.count, r.key, r.tasks);
    c := Decrement(s.count, r.key, r.tasks).value;
    forall w | InReg(r, w) ensures w in s.count && c.count[w] == Sleeps(asleep, w) {
      assert w == Wait(r.key, w.task);
    }
    if c.finished != [] {
      assert c.finished[0] in c.finished;
      assert InReg(r, Wait(r.key, c.finished[0]));
    }
  }

  /** The other callbacks do not notice that `id` settles. */
  lemma OthersHeld(s: State, s': State, asleep: set<Wait>, id: CbId, j: CbId, x: Wait)
    requires SlotInv(s, asleep) && id in s.slab && j in s.slab && j != id && InReg(s.slab[j], x)
    requires s'.pending == s.pending && CountOf(s', x) == CountOf(s, x)
    requires (j in s'.kept <==> j in s.kept) && (j in s'.firing <==> j in s.firing)
    ensures HeldOk(s', asleep, j, x) && !InReg(s.slab[id], x)
  {
    assert HeldOk(s, asleep, j, x);
    assert Apart(s.slab[id], s.slab[j]);
  }

  lemma KeptShape(s: State, asleep: set<Wait>, id: CbId, c: Counted)
    requires SlotInv(s, asleep) && Enabled(s, End(id))
    requires Decrement(s.count, s.slab[id].key, s.slab[id].tasks) == Some(c) && c.finished == []
    requires forall w | w in c.count :: c.count[w] > 0
    ensures SlotShape(AfterEnd(s, id).value)
  {
    var s' := AfterEnd(s, id).value;
    forall slot | slot in s'.parked
      ensures slot.id in s'.slab && s'.slab[slot.id] == Reg(ParkedKey(s'.parked, slot), s'.parked[slot].tasks)
    {
      assert slot in s.parked || slot == SlotOf(s, id);
    }
  }

  /** All tasks wait again: the callback is kept. */
  lemma SettleKept(s: State, asleep: set<Wait>, id: CbId)
    requires SlotInv(s, asleep) && Enabled(s, End(id))
    requires forall w | InReg(s.slab[id], w) :: w in asleep
    ensures AfterEnd(s, id).Some?
    ensures var s' := AfterEnd(s, id).value; SlotInv(s', asleep) && (Fair(s', asleep) <==> Fair(s, asleep))
  {
    var r := s.slab[id];
    var c := SettlingCounts(s, asleep, id);
    KeptShape(s, asleep, id, c);
    var s' := AfterEnd(s, id).value;
    forall x ensures CountOf(s', x) == CountOf(s, x) - if InReg(r, x) then 1 else 0 {
      hide SlotInv, SlotShape;
    }
    KeptBooks(s, s', asleep, id);
  }

  lemma KeptBooks(s: State, s': State, asleep: set<Wait>, id: CbId)
    requires SlotInv(s, asleep) && SlotShape(s') && id in s.firing && id in s.slab
    requires forall w | InReg(s.slab[id], w) :: w in asleep
    requires s'.pending == s.pending && s'.slab == s.slab && s'.firing == s.firing - {id} && s'.kept == s.kept + {id}
    requires forall x :: CountOf(s', x) == CountOf(s, x) - if InReg(s.slab[id], x) then 1 else 0
    ensures SlotInv(s', asleep) && (Fair(s', asleep) <==> Fair(s, asleep))
  {
    hide HeldOk, SlotShape;
    SameHolders(s, s');
    forall j, x | j in s'.slab && InReg(s'.slab[j], x) ensures HeldOk(s', asleep, j, x) {
      if j == id {
        KeptHeld(s, s', asleep, id, x);
      } else {
        if InReg(s.slab[id], x) {
          OneHolderIn(s, asleep, id, j, x);
        }
        OthersHeld(s, s', asleep, id, j, x);
      }
    }
    forall x | !Held(s, x) ensures CountOf(s', x) == CountOf(s, x) && Asked(s', x) == Asked(s, x) {
      assert !InReg(s.slab[id], x);
    }
  }

  lemma SameHolders(s: State, s': State)
    requires s'.slab == s.slab
    ensures forall w :: Held(s', w) <==> Held(s, w)
  {
  }

  lemma OneHolderIn(s: State, asleep: set<Wait>, id: CbId, j: CbId, x: Wait)
    requires SlotInv(s, asleep) && id in s.slab && j in s.slab && InReg(s.slab[id], x) && InReg(s.slab[j], x)
    ensures id == j
  {
    OneHolder(s, id, j, x);
  }

  lemma KeptHeld(s: State, s': State, asleep: set<Wait>, id: CbId, x: Wait)
    requires SlotInv(s, asleep) && id in s.firing && id in s.slab && InReg(s.slab[id], x) && x in asleep
    requires s'.pending == s.pending && CountOf(s', x) == CountOf(s, x) - 1 && id in s'.kept && id !in s'.firing
    ensures HeldOk(s', asleep, id, x)
  {
    hide SlotShape;
    assert HeldOk(s, asleep, id, x);
  }

  /** Some task does not wait: the callback is released, and unless it had been kept before no request loses its count. */
  lemma SettleReleased(s: State, asleep: set<Wait>, id: CbId, w: Wait)
    requires SlotInv(s, asleep) && Enabled(s, End(id))
    requires InReg(s.slab[id], w) && w !in asleep
    ensures AfterEnd(s, id).Some?
    ensures var s' := AfterEnd(s, id).value; SlotInv(s', asleep) && (Fair(s', asleep) <==> Fair(s, asleep) && id !in s.kept)
  {
    var r := s.slab[id];
    var c := SettlingCounts(s, asleep, id);
    assert w == Wait(r.key, w.task) && w.task in c.finished;
    ReleasedShape(s, asleep, id, c);
    var s' := AfterEnd(s, id).value;
    forall x ensures CountOf(s', x) == if InReg(r, x) then Sleeps(asleep, x) else CountOf(s, x) {
      hide SlotInv, SlotShape;
      if InReg(r, x) {
        assert x == Wait(r.key, x.task);
      }
    }
    ReleasedBooks(s, s', asleep, id, w);
  }

  lemma ReleasedBooks(s: State, s': State, asleep: set<Wait>, id: CbId, w: Wait)
    requires SlotInv(s, asleep) && SlotShape(s') && id in s.firing && id in s.slab && InReg(s.slab[id], w)
    requires s'.pending == s.pending && s'.slab == s.slab - {id} && s'.firing == s.firing - {id} && s'.kept == s.kept - {id}
    requires forall x :: CountOf(s', x) == if InReg(s.slab[id], x) then Sleeps(asleep, x) else CountOf(s, x)
    ensures SlotInv(s', asleep) && (Fair(s', asleep) <==> Fair(s, asleep) && id !in s.kept)
  {
    hide HeldOk, SlotShape, FairlyAsked;
    forall j, x | j in s'.slab && InReg(s'.slab[j], x) ensures HeldOk(s', asleep, j, x) {
      if InReg(s.slab[id], x) {
        OneHolderIn(s, asleep, id, j, x);
      }
      OthersHeld(s, s', asleep, id, j, x);
    }
    forall x
      ensures Held(s', x) <==> Held(s, x) && !InReg(s.slab[id], x)
      ensures InReg(s.slab[id], x) ==> (FairlyAsked(s', asleep, x) <==> id !in s.kept)
      ensures !Held(s', x) ==> Asked(s', x) > CountOf(s', x) || FairlyAsked(s', asleep, x)
      ensures !Held(s, x) ==> !InReg(s.slab[id], x) && (FairlyAsked(s', asleep, x) <==> FairlyAsked(s, asleep, x))
    {
      ReleasedHolders(s, s', asleep, id, x);
      if InReg(s.slab[id], x) {
        ReleasedWait(s, s', asleep, id, x);
      } else {
        SameFairness(s, s', asleep, x);
      }
    }
    assert !Held(s', w);
  }

  lemma SameFairness(s: State, s': State, asleep: set<Wait>, x: Wait)
    requires s'.pending == s.pending && CountOf(s', x) == CountOf(s, x)
    ensures Asked(s', x) == Asked(s, x) && (FairlyAsked(s', asleep, x) <==> FairlyAsked(s, asleep, x))
  {
  }

  lemma ReleasedWait(s: State, s': State, asleep: set<Wait>, id: CbId, x: Wait)
    requires SlotInv(s, asleep) && id in s.firing && id in s.slab && InReg(s.slab[id], x)
    requires s'.pending == s.pending && CountOf(s', x) == Sleeps(asleep, x)
    ensures FairlyAsked(s', asleep, x) <==> id !in s.kept
    ensures Asked(s', x) > CountOf(s', x) || FairlyAsked(s', asleep, x)
  {
    hide SlotShape;
    assert HeldOk(s, asleep, id, x);
  }

  lemma ReleasedHolders(s: State, s': State, asleep: set<Wait>, id: CbId, x: Wait)
    requires SlotInv(s, asleep) && id in s.slab && s'.slab == s.slab - {id}
    ensures Held(s', x) <==> Held(s, x) && !InReg(s.slab[id], x)
    ensures InReg(s.slab[id], x) ==> Held(s, x)
  {
    if Held(s, x) && !InReg(s.slab[id], x) {
      var j :| j in s.slab && InReg(s.slab[j], x);
      assert j in s'.slab && InReg(s'.slab[j], x);
    }
    if Held(s', x) {
      var j :| j in s'.slab && InReg(s'.slab[j], x);
      assert j in s.slab && InReg(s.slab[j], x);
      assert Apart(s.slab[id], s.slab[j]);
    }
  }

  lemma ReleasedShape(s: State, asleep: set<Wait>, id: CbId, c: Counted)
    requires SlotInv(s, asleep) && Enabled(s, End(id))
    requires Decrement(s.count, s.slab[id].key, s.slab[id].tasks) == Some(c) && c.finished != []
    requires c.count.Keys == s.count.Keys
    requires forall w | w in s.count :: c.count[w] == if InReg(s.slab[id], w) then s.count[w] - 1 else s.count[w]
    requires forall w | InReg(s.slab[id], w) :: w in s.count && c.count[w] == Sleeps(asleep, w)
    requires forall t :: t in c.finished <==> t in s.slab[id].tasks && Wait(s.slab[id].key, t) !in asleep
    ensures SlotShape(AfterEnd(s, id).value)
  {
    hide Decrement, HeldOk, FairlyAsked;
    var s' := AfterEnd(s, id).value;
    ReleasedParked(s, id, s');
    PositiveLeft(s.count, s.slab[id], asleep, c);
  }

  /** The counts that reach zero are those of the finished tasks, which are removed. */
  lemma PositiveLeft(count: map<Wait, nat>, r: Reg, asleep: set<Wait>, c: Counted)
    requires forall w | w in count :: count[w] > 0
    requires c.count.Keys == count.Keys && forall w | w in count && !InReg(r, w) :: c.count[w] == count[w]
    requires forall w | InReg(r, w) :: w in count && c.count[w] == Sleeps(asleep, w)
    requires forall t :: t in c.finished <==> t in r.tasks && Wait(r.key, t) !in asleep
    ensures forall x | x in RemoveCounts(c.count, r.key, c.finished) :: RemoveCounts(c.count, r.key, c.finished)[x] > 0
  {
    var left := RemoveCounts(c.count, r.key, c.finished);
    forall x | x in left ensures left[x] > 0 {
      if InReg(r, x) {
        assert x == Wait(r.key, x.task) && x.task !in c.finished;
      }
    }
  }

  /** One event: no panic, the invariant holds again, and fairness is lost exactly where a kept callback's task stays away. */
  lemma SlotStep(s: State, asleep: set<Wait>, e: Event)
    requires SlotInv(s, asleep) && Enabled(s, e) && Orderly(s, asleep, e)
    ensures Step(s, e).Some?
    ensures var s', asleep' := Step(s, e).value, Track(asleep, s, e);
      SlotInv(s', asleep') && (Fair(s', asleep') <==> Fair(s, asleep) && WaitedAgain(s, asleep, e))
  {
    hide SlotInv, Fair;
    match e
    case Register(w) => RegisterSlot(s, asleep, w);
    case Change(signal, v) => ChangeSlot(s, asleep, signal, v);
    case Begin(id) => BeginSlot(s, asleep, id);
    case End(id) =>
      if forall w | InReg(s.slab[id], w) :: w in asleep {
        SettleKept(s, asleep, id);
      } else {
        var w :| InReg(s.slab[id], w) && w !in asleep;
        SettleReleased(s, asleep, id, w);
      }
  }

  // ---- all that happens between two armings ----

  ghost predicate OrderlyRun(s: State, asleep: set<Wait>, events: seq<Event>)
    decreases |events|
  {
    events == [] ||
    (&& Enabled(s, events[0]) && Orderly(s, asleep, events[0])
     && (Step(s, events[0]).Some? ==> OrderlyRun(Step(s, events[0]).value, Track(asleep, s, events[0]), events[1..])))
  }

  ghost function SlotRun(s: State, asleep: set<Wait>, events: seq<Event>): Option<State>
    requires OrderlyRun(s, asleep, events)
    decreases |events|
  {
    if events == [] then Some(s)
    else
      match Step(s, events[0])
      case None => None
      case Some(s') => SlotRun(s', Track(asleep, s, events[0]), events[1..])
  }

  /** Every kept callback that is called again finds all of its tasks waiting again when it settles. */
  ghost predicate AlwaysWaitedAgain(s: State, asleep: set<Wait>, events: seq<Event>)
    requires OrderlyRun(s, asleep, events)
    decreases |events|
  {
    events == [] ||
    (&& WaitedAgain(s, asleep, events[0])
     && (Step(s, events[0]).Some? ==> AlwaysWaitedAgain(Step(s, events[0]).value, Track(asleep, s, events[0]), events[1..])))
  }

  /** Nothing panics, and fairness lasts exactly as long as kept callbacks find their tasks waiting again. */
  lemma {:induction false} SlotRunKeeps(s: State, asleep: set<Wait>, events: seq<Event>) returns (last: State, asleep': set<Wait>)
    requires SlotInv(s, asleep) && OrderlyRun(s, asleep, events)
    ensures SlotRun(s, asleep, events) == Some(last)
    ensures SlotInv(last, asleep')
    ensures Fair(last, asleep') <==> Fair(s, asleep) && AlwaysWaitedAgain(s, asleep, events)
    decreases |events|
  {
    hide SlotInv, Fair, Step, Track, WaitedAgain, Enabled, Orderly;
    if events == [] {
      last, asleep' := s, asleep;
    } else {
      SlotStep(s, asleep, events[0]);
      last, asleep' := SlotRunKeeps(Step(s, events[0]).value, Track(asleep, s, events[0]), events[1..]);
    }
  }
}
