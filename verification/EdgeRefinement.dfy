/**
 The scheme that batching optimises, and the proof that batching refines it: a wait posted is armed
 at the next NextSimTime, a matching edge makes every armed wait due, a due wait is woken once and
 forgotten, and nothing is armed while wakeups are due.
 */
module EdgeRefinement {
  import opened Common
  import opened EdgeModel
  import opened EdgeInvariant
  import opened EdgeArming

  datatype Simple = Simple(waiting: set<Wait>, armed: set<Wait>, due: set<Wait>)

  datatype SimpleEvent =
    | Post(wait: Wait)
    | EdgeSeen(signal: Signal, value: int)
    | Wake(waits: seq<Wait>)
    | Settle
    | ArmAll

  const SIMPLE_INIT := Simple({}, {}, {})

  function HitWaits(a: set<Wait>, signal: Signal, v: int): set<Wait> {
    set w | w in a && w.key.signal == signal && Matches(w.key.edge, v)
  }

  ghost predicate SimpleEnabled(a: Simple, e: SimpleEvent) {
    match e
    case Post(w) => w !in a.waiting + a.armed + a.due
    case EdgeSeen(_, _) => true
    case Wake(ws) => NoDup(ws) && forall w | w in ws :: w in a.due
    case Settle => true
    case ArmAll => a.due == {}
  }

  function SimpleStep(a: Simple, e: SimpleEvent): Simple {
    match e
    case Post(w) => a.(waiting := a.waiting + {w})
    case EdgeSeen(signal, v) =>
      a.(armed := a.armed - HitWaits(a.armed, signal, v), due := a.due + HitWaits(a.armed, signal, v))
    case Wake(ws) => a.(due := a.due - set w | w in ws)
    case Settle => a
    case ArmAll => Simple({}, a.armed + a.waiting, a.due)
  }

  /** The same action seen by the simple scheme. */
  ghost function Abstract(s: State, e: Event): SimpleEvent
    requires Enabled(s, e)
  {
    match e
    case Register(w) => Post(w)
    case Change(signal, v) => EdgeSeen(signal, v)
    case Begin(id) => Wake(WaitsOf(s.slab[id]))
    case End(_) => Settle
    case Arm(_, _, _) => ArmAll
  }

  ghost predicate Refines(s: State, a: Simple) {
    && (forall w :: w in a.waiting <==> IsPending(s, w))
    && (forall w :: w in a.armed <==> IsArmed(s, w))
    && (forall w :: w in a.due <==> IsDue(s, w))
  }

  ghost predicate Good(s: State, a: Simple) {
    Inv(s) && Refines(s, a)
  }

  // ---- one step ----

  lemma WaitsOfMembers(r: Reg)
    ensures forall w :: w in WaitsOf(r) <==> InReg(r, w)
    ensures NoDup(r.tasks) ==> NoDup(WaitsOf(r))
  {
    forall w ensures w in WaitsOf(r) <==> InReg(r, w) {
      if InReg(r, w) {
        var i :| 0 <= i < |r.tasks| && r.tasks[i] == w.task;
        assert WaitsOf(r)[i] == w;
      }
    }
  }

  lemma SameSlabSameWaits(s: State, s': State, w: Wait)
    requires s'.slab == s.slab && s'.due == s.due && s'.firing == s.firing && s'.kept == s.kept
    ensures IsArmed(s', w) <==> IsArmed(s, w)
    ensures IsDue(s', w) <==> IsDue(s, w)
  {
    if IsArmed(s, w) {
      var id :| id in s.slab && id !in s.kept && id !in s.due && id !in s.firing && InReg(s.slab[id], w);
      assert id in s'.slab && InReg(s'.slab[id], w);
    }
    if IsDue(s, w) {
      var id :| id in s.slab && id in s.due && InReg(s.slab[id], w);
      assert id in s'.slab && InReg(s'.slab[id], w);
    }
  }

  lemma RegisterRefines(s: State, a: Simple, w: Wait)
    requires Good(s, a) && Disciplined(s, Register(w))
    ensures SimpleEnabled(a, Post(w)) && Good(AfterRegister(s, w), SimpleStep(a, Post(w)))
  {
    var s' := AfterRegister(s, w);
    RegisterInv(s, w);
    forall x ensures IsPending(s', x) <==> IsPending(s, x) || x == w {
      RegisterPending(s, w, x);
    }
    forall x ensures (IsArmed(s', x) <==> IsArmed(s, x)) && (IsDue(s', x) <==> IsDue(s, x)) {
      SameSlabSameWaits(s, s', x);
    }
  }

  lemma ChangeRefines(s: State, a: Simple, signal: Signal, v: int)
    requires Good(s, a) && Disciplined(s, Change(signal, v))
    ensures Good(AfterChange(s, signal, v), SimpleStep(a, EdgeSeen(signal, v)))
  {
    var s' := AfterChange(s, signal, v);
    ChangeInv(s, signal, v);
    forall w
      ensures IsArmed(s', w) <==> IsArmed(s, w) && !(w.key.signal == signal && Matches(w.key.edge, v))
      ensures IsDue(s', w) <==> IsDue(s, w) || (IsArmed(s, w) && w.key.signal == signal && Matches(w.key.edge, v))
    {
      if IsArmed(s, w) {
        var id :| id in s.slab && id !in s.kept && id !in s.due && id !in s.firing && InReg(s.slab[id], w);
        assert id in s'.slab && InReg(s'.slab[id], w);
      }
      if IsDue(s, w) {
        var id :| id in s.slab && id in s.due && InReg(s.slab[id], w);
        assert id in s'.due && InReg(s'.slab[id], w);
      }
      if IsArmed(s', w) {
        var id :| id in s'.slab && id !in s'.kept && id !in s'.due && id !in s'.firing && InReg(s'.slab[id], w);
        assert id in s.slab && id !in s.due && InReg(s.slab[id], w) && !Hit(s.slab[id], signal, v);
      }
      if IsDue(s', w) {
        var id :| id in s'.slab && id in s'.due && InReg(s'.slab[id], w);
        assert id in s.slab && InReg(s.slab[id], w);
      }
    }
    assert forall w :: IsPending(s', w) <==> IsPending(s, w);
  }

  lemma BeginRefines(s: State, a: Simple, id: CbId)
    requires Good(s, a) && Enabled(s, Begin(id))
    ensures SimpleEnabled(a, Wake(WaitsOf(s.slab[id])))
    ensures Good(AfterBegin(s, id), SimpleStep(a, Wake(WaitsOf(s.slab[id]))))
  {
    var s' := AfterBegin(s, id);
    BeginInv(s, id);
    WaitsOfMembers(s.slab[id]);
    assert RegOk(s.slab[id]);
    forall w | w in WaitsOf(s.slab[id]) ensures IsDue(s, w) {
      assert InReg(s.slab[id], w);
    }
    forall w
      ensures IsArmed(s', w) <==> IsArmed(s, w)
      ensures IsDue(s', w) <==> IsDue(s, w) && !InReg(s.slab[id], w)
    {
      BeginSameWaits(s, id, s', w);
    }
    assert forall w :: IsPending(s', w) <==> IsPending(s, w);
  }

  /** Firing a due callback takes its own waits out of the due ones and leaves all others. */
  lemma BeginSameWaits(s: State, id: CbId, s': State, w: Wait)
    requires id in s.slab && id in s.due && id !in s.firing
    requires forall j | j in s.due && j in s.slab && j != id :: Apart(s.slab[id], s.slab[j])
    requires s'.slab == s.slab && s'.kept == s.kept && s'.due == s.due - {id} && s'.firing == s.firing + {id}
    ensures IsArmed(s', w) <==> IsArmed(s, w)
    ensures IsDue(s', w) <==> IsDue(s, w) && !InReg(s.slab[id], w)
  {
    if IsArmed(s, w) {
      var j :| j in s.slab && j !in s.kept && j !in s.due && j !in s.firing && InReg(s.slab[j], w);
      assert j in s'.slab && j !in s'.firing && InReg(s'.slab[j], w);
    }
    if IsArmed(s', w) {
      var j :| j in s'.slab && j !in s'.kept && j !in s'.due && j !in s'.firing && InReg(s'.slab[j], w);
      assert j in s.slab && j !in s.due && InReg(s.slab[j], w);
    }
    if IsDue(s, w) && !InReg(s.slab[id], w) {
      var j :| j in s.slab && j in s.due && InReg(s.slab[j], w);
      assert j in s'.due && InReg(s'.slab[j], w);
    }
    if IsDue(s', w) {
      var j :| j in s'.slab && j in s'.due && InReg(s'.slab[j], w);
      assert j in s.due && InReg(s.slab[j], w) && Apart(s.slab[id], s.slab[j]);
    }
  }

  /** Settling a firing callback moves no armed and no due wait. */
  lemma EndSameWaits(s: State, id: CbId, s': State, w: Wait)
    requires id in s.firing && s.firing !! s.due
    requires s'.due == s.due && s'.firing == s.firing - {id}
    requires (s'.slab == s.slab && s'.kept == s.kept + {id}) || (s'.slab == s.slab - {id} && s'.kept == s.kept - {id})
    ensures (IsArmed(s', w) <==> IsArmed(s, w)) && (IsDue(s', w) <==> IsDue(s, w))
  {
    if IsArmed(s, w) {
      var j :| j in s.slab && j !in s.kept && j !in s.due && j !in s.firing && InReg(s.slab[j], w);
      assert j in s'.slab && j !in s'.kept && InReg(s'.slab[j], w);
    }
    if IsArmed(s', w) {
      var j :| j in s'.slab && j !in s'.kept && j !in s'.due && j !in s'.firing && InReg(s'.slab[j], w);
      assert j in s.slab && j != id && InReg(s.slab[j], w);
    }
    if IsDue(s, w) {
      var j :| j in s.slab && j in s.due && InReg(s.slab[j], w);
      assert j in s'.slab && j in s'.due && InReg(s'.slab[j], w);
    }
    if IsDue(s', w) {
      var j :| j in s'.slab && j in s'.due && InReg(s'.slab[j], w);
      assert j in s.slab && InReg(s.slab[j], w);
    }
  }

  lemma EndRefines(s: State, a: Simple, id: CbId)
    requires Good(s, a) && Enabled(s, End(id))
    ensures AfterEnd(s, id).Some? && Good(AfterEnd(s, id).value, a)
    ensures AfterEnd(s, id).value.registered == s.registered && AfterEnd(s, id).value.woken == s.woken
  {
    EndInv(s, id);
    var s' := AfterEnd(s, id).value;
    assert Refines(s', a) by {
      forall w
        ensures (IsArmed(s', w) <==> IsArmed(s, w)) && (IsDue(s', w) <==> IsDue(s, w))
        ensures IsPending(s', w) <==> IsPending(s, w)
      {
        EndSameWaits(s, id, s', w);
      }
    }
  }

  lemma ArmRefines(s: State, a: Simple, order: seq<Slot>, keys: seq<Key>, ids: seq<CbId>)
    requires Good(s, a) && Enabled(s, Arm(order, keys, ids))
    ensures SimpleEnabled(a, ArmAll) && Good(AfterArm(s, order, keys, ids), SimpleStep(a, ArmAll))
  {
    hide Unpark, SlabOk;
    var s' := AfterArm(s, order, keys, ids);
    ArmInv(s, order, keys, ids);
    ArmEffect(s, order, keys, ids);
    assert a.due == {} by {
      assert forall w :: !IsDue(s, w);
    }
    forall w ensures IsArmed(s', w) <==> IsArmed(s, w) || IsPending(s, w) {
      ArmWaits(s, s', w);
    }
  }

  /** Right after arming, the armed waits are all that sit in the slab. */
  lemma ArmWaits(s: State, s': State, w: Wait)
    requires KeptOk(s) && s.due == {} && s.firing == {}
    requires s'.due == {} && s'.firing == {} && s'.kept == {}
    requires InSlab(s'.slab, w) <==> InSlab(s.slab, w) || IsPending(s, w)
    ensures IsArmed(s', w) <==> IsArmed(s, w) || IsPending(s, w)
  {
    assert IsArmed(s', w) <==> InSlab(s'.slab, w);
    if IsArmed(s, w) {
      assert InSlab(s.slab, w);
    }
    if InSlab(s.slab, w) && !IsArmed(s, w) {
      var id :| id in s.slab && InReg(s.slab[id], w);
      assert id in s.kept;
    }
  }

  /** One action: no panic, the invariant holds again, and the simple scheme can do the same. */
  lemma StepRefines(s: State, a: Simple, e: Event)
    requires Good(s, a) && Enabled(s, e) && Disciplined(s, e)
    ensures SimpleEnabled(a, Abstract(s, e))
    ensures Step(s, e).Some? && Good(Step(s, e).value, SimpleStep(a, Abstract(s, e)))
  {
    match e
    case Register(w) => RegisterRefines(s, a, w);
    case Change(signal, v) => ChangeRefines(s, a, signal, v);
    case Begin(id) => BeginRefines(s, a, id);
    case End(id) => EndRefines(s, a, id);
    case Arm(order, keys, ids) => ArmRefines(s, a, order, keys, ids);
  }

  // ---- whole runs ----

  ghost predicate DisciplinedRun(s: State, events: seq<Event>)
    decreases |events|
  {
    events == [] ||
    (&& Enabled(s, events[0]) && Disciplined(s, events[0])
     && (Step(s, events[0]).Some? ==> DisciplinedRun(Step(s, events[0]).value, events[1..])))
  }

  ghost function Run(s: State, events: seq<Event>): Option<State>
    requires DisciplinedRun(s, events)
    decreases |events|
  {
    if events == [] then Some(s)
    else
      match Step(s, events[0])
      case None => None
      case Some(s') => Run(s', events[1..])
  }

  ghost function AbstractRun(s: State, events: seq<Event>): seq<SimpleEvent>
    requires DisciplinedRun(s, events)
    decreases |events|
  {
    if events == [] then []
    else
      [Abstract(s, events[0])] +
      (match Step(s, events[0])
       case None => []
       case Some(s') => AbstractRun(s', events[1..]))
  }

  ghost predicate SimpleAllows(a: Simple, events: seq<SimpleEvent>)
    decreases |events|
  {
    events == [] || (SimpleEnabled(a, events[0]) && SimpleAllows(SimpleStep(a, events[0]), events[1..]))
  }

  function SimpleRun(a: Simple, events: seq<SimpleEvent>): Simple
    decreases |events|
  {
    if events == [] then a else SimpleRun(SimpleStep(a, events[0]), events[1..])
  }

  /** Main result: every disciplined run is free of panics and is a run of the simple scheme. */
  lemma {:induction false} RunRefines(s: State, a: Simple, events: seq<Event>)
    requires Good(s, a) && DisciplinedRun(s, events)
    ensures Run(s, events).Some?
    ensures SimpleAllows(a, AbstractRun(s, events))
    ensures Good(Run(s, events).value, SimpleRun(a, AbstractRun(s, events)))
    decreases |events|
  {
    if events != [] {
      StepRefines(s, a, events[0]);
      var s' := Step(s, events[0]).value;
      RunRefines(s', SimpleStep(a, Abstract(s, events[0])), events[1..]);
      assert AbstractRun(s, events)[1..] == AbstractRun(s', events[1..]);
    }
  }

  lemma InitGood()
    ensures Good(INIT, SIMPLE_INIT)
  {
    InitInv();
  }

  // ---- what the simple scheme guarantees, and batching therefore too ----

  ghost predicate SimpleOk(a: Simple) {
    a.waiting !! a.armed && a.waiting !! a.due && a.armed !! a.due
  }

  function Outstanding(a: Simple): set<Wait> {
    a.waiting + a.armed + a.due
  }

  function Times(ws: seq<Wait>, w: Wait): nat {
    multiset(ws)[w]
  }

  lemma TimesConcat(a: seq<Wait>, b: seq<Wait>, w: Wait)
    ensures Times(a + b, w) == Times(a, w) + Times(b, w)
  {
  }

  lemma {:induction false} TimesDistinct(ws: seq<Wait>, w: Wait)
    requires NoDup(ws)
    ensures Times(ws, w) == if w in ws then 1 else 0
  {
    if ws != [] {
      assert ws == Front(ws) + [Last(ws)] && Last(ws) !in Front(ws);
      TimesDistinct(Front(ws), w);
    }
  }

  function Member(a: set<Wait>, w: Wait): nat {
    if w in a then 1 else 0
  }

  /** Each wait posted was woken once or is outstanding; none is in two places. */
  ghost predicate Conserved(s: State, a: Simple) {
    SimpleOk(a) && forall w :: Times(s.registered, w) == Times(s.woken, w) + Member(Outstanding(a), w)
  }

  function PostedBy(e: SimpleEvent): seq<Wait> {
    if e.Post? then [e.wait] else []
  }

  function WokenBy(e: SimpleEvent): seq<Wait> {
    if e.Wake? then e.waits else []
  }

  lemma SimpleStepConserves(a: Simple, e: SimpleEvent, w: Wait)
    requires SimpleOk(a) && SimpleEnabled(a, e)
    ensures SimpleOk(SimpleStep(a, e))
    ensures Member(Outstanding(a), w) + Times(PostedBy(e), w) ==
            Times(WokenBy(e), w) + Member(Outstanding(SimpleStep(a, e)), w)
  {
    if e.Wake? {
      TimesDistinct(e.waits, w);
    }
  }

  /** The history grows by exactly what the simple scheme posts and wakes. */
  lemma StepHistory(s: State, a: Simple, e: Event)
    requires Good(s, a) && Enabled(s, e) && Disciplined(s, e)
    ensures Step(s, e).Some?
    ensures Step(s, e).value.registered == s.registered + PostedBy(Abstract(s, e))
    ensures Step(s, e).value.woken == s.woken + WokenBy(Abstract(s, e))
  {
    if e.End? {
      EndRefines(s, a, e.id);
    }
  }

  lemma StepConserves(s: State, a: Simple, e: Event)
    requires Good(s, a) && Enabled(s, e) && Disciplined(s, e) && Conserved(s, a)
    ensures Step(s, e).Some? && Conserved(Step(s, e).value, SimpleStep(a, Abstract(s, e)))
  {
    StepRefines(s, a, e);
    StepHistory(s, a, e);
    var ae := Abstract(s, e);
    SimpleStepConserves(a, ae, Wait(Key(0, Edge), 0));
    forall w
      ensures Times(Step(s, e).value.registered, w) ==
              Times(Step(s, e).value.woken, w) + Member(Outstanding(SimpleStep(a, ae)), w)
    {
      SimpleStepConserves(a, ae, w);
      TimesConcat(s.registered, PostedBy(ae), w);
      TimesConcat(s.woken, WokenBy(ae), w);
    }
  }

  lemma InitConserved()
    ensures Good(INIT, SIMPLE_INIT) && Conserved(INIT, SIMPLE_INIT)
  {
    InitGood();
  }

  /** Conservation: in every run each wait posted was woken exactly once or is still outstanding. */
  lemma {:induction false} RunConserves(s: State, a: Simple, events: seq<Event>)
    requires Good(s, a) && DisciplinedRun(s, events) && Conserved(s, a)
    ensures Run(s, events).Some?
    ensures Conserved(Run(s, events).value, SimpleRun(a, AbstractRun(s, events)))
    decreases |events|
  {
    if events != [] {
      StepRefines(s, a, events[0]);
      StepConserves(s, a, events[0]);
      var s' := Step(s, events[0]).value;
      RunConserves(s', SimpleStep(a, Abstract(s, events[0])), events[1..]);
      assert AbstractRun(s, events)[1..] == AbstractRun(s', events[1..]);
    }
  }

  /** No value change and no arming: the time in which one change is delivered. */
  predicate Delivery(events: seq<Event>) {
    forall e | e in events :: e.Register? || e.Begin? || e.End?
  }

  function NewlyWoken(s: State, s': State): seq<Wait> {
    if s.woken <= s'.woken then s'.woken[|s.woken|..] else []
  }

  /** The wakeups between two states are exactly the waits that stopped being due, once each. */
  ghost predicate WokeDue(s: State, a: Simple, s': State, a': Simple) {
    && s.woken <= s'.woken
    && (forall w :: Times(NewlyWoken(s, s'), w) + Member(a'.due, w) == Member(a.due, w))
    && a'.armed == a.armed
  }

  lemma StepWokeDue(s: State, a: Simple, e: Event)
    requires Good(s, a) && Enabled(s, e) && Disciplined(s, e) && (e.Register? || e.Begin? || e.End?)
    ensures Step(s, e).Some? && WokeDue(s, a, Step(s, e).value, SimpleStep(a, Abstract(s, e)))
  {
    hide Good, Enabled, Disciplined, Step;
    StepRefines(s, a, e);
    StepHistory(s, a, e);
    assert NewlyWoken(s, Step(s, e).value) == WokenBy(Abstract(s, e));
    forall w ensures Times(WokenBy(Abstract(s, e)), w) + Member(SimpleStep(a, Abstract(s, e)).due, w) == Member(a.due, w) {
      DueShrinks(a, Abstract(s, e), w);
    }
  }

  lemma WokeDueTrans(s: State, a: Simple, s1: State, a1: Simple, s2: State, a2: Simple)
    requires WokeDue(s, a, s1, a1) && WokeDue(s1, a1, s2, a2)
    ensures WokeDue(s, a, s2, a2)
  {
    assert NewlyWoken(s, s2) == NewlyWoken(s, s1) + NewlyWoken(s1, s2);
    forall w ensures Times(NewlyWoken(s, s2), w) + Member(a2.due, w) == Member(a.due, w) {
      TimesConcat(NewlyWoken(s, s1), NewlyWoken(s1, s2), w);
    }
  }

  /** While a change is delivered, each wakeup takes one due wait, and no other wait is woken. */
  lemma {:induction false} DeliveryWakesDue(s: State, a: Simple, events: seq<Event>)
    requires Good(s, a) && DisciplinedRun(s, events) && Delivery(events)
    ensures Run(s, events).Some?
    ensures var s', a' := Run(s, events).value, SimpleRun(a, AbstractRun(s, events));
            Good(s', a') && WokeDue(s, a, s', a')
    decreases |events|
  {
    if events == [] {
      assert NewlyWoken(s, s) == [];
    } else {
      hide Good, Enabled, Disciplined, Step, WokeDue;
      var e := events[0];
      assert e in events;
      StepRefines(s, a, e);
      StepWokeDue(s, a, e);
      var s1, a1 := Step(s, e).value, SimpleStep(a, Abstract(s, e));
      DeliveryWakesDue(s1, a1, events[1..]);
      assert AbstractRun(s, events)[1..] == AbstractRun(s1, events[1..]);
      WokeDueTrans(s, a, s1, a1, Run(s, events).value, SimpleRun(a1, AbstractRun(s1, events[1..])));
    }
  }

  lemma DueShrinks(a: Simple, e: SimpleEvent, w: Wait)
    requires SimpleEnabled(a, e) && !e.EdgeSeen? && !e.ArmAll?
    ensures Times(WokenBy(e), w) + Member(SimpleStep(a, e).due, w) == Member(a.due, w)
  {
    if e.Wake? {
      TimesDistinct(e.waits, w);
    }
  }

  /**
   Each matching edge wakes exactly the tasks that were waiting for it at the last arming, each
   once: take any reachable state with no delivery open, one value change, and any continuation
   up to the end of its delivery.
   */
  lemma EdgeWakesArmedOnce(s: State, a: Simple, signal: Signal, v: int, events: seq<Event>)
    requires Good(s, a) && s.due == {}
    requires DisciplinedRun(s, [Change(signal, v)] + events) && Delivery(events)
    ensures Run(s, [Change(signal, v)] + events).Some?
    ensures var s' := Run(s, [Change(signal, v)] + events).value;
            s'.due == {} ==>
            && s.woken <= s'.woken
            && NoDup(NewlyWoken(s, s'))
            && (forall w :: w in NewlyWoken(s, s') <==> w in HitWaits(a.armed, signal, v))
  {
    var all := [Change(signal, v)] + events;
    assert all[1..] == events;
    StepRefines(s, a, Change(signal, v));
    var s1, a1 := AfterChange(s, signal, v), SimpleStep(a, EdgeSeen(signal, v));
    assert Run(s, all) == Run(s1, events);
    DeliveryWakesDue(s1, a1, events);
    assert forall w :: !IsDue(s, w);
    var s', a' := Run(s1, events).value, SimpleRun(a1, AbstractRun(s1, events));
    if s'.due == {} {
      assert forall w :: !IsDue(s', w);
      assert NewlyWoken(s, s') == NewlyWoken(s1, s');
      forall w ensures Times(NewlyWoken(s, s'), w) == Member(HitWaits(a.armed, signal, v), w) {
        assert Member(a'.due, w) == 0;
        assert a1.due == HitWaits(a.armed, signal, v);
      }
      AtMostOnce(NewlyWoken(s, s'));
    }
  }

  lemma {:induction false} AtMostOnce(ws: seq<Wait>)
    requires forall w :: Times(ws, w) <= 1
    ensures NoDup(ws)
    ensures forall w :: w in ws <==> Times(ws, w) == 1
  {
    forall i, j | 0 <= i < j < |ws| ensures ws[i] != ws[j] {
      var a, b := ws[..j], ws[j..];
      assert ws == a + b;
      TimesConcat(a, b, ws[i]);
      assert ws[i] in a;
      assert b[0] == ws[j];
    }
  }
}
