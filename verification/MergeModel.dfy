/** Merged edge callbacks without chunking: one callback per waiting task and edge, counting repeated waits. */
module MergeModel {
  import opened Common
  import opened EdgeModel

  type Slab = map<CbId, Wait>

  /** `registered` and `settled` list the waits posted and the callbacks settled so far. */
  datatype Merged = Merged(
    count: map<Wait, nat>, pending: seq<Wait>, slab: Slab, firing: set<CbId>,
    registered: seq<Wait>, settled: seq<Wait>)

  datatype MergeEvent =
    | Post(w: Wait)
    | BeginCall(id: CbId)
    | EndCall(id: CbId)
    | ArmAll(order: seq<Wait>, ids: seq<CbId>)

  function Waits(s: Merged, w: Wait): nat {
    if w in s.count then s.count[w] else 0
  }

  /** Only the first outstanding wait asks for a callback. */
  function AfterPost(s: Merged, w: Wait): Merged {
    var n := Waits(s, w) + 1;
    s.(count := s.count[w := n], pending := if n > 1 then s.pending else s.pending + [w], registered := s.registered + [w])
  }

  /** A matching edge: the task runs, and may wait again, before the count is taken down. */
  function AfterBeginCall(s: Merged, id: CbId): Merged {
    s.(firing := s.firing + {id})
  }

  /** None where the unchecked lookup or the subtraction would go wrong. */
  function AfterEndCall(s: Merged, id: CbId): Option<Merged>
    requires id in s.slab
  {
    var w := s.slab[id];
    if Waits(s, w) == 0 then None
    else
      Some(s.(count := s.count[w := Waits(s, w) - 1],
              slab := if Waits(s, w) == 1 then s.slab - {id} else s.slab,
              firing := s.firing - {id},
              settled := s.settled + [w]))
  }

  function Registered(slab: Slab, order: seq<Wait>, ids: seq<CbId>): Slab
    requires |order| == |ids|
  {
    if order == [] then slab else Registered(slab, Front(order), Front(ids))[Last(ids) := Last(order)]
  }

  ghost predicate MergeEnabled(s: Merged, e: MergeEvent) {
    match e
    case Post(_) => true
    case BeginCall(id) => id in s.slab && id !in s.firing
    case EndCall(id) => id in s.slab && id in s.firing
    case ArmAll(order, ids) =>
      && |order| == |ids| && NoDup(ids) && (forall id | id in ids :: id !in s.slab)
      && NoDup(order) && (forall w :: w in order <==> w in s.pending)
  }

  ghost function MergeStep(s: Merged, e: MergeEvent): Option<Merged>
    requires MergeEnabled(s, e)
  {
    match e
    case Post(w) => Some(AfterPost(s, w))
    case BeginCall(id) => Some(AfterBeginCall(s, id))
    case EndCall(id) => AfterEndCall(s, id)
    case ArmAll(order, ids) => Some(s.(slab := Registered(s.slab, order, ids), pending := []))
  }

  // ---- invariant ----

  ghost predicate Armed(s: Merged, w: Wait) {
    exists id :: id in s.slab && s.slab[id] == w
  }

  /** A task's count is positive if and only if exactly one callback for it is armed or pending. */
  ghost predicate OneCallback(s: Merged) {
    && NoDup(s.pending)
    && (forall i, j | i in s.slab && j in s.slab && s.slab[i] == s.slab[j] :: i == j)
    && (forall w | w in s.pending :: !Armed(s, w))
    && (forall w: Wait :: Waits(s, w) > 0 <==> w in s.pending || Armed(s, w))
    && s.firing <= s.slab.Keys
  }

  lemma PostKeeps(s: Merged, w: Wait)
    requires OneCallback(s)
    ensures OneCallback(AfterPost(s, w))
  {
    var s' := AfterPost(s, w);
    assert forall x: Wait :: Armed(s', x) <==> Armed(s, x);
    assert forall x: Wait :: x in s'.pending <==> x in s.pending || (x == w && Waits(s, w) == 0);
  }

  lemma EndKeeps(s: Merged, id: CbId)
    requires OneCallback(s) && MergeEnabled(s, EndCall(id))
    ensures AfterEndCall(s, id).Some? && OneCallback(AfterEndCall(s, id).value)
  {
    var w := s.slab[id];
    assert Armed(s, w);
    var s' := AfterEndCall(s, id).value;
    forall x: Wait ensures Armed(s', x) <==> Armed(s, x) && (x != w || Waits(s, w) > 1) {
      if Armed(s, x) {
        var j :| j in s.slab && s.slab[j] == x;
        assert j in s'.slab || (x == w && Waits(s, w) == 1);
      }
    }
  }

  lemma {:induction false} RegisteredEffect(slab: Slab, order: seq<Wait>, ids: seq<CbId>)
    requires |order| == |ids| && forall id | id in ids :: id !in slab
    ensures var r := Registered(slab, order, ids);
      && (forall id :: id in r <==> id in slab || id in ids)
      && (forall id | id in slab :: r[id] == slab[id])
      && (forall id | id in r && id !in slab :: r[id] in order)
    decreases |order|
  {
    if order != [] {
      RegisteredEffect(slab, Front(order), Front(ids));
      assert ids == Front(ids) + [Last(ids)] && order == Front(order) + [Last(order)];
    }
  }

  lemma {:induction false} RegisteredAt(slab: Slab, order: seq<Wait>, ids: seq<CbId>, k: nat)
    requires |order| == |ids| && NoDup(ids) && k < |ids|
    ensures ids[k] in Registered(slab, order, ids) && Registered(slab, order, ids)[ids[k]] == order[k]
    decreases |order|
  {
    if k < |ids| - 1 {
      RegisteredAt(slab, Front(order), Front(ids), k);
      assert ids[k] != ids[|ids| - 1];
    }
  }

  lemma {:induction false} RegisteredApart(slab: Slab, order: seq<Wait>, ids: seq<CbId>)
    requires |order| == |ids| && NoDup(ids) && NoDup(order)
    requires forall id | id in ids :: id !in slab
    requires forall i, j | i in slab && j in slab && slab[i] == slab[j] :: i == j
    requires forall i | i in slab :: slab[i] !in order
    ensures var r := Registered(slab, order, ids); forall i, j | i in r && j in r && r[i] == r[j] :: i == j
    decreases |order|
  {
    if order != [] {
      RegisteredEffect(slab, Front(order), Front(ids));
      RegisteredApart(slab, Front(order), Front(ids));
      assert Last(order) !in Front(order);
    }
  }

  lemma ArmedAfter(s: Merged, order: seq<Wait>, ids: seq<CbId>, w: Wait)
    requires MergeEnabled(s, ArmAll(order, ids))
    ensures Armed(MergeStep(s, ArmAll(order, ids)).value, w) <==> Armed(s, w) || w in s.pending
  {
    var s' := MergeStep(s, ArmAll(order, ids)).value;
    RegisteredEffect(s.slab, order, ids);
    if w in s.pending {
      var k :| 0 <= k < |order| && order[k] == w;
      RegisteredAt(s.slab, order, ids, k);
      assert s'.slab[ids[k]] == w;
    }
    if Armed(s, w) {
      var i :| i in s.slab && s.slab[i] == w;
      assert s'.slab[i] == w;
    }
  }

  lemma ArmKeeps(s: Merged, order: seq<Wait>, ids: seq<CbId>)
    requires OneCallback(s) && MergeEnabled(s, ArmAll(order, ids))
    ensures OneCallback(MergeStep(s, ArmAll(order, ids)).value)
  {
    hide Registered, Armed;
    var s' := MergeStep(s, ArmAll(order, ids)).value;
    forall i | i in s.slab ensures s.slab[i] !in order {
      ArmedBy(s, i);
    }
    RegisteredEffect(s.slab, order, ids);
    RegisteredApart(s.slab, order, ids);
    forall w: Wait ensures Armed(s', w) <==> Armed(s, w) || w in s.pending {
      ArmedAfter(s, order, ids, w);
    }
  }

  lemma ArmedBy(s: Merged, id: CbId)
    requires id in s.slab
    ensures Armed(s, s.slab[id])
  {
  }

  /** Every step keeps the invariant and none goes wrong, whatever tasks wait for and whenever. */
  lemma MergeStepKeeps(s: Merged, e: MergeEvent)
    requires OneCallback(s) && MergeEnabled(s, e)
    ensures MergeStep(s, e).Some? && OneCallback(MergeStep(s, e).value)
  {
    match e
    case Post(w) => PostKeeps(s, w);
    case BeginCall(id) => assert forall x: Wait :: Armed(AfterBeginCall(s, id), x) <==> Armed(s, x);
    case EndCall(id) => EndKeeps(s, id);
    case ArmAll(order, ids) => ArmKeeps(s, order, ids);
  }

  // ---- what the count is worth ----

  function Occurrences(ws: seq<Wait>, w: Wait): nat {
    if ws == [] then 0 else Occurrences(Front(ws), w) + (if Last(ws) == w then 1 else 0)
  }

  /** The count of a task is the number of its waits that no callback has settled yet. */
  ghost predicate CountsWaits(s: Merged) {
    forall w: Wait :: Occurrences(s.registered, w) == Occurrences(s.settled, w) + Waits(s, w)
  }

  lemma OccurrencesSnoc(ws: seq<Wait>, x: Wait, w: Wait)
    ensures Occurrences(ws + [x], w) == Occurrences(ws, w) + (if x == w then 1 else 0)
  {
    assert Front(ws + [x]) == ws;
  }

  lemma MergeStepCounts(s: Merged, e: MergeEvent)
    requires OneCallback(s) && CountsWaits(s) && MergeEnabled(s, e)
    ensures MergeStep(s, e).Some? && CountsWaits(MergeStep(s, e).value)
  {
    MergeStepKeeps(s, e);
    var s' := MergeStep(s, e).value;
    forall w: Wait ensures Occurrences(s'.registered, w) == Occurrences(s'.settled, w) + Waits(s', w) {
      assert Occurrences(s.registered, w) == Occurrences(s.settled, w) + Waits(s, w);
      if e.Post? {
        OccurrencesSnoc(s.registered, e.w, w);
      } else if e.EndCall? {
        OccurrencesSnoc(s.settled, s.slab[e.id], w);
      }
    }
  }

  ghost predicate MergeRunOf(s: Merged, events: seq<MergeEvent>)
    decreases |events|
  {
    events == [] || (MergeEnabled(s, events[0])
      && (MergeStep(s, events[0]).Some? ==> MergeRunOf(MergeStep(s, events[0]).value, events[1..])))
  }

  ghost function MergeRun(s: Merged, events: seq<MergeEvent>): Option<Merged>
    requires MergeRunOf(s, events)
    decreases |events|
  {
    if events == [] then Some(s)
    else
      match MergeStep(s, events[0])
      case None => None
      case Some(d) => MergeRun(d, events[1..])
  }

  const MERGE_INIT := Merged(map[], [], map[], {}, [], [])

  lemma MergeInit()
    ensures OneCallback(MERGE_INIT) && CountsWaits(MERGE_INIT)
  {
  }

  /** Every run from the empty environment goes right, has one callback per waiting task, and counts its waits. */
  lemma {:induction false} MergeRunKeeps(s: Merged, events: seq<MergeEvent>)
    requires OneCallback(s) && CountsWaits(s) && MergeRunOf(s, events)
    ensures MergeRun(s, events).Some?
    ensures OneCallback(MergeRun(s, events).value) && CountsWaits(MergeRun(s, events).value)
    decreases |events|
  {
    hide OneCallback, CountsWaits, MergeEnabled, MergeStep;
    if events != [] {
      MergeStepKeeps(s, events[0]);
      MergeStepCounts(s, events[0]);
      MergeRunKeeps(MergeStep(s, events[0]).value, events[1..]);
    }
  }

  /** `n` matching edges in a row, with no new waits in between. */
  ghost function Edges(s: Merged, id: CbId, n: nat): Option<Merged>
  {
    if n == 0 then Some(s)
    else
      match Edges(s, id, n - 1)
      case None => None
      case Some(d) =>
        if id in d.slab && id !in d.firing then AfterEndCall(AfterBeginCall(d, id), id) else None
  }

  /** k waits give one wakeup on each of the next k matching edges, and then the callback is gone. */
  lemma {:induction false} WaitsAreServed(s: Merged, id: CbId, n: nat)
    requires id in s.slab && id !in s.firing && n <= Waits(s, s.slab[id])
    ensures
      var w := s.slab[id];
      && Edges(s, id, n).Some?
      && var d := Edges(s, id, n).value;
      && Waits(d, w) == Waits(s, w) - n
      && Occurrences(d.settled, w) == Occurrences(s.settled, w) + n
      && (if n < Waits(s, w) || n == 0 then d.slab == s.slab else d.slab == s.slab - {id})
      && id !in d.firing
  {
    hide Occurrences;
    if n > 0 {
      WaitsAreServed(s, id, n - 1);
      var d := Edges(s, id, n - 1).value;
      OccurrencesSnoc(d.settled, s.slab[id], s.slab[id]);
    }
  }

  lemma {:induction false} CallStaysOpen(s: Merged, id: CbId, events: seq<MergeEvent>, d: Merged)
    requires id in s.slab && id in s.firing && EndCall(id) !in events
    requires MergeRunOf(s, events) && MergeRun(s, events) == Some(d)
    ensures id in d.slab && d.slab[id] == s.slab[id] && id in d.firing
    decreases |events|
  {
    if events != [] {
      var e := events[0];
      if e.ArmAll? {
        RegisteredEffect(s.slab, e.order, e.ids);
      }
      CallStaysOpen(MergeStep(s, e).value, id, events[1..], d);
    }
  }

  /**
   A callback that was called can settle whatever happens in between, for the task that it was called for,
   and is not called again before.
   */
  lemma CallSettles(s: Merged, id: CbId, events: seq<MergeEvent>, d: Merged)
    requires MergeEnabled(s, BeginCall(id)) && EndCall(id) !in events
    requires MergeRunOf(MergeStep(s, BeginCall(id)).value, events) && MergeRun(MergeStep(s, BeginCall(id)).value, events) == Some(d)
    ensures MergeEnabled(d, EndCall(id)) && d.slab[id] == s.slab[id] && !MergeEnabled(d, BeginCall(id))
    ensures var r := MergeStep(d, EndCall(id)); r.Some? && id in r.value.slab ==> MergeEnabled(r.value, BeginCall(id))
  {
    CallStaysOpen(MergeStep(s, BeginCall(id)).value, id, events, d);
  }

  // ---- the environment ----

  class MergedCallbackEnv {
    var count: map<Wait, nat>
    var pending: seq<Wait>
    var slab: Slab
    var firing: set<CbId>
    ghost var registered: seq<Wait>
    ghost var settled: seq<Wait>

    constructor ()
      ensures View() == Merged(map[], [], map[], {}, [], [])
    {
      count, pending, slab, firing, registered, settled := map[], [], map[], {}, [], [];
    }

    ghost function View(): Merged
      reads this
    {
      Merged(count, pending, slab, firing, registered, settled)
    }

    method RegisterEdgeCallback(w: Wait)
      modifies this
      ensures View() == AfterPost(old(View()), w)
    {
      if w !in count {
        count := count[w := 0];
      }
      count := count[w := count[w] + 1];
      registered := registered + [w];
      if count[w] > 1 {
        return;
      }
      pending := pending + [w];
    }

    /** The part of edge_callback after call_sim_event. */
    method SettleEdge(id: CbId)
      requires OneCallback(View()) && MergeEnabled(View(), EndCall(id))
      modifies this
      ensures Some(View()) == AfterEndCall(old(View()), id)
    {
      EndKeeps(View(), id);
      var w := slab[id];
      count := count[w := count[w] - 1];
      if count[w] == 0 {
        slab := slab - {id};
      }
      firing := firing - {id};
      settled := settled + [w];
    }
  }
}
