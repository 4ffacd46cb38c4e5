/** How far the discipline is needed: the exact condition, and the run that breaks without it. */
module EdgeLimits {
  import opened Common
  import opened EdgeModel
  import opened EdgeInvariant
  import opened EdgeRefinement

  /** A change is classified by its low byte; only the values 0, 1 and (for Edge) 2 are edges. */
  lemma MatchesExactly(edge: EdgeType, v: int)
    ensures Matches(edge, v) <==>
            match edge
            case Posedge => v % 256 == 1
            case Negedge => v % 256 == 0
            case Edge => 0 <= v % 256 <= 2
  {
  }

  /**
   A value change calls only tasks that were waiting at the last arming if and only if it hits no
   callback that is still being called, or was already called, since then.
   */
  lemma HitsArmedOnlyIffDisciplined(s: State, a: Simple, signal: Signal, v: int)
    requires Good(s, a)
    ensures Disciplined(s, Change(signal, v)) <==>
            forall id, w | id in s.slab && Hit(s.slab[id], signal, v) && InReg(s.slab[id], w) :: w in a.armed
  {
    forall id | id in s.slab && Hit(s.slab[id], signal, v)
      ensures (id !in s.kept && id !in s.due && id !in s.firing) <==>
              forall w | InReg(s.slab[id], w) :: w in a.armed
    {
      var r := s.slab[id];
      assert RegOk(r);
      var first := Wait(r.key, r.tasks[0]);
      assert InReg(r, first);
      if IsArmed(s, first) {
        var j :| j in s.slab && j !in s.kept && j !in s.due && j !in s.firing && InReg(s.slab[j], first);
        assert j == id || Apart(s.slab[j], r);
      }
      if id !in s.kept && id !in s.due && id !in s.firing {
        forall w | InReg(r, w) ensures IsArmed(s, w) {}
      }
    }
  }

  const K := Key(0, Posedge)
  const W := Wait(K, 7)

  /** After one edge to which the task responded by waiting again. */
  const KEPT := State(map[W := 1], map[K := [7]], map[Slot(Posedge, 0) := Parked(0, [7])],
                      map[0 := Reg(K, [7])], {}, {}, {0}, [W, W], [W])

  /** The state after two edges of one signal between armings, the second without a new wait. */
  const GLITCHED := State(map[], map[K := [7]], map[], map[], {}, {}, {}, [W, W], [W, W])

  const FIRST_EDGE: seq<Event> := [Register(W), Arm([], [K], [0]), Change(0, 1), Begin(0), Register(W), End(0)]

  lemma ArmOnce(s: State)
    requires s.parked == map[] && s.pending == map[K := [7]] && s.slab == map[]
    ensures ArmChoice(s, [], [K], [0])
    ensures AfterArm(s, [], [K], [0]).slab == map[0 := Reg(K, [7])]
  {
    assert Unpark(s.pending, s.parked, []) == s.pending;
    assert Front([K]) == [] && Last([K]) == K;
    assert Registrations(s.pending, [K]) == [Reg(K, [7])] by {
      assert Registrations(s.pending, []) == [];
      assert [7][..1] == [7] && [7][1..] == [];
      assert Chunks(K, [7]) == [Reg(K, [7])] + Chunks(K, []);
    }
    assert Front([Reg(K, [7])]) == [] && Front([0]) == [];
    assert Install(s.slab, [], []) == s.slab;
  }

  /** Firing and settling the one callback of `W` when nothing was posted in between. */
  lemma FireOnce(s: State)
    requires s.slab == map[0 := Reg(K, [7])] && s.due == {0} && s.firing == {}
    ensures Enabled(s, Begin(0)) && Enabled(AfterBegin(s, 0), End(0))
    ensures AfterEnd(AfterBegin(s, 0), 0).None? <==> CountOf(s, W) == 0
  {
    assert Front([7]) == [] && Last([7]) == 7;
    assert Decrement(s.count, K, []) == Some(Counted(s.count, []));
  }

  ghost predicate Leads(s: State, e: Event, s': State) {
    Enabled(s, e) && Disciplined(s, e) && Step(s, e) == Some(s')
  }

  lemma LeadsRun(s: State, e: Event, s': State, events: seq<Event>, last: State)
    requires Leads(s, e, s') && DisciplinedRun(s', events) && Run(s', events) == Some(last)
    ensures DisciplinedRun(s, [e] + events) && Run(s, [e] + events) == Some(last)
  {
    assert ([e] + events)[1..] == events;
  }

  const S1 := State(map[W := 1], map[K := [7]], map[], map[], {}, {}, {}, [W], [])
  const S2 := State(map[W := 1], map[], map[], map[0 := Reg(K, [7])], {}, {}, {}, [W], [])
  const S3 := S2.(due := {0})
  const S4 := S2.(firing := {0}, woken := [W])
  const S5 := State(map[W := 2], map[K := [7]], map[], map[0 := Reg(K, [7])], {}, {0}, {}, [W, W], [W])

  lemma FirstWait()
    ensures Leads(INIT, Register(W), S1)
    ensures Leads(S1, Arm([], [K], [0]), S2)
  {
    assert PendingOf(INIT, K) + [7] == [7];
    var s := AfterRegister(INIT, W);
    assert s.count == S1.count && s.pending == S1.pending && s.registered == S1.registered;
    ArmOnce(S1);
  }

  lemma FirstHit()
    ensures Leads(S2, Change(0, 1), S3)
    ensures Leads(S3, Begin(0), S4)
  {
    assert Hit(S2.slab[0], 0, 1);
    assert AfterChange(S2, 0, 1).due == {0};
    var s := AfterBegin(S3, 0);
    assert WaitsOf(S3.slab[0]) == [W];
    assert s.due == S4.due && s.firing == S4.firing && s.woken == S4.woken;
  }

  lemma FirstKeep()
    ensures Leads(S4, Register(W), S5)
    ensures Leads(S5, End(0), KEPT)
  {
    assert PendingOf(S4, K) + [7] == [7];
    var s := AfterRegister(S4, W);
    assert s.count == S5.count && s.pending == S5.pending && s.registered == S5.registered;
    assert Front([7]) == [] && Last([7]) == 7;
    assert Decrement(S5.count, K, []) == Some(Counted(S5.count, []));
    assert Decrement(S5.count, K, [7]) == Some(Counted(S5.count[W := 1], []));
    var t := AfterEnd(S5, 0).value;
    assert t.count == KEPT.count && t.parked == KEPT.parked && t.firing == KEPT.firing && t.kept == KEPT.kept;
  }

  lemma KeptAfterFirstEdge()
    ensures DisciplinedRun(INIT, FIRST_EDGE) && Run(INIT, FIRST_EDGE) == Some(KEPT)
  {
    FirstWait();
    FirstHit();
    FirstKeep();
    LeadsRun(S5, End(0), KEPT, [], KEPT);
    LeadsRun(S4, Register(W), S5, [End(0)], KEPT);
    LeadsRun(S3, Begin(0), S4, [Register(W), End(0)], KEPT);
    LeadsRun(S2, Change(0, 1), S3, [Begin(0), Register(W), End(0)], KEPT);
    LeadsRun(S1, Arm([], [K], [0]), S2, [Change(0, 1), Begin(0), Register(W), End(0)], KEPT);
    LeadsRun(INIT, Register(W), S1, [Arm([], [K], [0]), Change(0, 1), Begin(0), Register(W), End(0)], KEPT);
  }

  /**
   Without the discipline the count lookup does fail.  Continue `FIRST_EDGE` with a second rising
   edge before the next arming, to which the task does not respond by waiting again: the callback
   is released but its request stays, the next arming arms it without a count, and the next edge
   panics.
   */
  lemma SecondEdgePanics()
    ensures DisciplinedRun(INIT, FIRST_EDGE) && Run(INIT, FIRST_EDGE) == Some(KEPT)
    ensures !Disciplined(KEPT, Change(0, 1))
    ensures AfterEnd(AfterBegin(AfterChange(KEPT, 0, 1), 0), 0) == Some(GLITCHED)
    ensures ArmChoice(GLITCHED, [], [K], [0])
    ensures var armed := AfterArm(GLITCHED, [], [K], [0]);
            && Enabled(AfterChange(armed, 0, 1), Begin(0))
            && Enabled(AfterBegin(AfterChange(armed, 0, 1), 0), End(0))
            && AfterEnd(AfterBegin(AfterChange(armed, 0, 1), 0), 0) == None
  {
    KeptAfterFirstEdge();
    SecondEdgeReleases();
    ArmOnce(GLITCHED);
    FireOnce(AfterChange(AfterArm(GLITCHED, [], [K], [0]), 0, 1));
  }

  lemma SecondEdgeReleases()
    ensures !Disciplined(KEPT, Change(0, 1))
    ensures AfterEnd(AfterBegin(AfterChange(KEPT, 0, 1), 0), 0) == Some(GLITCHED)
  {
    assert Hit(KEPT.slab[0], 0, 1);
    assert Front([7]) == [] && Last([7]) == 7;
    assert Decrement(KEPT.count, K, []) == Some(Counted(KEPT.count, []));
    assert Decrement(KEPT.count, K, [7]) == Some(Counted(KEPT.count[W := 0], [] + [7]));
    var after := AfterEnd(AfterBegin(AfterChange(KEPT, 0, 1), 0), 0).value;
    assert after.count == map[] by {
      assert W in set t | t in [7] :: Wait(K, t);
    }
    assert after == GLITCHED;
  }
}
