/** Any number of native clocks over one registry of driven signals: who holds a signal, in every run. */
module ClockRuns {
  import opened Common
  import opened ClockModel

  /** Since the clock last started: did it, was its last edge refused, was its signal stopped by any clock. */
  datatype Past = Past(started: bool, refused: bool, stopped: bool)

  datatype System = System(clocks: map<int, Clock>, past: map<int, Past>, active: set<int>)

  /** A clock as it sees the shared registry. */
  function Seen(s: System, k: int): Clock
    requires k in s.clocks
  {
    s.clocks[k].(active := s.active)
  }

  predicate Shaped(s: System) {
    s.clocks.Keys == s.past.Keys
  }

  /** Whether the event goes through stop(), which clears the signal for all clocks. */
  predicate Stops(c: Clock, e: Event) {
    match e
    case StartAt(_, _, _, _, _) => false
    case FireNow(_, destroyed) => destroyed || c.destroyPending
    case StopNow => true
    case DestroyNow => true
  }

  function OwnPast(c: Clock, e: Event, p: Past): Past {
    match e
    case StartAt(now, period, high, startHigh, accepted) =>
      (match Start(c, now, period, high, startHigh, accepted).1
       case Success => Past(true, false, false)
       case IoError => Past(false, false, false)
       case _ => p)
    case FireNow(accepted, _) => if accepted || c.destroyPending then p else p.(refused := true)
    case _ => p
  }

  /** The system after one event of clock `k`; every clock of the signal learns of a stop. */
  function SystemStep(s: System, k: int, e: Event): (r: System)
    requires Shaped(s) && k in s.clocks && Enabled(Seen(s, k), e)
    ensures Shaped(r)
  {
    var c := Seen(s, k);
    var c' := Step(c, e);
    var past := s.past[k := OwnPast(c, e, s.past[k])];
    System(s.clocks[k := c'],
           map j | j in s.clocks ::
             if Stops(c, e) && s.clocks[j].signal == c.signal then past[j].(stopped := true) else past[j],
           c'.active)
  }

  /** `k` marked its signal and nobody has cleared it. */
  predicate Holds(s: System, k: int)
    requires Shaped(s)
  {
    k in s.past && s.past[k].started && !s.past[k].stopped
  }

  /** The registry lists the held signals. */
  ghost predicate Marking(s: System)
    requires Shaped(s)
  {
    && (forall k | k in s.clocks && Holds(s, k) :: s.clocks[k].signal in s.active)
    && (forall x | x in s.active :: exists k :: k in s.clocks && s.clocks[k].signal == x && Holds(s, k))
  }

  ghost predicate Unique(s: System)
    requires Shaped(s)
  {
    forall i, j | i in s.clocks && j in s.clocks && Holds(s, i) && Holds(s, j) && s.clocks[i].signal == s.clocks[j].signal :: i == j
  }

  /** A running clock was started and not refused; one that holds without running was refused. */
  predicate Reasons(s: System, k: int)
    requires Shaped(s) && k in s.clocks
  {
    && (s.clocks[k].due.Some? ==> s.past[k].started && !s.past[k].refused)
    && (s.clocks[k].due.None? && Holds(s, k) ==> s.past[k].refused)
    && (s.past[k].refused ==> s.past[k].started)
  }

  ghost predicate Kept(s: System) {
    && Shaped(s)
    && (forall k | k in s.clocks :: Sound(Seen(s, k)))
    && Marking(s)
    && Unique(s)
    && (forall k | k in s.clocks :: Reasons(s, k))
  }

  lemma StepSame(c: Clock, e: Event)
    requires Enabled(c, e)
    ensures Step(c, e).signal == c.signal
    ensures match e
      case StartAt(now, period, high, startHigh, accepted) =>
        (match Start(c, now, period, high, startHigh, accepted).1
         case Success => c.due.None? && c.signal !in c.active && Step(c, e).due.Some? && Step(c, e).active == c.active + {c.signal}
         case IoError => c.due.None? && c.signal !in c.active && Step(c, e).due.None? && Step(c, e).active == c.active
         case _ => Step(c, e) == c)
      case FireNow(accepted, _) =>
        if Stops(c, e) then Step(c, e).due.None? && Step(c, e).active == c.active - {c.signal}
        else Step(c, e).active == c.active && Step(c, e).due.Some? == accepted
      case _ => Step(c, e).due.None? && Step(c, e).active == c.active - {c.signal}
  {
    if e.StartAt? {
      assert c.signal !in c.active ==> c.active + {c.signal} - {c.signal} == c.active;
    }
  }

  lemma SoundIgnoresActive(c: Clock, active: set<int>)
    requires Sound(c)
    ensures Sound(c.(active := active))
  {
  }

  lemma StepKeepsClocks(s: System, k: int, e: Event)
    requires Kept(s) && k in s.clocks && Enabled(Seen(s, k), e)
    ensures var s' := SystemStep(s, k, e);
      Shaped(s') && forall j | j in s'.clocks :: Sound(Seen(s', j)) && s'.clocks[j].signal == s.clocks[j].signal
  {
    var c, s' := Seen(s, k), SystemStep(s, k, e);
    StepKeepsSound(c, e);
    StepSame(c, e);
    assert s'.past.Keys == s.clocks.Keys;
    forall j | j in s'.clocks ensures Sound(Seen(s', j)) && s'.clocks[j].signal == s.clocks[j].signal {
      if j == k {
        SoundIgnoresActive(Step(c, e), s'.active);
      } else {
        assert Sound(Seen(s, j));
        SoundIgnoresActive(s.clocks[j].(active := s.active), s'.active);
      }
    }
  }

  /** Who holds a signal after the step. */
  lemma HoldsAfter(s: System, k: int, e: Event, j: int)
    requires Kept(s) && k in s.clocks && Enabled(Seen(s, k), e) && j in s.clocks
    ensures var c, s' := Seen(s, k), SystemStep(s, k, e);
      && Shaped(s')
      && (Stops(c, e) ==> (Holds(s', j) <==> Holds(s, j) && s.clocks[j].signal != c.signal))
      && (!Stops(c, e) && j != k ==> (Holds(s', j) <==> Holds(s, j)) && s'.past[j] == s.past[j])
      && (!Stops(c, e) && !e.StartAt? ==> (Holds(s', k) <==> Holds(s, k)))
  {
    StepKeepsClocks(s, k, e);
  }

  lemma HoldersMarked(s: System, k: int, e: Event)
    requires Kept(s) && k in s.clocks && Enabled(Seen(s, k), e)
    ensures Shaped(SystemStep(s, k, e))
    ensures var s' := SystemStep(s, k, e);
      forall j | j in s'.clocks && Holds(s', j) :: s'.clocks[j].signal in s'.active
  {
    var c, s' := Seen(s, k), SystemStep(s, k, e);
    StepSame(c, e);
    StepKeepsClocks(s, k, e);
    forall j | j in s'.clocks && Holds(s', j) ensures s'.clocks[j].signal in s'.active {
      HoldsAfter(s, k, e, j);
    }
  }

  lemma MarkedHeld(s: System, k: int, e: Event)
    requires Kept(s) && k in s.clocks && Enabled(Seen(s, k), e)
    ensures Shaped(SystemStep(s, k, e))
    ensures var s' := SystemStep(s, k, e);
      forall x | x in s'.active :: exists j :: j in s'.clocks && s'.clocks[j].signal == x && Holds(s', j)
  {
    var c, s' := Seen(s, k), SystemStep(s, k, e);
    StepSame(c, e);
    StepKeepsClocks(s, k, e);
    forall x | x in s'.active ensures exists j :: j in s'.clocks && s'.clocks[j].signal == x && Holds(s', j) {
      if x in s.active {
        var j :| j in s.clocks && s.clocks[j].signal == x && Holds(s, j);
        HoldsAfter(s, k, e, j);
        assert j in s'.clocks && s'.clocks[j].signal == x && Holds(s', j);
      } else {
        assert k in s'.clocks && s'.clocks[k].signal == x && Holds(s', k);
      }
    }
  }

  lemma UniqueAfter(s: System, k: int, e: Event)
    requires Kept(s) && k in s.clocks && Enabled(Seen(s, k), e)
    ensures Unique(SystemStep(s, k, e))
  {
    var c, s' := Seen(s, k), SystemStep(s, k, e);
    StepSame(c, e);
    StepKeepsClocks(s, k, e);
    hide Step, Sound, Start;
    forall i, j | i in s'.clocks && j in s'.clocks && Holds(s', i) && Holds(s', j) && s'.clocks[i].signal == s'.clocks[j].signal
      ensures i == j
    {
      HoldsAfter(s, k, e, i);
      HoldsAfter(s, k, e, j);
    }
  }

  lemma ReasonsAfter(s: System, k: int, e: Event, j: int)
    requires Kept(s) && k in s.clocks && Enabled(Seen(s, k), e) && j in s.clocks
    ensures Reasons(SystemStep(s, k, e), j)
  {
    StepSame(Seen(s, k), e);
    assert Reasons(s, j) && Reasons(s, k);
  }

  lemma StepKeeps(s: System, k: int, e: Event)
    requires Kept(s) && k in s.clocks && Enabled(Seen(s, k), e)
    ensures Kept(SystemStep(s, k, e))
  {
    hide SystemStep, Sound, Reasons, Unique, Holds;
    var s' := SystemStep(s, k, e);
    StepKeepsClocks(s, k, e);
    HoldersMarked(s, k, e);
    MarkedHeld(s, k, e);
    UniqueAfter(s, k, e);
    forall j | j in s'.clocks ensures Reasons(s', j) {
      SameClocks(s, k, e);
      ReasonsAfter(s, k, e, j);
    }
  }

  lemma SameClocks(s: System, k: int, e: Event)
    requires Shaped(s) && k in s.clocks && Enabled(Seen(s, k), e)
    ensures SystemStep(s, k, e).clocks.Keys == s.clocks.Keys
  {
  }

  // ---- runs ----

  datatype Turn = Turn(clock: int, event: Event)

  function NewSystem(signals: map<int, int>): (s: System)
    ensures Shaped(s)
  {
    System(map k | k in signals :: NewClock(signals[k], {}), map k | k in signals :: Past(false, false, false), {})
  }

  /** Any interleaving in which each clock is used as `Enabled` says. */
  predicate RunOf(s: System, turns: seq<Turn>)
    requires Shaped(s)
    decreases |turns|
  {
    turns == [] ||
    (&& turns[0].clock in s.clocks && Enabled(Seen(s, turns[0].clock), turns[0].event)
     && RunOf(SystemStep(s, turns[0].clock, turns[0].event), turns[1..]))
  }

  function After(s: System, turns: seq<Turn>): (r: System)
    requires Shaped(s) && RunOf(s, turns)
    ensures Shaped(r)
    decreases |turns|
  {
    if turns == [] then s else After(SystemStep(s, turns[0].clock, turns[0].event), turns[1..])
  }

  lemma {:induction false} RunKeeps(s: System, turns: seq<Turn>)
    requires Kept(s) && RunOf(s, turns)
    ensures Kept(After(s, turns))
    decreases |turns|
  {
    hide SystemStep, Sound, Marking, Unique, Reasons;
    if turns != [] {
      StepKeeps(s, turns[0].clock, turns[0].event);
      RunKeeps(SystemStep(s, turns[0].clock, turns[0].event), turns[1..]);
    }
  }

  /**
   In every run of any number of clocks, on any signals: a signal is marked as driven exactly when some
   clock marked it that nobody has stopped since; at most one clock does. A running clock holds its
   signal unless another one stopped it; a clock that is not running holds it if and only if its last
   edge was refused and the signal was not stopped since.
   */
  lemma MarkedIff(signals: map<int, int>, turns: seq<Turn>, k: int)
    requires RunOf(NewSystem(signals), turns) && k in After(NewSystem(signals), turns).clocks
    ensures var s := After(NewSystem(signals), turns);
      && Shaped(s) && k in s.past
      && (s.clocks[k].signal in s.active <==>
            exists j :: j in s.clocks && s.clocks[j].signal == s.clocks[k].signal && Holds(s, j))
      && (forall j | j in s.clocks && Holds(s, j) && Holds(s, k) && s.clocks[j].signal == s.clocks[k].signal :: j == k)
      && (s.clocks[k].due.Some? ==> (Holds(s, k) <==> !s.past[k].stopped))
      && (s.clocks[k].due.None? ==> (Holds(s, k) <==> s.past[k].refused && !s.past[k].stopped))
  {
    assert Kept(NewSystem(signals));
    RunKeeps(NewSystem(signals), turns);
  }

  /** Starting a clock that is alone on its signal reports a conflict if and only if its last edge was refused and it was not stopped since. */
  lemma RefusedStartIff(signals: map<int, int>, turns: seq<Turn>, k: int, now: nat, period: nat, high: nat, startHigh: bool, accepted: bool)
    requires RunOf(NewSystem(signals), turns) && k in After(NewSystem(signals), turns).clocks
    requires var s := After(NewSystem(signals), turns);
      forall j | j in s.clocks && s.clocks[j].signal == s.clocks[k].signal :: j == k
    ensures var s := After(NewSystem(signals), turns);
      && k in s.past
      && (Start(Seen(s, k), now, period, high, startHigh, accepted).1 == Exists
          <==> s.clocks[k].due.None? && s.past[k].refused && !s.past[k].stopped)
  {
    hide RunOf, After, NewSystem, Shaped;
    MarkedIff(signals, turns, k);
  }

  /** A run to that point: the re-registration for the second edge is refused, and the clock cannot be started again. */
  lemma RefusalReached()
    ensures var turns := [Turn(0, StartAt(0, 2, 1, true, true)), Turn(0, FireNow(false, false))];
      && RunOf(NewSystem(map[0 := 7]), turns)
      && var s := After(NewSystem(map[0 := 7]), turns);
      && 0 in s.clocks && s.clocks[0].due.None?
      && Start(Seen(s, 0), 2, 2, 1, true, true).1 == Exists
  {
    var s0 := NewSystem(map[0 := 7]);
    var s1 := SystemStep(s0, 0, StartAt(0, 2, 1, true, true));
    var s2 := SystemStep(s1, 0, FireNow(false, false));
    var turns := [Turn(0, StartAt(0, 2, 1, true, true)), Turn(0, FireNow(false, false))];
    assert s1.clocks[0].due.Some? && s1.active == {7};
    assert turns[1..] == [Turn(0, FireNow(false, false))] && turns[1..][1..] == [];
    assert After(s1, turns[1..]) == s2;
  }

  /**
   With valid timing, starting a clock that is not running succeeds if and only if no clock of its
   signal holds it: none that runs and was not stopped since, by whomever, and none whose last edge was
   refused and that was not stopped since. Clocks that run without holding it then share the signal.
   */
  lemma StartSucceedsIff(signals: map<int, int>, turns: seq<Turn>, k: int, now: nat, period: nat, high: nat, startHigh: bool)
    requires RunOf(NewSystem(signals), turns) && k in After(NewSystem(signals), turns).clocks && 1 <= high < period
    ensures var s := After(NewSystem(signals), turns);
      && s.past.Keys == s.clocks.Keys
      && (Start(Seen(s, k), now, period, high, startHigh, true).1 == Success <==>
            && s.clocks[k].due.None?
            && forall j | j in s.clocks && s.clocks[j].signal == s.clocks[k].signal ::
                 s.past[j].stopped || (s.clocks[j].due.None? && !s.past[j].refused))
  {
    hide RunOf, After, NewSystem;
    var s := After(NewSystem(signals), turns);
    MarkedIff(signals, turns, k);
    forall j | j in s.clocks
      ensures Holds(s, j) <==> !(s.past[j].stopped || (s.clocks[j].due.None? && !s.past[j].refused))
    {
      MarkedIff(signals, turns, j);
    }
  }

  /** A run to that point: the second clock's `stop` releases the signal that the first one drives. */
  lemma TwoDriversReached()
    ensures var turns := [Turn(0, StartAt(0, 2, 1, true, true)), Turn(1, StopNow), Turn(1, StartAt(1, 2, 1, true, true))];
      && RunOf(NewSystem(map[0 := 7, 1 := 7]), turns)
      && var s := After(NewSystem(map[0 := 7, 1 := 7]), turns);
      && 0 in s.clocks && 1 in s.clocks && s.clocks[0].signal == s.clocks[1].signal
      && s.clocks[0].due.Some? && s.clocks[1].due.Some?
  {
    var s0 := NewSystem(map[0 := 7, 1 := 7]);
    var s1 := SystemStep(s0, 0, StartAt(0, 2, 1, true, true));
    var s2 := SystemStep(s1, 1, StopNow);
    var s3 := SystemStep(s2, 1, StartAt(1, 2, 1, true, true));
    assert s1.active == {7} && s2.active == {};
    var turns := [Turn(0, StartAt(0, 2, 1, true, true)), Turn(1, StopNow), Turn(1, StartAt(1, 2, 1, true, true))];
    assert turns[1..] == [Turn(1, StopNow), Turn(1, StartAt(1, 2, 1, true, true))];
    assert turns[1..][1..] == [Turn(1, StartAt(1, 2, 1, true, true))];
    assert turns[1..][1..][1..] == [];
    assert After(s2, [Turn(1, StartAt(1, 2, 1, true, true))]) == s3;
    assert After(s1, turns[1..]) == s3;
  }
}
