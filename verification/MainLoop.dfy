/** Time and the internal clock in the two main loops of the Verilator harness. */
module MainLoop {
  import opened Common

  const U64_LIMIT := 0x1_0000_0000_0000_0000

  /** Time and clock level of one time step, after the toggle at its beginning. */
  datatype Tick = Tick(time: nat, clock: bool)

  predicate OnBoundary(time: nat, half: nat)
    requires half > 0
  {
    time > 0 && time % half == 0
  }

  function Toggled(time: nat, clock: bool, half: nat): bool
    requires half > 0
  {
    if OnBoundary(time, half) then !clock else clock
  }

  function Boundary(time: nat, half: nat): nat
    requires half > 0
  {
    (time / half + 1) * half
  }

  /** The next boundary as 64-bit arithmetic computes it. */
  function NextBoundary(time: nat, half: nat): nat
    requires half > 0
  {
    Boundary(time, half) % U64_LIMIT
  }

  function TimingTick(t: Tick, deadline: nat, half: nat): Tick
    requires half > 0
  {
    var boundary := NextBoundary(t.time, half);
    var time := if deadline <= boundary then deadline else boundary;
    Tick(time, Toggled(time, t.clock, half))
  }

  /** The time steps of timing mode when the model's next events are at `deadlines`, one for each step. */
  function TimingTicks(t: Tick, deadlines: seq<nat>, half: nat): (ticks: seq<Tick>)
    requires half > 0
    ensures |ticks| == |deadlines| + 1 && ticks[0] == t
    decreases |deadlines|
  {
    if deadlines == [] then [t] else [t] + TimingTicks(TimingTick(t, deadlines[0], half), deadlines[1..], half)
  }

  /** Deadlines lie strictly in the future, and the next boundary fits 64 bits. */
  ghost predicate Future(t: Tick, deadlines: seq<nat>, half: nat)
    requires half > 0
    decreases |deadlines|
  {
    deadlines == [] || (
      && deadlines[0] > t.time
      && Boundary(t.time, half) < U64_LIMIT
      && Future(TimingTick(t, deadlines[0], half), deadlines[1..], half))
  }

  predicate High(time: nat, half: nat)
    requires half > 0
  {
    time / half % 2 == 1
  }

  // ---- timing mode ----

  lemma DivideBetween(a: nat, b: nat, half: nat)
    requires half > 0 && a < b <= Boundary(a, half)
    ensures b / half == if b == Boundary(a, half) then a / half + 1 else a / half
    ensures b % half == 0 <==> b == Boundary(a, half)
  {
    var q, bound := a / half, Boundary(a, half);
    assert bound == q * half + half;
    assert a == q * half + a % half;
    QuotientIs(bound, half, q + 1, 0);
    if b < bound {
      QuotientIs(b, half, q, b - q * half);
    }
  }

  lemma ParityBetween(a: nat, b: nat, half: nat)
    requires half > 0 && a < b <= Boundary(a, half)
    ensures High(b, half) == Toggled(b, High(a, half), half)
  {
    DivideBetween(a, b, half);
  }

  lemma BoundaryAhead(time: nat, half: nat)
    requires half > 0
    ensures Boundary(time, half) > time
  {
    var q := time / half;
    assert (q + 1) * half == q * half + half && time == q * half + time % half;
  }

  /** One step of timing mode moves forward, no further than the next boundary, and keeps the clock equal to its closed form. */
  lemma TimingStep(t: Tick, deadline: nat, half: nat)
    requires half > 0 && deadline > t.time && Boundary(t.time, half) < U64_LIMIT
    requires t.clock == High(t.time, half)
    ensures
      var n := TimingTick(t, deadline, half);
      && t.time < n.time <= Boundary(t.time, half)
      && n.clock == High(n.time, half)
  {
    hide Boundary, High, Toggled;
    BoundaryAhead(t.time, half);
    ParityBetween(t.time, TimingTick(t, deadline, half).time, half);
  }

  lemma NoBoundaryBetween(a: nat, b: nat, half: nat, m: nat)
    requires half > 0 && a < m * half <= b <= Boundary(a, half)
    ensures m * half == b
  {
    QuotientIs(m * half, half, m, 0);
    DivideBetween(a, m * half, half);
  }

  ghost predicate Visited(ticks: seq<Tick>, time: nat) {
    exists i | 0 <= i < |ticks| :: ticks[i].time == time
  }

  ghost predicate Steady(ticks: seq<Tick>, half: nat)
    requires half > 0
  {
    && (forall i | 0 <= i < |ticks| :: ticks[i].clock == High(ticks[i].time, half))
    && (forall i | 0 < i < |ticks| :: ticks[i - 1].time < ticks[i].time)
  }

  /** In timing mode time strictly increases, and the clock is (time / half) mod 2 all along. */
  lemma {:induction false} TimingModeKeepsTheClock(t: Tick, deadlines: seq<nat>, half: nat)
    requires half > 0 && Future(t, deadlines, half)
    requires t.clock == High(t.time, half)
    ensures Steady(TimingTicks(t, deadlines, half), half)
    decreases |deadlines|
  {
    hide TimingTick, High;
    if deadlines != [] {
      var next := TimingTick(t, deadlines[0], half);
      TimingStep(t, deadlines[0], half);
      TimingModeKeepsTheClock(next, deadlines[1..], half);
      SteadyCons(t, TimingTicks(next, deadlines[1..], half), half);
    }
  }

  lemma SteadyCons(t: Tick, rest: seq<Tick>, half: nat)
    requires half > 0 && Steady(rest, half) && rest != []
    requires t.clock == High(t.time, half) && t.time < rest[0].time
    ensures Steady([t] + rest, half)
  {
    var ticks := [t] + rest;
    forall i | 0 < i < |ticks| ensures ticks[i - 1].time < ticks[i].time {
      assert ticks[i] == rest[i - 1];
      if i > 1 {
        assert ticks[i - 1] == rest[i - 2];
      }
    }
  }

  /** Every boundary up to the last time step is a time step. */
  lemma {:induction false} TimingModeVisitsAll(t: Tick, deadlines: seq<nat>, half: nat, m: nat)
    requires half > 0 && Future(t, deadlines, half)
    requires t.clock == High(t.time, half)
    requires t.time <= m * half <= TimingTicks(t, deadlines, half)[|deadlines|].time
    ensures Visited(TimingTicks(t, deadlines, half), m * half)
    decreases |deadlines|
  {
    hide TimingTick, High;
    var ticks := TimingTicks(t, deadlines, half);
    assert ticks[0] == t;
    if m * half > t.time {
      var next := TimingTick(t, deadlines[0], half);
      var rest := TimingTicks(next, deadlines[1..], half);
      TimingStep(t, deadlines[0], half);
      if m * half < next.time {
        NoBoundaryBetween(t.time, next.time, half, m);
      }
      TimingModeVisitsAll(next, deadlines[1..], half, m);
      var i :| 0 <= i < |rest| && rest[i].time == m * half;
      assert ticks[i + 1] == rest[i];
    }
  }

  lemma BoundaryIsMultiple(time: nat, half: nat)
    requires half > 0
    ensures Boundary(time, half) % half == 0
  {
    QuotientIs(Boundary(time, half), half, time / half + 1, 0);
  }

  /** No event is passed over: each time step is the next event, or a clock boundary before it. */
  lemma {:induction false} TimingModeMeetsDeadlines(t: Tick, deadlines: seq<nat>, half: nat, i: nat)
    requires half > 0 && Future(t, deadlines, half) && i < |deadlines|
    ensures var time := TimingTicks(t, deadlines, half)[i + 1].time;
      time <= deadlines[i] && (time == deadlines[i] || time % half == 0)
    decreases |deadlines|
  {
    hide Boundary, Toggled;
    var next := TimingTick(t, deadlines[0], half);
    var rest := TimingTicks(next, deadlines[1..], half);
    assert TimingTicks(t, deadlines, half) == [t] + rest;
    if i == 0 {
      BoundaryIsMultiple(t.time, half);
      assert rest[0] == next;
    } else {
      TimingModeMeetsDeadlines(next, deadlines[1..], half, i - 1);
    }
  }

  // ---- normal mode ----

  /** Time is a 64-bit counter. */
  function NormalTick(k: nat, step: nat, half: nat): Tick
    requires half > 0
  {
    if k == 0 then Tick(0, false)
    else
      var before := NormalTick(k - 1, step, half);
      var time := (before.time + step) % U64_LIMIT;
      Tick(time, Toggled(time, before.clock, half))
  }

  lemma {:induction false} NormalTime(k: nat, step: nat, half: nat)
    requires half > 0
    ensures NormalTick(k, step, half).time == k * step % U64_LIMIT
  {
    if k > 0 {
      NormalTime(k - 1, step, half);
      Counts((k - 1) * step, step);
      assert (k - 1) * step + step == k * step;
    }
  }

  /** The counter is reduced at every step, or once at the end. */
  lemma Counts(a: nat, b: nat)
    ensures (a % U64_LIMIT + b) % U64_LIMIT == (a + b) % U64_LIMIT
  {
    var q := a / U64_LIMIT;
    assert a == q * U64_LIMIT + a % U64_LIMIT;
  }

  /**
   The steps that suit a half period: those that divide it, its odd multiples, and those whose
   remainder divides it on top of an even multiple.
   */
  predicate Suits(step: nat, half: nat)
    requires half > 0
  {
    if step % half == 0 then step / half % 2 == 1
    else step / half % 2 == 0 && half % (step % half) == 0
  }

  lemma DividingStepSuits(step: nat, half: nat)
    requires step > 0 && half > 0 && half % step == 0
    ensures Suits(step, half)
  {
    assert half == half / step * step;
    if half / step == 1 {
      QuotientIs(half, half, 1, 0);
    } else {
      MulMono(2, half / step, step);
      QuotientIs(step, half, 0, step);
    }
  }

  /** A time and the next one, split at the half period. */
  lemma NextPhase(t: nat, step: nat, half: nat)
    requires half > 0
    ensures var b, r := t % half, step % half;
      if b + r < half then
        (t + step) / half == t / half + step / half && (t + step) % half == b + r
      else
        (t + step) / half == t / half + step / half + 1 && (t + step) % half == b + r - half
  {
    SumPhase(t, step, half, t / half, t % half, step / half, step % half);
  }

  lemma SumPhase(t: nat, step: nat, half: nat, a: nat, b: nat, q: nat, r: nat)
    requires b < half && r < half && t == a * half + b && step == q * half + r
    ensures if b + r < half then (t + step) / half == a + q && (t + step) % half == b + r
            else (t + step) / half == a + q + 1 && (t + step) % half == b + r - half
  {
    assert (a + q) * half == a * half + q * half;
    if b + r < half {
      QuotientIs(t + step, half, a + q, b + r);
    } else {
      assert (a + q + 1) * half == (a + q) * half + half;
      QuotientIs(t + step, half, a + q + 1, b + r - half);
    }
  }

  /** Where the remainder of the step divides the half period, all phases are multiples of it. */
  lemma {:induction false} PhaseIsMultiple(k: nat, step: nat, half: nat) returns (m: nat)
    requires half > 0 && step % half > 0 && half % (step % half) == 0
    ensures k * step % half == m * (step % half) && (m + 1) * (step % half) <= half
  {
    var r := step % half;
    var c := half / r;
    assert half == c * r;
    if k == 0 {
      m := 0;
      QuotientIs(0, half, 0, 0);
    } else {
      var before := PhaseIsMultiple(k - 1, step, half);
      assert k * step == (k - 1) * step + step;
      NextPhase((k - 1) * step, step, half);
      assert (before + 1) * r == before * r + r;
      m := if (before + 1) * r < half then before + 1 else 0;
      if m > 0 {
        if m >= c {
          MulMono(c, m, r);
        }
        MulMono(m + 1, c, r);
      }
    }
  }

  lemma NormalStep(k: nat, step: nat, half: nat)
    requires step > 0 && half > 0 && Suits(step, half)
    ensures High(k * step + step, half) == Toggled(k * step + step, High(k * step, half), half)
  {
    NextPhase(k * step, step, half);
    if step % half == 0 {
      MultiplePhase(k, step, half);
    } else {
      var m := PhaseIsMultiple(k, step, half);
      assert (m + 1) * (step % half) == m * (step % half) + step % half;
    }
  }

  lemma {:induction false} MultiplePhase(k: nat, step: nat, half: nat)
    requires half > 0 && step % half == 0
    ensures k * step % half == 0
  {
    if k == 0 {
      QuotientIs(0, half, 0, 0);
    } else {
      MultiplePhase(k - 1, step, half);
      assert k * step == (k - 1) * step + step;
      NextPhase((k - 1) * step, step, half);
    }
  }

  /** With a step that suits the half period, the clock of normal mode is (time / half) mod 2 until the time wraps. */
  lemma {:induction false} NormalModeKeepsTheClock(k: nat, step: nat, half: nat)
    requires step > 0 && half > 0 && Suits(step, half) && k * step < U64_LIMIT
    ensures NormalTick(k, step, half) == Tick(k * step, High(k * step, half))
  {
    hide High, OnBoundary, Suits;
    if k == 0 {
      assert !High(0, half) by { ZeroIsLow(half); }
    } else {
      assert k * step == (k - 1) * step + step;
      NormalModeKeepsTheClock(k - 1, step, half);
      NormalStep(k - 1, step, half);
    }
  }

  ghost predicate KeepsTheClock(step: nat, half: nat, k: nat)
    requires half > 0
  {
    NormalTick(k, step, half) == Tick(k * step, High(k * step, half))
  }

  /** Until a first boundary is crossed without being hit the clock stays low. */
  lemma {:induction false} LowUntil(k: nat, step: nat, half: nat, t: nat, phase: nat, n: nat)
    requires step > 0 && half > 0 && t < U64_LIMIT && step % half > 0
    requires t == k * step && phase == k * (step % half) && n == k * (step / half)
    requires k > 0 ==> phase - step % half < half && phase != half
    ensures NormalTick(k, step, half) == Tick(t, false)
    ensures phase < half ==> t % half == phase && t / half == n
  {
    if k == 0 {
      QuotientIs(0, half, 0, 0);
    } else {
      Distributes(k - 1, step);
      Distributes(k - 1, step % half);
      Distributes(k - 1, step / half);
      LowUntil(k - 1, step, half, t - step, phase - step % half, n - step / half);
      LowStep(t - step, step, half, NormalTick(k - 1, step, half));
    }
  }

  lemma LowStep(t: nat, step: nat, half: nat, before: Tick)
    requires half > 0 && step % half > 0 && t + step < U64_LIMIT && t % half + step % half != half && before == Tick(t, false)
    ensures (t + step) % U64_LIMIT == t + step && !Toggled(t + step, false, half)
    ensures t % half + step % half < half ==>
      (t + step) % half == t % half + step % half && (t + step) / half == t / half + step / half
  {
    NextPhase(t, step, half);
  }

  /** The first step hits or crosses a number of boundaries of the wrong parity. */
  lemma WrongAtOnce(step: nat, half: nat)
    requires 0 < step < U64_LIMIT && half > 0
    requires if step % half == 0 then step / half % 2 == 0 else step / half % 2 == 1
    ensures 1 * step < U64_LIMIT && !KeepsTheClock(step, half, 1)
  {
    assert NormalTick(0, step, half) == Tick(0, false);
    assert 1 * step == step;
  }

  /** From an even number of half periods, a step of an even number of them that crosses one more ends high. */
  lemma CrossedHigh(t: nat, step: nat, half: nat)
    requires half > 0 && t / half % 2 == 0 && step / half % 2 == 0 && t % half + step % half >= half
    ensures High(t + step, half)
  {
    NextPhase(t, step, half);
  }

  /** The first boundary that the remainders cross is not hit. */
  lemma WrongLater(step: nat, half: nat, c: nat)
    requires step > 0 && half > 0 && (c + 1) * step < U64_LIMIT
    requires 0 < step % half && c * (step % half) < half < (c + 1) * (step % half)
    requires step / half % 2 == 0
    ensures !KeepsTheClock(step, half, c + 1)
  {
    hide NormalTick, OnBoundary, High;
    var r := step % half;
    var t, n := c * step, (c + 1) * step;
    assert n == t + step && (c + 1) * r == c * r + r by {
      Distributes(c, step);
      Distributes(c, r);
    }
    Earlier(c, r, half);
    LowUntil(c, step, half, t, c * r, c * (step / half));
    LowUntil(c + 1, step, half, n, (c + 1) * r, (c + 1) * (step / half));
    EvenTimes(c, step / half);
    CrossedHigh(t, step, half);
  }

  lemma Earlier(c: nat, r: nat, half: nat)
    requires c * r < half
    ensures c > 0 ==> (c - 1) * r < half && c * r != half
  {
    if c > 0 {
      assert c * r == (c - 1) * r + r;
    }
  }

  /** A step that does not suit the half period goes wrong at the first boundary it does not treat right. */
  lemma UnsuitableStep(step: nat, half: nat) returns (k: nat)
    requires step > 0 && half > 0 && half * step < U64_LIMIT && !Suits(step, half)
    ensures k * step < U64_LIMIT && !KeepsTheClock(step, half, k)
  {
    hide KeepsTheClock;
    var r := step % half;
    MulMono(1, half, step);
    if r == 0 || step / half % 2 == 1 {
      k := 1;
      WrongAtOnce(step, half);
    } else {
      var c := half / r;
      assert half == c * r + half % r && (c + 1) * r == c * r + r;
      k := c + 1;
      TooFew(c, r, half);
      MulMono(c + 1, half, step);
      WrongLater(step, half, c);
    }
  }

  lemma TooFew(c: nat, r: nat, half: nat)
    requires r > 0 && half == c * r + half % r && half % r != 0
    ensures c + 1 <= half
  {
    MulMono(1, r, c);
    assert r >= 1 && c * r >= c * 1;
  }

  lemma EvenTimes(c: nat, q: nat)
    requires q % 2 == 0
    ensures c * q % 2 == 0
  {
    var h := q / 2;
    assert c * q == c * (2 * h) == (c * h) * 2;
    QuotientIs(c * q, 2, c * h, 0);
  }

  /** The clock of normal mode is (time / half) mod 2 at every step before the time wraps exactly when the step suits the half period. */
  lemma NormalModeKeepsTheClockIff(step: nat, half: nat)
    requires step > 0 && half > 0 && half * step < U64_LIMIT
    ensures (forall k: nat | k * step < U64_LIMIT :: KeepsTheClock(step, half, k)) <==> Suits(step, half)
  {
    if Suits(step, half) {
      forall k: nat | k * step < U64_LIMIT ensures KeepsTheClock(step, half, k) {
        NormalModeKeepsTheClock(k, step, half);
      }
    } else {
      var k := UnsuitableStep(step, half);
    }
  }

  lemma ZeroIsLow(half: nat)
    requires half > 0
    ensures !High(0, half)
  {
    QuotientIs(0, half, 0, 0);
  }

  /** Until the time wraps, normal mode visits every boundary exactly when the step divides the half period. */
  lemma NormalModeVisitsAllIff(step: nat, half: nat)
    requires step > 0 && 0 < half < U64_LIMIT
    ensures (forall m: nat | m * half < U64_LIMIT :: Reached(step, half, m)) <==> half % step == 0
  {
    if half % step == 0 {
      forall m: nat | m * half < U64_LIMIT ensures Reached(step, half, m) {
        ReachesAll(step, half, m);
      }
    }
    if forall m: nat | m * half < U64_LIMIT :: Reached(step, half, m) {
      assert 1 * half < U64_LIMIT;
      FirstReached(step, half);
    }
  }

  lemma FirstReached(step: nat, half: nat)
    requires step > 0 && half > 0 && Reached(step, half, 1)
    ensures half % step == 0
  {
    hide NormalTick;
    var k: nat :| k * step < U64_LIMIT && NormalTick(k, step, half).time == 1 * half;
    var t := k * step;
    NormalTime(k, step, half);
    Below(t);
    QuotientIs(half, step, k, 0);
  }

  /** Some step before the time wraps is at the `m`th boundary. */
  ghost predicate Reached(step: nat, half: nat, m: nat)
    requires half > 0
  {
    exists k: nat :: k * step < U64_LIMIT && NormalTick(k, step, half).time == m * half
  }

  lemma Below(n: nat)
    requires n < U64_LIMIT
    ensures n % U64_LIMIT == n
  {
  }

  lemma ReachesAll(step: nat, half: nat, m: nat)
    requires step > 0 && half > 0 && half % step == 0 && m * half < U64_LIMIT
    ensures Reached(step, half, m)
  {
    var k := m * (half / step);
    assert k * step == m * half by {
      assert half == half / step * step;
    }
    NormalTime(k, step, half);
    Below(k * step);
  }

  // ---- the loops ----

  class Emulator {
    const half: nat
    const step: nat
    var time: nat
    var clock: bool

    constructor (half: nat, step: nat)
      ensures this.half == half && this.step == step && time == 0 && !clock
    {
      this.half, this.step, time, clock := half, step, 0, false;
    }

    method ToggleAtBoundary()
      requires half > 0
      modifies this`clock
      ensures clock == Toggled(time, old(clock), half)
    {
      if time > 0 && time % half == 0 {
        clock := !clock;
      }
    }

    /** From one time step to the next: the nearer of deadline and boundary, and the toggle there. */
    method Advance(deadline: nat)
      requires half > 0
      modifies this`time, this`clock
      ensures Tick(time, clock) == TimingTick(Tick(old(time), old(clock)), deadline, half)
    {
      var boundary := (time / half + 1) * half % U64_LIMIT;
      time := if deadline <= boundary then deadline else boundary;
      ToggleAtBoundary();
    }

    /** One element of `ticks` for each time step that is evaluated. */
    method TimingModeMain(deadlines: seq<nat>) returns (ticks: seq<Tick>)
      requires half > 0
      modifies this`time, this`clock
      ensures ticks == TimingTicks(Tick(old(time), Toggled(old(time), old(clock), half)), deadlines, half)
    {
      hide TimingTick, Toggled;
      ticks := [];
      ToggleAtBoundary();
      ghost var all := TimingTicks(Tick(time, clock), deadlines, half);
      for i := 0 to |deadlines|
        invariant ticks + TimingTicks(Tick(time, clock), deadlines[i..], half) == all
      {
        assert deadlines[i..][1..] == deadlines[i + 1..];
        ticks := ticks + [Tick(time, clock)];
        Advance(deadlines[i]);
      }
      ticks := ticks + [Tick(time, clock)];
    }

    method NormalModeMain(steps: nat)
      requires half > 0 && time == 0 && !clock
      modifies this`time, this`clock
      ensures Tick(time, clock) == NormalTick(steps, step, half)
    {
      ToggleAtBoundary();
      for k := 0 to steps
        invariant Tick(time, clock) == NormalTick(k, step, half)
      {
        time := (time + step) % U64_LIMIT;
        ToggleAtBoundary();
      }
    }
  }
}
