/** The native clock: edges scheduled by one-shot delay callbacks, values posted on every edge. */
module ClockModel {
  import opened Common

  const U32_LIMIT := 0x1_0000_0000
  const U64_LIMIT := 0x1_0000_0000_0000_0000

  datatype Status = Success | Busy | Exists | Invalid | IoError

  datatype Edge = Edge(time: nat, level: bool)

  /** `due` is the time of the registered callback; `posted` lists every value written, `active` the driven signals. */
  datatype Clock = Clock(
    signal: int, period: nat, high: nat, level: bool,
    due: Option<nat>, destroyPending: bool, freed: bool,
    posted: seq<Edge>, active: set<int>)

  function NewClock(signal: int, active: set<int>): Clock {
    Clock(signal, 0, 0, false, None, false, false, [], active)
  }

  /** Steps to the next edge; the subtraction is that of 64-bit words. */
  function Delay(c: Clock): nat {
    if c.level then c.high else (c.period - c.high) % U64_LIMIT
  }

  // ---- the 64-bit delay travels as two 32-bit halves ----

  function HighHalf(d: nat): nat {
    d / U32_LIMIT % U32_LIMIT
  }

  function LowHalf(d: nat): nat {
    d % U32_LIMIT
  }

  function Rejoined(high: nat, low: nat): nat {
    high * U32_LIMIT + low
  }

  lemma HalvesLoseNothing(d: nat)
    ensures Rejoined(HighHalf(d), LowHalf(d)) == d <==> d < U64_LIMIT
  {
  }

  // ---- operations ----

  /** Post the level, flip it, and register for the next edge; the simulator may refuse. */
  function Toggle(c: Clock, now: nat, first: bool, accepted: bool): (Clock, Status) {
    var flipped := c.(posted := c.posted + [Edge(now, c.level)], level := !c.level);
    if accepted then
      (flipped.(due := Some(now + Rejoined(HighHalf(Delay(c)), LowHalf(Delay(c))))), Success)
    else
      (flipped.(active := if first then c.active - {c.signal} else c.active), IoError)
  }

  function Start(c: Clock, now: nat, period: nat, high: nat, startHigh: bool, accepted: bool): (Clock, Status) {
    if c.due.Some? then (c, Busy)
    else if c.signal in c.active then (c, Exists)
    else if period < 2 || high < 1 || high >= period then (c, Invalid)
    else Toggle(c.(active := c.active + {c.signal}, period := period, high := high, level := startHigh), now, true, accepted)
  }

  function Stop(c: Clock): Clock {
    c.(active := c.active - {c.signal}, due := None)
  }

  /** The callback at its time; `destroyed` says that the owner asked for destruction while it ran. */
  function Fire(c: Clock, accepted: bool, destroyed: bool): Clock
    requires c.due.Some?
  {
    if c.destroyPending then Stop(c.(due := None, freed := true))
    else
      var (after, _) := Toggle(c.(due := None), c.due.value, false, accepted);
      if destroyed then Stop(after.(destroyPending := true, freed := true)) else after
  }

  function Destroy(c: Clock): Clock {
    Stop(c.(freed := true))
  }

  /** What starting reports: a running clock first, then a signal that is driven, then bad timing, then a refusal. */
  lemma StartReports(c: Clock, now: nat, period: nat, high: nat, startHigh: bool, accepted: bool)
    ensures var status := Start(c, now, period, high, startHigh, accepted).1;
      && (status == Busy <==> c.due.Some?)
      && (status == Exists <==> c.due.None? && c.signal in c.active)
      && (status == Invalid <==> c.due.None? && c.signal !in c.active && !(1 <= high < period))
      && (status == IoError <==> c.due.None? && c.signal !in c.active && 1 <= high < period && !accepted)
      && (status == Success <==> c.due.None? && c.signal !in c.active && 1 <= high < period && accepted)
  {
  }

  /** An edge is posted and the level flipped even where the registration of the next one is refused. */
  lemma RefusedEdgeIsPosted(c: Clock, destroyed: bool)
    requires c.due.Some? && !c.destroyPending
    ensures Fire(c, false, destroyed).posted == c.posted + [Edge(c.due.value, c.level)]
    ensures Fire(c, false, destroyed).level == !c.level && Fire(c, false, destroyed).due == None
  {
  }

  /** A clock is freed when it is destroyed, or in the callback during or before which that was asked for, and never otherwise. */
  lemma FreedIff(c: Clock, e: Event)
    requires Enabled(c, e)
    ensures Step(c, e).freed <==> e.DestroyNow? || (e.FireNow? && (e.destroyed || c.destroyPending))
    ensures Step(c, e).freed ==> Step(c, e).due == None && c.signal !in Step(c, e).active
  {
    hide Rejoined, HighHalf, LowHalf, Delay;
  }

  // ---- whole runs ----

  datatype Event =
    | StartAt(now: nat, period: nat, high: nat, startHigh: bool, accepted: bool)
    | FireNow(accepted: bool, destroyed: bool)
    | StopNow
    | DestroyNow

  ghost predicate Sound(c: Clock) {
    && (c.freed ==> c.due.None?)
    && 0 <= c.high <= c.period < U64_LIMIT
    && (c.due.Some? ==> 1 <= c.high < c.period && c.posted != [] && Last(c.posted).time < c.due.value)
  }

  /** The simulator fires only registered callbacks; a freed clock is not used again. */
  predicate Enabled(c: Clock, e: Event) {
    !c.freed && (e.FireNow? ==> c.due.Some?) && (e.StartAt? ==> e.period < U64_LIMIT)
  }

  function Step(c: Clock, e: Event): Clock
    requires Enabled(c, e)
  {
    match e
    case StartAt(now, period, high, startHigh, accepted) => Start(c, now, period, high, startHigh, accepted).0
    case FireNow(accepted, destroyed) => Fire(c, accepted, destroyed)
    case StopNow => Stop(c)
    case DestroyNow => Destroy(c)
  }

  /** Whatever other clocks do: no callback outlives its clock, a running clock has valid timing, and its next edge lies in the future. */
  lemma StepKeepsSound(c: Clock, e: Event)
    requires Sound(c) && Enabled(c, e)
    ensures Sound(Step(c, e))
  {
    hide Rejoined, HighHalf, LowHalf, Delay;
    match e
    case StartAt(_, period, high, startHigh, _) =>
      if high < period {
        WholeDelay(c.(active := c.active + {c.signal}, period := period, high := high, level := startHigh));
      }
    case FireNow(_, _) => WholeDelay(c.(due := None));
    case _ =>
  }

  /** The halves carry the delay of a clock with valid timing, which is positive. */
  lemma WholeDelay(c: Clock)
    requires c.high <= c.period < U64_LIMIT
    ensures Rejoined(HighHalf(Delay(c)), LowHalf(Delay(c))) == Delay(c)
    ensures 1 <= c.high < c.period ==> Delay(c) >= 1
  {
    HalvesLoseNothing(Delay(c));
  }

  // ---- the waveform ----

  function LevelAt(startHigh: bool, k: nat): bool {
    if k % 2 == 0 then startHigh else !startHigh
  }

  function EdgeTime(t0: nat, period: nat, high: nat, startHigh: bool, k: nat): nat
    requires high < period
  {
    if k == 0 then t0
    else EdgeTime(t0, period, high, startHigh, k - 1) + if LevelAt(startHigh, k - 1) then high else period - high
  }

  function Wave(t0: nat, period: nat, high: nat, startHigh: bool, n: nat): seq<Edge>
    requires high < period
  {
    if n == 0 then []
    else
      Wave(t0, period, high, startHigh, n - 1)
      + [Edge(EdgeTime(t0, period, high, startHigh, n - 1), LevelAt(startHigh, n - 1))]
  }

  /** Started at t0 and left alone for `fires` callbacks. */
  function Running(c: Clock, fires: nat): Clock
    requires c.due.Some? && 1 <= c.high < c.period && !c.destroyPending
    ensures var r := Running(c, fires); r.due.Some? && r.high == c.high && r.period == c.period && !r.destroyPending
  {
    if fires == 0 then c else Fire(Running(c, fires - 1), true, false)
  }

  lemma FirstEdge(c: Clock, t0: nat, period: nat, high: nat, startHigh: bool)
    requires c.due.None? && c.signal !in c.active
    requires 1 <= high < period < U64_LIMIT
    ensures
      var r := Start(c, t0, period, high, startHigh, true).0;
      r == c.(period := period, high := high, level := !startHigh, active := c.active + {c.signal},
              posted := c.posted + [Edge(t0, startHigh)], due := Some(EdgeTime(t0, period, high, startHigh, 1)))
  {
    hide Rejoined, HighHalf, LowHalf;
    WholeDelay(c.(active := c.active + {c.signal}, period := period, high := high, level := startHigh));
    assert EdgeTime(t0, period, high, startHigh, 0) == t0;
  }

  lemma {:induction false} RunFollowsWave(c: Clock, t0: nat, period: nat, high: nat, startHigh: bool, fires: nat)
    requires c.due.None? && c.signal !in c.active && !c.destroyPending
    requires 1 <= high < period < U64_LIMIT
    ensures
      var started := Start(c, t0, period, high, startHigh, true).0;
      && started.due.Some? && started.high == high && started.period == period && !started.destroyPending
      && var r := Running(started, fires);
      && r.posted == c.posted + Wave(t0, period, high, startHigh, fires + 1)
      && r.due == Some(EdgeTime(t0, period, high, startHigh, fires + 1))
      && r.level == LevelAt(startHigh, fires + 1)
  {
    hide Start, Fire, Delay;
    FirstEdge(c, t0, period, high, startHigh);
    var started := Start(c, t0, period, high, startHigh, true).0;
    if fires == 0 {
      assert Wave(t0, period, high, startHigh, 0) == [];
    } else {
      RunFollowsWave(c, t0, period, high, startHigh, fires - 1);
      NextEdge(Running(started, fires - 1));
      assert c.posted + Wave(t0, period, high, startHigh, fires) + [Edge(EdgeTime(t0, period, high, startHigh, fires), LevelAt(startHigh, fires))]
          == c.posted + Wave(t0, period, high, startHigh, fires + 1);
    }
  }

  /** One callback of a running clock. */
  lemma NextEdge(c: Clock)
    requires c.due.Some? && 1 <= c.high < c.period < U64_LIMIT && !c.destroyPending
    ensures Fire(c, true, false) == c.(posted := c.posted + [Edge(c.due.value, c.level)], level := !c.level,
                                       due := Some(c.due.value + if c.level then c.high else c.period - c.high))
  {
    HalvesLoseNothing(Delay(c));
  }

  /** The value in force at `t`: that of the last edge not after it. */
  function InForce(edges: seq<Edge>, t: nat): Option<bool>
    decreases |edges|
  {
    if edges == [] then None
    else if Last(edges).time <= t then Some(Last(edges).level)
    else InForce(Front(edges), t)
  }

  function ClosedForm(t0: nat, period: nat, high: nat, startHigh: bool, t: nat): bool
    requires 0 < high < period && t >= t0
  {
    if startHigh then (t - t0) % period < high else (t - t0) % period >= period - high
  }

  /** Two edges on from an even one a period has passed. */
  lemma TwoEdges(t0: nat, period: nat, high: nat, startHigh: bool, k: nat)
    requires 0 < high < period && k % 2 == 0
    ensures EdgeTime(t0, period, high, startHigh, k + 1)
         == EdgeTime(t0, period, high, startHigh, k) + if startHigh then high else period - high
    ensures EdgeTime(t0, period, high, startHigh, k + 2) == EdgeTime(t0, period, high, startHigh, k) + period
  {
    assert LevelAt(startHigh, k) == startHigh && LevelAt(startHigh, k + 1) == !startHigh;
  }

  lemma {:induction false} EdgePairs(t0: nat, period: nat, high: nat, startHigh: bool, j: nat)
    requires 0 < high < period
    ensures EdgeTime(t0, period, high, startHigh, 2 * j) == t0 + j * period
    ensures EdgeTime(t0, period, high, startHigh, 2 * j + 1) == t0 + j * period + if startHigh then high else period - high
  {
    if j == 0 {
      assert EdgeTime(t0, period, high, startHigh, 0) == t0;
    } else {
      hide EdgeTime;
      EdgePairs(t0, period, high, startHigh, j - 1);
      TwoEdges(t0, period, high, startHigh, 2 * (j - 1));
      Distributes(j - 1, period);
    }
    TwoEdges(t0, period, high, startHigh, 2 * j);
  }

  /** Between two edges the level is the closed form. */
  lemma LevelIsClosedForm(t0: nat, period: nat, high: nat, startHigh: bool, k: nat, t: nat)
    requires 0 < high < period
    requires EdgeTime(t0, period, high, startHigh, k) <= t < EdgeTime(t0, period, high, startHigh, k + 1)
    ensures t >= t0 && LevelAt(startHigh, k) == ClosedForm(t0, period, high, startHigh, t)
  {
    hide EdgeTime, ClosedForm;
    var j := k / 2;
    var start, next := j * period, (j + 1) * period;
    EdgePairs(t0, period, high, startHigh, j);
    EdgePairs(t0, period, high, startHigh, j + 1);
    assert next == start + period by {
      Distributes(j, period);
    }
    assert k == 2 * j || k == 2 * j + 1;
    var phase := t - t0 - start;
    QuotientIs(t - t0, period, j, phase);
    LevelInPeriod(t0, period, high, startHigh, k % 2 == 1, phase, t);
  }

  lemma LevelInPeriod(t0: nat, period: nat, high: nat, startHigh: bool, odd: bool, phase: nat, t: nat)
    requires 0 < high < period && t >= t0 && (t - t0) % period == phase
    requires odd <==> phase >= if startHigh then high else period - high
    ensures (if odd then !startHigh else startHigh) == ClosedForm(t0, period, high, startHigh, t)
  {
  }

  lemma {:induction false} WaveInForce(before: seq<Edge>, t0: nat, period: nat, high: nat, startHigh: bool, n: nat, t: nat)
    requires 0 < high < period && t0 <= t < EdgeTime(t0, period, high, startHigh, n)
    ensures InForce(before + Wave(t0, period, high, startHigh, n), t) == Some(ClosedForm(t0, period, high, startHigh, t))
  {
    var edges := before + Wave(t0, period, high, startHigh, n);
    assert Front(edges) == before + Wave(t0, period, high, startHigh, n - 1);
    if EdgeTime(t0, period, high, startHigh, n - 1) <= t {
      LevelIsClosedForm(t0, period, high, startHigh, n - 1, t);
    } else {
      WaveInForce(before, t0, period, high, startHigh, n - 1, t);
    }
  }

  /** Closed form: at any time from the start to the pending edge, the value in force depends only on the phase in the period. */
  lemma ClockWaveform(c: Clock, t0: nat, period: nat, high: nat, startHigh: bool, fires: nat, t: nat)
    requires c.due.None? && c.signal !in c.active && !c.destroyPending
    requires 1 <= high < period < U64_LIMIT
    requires t0 <= t
    ensures
      var started := Start(c, t0, period, high, startHigh, true).0;
      && started.due.Some? && started.high == high && started.period == period && !started.destroyPending
      && var r := Running(started, fires);
      t < r.due.value ==> InForce(r.posted, t) == Some(ClosedForm(t0, period, high, startHigh, t))
  {
    RunFollowsWave(c, t0, period, high, startHigh, fires);
    if t < EdgeTime(t0, period, high, startHigh, fires + 1) {
      WaveInForce(c.posted, t0, period, high, startHigh, fires + 1, t);
    }
  }
}
