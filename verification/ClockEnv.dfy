/** The native clock as an object, with the registry of driven signals it shares with other clocks. */
module ClockEnv {
  import opened Common
  import opened ClockModel

  class ActiveSignals {
    var active: set<int>

    constructor ()
      ensures active == {}
    {
      active := {};
    }
  }

  class NativeClock {
    const signal: int
    const registry: ActiveSignals
    var periodSteps: nat
    var highSteps: nat
    var currentVal: bool
    var cbHandle: Option<nat>
    var destroyPending: bool
    var freed: bool
    ghost var posted: seq<Edge>

    constructor (signal: int, registry: ActiveSignals)
      ensures this.registry == registry && View() == NewClock(signal, registry.active)
    {
      this.signal, this.registry := signal, registry;
      periodSteps, highSteps, currentVal, cbHandle := 0, 0, false, None;
      destroyPending, freed, posted := false, false, [];
    }

    ghost function View(): Clock
      reads this, registry
    {
      Clock(signal, periodSteps, highSteps, currentVal, cbHandle, destroyPending, freed, posted, registry.active)
    }

    /** `accepted` is whether the simulator returned a handle for the new callback. */
    method Toggle(now: nat, first: bool, accepted: bool) returns (status: Status)
      modifies this, registry
      ensures (View(), status) == ClockModel.Toggle(old(View()), now, first, accepted)
    {
      posted := posted + [Edge(now, currentVal)];
      var delay := if currentVal then highSteps else (periodSteps - highSteps) % U64_LIMIT;
      currentVal := !currentVal;
      if !accepted {
        if first {
          registry.active := registry.active - {signal};
        }
        return IoError;
      }
      cbHandle := Some(now + Rejoined(HighHalf(delay), LowHalf(delay)));
      return Success;
    }

    method Start(now: nat, period: nat, high: nat, startHigh: bool, accepted: bool) returns (status: Status)
      modifies this, registry
      ensures (View(), status) == ClockModel.Start(old(View()), now, period, high, startHigh, accepted)
    {
      if cbHandle.Some? {
        return Busy;
      }
      if signal in registry.active {
        return Exists;
      }
      if period < 2 || high < 1 || high >= period {
        return Invalid;
      }
      registry.active := registry.active + {signal};
      periodSteps, highSteps, currentVal := period, high, startHigh;
      status := Toggle(now, true, accepted);
    }

    method Stop()
      modifies this, registry
      ensures View() == ClockModel.Stop(old(View()))
    {
      registry.active := registry.active - {signal};
      cbHandle := None;
    }

    method ToggleCallback(accepted: bool, destroyed: bool)
      requires cbHandle.Some?
      modifies this, registry
      ensures View() == Fire(old(View()), accepted, destroyed)
    {
      var now := cbHandle.value;
      cbHandle := None;
      if destroyPending {
        freed := true;
        Stop();
        return;
      }
      var _ := Toggle(now, false, accepted);
      if destroyed {
        destroyPending, freed := true, true;
        Stop();
      }
    }

    method Destroy()
      modifies this, registry
      ensures View() == ClockModel.Destroy(old(View()))
    {
      freed := true;
      Stop();
    }
  }
}
