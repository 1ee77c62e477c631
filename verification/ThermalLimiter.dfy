/** The thermal limiter as it updates its members and the frequency files. */
module ThermalLimiter {
  import opened Common
  import opened Thermal

  class ThermalLimiter {
    var isMonitoring: bool
    var interactive: bool
    var currentThermalState: State
    var throttledPackage: Option<string>
    var hasHandler: bool
    var generation: nat           // which Runnable the current monitor is
    var messages: seq<Task>       // of the main looper
    ghost var parked: bool
    var ceilings: Ceilings
    var files: Files

    ghost function State(): Limiter
      reads this
    {
      Limiter(isMonitoring, interactive, currentThermalState, throttledPackage, hasHandler, generation,
        messages, parked, ceilings, files)
    }

    constructor (files: Files)
      ensures State() == Initial(files)
    {
      isMonitoring, interactive, currentThermalState, throttledPackage := false, true, NORMAL, None;
      hasHandler, generation, messages, parked := false, 0, [], false;
      ceilings, this.files := DEFAULT_CEILINGS, files;
    }

    // -------------------------------------------------------------- frequency files

    /** One file after the other, for the cores of a cluster. */
    method SetClusterFrequency(cores: seq<nat>, frequency: int, writable: set<Node>)
      requires cores != []
      modifies this`files
      ensures files == SetCluster(old(files), writable, cores, frequency)
    {
      for i := 0 to |cores|
        invariant files == map n | n in old(files) ::
          if n in writable && n.Cpu? && n.core in cores[..i] then Some(frequency) else old(files)[n]
      {
        var path := Cpu(cores[i]);
        if path in writable && path in files {
          files := files[path := Some(frequency)];
        }
        assert forall c :: c in cores[..i + 1] <==> c in cores[..i] || c == cores[i];
      }
      assert cores[..|cores|] == cores;
    }

    method EnforceFrequencyCeiling(path: Node, frequency: int, writable: set<Node>)
      modifies this`files
      ensures files == map n | n in old(files) ::
        if n in writable && n == path && !(old(files)[n].Some? && old(files)[n].value <= frequency)
        then Some(frequency) else old(files)[n]
    {
      if path !in writable || path !in files {
        return;
      }
      var current := files[path];
      if current.Some? && current.value <= frequency {
        return;
      }
      files := files[path := Some(frequency)];
    }

    method EnforceClusterCeiling(cores: seq<nat>, frequency: int, writable: set<Node>)
      requires cores != []
      modifies this`files
      ensures files == EnforceCluster(old(files), writable, cores, frequency)
    {
      for i := 0 to |cores|
        invariant files == map n | n in old(files) ::
          if n in writable && n.Cpu? && n.core in cores[..i]
             && !(old(files)[n].Some? && old(files)[n].value <= frequency)
          then Some(frequency) else old(files)[n]
      {
        EnforceFrequencyCeiling(Cpu(cores[i]), frequency, writable);
        assert forall c :: c in cores[..i + 1] <==> c in cores[..i] || c == cores[i];
      }
      assert cores[..|cores|] == cores;
    }

    method SetGpuFrequency(frequency: int, writable: set<Node>)
      modifies this`files
      ensures files == SetCluster(old(files), writable, [], frequency)
    {
      if Gpu in writable && Gpu in files {
        files := files[Gpu := Some(frequency)];
      }
    }

    method EnforceGpuCeiling(frequency: int, writable: set<Node>)
      modifies this`files
      ensures files == EnforceCluster(old(files), writable, [], frequency)
    {
      EnforceFrequencyCeiling(Gpu, frequency, writable);
    }

    method WriteAll(s: State, writable: set<Node>)
      modifies this`files
      ensures files == WriteCaps(old(files), writable, s, ceilings)
    {
      var (cpu, gpu) := CapOf(s, ceilings);
      SetClusterFrequency(LITTLE, cpu.little, writable);
      SetClusterFrequency(MID, cpu.mid, writable);
      SetClusterFrequency(PRIME, cpu.prime, writable);
      SetGpuFrequency(gpu, writable);
    }

    method EnforceAll(s: State, writable: set<Node>)
      modifies this`files
      ensures files == EnforceCaps(old(files), writable, s, ceilings)
    {
      var (cpu, gpu) := CapOf(s, ceilings);
      ghost var f0 := files;
      EnforceClusterCeiling(LITTLE, cpu.little, writable);
      ghost var f1 := files;
      EnforceClusterCeiling(MID, cpu.mid, writable);
      ghost var f2 := files;
      EnforceClusterCeiling(PRIME, cpu.prime, writable);
      ghost var f3 := files;
      EnforceGpuCeiling(gpu, writable);
      EnforcedInTurn(f0, f1, f2, f3, files, writable, s, ceilings);
    }

    method ResetFrequencies(writable: set<Node>)
      modifies this`files, this`currentThermalState
      ensures State() == Thermal.ResetFrequencies(old(State()), writable)
    {
      WriteAll(NORMAL, writable);
      currentThermalState := NORMAL;
    }

    // -------------------------------------------------------------- one look at the temperature

    method AdjustFrequencies(temperature: int, prefs: Prefs, writable: set<Node>)
      modifies this`files, this`currentThermalState
      ensures State() == Thermal.AdjustFrequencies(old(State()), temperature, prefs, writable)
    {
      var thresholds := Thresholds(prefs);
      var newState := NORMAL;
      if temperature >= thresholds.critical {
        newState := CRITICAL;
      } else if temperature >= thresholds.high {
        newState := HIGH;
      } else if temperature >= thresholds.warm {
        newState := WARM;
      }
      if newState != currentThermalState {
        currentThermalState := newState;
        WriteAll(newState, writable);
      } else if newState != NORMAL {
        EnforceAll(newState, writable);
      }
    }

    method ReleaseThrottle(writable: set<Node>)
      modifies this`files, this`currentThermalState, this`throttledPackage
      ensures State() == Thermal.ReleaseThrottle(old(State()), writable)
    {
      throttledPackage := None;
      if currentThermalState != NORMAL {
        ResetFrequencies(writable);
      }
    }

    method DoTick(world: World, writable: set<Node>) returns (interval: int)
      modifies this`files, this`currentThermalState, this`throttledPackage
      ensures State() == Tick(old(State()), world, writable)
      ensures interval == if !isMonitoring || !interactive then 30000
        else if !Selected(world) then 4000
        else PollingInterval(Temperature(world.raw), world.prefs)
    {
      if !(isMonitoring && interactive) {
        ReleaseThrottle(writable);
        return 30000;
      }
      if world.foreground == None || world.foreground.value !in world.selected {
        ReleaseThrottle(writable);
        return 4000;
      }
      throttledPackage := world.foreground;
      var temperature := Temperature(world.raw);
      AdjustFrequencies(temperature, world.prefs, writable);
      return PollingInterval(temperature, world.prefs);
    }

    // -------------------------------------------------------------- messages and events

    method RemoveCallbacks()
      modifies this`messages
      ensures messages == RemoveMonitor(old(messages), generation)
    {
      var kept, rest := [], messages;
      while rest != []
        invariant RemoveMonitor(old(messages), generation) == kept + RemoveMonitor(rest, generation)
        decreases |rest|
      {
        if rest[0] != Monitor(generation) {
          kept := kept + [rest[0]];
        }
        rest := rest[1..];
      }
      messages := kept;
    }

    method CacheClusterCeilings(maxima: Maxima)
      modifies this`ceilings
      ensures ceilings == CeilingsFrom(maxima)
    {
      var little := ReadClusterCeiling(maxima.little, 1804800);
      var mid := ReadClusterCeiling(maxima.mid, 2496000);
      var prime := ReadClusterCeiling(maxima.prime, 2995200);
      ceilings := Ceilings(little, mid, prime);
    }

    /** What a cluster's own file says, if that is a positive number. */
    method ReadClusterCeiling(value: Option<int>, fallback: int) returns (ceiling: int)
      ensures fallback > 0 ==> ceiling > 0
      ensures ceiling == fallback || value == Some(ceiling)
      ensures value.Some? && value.value > 0 ==> ceiling == value.value
      ensures value.None? || value.value <= 0 ==> ceiling == fallback
    {
      if value.Some? && value.value > 0 {
        return value.value;
      }
      return fallback;
    }

    method StartMonitoring(supported: bool, screenOn: bool, maxima: Maxima)
      modifies this
      ensures State() == Next(old(State()), Start(supported, screenOn, maxima))
    {
      if isMonitoring || !supported {
        return;
      }
      isMonitoring, hasHandler := true, true;
      CacheClusterCeilings(maxima);
      interactive, parked := screenOn, false;
      generation := generation + 1;
      messages := messages + [Monitor(generation)];
    }

    method DoStopMonitoring(writable: set<Node>)
      modifies this
      ensures State() == Next(old(State()), StopMonitoring(writable))
    {
      if !isMonitoring {
        return;
      }
      isMonitoring := false;
      RemoveCallbacks();
      ResetFrequencies(writable);
      throttledPackage := None;
    }

    method OnScreenOff(writable: set<Node>)
      modifies this
      ensures State() == Next(old(State()), Step.ScreenOff(writable))
    {
      if !isMonitoring {
        return;
      }
      interactive, parked := false, true;
      RemoveCallbacks();
      ReleaseThrottle(writable);
    }

    method OnScreenOn()
      modifies this
      ensures State() == Next(old(State()), Step.ScreenOn)
    {
      if !isMonitoring {
        return;
      }
      interactive, parked := true, false;
      RemoveCallbacks();
      messages := messages + [Monitor(generation)];
    }

    method RequestImmediateCheck()
      modifies this
      ensures State() == Next(old(State()), RequestLook)
    {
      if hasHandler {
        messages := messages + [Look];
      }
    }

    method DispatchMessage(i: nat, world: World, writable: set<Node>)
      requires i < |messages|
      modifies this
      ensures State() == Next(old(State()), Dispatch(i, world, writable))
    {
      var task := messages[i];
      messages := messages[..i] + messages[i + 1..];
      match task {
        case Monitor(g) =>
          if isMonitoring {
            var _ := DoTick(world, writable);
            messages := messages + [Monitor(g)];
          }
        case Look =>
          if isMonitoring && interactive {
            RemoveCallbacks();
            messages := messages + [Monitor(generation)];
          }
      }
    }
  }
}
