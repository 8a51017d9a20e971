/**
  The controller that owns the settings: applying power states, and keeping the network-standby
  flag and the platform's wake-up sources together.
 */
module PowerControl {
  import opened PowerTypes
  import opened SettingsFile

  datatype WakeupSource = Voice | PresenceDetected | Bluetooth | Wifi | Ir | PowerKey | Timer | Cec | Lan | Rf4ce

  /** In the order of the interface's enumeration. */
  const ALL_SOURCES: seq<WakeupSource> :=
    [Voice, PresenceDetected, Bluetooth, Wifi, Ir, PowerKey, Timer, Cec, Lan, Rf4ce]

  datatype SourceConfig = SourceConfig(source: WakeupSource, enabled: bool)

  /** The flags of the sources the platform supports. */
  type Flags = map<WakeupSource, bool>

  /** The flags after a list of configurations; calls for unsupported or broken sources change nothing. */
  function Configured(flags: Flags, configs: seq<SourceConfig>, broken: set<WakeupSource>): Flags
    decreases |configs|
  {
    if configs == [] then flags
    else
      var (before, c) := (Configured(flags, configs[..|configs| - 1], broken), configs[|configs| - 1]);
      if c.source in before && c.source !in broken then before[c.source := c.enabled] else before
  }

  /** A call for an unsupported source does not count as a failure. */
  predicate Fails(flags: Flags, configs: seq<SourceConfig>, broken: set<WakeupSource>) {
    exists c :: c in configs && c.source in flags && c.source in broken
  }

  /** What the platform reports about the given sources. */
  function Reported(flags: Flags, sources: seq<WakeupSource>, broken: set<WakeupSource>): seq<SourceConfig> {
    if sources == [] then []
    else
      var (before, src) := (Reported(flags, sources[..|sources| - 1], broken), sources[|sources| - 1]);
      if src in flags && src !in broken then before + [SourceConfig(src, flags[src])] else before
  }

  predicate ReportFails(flags: Flags, sources: seq<WakeupSource>, broken: set<WakeupSource>) {
    exists src :: src in sources && src in flags && src in broken
  }

  lemma {:induction false} ConfiguredKeepsSources(flags: Flags, configs: seq<SourceConfig>, broken: set<WakeupSource>)
    ensures Configured(flags, configs, broken).Keys == flags.Keys
    decreases |configs|
  {
    if configs != [] {
      ConfiguredKeepsSources(flags, configs[..|configs| - 1], broken);
    }
  }

  /**
    A supported, working source ends up as the last configuration that names it says; any other
    keeps its flag.
   */
  lemma {:induction false} ConfiguredExactly(flags: Flags, configs: seq<SourceConfig>, broken: set<WakeupSource>, src: WakeupSource)
    requires src in flags
    ensures src in Configured(flags, configs, broken)
    ensures src in broken || (forall c :: c in configs ==> c.source != src) ==>
              Configured(flags, configs, broken)[src] == flags[src]
    ensures src !in broken ==> forall i :: 0 <= i < |configs| && configs[i].source == src
                                           && (forall j :: i < j < |configs| ==> configs[j].source != src) ==>
              Configured(flags, configs, broken)[src] == configs[i].enabled
    decreases |configs|
  {
    if configs != [] {
      var n := |configs| - 1;
      assert configs == configs[..n] + [configs[n]];
      ConfiguredExactly(flags, configs[..n], broken, src);
      ConfiguredKeepsSources(flags, configs[..n], broken);
    }
  }

  lemma AllSources()
    ensures forall src: WakeupSource :: src in ALL_SOURCES
    ensures forall i, j :: 0 <= i < j < |ALL_SOURCES| ==> ALL_SOURCES[i] != ALL_SOURCES[j]
  {
    forall src: WakeupSource
      ensures src in ALL_SOURCES
    {
      match src
      case Voice => assert ALL_SOURCES[0] == src;
      case PresenceDetected => assert ALL_SOURCES[1] == src;
      case Bluetooth => assert ALL_SOURCES[2] == src;
      case Wifi => assert ALL_SOURCES[3] == src;
      case Ir => assert ALL_SOURCES[4] == src;
      case PowerKey => assert ALL_SOURCES[5] == src;
      case Timer => assert ALL_SOURCES[6] == src;
      case Cec => assert ALL_SOURCES[7] == src;
      case Lan => assert ALL_SOURCES[8] == src;
      case Rf4ce => assert ALL_SOURCES[9] == src;
    }
  }

  /** A report lists exactly the supported, working sources, with their flags. */
  lemma {:induction false} ReportedExactly(flags: Flags, sources: seq<WakeupSource>, broken: set<WakeupSource>, c: SourceConfig)
    ensures c in Reported(flags, sources, broken) <==>
            c.source in sources && c.source in flags && c.source !in broken && c.enabled == flags[c.source]
  {
    if sources != [] {
      ReportedExactly(flags, sources[..|sources| - 1], broken, c);
      assert sources == sources[..|sources| - 1] + [sources[|sources| - 1]];
    }
  }

  /** It lists them in the order asked for. */
  lemma {:induction false} ReportedInOrder(flags: Flags, sources: seq<WakeupSource>, broken: set<WakeupSource>, i: nat, j: nat)
    requires i < j < |Reported(flags, sources, broken)|
    ensures var r := Reported(flags, sources, broken);
            exists a, b :: 0 <= a < b < |sources| && sources[a] == r[i].source && sources[b] == r[j].source
  {
    var n := |sources| - 1;
    var (before, r) := (Reported(flags, sources[..n], broken), Reported(flags, sources, broken));
    if j < |before| {
      ReportedInOrder(flags, sources[..n], broken, i, j);
      var a, b :| 0 <= a < b < n && sources[..n][a] == before[i].source && sources[..n][b] == before[j].source;
      assert sources[a] == r[i].source && sources[b] == r[j].source;
    } else {
      ReportedExactly(flags, sources[..n], broken, before[i]);
      var a :| 0 <= a < n && sources[..n][a] == before[i].source;
      assert sources[a] == r[i].source && sources[n] == r[j].source;
    }
  }

  class WakeupPlatform {
    var flags: Flags

    constructor (flags: Flags)
      ensures this.flags == flags
    {
      this.flags := flags;
    }

    method SetWakeupSrc(src: WakeupSource, enabled: bool, broken: set<WakeupSource>) returns (status: Error, supported: bool)
      modifies this
      ensures supported == (src in old(flags))
      ensures status.NoError? <==> supported && src !in broken
      ensures flags == if status.NoError? then old(flags)[src := enabled] else old(flags)
    {
      supported := src in flags;
      status := if supported && src !in broken then NoError else General;
      if status.NoError? {
        flags := flags[src := enabled];
      }
    }

    method GetWakeupSrc(src: WakeupSource, broken: set<WakeupSource>) returns (status: Error, enabled: bool, supported: bool)
      ensures supported == (src in flags)
      ensures status.NoError? <==> supported && src !in broken
      ensures status.NoError? ==> enabled == flags[src]
    {
      supported := src in flags;
      status := if supported && src !in broken then NoError else General;
      enabled := status.NoError? && flags[src];
    }
  }

  class PowerController {
    const store: SettingsStore
    const platform: WakeupPlatform
    var settings: Settings
    var lastKnownPowerState: PowerState

    /** What is in memory is what the persistent file gives back. */
    ghost predicate Valid()
      reads this, store
    {
      && settings.version == V1
      && SamePersisted(LoadFile(store.codes, Contents(store.opt)).0, settings)
    }

    /**
      Start-up: load the settings, give both network sources the saved standby flag, and bring the
      platform's power state in line.  `reading` is the platform's own state, if it can tell.
     */
    constructor (store: SettingsStore, platform: WakeupPlatform, reading: Option<PowerState>, hal: Platform,
                 broken: set<WakeupSource>)
      modifies store, platform
      ensures Valid() && this.store == store && this.platform == platform
      ensures platform.flags == Configured(old(platform.flags),
                                           [SourceConfig(Wifi, settings.nwStandbyMode), SourceConfig(Lan, settings.nwStandbyMode)],
                                           broken)
      ensures settings == old(Load(store.codes, store.View()).0).(powerState := settings.powerState)
      ensures lastKnownPowerState == old(Load(store.codes, store.View()).0).powerState
      ensures settings.powerState == if reading == None || reading == Some(lastKnownPowerState) || (hal.ok && !(hal.ignoreDeepSleep && lastKnownPowerState == StandbyDeepSleep))
                                   then lastKnownPowerState else reading.value
    {
      this.store, this.platform := store, platform;
      this.settings := Blank();
      this.lastKnownPowerState := On;
      new;
      LoadIsStable(store.codes, Contents(store.opt));
      settings := store.LoadSettings();
      assert Valid();
      var configs := [SourceConfig(Wifi, settings.nwStandbyMode), SourceConfig(Lan, settings.nwStandbyMode)];
      var status := SetWakeupSourceConfig(configs, broken);
      Init(reading, hal);
    }

    method Init(reading: Option<PowerState>, hal: Platform)
      requires Valid()
      modifies this, store`opt
      ensures Valid()
      ensures lastKnownPowerState == old(settings.powerState)
      ensures settings == old(settings).(powerState := settings.powerState)
      ensures settings.powerState == if reading == None || reading == Some(lastKnownPowerState) || (hal.ok && !(hal.ignoreDeepSleep && lastKnownPowerState == StandbyDeepSleep))
                                   then lastKnownPowerState else reading.value
    {
      lastKnownPowerState := settings.powerState;
      if reading.None? || reading.value == settings.powerState {
        return;
      }
      var status := SetPowerState(settings.powerState, hal);
      if status.NoError? {
        return;
      }
      settings := settings.(powerState := reading.value);
      store.SaveSettings(settings);
    }

    /** On success the state is applied, remembered as previous, and saved; on failure nothing changes. */
    method SetPowerState(state: PowerState, hal: Platform) returns (status: Error)
      requires Valid()
      modifies this`settings, this`lastKnownPowerState, store`opt
      ensures Valid()
      ensures status == if hal.ignoreDeepSleep && state == StandbyDeepSleep then IllegalState
                        else if hal.ok then NoError else General
      ensures settings == if status.NoError? then old(settings).(powerState := state) else old(settings)
      ensures lastKnownPowerState == if status.NoError? then old(settings.powerState) else old(lastKnownPowerState)
      ensures store.View() == if status.NoError? then Save(store.codes, settings, old(store.View())) else old(store.View())
    {
      if hal.ignoreDeepSleep {
        if state == StandbyDeepSleep {
          return IllegalState;
        }
      }
      var current := settings.powerState;
      if !hal.ok {
        status := General;
      } else {
        status := NoError;
        settings := settings.(powerState := state);
        store.SaveSettings(settings);
        lastKnownPowerState := current;
      }
    }

    method SetWakeupSourceConfig(configs: seq<SourceConfig>, broken: set<WakeupSource>) returns (status: Error)
      modifies platform
      ensures platform.flags == Configured(old(platform.flags), configs, broken)
      ensures status == if exists c :: c in configs && c.source in old(platform.flags) && c.source in broken
                        then General else NoError
    {
      var failed := false;
      for i := 0 to |configs|
        invariant platform.flags == Configured(old(platform.flags), configs[..i], broken)
        invariant platform.flags.Keys == old(platform.flags).Keys
        invariant failed <==> Fails(old(platform.flags), configs[..i], broken)
      {
        assert configs[..i + 1][..i] == configs[..i];
        var result, supported := platform.SetWakeupSrc(configs[i].source, configs[i].enabled, broken);
        if !result.NoError? && supported {
          failed := true;
        }
        assert configs[..i + 1] == configs[..i] + [configs[i]];
      }
      assert configs[..|configs|] == configs;
      status := if failed then General else NoError;
    }

    method GetWakeupSourceConfig(broken: set<WakeupSource>) returns (status: Error, configs: seq<SourceConfig>)
      ensures configs == Reported(platform.flags, ALL_SOURCES, broken)
      ensures status == if exists src :: src in platform.flags && src in broken then General else NoError
    {
      configs := [];
      var failed := false;
      for i := 0 to |ALL_SOURCES|
        invariant configs == Reported(platform.flags, ALL_SOURCES[..i], broken)
        invariant failed <==> ReportFails(platform.flags, ALL_SOURCES[..i], broken)
      {
        assert ALL_SOURCES[..i + 1][..i] == ALL_SOURCES[..i];
        var result, enabled, supported := platform.GetWakeupSrc(ALL_SOURCES[i], broken);
        if result.NoError? {
          configs := configs + [SourceConfig(ALL_SOURCES[i], enabled)];
        } else if !supported {
        } else {
          failed := true;
        }
        assert ALL_SOURCES[..i + 1] == ALL_SOURCES[..i] + [ALL_SOURCES[i]];
      }
      assert ALL_SOURCES[..|ALL_SOURCES|] == ALL_SOURCES;
      AllSources();
      status := if failed then General else NoError;
    }

    method SetNetworkStandbyMode(mode: bool, broken: set<WakeupSource>) returns (status: Error)
      requires Valid()
      modifies this`settings, store`opt, platform
      ensures Valid()
      ensures (status, platform.flags, settings.nwStandbyMode) ==
              NetworkStandbySet(old(platform.flags), old(settings.nwStandbyMode), mode, broken)
      ensures settings == old(settings).(nwStandbyMode := settings.nwStandbyMode)
    {
      if mode == settings.nwStandbyMode {
        return NoError;
      }
      status := SetWakeupSourceConfig([SourceConfig(Wifi, mode), SourceConfig(Lan, mode)], broken);
      if status.NoError? {
        settings := settings.(nwStandbyMode := mode);
        store.SaveSettings(settings);
      }
    }
  }

  /** Setting the flag it already has is not passed on to the wake-up sources. */
  function NetworkStandbySet(flags: Flags, current: bool, mode: bool, broken: set<WakeupSource>): (Error, Flags, bool) {
    if mode == current then (NoError, flags, current)
    else
      var configs := [SourceConfig(Wifi, mode), SourceConfig(Lan, mode)];
      if Fails(flags, configs, broken) then (General, Configured(flags, configs, broken), current)
      else (NoError, Configured(flags, configs, broken), mode)
  }
}
