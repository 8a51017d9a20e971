/**
  The network-standby flag and the wake-up sources, driven through the plugin: configuring the
  sources carries their common setting over to the flag, and setting the flag carries it over to
  the sources.
 */
module NetworkStandby {
  import opened PowerTypes
  import opened PowerControl

  datatype Net = Net(flags: Flags, standby: bool)

  /** The first configuration of a source decides; a source that is not listed is off. */
  function IsWakeupSrcEnabled(configs: seq<SourceConfig>, src: WakeupSource): bool {
    if configs == [] then false
    else if configs[0].source == src then configs[0].enabled
    else IsWakeupSrcEnabled(configs[1..], src)
  }

  function SetStandby(n: Net, mode: bool, broken: set<WakeupSource>): (Error, Net) {
    var (status, flags, standby) := NetworkStandbySet(n.flags, n.standby, mode, broken);
    (status, Net(flags, standby))
  }

  /** `setWakeupSourceConfig` of the plugin. */
  function SetSources(n: Net, configs: seq<SourceConfig>, broken: set<WakeupSource>): (Error, Net) {
    var configured := n.(flags := Configured(n.flags, configs, broken));
    if Fails(n.flags, configs, broken) then (General, configured)
    else if ReportFails(configured.flags, ALL_SOURCES, broken) then (General, configured)
    else
      var report := Reported(configured.flags, ALL_SOURCES, broken);
      var (wifi, lan) := (IsWakeupSrcEnabled(report, Wifi), IsWakeupSrcEnabled(report, Lan));
      if wifi != lan then (NoError, configured)
      else if (wifi && lan) == configured.standby then (NoError, configured)
      else SetStandby(configured, wifi && lan, broken)
  }

  /** At start-up both network sources are given the saved flag. */
  function BootNet(flags: Flags, standby: bool): Net {
    Net(Configured(flags, [SourceConfig(Wifi, standby), SourceConfig(Lan, standby)], {}), standby)
  }

  /**
    The plugin's configuration call takes the API lock anew for each of its four sections: it
    writes the sources, reads them back, reads the flag, and sets the flag.  Between two sections
    of a call, other callers may have theirs.
   */
  datatype Phase =
    | Written              // the sources have been written
    | Seen(mode: bool)     // they were read back, both at this setting
    | Differs(mode: bool)  // and the flag was read, at the other one

  datatype Shared = Shared(net: Net, calls: map<nat, Phase>)

  datatype NetAction =
    | Switch(mode: bool)
    | Configure(caller: nat, configs: seq<SourceConfig>)
    | Proceed(caller: nat)

  /** The next section of a call, with a platform that serves every source it supports. */
  function ProceedStep(p: Shared, caller: nat): Shared
    requires caller in p.calls
  {
    match p.calls[caller]
    case Written =>
      var report := Reported(p.net.flags, ALL_SOURCES, {});
      var (wifi, lan) := (IsWakeupSrcEnabled(report, Wifi), IsWakeupSrcEnabled(report, Lan));
      if wifi != lan then p.(calls := p.calls - {caller})
      else p.(calls := p.calls[caller := Seen(wifi && lan)])
    case Seen(mode) =>
      if mode == p.net.standby then p.(calls := p.calls - {caller})
      else p.(calls := p.calls[caller := Differs(mode)])
    case Differs(mode) =>
      Shared(SetStandby(p.net, mode, {}).1, p.calls - {caller})
  }

  function NetStep(p: Shared, a: NetAction): Shared {
    match a
    case Switch(mode) => p.(net := SetStandby(p.net, mode, {}).1)
    case Configure(caller, configs) =>
      if caller in p.calls then p
      else Shared(p.net.(flags := Configured(p.net.flags, configs, {})), p.calls[caller := Written])
    case Proceed(caller) => if caller in p.calls then ProceedStep(p, caller) else p
  }

  function NetRun(n: Net, actions: seq<NetAction>): Shared
    decreases |actions|
  {
    if actions == [] then Shared(n, map[])
    else NetStep(NetRun(n, actions[..|actions| - 1]), actions[|actions| - 1])
  }

  predicate IsOn(flags: Flags, src: WakeupSource) {
    src in flags && flags[src]
  }

  /** If Wi-Fi and LAN agree, network standby agrees with them. */
  predicate Agrees(n: Net) {
    IsOn(n.flags, Wifi) == IsOn(n.flags, Lan) ==> n.standby == IsOn(n.flags, Wifi)
  }

  lemma {:induction false} ReportAppend(a: seq<SourceConfig>, c: SourceConfig, src: WakeupSource)
    requires forall i :: 0 <= i < |a| ==> a[i].source != c.source
    ensures IsWakeupSrcEnabled(a + [c], src) ==
            if c.source == src then c.enabled else IsWakeupSrcEnabled(a, src)
  {
    if a != [] {
      ReportAppend(a[1..], c, src);
      assert (a + [c])[1..] == a[1..] + [c];
    }
  }

  /** Reading a report back gives the flags of the sources it covers. */
  lemma {:induction false} ReportIsFaithful(flags: Flags, sources: seq<WakeupSource>, src: WakeupSource)
    requires forall i, j :: 0 <= i < j < |sources| ==> sources[i] != sources[j]
    ensures IsWakeupSrcEnabled(Reported(flags, sources, {}), src) == (src in sources && IsOn(flags, src))
    ensures forall c :: c in Reported(flags, sources, {}) ==> c.source in sources
  {
    if sources != [] {
      var n := |sources| - 1;
      ReportIsFaithful(flags, sources[..n], src);
      assert sources == sources[..n] + [sources[n]];
      if sources[n] in flags {
        assert sources[n] !in sources[..n];
        ReportAppend(Reported(flags, sources[..n], {}), SourceConfig(sources[n], flags[sources[n]]), src);
      }
    }
  }

  /** Giving both sources one setting sets those that are supported, and no other. */
  lemma BothConfigured(flags: Flags, mode: bool)
    ensures var flags' := Configured(flags, [SourceConfig(Wifi, mode), SourceConfig(Lan, mode)], {});
            && flags'.Keys == flags.Keys
            && (forall src :: src in flags ==> flags'[src] == if src == Wifi || src == Lan then mode else flags[src])
  {
    var configs := [SourceConfig(Wifi, mode), SourceConfig(Lan, mode)];
    assert configs[..1][..0] == [];
    assert Configured(flags, configs[..1], {}) == if Wifi in flags then flags[Wifi := mode] else flags;
  }

  /** The call will yet carry the present common setting of the sources over to the flag. */
  predicate Repairs(n: Net, phase: Phase) {
    match phase
    case Written => true
    case Seen(mode) => IsOn(n.flags, Wifi) == IsOn(n.flags, Lan) == mode
    case Differs(mode) => IsOn(n.flags, Wifi) == IsOn(n.flags, Lan) == mode && mode != n.standby
  }

  ghost predicate AgreesOrWill(p: Shared) {
    Agrees(p.net) || exists caller :: caller in p.calls && Repairs(p.net, p.calls[caller])
  }

  lemma SwitchAgrees(n: Net, mode: bool)
    requires Wifi in n.flags || Lan in n.flags
    ensures var n' := SetStandby(n, mode, {}).1;
            && n'.flags.Keys == n.flags.Keys
            && (if mode == n.standby then n' == n else Agrees(n'))
  {
    hide Configured;
    BothConfigured(n.flags, mode);
  }

  lemma ProceedAgrees(p: Shared, caller: nat)
    requires AgreesOrWill(p) && (Wifi in p.net.flags || Lan in p.net.flags) && caller in p.calls
    ensures AgreesOrWill(ProceedStep(p, caller)) && ProceedStep(p, caller).net.flags.Keys == p.net.flags.Keys
  {
    hide Reported, IsWakeupSrcEnabled, SetStandby;
    var p' := ProceedStep(p, caller);
    ReportIsFaithful(p.net.flags, ALL_SOURCES, Wifi);
    ReportIsFaithful(p.net.flags, ALL_SOURCES, Lan);
    if p.calls[caller].Differs? {
      SwitchAgrees(p.net, p.calls[caller].mode);
    }
    if !Agrees(p.net) && p'.net == p.net {
      var c :| c in p.calls && Repairs(p.net, p.calls[c]);
      assert c != caller ==> c in p'.calls && p'.calls[c] == p.calls[c];
      assert c == caller ==> c in p'.calls && Repairs(p'.net, p'.calls[c]);
    }
  }

  lemma StepAgrees(p: Shared, a: NetAction)
    requires AgreesOrWill(p) && (Wifi in p.net.flags || Lan in p.net.flags)
    ensures AgreesOrWill(NetStep(p, a)) && NetStep(p, a).net.flags.Keys == p.net.flags.Keys
  {
    hide ProceedStep, SetStandby, Configured;
    match a
    case Switch(mode) => SwitchAgrees(p.net, mode);
    case Configure(caller, configs) =>
      ConfiguredKeepsSources(p.net.flags, configs, {});
      if caller !in p.calls {
        assert Repairs(NetStep(p, a).net, NetStep(p, a).calls[caller]);
      }
    case Proceed(caller) =>
      if caller in p.calls {
        ProceedAgrees(p, caller);
      }
  }

  lemma {:induction false} RunAgrees(flags: Flags, standby: bool, actions: seq<NetAction>)
    requires Wifi in flags || Lan in flags
    ensures var p := NetRun(BootNet(flags, standby), actions);
            AgreesOrWill(p) && p.net.flags.Keys == flags.Keys
    decreases |actions|
  {
    if actions == [] {
      BothConfigured(flags, standby);
    } else {
      RunAgrees(flags, standby, actions[..|actions| - 1]);
      StepAgrees(NetRun(BootNet(flags, standby), actions[..|actions| - 1]), actions[|actions| - 1]);
    }
  }

  /**
    In every run on such a platform, with any number of callers and their sections in any order,
    the flag agrees with the two sources whenever they agree and no call is under way.
   */
  ghost predicate AlwaysAgrees(supported: set<WakeupSource>) {
    forall flags: Flags, standby: bool, actions: seq<NetAction> :: flags.Keys == supported ==>
      var p := NetRun(BootNet(flags, standby), actions);
      p.calls == map[] ==> Agrees(p.net)
  }

  /** This holds exactly on the platforms that support at least one of the two sources. */
  lemma AgreementExactly(supported: set<WakeupSource>)
    ensures AlwaysAgrees(supported) <==> Wifi in supported || Lan in supported
  {
    if Wifi in supported || Lan in supported {
      forall flags: Flags, standby: bool, actions: seq<NetAction> | flags.Keys == supported
        ensures var p := NetRun(BootNet(flags, standby), actions);
                p.calls == map[] ==> Agrees(p.net)
      {
        RunAgrees(flags, standby, actions);
      }
    } else {
      var flags: Flags := map src | src in supported :: false;
      var none: seq<NetAction> := [];
      BothConfigured(flags, true);
      assert NetRun(BootNet(flags, true), none) == Shared(BootNet(flags, true), map[]);
      assert flags.Keys == supported && !Agrees(NetRun(BootNet(flags, true), none).net);
    }
  }

  /** A call whose sections nobody comes between does what it is specified to do as one. */
  lemma UndisturbedCall(n: Net, configs: seq<SourceConfig>, caller: nat)
    ensures var written := NetStep(Shared(n, map[]), Configure(caller, configs));
            var done := NetStep(NetStep(NetStep(written, Proceed(caller)), Proceed(caller)), Proceed(caller));
            done == Shared(SetSources(n, configs, {}).1, map[])
  {
    hide Reported, IsWakeupSrcEnabled, SetStandby, Configured;
    var written := NetStep(Shared(n, map[]), Configure(caller, configs));
    assert written.calls - {caller} == map[];
  }

  /** Switching to the present setting does nothing; otherwise both sources are tried, and the flag follows if neither fails. */
  lemma SwitchExactly(n: Net, mode: bool, broken: set<WakeupSource>)
    ensures var (status, n') := SetStandby(n, mode, broken);
            var fails := mode != n.standby && exists src :: src in {Wifi, Lan} && src in n.flags && src in broken;
            && status == (if fails then General else NoError)
            && n'.standby == (if fails then n.standby else mode)
            && n'.flags.Keys == n.flags.Keys
            && forall src :: src in n.flags ==>
                 n'.flags[src] == if mode != n.standby && (src == Wifi || src == Lan) && src !in broken then mode else n.flags[src]
  {
    var configs := [SourceConfig(Wifi, mode), SourceConfig(Lan, mode)];
    assert configs[0] in configs && configs[1] in configs;
    ConfiguredKeepsSources(n.flags, configs, broken);
    forall src | src in n.flags
      ensures Configured(n.flags, configs, broken)[src] ==
              if (src == Wifi || src == Lan) && src !in broken then mode else n.flags[src]
    {
      ConfiguredExactly(n.flags, configs, broken, src);
      if src == Wifi {
        assert configs[0].source == src && configs[1].source != src;
      } else if src == Lan {
        assert configs[1].source == src;
      }
    }
  }

  /**
    A configuration fails exactly if some supported source is broken, and then leaves the flag
    alone.  Otherwise the flag takes the setting that Wi-Fi and LAN then share, if they share one.
    What it writes to the sources is in either case what the list says.
   */
  lemma ConfigureExactly(n: Net, configs: seq<SourceConfig>, broken: set<WakeupSource>)
    ensures var (status, n') := SetSources(n, configs, broken);
            && status == (if exists src :: src in n.flags && src in broken then General else NoError)
            && n'.flags == Configured(n.flags, configs, broken)
            && n'.standby == (if status == NoError && IsOn(n'.flags, Wifi) == IsOn(n'.flags, Lan)
                              then IsOn(n'.flags, Wifi) else n.standby)
  {
    var flags := Configured(n.flags, configs, broken);
    ConfiguredKeepsSources(n.flags, configs, broken);
    AllSources();
    if !exists src :: src in n.flags && src in broken {
      hide Configured, Reported, IsWakeupSrcEnabled, SetStandby;
      ReportIsFaithful(flags, ALL_SOURCES, Wifi);
      ReportIsFaithful(flags, ALL_SOURCES, Lan);
      UnbrokenReport(flags, ALL_SOURCES, broken);
      if IsOn(flags, Wifi) == IsOn(flags, Lan) {
        CarriedOver(n.(flags := flags), broken);
      }
    }
  }

  /** Carrying the sources' common setting over to the flag leaves the sources as they are. */
  lemma CarriedOver(n: Net, broken: set<WakeupSource>)
    requires IsOn(n.flags, Wifi) == IsOn(n.flags, Lan)
    requires !exists src :: src in n.flags && src in broken
    ensures SetStandby(n, IsOn(n.flags, Wifi), broken) == (NoError, n.(standby := IsOn(n.flags, Wifi)))
  {
    hide SetStandby;
    SwitchExactly(n, IsOn(n.flags, Wifi), broken);
    assert SetStandby(n, IsOn(n.flags, Wifi), broken).1.flags == n.flags;
  }

  lemma {:induction false} UnbrokenReport(flags: Flags, sources: seq<WakeupSource>, broken: set<WakeupSource>)
    requires !exists src :: src in flags && src in broken
    ensures Reported(flags, sources, broken) == Reported(flags, sources, {})
  {
    if sources != [] {
      UnbrokenReport(flags, sources[..|sources| - 1], broken);
    }
  }

  /** A successful call sets both supported sources exactly when the flag changes or they were set already. */
  lemma SwitchSetsSourcesExactly(n: Net, mode: bool)
    ensures var n' := SetStandby(n, mode, {}).1;
            && SetStandby(n, mode, {}).0 == NoError && n'.standby == mode
            && ((forall src :: src in n'.flags && (src == Wifi || src == Lan) ==> n'.flags[src] == mode)
                <==> (mode != n.standby
                      || forall src :: src in n.flags && (src == Wifi || src == Lan) ==> n.flags[src] == mode))
  {
    BothConfigured(n.flags, mode);
  }

  /** Turning LAN off alone leaves the flag on; switching it on again repairs nothing. */
  lemma SwitchCanBeIgnored()
    ensures var p := NetRun(BootNet(map[Wifi := false, Lan := false], true),
                            [Configure(0, [SourceConfig(Lan, false)]), Proceed(0), Switch(true)]);
            p.calls == map[] && p.net.standby && !IsOn(p.net.flags, Lan)
  {
    var actions := [Configure(0, [SourceConfig(Lan, false)]), Proceed(0), Switch(true)];
    var n := BootNet(map[Wifi := false, Lan := false], true);
    LanTurnedOff();
    var half := NetStep(Shared(n, map[]), actions[0]).net;
    assert actions[..0] == [] && actions[..1][..0] == [] && actions[..2][..1] == actions[..1];
    hide Configured, Reported, BootNet;
    assert NetRun(n, actions[..1]) == NetStep(NetRun(n, []), actions[0]);
    UnequalIsLeftAlone(half, 0);
  }

  lemma LanTurnedOff()
    ensures var n := BootNet(map[Wifi := false, Lan := false], true);
            NetStep(Shared(n, map[]), Configure(0, [SourceConfig(Lan, false)]))
            == Shared(Net(map[Wifi := true, Lan := false], true), map[0 := Written])
  {
    BothConfigured(map[Wifi := false, Lan := false], true);
    assert [SourceConfig(Lan, false)][..0] == [];
  }

  lemma UnequalIsLeftAlone(n: Net, caller: nat)
    requires IsOn(n.flags, Wifi) != IsOn(n.flags, Lan)
    ensures NetStep(Shared(n, map[caller := Written]), Proceed(caller)) == Shared(n, map[])
  {
    hide Reported;
    ReportIsFaithful(n.flags, ALL_SOURCES, Wifi);
    ReportIsFaithful(n.flags, ALL_SOURCES, Lan);
  }
}
