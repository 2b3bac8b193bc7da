/** What holds in every reachable state of the plugin. */
module PluginInvariants {
  import opened Options
  import opened CStrings
  import opened AppCacheSpec
  import opened Gdial
  import opened ManagerSpec
  import opened PluginSpec

  function ExpectedApps(k: Caches): Option<seq<AppEntry>> {
    if k.required then Some(ProjectAll(k.apps)) else None
  }

  /** No instance without a manager, never a retry armed beside an instance, no retry and no network
      notification that could meet a null manager; the active interface is the one an instance was launched on. */
  ghost predicate Owned(l: Link) {
    && Coherent(l.manager) && Sticky(l.manager)
    && (l.manager.handle ==> l.hasManager && l.timer == None)
    && (l.timer.Some? ==> l.hasManager)
    && (l.netPlugin ==> l.hasManager)
    && (l.netSubscribed ==> l.netPlugin)
    && (l.manager.handle ==> InterfaceType(Observe(l.manager.calls).value.iface) == l.activeInterface)
  }

  /** An instance that is there knows what the caches say. */
  ghost predicate Replayed(l: Link, k: Caches) {
    l.manager.handle ==>
      && Observe(l.manager.calls).Some?
      && Observe(l.manager.calls).value.active == k.enable
      && Observe(l.manager.calls).value.name == k.name
      && Observe(l.manager.calls).value.apps == ExpectedApps(k)
  }

  ghost predicate Subscribed(p: Peers) {
    && (p.powerRegistered ==> p.powerPlugin)
    && (p.systemSubscribed ==> p.systemPlugin)
    && (p.appSubscribed ==> p.appPlugin)
    && (!p.service ==> p == NO_PEERS)
  }

  ghost predicate Inv(s: State) {
    Owned(s.link) && Replayed(s.link, s.cache) && Subscribed(s.peers)
  }

  // ----- each way of changing the link keeps it owned -----

  lemma PushKeeps(l: Link, c: Call)
    requires Owned(l) && !c.Create? && !c.Destroy? && !c.SetModelName? && !c.SetManufacturerName?
    ensures Owned(Push(l, c)) && Push(l, c) == l.(manager := Push(l, c).manager)
    ensures Push(l, c).manager.handle == l.manager.handle
    ensures l.manager.handle ==>
              && Observe(l.manager.calls).Some?
              && Observe(Push(l, c).manager.calls) == Some(Told(Observe(l.manager.calls).value, c))
  {
    TellKeeps(l.manager, c);
    Snoc(l.manager.calls, c);
  }

  lemma ShutdownKeeps(l: Link)
    requires Owned(l)
    ensures var t := Shutdown(ReleaseNetwork(l));
            Owned(t) && !t.manager.handle && !t.hasManager && t.timer == None
  {
    DeinitializedKeeps(l.manager);
  }

  lemma LaunchKeeps(l: Link, iface: string, standby: bool, env: Environment)
    requires Owned(l) && l.timer.Some? && iface != ""
    ensures var (t, ok) := LaunchOn(l, iface, standby, env);
            && Owned(t.(timer := if ok then None else Some(SECOND_TIMEOUT)))
            && (env.rfc.xdial ==> (ok <==> t.manager.handle))
            && (t.manager.handle ==>
                  ok && Observe(t.manager.calls).Some? && Observe(t.manager.calls).value.apps == None)
  {
    InitializedKeeps(l.manager, iface, standby, env);
    var n := Settle(l.manager, env);
    Snoc(n.calls, Create(LaunchOf(n, iface, standby, env)));
  }

  /** After a successful connect there is an instance, or the RFC is off. */
  lemma ConnectKeeps(l: Link, service: bool, standby: bool, c: Connection)
    requires Owned(l) && l.timer.Some?
    ensures var (t, ok) := Connect(l, service, standby, c);
            && Owned(t.(timer := if ok then None else Some(SECOND_TIMEOUT)))
            && (c.env.rfc.xdial ==> (ok <==> t.manager.handle))
            && (t.manager.handle ==>
                  ok && Observe(t.manager.calls).Some? && Observe(t.manager.calls).value.apps == None)
  {
    var l1 := AcquireNetwork(l, c);
    if service && l1.netPlugin && c.iface != "" {
      LaunchKeeps(l1, c.iface, standby, c.env);
    }
  }

  lemma NetworkKeeps(l: Link, iface: string, connected: bool, ip: string)
    requires Owned(l) && l.netSubscribed
    ensures var t := NetworkStatus(l, iface, connected, ip);
            Owned(t) && (t != l ==> !t.manager.handle)
  {
    DeinitializedKeeps(l.manager);
  }

  // ----- each entry point keeps the invariant -----

  lemma EnableKeeps(s: State, name: string, on: bool)
    requires Inv(s)
    ensures Inv(EnableCast(s, name, on))
  {
    PushKeeps(s.link, ActivationChanged(on, name));
  }

  lemma ReplayKeeps(l: Link, k: Caches)
    requires Owned(l)
    requires l.manager.handle ==> Observe(l.manager.calls).Some? && Observe(l.manager.calls).value.apps == None
    ensures Owned(Replay(l, k)) && Replayed(Replay(l, k), k)
    ensures Replay(l, k) == l.(manager := Replay(l, k).manager) && Replay(l, k).manager.handle == l.manager.handle
  {
    PushKeeps(l, RegisterApplications(ProjectAll(k.apps)));
    var l1 := if k.required then Push(l, RegisterApplications(ProjectAll(k.apps))) else l;
    PushKeeps(l1, ActivationChanged(k.enable, k.name));
  }

  /** A replay says to an instance the whole cache, if registrations were asked for, and then activation and name. */
  lemma ReplayCalls(l: Link, k: Caches)
    requires l.hasManager && l.manager.handle
    ensures var before, after, n := l.manager.calls, Replay(l, k).manager.calls, |l.manager.calls|;
            && |after| == n + (if k.required then 2 else 1) && before == after[..n]
            && (k.required ==> after[n].RegisterApplications? && Lists(after[n].apps, k.apps))
            && after[|after| - 1] == ActivationChanged(k.enable, k.name)
  {
    ProjectionLists(k.apps);
  }

  lemma TimerKeeps(s: State, c: Connection)
    requires Inv(s) && s.link.timer.Some?
    ensures Inv(TimerFires(s, c))
    ensures var t := TimerFires(s, c);
            && t.link.hasManager
            && (c.env.rfc.xdial ==> (t.link.timer == None <==> t.link.manager.handle))
  {
    var (l, ok) := Connect(s.link, s.peers.service, s.ctl.networkStandby, c);
    ConnectKeeps(s.link, s.peers.service, s.ctl.networkStandby, c);
    if ok { ReplayKeeps(l.(timer := None), s.cache); }
  }

  lemma WithAppsKeeps(s: State, apps: seq<AppConfig>)
    requires Inv(s)
    ensures Inv(WithApps(s, apps))
  {
    EnableKeeps(s, s.ctl.friendlyName, false);
    var s1 := EnableCast(s, s.ctl.friendlyName, false);
    PushKeeps(s1.link, RegisterApplications(ProjectAll(apps)));
    var s2 := s1.(cache := s1.cache.(required := true, apps := apps),
                  link := Push(s1.link, RegisterApplications(ProjectAll(apps))));
    EnableKeeps(s2, s.ctl.friendlyName, true);
  }

  /** An instance hears of a registration in this order: casting off, the whole cache, and casting on if it is
      effective. Without one nothing is said. */
  lemma RegistrationCalls(s: State, apps: seq<AppConfig>)
    ensures var before, after := s.link.manager.calls, WithApps(s, apps).link.manager.calls;
            if s.link.hasManager && s.link.manager.handle then
              var n, on := |before|, s.ctl.enabled && (s.ctl.standby || s.ctl.power == PowerOn);
              && |after| == n + (if on then 3 else 2) && before == after[..n]
              && after[n] == ActivationChanged(false, s.ctl.friendlyName)
              && after[n + 1].RegisterApplications? && Lists(after[n + 1].apps, apps)
              && (on ==> after[n + 2] == ActivationChanged(true, s.ctl.friendlyName))
            else after == before
  {
    ProjectionLists(apps);
  }

  lemma DeinitializeKeeps(s: State)
    requires Inv(s)
    ensures Inv(Deinitialize(s)) && !Deinitialize(s).link.hasManager
  {
    ShutdownKeeps(s.link);
  }

  lemma PowerWorkerKeeps(s: State)
    requires Inv(s) && s.powerWorkers > 0
    ensures Inv(PowerWorker(s))
  {
    var s0 := s.(powerWorkers := s.powerWorkers - 1);
    DeinitializeKeeps(s0);
    var s1 := ObservePower(s0);
    EnableKeeps(s1, s1.ctl.friendlyName, s1.ctl.enabled && s1.ctl.power == PowerOn);
  }

  lemma NameWorkerKeeps(s: State)
    requires Inv(s) && s.nameWorkers > 0
    ensures Inv(NameWorker(s))
  {
    EnableKeeps(s.(nameWorkers := s.nameWorkers - 1), s.ctl.friendlyName, Effective(s.ctl));
  }

  lemma StandbyKeeps(s: State)
    requires Inv(s)
    ensures Inv(PushStandby(s))
  {
    PushKeeps(s.link, SetNetworkStandbyMode(s.ctl.networkStandby));
  }

  lemma SetEnabledKeeps(s: State, on: bool, read: Reading, registered: bool)
    requires Inv(s)
    ensures Inv(SetEnabled(s, on, read, registered))
  {
    var s1 := LateRegistration(s.(ctl := s.ctl.(enabled := on)), on, read, registered);
    EnableKeeps(s1, s1.ctl.friendlyName, Effective(s1.ctl));
    StandbyKeeps(PushEffective(s1));
  }

  /** Without a registration but with a PowerManager, enabling reads both states and tries to register. */
  ghost predicate RegisteredLate(s: State, t: State, on: bool, read: Reading, registered: bool) {
    var late := on && s.peers.powerPlugin && !s.peers.powerRegistered;
    && t.peers == s.peers.(powerRegistered := if late then registered else s.peers.powerRegistered)
    && t.ctl.power == (if late && read.power.Some? then read.power.value else s.ctl.power)
    && t.ctl.networkStandby == (if late && read.standby.Some? then read.standby.value else s.ctl.networkStandby)
  }

  lemma SetEnabledRegisters(s: State, on: bool, read: Reading, registered: bool)
    ensures RegisteredLate(s, SetEnabled(s, on, read, registered), on, read, registered)
  {}

  lemma SetFriendlyNameKeeps(s: State, name: string)
    requires Inv(s)
    ensures Inv(SetFriendlyName(s, name))
  {
    var s1 := s.(ctl := s.ctl.(friendlyName := name));
    EnableKeeps(s1, name, Effective(s1.ctl));
  }

  lemma WithUpdateKeeps(s: State, apps: Option<seq<AppConfig>>)
    requires Inv(s)
    ensures Inv(WithUpdate(s, apps))
  {
    if apps.Some? { WithAppsKeeps(s, apps.value); }
  }

  lemma SetModelKeeps(s: State, name: string)
    requires Inv(s)
    ensures Inv(s.(link := SetModel(s.link, name)))
  {
    ModelKeeps(s.link.manager, name);
    Snoc(s.link.manager.calls, Call.SetModelName(name));
  }

  lemma SetManufacturerKeeps(s: State, name: string)
    requires Inv(s)
    ensures Inv(s.(link := SetManufacturer(s.link, name)))
  {
    ManufacturerKeeps(s.link.manager, name);
    Snoc(s.link.manager.calls, Call.SetManufacturerName(name));
  }

  lemma ForwardKeeps(s: State, c: Call)
    requires Inv(s) && c.ApplicationStateChanged?
    ensures Inv(s.(link := Push(s.link, c)))
  {
    PushKeeps(s.link, c);
  }

  lemma LifecycleKeeps(s: State, appId: string, instanceId: string, state: AppState, failed: bool)
    requires Inv(s)
    ensures Inv(s.(link := AppLifecycle(s, appId, instanceId, state, failed)))
  {
    var i := FindApp(s.cache.apps, appId);
    var t := StateText(state);
    if i < |s.cache.apps| && t.Some? {
      ForwardKeeps(s, ApplicationStateChanged(s.cache.apps[i].appName, t.value, instanceId,
                                              if failed then "internal" else "none"));
    }
  }

  lemma SetApplicationStateKeeps(s: State, name: string, state: CastState, id: string, error: CastError)
    requires Inv(s)
    ensures Inv(s.(link := SetApplicationState(s.link, name, state, id, error)))
  {
    var t := ErrorText(error);
    if t.Some? {
      ForwardKeeps(s, ApplicationStateChanged(CStr(name), CastStateText(state), CStr(id), t.value));
    }
  }

  lemma LinkStepKeeps(s: State, e: Event)
    requires Inv(s) && Enabled(s, e)
    ensures Inv(s.(link := LinkStep(s, e)))
  {
    match e
    case EvInterface(iface) => NetworkKeeps(s.link, iface, true, "");
    case EvAddress(iface, version, ip, acquired) => NetworkKeeps(s.link, iface, ip != "", ip);
    case EvSetModel(name) => SetModelKeeps(s, name);
    case EvSetManufacturer(name) => SetManufacturerKeeps(s, name);
    case EvLifecycle(appId, instanceId, state, failed) => LifecycleKeeps(s, appId, instanceId, state, failed);
    case EvSetApplicationState(name, state, id, error) => SetApplicationStateKeeps(s, name, state, id, error);
    case _ =>
  }

  lemma StepKeeps(s: State, e: Event)
    requires Inv(s) && Enabled(s, e)
    ensures Inv(Step(s, e))
  {
    match e
    case EvConfigureNull => DeinitializeKeeps(s);
    case EvTimer(c) => TimerKeeps(s, c);
    case EvPowerWorker => PowerWorkerKeeps(s);
    case EvNameWorker => NameWorkerKeeps(s);
    case EvStandbyWorker => StandbyKeeps(s.(standbyWorkers := s.standbyWorkers - 1));
    case EvSetEnabled(on, read, registered) => SetEnabledKeeps(s, on, read, registered);
    case EvSetFriendlyName(name) => SetFriendlyNameKeeps(s, name);
    case EvRegister(batch, mallocs) => WithUpdateKeeps(s, Update(s.cache.apps, batch, mallocs));
    case EvUnregister(names) => WithUpdateKeeps(s, Delete(s.cache.apps, names));
    case EvConfigureService(v) =>
    case EvRecreate =>
    case EvPower(p) =>
    case EvName(name) =>
    case EvNetworkStandby(mode) =>
    case EvSetStandby(active) =>
    case _ => LinkStepKeeps(s, e);
  }

  lemma {:induction false} Reachable(run: seq<State>, events: seq<Event>, n: nat)
    requires IsRun(run, events) && n < |run|
    ensures Inv(run[n])
  {
    if n > 0 {
      Reachable(run, events, n - 1);
      StepKeeps(run[n - 1], events[n - 1]);
    }
  }
}
