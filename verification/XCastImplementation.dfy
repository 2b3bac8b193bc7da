/** The plugin object: its entry points and worker bodies as methods over mutable fields, each tied to the
    value specification and keeping its invariant. */
module XCastImplementation {
  import opened Options
  import opened CStrings
  import opened AppCacheSpec
  import opened AppCache
  import opened Gdial
  import opened ManagerSpec
  import opened PluginSpec
  import opened PluginInvariants
  import Convergence
  import Forwarding
  import NetworkStandby
  import XM = XCastManager

  class XCastImplementation {
    /** m_xcastEnable, m_standbyBehavior, m_powerState, m_friendlyName, m_is_restart_req and m_networkStandbyMode. */
    var ctl: Control

    var xcastEnableCache: bool
    var friendlyNameCache: string
    var isDynamicRegistrationsRequired: bool
    const appConfigCache: AppConfigCache

    var hasManager: bool
    const manager: XM.XCastManager
    var locateCastTimer: Option<nat>
    var activeInterfaceName: string
    var networkManagerPlugin: bool
    var networkSubscribed: bool

    var peers: Peers
    var powerWorkers: nat
    var nameWorkers: nat
    var standbyWorkers: nat

    ghost function Cached(): Caches reads this, appConfigCache {
      Caches(xcastEnableCache, friendlyNameCache, isDynamicRegistrationsRequired, appConfigCache.Contents())
    }

    ghost function TheLink(): Link reads this, manager {
      Link(hasManager, manager.State(), locateCastTimer, activeInterfaceName, networkManagerPlugin, networkSubscribed)
    }

    ghost function State(): State reads this, appConfigCache, manager {
      PluginSpec.State(ctl, Cached(), TheLink(), peers, powerWorkers, nameWorkers, standbyWorkers)
    }

    /** The two objects it owns are in order. */
    ghost predicate Objects() reads this, appConfigCache, manager {
      appConfigCache.Valid() && manager.Valid()
    }

    ghost predicate Valid() reads this, appConfigCache, manager {
      Objects() && Inv(State())
    }

    constructor (defaults: Defaults)
      ensures Valid() && State() == InitialState(defaults) && fresh(appConfigCache) && fresh(manager)
    {
      ctl := Control(defaults, defaults.enabled, defaults.standby, PowerStandby, "", false, false);
      xcastEnableCache, friendlyNameCache, isDynamicRegistrationsRequired := false, "Living Room", false;
      hasManager, locateCastTimer, activeInterfaceName := false, None, "";
      networkManagerPlugin, networkSubscribed := false, false;
      peers := NO_PEERS;
      powerWorkers, nameWorkers, standbyWorkers := 0, 0, 0;
      appConfigCache := new AppConfigCache();
      manager := new XM.XCastManager();
    }

    // ----- helpers -----

    /** The caches hold the two values in any case; an instance that could be reached was told them too. */
    method EnableCastService(name: string, enable: bool)
      requires Objects()
      modifies this`xcastEnableCache, this`friendlyNameCache, manager
      ensures Objects() && State() == EnableCast(old(State()), name, enable)
      ensures xcastEnableCache == enable && friendlyNameCache == name
      ensures hasManager && manager.gdialCastObj && old(manager.Seen()).Some? ==>
                manager.Seen() == Some(old(manager.Seen()).value.(active := xcastEnableCache,
                                                                  name := friendlyNameCache))
      ensures !hasManager || !manager.gdialCastObj ==> manager.Seen() == old(manager.Seen())
    {
      if hasManager {
        manager.EnableCastService(name, enable);
      }
      xcastEnableCache := enable;
      friendlyNameCache := name;
    }

    method StartTimer(interval: nat)
      modifies this`locateCastTimer
      ensures locateCastTimer == Some(interval)
    {
      StopTimer();
      locateCastTimer := Some(interval);
    }

    method StopTimer()
      modifies this`locateCastTimer
      ensures locateCastTimer == None
    {
      if locateCastTimer.Some? {
        locateCastTimer := None;
      }
    }

    method InitializeManager()
      requires Objects()
      modifies this`hasManager, this`locateCastTimer
      ensures Objects() && State() == old(State()).(link := Initialize(old(State()).link))
    {
      if !hasManager {
        hasManager := true;
        StartTimer(FIRST_TIMEOUT);
      }
    }

    /** Every unregistration, each only where the plugin is there, and the release of the references. */
    method ReleaseAll()
      modifies this`peers, this`networkManagerPlugin, this`networkSubscribed
      ensures State() == old(State()).(link := ReleaseNetwork(old(State()).link), peers := ReleasePeers(old(peers)))
    {
      if networkManagerPlugin {
        networkSubscribed := false;
        networkManagerPlugin := false;
      }
      var power := peers.powerRegistered && !peers.powerPlugin;
      var system := peers.systemSubscribed && !peers.systemPlugin;
      var app := peers.appSubscribed && !peers.appPlugin;
      peers := Peers(peers.service, false, power, false, system, false, app);
    }

    method ShutdownManager()
      requires Objects()
      modifies this`hasManager, this`locateCastTimer, manager
      ensures Objects() && State() == old(State()).(link := Shutdown(old(State()).link))
    {
      if hasManager {
        StopTimer();
        manager.Deinitialize();
        hasManager := false;
      }
    }

    /** Without the wait for workers, which Workers models step by step. From a state that satisfies the invariant
        nothing is left that could call back: no manager, instance, timer or subscription. The caches, the power state
        and the friendly name stay for the next activation. */
    method DeinitializeAll()
      requires Objects()
      modifies this, manager
      ensures Objects() && State() == Deinitialize(old(State()))
      ensures !hasManager && Cached() == old(Cached())
      ensures ctl == Control(ctl.defaults, ctl.defaults.enabled, ctl.defaults.standby, old(ctl).power,
                             old(ctl).friendlyName, old(ctl).restartReq, old(ctl).networkStandby)
      ensures old(Valid()) ==>
                && Valid() && manager.Seen() == None && locateCastTimer == None && !networkSubscribed
                && peers == NO_PEERS.(service := old(peers).service)
    {
      ghost var s := State();
      if Inv(s) {
        DeinitializeKeeps(s);
      }
      ReleaseAll();
      ShutdownManager();
      ctl := ctl.(enabled := ctl.defaults.enabled, standby := ctl.defaults.standby);
    }

    method RestartAll()
      requires Objects()
      modifies this, manager
      ensures Objects() && State() == Restart(old(State()))
    {
      DeinitializeAll();
      InitializeManager();
      ctl := ctl.(restartReq := false);
    }

    // ----- lifecycle -----

    method CheckPowerAndNetworkStandbyStates(read: Reading)
      modifies this`ctl
      ensures ctl == ReadPower(old(ctl), read)
    {
      if read.power.Some? {
        ctl := ctl.(power := read.power.value);
      }
      if read.standby.Some? {
        ctl := ctl.(networkStandby := read.standby.value);
      }
    }

    method InitializeAll(v: Services)
      requires Objects() && !peers.service
      modifies this
      ensures Objects() && State() == ConfigureService(old(State()), v)
    {
      if v.powerOk {
        CheckPowerAndNetworkStandbyStates(v.powerRead);
      }
      InitializeManager();
      peers := PeersAcquired(peers, v);
      if peers.systemPlugin && v.nameRead.Some? {
        ctl := ctl.(friendlyName := v.nameRead.value);
      }
    }

    /** After an activation: each plugin that answered is held, each registration that succeeded stands, what was read
        is stored, and a manager that was not there is there with its first retry in 5 seconds. */
    ghost predicate Activated(s: State, v: Services)
      reads this
    {
      && peers.service
      && peers.powerPlugin == v.powerOk && peers.powerRegistered == (v.powerOk && v.powerRegOk)
      && peers.systemPlugin == v.systemOk && peers.systemSubscribed == (v.systemOk && v.systemRegOk)
      && peers.appPlugin == v.appOk && peers.appSubscribed == (v.appOk && v.appRegOk)
      && ctl.power == (if v.powerOk && v.powerRead.power.Some? then v.powerRead.power.value else s.ctl.power)
      && ctl.networkStandby ==
         (if v.powerOk && v.powerRead.standby.Some? then v.powerRead.standby.value else s.ctl.networkStandby)
      && ctl.friendlyName == (if v.systemOk && v.nameRead.Some? then v.nameRead.value else s.ctl.friendlyName)
      && hasManager && locateCastTimer == (if s.link.hasManager then s.link.timer else Some(5000))
    }

    /** `None` is Configure(nullptr). `ok` is ERROR_NONE. */
    method Configure(services: Option<Services>) returns (ok: bool)
      requires Valid()
      modifies this, manager
      ensures Valid() && ok == (services.Some? != old(peers.service))
      ensures State() == if services.Some? then ConfigureService(old(State()), services.value)
                         else ConfigureNull(old(State()))
      ensures ok && services.Some? ==> Activated(old(State()), services.value)
      ensures !ok ==> State() == old(State())
    {
      StepKeeps(State(), if services.Some? then EvConfigureService(services.value) else EvConfigureNull);
      ok := true;
      if !peers.service && services.Some? {
        InitializeAll(services.value);
      } else if peers.service && services == None {
        DeinitializeAll();
      } else {
        ok := false;
      }
    }

    // ----- connecting -----

    method InitializeNetworkManager(c: Connection)
      requires Objects()
      modifies this`networkManagerPlugin, this`networkSubscribed
      ensures Objects() && State() == old(State()).(link := AcquireNetwork(old(State()).link, c))
    {
      if !networkManagerPlugin {
        networkManagerPlugin := c.netOk;
        networkSubscribed := c.netOk && c.netRegOk;
      }
    }

    method LaunchOn(iface: string, env: Environment) returns (ok: bool)
      requires Objects()
      modifies this`activeInterfaceName, manager
      ensures Objects()
      ensures State() == old(State()).(link := PluginSpec.LaunchOn(old(State()).link, iface, ctl.networkStandby, env).0)
      ensures ok == PluginSpec.LaunchOn(old(State()).link, iface, ctl.networkStandby, env).1
      ensures activeInterfaceName == if ok then InterfaceType(iface) else old(activeInterfaceName)
      ensures ok <==> iface != "" && (env.rfc.xdial ==> manager.gdialCastObj)
      ensures manager.gdialCastObj && !old(manager.gdialCastObj) ==>
                manager.Seen() == Some(Instance(iface, false, manager.defaultFriendlyName, None, manager.modelName,
                                                manager.manufacturerName, env.rfc.wolWake && ctl.networkStandby))
    {
      ok := manager.Initialize(iface, ctl.networkStandby, env);
      if ok {
        activeInterfaceName := InterfaceType(iface);
      }
    }

    /** Success means an instance, or that the RFC is off; a new instance runs on the primary interface, inactive and
        without an application list, until the replay. */
    method ConnectToGDialService(c: Connection) returns (ok: bool)
      requires Objects()
      modifies this`networkManagerPlugin, this`networkSubscribed, this`activeInterfaceName, manager
      ensures Objects()
      ensures State() == old(State()).(link := Connect(old(State()).link, peers.service, ctl.networkStandby, c).0)
      ensures ok == Connect(old(State()).link, peers.service, ctl.networkStandby, c).1
      ensures ok <==> ReachesGdial(old(State()), c) && (c.env.rfc.xdial ==> manager.gdialCastObj)
      ensures activeInterfaceName == if !ok then old(activeInterfaceName)
                                     else if c.iface == "wlan0" then "WIFI"
                                     else if c.iface == "eth0" then "ETHERNET" else ""
      ensures networkManagerPlugin == (old(networkManagerPlugin) || (peers.service && c.netOk))
      ensures networkSubscribed == if old(networkManagerPlugin) then old(networkSubscribed)
                                   else if peers.service then c.netOk && c.netRegOk else old(networkSubscribed)
      ensures manager.gdialCastObj && !old(manager.gdialCastObj) ==>
                ok && manager.Seen() == Some(Instance(c.iface, false, manager.defaultFriendlyName, None,
                                                      manager.modelName, manager.manufacturerName,
                                                      c.env.rfc.wolWake && ctl.networkStandby))
    {
      if !peers.service {
        return false;
      }
      InitializeNetworkManager(c);
      ok := false;
      if networkManagerPlugin && c.iface != "" {
        ok := LaunchOn(c.iface, c.env);
      }
    }

    /** The timer stops, or goes on with its second interval. */
    method OnLocateCastTimer(c: Connection)
      requires Valid() && locateCastTimer.Some?
      modifies this, manager
      ensures Valid() && State() == TimerFires(old(State()), c)
      ensures locateCastTimer == None || locateCastTimer == Some(10000)
    {
      TimerKeeps(State(), c);
      var ok := ConnectToGDialService(c);
      if !ok {
        locateCastTimer := Some(SECOND_TIMEOUT);
        return;
      }
      StopTimer();
      ReplayToGDial();
    }

    /** What a fresh instance is told. The manager is there: it was just used to connect. */
    method ReplayToGDial()
      requires Objects()
      modifies manager
      ensures Objects() && State() == old(State()).(link := Replay(old(State()).link, old(State()).cache))
    {
      if hasManager {
        if isDynamicRegistrationsRequired {
          manager.RegisterApplications(appConfigCache.entries);
        }
        manager.EnableCastService(friendlyNameCache, xcastEnableCache);
      }
    }

    /** Without a running timer, wlan0 or eth0 reported connected costs the instance and starts the timer if it is of
        another kind than the active interface or has an address; any other report changes nothing. */
    method UpdateNWConnectivityStatus(iface: string, connected: bool, ip: string)
      requires Valid() && networkSubscribed
      modifies this, manager
      ensures Valid() && State() == old(State()).(link := NetworkStatus(old(State()).link, iface, connected, ip))
      ensures if old(locateCastTimer) == None && connected
                 && (|| (iface == "wlan0" && (activeInterfaceName != "WIFI" || ip != ""))
                     || (iface == "eth0" && (activeInterfaceName != "ETHERNET" || ip != "")))
              then manager.Seen() == None && locateCastTimer == Some(5000)
              else State() == old(State())
    {
      NetworkKeeps(State().link, iface, connected, ip);
      var mapped := InterfaceType(iface);
      var status := false;
      if connected && (mapped == "ETHERNET" || mapped == "WIFI") {
        status := true;
      }
      if locateCastTimer == None && status {
        if mapped != activeInterfaceName || (mapped == activeInterfaceName && ip != "") {
          if hasManager {
            manager.Deinitialize();
          }
          StartTimer(FIRST_TIMEOUT);
        }
      }
    }

    method OnIPAddressChange(iface: string, version: string, ip: string, acquired: bool)
      requires Valid() && networkSubscribed
      modifies this, manager
      ensures Valid()
      ensures State() == old(State()).(link := AddressChange(old(State()).link, iface, version, ip, acquired))
    {
      if version == "IPv4" && acquired {
        UpdateNWConnectivityStatus(iface, ip != "", ip);
      }
    }

    // ----- power and friendly name -----

    /** Pushes nothing itself: values that were right, up to what workers will push, still are, because the new worker
        will push too. */
    method OnPowerModeChanged(newState: Power)
      requires Valid() && peers.powerRegistered
      modifies this
      ensures Valid() && State() == PowerModeChanged(old(State()), newState)
      ensures Cached() == old(Cached()) && ctl.power == newState && powerWorkers == old(powerWorkers) + 1
      ensures old(Convergence.AgreesUpToWorkers(State())) ==> Convergence.AgreesUpToWorkers(State())
    {
      ctl := ctl.(power := newState);
      powerWorkers := powerWorkers + 1;
    }

    method BranchOnPower()
      requires Objects()
      modifies this, manager
      ensures Objects() && State() == ObservePower(old(State()))
    {
      if ctl.power == PowerOn {
        if ctl.restartReq {
          RestartAll();
        }
      } else if ctl.power == PowerDeepSleep {
        ctl := ctl.(restartReq := true);
      }
    }

    /** Unless standby is on when it gets there, the pushed values are right afterwards. */
    method ThreadPowerModeChangeEvent()
      requires Valid() && powerWorkers > 0
      modifies this, manager
      ensures Valid() && State() == PowerWorker(old(State()))
      ensures !ctl.standby ==> Convergence.Agrees(State())
    {
      ghost var s := State();
      PowerWorkerKeeps(s);
      RunPowerWorker();
      if !ctl.standby {
        Convergence.WorkerPushes(s);
      }
    }

    method RunPowerWorker()
      requires Objects() && powerWorkers > 0
      modifies this, manager
      ensures Objects() && State() == PowerWorker(old(State()))
    {
      ghost var s := State();
      powerWorkers := powerWorkers - 1;
      assert State() == s.(powerWorkers := s.powerWorkers - 1);
      BranchOnPower();
      assert State() == ObservePower(s.(powerWorkers := s.powerWorkers - 1));
      if !ctl.standby {
        EnableCastService(ctl.friendlyName, ctl.enabled && ctl.power == PowerOn);
      }
    }

    /** Pushes nothing itself; the new worker will. An empty name changes nothing. */
    method OnFriendlyNameUpdateHandler(name: string)
      requires Valid() && peers.systemSubscribed
      modifies this
      ensures Valid() && State() == NameChanged(old(State()), name)
      ensures if name == "" then State() == old(State())
              else Cached() == old(Cached()) && ctl.friendlyName == name && nameWorkers == old(nameWorkers) + 1
      ensures old(Convergence.AgreesUpToWorkers(State())) ==> Convergence.AgreesUpToWorkers(State())
    {
      if name != "" {
        ctl := ctl.(friendlyName := name);
        nameWorkers := nameWorkers + 1;
      }
    }

    /** The pushed values are right afterwards. */
    method ThreadSystemFriendlyNameChangeEvent()
      requires Valid() && nameWorkers > 0
      modifies this, manager
      ensures Valid() && State() == NameWorker(old(State()))
      ensures Convergence.Agrees(State())
    {
      NameWorkerKeeps(State());
      nameWorkers := nameWorkers - 1;
      PushEffective();
    }

    // ----- settings -----

    /** The value pushed after a setting changed. */
    method PushEffective()
      requires Objects()
      modifies this`xcastEnableCache, this`friendlyNameCache, manager
      ensures Objects() && State() == PluginSpec.PushEffective(old(State()))
    {
      var isEnabled := false;
      if ctl.enabled && (ctl.standby || (!ctl.standby && ctl.power == PowerOn)) {
        isEnabled := true;
      }
      EnableCastService(ctl.friendlyName, isEnabled);
    }

    method RegisterLate(on: bool, read: Reading, registered: bool)
      requires Objects()
      modifies this`ctl, this`peers
      ensures Objects() && State() == LateRegistration(old(State()), on, read, registered)
    {
      if !peers.powerRegistered && on && peers.powerPlugin {
        CheckPowerAndNetworkStandbyStates(read);
        peers := peers.(powerRegistered := registered);
      }
    }

    /** SetNetworkStandbyMode with the stored mode, which it leaves as it is. */
    method PushNetworkStandby()
      requires Objects()
      modifies manager
      ensures Objects() && State() == PushStandby(old(State()))
    {
      if hasManager {
        manager.SetNetworkStandbyMode(ctl.networkStandby);
      }
    }

    method OnNetworkStandbyModeChanged(enabled: bool)
      requires Valid() && peers.powerRegistered
      modifies this
      ensures Valid() && State() == StandbyModeChanged(old(State()), enabled)
      ensures NetworkStandby.ModeAgreesUpToWorkers(State())
    {
      ctl := ctl.(networkStandby := enabled);
      standbyWorkers := standbyWorkers + 1;
    }

    method NetworkStandbyModeChangeEvent()
      requires Valid() && standbyWorkers > 0
      modifies this, manager
      ensures Valid() && State() == StandbyWorker(old(State()))
      ensures NetworkStandby.ModeAgrees(State())
    {
      NetworkStandby.StandbyMode(State().(standbyWorkers := standbyWorkers - 1));
      StandbyKeeps(State().(standbyWorkers := standbyWorkers - 1));
      standbyWorkers := standbyWorkers - 1;
      PushNetworkStandby();
    }

    method PushSettings(currentNetworkStandbyMode: bool)
      requires Objects()
      modifies this`xcastEnableCache, this`friendlyNameCache, manager
      ensures Objects() && State() == PluginSpec.PushSettings(old(State()), currentNetworkStandbyMode)
    {
      PushEffective();
      if currentNetworkStandbyMode != ctl.networkStandby {
        PushNetworkStandby();
      }
    }

    method StoreAndPush(enabled: bool, read: Reading, registered: bool)
      requires Objects()
      modifies this, manager
      ensures Objects() && State() == PluginSpec.SetEnabled(old(State()), enabled, read, registered)
    {
      ghost var s := State();
      var currentNetworkStandbyMode := ctl.networkStandby;
      ctl := ctl.(enabled := enabled);
      assert State() == s.(ctl := s.ctl.(enabled := enabled));
      RegisterLate(enabled, read, registered);
      PushSettings(currentNetworkStandbyMode);
    }

    /** The pushed values are right afterwards, and a network standby mode that was read anew was told to
        the instance. */
    method SetEnabled(enabled: bool, read: Reading, registered: bool)
      requires Valid()
      modifies this, manager
      ensures Valid() && State() == PluginSpec.SetEnabled(old(State()), enabled, read, registered)
      ensures ctl.enabled == enabled && Convergence.Agrees(State())
      ensures RegisteredLate(old(State()), State(), enabled, read, registered)
      ensures old(NetworkStandby.ModeAgrees(State())) || ctl.networkStandby != old(ctl).networkStandby ==>
                NetworkStandby.ModeAgrees(State())
    {
      ghost var s := State();
      SetEnabledKeeps(s, enabled, read, registered);
      SetEnabledRegisters(s, enabled, read, registered);
      Convergence.StepSettles(s, EvSetEnabled(enabled, read, registered));
      StoreAndPush(enabled, read, registered);
      if NetworkStandby.ModeAgrees(s) || ctl.networkStandby != s.ctl.networkStandby {
        NetworkStandby.SetEnabledAgrees(s, enabled, read, registered);
      }
    }

    /** `ok` is ERROR_NONE; `None` is a value that is neither ACTIVE nor INACTIVE. Nothing is pushed, so values that
        were right stay right exactly when the change does not disturb them. */
    method SetStandbyBehavior(active: Option<bool>) returns (ok: bool)
      requires Valid()
      modifies this
      ensures Valid() && State() == PluginSpec.SetStandbyBehavior(old(State()), active) && ok == active.Some?
      ensures Cached() == old(Cached()) && if ok then ctl.standby == active.value else State() == old(State())
      ensures old(Convergence.AgreesUpToWorkers(State())) ==>
                (Convergence.AgreesUpToWorkers(State()) <==> !old(Convergence.Disturbs(State(), EvSetStandby(active))))
    {
      ok := active.Some?;
      if ok {
        ctl := ctl.(standby := active.value);
      }
    }

    method SetFriendlyName(name: string) returns (ok: bool)
      requires Valid()
      modifies this, manager
      ensures Valid() && State() == PluginSpec.SetFriendlyName(old(State()), name) && ok == (name != "")
      ensures if ok then ctl.friendlyName == name && Convergence.Agrees(State()) else State() == old(State())
    {
      SetFriendlyNameKeeps(State(), name);
      ok := false;
      if name != "" {
        ctl := ctl.(friendlyName := name);
        PushEffective();
        ok := true;
      }
    }

    method SetModelName(name: string) returns (ok: bool)
      requires Valid()
      modifies manager
      ensures Valid() && State() == old(State()).(link := SetModel(old(State()).link, name)) && ok == hasManager
      ensures if ok then manager.modelName == name else manager.State() == old(manager.State())
      ensures manager.gdialCastObj ==> manager.Seen() == Some(old(manager.Seen()).value.(model := name))
    {
      SetModelKeeps(State(), name);
      ok := hasManager;
      if hasManager {
        var status := manager.SetModelName(name);
      }
    }

    method SetManufacturerName(name: string) returns (ok: bool)
      requires Valid()
      modifies manager
      ensures Valid() && State() == old(State()).(link := SetManufacturer(old(State()).link, name)) && ok == hasManager
      ensures if ok then manager.manufacturerName == name else manager.State() == old(manager.State())
      ensures manager.gdialCastObj ==> manager.Seen() == Some(old(manager.Seen()).value.(manufacturer := name))
    {
      SetManufacturerKeeps(State(), name);
      ok := hasManager;
      if hasManager {
        var status := manager.SetManufacturerName(name);
      }
    }

    // ----- applications -----

    /** The tail both calls share: hand the cache over and enable again if effective. */
    method RegisterCache()
      requires Objects() && isDynamicRegistrationsRequired
      modifies this`xcastEnableCache, this`friendlyNameCache, manager
      ensures Objects()
      ensures var s := old(State());
              var s2 := s.(link := Push(s.link, Call.RegisterApplications(ProjectAll(s.cache.apps))));
              State() == if Effective(s.ctl) then EnableCast(s2, s.ctl.friendlyName, true) else s2
    {
      if hasManager {
        manager.RegisterApplications(appConfigCache.entries);
      }
      if ctl.enabled && (ctl.standby || (!ctl.standby && ctl.power == PowerOn)) {
        EnableCastService(ctl.friendlyName, true);
      }
    }

    /** `defined` is false when the cache update indexes past the end, which C++ leaves undefined. */
    method RegisterApplications(batch: seq<AppInfo>, mallocs: nat) returns (defined: bool)
      requires Valid()
      modifies this, appConfigCache, manager
      ensures defined <==> Update(old(State()).cache.apps, batch, mallocs).Some?
      ensures defined ==> Valid() && State() == RegisterApps(old(State()), batch, mallocs)
      ensures defined ==> Convergence.Agrees(State())
    {
      ghost var s := State();
      WithUpdateKeeps(s, Update(s.cache.apps, batch, mallocs));
      EnableCastService(ctl.friendlyName, false);
      isDynamicRegistrationsRequired := true;
      defined := appConfigCache.UpdateDynamicAppCache(batch, mallocs);
      if defined {
        RegisterCache();
      }
    }

    method UnregisterApplications(apps: seq<string>) returns (defined: bool)
      requires Valid()
      modifies this, appConfigCache, manager
      ensures defined <==> Delete(old(State()).cache.apps, apps).Some?
      ensures defined ==> Valid() && State() == UnregisterApps(old(State()), apps)
      ensures defined ==> Convergence.Agrees(State())
    {
      ghost var s := State();
      WithUpdateKeeps(s, Delete(s.cache.apps, apps));
      EnableCastService(ctl.friendlyName, false);
      isDynamicRegistrationsRequired := true;
      defined := appConfigCache.DeleteFromDynamicAppCache(apps);
      if defined {
        RegisterCache();
      }
    }

    /** The search loop of a lifecycle callback. */
    method FindEntry(appId: string) returns (i: nat)
      ensures i == FindApp(appConfigCache.Contents(), appId)
    {
      i := 0;
      ghost var apps := appConfigCache.Contents();
      while i < |appConfigCache.entries| && !AppMatches(appConfigCache.entries[i].config, appId)
        invariant i <= |appConfigCache.entries|
        invariant forall k :: 0 <= k < i ==> !AppMatches(apps[k], appId)
      {
        i := i + 1;
      }
      var f := FindApp(apps, appId);
      assert f == i by {
        assert i < |apps| ==> f <= i;
        assert f < |apps| ==> i <= f;
      }
    }

    /** XCastManager::applicationStateChanged; its status is not looked at. */
    method Forward(app: string, state: string, id: string, error: string)
      requires Objects() && hasManager
      modifies manager
      ensures Objects()
      ensures State() == old(State()).(link := Push(old(State()).link, ApplicationStateChanged(app, state, id, error)))
    {
      var status := manager.ApplicationState(app, state, id, error);
    }

    method ForwardLifecycle(appId: string, instanceId: string, newState: AppState, failed: bool)
      requires Objects()
      modifies manager
      ensures Objects()
      ensures State() == old(State()).(link := AppLifecycle(old(State()), appId, instanceId, newState, failed))
    {
      if !hasManager {
        return;
      }
      var i := FindEntry(appId);
      if i == |appConfigCache.entries| {
        return;
      }
      var text := StateText(newState);
      if text == None {
        return;
      }
      Forward(appConfigCache.entries[i].config.appName, text.value, instanceId, if failed then "internal" else "none");
    }

    method OnAppLifecycleStateChanged(appId: string, instanceId: string, newState: AppState, failed: bool)
      requires Valid()
      modifies manager
      ensures Valid()
      ensures State() == old(State()).(link := AppLifecycle(old(State()), appId, instanceId, newState, failed))
      ensures manager.calls == old(manager.calls) ||
              Forwarding.MessageOfMeant(old(manager.calls), manager.calls, appConfigCache.Contents(), appId,
                                        instanceId, newState, failed)
    {
      ghost var s := State();
      LifecycleKeeps(s, appId, instanceId, newState, failed);
      Forwarding.ForwardsMeant(s, appId, instanceId, newState, failed);
      ForwardLifecycle(appId, instanceId, newState, failed);
    }

    method SetApplicationState(name: string, state: CastState, id: string, error: CastError) returns (ok: bool)
      requires Valid()
      modifies manager
      ensures Valid()
      ensures State() ==
              old(State()).(link := PluginSpec.SetApplicationState(old(State()).link, name, state, id, error))
      ensures ok <==> name != "" && hasManager && error != ErrorOther
      ensures if ok && manager.gdialCastObj
              then Forwarding.Announces(old(manager.calls), manager.calls, name, state, id, error)
              else manager.calls == old(manager.calls)
    {
      SetApplicationStateKeeps(State(), name, state, id, error);
      Forwarding.AnnouncesExactly(State().link, name, state, id, error);
      ok := false;
      if name != "" && hasManager {
        var text := ErrorText(error);
        if text == None {
          return false;
        }
        Forward(CStr(name), CastStateText(state), CStr(id), text.value);
        ok := true;
      }
    }
  }
}
