/** XCastImplementation.cpp on values: one atomic step for each entry point and each worker body. */
module PluginSpec {
  import opened Options
  import opened CStrings
  import opened AppCacheSpec
  import opened Gdial
  import opened ManagerSpec

  const FIRST_TIMEOUT: nat := 5000
  const SECOND_TIMEOUT: nat := 10000

  datatype Power = PowerUnknown | PowerOff | PowerStandby | PowerOn | PowerLightSleep | PowerDeepSleep

  datatype AppState =
    | StateUnknown | StateUnloaded | StateLoading | StateInitializing | StatePaused | StateRunning
    | StateActive | StateSuspended | StateHibernated | StateTerminating

  datatype CastState = CastRunning | CastStopped | CastHidden | CastOther

  datatype CastError = ErrorNone | ErrorForbidden | ErrorUnavailable | ErrorInvalid | ErrorInternal | ErrorOther

  /** The two compile-time switches. */
  datatype Defaults = Defaults(enabled: bool, standby: bool)

  /** The settings and readings: what decides whether casting is effective, and the network standby mode. */
  datatype Control = Control(
    defaults: Defaults,
    enabled: bool,              // m_xcastEnable
    standby: bool,              // m_standbyBehavior
    power: Power,               // m_powerState
    friendlyName: string,       // m_friendlyName
    restartReq: bool,           // m_is_restart_req
    networkStandby: bool)       // m_networkStandbyMode

  /** What is kept for replay. */
  datatype Caches = Caches(
    enable: bool,               // xcastEnableCache
    name: string,               // friendlyNameCache
    required: bool,             // m_isDynamicRegistrationsRequired
    apps: seq<AppConfig>)       // m_appConfigCache

  /** The way to gdial. */
  datatype Link = Link(
    hasManager: bool,           // m_xcast_manager is not null
    manager: Manager,
    timer: Option<nat>,         // the interval while the locate timer is active
    activeInterface: string,    // m_activeInterfaceName
    netPlugin: bool,
    netSubscribed: bool)

  /** The other plugins this object holds and is subscribed to. */
  datatype Peers = Peers(
    service: bool,              // _service is not null
    powerPlugin: bool,
    powerRegistered: bool,      // _registeredPowerEventHandlers
    systemPlugin: bool,
    systemSubscribed: bool,
    appPlugin: bool,
    appSubscribed: bool)

  /** The last three fields count detached workers that have not run yet. */
  datatype State = State(ctl: Control, cache: Caches, link: Link, peers: Peers,
                         powerWorkers: nat, nameWorkers: nat, standbyWorkers: nat)

  const NO_PEERS: Peers := Peers(false, false, false, false, false, false, false)

  function InitialState(d: Defaults): State {
    State(Control(d, d.enabled, d.standby, PowerStandby, "", false, false),
          Caches(false, "Living Room", false, []),
          Link(false, INITIAL_MANAGER, None, "", false, false),
          NO_PEERS, 0, 0, 0)
  }

  // ----- helpers shared by the entry points -----

  predicate Effective(c: Control) { c.enabled && (c.standby || c.power == PowerOn) }

  function InterfaceType(iface: string): string {
    if iface == "wlan0" then "WIFI" else if iface == "eth0" then "ETHERNET" else ""
  }

  /** A call through m_xcast_manager. */
  function Push(l: Link, c: Call): Link {
    if l.hasManager then l.(manager := Tell(l.manager, c)) else l
  }

  /** enableCastService: push, then cache. */
  function EnableCast(s: State, name: string, on: bool): State {
    s.(link := Push(s.link, ActivationChanged(on, name)), cache := s.cache.(enable := on, name := name))
  }

  function Initialize(l: Link): Link {
    if l.hasManager then l else l.(hasManager := true, timer := Some(FIRST_TIMEOUT))
  }

  function Shutdown(l: Link): Link {
    if l.hasManager then l.(hasManager := false, timer := None, manager := Deinitialized(l.manager)) else l
  }

  /** Each unregistration happens only where the plugin is there; then the reference goes. */
  function ReleaseNetwork(l: Link): Link {
    l.(netSubscribed := l.netSubscribed && !l.netPlugin, netPlugin := false)
  }

  function ReleasePeers(p: Peers): Peers {
    Peers(p.service, false, p.powerRegistered && !p.powerPlugin, false, p.systemSubscribed && !p.systemPlugin,
          false, p.appSubscribed && !p.appPlugin)
  }

  function ResetSettings(c: Control): Control {
    c.(enabled := c.defaults.enabled, standby := c.defaults.standby)
  }

  /** The caches and the friendly name stay. */
  function Deinitialize(s: State): State {
    s.(link := Shutdown(ReleaseNetwork(s.link)), peers := ReleasePeers(s.peers), ctl := ResetSettings(s.ctl))
  }

  /** What PowerManager answers when asked for its two states; `None` is a failed read. */
  datatype Reading = Reading(power: Option<Power>, standby: Option<bool>)

  const NO_READING: Reading := Reading(None, None)

  /** checkPowerAndNetworkStandbyStates: a failed read leaves the value. */
  function ReadPower(c: Control, read: Reading): Control {
    c.(power := if read.power.Some? then read.power.value else c.power,
       networkStandby := if read.standby.Some? then read.standby.value else c.networkStandby)
  }

  // ----- entry points -----

  /** What the other plugins answer while Configure(service) runs. `None` is a failed read. */
  datatype Services = Services(powerOk: bool, powerRead: Reading, powerRegOk: bool,
                               systemOk: bool, systemRegOk: bool, appOk: bool, appRegOk: bool,
                               nameRead: Option<string>)

  const NO_SERVICES: Services := Services(false, NO_READING, false, false, false, false, false, None)

  function PeersAcquired(p: Peers, v: Services): Peers {
    Peers(true,
          v.powerOk, p.powerRegistered || (v.powerOk && v.powerRegOk),
          p.systemPlugin || v.systemOk, if p.systemPlugin then p.systemSubscribed else v.systemOk && v.systemRegOk,
          p.appPlugin || v.appOk, if p.appPlugin then p.appSubscribed else v.appOk && v.appRegOk)
  }

  function ConfigureService(s: State, v: Services): State {
    if s.peers.service then s
    else
      var p := PeersAcquired(s.peers, v);
      var c := if v.powerOk then ReadPower(s.ctl, v.powerRead) else s.ctl;
      s.(peers := p,
         ctl := if p.systemPlugin && v.nameRead.Some? then c.(friendlyName := v.nameRead.value) else c,
         link := Initialize(s.link))
  }

  /** `_service` stays non-null. */
  function ConfigureNull(s: State): State {
    if s.peers.service then Deinitialize(s) else s
  }

  /** The object is destroyed and a new one constructed; statics stay, the manager among them. The timer and the
      references to the other plugins belong to the object. */
  function Recreate(s: State): State {
    s.(peers := NO_PEERS, ctl := s.ctl.(networkStandby := false),
       link := s.link.(timer := None, netPlugin := false, netSubscribed := false))
  }

  /** `iface` is "" when the primary interface could not be read. */
  datatype Connection = Connection(netOk: bool, netRegOk: bool, iface: string, env: Environment)

  function AcquireNetwork(l: Link, c: Connection): Link {
    if l.netPlugin then l else l.(netPlugin := c.netOk, netSubscribed := c.netOk && c.netRegOk)
  }

  /** XCastManager::initialize on a named interface. */
  function LaunchOn(l: Link, iface: string, standby: bool, env: Environment): (Link, bool) {
    var (m, ok) := Initialized(l.manager, iface, standby, env);
    (l.(manager := m, activeInterface := if ok then InterfaceType(iface) else l.activeInterface), ok)
  }

  /** connectToGDialService. */
  function Connect(l: Link, service: bool, standby: bool, c: Connection): (Link, bool) {
    if !service then (l, false)
    else
      var l1 := AcquireNetwork(l, c);
      var iface := if l1.netPlugin then c.iface else "";
      if iface == "" then (l1, false) else LaunchOn(l1, iface, standby, c.env)
  }

  /** The attempt gets as far as XCastManager::initialize with an interface. */
  predicate ReachesGdial(s: State, c: Connection) {
    s.peers.service && (s.link.netPlugin || c.netOk) && c.iface != ""
  }

  /** What a fresh instance is told. */
  function Replay(l: Link, k: Caches): Link {
    var l1 := if k.required then Push(l, RegisterApplications(ProjectAll(k.apps))) else l;
    Push(l1, ActivationChanged(k.enable, k.name))
  }

  /** onLocateCastTimer. */
  function TimerFires(s: State, c: Connection): State {
    var (l, ok) := Connect(s.link, s.peers.service, s.ctl.networkStandby, c);
    s.(link := if ok then Replay(l.(timer := None), s.cache) else l.(timer := Some(SECOND_TIMEOUT)))
  }

  /** updateNWConnectivityStatus. */
  function NetworkStatus(l: Link, iface: string, connected: bool, ip: string): Link {
    var mapped := InterfaceType(iface);
    if l.timer == None && connected && mapped != "" && (mapped != l.activeInterface || ip != "") then
      l.(manager := if l.hasManager then Deinitialized(l.manager) else l.manager, timer := Some(FIRST_TIMEOUT))
    else l
  }

  function AddressChange(l: Link, iface: string, version: string, ip: string, acquired: bool): Link {
    if version == "IPv4" && acquired then NetworkStatus(l, iface, ip != "", ip) else l
  }

  function PowerModeChanged(s: State, p: Power): State {
    s.(ctl := s.ctl.(power := p), powerWorkers := s.powerWorkers + 1)
  }

  predicate Restarts(c: Control) { c.power == PowerOn && c.restartReq }

  /** The restart branch: Deinitialize, Initialize, clear the request. */
  function Restart(s: State): State {
    var s1 := Deinitialize(s);
    s1.(link := Initialize(s1.link), ctl := s1.ctl.(restartReq := false))
  }

  /** The branch on the power state. */
  function ObservePower(s: State): State {
    if Restarts(s.ctl) then Restart(s)
    else if s.ctl.power == PowerDeepSleep then s.(ctl := s.ctl.(restartReq := true))
    else s
  }

  /** threadPowerModeChangeEvent. */
  function PowerWorker(s: State): State
    requires s.powerWorkers > 0
  {
    var s1 := ObservePower(s.(powerWorkers := s.powerWorkers - 1));
    if s1.ctl.standby then s1
    else EnableCast(s1, s1.ctl.friendlyName, s1.ctl.enabled && s1.ctl.power == PowerOn)
  }

  function NameChanged(s: State, name: string): State {
    if name == "" then s else s.(ctl := s.ctl.(friendlyName := name), nameWorkers := s.nameWorkers + 1)
  }

  /** threadSystemFriendlyNameChangeEvent. */
  function NameWorker(s: State): State
    requires s.nameWorkers > 0
  {
    PushEffective(s.(nameWorkers := s.nameWorkers - 1))
  }

  /** The late registration: only for a plugin that is there and not registered with yet. */
  function LateRegistration(s: State, on: bool, read: Reading, registered: bool): State {
    if !s.peers.powerRegistered && on && s.peers.powerPlugin then
      s.(ctl := ReadPower(s.ctl, read), peers := s.peers.(powerRegistered := registered))
    else s
  }

  function PushEffective(s: State): State {
    EnableCast(s, s.ctl.friendlyName, Effective(s.ctl))
  }

  /** SetNetworkStandbyMode with the mode that is stored already. */
  function PushStandby(s: State): State {
    s.(link := Push(s.link, SetNetworkStandbyMode(s.ctl.networkStandby)))
  }

  /** The effective value, and the network standby mode if it is another one than `before`. */
  function PushSettings(s: State, before: bool): State {
    if s.ctl.networkStandby != before then PushStandby(PushEffective(s)) else PushEffective(s)
  }

  function SetEnabled(s: State, on: bool, read: Reading, registered: bool): State {
    PushSettings(LateRegistration(s.(ctl := s.ctl.(enabled := on)), on, read, registered), s.ctl.networkStandby)
  }

  /** OnNetworkStandbyModeChanged. */
  function StandbyModeChanged(s: State, mode: bool): State {
    s.(ctl := s.ctl.(networkStandby := mode), standbyWorkers := s.standbyWorkers + 1)
  }

  /** networkStandbyModeChangeEvent. */
  function StandbyWorker(s: State): State
    requires s.standbyWorkers > 0
  {
    PushStandby(s.(standbyWorkers := s.standbyWorkers - 1))
  }

  /** `None` is a value that is neither ACTIVE nor INACTIVE. Nothing is pushed. */
  function SetStandbyBehavior(s: State, active: Option<bool>): State {
    if active.Some? then s.(ctl := s.ctl.(standby := active.value)) else s
  }

  function SetFriendlyName(s: State, name: string): State {
    if name == "" then s else PushEffective(s.(ctl := s.ctl.(friendlyName := name)))
  }

  /** Disable, update the cache, register, enable again if effective. */
  function WithApps(s: State, apps: seq<AppConfig>): State {
    var s1 := EnableCast(s, s.ctl.friendlyName, false);
    var s2 := s1.(cache := s1.cache.(required := true, apps := apps),
                  link := Push(s1.link, RegisterApplications(ProjectAll(apps))));
    if Effective(s.ctl) then EnableCast(s2, s.ctl.friendlyName, true) else s2
  }

  /** `None` is a cache update that C++ leaves undefined; such an event is never enabled. */
  function WithUpdate(s: State, apps: Option<seq<AppConfig>>): State {
    if apps.Some? then WithApps(s, apps.value) else s
  }

  function RegisterApps(s: State, batch: seq<AppInfo>, mallocs: nat): State {
    WithUpdate(s, Update(s.cache.apps, batch, mallocs))
  }

  function UnregisterApps(s: State, names: seq<string>): State {
    WithUpdate(s, Delete(s.cache.apps, names))
  }

  function SetModel(l: Link, name: string): Link {
    if l.hasManager then l.(manager := WithModel(l.manager, name)) else l
  }

  function SetManufacturer(l: Link, name: string): Link {
    if l.hasManager then l.(manager := WithManufacturer(l.manager, name)) else l
  }

  predicate AppMatches(c: AppConfig, appId: string) {
    c.appId == CStr(appId) || (c.appId == "" && c.appName == CStr(appId))
  }

  /** First cached entry for an id, or the number of entries. */
  function FindApp(apps: seq<AppConfig>, appId: string): (i: nat)
    ensures i <= |apps| && (i < |apps| ==> AppMatches(apps[i], appId))
    ensures forall k :: 0 <= k < i ==> !AppMatches(apps[k], appId)
  {
    if apps == [] then 0
    else if AppMatches(apps[0], appId) then 0
    else
      var i := FindApp(apps[1..], appId);
      assert forall k :: 1 <= k < |apps| ==> apps[k] == apps[1..][k - 1];
      i + 1
  }

  function StateText(a: AppState): Option<string> {
    match a
    case StateLoading => Some("running")
    case StateInitializing => Some("running")
    case StateRunning => Some("running")
    case StateActive => Some("running")
    case StateSuspended => Some("suspended")
    case StatePaused => Some("suspended")
    case StateHibernated => Some("suspended")
    case StateUnloaded => Some("stopped")
    case StateTerminating => Some("stopped")
    case StateUnknown => None
  }

  /** onAppLifecycleStateChanged. */
  function AppLifecycle(s: State, appId: string, instanceId: string, state: AppState, failed: bool): Link {
    var i := FindApp(s.cache.apps, appId);
    if i < |s.cache.apps| && StateText(state).Some? then
      Push(s.link, ApplicationStateChanged(s.cache.apps[i].appName, StateText(state).value, instanceId,
                                           if failed then "internal" else "none"))
    else s.link
  }

  function CastStateText(c: CastState): string {
    match c
    case CastRunning => "running"
    case CastStopped => "stopped"
    case CastHidden => "suspended"
    case CastOther => ""
  }

  function ErrorText(e: CastError): Option<string> {
    match e
    case ErrorNone => Some("none")
    case ErrorForbidden => Some("forbidden")
    case ErrorUnavailable => Some("unavailable")
    case ErrorInvalid => Some("invalid")
    case ErrorInternal => Some("internal")
    case ErrorOther => None
  }

  function SetApplicationState(l: Link, name: string, state: CastState, id: string, error: CastError): Link {
    if name != "" && ErrorText(error).Some? then
      Push(l, ApplicationStateChanged(CStr(name), CastStateText(state), CStr(id), ErrorText(error).value))
    else l
  }

  // ----- events and runs -----

  datatype Event =
    | EvConfigureService(services: Services)
    | EvConfigureNull
    | EvRecreate
    | EvTimer(connection: Connection)
    | EvInterface(iface: string)
    | EvAddress(iface: string, version: string, ip: string, acquired: bool)
    | EvPower(power: Power)
    | EvPowerWorker
    | EvName(name: string)
    | EvNameWorker
    | EvNetworkStandby(mode: bool)
    | EvStandbyWorker
    | EvSetEnabled(on: bool, read: Reading, registered: bool)
    | EvSetStandby(active: Option<bool>)
    | EvSetFriendlyName(name: string)
    | EvRegister(batch: seq<AppInfo>, mallocs: nat)
    | EvUnregister(names: seq<string>)
    | EvSetModel(name: string)
    | EvSetManufacturer(name: string)
    | EvLifecycle(appId: string, instanceId: string, state: AppState, failed: bool)
    | EvSetApplicationState(name: string, castState: CastState, id: string, error: CastError)

  /** When the outside can deliver the event. A batch that makes the C++ undefined ends the run, and so does
      replacing an object that a pending worker still refers to. */
  ghost predicate Enabled(s: State, e: Event) {
    match e
    case EvTimer(_) => s.link.timer.Some?
    case EvInterface(_) => s.link.netSubscribed
    case EvAddress(_, _, _, _) => s.link.netSubscribed
    case EvPower(_) => s.peers.powerRegistered
    case EvPowerWorker => s.powerWorkers > 0
    case EvNetworkStandby(_) => s.peers.powerRegistered
    case EvStandbyWorker => s.standbyWorkers > 0
    case EvName(_) => s.peers.systemSubscribed
    case EvNameWorker => s.nameWorkers > 0
    case EvRecreate => s.powerWorkers == 0 && s.nameWorkers == 0 && s.standbyWorkers == 0
    case EvRegister(batch, mallocs) => Update(s.cache.apps, batch, mallocs).Some?
    case EvUnregister(names) => Delete(s.cache.apps, names).Some?
    case EvLifecycle(_, _, _, _) => s.peers.appSubscribed
    case _ => true
  }

  /** The events that only concern the way to gdial. */
  predicate ConcernsLink(e: Event) {
    || e.EvInterface? || e.EvAddress? || e.EvSetModel? || e.EvSetManufacturer?
    || e.EvLifecycle? || e.EvSetApplicationState?
  }

  function LinkStep(s: State, e: Event): Link {
    match e
    case EvInterface(iface) => NetworkStatus(s.link, iface, true, "")
    case EvAddress(iface, version, ip, acquired) => AddressChange(s.link, iface, version, ip, acquired)
    case EvSetModel(name) => SetModel(s.link, name)
    case EvSetManufacturer(name) => SetManufacturer(s.link, name)
    case EvLifecycle(appId, instanceId, state, failed) => AppLifecycle(s, appId, instanceId, state, failed)
    case EvSetApplicationState(name, state, id, error) => SetApplicationState(s.link, name, state, id, error)
    case _ => s.link
  }

  ghost function Step(s: State, e: Event): State
    requires Enabled(s, e)
  {
    match e
    case EvConfigureService(v) => ConfigureService(s, v)
    case EvConfigureNull => ConfigureNull(s)
    case EvRecreate => Recreate(s)
    case EvTimer(c) => TimerFires(s, c)
    case EvPower(p) => PowerModeChanged(s, p)
    case EvPowerWorker => PowerWorker(s)
    case EvName(name) => NameChanged(s, name)
    case EvNameWorker => NameWorker(s)
    case EvNetworkStandby(mode) => StandbyModeChanged(s, mode)
    case EvStandbyWorker => StandbyWorker(s)
    case EvSetEnabled(on, read, registered) => SetEnabled(s, on, read, registered)
    case EvSetStandby(active) => SetStandbyBehavior(s, active)
    case EvSetFriendlyName(name) => SetFriendlyName(s, name)
    case EvRegister(batch, mallocs) => RegisterApps(s, batch, mallocs)
    case EvUnregister(names) => UnregisterApps(s, names)
    case _ => s.(link := LinkStep(s, e))
  }

  lemma LinkOnly(s: State, e: Event)
    requires Enabled(s, e) && ConcernsLink(e)
    ensures Step(s, e) == s.(link := LinkStep(s, e))
  {}

  /** A run from a fresh process: one state before and after each event. */
  ghost predicate IsRun(run: seq<State>, events: seq<Event>) {
    && |run| == |events| + 1
    && run[0] == InitialState(run[0].ctl.defaults)
    && forall i :: 0 <= i < |events| ==> Enabled(run[i], events[i]) && run[i + 1] == Step(run[i], events[i])
  }

  lemma {:induction false} DefaultsFixed(run: seq<State>, events: seq<Event>, n: nat)
    requires IsRun(run, events) && n < |run|
    ensures run[n].ctl.defaults == run[0].ctl.defaults
  {
    if n > 0 {
      DefaultsFixed(run, events, n - 1);
      assert Enabled(run[n - 1], events[n - 1]);
    }
  }
}
