/** The network standby mode that an instance was last told, by a launch option or a call, against the stored one. */
module NetworkStandby {
  import opened Options
  import opened CStrings
  import opened AppCacheSpec
  import opened Gdial
  import opened ManagerSpec
  import opened PluginSpec
  import opened PluginInvariants
  import opened Reconnect

  /** What the instance was told, if there is one. */
  function ToldMode(l: Link): Option<bool> {
    var b := Observe(l.manager.calls);
    if b.Some? then Some(b.value.networkStandby) else None
  }

  predicate ModeAgrees(s: State) { ToldMode(s.link).Some? ==> ToldMode(s.link).value == s.ctl.networkStandby }

  predicate ModeAgreesUpToWorkers(s: State) { s.standbyWorkers == 0 ==> ModeAgrees(s) }

  /** A firing that creates an instance. */
  predicate Launches(s: State, c: Connection) { ReachesGdial(s, c) && c.env.rfc.xdial && c.env.gdialOk }

  /** The instance is told another mode than the stored one, or the stored one changes with nobody telling the instance:
      a launch where the RFC withholds the option, an activation that reads another mode while an instance is left over
      from the object before, and the replacement of an object, whose own mode starts as off. */
  predicate Disturbs(s: State, e: Event) {
    match e
    case EvTimer(c) => s.standbyWorkers == 0 && Launches(s, c) && s.ctl.networkStandby && !c.env.rfc.wolWake
    case EvConfigureService(v) =>
      && !s.peers.service && s.standbyWorkers == 0 && s.link.manager.handle
      && v.powerOk && v.powerRead.standby.Some? && v.powerRead.standby.value != s.ctl.networkStandby
    case EvRecreate => s.link.manager.handle && s.ctl.networkStandby
    case _ => false
  }

  /** The instance is told the stored mode, or there is none any more. */
  predicate Settles(s: State, e: Event) {
    match e
    case EvStandbyWorker => true
    case EvTimer(c) => Launches(s, c) && (s.ctl.networkStandby ==> c.env.rfc.wolWake)
    case EvSetEnabled(on, read, _) =>
      && on && s.peers.powerPlugin && !s.peers.powerRegistered
      && read.standby.Some? && read.standby.value != s.ctl.networkStandby
    case _ => RegainsRetry(s, e)
  }

  // ----- what each step tells the instance -----

  lemma PushMode(l: Link, c: Call)
    requires Owned(l) && !c.Create? && !c.Destroy?
    ensures ToldMode(Push(l, c)) ==
            if c.SetNetworkStandbyMode? && l.manager.handle then Some(c.mode) else ToldMode(l)
  {
    Snoc(l.manager.calls, c);
  }

  lemma EnableMode(s: State, name: string, on: bool)
    requires Owned(s.link)
    ensures ToldMode(EnableCast(s, name, on).link) == ToldMode(s.link) && Owned(EnableCast(s, name, on).link)
  {
    PushMode(s.link, ActivationChanged(on, name));
    PushKeeps(s.link, ActivationChanged(on, name));
  }

  lemma EffectiveMode(s: State)
    requires Owned(s.link)
    ensures SameMode(s, PushEffective(s))
  {
    EnableMode(s, s.ctl.friendlyName, Effective(s.ctl));
  }

  lemma StandbyMode(s: State)
    requires Owned(s.link)
    ensures ToldMode(PushStandby(s).link) ==
            if s.link.manager.handle then Some(s.ctl.networkStandby) else None
  {
    PushMode(s.link, SetNetworkStandbyMode(s.ctl.networkStandby));
  }

  lemma SetEnabledMode(s: State, on: bool, read: Reading, registered: bool)
    requires Owned(s.link)
    ensures var t := SetEnabled(s, on, read, registered);
            ToldMode(t.link) ==
            if s.link.manager.handle && t.ctl.networkStandby != s.ctl.networkStandby then Some(t.ctl.networkStandby)
            else ToldMode(s.link)
  {
    var t := LateRegistration(s.(ctl := s.ctl.(enabled := on)), on, read, registered);
    EnableMode(t, t.ctl.friendlyName, Effective(t.ctl));
    StandbyMode(PushEffective(t));
  }

  lemma SetEnabledAgrees(s: State, on: bool, read: Reading, registered: bool)
    requires Owned(s.link)
    requires ModeAgrees(s) || SetEnabled(s, on, read, registered).ctl.networkStandby != s.ctl.networkStandby
    ensures ModeAgrees(SetEnabled(s, on, read, registered))
  {
    SetEnabledMode(s, on, read, registered);
  }

  lemma AppsMode(s: State, apps: seq<AppConfig>)
    requires Owned(s.link)
    ensures ToldMode(WithApps(s, apps).link) == ToldMode(s.link)
  {
    EnableMode(s, s.ctl.friendlyName, false);
    var s1 := EnableCast(s, s.ctl.friendlyName, false);
    PushMode(s1.link, RegisterApplications(ProjectAll(apps)));
    PushKeeps(s1.link, RegisterApplications(ProjectAll(apps)));
    PushMode(Push(s1.link, RegisterApplications(ProjectAll(apps))), ActivationChanged(true, s.ctl.friendlyName));
  }

  lemma GoneMode(l: Link)
    requires Owned(l)
    ensures ToldMode(Shutdown(ReleaseNetwork(l))) == None
    ensures Observe(Deinitialized(l.manager).calls) == None
  {
    ShutdownKeeps(l);
    DeinitializedKeeps(l.manager);
  }

  lemma NetworkMode(l: Link, iface: string, connected: bool, ip: string)
    requires Owned(l)
    ensures ToldMode(NetworkStatus(l, iface, connected, ip)) ==
            if connected && CountsAsChange(l, iface, ip) then None else ToldMode(l)
  {
    GoneMode(l);
  }

  lemma NamesMode(l: Link, name: string)
    requires Owned(l)
    ensures ToldMode(SetModel(l, name)) == ToldMode(l) && ToldMode(SetManufacturer(l, name)) == ToldMode(l)
  {
    Snoc(l.manager.calls, Call.SetModelName(name));
    Snoc(l.manager.calls, Call.SetManufacturerName(name));
  }

  lemma ForwardMode(l: Link, app: string, state: string, id: string, error: string)
    requires Owned(l)
    ensures ToldMode(Push(l, ApplicationStateChanged(app, state, id, error))) == ToldMode(l)
  {
    PushMode(l, ApplicationStateChanged(app, state, id, error));
  }

  lemma LinkMode(s: State, e: Event)
    requires Owned(s.link) && Enabled(s, e)
    ensures ToldMode(LinkStep(s, e)) ==
            if (e.EvInterface? || e.EvAddress?) && RegainsRetry(s, e) then None else ToldMode(s.link)
  {
    match e
    case EvInterface(iface) => NetworkMode(s.link, iface, true, "");
    case EvAddress(iface, version, ip, acquired) => NetworkMode(s.link, iface, ip != "", ip);
    case EvSetModel(name) => NamesMode(s.link, name);
    case EvSetManufacturer(name) => NamesMode(s.link, name);
    case EvLifecycle(appId, instanceId, state, failed) =>
      var i, t := FindApp(s.cache.apps, appId), StateText(state);
      if i < |s.cache.apps| && t.Some? {
        ForwardMode(s.link, s.cache.apps[i].appName, t.value, instanceId, if failed then "internal" else "none");
      }
    case EvSetApplicationState(name, state, id, error) =>
      var t := ErrorText(error);
      if t.Some? { ForwardMode(s.link, CStr(name), CastStateText(state), CStr(id), t.value); }
    case _ =>
  }

  lemma ReplayMode(l: Link, k: Caches)
    requires Owned(l)
    ensures ToldMode(Replay(l, k)) == ToldMode(l)
  {
    var r := RegisterApplications(ProjectAll(k.apps));
    PushMode(l, r);
    PushKeeps(l, r);
    PushMode(if k.required then Push(l, r) else l, ActivationChanged(k.enable, k.name));
  }

  lemma TimerMode(s: State, c: Connection)
    requires Owned(s.link) && s.link.timer.Some?
    ensures ToldMode(TimerFires(s, c).link) ==
            if Launches(s, c) then Some(c.env.rfc.wolWake && s.ctl.networkStandby) else None
  {
    var (l, ok) := Connect(s.link, s.peers.service, s.ctl.networkStandby, c);
    ConnectKeeps(s.link, s.peers.service, s.ctl.networkStandby, c);
    var n := Settle(s.link.manager, c.env);
    Snoc(n.calls, Create(LaunchOf(n, c.iface, s.ctl.networkStandby, c.env)));
    if ok { ReplayMode(l.(timer := None), s.cache); }
  }

  // ----- every event, and whole runs -----

  lemma ObserveMode(s: State)
    requires Owned(s.link)
    ensures var t := ObservePower(s);
            && ToldMode(t.link) == (if Restarts(s.ctl) then None else ToldMode(s.link)) && Owned(t.link)
            && t.ctl.networkStandby == s.ctl.networkStandby
  {
    GoneMode(s.link);
    ShutdownKeeps(s.link);
  }

  /** A restart leaves no instance; otherwise a power worker pushes at most activation and name. */
  lemma WorkerMode(s: State)
    requires Owned(s.link) && s.powerWorkers > 0
    ensures ToldMode(PowerWorker(s).link) == if Restarts(s.ctl) then None else ToldMode(s.link)
    ensures PowerWorker(s).ctl.networkStandby == s.ctl.networkStandby
  {
    var s0 := s.(powerWorkers := s.powerWorkers - 1);
    ObserveMode(s0);
    var s1 := ObservePower(s0);
    EnableMode(s1, s1.ctl.friendlyName, s1.ctl.enabled && s1.ctl.power == PowerOn);
  }

  lemma UpdateMode(s: State, apps: Option<seq<AppConfig>>)
    requires Owned(s.link)
    ensures SameMode(s, WithUpdate(s, apps))
  {
    if apps.Some? { AppsMode(s, apps.value); }
  }

  lemma SettlesMode(s: State, e: Event)
    requires Owned(s.link) && Enabled(s, e) && Settles(s, e)
    ensures ModeAgrees(Step(s, e))
  {
    match e
    case EvTimer(c) => TimerMode(s, c);
    case EvPowerWorker => WorkerMode(s);
    case EvStandbyWorker => StandbyMode(s.(standbyWorkers := s.standbyWorkers - 1));
    case EvSetEnabled(on, read, registered) => SetEnabledMode(s, on, read, registered);
    case EvConfigureNull => GoneMode(s.link);
    case _ => LinkMode(s, e);
  }

  predicate SameMode(s: State, t: State) {
    && ToldMode(t.link) == ToldMode(s.link)
    && t.ctl.networkStandby == s.ctl.networkStandby && t.standbyWorkers == s.standbyWorkers
  }

  lemma LinkSameMode(s: State, e: Event)
    requires Owned(s.link) && Enabled(s, e) && ConcernsLink(e) && !Settles(s, e)
    ensures SameMode(s, Step(s, e))
  {
    LinkMode(s, e);
  }

  /** Pushes at most activation, names and applications, and does not concern the mode. */
  predicate Unrelated(e: Event) {
    || e.EvNameWorker? || e.EvSetFriendlyName? || e.EvRegister? || e.EvUnregister?
    || e.EvPower? || e.EvName? || e.EvSetStandby?
  }

  lemma UnrelatedSameMode(s: State, e: Event)
    requires Owned(s.link) && Enabled(s, e) && Unrelated(e)
    ensures SameMode(s, Step(s, e))
  {
    match e
    case EvNameWorker => EffectiveMode(s.(nameWorkers := s.nameWorkers - 1));
    case EvSetFriendlyName(name) => EffectiveMode(s.(ctl := s.ctl.(friendlyName := name)));
    case EvRegister(batch, mallocs) => UpdateMode(s, Update(s.cache.apps, batch, mallocs));
    case EvUnregister(names) => UpdateMode(s, Delete(s.cache.apps, names));
    case EvPower(p) =>
    case EvName(name) =>
    case EvSetStandby(active) =>
  }

  lemma ActivationMode(s: State, v: Services)
    requires Owned(s.link) && ModeAgreesUpToWorkers(s)
    ensures ModeAgreesUpToWorkers(ConfigureService(s, v)) <==> !Disturbs(s, EvConfigureService(v))
    ensures s.standbyWorkers == 0 ==> (ModeAgreesUpToWorkers(Recreate(s)) <==> !Disturbs(s, EvRecreate))
  {}

  /** An event keeps the told mode right, up to what pending workers will push, if and only if it does not
      disturb it. */
  lemma StepKeepsModeIff(s: State, e: Event)
    requires Owned(s.link) && Enabled(s, e) && ModeAgreesUpToWorkers(s)
    ensures ModeAgreesUpToWorkers(Step(s, e)) <==> !Disturbs(s, e)
  {
    if Settles(s, e) {
      SettlesMode(s, e);
    } else if Unrelated(e) {
      UnrelatedSameMode(s, e);
    } else if ConcernsLink(e) {
      LinkSameMode(s, e);
    } else {
      match e
      case EvTimer(c) => TimerMode(s, c);
      case EvPowerWorker => WorkerMode(s);
      case EvSetEnabled(on, read, registered) => SetEnabledMode(s, on, read, registered);
      case EvConfigureNull =>
      case EvConfigureService(v) => ActivationMode(s, v);
      case EvRecreate => ActivationMode(s, NO_SERVICES);
      case EvNetworkStandby(mode) =>
    }
  }

  lemma ModeStep(run: seq<State>, events: seq<Event>, n: nat)
    requires IsRun(run, events) && n < |events|
    requires Settles(run[n], events[n]) || (ModeAgreesUpToWorkers(run[n]) && !Disturbs(run[n], events[n]))
    ensures ModeAgreesUpToWorkers(run[n + 1])
  {
    Reachable(run, events, n);
    if Settles(run[n], events[n]) {
      SettlesMode(run[n], events[n]);
    } else {
      StepKeepsModeIff(run[n], events[n]);
    }
  }

  /** Nothing disturbed the mode since it was last settled, or since the start. */
  ghost predicate Settled(run: seq<State>, events: seq<Event>, n: nat)
    requires n <= |events| < |run|
  {
    || n == 0 || Settles(run[n - 1], events[n - 1])
    || (Settled(run, events, n - 1) && !Disturbs(run[n - 1], events[n - 1]))
  }

  /** Over any run: an instance has been told the stored network standby mode, as soon as no worker is pending that
      still has to tell it, unless a disturbance is the last thing that happened to the mode. */
  lemma {:induction false} InstanceKnowsMode(run: seq<State>, events: seq<Event>, n: nat)
    requires IsRun(run, events) && n < |run| && Settled(run, events, n)
    ensures ModeAgreesUpToWorkers(run[n])
  {
    if n > 0 {
      if !Settles(run[n - 1], events[n - 1]) {
        InstanceKnowsMode(run, events, n - 1);
      }
      ModeStep(run, events, n - 1);
    }
  }
}
