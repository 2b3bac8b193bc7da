/** Losing and regaining gdial: the retry is never lost, and what an instance is told is what an ideal backend
    that was connected all along would have been told. */
module Reconnect {
  import opened Options
  import opened AppCacheSpec
  import opened Gdial
  import opened PluginSpec
  import opened PluginInvariants

  // ----- the ideal: no manager, no timer, no network; every request reaches the backend at once -----

  datatype Backend = Backend(active: bool, name: string, apps: Option<seq<AppEntry>>)

  datatype Ideal = Ideal(ctl: Control, peers: Peers, apps: seq<AppConfig>, backend: Backend,
                         powerWorkers: nat, nameWorkers: nat, standbyWorkers: nat)

  function IdealInitial(d: Defaults): Ideal {
    Ideal(Control(d, d.enabled, d.standby, PowerStandby, "", false, false), NO_PEERS, [],
          Backend(false, "Living Room", None), 0, 0, 0)
  }

  function Announce(i: Ideal, on: bool): Ideal {
    i.(backend := i.backend.(active := on, name := i.ctl.friendlyName))
  }

  function Reset(i: Ideal): Ideal {
    i.(ctl := i.ctl.(enabled := i.ctl.defaults.enabled, standby := i.ctl.defaults.standby),
       peers := NO_PEERS.(service := i.peers.service))
  }

  function IdealWorker(i: Ideal): Ideal
    requires i.powerWorkers > 0
  {
    var i0 := i.(powerWorkers := i.powerWorkers - 1);
    var i1 := if Restarts(i.ctl) then (var r := Reset(i0); r.(ctl := r.ctl.(restartReq := false)))
              else if i.ctl.power == PowerDeepSleep then i0.(ctl := i0.ctl.(restartReq := true))
              else i0;
    if i1.ctl.standby then i1 else Announce(i1, Effective(i1.ctl))
  }

  /** Registering leaves the final state of the three pushes of the code. */
  function IdealApps(i: Ideal, apps: Option<seq<AppConfig>>): Ideal {
    if apps.Some? then
      i.(apps := apps.value, backend := Backend(Effective(i.ctl), i.ctl.friendlyName, Some(ProjectAll(apps.value))))
    else i
  }

  function IdealConfigure(i: Ideal, v: Services): Ideal {
    if i.peers.service then i
    else
      var p := PeersAcquired(i.peers, v);
      var c := if v.powerOk then ReadPower(i.ctl, v.powerRead) else i.ctl;
      i.(peers := p, ctl := if p.systemPlugin && v.nameRead.Some? then c.(friendlyName := v.nameRead.value) else c)
  }

  function IdealEnable(i: Ideal, on: bool, read: Reading, registered: bool): Ideal {
    var c := i.ctl.(enabled := on);
    var late := !i.peers.powerRegistered && on && i.peers.powerPlugin;
    var i1 := if late then i.(ctl := ReadPower(c, read), peers := i.peers.(powerRegistered := registered))
              else i.(ctl := c);
    Announce(i1, Effective(i1.ctl))
  }

  function IdealName(i: Ideal, name: string): Ideal {
    if name == "" then i else (var i1 := i.(ctl := i.ctl.(friendlyName := name)); Announce(i1, Effective(i1.ctl)))
  }

  /** Timer firings, network changes, names, lifecycle events: the ideal does not move. */
  function IdealStep(i: Ideal, e: Event): Ideal {
    match e
    case EvConfigureService(v) => IdealConfigure(i, v)
    case EvConfigureNull => if i.peers.service then Reset(i) else i
    case EvRecreate => i.(peers := NO_PEERS, ctl := i.ctl.(networkStandby := false))
    case EvPower(p) => i.(ctl := i.ctl.(power := p), powerWorkers := i.powerWorkers + 1)
    case EvPowerWorker => if i.powerWorkers > 0 then IdealWorker(i) else i
    case EvName(name) =>
      if name == "" then i else i.(ctl := i.ctl.(friendlyName := name), nameWorkers := i.nameWorkers + 1)
    case EvNameWorker =>
      if i.nameWorkers > 0 then Announce(i.(nameWorkers := i.nameWorkers - 1), Effective(i.ctl)) else i
    case EvNetworkStandby(mode) => i.(ctl := i.ctl.(networkStandby := mode), standbyWorkers := i.standbyWorkers + 1)
    case EvStandbyWorker => if i.standbyWorkers > 0 then i.(standbyWorkers := i.standbyWorkers - 1) else i
    case EvSetEnabled(on, read, registered) => IdealEnable(i, on, read, registered)
    case EvSetStandby(active) => if active.Some? then i.(ctl := i.ctl.(standby := active.value)) else i
    case EvSetFriendlyName(name) => IdealName(i, name)
    case EvRegister(batch, mallocs) => IdealApps(i, Update(i.apps, batch, mallocs))
    case EvUnregister(names) => IdealApps(i, Delete(i.apps, names))
    case _ => i
  }

  function IdealRun(d: Defaults, events: seq<Event>): Ideal {
    if events == [] then IdealInitial(d)
    else IdealStep(IdealRun(d, events[..|events| - 1]), events[|events| - 1])
  }

  /** The caches are the ideal backend. */
  ghost predicate Corresponds(s: State, i: Ideal) {
    && i == Ideal(s.ctl, s.peers, s.cache.apps, Backend(s.cache.enable, s.cache.name, ExpectedApps(s.cache)),
                  s.powerWorkers, s.nameWorkers, s.standbyWorkers)
  }

  lemma WorkerSimulated(s: State, i: Ideal)
    requires Subscribed(s.peers) && Corresponds(s, i) && s.powerWorkers > 0
    ensures Corresponds(PowerWorker(s), IdealWorker(i))
  {}

  lemma AppsSimulated(s: State, i: Ideal, apps: Option<seq<AppConfig>>)
    requires Corresponds(s, i)
    ensures Corresponds(WithUpdate(s, apps), IdealApps(i, apps))
  {}

  lemma PushesSimulated(s: State, i: Ideal, on: bool, read: Reading, registered: bool, name: string)
    requires Corresponds(s, i)
    ensures Corresponds(SetEnabled(s, on, read, registered), IdealEnable(i, on, read, registered))
    ensures Corresponds(SetFriendlyName(s, name), IdealName(i, name))
  {}

  lemma ConfigureSimulated(s: State, i: Ideal, v: Services)
    requires Subscribed(s.peers) && Corresponds(s, i)
    ensures Corresponds(ConfigureService(s, v), IdealConfigure(i, v))
    ensures Corresponds(ConfigureNull(s), if i.peers.service then Reset(i) else i)
  {}

  lemma NameWorkerSimulated(s: State, i: Ideal)
    requires Corresponds(s, i) && s.nameWorkers > 0
    ensures Corresponds(NameWorker(s), Announce(i.(nameWorkers := i.nameWorkers - 1), Effective(i.ctl)))
  {}

  /** Events that only concern the way to gdial leave everything the ideal has. */
  lemma LinkSimulated(s: State, i: Ideal, l: Link)
    requires Corresponds(s, i)
    ensures Corresponds(s.(link := l), i)
  {}

  lemma StepSimulated(s: State, i: Ideal, e: Event)
    requires Subscribed(s.peers) && Corresponds(s, i) && Enabled(s, e)
    ensures Corresponds(Step(s, e), IdealStep(i, e))
  {
    match e
    case EvPowerWorker => WorkerSimulated(s, i);
    case EvRegister(batch, mallocs) => AppsSimulated(s, i, Update(s.cache.apps, batch, mallocs));
    case EvUnregister(names) => AppsSimulated(s, i, Delete(s.cache.apps, names));
    case EvSetEnabled(on, read, registered) => PushesSimulated(s, i, on, read, registered, "");
    case EvSetFriendlyName(name) => PushesSimulated(s, i, true, NO_READING, true, name);
    case EvConfigureService(v) => ConfigureSimulated(s, i, v);
    case EvConfigureNull => ConfigureSimulated(s, i, NO_SERVICES);
    case EvTimer(c) => LinkSimulated(s, i, TimerFires(s, c).link);
    case EvRecreate =>
    case EvPower(p) =>
    case EvName(name) =>
    case EvNameWorker => NameWorkerSimulated(s, i);
    case EvNetworkStandby(mode) =>
    case EvStandbyWorker =>
    case EvSetStandby(active) =>
    case _ => LinkSimulated(s, i, LinkStep(s, e));
  }

  lemma {:induction false} RunSimulated(run: seq<State>, events: seq<Event>, n: nat)
    requires IsRun(run, events) && n < |run|
    ensures Corresponds(run[n], IdealRun(run[0].ctl.defaults, events[..n]))
  {
    if n > 0 {
      RunSimulated(run, events, n - 1);
      Reachable(run, events, n - 1);
      assert events[..n][..n - 1] == events[..n - 1];
      StepSimulated(run[n - 1], IdealRun(run[0].ctl.defaults, events[..n - 1]), events[n - 1]);
    }
  }

  /** Over any run, an instance that is there after a step has been told exactly what the ideal backend was told:
      activation, friendly name and application list. The list is there once a registration was asked for and lists
      the cached records. */
  lemma ReplayRefinesAlwaysConnected(run: seq<State>, events: seq<Event>, n: nat)
    requires IsRun(run, events) && n < |run| && run[n].link.manager.handle
    ensures Observe(run[n].link.manager.calls).Some?
    ensures var b := Observe(run[n].link.manager.calls).value;
            && Backend(b.active, b.name, b.apps) == IdealRun(run[0].ctl.defaults, events[..n]).backend
            && (b.apps.Some? <==> run[n].cache.required)
            && (b.apps.Some? ==> Lists(b.apps.value, run[n].cache.apps))
  {
    RunSimulated(run, events, n);
    Reachable(run, events, n);
    ProjectionLists(run[n].cache.apps);
  }

  /** Moves the caches. */
  predicate MovesCaches(e: Event) {
    || e.EvPowerWorker? || e.EvNameWorker? || e.EvSetEnabled? || e.EvSetFriendlyName?
    || e.EvRegister? || e.EvUnregister?
  }

  lemma CachesStay(s: State, e: Event)
    requires Enabled(s, e) && !MovesCaches(e)
    ensures Step(s, e).cache == s.cache
  {}

  lemma {:induction false} CachesAtFirst(run: seq<State>, events: seq<Event>, n: nat)
    requires IsRun(run, events) && n < |run| && forall k :: 0 <= k < n ==> !MovesCaches(events[k])
    ensures run[n].cache == Caches(false, "Living Room", false, [])
  {
    if n > 0 {
      CachesAtFirst(run, events, n - 1);
      var s, e := run[n - 1], events[n - 1];
      assert Enabled(s, e) && run[n] == Step(s, e);
      CachesStay(s, e);
    }
  }

  /** Sets the name or the power state. */
  predicate Informs(e: Event) {
    e.EvPower? || e.EvName? || e.EvConfigureService? || e.EvSetEnabled? || e.EvSetFriendlyName?
  }

  lemma NotInformed(s: State, e: Event)
    requires Enabled(s, e) && !Informs(e)
    ensures Step(s, e).ctl.power == s.ctl.power && Step(s, e).ctl.friendlyName == s.ctl.friendlyName
  {
    if ConcernsLink(e) {
      LinkOnly(s, e);
    } else {
      match e
      case EvPowerWorker => WorkerInforms(s);
      case EvRegister(batch, mallocs) =>
      case EvUnregister(names) =>
      case EvConfigureNull =>
      case _ =>
    }
  }

  lemma WorkerInforms(s: State)
    requires s.powerWorkers > 0
    ensures PowerWorker(s).ctl.power == s.ctl.power && PowerWorker(s).ctl.friendlyName == s.ctl.friendlyName
  {}

  /** Until a name or a power state is set or read, the name is empty and the power state counts as standby. */
  lemma {:induction false} AssumedAtFirst(run: seq<State>, events: seq<Event>, n: nat)
    requires IsRun(run, events) && n < |run| && forall k :: 0 <= k < n ==> !Informs(events[k])
    ensures run[n].ctl.power == PowerStandby && run[n].ctl.friendlyName == ""
  {
    if n > 0 {
      AssumedAtFirst(run, events, n - 1);
      var s, e := run[n - 1], events[n - 1];
      assert Enabled(s, e) && run[n] == Step(s, e);
      NotInformed(s, e);
    }
  }

  /** An instance that connects before anything was ever pushed is told that casting is off, under the name
      "Living Room", and no list. */
  lemma FirstConnection(run: seq<State>, events: seq<Event>, n: nat)
    requires IsRun(run, events) && n < |run| && run[n].link.manager.handle
    requires forall k :: 0 <= k < n ==> !MovesCaches(events[k])
    ensures Observe(run[n].link.manager.calls).Some?
    ensures var b := Observe(run[n].link.manager.calls).value;
            !b.active && b.name == "Living Room" && b.apps == None
  {
    CachesAtFirst(run, events, n);
    Reachable(run, events, n);
  }

  // ----- the retry -----

  /** A manager without an instance has its retry armed. */
  ghost predicate RetryArmed(s: State) {
    s.link.hasManager ==> s.link.timer.Some? || s.link.manager.handle
  }

  /** A firing leaves the manager with an instance or a retry exactly when the RFC is on
      or the attempt does not get as far as reading it. */
  lemma FiringKeepsRetryIff(s: State, c: Connection)
    requires Inv(s) && s.link.timer.Some?
    ensures RetryArmed(TimerFires(s, c)) <==> c.env.rfc.xdial || !ReachesGdial(s, c)
  {
    var (l, ok) := Connect(s.link, s.peers.service, s.ctl.networkStandby, c);
    ConnectKeeps(s.link, s.peers.service, s.ctl.networkStandby, c);
    TimerKeeps(s, c);
    if ok { ReplayKeeps(l.(timer := None), s.cache); }
  }

  /** The two events that can leave a manager with neither a timer nor an instance: a firing that finds the RFC off,
      and replacing the object while its own timer was all the manager had. */
  predicate LosesRetry(s: State, e: Event) {
    match e
    case EvTimer(c) => !c.env.rfc.xdial && ReachesGdial(s, c)
    case EvRecreate => s.link.hasManager && !s.link.manager.handle
    case _ => false
  }

  predicate CountsAsChange(l: Link, iface: string, ip: string) {
    var mapped := InterfaceType(iface);
    l.timer == None && mapped != "" && (mapped != l.activeInterface || ip != "")
  }

  /** The events that end such a state: teardown, a restart, and a network change that counts. */
  predicate RegainsRetry(s: State, e: Event) {
    match e
    case EvConfigureNull => s.peers.service
    case EvPowerWorker => Restarts(s.ctl)
    case EvInterface(iface) => CountsAsChange(s.link, iface, "")
    case EvAddress(iface, version, ip, acquired) =>
      version == "IPv4" && acquired && ip != "" && CountsAsChange(s.link, iface, ip)
    case _ => false
  }

  predicate SameRetry(l: Link, t: Link) {
    t.hasManager == l.hasManager && t.timer == l.timer && t.manager.handle == l.manager.handle
  }

  lemma AppsSameRetry(s: State, apps: Option<seq<AppConfig>>)
    ensures SameRetry(s.link, WithUpdate(s, apps).link)
  {}

  /** Of the events that only concern the way to gdial, a network change that counts arms the retry
      and nothing else touches it. */
  lemma LinkRetry(s: State, e: Event)
    ensures var t := LinkStep(s, e);
            if (e.EvInterface? || e.EvAddress?) && RegainsRetry(s, e) then t.timer.Some? else SameRetry(s.link, t)
  {}

  lemma PushSameRetry(s: State)
    ensures SameRetry(s.link, PushEffective(s).link) && SameRetry(s.link, PushStandby(s).link)
  {}

  lemma SetEnabledSameRetry(s: State, on: bool, read: Reading, registered: bool)
    ensures SameRetry(s.link, SetEnabled(s, on, read, registered).link)
  {
    var t := LateRegistration(s.(ctl := s.ctl.(enabled := on)), on, read, registered);
    PushSameRetry(t);
    PushSameRetry(PushEffective(t));
  }

  lemma ConfigureRetry(s: State, v: Services)
    ensures RetryArmed(ConfigureService(s, v)) <==> RetryArmed(s)
    ensures RetryArmed(ConfigureNull(s)) <==> s.peers.service || RetryArmed(s)
  {}

  lemma WorkerRetry(s: State)
    requires s.powerWorkers > 0
    ensures var t := PowerWorker(s).link;
            if Restarts(s.ctl) then t.timer.Some? else SameRetry(s.link, t)
  {}

  lemma RetryOutsideFirings(s: State, e: Event)
    requires Enabled(s, e) && !e.EvTimer?
    ensures RetryArmed(Step(s, e)) <==> RegainsRetry(s, e) || (RetryArmed(s) && !LosesRetry(s, e))
  {
    match e
    case EvRegister(batch, mallocs) => AppsSameRetry(s, Update(s.cache.apps, batch, mallocs));
    case EvUnregister(names) => AppsSameRetry(s, Delete(s.cache.apps, names));
    case EvPowerWorker => WorkerRetry(s);
    case EvNameWorker => PushSameRetry(s.(nameWorkers := s.nameWorkers - 1));
    case EvStandbyWorker => PushSameRetry(s.(standbyWorkers := s.standbyWorkers - 1));
    case EvSetEnabled(on, read, registered) => SetEnabledSameRetry(s, on, read, registered);
    case EvSetFriendlyName(name) => PushSameRetry(s.(ctl := s.ctl.(friendlyName := name)));
    case EvConfigureService(v) => ConfigureRetry(s, v);
    case EvConfigureNull => ConfigureRetry(s, NO_SERVICES);
    case EvRecreate =>
    case EvPower(p) =>
    case EvName(name) =>
    case EvNetworkStandby(mode) =>
    case EvSetStandby(active) =>
    case _ => LinkRetry(s, e);
  }

  lemma RetryStep(s: State, e: Event)
    requires Inv(s) && Enabled(s, e)
    ensures RetryArmed(Step(s, e)) <==> RegainsRetry(s, e) || (RetryArmed(s) && !LosesRetry(s, e))
  {
    if e.EvTimer? {
      FiringKeepsRetryIff(s, e.connection);
    } else {
      RetryOutsideFirings(s, e);
    }
  }

  ghost predicate RegainedBetween(run: seq<State>, events: seq<Event>, i: nat, n: nat)
    requires n <= |events| < |run|
  {
    exists k :: i < k < n && RegainsRetry(run[k], events[k])
  }

  /** Every event that lost the retry was followed by one that regained it. */
  ghost predicate RetryRegained(run: seq<State>, events: seq<Event>, n: nat)
    requires n <= |events| < |run|
  {
    forall i :: 0 <= i < n && LosesRetry(run[i], events[i]) ==> RegainedBetween(run, events, i, n)
  }

  lemma RegainedSnoc(run: seq<State>, events: seq<Event>, n: nat)
    requires n < |events| < |run|
    ensures RetryRegained(run, events, n + 1) <==>
            RegainsRetry(run[n], events[n]) || (RetryRegained(run, events, n) && !LosesRetry(run[n], events[n]))
  {
    var m := n + 1;
    if RegainsRetry(run[n], events[n]) {
      forall i | 0 <= i < n ensures RegainedBetween(run, events, i, m) {}
    } else {
      forall i | 0 <= i < n ensures RegainedBetween(run, events, i, m) <==> RegainedBetween(run, events, i, n) {}
      assert !RegainedBetween(run, events, n, m);
    }
  }

  lemma {:induction false} ArmedIffRegained(run: seq<State>, events: seq<Event>, n: nat)
    requires IsRun(run, events) && n < |run|
    ensures RetryArmed(run[n]) <==> RetryRegained(run, events, n)
  {
    if n > 0 {
      ArmedIffRegained(run, events, n - 1);
      Reachable(run, events, n - 1);
      assert Enabled(run[n - 1], events[n - 1]);
      RetryStep(run[n - 1], events[n - 1]);
      RegainedSnoc(run, events, n - 1);
    }
  }

  /** A manager has exactly one of an armed timer and an instance, and without a manager there is neither, if and
      only if every loss of the retry was made good. Neither a firing nor a network notification ever meets a null
      manager. */
  lemma NoLostRetryNoNullManager(run: seq<State>, events: seq<Event>, n: nat)
    requires IsRun(run, events) && n < |run|
    ensures (run[n].link.hasManager <==> (run[n].link.timer.Some? != run[n].link.manager.handle))
            <==> RetryRegained(run, events, n)
    ensures run[n].link.timer.Some? || run[n].link.netSubscribed ==> run[n].link.hasManager
  {
    Reachable(run, events, n);
    ArmedIffRegained(run, events, n);
  }

  /** From any reachable state with a manager and no instance whose retry was not lost, one firing that reaches gdial
      reconnects, and the new instance agrees with the ideal backend. */
  lemma OneFiringReconnects(run: seq<State>, events: seq<Event>, c: Connection)
    requires IsRun(run, events) && RetryRegained(run, events, |events|)
    requires var s := run[|events|];
             s.link.hasManager && !s.link.manager.handle && ReachesGdial(s, c) && c.env.rfc.xdial && c.env.gdialOk
    ensures var s := run[|events|];
            && Enabled(s, EvTimer(c))
            && (var t := TimerFires(s, c).link;
                && t.manager.handle && t.timer == None && Observe(t.manager.calls).Some?
                && (var b := Observe(t.manager.calls).value;
                    Backend(b.active, b.name, b.apps) == IdealRun(s.ctl.defaults, events).backend))
  {
    var s := run[|events|];
    ArmedIffRegained(run, events, |events|);
    Reachable(run, events, |events|);
    TimerKeeps(s, c);
    RunSimulated(run, events, |events|);
    DefaultsFixed(run, events, |events|);
    assert events[..|events|] == events;
    assert Connect(s.link, s.peers.service, s.ctl.networkStandby, c).1;
  }

  /** Configure(nullptr) leaves nothing that could call back: no manager, no instance, no retry, no subscription.
      The caches are untouched, so a later activation replays them. */
  lemma TeardownComplete(run: seq<State>, events: seq<Event>, n: nat)
    requires IsRun(run, events) && n < |events| && events[n].EvConfigureNull? && run[n].peers.service
    ensures var t := run[n + 1];
            && !t.link.hasManager && !t.link.manager.handle && t.link.timer == None && !t.link.netSubscribed
            && t.peers == NO_PEERS.(service := true)
            && t.cache == run[n].cache && t.ctl.friendlyName == run[n].ctl.friendlyName
  {
    Reachable(run, events, n);
    ShutdownKeeps(run[n].link);
  }

  /** An object that has not been activated yet: nothing can fire, notify or restart. */
  ghost predicate Dormant(s: State) {
    !s.peers.service ==> s.link.timer == None && !s.link.netSubscribed && s.powerWorkers == 0
  }

  lemma DormantLink(s: State, e: Event)
    requires Enabled(s, e) && Dormant(s) && ConcernsLink(e)
    ensures Dormant(s.(link := LinkStep(s, e)))
  {}

  lemma DormantStep(s: State, e: Event)
    requires Subscribed(s.peers) && Enabled(s, e) && Dormant(s)
    ensures Dormant(Step(s, e))
  {
    if ConcernsLink(e) {
      LinkOnly(s, e);
      DormantLink(s, e);
    }
  }

  lemma {:induction false} DormantThroughout(run: seq<State>, events: seq<Event>, n: nat)
    requires IsRun(run, events) && n < |run|
    ensures Dormant(run[n])
  {
    if n > 0 {
      DormantThroughout(run, events, n - 1);
      Reachable(run, events, n - 1);
      assert Enabled(run[n - 1], events[n - 1]);
      DormantStep(run[n - 1], events[n - 1]);
    }
  }

  /** In any run, an accepted Configure(service) leaves the manager with a retry or an instance exactly when it finds
      no manager, for which it arms the first retry, or one that still has its instance. */
  lemma ActivationArmsRetry(run: seq<State>, events: seq<Event>, n: nat)
    requires IsRun(run, events) && n < |events| && events[n].EvConfigureService? && !run[n].peers.service
    ensures run[n + 1].link.hasManager && run[n + 1].peers.service
    ensures run[n + 1].link == if run[n].link.hasManager then run[n].link
                               else run[n].link.(hasManager := true, timer := Some(FIRST_TIMEOUT))
    ensures RetryArmed(run[n + 1]) <==> !run[n].link.hasManager || run[n].link.manager.handle
  {
    DormantThroughout(run, events, n);
  }

  /** Replacing the object and activating the new one: the retry is there afterwards exactly when the old one left
      no manager behind, or one that still has its instance. */
  lemma ReplacementExact(s: State, v: Services)
    requires Inv(s) && s.powerWorkers == 0 && s.nameWorkers == 0 && s.standbyWorkers == 0
    ensures Enabled(s, EvRecreate) && !Recreate(s).peers.service
    ensures RetryArmed(ConfigureService(Recreate(s), v)) <==> !s.link.hasManager || s.link.manager.handle
  {}

  /** Deep sleep, wake-up and Configure(nullptr) before the worker of the wake-up has run. */
  function TornDownAsleep(s: State): State
    requires s.powerWorkers == 0
  {
    ConfigureNull(PowerModeChanged(PowerWorker(PowerModeChanged(s, PowerDeepSleep)), PowerOn))
  }

  lemma SleepObserved(s: State)
    requires s.powerWorkers == 0
    ensures var t := PowerWorker(PowerModeChanged(s, PowerDeepSleep));
            && t.ctl.restartReq && t.peers == s.peers && SameRetry(s.link, t.link)
            && t.powerWorkers == 0 && t.nameWorkers == s.nameWorkers && t.standbyWorkers == s.standbyWorkers
  {}

  lemma TeardownLeavesWorker(s: State)
    requires s.peers.service && s.powerWorkers == 0
    requires s.link.manager.handle ==> s.link.hasManager
    ensures var t := TornDownAsleep(s);
            && Restarts(t.ctl) && !t.link.hasManager && !t.link.manager.handle
            && t.powerWorkers == 1 && t.nameWorkers == s.nameWorkers && t.standbyWorkers == s.standbyWorkers
  {
    SleepObserved(s);
  }

  /** How a manager without a retry is left behind, from any active state without pending workers: the worker restarts
      after the teardown, because the wait for workers gave up. It brings the manager back with a timer that goes with
      its object, and the next activation finds a manager and arms nothing. */
  lemma LateRestartLosesRetry(s: State, v: Services)
    requires Inv(s) && s.peers.service && s.peers.powerRegistered
    requires s.powerWorkers == 0 && s.nameWorkers == 0 && s.standbyWorkers == 0
    ensures var s1 := PowerModeChanged(s, PowerDeepSleep);
            && Enabled(s, EvPower(PowerDeepSleep)) && Enabled(s1, EvPowerWorker)
            && Enabled(PowerWorker(s1), EvPower(PowerOn))
    ensures var t := TornDownAsleep(s);
            && Enabled(t, EvPowerWorker)
            && (var u := PowerWorker(t);
                && RetryArmed(u) && Enabled(u, EvRecreate) && LosesRetry(u, EvRecreate)
                && (var next := ConfigureService(Recreate(u), v);
                    !RetryArmed(next) && !next.link.netSubscribed))
  {
    SleepObserved(s);
    TeardownLeavesWorker(s);
  }

  // ----- which network notifications cost the instance -----

  /** A change of the active interface destroys the instance exactly when the new one is wlan0 or eth0 and not the one
      the instance was launched on. */
  lemma InterfaceChangeExact(run: seq<State>, events: seq<Event>, n: nat)
    requires IsRun(run, events) && n < |events| && run[n].link.manager.handle && events[n].EvInterface?
    ensures Observe(run[n].link.manager.calls).Some?
    ensures var launched, now := Observe(run[n].link.manager.calls).value.iface, events[n].iface;
            !run[n + 1].link.manager.handle <==> (now == "wlan0" || now == "eth0") && now != launched
  {
    Reachable(run, events, n);
  }

  /** An address notification destroys it exactly when an IPv4 address was acquired on wlan0 or eth0,
      even on the interface the instance runs on. */
  lemma AddressChangeExact(run: seq<State>, events: seq<Event>, n: nat)
    requires IsRun(run, events) && n < |events| && run[n].link.manager.handle && events[n].EvAddress?
    ensures var e := events[n];
            !run[n + 1].link.manager.handle <==>
            e.version == "IPv4" && e.acquired && e.ip != "" && (e.iface == "wlan0" || e.iface == "eth0")
  {
    Reachable(run, events, n);
  }

  // ----- the single instance and its names, over runs -----

  /** Creations minus destructions is 0 or 1, is 1 exactly when the handle is non-null, and every call but a creation
      reaches a living instance. */
  lemma SingleInstance(run: seq<State>, events: seq<Event>, n: nat)
    requires IsRun(run, events) && n < |run|
    ensures var m := run[n].link.manager;
            && Legal(m.calls)
            && Creations(m.calls) - Destructions(m.calls) == if m.handle then 1 else 0
  {
    Reachable(run, events, n);
    InstancesConserved(run[n].link.manager.calls);
  }

  /** An instance was last told the stored model and manufacturer; every launch passed the same default friendly name;
      once a launch passed a receiver id every later one passed the same. */
  lemma NamesSurviveReconnects(run: seq<State>, events: seq<Event>, n: nat)
    requires IsRun(run, events) && n < |run|
    ensures var m := run[n].link.manager;
            && (m.handle ==> Observe(m.calls).Some? && Observe(m.calls).value.model == m.model
                             && Observe(m.calls).value.manufacturer == m.manufacturer)
            && (forall i, j :: 0 <= i < j < |m.calls| && m.calls[i].Create? && m.calls[j].Create? ==>
                  && m.calls[j].launch.friendlyName == m.calls[i].launch.friendlyName != ""
                  && (m.calls[i].launch.uuid != "" ==> m.calls[j].launch.uuid == m.calls[i].launch.uuid))
  {
    Reachable(run, events, n);
  }
}
