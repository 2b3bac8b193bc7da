/** Which receiver id and which default friendly name all launches share: the first ones that were settled. */
module Identity {
  import opened Options
  import opened AppCacheSpec
  import opened ManagerSpec
  import opened PluginSpec

  /** A firing that gets as far as settling the names. */
  predicate SettlesNames(s: State, e: Event) {
    e.EvTimer? && ReachesGdial(s, e.connection) && e.connection.env.rfc.xdial
  }

  /** A firing that settles the names and is given a receiver id. */
  predicate GivesReceiverId(s: State, e: Event) {
    SettlesNames(s, e) && e.connection.env.receiverId != ""
  }

  predicate SameIdentity(m: Manager, t: Manager) {
    t.uuid == m.uuid && t.defaultName == m.defaultName && t.defaultAppList == m.defaultAppList
  }

  lemma LaunchIdentity(m: Manager, iface: string, standby: bool, env: Environment)
    requires iface != ""
    ensures var t := Initialized(m, iface, standby, env).0;
            if env.rfc.xdial then
              && t.uuid == (if m.uuid == "" then env.receiverId else m.uuid)
              && t.defaultName == (if m.defaultName == "" then t.model + "_" + t.manufacturer else m.defaultName)
              && t.defaultAppList == (if env.rfc.appList.Some? then env.rfc.appList.value else m.defaultAppList)
            else t == m
  {}

  lemma ReplaySameNames(l: Link, k: Caches)
    ensures var m, t := l.manager, Replay(l, k).manager;
            SameIdentity(m, t) && t.model == m.model && t.manufacturer == m.manufacturer
  {}

  lemma FiringIdentity(s: State, c: Connection)
    ensures var m, t := s.link.manager, TimerFires(s, c).link.manager;
            if SettlesNames(s, EvTimer(c)) then
              && t.uuid == (if m.uuid == "" then c.env.receiverId else m.uuid)
              && t.defaultName == (if m.defaultName == "" then t.model + "_" + t.manufacturer else m.defaultName)
              && t.defaultAppList == (if c.env.rfc.appList.Some? then c.env.rfc.appList.value else m.defaultAppList)
            else SameIdentity(m, t)
  {
    var l := Connect(s.link, s.peers.service, s.ctl.networkStandby, c).0;
    ReplaySameNames(l.(timer := None), s.cache);
    if ReachesGdial(s, c) {
      LaunchIdentity(s.link.manager, c.iface, s.ctl.networkStandby, c.env);
      assert l.manager == Initialized(s.link.manager, c.iface, s.ctl.networkStandby, c.env).0;
    } else {
      assert l.manager == s.link.manager;
    }
  }

  lemma PushSameIdentity(s: State)
    ensures SameIdentity(s.link.manager, PushEffective(s).link.manager)
    ensures SameIdentity(s.link.manager, PushStandby(s).link.manager)
  {}

  lemma SetEnabledSameIdentity(s: State, on: bool, read: Reading, registered: bool)
    ensures SameIdentity(s.link.manager, SetEnabled(s, on, read, registered).link.manager)
  {
    var t := LateRegistration(s.(ctl := s.ctl.(enabled := on)), on, read, registered);
    PushSameIdentity(t);
    PushSameIdentity(PushEffective(t));
  }

  lemma WorkerSameIdentity(s: State)
    requires s.powerWorkers > 0
    ensures SameIdentity(s.link.manager, PowerWorker(s).link.manager)
  {}

  lemma AppsSameIdentity(s: State, apps: Option<seq<AppConfig>>)
    ensures SameIdentity(s.link.manager, WithUpdate(s, apps).link.manager)
  {}

  lemma LinkSameIdentity(s: State, e: Event)
    ensures SameIdentity(s.link.manager, LinkStep(s, e).manager)
  {}

  lemma OthersSameIdentity(s: State, e: Event)
    requires Enabled(s, e) && !e.EvTimer?
    ensures SameIdentity(s.link.manager, Step(s, e).link.manager)
  {
    match e
    case EvRegister(batch, mallocs) => AppsSameIdentity(s, Update(s.cache.apps, batch, mallocs));
    case EvUnregister(names) => AppsSameIdentity(s, Delete(s.cache.apps, names));
    case EvPowerWorker => WorkerSameIdentity(s);
    case EvNameWorker => PushSameIdentity(s.(nameWorkers := s.nameWorkers - 1));
    case EvStandbyWorker => PushSameIdentity(s.(standbyWorkers := s.standbyWorkers - 1));
    case EvSetEnabled(on, read, registered) => SetEnabledSameIdentity(s, on, read, registered);
    case EvSetFriendlyName(name) => PushSameIdentity(s.(ctl := s.ctl.(friendlyName := name)));
    case EvConfigureService(v) =>
    case EvConfigureNull =>
    case EvRecreate =>
    case EvPower(p) =>
    case EvName(name) =>
    case EvNetworkStandby(mode) =>
    case EvSetStandby(active) =>
    case _ => LinkSameIdentity(s, e);
  }

  lemma IdentityStep(s: State, e: Event)
    requires Enabled(s, e)
    ensures if e.EvTimer? then s.link.timer.Some? && Step(s, e) == TimerFires(s, e.connection)
            else SameIdentity(s.link.manager, Step(s, e).link.manager)
  {
    if !e.EvTimer? { OthersSameIdentity(s, e); }
  }

  /** A firing that settles the names and is answered a list of applications by the RFC. */
  predicate GivesAppList(s: State, e: Event) {
    SettlesNames(s, e) && e.connection.env.rfc.appList.Some?
  }

  /** The receiver id every launch is given is the first one a settling firing was answered, for good. */
  lemma {:induction false} ReceiverIdIsFirstAnswer(run: seq<State>, events: seq<Event>, n: nat)
    requires IsRun(run, events) && n < |run|
    ensures run[n].link.manager.uuid == "" <==> forall k :: 0 <= k < n ==> !GivesReceiverId(run[k], events[k])
    ensures forall k :: 0 <= k < n && GivesReceiverId(run[k], events[k])
                        && (forall j :: 0 <= j < k ==> !GivesReceiverId(run[j], events[j])) ==>
              run[n].link.manager.uuid == events[k].connection.env.receiverId
  {
    if n > 0 {
      ReceiverIdIsFirstAnswer(run, events, n - 1);
      var s, e := run[n - 1], events[n - 1];
      assert Enabled(s, e) && run[n] == Step(s, e);
      IdentityStep(s, e);
      if e.EvTimer? { FiringIdentity(s, e.connection); }
    }
  }

  /** The default friendly name is built from the model and manufacturer stored when a firing first settled the names;
      later model and manufacturer names do not change it. */
  lemma {:induction false} DefaultNameIsFirstSettled(run: seq<State>, events: seq<Event>, n: nat)
    requires IsRun(run, events) && n < |run|
    ensures run[n].link.manager.defaultName == "" <==> forall k :: 0 <= k < n ==> !SettlesNames(run[k], events[k])
    ensures forall k :: 0 <= k < n && SettlesNames(run[k], events[k])
                        && (forall j :: 0 <= j < k ==> !SettlesNames(run[j], events[j])) ==>
              var m := run[k + 1].link.manager; run[n].link.manager.defaultName == m.model + "_" + m.manufacturer
  {
    if n > 0 {
      DefaultNameIsFirstSettled(run, events, n - 1);
      var s, e := run[n - 1], events[n - 1];
      assert Enabled(s, e) && run[n] == Step(s, e);
      IdentityStep(s, e);
      if e.EvTimer? { FiringIdentity(s, e.connection); }
    }
  }

  ghost predicate NoListAnswered(run: seq<State>, events: seq<Event>, i: nat, n: nat)
    requires n <= |events| < |run|
  {
    forall j :: i <= j < n ==> !GivesAppList(run[j], events[j])
  }

  lemma AppListStep(s: State, e: Event)
    requires Enabled(s, e)
    ensures Step(s, e).link.manager.defaultAppList ==
            if GivesAppList(s, e) then e.connection.env.rfc.appList.value else s.link.manager.defaultAppList
  {
    IdentityStep(s, e);
    if e.EvTimer? { FiringIdentity(s, e.connection); }
  }

  lemma {:induction false} AppListKept(run: seq<State>, events: seq<Event>, i: nat, n: nat)
    requires IsRun(run, events) && i <= n < |run| && NoListAnswered(run, events, i, n)
    ensures run[n].link.manager.defaultAppList == run[i].link.manager.defaultAppList
    decreases n - i
  {
    if i < n {
      var s, e := run[i], events[i];
      assert Enabled(s, e) && run[i + 1] == Step(s, e);
      AppListStep(s, e);
      AppListKept(run, events, i + 1, n);
    }
  }

  /** The application list that launches pass is the last one the RFC answered to a settling firing, or empty if it
      never answered one. */
  lemma AppListIsLastAnswer(run: seq<State>, events: seq<Event>, n: nat)
    requires IsRun(run, events) && n < |run|
    ensures NoListAnswered(run, events, 0, n) ==> run[n].link.manager.defaultAppList == ""
    ensures forall k :: 0 <= k < n && GivesAppList(run[k], events[k]) && NoListAnswered(run, events, k + 1, n) ==>
              run[n].link.manager.defaultAppList == events[k].connection.env.rfc.appList.value
  {
    if NoListAnswered(run, events, 0, n) { AppListKept(run, events, 0, n); }
    forall k | 0 <= k < n && GivesAppList(run[k], events[k]) && NoListAnswered(run, events, k + 1, n)
      ensures run[n].link.manager.defaultAppList == events[k].connection.env.rfc.appList.value
    {
      var s, e := run[k], events[k];
      assert Enabled(s, e) && run[k + 1] == Step(s, e);
      AppListStep(s, e);
      AppListKept(run, events, k + 1, n);
    }
  }
}
