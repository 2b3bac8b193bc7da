/** What is pushed against what the settings say: detached workers re-read the shared power state, so the pushed
    value settles whatever the order they run in. */
module Convergence {
  import opened Options
  import opened PluginSpec
  import opened PluginInvariants

  /** The last pushed activation and name are the ones the settings ask for. */
  ghost predicate Agrees(s: State) {
    s.cache.enable == Effective(s.ctl) && s.cache.name == s.ctl.friendlyName
  }

  ghost predicate NoWorkers(s: State) { s.powerWorkers == 0 && s.nameWorkers == 0 }

  /** Pushes the effective value and the current name at once. A power worker does unless standby is on when it gets
      to its push, which a restart has just set to its default. */
  predicate Settles(s: State, e: Event) {
    match e
    case EvSetEnabled(_, _, _) => true
    case EvSetFriendlyName(name) => name != ""
    case EvRegister(_, _) => true
    case EvUnregister(_) => true
    case EvNameWorker => true
    case EvPowerWorker => !(if Restarts(s.ctl) then s.ctl.defaults.standby else s.ctl.standby)
    case _ => false
  }

  /** Leaves values that neither were pushed nor will be by a pending worker. A pending power worker pushes only while
      standby is off; Configure reads the power state and the name, or resets the settings, without a push. */
  predicate Disturbs(s: State, e: Event) {
    var c, d := s.ctl, s.ctl.defaults;
    match e
    case EvSetStandby(Some(b)) =>
      b != c.standby &&
      if b then s.cache.enable != c.enabled else s.powerWorkers == 0 && c.enabled && c.power != PowerOn
    case EvPowerWorker => Restarts(c) && d.standby && s.cache.enable != d.enabled
    case EvConfigureService(v) =>
      !s.peers.service &&
      (|| (s.powerWorkers == 0 && c.enabled && !c.standby && v.powerOk && v.powerRead.power.Some?
           && (v.powerRead.power.value == PowerOn) != (c.power == PowerOn))
       || (s.nameWorkers == 0 && v.systemOk && v.nameRead.Some? && v.nameRead.value != c.friendlyName))
    case EvConfigureNull =>
      && s.peers.service && (s.powerWorkers == 0 || d.standby)
      && s.cache.enable != (d.enabled && (d.standby || c.power == PowerOn))
    case _ => false
  }

  /** Some push settled the values and nothing disturbed them since. */
  ghost predicate Settled(run: seq<State>, events: seq<Event>, n: nat)
    requires n <= |events| < |run|
  {
    && n > 0
    && (|| Settles(run[n - 1], events[n - 1])
        || (Settled(run, events, n - 1) && !Disturbs(run[n - 1], events[n - 1])))
  }

  /** Agreement up to what the pending workers will still push. */
  ghost predicate AgreesUpToWorkers(s: State) {
    && (s.nameWorkers == 0 ==> s.cache.name == s.ctl.friendlyName)
    && (s.powerWorkers == 0 || s.ctl.standby ==> s.cache.enable == Effective(s.ctl))
  }

  lemma StepSettles(s: State, e: Event)
    requires Enabled(s, e) && Settles(s, e)
    ensures Agrees(Step(s, e))
  {}

  lemma WorkerPushes(s: State)
    requires s.powerWorkers > 0 && !PowerWorker(s).ctl.standby
    ensures Agrees(PowerWorker(s))
  {}

  lemma WorkerAgreesExact(s: State)
    requires s.powerWorkers > 0 && AgreesUpToWorkers(s)
    ensures AgreesUpToWorkers(PowerWorker(s)) <==> !Disturbs(s, EvPowerWorker)
  {}

  lemma ConfigureAgreesExact(s: State, v: Services)
    requires Subscribed(s.peers) && AgreesUpToWorkers(s)
    ensures AgreesUpToWorkers(ConfigureService(s, v)) <==> !Disturbs(s, EvConfigureService(v))
    ensures AgreesUpToWorkers(ConfigureNull(s)) <==> !Disturbs(s, EvConfigureNull)
  {}

  /** An event keeps agreement up to the pending workers if and only if it is not one of the disturbing ones. */
  lemma StepKeepsAgreementIff(s: State, e: Event)
    requires Subscribed(s.peers) && Enabled(s, e) && AgreesUpToWorkers(s)
    ensures AgreesUpToWorkers(Step(s, e)) <==> !Disturbs(s, e)
  {
    if Settles(s, e) {
      StepSettles(s, e);
    } else if ConcernsLink(e) {
      LinkOnly(s, e);
    } else {
      match e
      case EvPowerWorker => WorkerAgreesExact(s);
      case EvConfigureService(v) => ConfigureAgreesExact(s, v);
      case EvConfigureNull => ConfigureAgreesExact(s, NO_SERVICES);
      case EvSetStandby(active) =>
      case EvPower(p) =>
      case EvName(name) =>
      case EvSetFriendlyName(name) =>
      case _ =>
    }
  }

  lemma {:induction false} SettledAgrees(run: seq<State>, events: seq<Event>, n: nat)
    requires IsRun(run, events) && n < |run| && Settled(run, events, n)
    ensures AgreesUpToWorkers(run[n])
  {
    assert Enabled(run[n - 1], events[n - 1]);
    if Settles(run[n - 1], events[n - 1]) {
      StepSettles(run[n - 1], events[n - 1]);
    } else {
      SettledAgrees(run, events, n - 1);
      Reachable(run, events, n - 1);
      StepKeepsAgreementIff(run[n - 1], events[n - 1]);
    }
  }

  /** Enable convergence: once settled, a state with no pending worker has pushed the effective value and the current
      name, whatever happened in between, in whatever order the workers ran and whatever the defaults are. */
  lemma EnableConvergence(run: seq<State>, events: seq<Event>, n: nat)
    requires IsRun(run, events) && n < |run| && Settled(run, events, n) && NoWorkers(run[n])
    ensures Agrees(run[n])
    ensures var c, k := run[n].ctl, run[n].cache;
            (k.enable <==> c.enabled && (c.standby || c.power == PowerOn)) && k.name == c.friendlyName
  {
    SettledAgrees(run, events, n);
  }

  // ----- confluence of the workers -----

  predicate WorkerEvent(e: Event) { e.EvPowerWorker? || e.EvNameWorker? }

  /** `run` executes `schedule` from `s`, workers only, until none is left. */
  ghost predicate Drains(s: State, run: seq<State>, schedule: seq<Event>) {
    && |run| == |schedule| + 1 && run[0] == s
    && (forall i :: 0 <= i < |schedule| ==>
          WorkerEvent(schedule[i]) && Enabled(run[i], schedule[i]) && run[i + 1] == Step(run[i], schedule[i]))
    && NoWorkers(run[|schedule|])
  }

  /** The settings that every complete schedule ends with. */
  function SettingsAfter(s: State): Control {
    if s.powerWorkers == 0 then s.ctl
    else if Restarts(s.ctl) then ResetSettings(s.ctl).(restartReq := false)
    else if s.ctl.power == PowerDeepSleep then s.ctl.(restartReq := true)
    else s.ctl
  }

  /** Some pending worker pushes: every name worker does, a power worker where standby ends up off. */
  predicate SomeWorkerPushes(s: State) {
    s.nameWorkers > 0 || (s.powerWorkers > 0 && !SettingsAfter(s).standby)
  }

  /** The cached values that every complete schedule ends with. */
  function PushedAfter(s: State): Caches {
    if SomeWorkerPushes(s) then s.cache.(enable := Effective(SettingsAfter(s)), name := s.ctl.friendlyName) else s.cache
  }

  /** A restart is pending that turns standby on and changes the enable setting, and a name worker may push
      before it or after it. */
  predicate OrderMatters(s: State) {
    && s.powerWorkers > 0 && s.nameWorkers > 0 && Restarts(s.ctl)
    && s.ctl.defaults.standby && s.ctl.enabled != s.ctl.defaults.enabled
  }

  lemma OneWorker(s: State, e: Event)
    requires WorkerEvent(e) && Enabled(s, e) && !OrderMatters(s)
    ensures var t := Step(s, e);
            !OrderMatters(t) && SettingsAfter(t) == SettingsAfter(s) && PushedAfter(t) == PushedAfter(s)
  {}

  lemma DrainsTail(s: State, run: seq<State>, schedule: seq<Event>)
    requires Drains(s, run, schedule) && schedule != []
    ensures Drains(run[1], run[1..], schedule[1..])
  {}

  /** Every complete schedule of the pending workers ends with the same settings and the same pushed values. */
  lemma {:induction false} AnyOrderSameOutcome(s: State, run: seq<State>, schedule: seq<Event>)
    requires Drains(s, run, schedule) && !OrderMatters(s)
    ensures run[|schedule|].ctl == SettingsAfter(s) && run[|schedule|].cache == PushedAfter(s)
    decreases |schedule|
  {
    if schedule != [] {
      OneWorker(s, schedule[0]);
      DrainsTail(s, run, schedule);
      AnyOrderSameOutcome(run[1], run[1..], schedule[1..]);
    }
  }

  lemma DrainsCons(s: State, e: Event, run: seq<State>, schedule: seq<Event>)
    requires WorkerEvent(e) && Enabled(s, e) && Drains(Step(s, e), run, schedule)
    ensures Drains(s, [s] + run, [e] + schedule)
    ensures ([s] + run)[|schedule| + 1] == run[|schedule|]
  {
    var r, q := [s] + run, [e] + schedule;
    forall i | 0 <= i < |q| ensures WorkerEvent(q[i]) && Enabled(r[i], q[i]) && r[i + 1] == Step(r[i], q[i]) {
      if i > 0 {
        assert r[i] == run[i - 1] && q[i] == schedule[i - 1] && r[i + 1] == run[i];
      }
    }
  }

  /** The workers can always be run to the end. */
  lemma {:induction false} SomeScheduleDrains(s: State) returns (run: seq<State>, schedule: seq<Event>)
    ensures Drains(s, run, schedule)
    decreases s.powerWorkers + s.nameWorkers
  {
    if NoWorkers(s) {
      run, schedule := [s], [];
    } else {
      var e := if s.powerWorkers > 0 then EvPowerWorker else EvNameWorker;
      var r, q := SomeScheduleDrains(Step(s, e));
      DrainsCons(s, e, r, q);
      run, schedule := [s] + r, [e] + q;
    }
  }

  /** The restart first: what is pushed last is the default setting. */
  lemma RestartFirst(s: State) returns (run: seq<State>, schedule: seq<Event>)
    requires OrderMatters(s)
    ensures Drains(s, run, schedule) && run[|schedule|].cache.enable == s.ctl.defaults.enabled
  {
    var t := PowerWorker(s);
    var r, q := SomeScheduleDrains(t);
    AnyOrderSameOutcome(t, r, q);
    DrainsCons(s, EvPowerWorker, r, q);
    run, schedule := [s] + r, [EvPowerWorker] + q;
  }

  /** The name workers first: what is pushed last is the setting that the restart then resets. */
  lemma {:induction false} NamesFirst(s: State) returns (run: seq<State>, schedule: seq<Event>)
    requires OrderMatters(s)
    ensures Drains(s, run, schedule)
    ensures run[|schedule|].cache.enable == s.ctl.enabled && run[|schedule|].ctl == SettingsAfter(s)
    decreases s.nameWorkers
  {
    var t := NameWorker(s);
    var r, q;
    if t.nameWorkers > 0 {
      r, q := NamesFirst(t);
    } else {
      r, q := SomeScheduleDrains(t);
      AnyOrderSameOutcome(t, r, q);
    }
    DrainsCons(s, EvNameWorker, r, q);
    run, schedule := [s] + r, [EvNameWorker] + q;
  }

  ghost predicate SameOutcome(s: State, t: State) { s.ctl == t.ctl && s.cache == t.cache }

  /** Any two complete schedules end alike, if and only if no pending restart makes their order matter. */
  lemma OutcomeUniqueIff(s: State)
    ensures (forall r, q, r', q' :: Drains(s, r, q) && Drains(s, r', q') ==> SameOutcome(r[|q|], r'[|q'|]))
            <==> !OrderMatters(s)
  {
    if OrderMatters(s) {
      var r, q := RestartFirst(s);
      var r', q' := NamesFirst(s);
      assert !SameOutcome(r[|q|], r'[|q'|]);
    } else {
      forall r, q, r', q' | Drains(s, r, q) && Drains(s, r', q') ensures SameOutcome(r[|q|], r'[|q'|]) {
        AnyOrderSameOutcome(s, r, q);
        AnyOrderSameOutcome(s, r', q');
      }
    }
  }

  // ----- when the workers leave the right values -----

  predicate NameWorkerIn(schedule: seq<Event>) { exists i :: 0 <= i < |schedule| && schedule[i].EvNameWorker? }

  /** Some name worker runs after some power worker. */
  predicate NameAfterPower(schedule: seq<Event>) {
    exists i, j :: 0 <= i < j < |schedule| && schedule[i].EvPowerWorker? && schedule[j].EvNameWorker?
  }

  lemma NameAfterPowerCons(e: Event, schedule: seq<Event>)
    ensures NameWorkerIn([e] + schedule) <==> e.EvNameWorker? || NameWorkerIn(schedule)
    ensures NameAfterPower([e] + schedule) <==> (e.EvPowerWorker? && NameWorkerIn(schedule)) || NameAfterPower(schedule)
  {
    var all := [e] + schedule;
    assert all[0] == e && forall k :: 0 < k < |all| ==> all[k] == schedule[k - 1];
    if NameWorkerIn(schedule) {
      var k :| 0 <= k < |schedule| && schedule[k].EvNameWorker?;
      assert all[k + 1].EvNameWorker?;
    }
    if NameAfterPower(schedule) {
      var i, j :| 0 <= i < j < |schedule| && schedule[i].EvPowerWorker? && schedule[j].EvNameWorker?;
      assert all[i + 1].EvPowerWorker? && all[j + 1].EvNameWorker?;
    }
    if NameAfterPower(all) {
      var i, j :| 0 <= i < j < |all| && all[i].EvPowerWorker? && all[j].EvNameWorker?;
      assert schedule[j - 1].EvNameWorker?;
      assert i > 0 ==> schedule[i - 1].EvPowerWorker?;
    }
  }

  /** A complete schedule contains a name worker exactly when one is pending. */
  lemma {:induction false} NameWorkersRun(s: State, run: seq<State>, schedule: seq<Event>)
    requires Drains(s, run, schedule)
    ensures NameWorkerIn(schedule) <==> s.nameWorkers > 0
    decreases |schedule|
  {
    if schedule != [] {
      DrainsTail(s, run, schedule);
      NameWorkersRun(run[1], run[1..], schedule[1..]);
      NameAfterPowerCons(schedule[0], schedule[1..]);
      assert schedule == [schedule[0]] + schedule[1..];
      WorkerCounts(s, schedule[0]);
    }
  }

  lemma WorkerCounts(s: State, e: Event)
    requires WorkerEvent(e) && Enabled(s, e)
    ensures Step(s, e).powerWorkers == s.powerWorkers - if e.EvPowerWorker? then 1 else 0
    ensures Step(s, e).nameWorkers == s.nameWorkers - if e.EvNameWorker? then 1 else 0
  {}

  lemma NameAfterPowerSplit(s: State, run: seq<State>, schedule: seq<Event>)
    requires Drains(s, run, schedule) && schedule != []
    ensures Drains(run[1], run[1..], schedule[1..])
    ensures NameAfterPower(schedule) <==>
            if schedule[0].EvPowerWorker? then run[1].nameWorkers > 0 else NameAfterPower(schedule[1..])
    ensures run[1].nameWorkers == 0 ==> !NameAfterPower(schedule[1..])
  {
    DrainsTail(s, run, schedule);
    NameAfterPowerCons(schedule[0], schedule[1..]);
    assert schedule == [schedule[0]] + schedule[1..];
    NameWorkersRun(run[1], run[1..], schedule[1..]);
  }

  /** The values are right after the workers when one of them pushes or they are right for the settings then. */
  predicate RightAfter(s: State) {
    SomeWorkerPushes(s) || (s.cache.enable == Effective(SettingsAfter(s)) && s.cache.name == s.ctl.friendlyName)
  }

  /** The restart that makes the order matter: what a name worker pushes next is right, and without one the values
      are right exactly if they were for the new settings. */
  lemma RestartWorker(s: State)
    requires OrderMatters(s)
    ensures var t := PowerWorker(s); !OrderMatters(t) && RightAfter(t) && t.nameWorkers > 0
  {}

  lemma NameBeforeRestart(s: State)
    requires OrderMatters(s)
    ensures var t := NameWorker(s); if t.nameWorkers > 0 then OrderMatters(t) else !OrderMatters(t) && !RightAfter(t)
  {}

  /** Where the order matters, the values end up right if and only if a name worker runs after a power worker. */
  lemma {:induction false} OrderedDrainAgreesIff(s: State, run: seq<State>, schedule: seq<Event>)
    requires Drains(s, run, schedule) && OrderMatters(s)
    ensures Agrees(run[|schedule|]) <==> NameAfterPower(schedule)
    decreases |schedule|
  {
    var t, r, q := run[1], run[1..], schedule[1..];
    NameAfterPowerSplit(s, run, schedule);
    if schedule[0].EvPowerWorker? {
      RestartWorker(s);
      AnyOrderSameOutcome(t, r, q);
    } else {
      NameBeforeRestart(s);
      if t.nameWorkers > 0 {
        OrderedDrainAgreesIff(t, r, q);
      } else {
        AnyOrderSameOutcome(t, r, q);
      }
    }
  }

  /** Running the pending workers to the end makes the pushed values right exactly when: a name worker comes after
      a power worker, where the order matters; some worker pushes or they were right for the settled settings,
      elsewhere. */
  lemma DrainedAgreesIff(s: State, run: seq<State>, schedule: seq<Event>)
    requires Drains(s, run, schedule)
    ensures Agrees(run[|schedule|]) <==> if OrderMatters(s) then NameAfterPower(schedule) else RightAfter(s)
  {
    if OrderMatters(s) {
      OrderedDrainAgreesIff(s, run, schedule);
    } else {
      AnyOrderSameOutcome(s, run, schedule);
    }
  }

  /** Every way to run the workers to the end makes the pushed values right, if and only if the order does not matter
      and some worker pushes or they were right for the settled settings. */
  lemma EveryDrainAgreesIff(s: State)
    ensures (forall r, q :: Drains(s, r, q) ==> Agrees(r[|q|])) <==> !OrderMatters(s) && RightAfter(s)
  {
    if OrderMatters(s) {
      var r, q := NamesFirst(s);
      assert !Agrees(r[|q|]);
    } else {
      var r, q := SomeScheduleDrains(s);
      DrainedAgreesIff(s, r, q);
      forall r, q | Drains(s, r, q) ensures Agrees(r[|q|]) <==> RightAfter(s) {
        DrainedAgreesIff(s, r, q);
      }
    }
  }

  // ----- where the code narrows it: exactly when -----

  /** SetStandbyBehavior pushes nothing: agreement survives exactly when the change does not matter now. */
  lemma StandbyChangeExact(s: State, b: bool)
    requires Agrees(s)
    ensures Agrees(SetStandbyBehavior(s, Some(b))) <==> b == s.ctl.standby || !s.ctl.enabled || s.ctl.power == PowerOn
  {}

  /** Configure(nullptr) resets the settings and not the caches: agreement survives exactly when the defaults
      are as effective as the settings were. */
  lemma ConfigureNullExact(s: State)
    requires Agrees(s) && s.peers.service
    ensures Agrees(ConfigureNull(s)) <==>
            Effective(s.ctl) == (s.ctl.defaults.enabled && (s.ctl.defaults.standby || s.ctl.power == PowerOn))
  {}

  /** Configure(service) reads power and name without a push: exactly when the readings leave both as they were. */
  lemma ConfigureServiceExact(s: State, v: Services)
    requires Agrees(s) && !s.peers.service && !s.peers.systemPlugin
    ensures Agrees(ConfigureService(s, v)) <==>
            && (s.ctl.enabled && !s.ctl.standby && v.powerOk && v.powerRead.power.Some? ==>
                  (v.powerRead.power.value == PowerOn <==> s.ctl.power == PowerOn))
            && (v.systemOk && v.nameRead.Some? ==> v.nameRead.value == s.ctl.friendlyName)
  {}

  /** A restart resets the settings; with standby on by default the worker then pushes nothing, so the pushed
      activation is right exactly when standby is off by default or the cache already held the default. */
  lemma RestartExact(s: State)
    requires s.powerWorkers > 0 && Restarts(s.ctl)
    ensures PowerWorker(s).cache.enable == Effective(PowerWorker(s).ctl) <==>
            !s.ctl.defaults.standby || s.cache.enable == s.ctl.defaults.enabled
  {}

  /** Turning standby on while a power worker is pending silences it. Once the workers have run, the pushed values are
      right if and only if some other push came, or the value in the cache was the one standby asks for. */
  lemma StandbyOverWorkerExact(s: State, run: seq<State>, schedule: seq<Event>)
    requires AgreesUpToWorkers(s) && s.powerWorkers > 0 && !s.ctl.standby
    requires Drains(SetStandbyBehavior(s, Some(true)), run, schedule)
    ensures var d := s.ctl.defaults;
            Agrees(run[|schedule|]) <==>
            if OrderMatters(s) then NameAfterPower(schedule)
            else || s.nameWorkers > 0 || (Restarts(s.ctl) && !d.standby)
                 || s.cache.enable == if Restarts(s.ctl) then d.enabled else s.ctl.enabled
  {
    DrainedAgreesIff(SetStandbyBehavior(s, Some(true)), run, schedule);
  }

  /** A schedule in which that fails: the stale value stays with no worker left. */
  lemma StandbySilencesWorker(s: State)
    requires Agrees(s) && NoWorkers(s) && s.peers.powerRegistered
    requires s.ctl.enabled && !s.ctl.standby && s.ctl.power != PowerOn && !s.ctl.restartReq
    ensures var s1 := PowerModeChanged(s, PowerOn);
            var s2 := SetStandbyBehavior(s1, Some(true));
            var s3 := PowerWorker(s2);
            && Enabled(s, EvPower(PowerOn)) && Disturbs(s1, EvSetStandby(Some(true)))
            && NoWorkers(s3) && Effective(s3.ctl) && !s3.cache.enable
  {}
}
