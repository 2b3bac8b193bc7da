/** The restart after deep sleep, over whole runs. */
module RestartDiscipline {
  import opened Options
  import opened Gdial
  import opened PluginSpec
  import opened PluginInvariants

  /** A worker takes the restart branch. */
  predicate IsRestart(s: State, e: Event) { e.EvPowerWorker? && Restarts(s.ctl) }

  /** A worker sees deep sleep and requests a restart. */
  predicate ObservesDeepSleep(s: State, e: Event) { e.EvPowerWorker? && s.ctl.power == PowerDeepSleep }

  /** Configure(service) is accepted. */
  predicate Activates(s: State, e: Event) { e.EvConfigureService? && !s.peers.service }

  ghost function RestartCount(run: seq<State>, events: seq<Event>, n: nat): nat
    requires n <= |events| < |run|
  {
    if n == 0 then 0
    else RestartCount(run, events, n - 1) + if IsRestart(run[n - 1], events[n - 1]) then 1 else 0
  }

  ghost function DeepSleepCount(run: seq<State>, events: seq<Event>, n: nat): nat
    requires n <= |events| < |run|
  {
    if n == 0 then 0
    else DeepSleepCount(run, events, n - 1) + if ObservesDeepSleep(run[n - 1], events[n - 1]) then 1 else 0
  }

  lemma FlagStep(s: State, e: Event)
    requires Enabled(s, e)
    ensures Step(s, e).ctl.restartReq <==> ObservesDeepSleep(s, e) || (s.ctl.restartReq && !IsRestart(s, e))
  {}

  /** In every prefix restarts never exceed deep-sleep observations, and an outstanding request is paid for. */
  lemma {:induction false} RestartsArePaidFor(run: seq<State>, events: seq<Event>, n: nat)
    requires IsRun(run, events) && n < |run|
    ensures RestartCount(run, events, n) + (if run[n].ctl.restartReq then 1 else 0) <= DeepSleepCount(run, events, n)
  {
    if n > 0 {
      RestartsArePaidFor(run, events, n - 1);
      FlagStep(run[n - 1], events[n - 1]);
    }
  }

  /** An observation whose request no restart before `j` has used up. */
  ghost predicate Unspent(run: seq<State>, events: seq<Event>, k: nat, j: nat)
    requires j <= |events| < |run|
  {
    k < j && ObservesDeepSleep(run[k], events[k]) && NoRestartBetween(run, events, k, j)
  }

  ghost predicate NoRestartBetween(run: seq<State>, events: seq<Event>, k: nat, j: nat)
    requires j <= |events| < |run|
  {
    forall m :: k < m < j ==> !IsRestart(run[m], events[m])
  }

  /** The request is open exactly while some observation is unspent. */
  lemma {:induction false} RequestOpenIff(run: seq<State>, events: seq<Event>, j: nat)
    requires IsRun(run, events) && j < |run|
    ensures run[j].ctl.restartReq <==> exists k :: Unspent(run, events, k, j)
  {
    if j > 0 {
      var i := j - 1;
      RequestOpenIff(run, events, i);
      assert Enabled(run[i], events[i]);
      FlagStep(run[i], events[i]);
      if ObservesDeepSleep(run[i], events[i]) {
        assert Unspent(run, events, i, j);
      } else {
        forall k ensures Unspent(run, events, k, j) <==> Unspent(run, events, k, i) && !IsRestart(run[i], events[i]) {
          if Unspent(run, events, k, i) && !IsRestart(run[i], events[i]) {
            assert NoRestartBetween(run, events, k, j);
          }
        }
      }
    }
  }

  /** A worker that sees ON restarts if and only if some worker saw deep sleep and no restart came after that;
      so every restart has an observation of its own. */
  lemma RestartIffUnspentObservation(run: seq<State>, events: seq<Event>, j: nat)
    requires IsRun(run, events) && j < |events| && events[j].EvPowerWorker? && run[j].ctl.power == PowerOn
    ensures IsRestart(run[j], events[j]) <==> exists k :: Unspent(run, events, k, j)
    ensures forall i :: 0 <= i < j && IsRestart(run[i], events[i]) && IsRestart(run[j], events[j]) ==>
              exists k :: i < k < j && ObservesDeepSleep(run[k], events[k])
  {
    RequestOpenIff(run, events, j);
    if IsRestart(run[j], events[j]) {
      var k :| Unspent(run, events, k, j);
      forall i | 0 <= i < j && IsRestart(run[i], events[i])
        ensures exists k :: i < k < j && ObservesDeepSleep(run[k], events[k])
      {
        assert i < k;
      }
    }
  }

  // ----- which deep sleeps are noticed -----

  /** The power state stays at deep sleep from the notification `i` up to `j`. */
  ghost predicate AsleepUntil(run: seq<State>, i: nat, j: nat)
    requires j < |run|
  {
    forall m :: i < m <= j ==> run[m].ctl.power == PowerDeepSleep
  }

  ghost predicate WorkerBetween(events: seq<Event>, i: nat, j: nat)
    requires j <= |events|
  {
    exists m :: i < m < j && events[m].EvPowerWorker?
  }

  lemma {:induction false} SleepNoticedIff(run: seq<State>, events: seq<Event>, i: nat, j: nat)
    requires IsRun(run, events) && i < j < |run| && events[i] == EvPower(PowerDeepSleep) && AsleepUntil(run, i, j)
    ensures run[j].ctl.restartReq <==> run[i].ctl.restartReq || WorkerBetween(events, i, j)
    decreases j
  {
    var p := j - 1;
    assert Enabled(run[p], events[p]);
    FlagStep(run[p], events[p]);
    if i < p {
      SleepNoticedIff(run, events, i, p);
      assert WorkerBetween(events, i, j) <==> WorkerBetween(events, i, p) || events[p].EvPowerWorker?;
    }
  }

  /** Moves the restart request: a worker that sees deep sleep or restarts. */
  predicate Decides(s: State, e: Event) { ObservesDeepSleep(s, e) || IsRestart(s, e) }

  lemma RequestUnmoved(s: State, e: Event)
    requires Enabled(s, e) && !Decides(s, e)
    ensures Step(s, e).ctl.restartReq == s.ctl.restartReq
  {
    FlagStep(s, e);
  }

  ghost predicate Undecided(run: seq<State>, events: seq<Event>, j: nat, w: nat)
    requires w <= |events| < |run|
  {
    forall m :: j <= m < w ==> !Decides(run[m], events[m])
  }

  lemma {:induction false} RequestKept(run: seq<State>, events: seq<Event>, j: nat, w: nat)
    requires IsRun(run, events) && j <= w < |run| && Undecided(run, events, j, w)
    ensures run[w].ctl.restartReq <==> run[j].ctl.restartReq
    decreases w - j
  {
    if j < w {
      var s, e := run[j], events[j];
      assert Enabled(s, e) && run[j + 1] == Step(s, e);
      RequestUnmoved(s, e);
      RequestKept(run, events, j + 1, w);
    }
  }

  /** A deep sleep that is notified at `i` and lasts up to the next change at `j`: the worker `w` that decides on the
      wake-up restarts if and only if a request was open before or a worker ran while the state was deep sleep. */
  lemma WakeUpRestartsIff(run: seq<State>, events: seq<Event>, i: nat, j: nat, w: nat)
    requires IsRun(run, events) && i < j <= w < |events|
    requires events[i] == EvPower(PowerDeepSleep) && AsleepUntil(run, i, j) && Undecided(run, events, j, w)
    requires events[w].EvPowerWorker? && run[w].ctl.power == PowerOn
    ensures IsRestart(run[w], events[w]) <==> run[i].ctl.restartReq || WorkerBetween(events, i, j)
  {
    SleepNoticedIff(run, events, i, j);
    RequestKept(run, events, j, w);
  }

  /** What a restart does to the way to gdial: the old instance is destroyed if there was one, the manager is there
      again with its first retry armed, the settings are the defaults, and the caches wait for the replay. */
  lemma RestartRearms(run: seq<State>, events: seq<Event>, n: nat)
    requires IsRun(run, events) && n < |events| && IsRestart(run[n], events[n])
    ensures var s, t := run[n], run[n + 1];
            && t.link.hasManager && t.link.timer == Some(FIRST_TIMEOUT) && !t.link.manager.handle
            && t.link.manager.calls == s.link.manager.calls + (if s.link.manager.handle then [Destroy] else [])
            && t.ctl.enabled == t.ctl.defaults.enabled && t.ctl.standby == t.ctl.defaults.standby
            && t.cache.apps == s.cache.apps && t.cache.required == s.cache.required
            && (t.ctl.defaults.standby ==> t.cache == s.cache)
  {
    Reachable(run, events, n);
  }

  // ----- a restart drops the other plugins and nothing acquires them before the next activation -----

  /** Only the service is held, no request is open, and the power state is ON for good. */
  ghost predicate Spent(s: State) {
    s.peers == NO_PEERS.(service := s.peers.service) && s.ctl.power == PowerOn && !s.ctl.restartReq
  }

  /** A notification from a plugin that a restart drops. */
  predicate FromPeer(e: Event) { e.EvPower? || e.EvNetworkStandby? || e.EvName? || e.EvLifecycle? }

  lemma RestartSpends(s: State)
    requires Subscribed(s.peers) && s.powerWorkers > 0 && Restarts(s.ctl)
    ensures Spent(PowerWorker(s))
  {}

  lemma SpentStep(s: State, e: Event)
    requires Enabled(s, e) && Spent(s) && !Activates(s, e)
    ensures Spent(Step(s, e)) && !IsRestart(s, e) && !FromPeer(e)
  {}

  ghost predicate NoneActivates(run: seq<State>, events: seq<Event>, i: nat, j: nat)
    requires j <= |events| < |run|
  {
    forall k :: i <= k < j ==> !Activates(run[k], events[k])
  }

  lemma {:induction false} SpentUntilActivated(run: seq<State>, events: seq<Event>, i: nat, j: nat)
    requires IsRun(run, events) && i <= j <= |events| && Spent(run[i]) && NoneActivates(run, events, i, j)
    ensures Spent(run[j])
    decreases j
  {
    if i < j {
      SpentUntilActivated(run, events, i, j - 1);
      var s, e := run[j - 1], events[j - 1];
      assert Enabled(s, e) && run[j] == Step(s, e);
      SpentStep(s, e);
    }
  }

  /** Between two restarts the plugin was activated anew: one activation restarts at most once, and after that
      restart no power, friendly-name or lifecycle event reaches it. */
  lemma OneRestartPerActivation(run: seq<State>, events: seq<Event>, i: nat, j: nat)
    requires IsRun(run, events) && i < j < |events| && IsRestart(run[i], events[i])
    requires IsRestart(run[j], events[j]) || FromPeer(events[j])
    ensures exists k :: i < k < j && Activates(run[k], events[k])
  {
    Reachable(run, events, i);
    RestartSpends(run[i]);
    if NoneActivates(run, events, i + 1, j) {
      SpentUntilActivated(run, events, i + 1, j);
      if !Activates(run[j], events[j]) {
        SpentStep(run[j], events[j]);
      }
    }
  }

  /** Deep sleep and wake-up before the first worker runs: neither worker sees deep sleep, nothing restarts. */
  lemma CoalescedDeepSleepIsMissed(s: State)
    requires s.peers.powerRegistered && s.powerWorkers == 0 && !s.ctl.restartReq
    ensures var s1 := PowerModeChanged(s, PowerDeepSleep);
            var s2 := PowerModeChanged(s1, PowerOn);
            var s3 := PowerWorker(s2);
            && Enabled(s, EvPower(PowerDeepSleep)) && Enabled(s1, EvPower(PowerOn))
            && !IsRestart(s2, EvPowerWorker) && !IsRestart(s3, EvPowerWorker)
            && PowerWorker(s3).powerWorkers == 0 && !PowerWorker(s3).ctl.restartReq
  {}
}
