/** Lifecycle changes are forwarded under registered names only. */
module Forwarding {
  import opened CStrings
  import opened AppCacheSpec
  import opened Gdial
  import opened PluginSpec

  /** The state texts of gdial. */
  predicate SaysState(text: string, state: AppState) {
    && (text == "running" <==>
        state == StateLoading || state == StateInitializing || state == StateRunning || state == StateActive)
    && (text == "suspended" <==> state == StateSuspended || state == StatePaused || state == StateHibernated)
    && (text == "stopped" <==> state == StateUnloaded || state == StateTerminating)
  }

  /** `after` is `before` and one message under `app`. */
  ghost predicate OneMessage(before: seq<Call>, after: seq<Call>, app: string, instanceId: string, state: AppState,
                             failed: bool)
  {
    && |after| == |before| + 1 && before == after[..|before|] && after[|before|].ApplicationStateChanged?
    && var c := after[|before|];
       && c.app == app && c.id == instanceId && SaysState(c.state, state)
       && c.error == if failed then "internal" else "none"
  }

  /** A lifecycle event sends one message exactly when there is an instance, some record has its id, or no id and its
      name, and the state is one of the nine known ones; the message names the first such record. */
  lemma ForwardsFirstMatch(s: State, appId: string, instanceId: string, state: AppState, failed: bool, i: nat)
    requires i <= |s.cache.apps|
    requires i < |s.cache.apps| ==>
               var c := s.cache.apps[i]; c.appId == CStr(appId) || (c.appId == "" && c.appName == CStr(appId))
    requires forall k :: 0 <= k < i ==>
               var c := s.cache.apps[k]; c.appId != CStr(appId) && (c.appId != "" || c.appName != CStr(appId))
    ensures var before, after := s.link.manager.calls, AppLifecycle(s, appId, instanceId, state, failed).manager.calls;
            if s.link.hasManager && s.link.manager.handle && i < |s.cache.apps| && state != StateUnknown then
              OneMessage(before, after, s.cache.apps[i].appName, instanceId, state, failed)
            else after == before
  {
    assert forall k :: 0 <= k < i ==> !AppMatches(s.cache.apps[k], appId);
    var f := FindApp(s.cache.apps, appId);
    assert f == i by {
      assert i < |s.cache.apps| ==> AppMatches(s.cache.apps[i], appId) && f <= i;
      assert f < |s.cache.apps| ==> i <= f;
    }
    StateTextExact(state);
  }

  lemma StateTextExact(state: AppState)
    ensures StateText(state).None? <==> state == StateUnknown
    ensures StateText(state).Some? ==> SaysState(StateText(state).value, state)
  {}

  /** The event's id is that of the record, or the record has none and the id is its name. */
  predicate IsMeant(c: AppConfig, appId: string) {
    c.appId == CStr(appId) || (c.appId == "" && c.appName == CStr(appId))
  }

  /** One message more, under a record that is meant. */
  ghost predicate MessageOfMeant(before: seq<Call>, after: seq<Call>, apps: seq<AppConfig>, appId: string,
                                 instanceId: string, state: AppState, failed: bool)
  {
    exists i :: 0 <= i < |apps| && IsMeant(apps[i], appId)
                && OneMessage(before, after, apps[i].appName, instanceId, state, failed)
  }

  lemma ForwardsMeant(s: State, appId: string, instanceId: string, state: AppState, failed: bool)
    ensures var before, after := s.link.manager.calls, AppLifecycle(s, appId, instanceId, state, failed).manager.calls;
            after == before || MessageOfMeant(before, after, s.cache.apps, appId, instanceId, state, failed)
  {
    var i := FindApp(s.cache.apps, appId);
    assert forall k :: 0 <= k < i ==> !AppMatches(s.cache.apps[k], appId);
    ForwardsFirstMatch(s, appId, instanceId, state, failed, i);
    assert i < |s.cache.apps| ==> IsMeant(s.cache.apps[i], appId);
  }

  // ----- the message of SetApplicationState -----

  /** One message more: under the application's name, with its id, the state in the words of gdial and the error
      by its name. */
  ghost predicate Announces(before: seq<Call>, after: seq<Call>, name: string, state: CastState, id: string,
                            error: CastError)
  {
    && |after| == |before| + 1 && before == after[..|before|] && after[|before|].ApplicationStateChanged?
    && var c := after[|before|];
       && c.app == CStr(name) && c.id == CStr(id)
       && (c.state == "running" <==> state == CastRunning)
       && (c.state == "stopped" <==> state == CastStopped)
       && (c.state == "suspended" <==> state == CastHidden)
       && (c.state == "" <==> state == CastOther)
       && (c.error == "none" <==> error == ErrorNone)
       && (c.error == "forbidden" <==> error == ErrorForbidden)
       && (c.error == "unavailable" <==> error == ErrorUnavailable)
       && (c.error == "invalid" <==> error == ErrorInvalid)
       && (c.error == "internal" <==> error == ErrorInternal)
  }

  /** Said exactly to an instance, for a name and a known error code. */
  lemma AnnouncesExactly(l: Link, name: string, state: CastState, id: string, error: CastError)
    ensures var before, after := l.manager.calls, SetApplicationState(l, name, state, id, error).manager.calls;
            if l.hasManager && l.manager.handle && name != "" && error != ErrorOther then
              Announces(before, after, name, state, id, error)
            else after == before
  {}

  // ----- over runs: what is forwarded was registered, and what was registered is forwarded -----

  lemma {:induction false} EraseKeepsMembers(apps: seq<AppConfig>, indices: seq<nat>, c: AppConfig)
    requires EraseAll(apps, indices).Some? && c in EraseAll(apps, indices).value
    ensures c in apps
  {
    if indices != [] { EraseKeepsMembers(EraseAt(apps, indices[0]), indices[1..], c); }
  }

  /** Some entry of the event's batch is what the record holds. */
  ghost predicate Brings(e: Event, c: AppConfig) {
    e.EvRegister? && exists b :: 0 <= b < |e.batch| && Holds(c, e.batch[b])
  }

  ghost predicate BroughtBefore(events: seq<Event>, n: nat, c: AppConfig)
    requires n <= |events|
  {
    exists k :: 0 <= k < n && Brings(events[k], c)
  }

  lemma StepBrings(s: State, e: Event, c: AppConfig)
    requires Enabled(s, e) && c in Step(s, e).cache.apps
    ensures c in s.cache.apps || Brings(e, c)
  {
    if e.EvRegister? {
      UpdateBrings(s.cache.apps, e.batch, e.mallocs, c);
    } else if e.EvUnregister? {
      EraseKeepsMembers(s.cache.apps, SortDesc(Collect(s.cache.apps, e.names)), c);
    } else {
      SameApps(s, e);
    }
  }

  lemma UpdateBrings(apps: seq<AppConfig>, batch: seq<AppInfo>, mallocs: nat, c: AppConfig)
    requires Update(apps, batch, mallocs).Some? && c in Update(apps, batch, mallocs).value
    ensures c in apps || exists b :: 0 <= b < |batch| && Holds(c, batch[b])
  {
    var records := StoreApps(batch);
    if mallocs >= |batch| {
      if c in records {
        var b :| 0 <= b < |records| && records[b] == c;
        StoredHolds(batch[b]);
      } else {
        EraseKeepsMembers(apps, SortDesc(Collect(apps, Names(records))), c);
      }
    }
  }

  lemma SameApps(s: State, e: Event)
    requires Enabled(s, e) && !e.EvRegister? && !e.EvUnregister?
    ensures Step(s, e).cache.apps == s.cache.apps
  {}

  /** Every cached record holds, text by text, an entry that was registered. */
  lemma {:induction false} CachedWasRegistered(run: seq<State>, events: seq<Event>, n: nat, c: AppConfig)
    requires IsRun(run, events) && n < |run| && c in run[n].cache.apps
    ensures BroughtBefore(events, n, c)
  {
    if n > 0 {
      var s, e := run[n - 1], events[n - 1];
      assert Enabled(s, e) && run[n] == Step(s, e);
      StepBrings(s, e, c);
      if c in s.cache.apps { CachedWasRegistered(run, events, n - 1, c); }
    }
  }

  /** Whatever a lifecycle event forwards goes under the stored name of a registered entry with that id, or with that
      name and no id. */
  lemma ForwardedWasRegistered(run: seq<State>, events: seq<Event>, n: nat)
    requires IsRun(run, events) && n < |events| && events[n].EvLifecycle?
    ensures var e, before, after := events[n], run[n].link.manager.calls, run[n + 1].link.manager.calls;
            after == before ||
            exists c :: BroughtBefore(events, n, c) && IsMeant(c, e.appId)
                        && OneMessage(before, after, c.appName, e.instanceId, e.state, e.failed)
  {
    var s, e := run[n], events[n];
    assert Enabled(s, e) && run[n + 1] == Step(s, e);
    var before, after := s.link.manager.calls, run[n + 1].link.manager.calls;
    ForwardsMeant(s, e.appId, e.instanceId, e.state, e.failed);
    if after != before {
      var i :| 0 <= i < |s.cache.apps| && IsMeant(s.cache.apps[i], e.appId)
               && OneMessage(before, after, s.cache.apps[i].appName, e.instanceId, e.state, e.failed);
      CachedWasRegistered(run, events, n, s.cache.apps[i]);
    }
  }

  /** No batch and no unregistration between `n` and `m`. */
  ghost predicate CacheUntouched(events: seq<Event>, n: nat, m: nat)
    requires m <= |events|
  {
    forall j :: n <= j < m ==> !events[j].EvRegister? && !events[j].EvUnregister?
  }

  lemma UpdatedApps(s: State, e: Event)
    requires Enabled(s, e) && e.EvRegister?
    ensures Step(s, e).cache.apps == Update(s.cache.apps, e.batch, e.mallocs).value
  {}

  lemma RegisterStep(s: State, e: Event)
    requires Enabled(s, e) && e.EvRegister? && |e.batch| <= e.mallocs
    ensures EndsWith(Step(s, e).cache.apps, e.batch)
  {
    UpdatedApps(s, e);
    UpdateHolds(s.cache.apps, e.batch, e.mallocs);
  }

  lemma {:induction false} AppsKept(run: seq<State>, events: seq<Event>, n: nat, m: nat)
    requires IsRun(run, events) && n <= m < |run| && CacheUntouched(events, n, m)
    ensures run[m].cache.apps == run[n].cache.apps
    decreases m - n
  {
    if n < m {
      var s, e := run[n], events[n];
      assert Enabled(s, e) && run[n + 1] == Step(s, e);
      SameApps(s, e);
      AppsKept(run, events, n + 1, m);
    }
  }

  lemma HeldAtFirst(run: seq<State>, events: seq<Event>, n: nat)
    requires IsRun(run, events) && n < |events| && events[n].EvRegister? && |events[n].batch| <= events[n].mallocs
    ensures EndsWith(run[n + 1].cache.apps, events[n].batch)
  {
    assert Enabled(run[n], events[n]) && run[n + 1] == Step(run[n], events[n]);
    RegisterStep(run[n], events[n]);
  }

  /** The batch registered at `n` is still at the end of the cache. */
  lemma StillHeld(run: seq<State>, events: seq<Event>, n: nat, m: nat)
    requires IsRun(run, events) && n < m < |run| && CacheUntouched(events, n + 1, m)
    requires events[n].EvRegister? && |events[n].batch| <= events[n].mallocs
    ensures EndsWith(run[m].cache.apps, events[n].batch)
  {
    HeldAtFirst(run, events, n);
    AppsKept(run, events, n + 1, m);
  }

  lemma ForwardsHeld(s: State, e: Event, batch: seq<AppInfo>, b: nat)
    requires Enabled(s, e) && e.EvLifecycle? && e.state != StateUnknown && s.link.hasManager && s.link.manager.handle
    requires EndsWith(s.cache.apps, batch) && b < |batch|
    requires CStr(batch[b].appId) == CStr(e.appId) && |CStr(e.appId)| < 64
    requires forall k :: 0 <= k < |s.cache.apps| - |batch| + b ==> !IsMeant(s.cache.apps[k], e.appId)
    ensures var app := s.cache.apps[|s.cache.apps| - |batch| + b].appName;
            && HoldsText(app, batch[b].appName, 64)
            && OneMessage(s.link.manager.calls, Step(s, e).link.manager.calls, app, e.instanceId, e.state, e.failed)
  {
    ForwardsFirstMatch(s, e.appId, e.instanceId, e.state, e.failed, |s.cache.apps| - |batch| + b);
  }

  /** Entry `b` of the batch registered at `n` is the one that a lifecycle event for its id is forwarded under,
      provided its id fits the buffer and no earlier record is meant. */
  lemma RegisteredIsForwarded(run: seq<State>, events: seq<Event>, n: nat, m: nat, b: nat)
    requires IsRun(run, events) && n < m < |events| && CacheUntouched(events, n + 1, m)
    requires events[n].EvRegister? && b < |events[n].batch| <= events[n].mallocs
    requires events[m].EvLifecycle? && events[m].state != StateUnknown
    requires CStr(events[n].batch[b].appId) == CStr(events[m].appId) && |CStr(events[m].appId)| < 64
    requires run[m].link.hasManager && run[m].link.manager.handle
    requires forall k :: 0 <= k < |run[m].cache.apps| - |events[n].batch| + b && k < |run[m].cache.apps| ==>
               !IsMeant(run[m].cache.apps[k], events[m].appId)
    ensures var e, before, after := events[m], run[m].link.manager.calls, run[m + 1].link.manager.calls;
            exists app :: OneMessage(before, after, app, e.instanceId, e.state, e.failed)
                          && HoldsText(app, events[n].batch[b].appName, 64)
  {
    var s, e := run[m], events[m];
    assert Enabled(s, e) && run[m + 1] == Step(s, e);
    StillHeld(run, events, n, m);
    ForwardsHeld(s, e, events[n].batch, b);
  }

  // ----- a name that is gone stays silent -----

  ghost predicate Absent(apps: seq<AppConfig>, name: string) {
    forall k :: 0 <= k < |apps| ==> apps[k].appName != name
  }

  lemma {:induction false} EraseKeepsAbsent(apps: seq<AppConfig>, indices: seq<nat>, name: string)
    requires Absent(apps, name)
    ensures EraseAll(apps, indices).Some? ==> Absent(EraseAll(apps, indices).value, name)
  {
    if indices != [] && indices[0] < |apps| {
      EraseKeepsAbsent(EraseAt(apps, indices[0]), indices[1..], name);
    }
  }

  lemma UpdateKeepsAbsent(apps: seq<AppConfig>, batch: seq<AppInfo>, mallocs: nat, name: string)
    requires Absent(apps, name) && Absent(StoreApps(batch), name)
    ensures Update(apps, batch, mallocs).Some? ==> Absent(Update(apps, batch, mallocs).value, name)
  {
    EraseKeepsAbsent(apps, SortDesc(Collect(apps, Names(StoreApps(batch)))), name);
  }

  ghost predicate Registers(e: Event, name: string) {
    e.EvRegister? && !Absent(StoreApps(e.batch), name)
  }

  lemma StepKeepsAbsent(s: State, e: Event, name: string)
    requires Enabled(s, e) && Absent(s.cache.apps, name) && !Registers(e, name)
    ensures Absent(Step(s, e).cache.apps, name)
  {
    if e.EvRegister? {
      UpdatedApps(s, e);
      UpdateKeepsAbsent(s.cache.apps, e.batch, e.mallocs, name);
    } else if e.EvUnregister? {
      EraseKeepsAbsent(s.cache.apps, SortDesc(Collect(s.cache.apps, e.names)), name);
    } else {
      SameApps(s, e);
    }
  }

  /** What survives a simultaneous removal has an index that was not removed. */
  lemma {:induction false} KeepMembers<T>(s: seq<T>, gone: set<nat>, k: nat) returns (i: nat)
    requires k < |Keep(s, gone)|
    ensures i < |s| && i !in gone && s[i] == Keep(s, gone)[k]
  {
    var init := s[..|s| - 1];
    if |s| - 1 in gone || k < |Keep(init, gone)| {
      i := KeepMembers(init, gone, k);
    } else {
      i := |s| - 1;
    }
  }

  lemma {:induction false} KeepSurvives<T>(s: seq<T>, gone: set<nat>, i: nat)
    requires i < |s| && i !in gone
    ensures s[i] in Keep(s, gone)
  {
    if i < |s| - 1 { KeepSurvives(s[..|s| - 1], gone, i); }
  }

  /** At most one record has the name. */
  ghost predicate StoredOnce(apps: seq<AppConfig>, name: string) {
    forall i, j :: 0 <= i < j < |apps| ==> apps[i].appName != name || apps[j].appName != name
  }

  /** A batch that erases correctly removes a name for good exactly when at most one record had it. */
  lemma UnregisterRemovesIff(apps: seq<AppConfig>, names: seq<string>, n: nat)
    requires n < |names| && NoRepeatedHit(apps, names)
    ensures Delete(apps, names).Some?
    ensures Absent(Delete(apps, names).value, CStr(names[n])) <==> StoredOnce(apps, CStr(names[n]))
  {
    DeleteExact(apps, names);
    var name, gone := CStr(names[n]), IndexSet(Collect(apps, names));
    var kept := Keep(apps, gone);
    if StoredOnce(apps, name) {
      forall k: nat | k < |kept| ensures kept[k].appName != name {
        var i := KeepMembers(apps, gone, k);
        if apps[i].appName == name {
          FirstIndexIs(apps, names[n], i);
          CollectMembers(apps, names, i);
        }
      }
    } else {
      var i, j :| 0 <= i < j < |apps| && apps[i].appName == apps[j].appName == name;
      CollectMembers(apps, names, j);
      KeepSurvives(apps, gone, j);
    }
  }

  /** Some batch between `i` and `j` stores the name again. */
  ghost predicate RegisteredBetween(events: seq<Event>, i: nat, j: nat, name: string)
    requires i <= j <= |events|
  {
    exists k :: i < k < j && Registers(events[k], name)
  }

  /** Event `i` unregisters `name`, which is stored once, with a batch that erases correctly. */
  ghost predicate UnregistersOnce(s: State, e: Event, name: string) {
    && e.EvUnregister? && NoRepeatedHit(s.cache.apps, e.names)
    && (exists n :: 0 <= n < |e.names| && CStr(e.names[n]) == name)
    && StoredOnce(s.cache.apps, name)
  }

  lemma UnregisterStep(s: State, e: Event, name: string)
    requires Enabled(s, e) && UnregistersOnce(s, e, name)
    ensures Absent(Step(s, e).cache.apps, name)
  {
    var n :| 0 <= n < |e.names| && CStr(e.names[n]) == name;
    UnregisterRemovesIff(s.cache.apps, e.names, n);
  }

  lemma {:induction false} AbsentAfterUnregister(run: seq<State>, events: seq<Event>, i: nat, j: nat, name: string)
    requires IsRun(run, events) && i < j <= |events| && UnregistersOnce(run[i], events[i], name)
    requires !RegisteredBetween(events, i, j, name)
    ensures Absent(run[j].cache.apps, name)
    decreases j
  {
    if j == i + 1 {
      UnregisterStep(run[i], events[i], name);
    } else {
      AbsentAfterUnregister(run, events, i, j - 1, name);
      StepKeepsAbsent(run[j - 1], events[j - 1], name);
    }
  }

  /** What one event adds to the calls does not name the application. */
  ghost predicate SilentAbout(before: seq<Call>, after: seq<Call>, name: string) {
    after == before || exists c :: after == before + [c] && c.ApplicationStateChanged? && c.app != name
  }

  lemma AbsentIsSilent(s: State, e: Event, name: string)
    requires Enabled(s, e) && e.EvLifecycle? && Absent(s.cache.apps, name)
    ensures SilentAbout(s.link.manager.calls, Step(s, e).link.manager.calls, name)
  {
    var i := FindApp(s.cache.apps, e.appId);
    assert forall k :: 0 <= k < i ==> !AppMatches(s.cache.apps[k], e.appId);
    ForwardsFirstMatch(s, e.appId, e.instanceId, e.state, e.failed, i);
    var before, after := s.link.manager.calls, Step(s, e).link.manager.calls;
    if after != before {
      assert after == before + [after[|before|]];
    }
  }

  /** After a name that was stored once is unregistered, no lifecycle event forwards anything under it
      until it is registered again. */
  lemma SilentAfterUnregister(run: seq<State>, events: seq<Event>, i: nat, j: nat, name: string)
    requires IsRun(run, events) && i < j < |events| && UnregistersOnce(run[i], events[i], name)
    requires !RegisteredBetween(events, i, j, name) && events[j].EvLifecycle?
    ensures SilentAbout(run[j].link.manager.calls, run[j + 1].link.manager.calls, name)
  {
    AbsentAfterUnregister(run, events, i, j, name);
    AbsentIsSilent(run[j], events[j], name);
  }
}
