# Verification model of the XCast plugin

The XCast plugin keeps at most one gdial instance (the DIAL server library) alive, tells it whether casting is
active, under which friendly name, and which applications it offers. The instance comes and goes with the network, with
deep sleep and with activation of the plugin; requests that arrive while it is away are kept in caches and replayed.
This project models that machinery in Dafny and proves what it keeps.

| file | content |
|---|---|
| `Options.dfy`, `Sequences.dfy`, `CStrings.dfy` | options; sequences without repetitions; C strings and `strncpy` buffers |
| `AppCacheSpec.dfy`, `AppCacheMap.dfy`, `AppCache.dfy` | the dynamic application cache: erasure by indices, the ordered map it refines, the in-place vector of heap records |
| `Gdial.dfy`, `ManagerSpec.dfy`, `XCastManager.dfy` | the log of gdial calls and what an observer of it concludes; the manager on values and as an object |
| `PluginSpec.dfy`, `PluginInvariants.dfy`, `XCastImplementation.dfy` | the plugin on values, its invariant, the plugin as an object |
| `Reconnect.dfy`, `Identity.dfy`, `Convergence.dfy`, `NetworkStandby.dfy`, `RestartDiscipline.dfy`, `Forwarding.dfy` | theorems over whole runs of the plugin |
| `Interleaving.dfy` | two steps of those runs taken apart: exactly when another thread in between matters |
| `LockProtocol.dfy`, `Teardown.dfy`, `Workers.dfy` | three protocols with fine interleaving: locks, lifecycle callbacks against teardown, worker reservation |
| `Notifications.dfy`, `Uuid.dfy`, `Properties.dfy` | notification fan-out, UUID version 5 text, the properties file scanner |

## How the model reads

- **Runs.** A run starts in a fresh process and applies events. Each entry point and each worker body is one
  event; an event is possible only when the outside can deliver it (a timer firing needs an armed timer, a power
  event a registered handler, a worker a pending worker). What other plugins, files, RFC parameters and gdial answer is
  part of the event, so the theorems hold for every answer.
- **Backend.** gdial is the log of calls made to it. An instance knows its launch arguments and what it was last told;
  it has no application list before the first one is registered. Launching it with the wake-on-LAN option tells it
  that network standby is on, without it that it is off. What it does with all that is not part of this model.
- **Undefined behaviour.** An index past the end of the vector is undefined in C++. The cache operations report it, and
  a run ends before such an event.
- **Replacing the object.** The host calls Configure(nullptr) and releases the plugin. All statics survive, the manager
  among them when a late worker has brought it back by then; the timer and the references to other plugins go, and the
  network standby mode, a member of the object, starts as off again. A run ends before an object is replaced that a
  pending worker still refers to, because that worker then uses freed memory.
- **Text.** A `char` is one byte.
- **Objects.** The mutable classes carry the same operations as the value specification; each method states its whole
  new state. Fields that belong together (the control settings, the subscriptions) are one record field.

## Where the code and its comments differ

The model follows the code.

- XCast/XCastImplementation.h:358-360 says that the callback lock serializes callbacks with the teardown of
  the manager. The code holds it only around the unregistration; `Teardown.MisuseIffWaiting` says exactly when a call into
  the deleted manager remains possible.
- XCast/XCastImplementation.cpp:694 announces a restart after deep sleep. A deep sleep is missed if and only if no power
  worker runs while it lasts and no request was open before (`RestartDiscipline.WakeUpRestartsIff`). The restart itself
  releases PowerManager, SystemServices and AppManager, and nothing acquires them again before the next activation, so
  one activation restarts at most once and afterwards hears no power, network standby, name or lifecycle event
  (`RestartDiscipline.OneRestartPerActivation`).
- XCast/XCastImplementation.cpp:176-177 waits for the power workers so that none uses what is torn down. The wait gives
  up after 50 rounds; a worker that restarts after it brings the static manager back, and the activation of the
  next object then arms no timer (`Reconnect.LateRestartLosesRetry`, exactly when: `Reconnect.ReplacementExact`).
- A restart resets the enable setting to its default, and the caches keep their values through Configure(nullptr);
  `Convergence.RestartExact` and `Convergence.ConfigureNullExact` say when the pushed value is still the right one.

## Model

| member | source | states |
|---|---|---|
| LockProtocol.EntriesOrdered | XCast/XCastImplementation.cpp:927-958 | Every entry point, with its nested lock_guard scopes written out, takes its locks in the order timer mutex, callback lock, config mutex, manager mutex; only the recursive manager mutex may be taken again, and `_adminLock` is never nested. |
| LockProtocol.SomeTrace | XCast/XCastImplementation.cpp:927-958 | Every entry point, written as nested lock_guard scopes with branches, has at least one trace, so the statements about all its traces are not empty. |
| LockProtocol.ConfigureLocks | XCast/XCastImplementation.cpp:353-356 | Configure nests exactly the callback lock and the manager mutex inside the timer mutex. |
| LockProtocol.LocateCastTimerLocks | XCast/XCastImplementation.cpp:927-958 | A firing nests exactly the manager mutex, inside the timer mutex while it connects and inside the config mutex while it replays. |
| LockProtocol.RegisterApplicationsLocks | XCast/XCastImplementation.cpp:1444-1474 | RegisterApplications nests exactly the manager mutex inside the config mutex. |
| LockProtocol.UnregisterApplicationsLocks | XCast/XCastImplementation.cpp:1476-1516 | UnregisterApplications takes the config and the manager mutex, never one inside the other. |
| LockProtocol.AppLifecycleLocks | XCast/XCastImplementation.cpp:545-604 | A lifecycle callback nests exactly the config and the manager mutex inside the callback lock. |
| LockProtocol.PowerWorkerTakes | XCast/XCastImplementation.cpp:679-707 | A power worker takes the callback lock and the manager mutex and no other lock. |
| LockProtocol.PowerWorkerNests | XCast/XCastImplementation.cpp:679-707 | It never nests two locks. |
| LockProtocol.SettersTake | XCast/XCastImplementation.cpp:1222-1314 | The setters and the name worker take the manager mutex and no other lock. |
| LockProtocol.ManagerOnly | XCast/XCastImplementation.cpp:884-925 | So do the network events, the network standby worker and the manager's accessors. |
| LockProtocol.NoneTaken | XCast/XCastImplementation.cpp:1260-1282 | The power and name notifications and SetStandbyBehavior take no lock. |
| LockProtocol.SinksTake | XCast/XCastImplementation.cpp:104-150 | Registration of sinks and dispatch take `_adminLock` and no other lock. |
| LockProtocol.ReachableSafe | XCast/XCastImplementation.cpp:1444-1516 | For any number of threads in any sequence of entry points, every reachable state has at most one holder per lock, and each thread still follows the order and will leave nothing locked. |
| LockProtocol.DeadlockFree | XCast/XCastImplementation.cpp:545-568 | A reachable state offers a step if and only if some thread has operations left. |
| LockProtocol.EveryScheduleDrains | XCast/XCastManager.cpp:128-256 | With no further entries every schedule consumes one operation a step, and it can stop only when all threads have finished. |
| Reconnect.ReplayRefinesAlwaysConnected | XCast/XCastImplementation.cpp:927-970 | Over any run of configuration, timer, network, power, name, RPC and worker events, an instance that exists has been told the same activation, friendly name and application list as an ideal backend that is never lost: every push reaches it at once, nothing is dropped and nothing replayed. The list is there exactly once a registration was asked for, and says of each cached record, in order, its name, prefixes, cors and whether it may be stopped. |
| Reconnect.RunSimulated | XCast/XCastImplementation.cpp:960-970 | The three caches are, after every event of every run, what that ideal backend was last told. |
| Reconnect.FirstConnection | XCast/XCastImplementation.cpp:52-72 | An instance that connects before anything was ever pushed is told that casting is off, under the name "Living Room", and no list. |
| Reconnect.AssumedAtFirst | XCast/XCastImplementation.h:57 | Until a name or a power state is set or read, the name is empty and the power state counts as standby. |
| Reconnect.NoLostRetryNoNullManager | XCast/XCastImplementation.cpp:152-208 | After any run, a manager has exactly one of an armed locate timer and a gdial instance, and without a manager there is neither, if and only if every loss of the retry (a firing that finds the RFC off, or an object replaced while its timer was all its manager had) was followed by a teardown, a restart or a network change that counts. An armed timer or a network subscription always implies a manager. |
| Reconnect.FiringKeepsRetryIff | XCast/XCastManager.cpp:129-141 | A firing leaves the manager with an instance or a retry if and only if the RFC is on or the attempt does not get as far as reading it. |
| Reconnect.RetryStep | XCast/XCastImplementation.cpp:152-208 | Each single event leaves a manager with a retry or an instance if and only if it regains the retry, or the retry was there and the event is not one of the two that lose it. |
| Reconnect.ReplacementExact | XCast/XCastImplementation.cpp:152-165 | After replacing the object and activating the new one the retry is there if and only if the old object left no manager behind, or one that still has its instance. |
| Reconnect.LateRestartLosesRetry | XCast/XCastImplementation.cpp:176-185 | From every active state without pending workers: deep sleep, wake-up, Configure(nullptr), then the restarting worker, leave a manager for which the next activation arms nothing, with no instance and no network subscription. |
| Reconnect.OneFiringReconnects | XCast/XCastImplementation.cpp:785-808 | From any reachable state with a manager, no instance and a retry that was not lost, one firing that reaches gdial yields an instance that already agrees with the ideal backend, and stops the timer. |
| Reconnect.InterfaceChangeExact | XCast/XCastImplementation.cpp:884-925 | An interface change destroys the instance if and only if the new interface is wlan0 or eth0 and is not the one the instance was launched on. |
| Reconnect.AddressChangeExact | XCast/XCastImplementation.cpp:246-257 | An address notification destroys it if and only if an IPv4 address was acquired on wlan0 or eth0, even on the same interface. |
| Reconnect.TeardownComplete | XCast/XCastImplementation.cpp:172-238 | Configure(nullptr) leaves no manager, instance, retry or subscription, and leaves the caches as they were. |
| Reconnect.ActivationArmsRetry | XCast/XCastImplementation.cpp:333-350 | In any run, an accepted Configure(service) leaves the manager with a retry or an instance if and only if it finds no manager, for which it arms the first retry, or one that still has its instance. |
| Reconnect.SingleInstance | XCast/XCastManager.cpp:244-267 | Over any run creations minus destructions is 0 or 1 and is 1 exactly when the handle is non-null; the call log never addresses a missing instance. |
| Reconnect.NamesSurviveReconnects | XCast/XCastManager.cpp:181-229 | An instance was last told the stored model and manufacturer, by launch argument or setter; all launches pass the same default friendly name, and once a launch passed a receiver id all later ones pass the same. |
| Identity.ReceiverIdIsFirstAnswer | XCast/XCastManager.cpp:181-190 | Over any run the stored receiver id is the first non-empty one that a firing which settled the names was given, and empty only if there was none. |
| Identity.DefaultNameIsFirstSettled | XCast/XCastManager.cpp:220-229 | Over any run the default friendly name is the one built from the model and manufacturer stored when a firing first settled the names; later model and manufacturer names never change it. |
| Identity.AppListIsLastAnswer | XCast/XCastManager.cpp:169-176 | Over any run the application list that launches pass is the last one the RFC answered to a firing that settled the names, or empty if it never answered one. |
| PluginInvariants.Reachable | XCast/XCastImplementation.cpp:152-208 | Every reachable state keeps ownership (no instance without a manager, no retry beside an instance), replay agreement, the name agreement and the subscription discipline. |
| PluginInvariants.TimerKeeps | XCast/XCastImplementation.cpp:927-958 | A firing keeps all of that, and with the RFC on it ends with the timer stopped exactly when there is an instance. |
| PluginInvariants.WithAppsKeeps | XCast/XCastImplementation.cpp:1444-1516 | Registering or unregistering keeps the replay agreement through its disable, register and enable pushes. |
| PluginInvariants.RegistrationCalls | XCast/XCastImplementation.cpp:1444-1516 | An instance hears of a registration exactly: casting off, the whole cache record by record, and casting on if it is effective; without an instance nothing is said. |
| PluginInvariants.ReplayCalls | XCast/XCastImplementation.cpp:940-956 | A replay says exactly the whole cache, if registrations were asked for, and then activation and name. |
| PluginInvariants.SetEnabledRegisters | XCast/XCastImplementation.cpp:1229-1237 | Enabling without a registration but with a PowerManager reads both states and tries to register; otherwise neither is touched. |
| PluginInvariants.PowerWorkerKeeps | XCast/XCastImplementation.cpp:679-707 | A power worker keeps the invariant in its restart, deep-sleep and plain branches. |
| Gdial.InstancesConserved | XCast/XCastManager.cpp:244-267 | In every legal call log creations minus destructions tells whether an instance is alive. |
| Gdial.Alternation | XCast/XCastManager.cpp:244-267 | Between two creations there is a destruction and between two destructions a creation. |
| Gdial.NoCallWithoutInstance | XCast/XCastManager.cpp:420-552 | Every call but a creation reaches a living instance. |
| ManagerSpec.InitializedKeeps | XCast/XCastManager.cpp:115-256 | Initializing without an instance keeps the call log legal, the handle truthful, the names in step and the identity sticky; success means an instance unless the RFC is off. |
| ManagerSpec.InitializedExact | XCast/XCastManager.cpp:115-256 | Known names are kept, the others come from the receiver id, MODEL_NUM, MFG_NAME and the two names, the list from the RFC; a launch is one call with exactly these, the interface and the two switches; without one nothing is called, and with the RFC off nothing changes. |
| ManagerSpec.InitializeOnLiveInstance | XCast/XCastManager.cpp:192-212 | The manager by itself (the plugin never calls it so): initializing over a live instance keeps the names in step if and only if no stored name is empty while the properties file has a value for it. |
| XCastManager.XCastManager.Initialize | XCast/XCastManager.cpp:115-256 | Success if and only if an interface is named and there is an instance or the RFC is off. A new instance costs exactly one call, which passes the interface, the stored receiver id, names and application list, and the friendly-name and wake-on-LAN switches of the RFC; it is inactive and without a registered list; names still unknown are read from their places; calls, names and identity stay coherent. |
| XCastManager.XCastManager.Deinitialize | XCast/XCastManager.cpp:258-267 | Destroys the instance if there is one, and leaves none. |
| XCastManager.XCastManager.EnableCastService | XCast/XCastManager.cpp:435-447 | An observer of gdial sees the instance with exactly these two values changed, and no change at all when there is no instance. |
| XCastManager.XCastManager.SetNetworkStandbyMode | XCast/XCastManager.cpp:554-566 | An instance that is there knows the mode and is otherwise unchanged; without one nothing happens. |
| XCastManager.XCastManager.ApplicationState | XCast/XCastManager.cpp:420-433 | Answers 1 if and only if gdial got exactly this message; nothing the instance was told before is changed by it. |
| XCastManager.XCastManager.SetModelName | XCast/XCastManager.cpp:493-509 | The name is stored in either case, and an instance that is there knows the stored name and is otherwise unchanged, so the two stay in step. |
| XCastManager.XCastManager.SetManufacturerName | XCast/XCastManager.cpp:468-484 | The same for the manufacturer. |
| XCastManager.XCastManager.RegisterApplications | XCast/XCastManager.cpp:518-552 | An instance then has a list with one entry per record, in order, of its name, prefixes, cors and whether it may be stopped, and is otherwise unchanged; exactly one list is built, and nothing is said without an instance. |
| XCastManager.XCastManager.HandOver | XCast/XCastManager.cpp:535-550 | A list is either handed to gdial or deleted, never both, and every list built is accounted for. |
| XCastImplementation.XCastImplementation.Configure | XCast/XCastImplementation.cpp:333-364 | Accepts the first service, accepts nullptr only after one, and refuses anything else without a change. After an activation each plugin that answered is held, each registration that succeeded stands, what was read is stored, and a manager that was not there has its first retry in 5 seconds; the invariant is kept. |
| XCastImplementation.XCastImplementation.DeinitializeAll | XCast/XCastImplementation.cpp:187-236 | Nothing is left that could call back: no manager, instance, timer, network or other subscription. The caches, the power state, the friendly name and an open restart request stay; the two settings are the defaults. |
| XCastImplementation.XCastImplementation.ConnectToGDialService | XCast/XCastImplementation.cpp:785-882 | Succeeds if and only if there is a service, a network plugin and a primary interface, and an instance or the RFC off; only then the active interface changes, to the kind of the primary one. The network plugin is acquired once, with a subscription if its registration succeeds. A new instance runs on the primary interface, inactive and without a list. |
| XCastImplementation.XCastImplementation.OnLocateCastTimer | XCast/XCastImplementation.cpp:927-958 | Failure leaves the timer armed with 10 seconds; success stops it and replays; the invariant holds after. |
| XCastImplementation.XCastImplementation.UpdateNWConnectivityStatus | XCast/XCastImplementation.cpp:884-925 | Without a running timer, wlan0 or eth0 reported connected costs the instance and starts the timer with 5 seconds, if it is of another kind than the active interface or has an address; any other report changes nothing. |
| XCastImplementation.XCastImplementation.OnIPAddressChange | XCast/XCastImplementation.cpp:246-257 | Only an acquired IPv4 address is looked at; an empty one counts as disconnected. |
| XCastImplementation.XCastImplementation.EnableCastService | XCast/XCastImplementation.cpp:960-970 | The caches hold the two values in any case, and an instance that is there was told what the caches now hold and nothing else. |
| XCastImplementation.XCastImplementation.OnPowerModeChanged | XCast/XCastImplementation.h:164-177 | Stores the shared power state and leaves one more worker pending; nothing is pushed, and values that were right up to pending workers stay so. |
| XCastImplementation.XCastImplementation.ThreadPowerModeChangeEvent | XCast/XCastImplementation.cpp:679-707 | One power worker, which re-reads the shared state; unless standby is on when it gets to its push, the pushed values are right afterwards; the invariant holds after. |
| XCastImplementation.XCastImplementation.OnFriendlyNameUpdateHandler | XCast/XCastImplementation.cpp:308-320 | A non-empty name is stored and leaves one more worker pending; nothing is pushed, and values that were right up to pending workers stay so. |
| XCastImplementation.XCastImplementation.ThreadSystemFriendlyNameChangeEvent | XCast/XCastImplementation.cpp:322-331 | Afterwards the pushed values are the current name and the effective value. |
| XCastImplementation.XCastImplementation.OnNetworkStandbyModeChanged | XCast/XCastImplementation.h:179-186 | Stores the mode and leaves a worker pending that will tell it to the instance. |
| XCastImplementation.XCastImplementation.NetworkStandbyModeChangeEvent | XCast/XCastImplementation.cpp:709-713 | Afterwards an instance that is there has been told the stored mode. |
| XCastImplementation.XCastImplementation.SetEnabled | XCast/XCastImplementation.cpp:1222-1250 | Stores the setting and registers late if needed; afterwards the pushed activation and name are right, and so is the network standby mode the instance was told if it was before or if the call read another one. |
| XCastImplementation.XCastImplementation.SetStandbyBehavior | XCast/XCastImplementation.cpp:1260-1282 | Stores a valid setting, refuses another value, pushes nothing; values that were right stay right if and only if the change does not disturb them. |
| XCastImplementation.XCastImplementation.SetFriendlyName | XCast/XCastImplementation.cpp:1295-1314 | Refuses an empty name; otherwise the name is stored and the pushed values are right afterwards. |
| XCastImplementation.XCastImplementation.SetModelName | XCast/XCastImplementation.cpp:1192-1204 | Fails and changes nothing without a manager; otherwise the manager keeps the name, and an instance knows it and is otherwise unchanged. |
| XCastImplementation.XCastImplementation.SetManufacturerName | XCast/XCastImplementation.cpp:1161-1173 | The same for the manufacturer. |
| XCastImplementation.XCastImplementation.RegisterApplications | XCast/XCastImplementation.cpp:1444-1474 | Disable, update the cache, register the whole cache, enable again if effective; defined exactly when the cache update is, and then the pushed values are right. |
| XCastImplementation.XCastImplementation.UnregisterApplications | XCast/XCastImplementation.cpp:1476-1516 | The same around a delete. |
| XCastImplementation.XCastImplementation.OnAppLifecycleStateChanged | XCast/XCastImplementation.cpp:535-605 | At most one message, under a record with the event's id, or without id and with that name, with the state in the words of gdial and the error; which record and when: Forwarding.ForwardsFirstMatch. |
| XCastImplementation.XCastImplementation.SetApplicationState | XCast/XCastImplementation.cpp:1079-1136 | Fails without a message on an empty name, a missing manager or an unknown error code; otherwise an instance gets one message with the name, the id, "running", "stopped", "suspended" or an empty text for the state, and the name of the error. |
| Convergence.EnableConvergence | XCast/XCastImplementation.cpp:1222-1314 | For every build: once a push settled the values (of a setter, a name worker, or a power worker that gets to push) and no disturbing event came since, every reachable state without pending workers has pushed the effective value and the current name. |
| Convergence.StepKeepsAgreementIff | XCast/XCastImplementation.cpp:679-707 | Every single event keeps the pushed values right up to what pending workers will push if and only if it is not one of the disturbing ones, each given by a condition on settings, readings and cache before the event. |
| Convergence.AnyOrderSameOutcome | XCast/XCastImplementation.cpp:679-707 | Unless a pending restart makes the order matter, every complete schedule of the pending power and name workers ends with the same settings and the same pushed values, given as a function of the state before, whatever standby is. |
| Convergence.OutcomeUniqueIff | XCast/XCastImplementation.cpp:679-707 | All complete schedules end alike if and only if it is not the case that a restart is pending that turns standby on and changes the enable setting while a name worker is pending too. |
| Convergence.DrainedAgreesIff | XCast/XCastImplementation.cpp:697-706 | For every state and every way to run its pending workers to the end: where a pending restart makes the order matter, the pushed values end up right if and only if a name worker runs after a power worker; elsewhere, if and only if some worker pushes or they were right for the settled settings. |
| Convergence.EveryDrainAgreesIff | XCast/XCastImplementation.cpp:697-706 | For every state: all ways to run the pending workers end with right values if and only if the order does not matter and some worker pushes or the values were right for the settled settings. |
| Convergence.StandbyChangeExact | XCast/XCastImplementation.cpp:1260-1282 | A standby change keeps agreement if and only if it changes nothing, casting is disabled or the power is on. |
| Convergence.ConfigureNullExact | XCast/XCastImplementation.cpp:226-236 | Teardown keeps agreement if and only if the defaults are as effective as the settings were. |
| Convergence.ConfigureServiceExact | XCast/XCastImplementation.cpp:336-350 | Activation keeps agreement if and only if the power and name read leave both values as they were. |
| Convergence.RestartExact | XCast/XCastImplementation.cpp:682-706 | After a restart the pushed activation is right if and only if standby is off by default or the cache held the default. |
| Convergence.StandbyOverWorkerExact | XCast/XCastImplementation.cpp:697-706 | When standby is turned on over a pending power worker: where the order matters the values are right after the workers if and only if a name worker runs after a power worker; elsewhere, if and only if a name worker or a restart to standby off pushes, or the cached value is the setting that standby makes effective. |
| Convergence.StandbySilencesWorker | XCast/XCastImplementation.cpp:697-706 | The input on which a pending worker is not enough: power on, then standby on before the worker runs, leaves a stale value with no worker left. |
| NetworkStandby.InstanceKnowsMode | XCast/XCastImplementation.cpp:1150-1159 | Over any run, an instance has been told the stored network standby mode as soon as no worker is pending that has to tell it, unless the last thing that happened to the mode is one of the disturbances. |
| NetworkStandby.StepKeepsModeIff | XCast/XCastManager.cpp:240-242 | Every single event keeps the told mode right up to pending workers if and only if it is not a launch for which the RFC withholds the option, an activation that reads another mode over a left-over instance, or the replacement of an object whose mode was on while an instance lives. |
| RestartDiscipline.RestartsArePaidFor | XCast/XCastImplementation.cpp:679-695 | In every prefix restarts, plus an open request, never exceed deep-sleep observations. |
| RestartDiscipline.RestartIffUnspentObservation | XCast/XCastImplementation.cpp:679-695 | A power worker that sees ON restarts if and only if some earlier worker saw deep sleep and no restart came after that; between two restarts there is an observation. |
| RestartDiscipline.WakeUpRestartsIff | XCast/XCastImplementation.cpp:682-695 | For a deep sleep and the worker that decides on the wake-up: it restarts if and only if a request was open before or some worker ran while the state was deep sleep. |
| RestartDiscipline.OneRestartPerActivation | XCast/XCastImplementation.cpp:204-219 | Between a restart and the next restart, or the next power, network standby, friendly-name or lifecycle event, the plugin was activated anew. |
| RestartDiscipline.RestartRearms | XCast/XCastImplementation.cpp:684-690 | A restart destroys the instance if there was one, brings the manager back with its first retry armed, resets the settings and keeps the application cache. |
| RestartDiscipline.CoalescedDeepSleepIsMissed | XCast/XCastImplementation.h:164-177 | The input on which the announced restart fails: deep sleep followed by ON before the first worker runs restarts nothing. |
| Workers.CounterCountsGuards | XCast/XCastImplementation.h:61-75 | In every reachable state the counter is the number of guards somebody still refers to; zero means that no worker is reserved, starting or running. |
| Workers.WaitOutcome | XCast/XCastImplementation.cpp:176-185 | Under any interference a wait that ends early saw all guards released at its deciding poll; a worker waiting for itself always runs all 50 rounds. |
| Workers.WaitBounded | XCast/XCastImplementation.cpp:178-182 | No wait polls more than 51 times. |
| Workers.WaitForWorkers | XCast/XCastImplementation.cpp:176-185 | The loop: at most 50 rounds, all with a positive counter, an early end only on a zero, and the warning decided by one more read. |
| Teardown.EarlyCallbackFinishesFirst | XCast/XCastImplementation.cpp:545-604 | A callback that took the lock before Deinitialize did has returned before the manager is deleted, and never calls a deleted one. |
| Teardown.MisuseIffWaiting | XCast/XCastImplementation.cpp:190-203 | At the moment Unregister returns, a later call into the deleted manager is possible if and only if some callback is still waiting for the lock. |
| Teardown.LateCallback | XCast/XCastImplementation.cpp:193-203 | The schedule that gets there. |
| AppCacheSpec.DescendingErasureIsSimultaneous | XCast/XCastImplementation.cpp:1346-1353 | Erasing strictly descending indices stays in range and removes exactly those elements at once, keeping the order of the rest. |
| AppCacheSpec.UpdateHolds | XCast/XCastImplementation.cpp:1361-1435 | After an update whose allocations succeed, the last records hold the batch entry by entry and text by text. |
| AppCacheSpec.DeleteExact | XCast/XCastImplementation.cpp:1324-1359 | The whole delete removes exactly the first record of each name, and only that, if and only if no stored name is repeated in the batch. |
| AppCacheSpec.RepeatedNameErasesNeighbour | XCast/XCastImplementation.cpp:1331-1353 | In every cache a stored name given twice also erases the record after it, or indexes past the end. |
| AppCacheSpec.ErasureInRange | XCast/XCastImplementation.cpp:1347-1353 | Erasure is defined if and only if each index fits the vector as shrunken by then. |
| AppCacheSpec.CollectDistinct | XCast/XCastImplementation.cpp:1331-1345 | The pushed indices are distinct if and only if no stored name is repeated. |
| AppCacheSpec.FullNameFound | XCast/XCastImplementation.cpp:1334-1341 | A registered name is found by its full text if and only if that text fits the 64-byte buffer. |
| AppCacheMap.CacheRefinesOrderedMap | XCast/XCastImplementation.cpp:1361-1442 | Over any history of duplicate-free batches the cache equals the ordered map that puts and removes one key at a time, stored names stay unique, and as a map the last writer wins. |
| AppCacheMap.UpdateIsPutAll | XCast/XCastImplementation.cpp:1420-1435 | One registration equals putting its entries one after another. |
| AppCacheMap.DeleteIsDrop | XCast/XCastImplementation.cpp:1476-1498 | One unregistration is removal of exactly the named keys. |
| AppCacheMap.DeleteIdempotent | XCast/XCastImplementation.cpp:1324-1359 | Unregistering the same names again changes nothing. |
| Interleaving.SplitRegistrationsUniqueIff | XCast/XCastImplementation.cpp:1425-1435 | For any number of registrations by any threads, in any interleaving of their delete and append halves until all are complete: stored names are unique throughout if and only if no two registrations that share a stored name are ever under way together. |
| Interleaving.FiringBetweenHalves | XCast/XCastImplementation.cpp:963-968 | A timer firing between the push and the caching of one call leaves an instance that disagrees with the caches if and only if it gets as far as creating one and the call changed a value. |
| AppCache.AppConfigCache.CollectIndices | XCast/XCastImplementation.cpp:1330-1345 | The nested search loops push the first index of each name found, in batch order. |
| AppCache.AppConfigCache.EraseIndices | XCast/XCastImplementation.cpp:1347-1353 | The erase-and-free loop, over any indices; every record removed is freed once. |
| AppCache.AppConfigCache.DeleteFromDynamicAppCache | XCast/XCastImplementation.cpp:1324-1359 | The contents after the in-place delete, and when it is defined. |
| AppCache.AppConfigCache.UpdateDynamicAppCache | XCast/XCastImplementation.cpp:1361-1442 | The contents after the in-place update: its last records hold the batch entry by entry; a failing allocation leaves the cache alone and leaks the records built so far. |
| AppCache.AppConfigCache.Conserved | XCast/XCastImplementation.cpp:1350-1352 | Records allocated are records freed plus leaked plus cached; a freed record was freed once and is not in the vector. |
| AppCache.MakeRecord | XCast/XCastImplementation.cpp:1371-1400 | The record holds the entry: name and id in 64 bytes each, prefixes and cors in 128, query in 2048, payload in 12289, each text whole if it fits beside its terminator and otherwise its first width-1 characters; allowStop as given. |
| CStrings.FillBuffer | XCast/XCastImplementation.cpp:1376-1378 | Clear, copy, terminate: the buffer reads back as the text cut to its width. |
| CStrings.StoredFaithful | XCast/XCastImplementation.cpp:1376-1378 | Nothing is lost if and only if the text fits beside its terminator; storing twice is storing once. |
| Forwarding.ForwardsFirstMatch | XCast/XCastImplementation.cpp:553-604 | A lifecycle event sends exactly one message, exactly when there is an instance, the state is known and some record has its id, or no id and its name. It goes under the first such record and says "running" exactly for loading, initializing, running and active, "suspended" exactly for suspended, paused and hibernated, "stopped" exactly for unloaded and terminating. |
| Forwarding.CachedWasRegistered | XCast/XCastImplementation.cpp:1361-1435 | Over any run, every cached record holds, text by text, an entry that was registered. |
| Forwarding.ForwardedWasRegistered | XCast/XCastImplementation.cpp:553-604 | Over any run, whatever a lifecycle event forwards goes under the stored name of a registered entry with that id, or with that name and no id. |
| Forwarding.RegisteredIsForwarded | XCast/XCastImplementation.cpp:553-604 | Over any run, a registered entry is the one that a later lifecycle event for its id is forwarded under, as long as the id fits its buffer, no earlier record is meant and no other batch came between. |
| Forwarding.AnnouncesExactly | XCast/XCastImplementation.cpp:1079-1136 | SetApplicationState sends exactly one message to an instance, for a name and a known error code, with each text in its place. |
| Forwarding.SilentAfterUnregister | XCast/XCastImplementation.cpp:553-604 | Over whole runs, after a name stored once is unregistered nothing is forwarded under it until a batch stores it again. |
| Forwarding.UnregisterRemovesIff | XCast/XCastImplementation.cpp:1476-1498 | A batch that erases correctly leaves no record of a name it contains if and only if at most one record had the name. |
| Notifications.NotificationList.Register | XCast/XCastImplementation.cpp:104-123 | Appends and takes a reference unless the sink is already there; the references held equal the membership. |
| Notifications.NotificationList.Unregister | XCast/XCastImplementation.cpp:128-150 | Fails exactly for a sink that is not registered; otherwise removes it and gives its reference back. |
| Notifications.NotificationList.Dispatch | XCast/XCastImplementation.cpp:1000-1060 | After any history of registrations: the calls are one per current member in list order, so each member is called exactly once and nobody else; the power-state event has no branch and calls nobody. |
| Notifications.RosterIsMembersInJoinOrder | XCast/XCastImplementation.cpp:104-150 | Over any history the list holds exactly the sinks whose last operation was a registration, each once, in the order their membership began. |
| Notifications.FanOutExactlyOnce | XCast/XCastImplementation.cpp:1000-1060 | For any history and event, what a dispatch calls contains each member exactly once, earlier members first, and nobody else. |
| Uuid.GenerateUuidV5 | XCast/XCastManager.cpp:607-684 | Empty exactly for an empty serial number or a failed hash; otherwise 36 characters in the form of section 3 of RFC 4122 that parse back to the stamped hash of the DNS namespace and the serial number. |
| Uuid.PrintRoundTrip | XCast/XCastManager.cpp:660-678 | Printing 16 bytes and parsing the text gives back the bytes. |
| Uuid.NamespaceText | XCast/XCastManager.cpp:616-622 | The namespace hashed in front of the serial number prints as the one of appendix C of RFC 4122 for domain names. |
| Uuid.HexDigits | XCast/XCastManager.cpp:660-668 | A digit is the one in its place among 0123456789abcdef. |
| Uuid.TextDeterminesFreeBits | XCast/XCastManager.cpp:639-644 | Two hashes give the same text if and only if they agree on every bit but the version and variant bits. |
| Uuid.StampBits | XCast/XCastManager.cpp:642-644 | Version nibble 5 (section 4.1.3), variant bits 10 (section 4.1.1), every other bit as hashed. |
| Uuid.VersionAndVariantDigits | XCast/XCastManager.cpp:642-678 | Position 14 is 5 and position 19 is 8, 9, a or b. |
| Uuid.FormatBytes | XCast/XCastManager.cpp:660-664 | Appends two lower-case digits for each byte of the range. |
| Properties.EnvGetValue | XCast/XCastManager.cpp:394-418 | The scan returns the value of the first line with the key, and clears the value on a miss or a missing file. |
| Properties.FirstMatchIsFirst | XCast/XCastManager.cpp:403-415 | First-match lookup is the first line that has the key, or nothing when no line has it. |
| Properties.ScanRendered | XCast/XCastManager.cpp:394-418 | On a file rendered from any list of pairs the scan is association-list lookup, for every key asked for. |
| Properties.ScanUnterminated | XCast/XCastManager.cpp:394-418 | The same when no newline ends the last pair. |
| Properties.LinesExact | XCast/XCastManager.cpp:403 | Reading by lines gives back the lines a text was made of, and a last one that no newline ends. |
| Properties.BareLineIsItsOwnValue | XCast/XCastManager.cpp:405-410 | A line without '=' answers a query for its whole text with that text. |

## Left out

- Other finer interleavings of the entry points: `Interleaving` takes the push and the caching of `enableCastService`, and the delete and the append of an update, apart; the pointer snapshot that `UnregisterApplications` uses outside its lock is not part of this model.
- LockProtocol.DeadlockFree: external calls are single local operations that return; what gdial, the timer or the other plugins lock inside is not part of this model.
- Teardown.MisuseIffWaiting: one Deinitialize at a time; a worker restart racing with Configure(nullptr) is not modelled, and the foreign Unregister is a step that does not wait for callbacks in flight.
- Reconnect.ReplayRefinesAlwaysConnected: application state messages are not replayed by the code, so the ideal backend does not keep them.
- XCastImplementation.XCastImplementation.DeinitializeAll: leaves out the wait for workers, which `Workers` models step by step.
- The precedence of receiver id sources and the cleaning of the device id file: the id is an input of each launch.
- Acquisition of the other plugins with its retries, AppActions, setPowerState and the plain getters: foreign calls or single branches.
- JSON building, logging, dump functions, real time and sleep durations; only the number of wait rounds is modelled.
- The result of a null manager factory: getInstance always yields an object.
- The command-line rendering of the launch options: a launch carries them as a record in which an empty text is an absent option.
- XCast/XCast.cpp: the host plumbing, which only forwards.
- TpTimer, the worker pool, `std::sort` and SHA-1 themselves: a timer is its interval while armed, sorting is insertion into descending order, the hash is a function parameter.
