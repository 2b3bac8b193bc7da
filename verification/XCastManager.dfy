/** The manager object over gdial: its methods, against the value specification. */
module XCastManager {
  import opened Options
  import opened AppCache
  import opened Gdial
  import opened ManagerSpec
  import Properties

  class RegisterAppEntryList {
    var entries: seq<AppEntry>

    constructor ()
      ensures entries == []
    {
      entries := [];
    }

    method PushBack(entry: AppEntry)
      modifies this
      ensures entries == old(entries) + [entry]
    {
      entries := entries + [entry];
    }
  }

  class XCastManager {
    var uuid: string
    var modelName: string
    var manufacturerName: string
    var defaultFriendlyName: string
    var defaultAppList: string
    var gdialCastObj: bool
    ghost var calls: seq<Call>
    /** The registration lists ever built, those given to gdial, and those deleted here. */
    ghost var built: set<RegisterAppEntryList>
    ghost var handed: set<RegisterAppEntryList>
    ghost var deleted: set<RegisterAppEntryList>

    /** Every list ever built was either handed over or deleted, never both. What the calls keep is proved
        about the value that State gives. */
    ghost predicate Valid()
      reads this
    {
      built == handed + deleted && handed !! deleted
    }

    ghost function State(): Manager
      reads this
    {
      Manager(uuid, modelName, manufacturerName, defaultFriendlyName, defaultAppList, gdialCastObj, calls)
    }

    /** The instance as gdial was last told, if there is one. */
    ghost function Seen(): Option<Instance>
      reads this
    {
      Observe(calls)
    }

    /** What every operation keeps: legal calls, a truthful handle, names in step, one identity for all launches. */
    ghost predicate InStep()
      reads this
    {
      Coherent(State()) && Sticky(State())
    }

    constructor ()
      ensures Valid() && InStep() && State() == INITIAL_MANAGER && built == {}
    {
      uuid, modelName, manufacturerName, defaultFriendlyName, defaultAppList := "", "", "", "", "";
      gdialCastObj, calls := false, [];
      built, handed, deleted := {}, {}, {};
    }

    method SettleDeviceNames(env: Environment)
      modifies this`modelName, this`manufacturerName
      ensures modelName == if old(modelName) == "" then Property(env.properties, "MODEL_NUM") else old(modelName)
      ensures manufacturerName == if old(manufacturerName) == "" then Property(env.properties, "MFG_NAME")
                                  else old(manufacturerName)
    {
      if modelName == "" {
        modelName := ReadProperty(env.properties, "MODEL_NUM");
      }
      if manufacturerName == "" {
        manufacturerName := ReadProperty(env.properties, "MFG_NAME");
      }
    }

    /** Reads the RFC list and settles the names that are still empty. */
    method SettleNames(env: Environment)
      modifies this`uuid, this`modelName, this`manufacturerName, this`defaultFriendlyName, this`defaultAppList
      ensures State() == Settle(old(State()), env)
    {
      if env.rfc.appList.Some? {
        defaultAppList := env.rfc.appList.value;
      }
      if uuid == "" {
        uuid := env.receiverId;
      }
      SettleDeviceNames(env);
      SettleDefaultName();
    }

    /** The name is never empty afterwards, and an earlier one is kept. */
    method SettleDefaultName()
      modifies this`defaultFriendlyName
      ensures defaultFriendlyName == if old(defaultFriendlyName) == "" then modelName + "_" + manufacturerName
                                     else old(defaultFriendlyName)
    {
      if defaultFriendlyName == "" {
        defaultFriendlyName := modelName + "_" + manufacturerName;
      }
    }

    /** Success means that there is an instance or that the RFC is off. A new instance runs on the given interface,
        inactive, under the default name, with no application list, knows the stored model and manufacturer, and wakes
        on LAN if the network standby mode is on and the RFC allows it. */
    method Initialize(iface: string, networkStandbyMode: bool, env: Environment) returns (ok: bool)
      requires Valid()
      modifies this
      ensures (State(), ok) == Initialized(old(State()), iface, networkStandbyMode, env) && Valid()
      ensures ok <==> iface != "" && (env.rfc.xdial ==> gdialCastObj)
      ensures gdialCastObj && !old(gdialCastObj) ==>
                Seen() == Some(Instance(iface, false, defaultFriendlyName, None, modelName, manufacturerName,
                                        env.rfc.wolWake && networkStandbyMode))
      ensures gdialCastObj && !old(gdialCastObj) ==> LaunchAdded(old(calls), State(), iface, networkStandbyMode, env)
      ensures iface != "" && env.rfc.xdial ==> SettledFrom(old(State()), State(), env)
      ensures gdialCastObj == old(gdialCastObj) ==> calls == old(calls)
      ensures old(InStep() && !gdialCastObj) ==> InStep()
    {
      ghost var m := State();
      if iface == "" {
        return false;
      }
      if !env.rfc.xdial {
        return true;
      }
      SettleNames(env);
      if !gdialCastObj && env.gdialOk {
        Snoc(calls, Create(LaunchOf(State(), iface, networkStandbyMode, env)));
        calls := calls + [Create(LaunchOf(State(), iface, networkStandbyMode, env))];
        gdialCastObj := true;
      }
      ok := gdialCastObj;
      InitializedExact(m, iface, networkStandbyMode, env);
      if Coherent(m) && Sticky(m) && !m.handle {
        InitializedKeeps(m, iface, networkStandbyMode, env);
      }
    }

    method Deinitialize()
      requires Valid()
      modifies this
      ensures Valid() && State() == Deinitialized(old(State())) && !gdialCastObj
    {
      if gdialCastObj {
        calls := calls + [Destroy];
        gdialCastObj := false;
      }
    }

    /** An instance has these two values afterwards and everything else as before; without one the call is lost. */
    method EnableCastService(friendlyName: string, enable: bool)
      requires Valid()
      modifies this
      ensures Valid() && State() == Tell(old(State()), ActivationChanged(enable, friendlyName))
      ensures !gdialCastObj ==> Seen() == old(Seen())
      ensures gdialCastObj && old(Seen()).Some? ==>
                Seen() == Some(old(Seen()).value.(active := enable, name := friendlyName))
      ensures old(InStep()) ==> InStep()
    {
      Snoc(calls, ActivationChanged(enable, friendlyName));
      if gdialCastObj {
        calls := calls + [ActivationChanged(enable, friendlyName)];
      }
    }

    method SetNetworkStandbyMode(mode: bool)
      requires Valid()
      modifies this
      ensures Valid() && State() == Tell(old(State()), Call.SetNetworkStandbyMode(mode))
      ensures !gdialCastObj ==> Seen() == old(Seen())
      ensures gdialCastObj && old(Seen()).Some? ==> Seen() == Some(old(Seen()).value.(networkStandby := mode))
      ensures old(InStep()) ==> InStep()
    {
      Snoc(calls, Call.SetNetworkStandbyMode(mode));
      if gdialCastObj {
        calls := calls + [Call.SetNetworkStandbyMode(mode)];
      }
    }

    /** Answers 1 exactly when gdial got the message; nothing an instance was told before is changed by it. */
    method ApplicationState(app: string, state: string, id: string, error: string) returns (status: int)
      requires Valid()
      modifies this
      ensures Valid() && State() == Tell(old(State()), ApplicationStateChanged(app, state, id, error))
      ensures status == if calls == old(calls) + [ApplicationStateChanged(app, state, id, error)] then 1 else 0
      ensures old(Seen()).Some? ==> Seen() == old(Seen())
      ensures old(InStep()) ==> InStep()
    {
      Snoc(calls, ApplicationStateChanged(app, state, id, error));
      status := 0;
      if gdialCastObj {
        calls := calls + [ApplicationStateChanged(app, state, id, error)];
        status := 1;
      }
    }

    method SetManufacturerName(manufacturer: string) returns (status: int)
      requires Valid()
      modifies this
      ensures Valid() && State() == WithManufacturer(old(State()), manufacturer) && manufacturerName == manufacturer
      ensures status == if gdialCastObj then 1 else 0
      ensures !gdialCastObj ==> Seen() == old(Seen())
      ensures gdialCastObj && old(Seen()).Some? ==> Seen() == Some(old(Seen()).value.(manufacturer := manufacturerName))
      ensures old(InStep()) ==> InStep()
    {
      Snoc(calls, Call.SetManufacturerName(manufacturer));
      status := 0;
      if gdialCastObj {
        calls := calls + [Call.SetManufacturerName(manufacturer)];
        status := 1;
      }
      manufacturerName := manufacturer;
    }

    method SetModelName(model: string) returns (status: int)
      requires Valid()
      modifies this
      ensures Valid() && State() == WithModel(old(State()), model) && modelName == model
      ensures status == if gdialCastObj then 1 else 0
      ensures !gdialCastObj ==> Seen() == old(Seen())
      ensures gdialCastObj && old(Seen()).Some? ==> Seen() == Some(old(Seen()).value.(model := modelName))
      ensures old(InStep()) ==> InStep()
    {
      Snoc(calls, Call.SetModelName(model));
      status := 0;
      if gdialCastObj {
        calls := calls + [Call.SetModelName(model)];
        status := 1;
      }
      modelName := model;
    }

    /** Builds one list; gdial takes it if there is an instance, otherwise it is deleted. */
    method RegisterApplications(appConfigList: seq<DynamicAppConfig>)
      requires Valid()
      modifies this
      ensures Valid()
      ensures State() == Tell(old(State()), Call.RegisterApplications(ProjectAll(Configs(appConfigList))))
      ensures |built| == |old(built)| + 1
      ensures !gdialCastObj ==> Seen() == old(Seen())
      ensures gdialCastObj && old(Seen()).Some? ==>
                && Seen().Some? && Seen().value.apps.Some?
                && Lists(Seen().value.apps.value, Configs(appConfigList))
                && Seen().value == old(Seen()).value.(apps := Seen().value.apps)
    {
      var list := BuildList(appConfigList);
      Snoc(calls, Call.RegisterApplications(list.entries));
      ProjectionLists(Configs(appConfigList));
      HandOver(list);
    }

    method HandOver(list: RegisterAppEntryList)
      requires Valid() && list !in built
      modifies this
      ensures Valid() && State() == Tell(old(State()), Call.RegisterApplications(list.entries))
      ensures built == old(built) + {list}
      ensures if old(gdialCastObj) then handed == old(handed) + {list} else deleted == old(deleted) + {list}
    {
      built := built + {list};
      if gdialCastObj {
        calls := calls + [Call.RegisterApplications(list.entries)];
        handed := handed + {list};
      } else {
        deleted := deleted + {list};
      }
    }
  }

  /** envGetValue with its result dropped: a miss leaves the empty string. */
  method ReadProperty(text: Option<string>, key: string) returns (value: string)
    ensures value == Property(text, key)
  {
    var found;
    found, value := Properties.EnvGetValue(text, key);
  }

  method BuildList(appConfigList: seq<DynamicAppConfig>) returns (list: RegisterAppEntryList)
    ensures fresh(list) && list.entries == ProjectAll(Configs(appConfigList))
  {
    list := new RegisterAppEntryList();
    var n := 0;
    while n < |appConfigList|
      invariant n <= |appConfigList| && fresh(list)
      invariant list.entries == ProjectAll(Configs(appConfigList))[..n]
    {
      var c := appConfigList[n].config;
      list.PushBack(AppEntry(c.appName, c.prefixes, c.cors, c.allowStop));
      n := n + 1;
    }
  }
}
