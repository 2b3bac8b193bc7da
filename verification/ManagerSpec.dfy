/** XCastManager.cpp on values: the names that outlive instances and the calls made to gdial. */
module ManagerSpec {
  import opened Options
  import opened Gdial
  import Properties

  /** The file's globals. `handle` is "gdialCastObj is not null". */
  datatype Manager = Manager(uuid: string, model: string, manufacturer: string, defaultName: string,
                             defaultAppList: string, handle: bool, calls: seq<Call>)

  const INITIAL_MANAGER: Manager := Manager("", "", "", "", "", false, [])

  /** The RFC parameters read by initialize; a build without RFC has the three switches on and no list. */
  datatype Rfc = Rfc(xdial: bool, friendlyName: bool, wolWake: bool, appList: Option<string>)

  /** What the outside answers while a connection is tried. */
  datatype Environment = Environment(rfc: Rfc, receiverId: string, properties: Option<string>, gdialOk: bool)

  function Property(text: Option<string>, key: string): string {
    if text == None then ""
    else
      match Properties.FirstMatch(Properties.Lines(text.value), key)
      case Some(v) => v
      case None => ""
  }

  function Emit(m: Manager, c: Call): Manager { m.(calls := m.calls + [c]) }

  /** The names settled before a launch. */
  function Settle(m: Manager, env: Environment): Manager {
    var uuid := if m.uuid == "" then env.receiverId else m.uuid;
    var model := if m.model == "" then Property(env.properties, "MODEL_NUM") else m.model;
    var manufacturer := if m.manufacturer == "" then Property(env.properties, "MFG_NAME") else m.manufacturer;
    var defaultName := if m.defaultName == "" then model + "_" + manufacturer else m.defaultName;
    var appList := if env.rfc.appList.Some? then env.rfc.appList.value else m.defaultAppList;
    m.(uuid := uuid, model := model, manufacturer := manufacturer,
       defaultName := defaultName, defaultAppList := appList)
  }

  function LaunchOf(m: Manager, iface: string, standby: bool, env: Environment): Launch {
    Launch(iface, m.uuid, m.model, m.manufacturer, m.defaultName, m.defaultAppList,
           env.rfc.friendlyName, env.rfc.wolWake && standby)
  }

  function Initialized(m: Manager, iface: string, standby: bool, env: Environment): (Manager, bool) {
    if iface == "" then (m, false)
    else if !env.rfc.xdial then (m, true)
    else
      var n := Settle(m, env);
      if !n.handle && env.gdialOk then (Emit(n, Create(LaunchOf(n, iface, standby, env))).(handle := true), true)
      else (n, n.handle)
  }

  function Deinitialized(m: Manager): Manager {
    if m.handle then Emit(m, Destroy).(handle := false) else m
  }

  /** A call that is dropped when there is no instance. */
  function Tell(m: Manager, c: Call): Manager {
    if m.handle then Emit(m, c) else m
  }

  function WithManufacturer(m: Manager, name: string): Manager {
    Tell(m, SetManufacturerName(name)).(manufacturer := name)
  }

  function WithModel(m: Manager, name: string): Manager {
    Tell(m, SetModelName(name)).(model := name)
  }

  // ----- what a launch is made of -----

  /** One launch more than `before`, with exactly the names and lists stored in `n` and the switches of the RFC. */
  ghost predicate LaunchAdded(before: seq<Call>, n: Manager, iface: string, standby: bool, env: Environment) {
    && |n.calls| == |before| + 1 && before == n.calls[..|before|] && n.calls[|before|].Create?
    && var l := n.calls[|before|].launch;
       && l.iface == iface && l.uuid == n.uuid && l.model == n.model && l.manufacturer == n.manufacturer
       && l.friendlyName == n.defaultName && l.appList == n.defaultAppList
       && l.friendlyFeature == env.rfc.friendlyName && l.wolWake == (env.rfc.wolWake && standby)
  }

  /** Names that `m` knows are kept; the others come from the receiver id, from two lines of the properties file and,
      for the default name, from the two names. The list is the one the RFC answers, if it does. */
  ghost predicate SettledFrom(m: Manager, n: Manager, env: Environment) {
    && n.uuid == (if m.uuid == "" then env.receiverId else m.uuid)
    && n.model == (if m.model == "" then Property(env.properties, "MODEL_NUM") else m.model)
    && n.manufacturer == (if m.manufacturer == "" then Property(env.properties, "MFG_NAME") else m.manufacturer)
    && n.defaultName == (if m.defaultName == "" then n.model + "_" + n.manufacturer else m.defaultName)
    && n.defaultAppList == (if env.rfc.appList.Some? then env.rfc.appList.value else m.defaultAppList)
  }

  lemma InitializedExact(m: Manager, iface: string, standby: bool, env: Environment)
    ensures var n := Initialized(m, iface, standby, env).0;
            && (iface != "" && env.rfc.xdial ==> SettledFrom(m, n, env))
            && (iface == "" || !env.rfc.xdial ==> n == m)
            && (n.handle && !m.handle ==> LaunchAdded(m.calls, n, iface, standby, env))
            && (n.handle == m.handle ==> n.calls == m.calls)
  {}

  // ----- what every operation keeps -----

  /** The calls are legal, the handle tells whether an instance is alive, and an instance knows the stored names. */
  ghost predicate Coherent(m: Manager) {
    && Legal(m.calls)
    && (m.handle <==> Observe(m.calls).Some?)
    && (m.handle ==> Observe(m.calls).value.model == m.model && Observe(m.calls).value.manufacturer == m.manufacturer)
  }

  /** Every launch so far passed the stored default name, and the stored receiver id or none. */
  ghost predicate Sticky(m: Manager) {
    && (forall i :: 0 <= i < |m.calls| && m.calls[i].Create? ==>
          && m.calls[i].launch.friendlyName == m.defaultName != ""
          && (m.calls[i].launch.uuid == "" || m.calls[i].launch.uuid == m.uuid))
    && (forall i, j :: 0 <= i < j < |m.calls| && m.calls[i].Create? && m.calls[j].Create? ==>
          m.calls[i].launch.uuid == "" || m.calls[j].launch.uuid == m.calls[i].launch.uuid)
  }

  lemma TellKeeps(m: Manager, c: Call)
    requires Coherent(m) && Sticky(m) && !c.Create? && !c.Destroy? && !c.SetModelName? && !c.SetManufacturerName?
    ensures Coherent(Tell(m, c)) && Sticky(Tell(m, c))
  {
    Snoc(m.calls, c);
  }

  lemma ModelKeeps(m: Manager, name: string)
    requires Coherent(m) && Sticky(m)
    ensures Coherent(WithModel(m, name)) && Sticky(WithModel(m, name))
  {
    Snoc(m.calls, SetModelName(name));
  }

  lemma ManufacturerKeeps(m: Manager, name: string)
    requires Coherent(m) && Sticky(m)
    ensures Coherent(WithManufacturer(m, name)) && Sticky(WithManufacturer(m, name))
  {
    Snoc(m.calls, SetManufacturerName(name));
  }

  lemma DeinitializedKeeps(m: Manager)
    requires Coherent(m) && Sticky(m)
    ensures Coherent(Deinitialized(m)) && Sticky(Deinitialized(m))
    ensures Observe(Deinitialized(m).calls) == None
  {
    Snoc(m.calls, Destroy);
  }

  /** Settling fills only what is empty, so it contradicts no earlier launch. */
  lemma SettleKeeps(m: Manager, env: Environment)
    requires Coherent(m) && Sticky(m) && !m.handle
    ensures Coherent(Settle(m, env)) && Sticky(Settle(m, env)) && Settle(m, env).defaultName != ""
  {}

  lemma CreateKeeps(n: Manager, l: Launch)
    requires Coherent(n) && Sticky(n) && !n.handle
    requires l.friendlyName == n.defaultName != "" && l.uuid == n.uuid
    requires l.model == n.model && l.manufacturer == n.manufacturer
    ensures Coherent(Emit(n, Create(l)).(handle := true)) && Sticky(Emit(n, Create(l)).(handle := true))
  {
    Snoc(n.calls, Create(l));
  }

  lemma InitializedKeeps(m: Manager, iface: string, standby: bool, env: Environment)
    requires Coherent(m) && Sticky(m) && !m.handle
    ensures var (n, ok) := Initialized(m, iface, standby, env);
            && Coherent(n) && Sticky(n)
            && (env.rfc.xdial ==> (ok <==> n.handle))
            && (ok && !env.rfc.xdial ==> n == m)
  {
    SettleKeeps(m, env);
    var n := Settle(m, env);
    CreateKeeps(n, LaunchOf(n, iface, standby, env));
  }

  /** The plugin initializes only without an instance. Over a live one, initialize may settle a cleared name that the
      instance is never told; it keeps the names in step exactly when neither stored name is empty or what the file
      says is empty too. */
  lemma InitializeOnLiveInstance(m: Manager, iface: string, standby: bool, env: Environment)
    requires Coherent(m) && m.handle && iface != "" && env.rfc.xdial
    ensures Coherent(Initialized(m, iface, standby, env).0) <==>
            && (m.model != "" || Property(env.properties, "MODEL_NUM") == "")
            && (m.manufacturer != "" || Property(env.properties, "MFG_NAME") == "")
  {}
}
