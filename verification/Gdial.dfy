/** The gdial library as the manager sees it: a log of calls, the instance an observer of that log reconstructs,
    and the protocol the log has to follow. The library itself is not part of this model. */
module Gdial {
  import opened Options
  import opened AppCacheSpec

  /** One entry of a registration list. */
  datatype AppEntry = AppEntry(names: string, prefixes: string, cors: string, allowStop: bool)

  function Project(c: AppConfig): AppEntry {
    AppEntry(c.appName, c.prefixes, c.cors, c.allowStop)
  }

  function ProjectAll(cache: seq<AppConfig>): (r: seq<AppEntry>)
    ensures |r| == |cache| && forall i :: 0 <= i < |r| ==> r[i] == Project(cache[i])
  {
    seq(|cache|, i requires 0 <= i < |cache| => Project(cache[i]))
  }

  /** A registration list says of each record, in order, its name, prefixes, cors and whether it may be stopped. */
  predicate Lists(entries: seq<AppEntry>, records: seq<AppConfig>) {
    && |entries| == |records|
    && forall i :: 0 <= i < |entries| ==>
         && entries[i].names == records[i].appName
         && entries[i].prefixes == records[i].prefixes
         && entries[i].cors == records[i].cors
         && entries[i].allowStop == records[i].allowStop
  }

  lemma ProjectionLists(records: seq<AppConfig>)
    ensures Lists(ProjectAll(records), records)
  {}

  /** The argument list of getInstance; an empty string stands for an option that is not passed. */
  datatype Launch = Launch(iface: string, uuid: string, model: string, manufacturer: string,
                           friendlyName: string, appList: string, friendlyFeature: bool, wolWake: bool)

  datatype Call =
    | Create(launch: Launch)
    | Destroy
    | ActivationChanged(active: bool, name: string)
    | RegisterApplications(apps: seq<AppEntry>)
    | SetModelName(model: string)
    | SetManufacturerName(manufacturer: string)
    | SetNetworkStandbyMode(mode: bool)
    | ApplicationStateChanged(app: string, state: string, id: string, error: string)

  /** The interface an instance was launched on and what it was last told, by a launch option or a call.
      `apps` is `None` until a list is registered. */
  datatype Instance = Instance(iface: string, active: bool, name: string, apps: Option<seq<AppEntry>>,
                               model: string, manufacturer: string, networkStandby: bool)

  function Told(b: Instance, c: Call): Instance {
    match c
    case ActivationChanged(a, n) => b.(active := a, name := n)
    case RegisterApplications(apps) => b.(apps := Some(apps))
    case SetModelName(m) => b.(model := m)
    case SetManufacturerName(m) => b.(manufacturer := m)
    case SetNetworkStandbyMode(mode) => b.(networkStandby := mode)
    case _ => b
  }

  function Apply(b: Option<Instance>, c: Call): Option<Instance> {
    match c
    case Create(l) => Some(Instance(l.iface, false, l.friendlyName, None, l.model, l.manufacturer, l.wolWake))
    case Destroy => None
    case _ => if b.Some? then Some(Told(b.value, c)) else None
  }

  /** The instance alive after the calls, if any. */
  function Observe(calls: seq<Call>): Option<Instance> {
    if calls == [] then None else Apply(Observe(calls[..|calls| - 1]), calls[|calls| - 1])
  }

  /** At most one instance at a time, and no call without one. */
  ghost predicate Legal(calls: seq<Call>) {
    calls == [] ||
    (Legal(calls[..|calls| - 1]) &&
     (calls[|calls| - 1].Create? <==> Observe(calls[..|calls| - 1]) == None))
  }

  lemma Snoc(calls: seq<Call>, c: Call)
    ensures Observe(calls + [c]) == Apply(Observe(calls), c)
    ensures Legal(calls + [c]) <==> Legal(calls) && (c.Create? <==> Observe(calls) == None)
  {
    assert (calls + [c])[..|calls|] == calls;
  }

  function Creations(calls: seq<Call>): nat {
    if calls == [] then 0 else Creations(calls[..|calls| - 1]) + if calls[|calls| - 1].Create? then 1 else 0
  }

  function Destructions(calls: seq<Call>): nat {
    if calls == [] then 0 else Destructions(calls[..|calls| - 1]) + if calls[|calls| - 1].Destroy? then 1 else 0
  }

  /** Creations minus destructions is 0 or 1, and 1 exactly when an instance is alive. */
  lemma {:induction false} InstancesConserved(calls: seq<Call>)
    requires Legal(calls)
    ensures Creations(calls) - Destructions(calls) == if Observe(calls).Some? then 1 else 0
  {
    if calls != [] { InstancesConserved(calls[..|calls| - 1]); }
  }

  lemma {:induction false} LegalPrefix(calls: seq<Call>, n: nat)
    requires Legal(calls) && n <= |calls|
    ensures Legal(calls[..n])
  {
    if n == |calls| {
      assert calls[..n] == calls;
    } else {
      LegalPrefix(calls[..|calls| - 1], n);
      assert calls[..|calls| - 1][..n] == calls[..n];
    }
  }

  /** Between `i` and `j` nothing changes whether an instance is alive. */
  lemma {:induction false} AliveUntilDestroyed(calls: seq<Call>, i: nat, j: nat)
    requires Legal(calls) && i < j <= |calls|
    requires calls[i].Create? && forall k :: i < k < j ==> !calls[k].Destroy?
    ensures Observe(calls[..j]).Some?
    decreases j
  {
    assert calls[..j][..j - 1] == calls[..j - 1];
    LegalPrefix(calls, j);
    if i < j - 1 { AliveUntilDestroyed(calls, i, j - 1); }
  }

  lemma {:induction false} DeadUntilCreated(calls: seq<Call>, i: nat, j: nat)
    requires Legal(calls) && i < j <= |calls|
    requires calls[i].Destroy? && forall k :: i < k < j ==> !calls[k].Create?
    ensures Observe(calls[..j]) == None
    decreases j
  {
    assert calls[..j][..j - 1] == calls[..j - 1];
    LegalPrefix(calls, j);
    if i < j - 1 {
      DeadUntilCreated(calls, i, j - 1);
    }
  }

  /** Creation and destruction strictly alternate. */
  lemma Alternation(calls: seq<Call>, i: nat, j: nat)
    requires Legal(calls) && i < j < |calls|
    ensures calls[i].Create? && calls[j].Create? ==> exists k :: i < k < j && calls[k].Destroy?
    ensures calls[i].Destroy? && calls[j].Destroy? ==> exists k :: i < k < j && calls[k].Create?
  {
    LegalPrefix(calls, j + 1);
    assert calls[..j + 1][..j] == calls[..j];
    if calls[i].Create? && forall k :: i < k < j ==> !calls[k].Destroy? {
      AliveUntilDestroyed(calls, i, j);
    }
    if calls[i].Destroy? && forall k :: i < k < j ==> !calls[k].Create? {
      DeadUntilCreated(calls, i, j);
    }
  }

  /** Every call that is not a creation reaches an instance that is alive. */
  lemma NoCallWithoutInstance(calls: seq<Call>, j: nat)
    requires Legal(calls) && j < |calls|
    ensures Observe(calls[..j]).Some? <==> !calls[j].Create?
  {
    LegalPrefix(calls, j + 1);
    assert calls[..j + 1][..j] == calls[..j];
  }
}
