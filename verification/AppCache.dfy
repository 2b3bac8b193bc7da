/** `m_appConfigCache`: a vector of heap records, updated in place. */
module AppCache {
  import opened CStrings
  import opened Sequences
  import opened AppCacheSpec

  /** A heap record; the code fills it once, before anyone else can see it. */
  class DynamicAppConfig {
    const config: AppConfig

    constructor (config: AppConfig)
      ensures this.config == config
    {
      this.config := config;
    }
  }

  function Configs(records: seq<DynamicAppConfig>): (r: seq<AppConfig>)
    ensures |r| == |records| && forall i :: 0 <= i < |r| ==> r[i] == records[i].config
  {
    seq(|records|, i requires 0 <= i < |records| => records[i].config)
  }

  lemma {:induction false} EraseAllConfigs(records: seq<DynamicAppConfig>, indices: seq<nat>)
    ensures EraseAll(records, indices).Some? == EraseAll(Configs(records), indices).Some?
    ensures EraseAll(records, indices).Some? ==>
              Configs(EraseAll(records, indices).value) == EraseAll(Configs(records), indices).value
  {
    if indices != [] && indices[0] < |records| {
      assert Configs(EraseAt(records, indices[0])) == EraseAt(Configs(records), indices[0]);
      EraseAllConfigs(EraseAt(records, indices[0]), indices[1..]);
    }
  }

  /** The six buffers are cleared, filled and terminated one after another. */
  method MakeRecord(a: AppInfo) returns (r: DynamicAppConfig)
    ensures fresh(r) && r.config == StoreApp(a) && Holds(r.config, a)
  {
    StoredHolds(a);
    var appName := FillBuffer(NAME_WIDTH, a.appName);
    var appId := FillBuffer(ID_WIDTH, a.appId);
    var prefixes := FillBuffer(PREFIXES_WIDTH, a.prefixes);
    var cors := FillBuffer(CORS_WIDTH, a.cors);
    var query := FillBuffer(QUERY_WIDTH, a.query);
    var payload := FillBuffer(DIAL_MAX_PAYLOAD + 1, a.payload);
    r := new DynamicAppConfig(AppConfig(CStr(appName[..]), CStr(appId[..]), CStr(prefixes[..]), CStr(cors[..]),
                                        a.allowStop, CStr(query[..]), CStr(payload[..])));
  }

  /** The allocation loop of an update: it stops at the first allocation that fails. */
  method BuildRecords(apps: seq<AppInfo>, mallocs: nat) returns (list: seq<DynamicAppConfig>)
    ensures |list| == if mallocs < |apps| then mallocs else |apps|
    ensures forall i :: 0 <= i < |list| ==> fresh(list[i]) && list[i].config == StoreApp(apps[i])
    ensures Distinct(list)
  {
    list := [];
    while |list| < |apps| && |list| < mallocs
      invariant |list| <= |apps| && |list| <= mallocs
      invariant forall i :: 0 <= i < |list| ==> fresh(list[i]) && list[i].config == StoreApp(apps[i])
      invariant Distinct(list)
    {
      var r := MakeRecord(apps[|list|]);
      list := list + [r];
    }
  }

  class AppConfigCache {
    var entries: seq<DynamicAppConfig>
    ghost var issued: multiset<DynamicAppConfig>
    ghost var freed: multiset<DynamicAppConfig>
    ghost var leaked: multiset<DynamicAppConfig>

    /** Every record ever allocated is in exactly one place: freed once, leaked, or in the vector once. */
    ghost predicate Valid()
      reads this
    {
      && issued == freed + leaked + multiset(entries)
      && forall r :: r in issued ==> issued[r] == 1
    }

    function Contents(): (r: seq<AppConfig>)
      reads this
    {
      Configs(entries)
    }

    constructor ()
      ensures Valid() && entries == [] && issued == multiset{}
    {
      entries := [];
      issued, freed, leaked := multiset{}, multiset{}, multiset{};
    }

    /** Allocated equals freed plus leaked plus cached; a freed record was freed once and is not in the vector. */
    lemma Conserved()
      requires Valid()
      ensures |issued| == |freed| + |leaked| + |entries|
      ensures forall r :: r in freed ==> freed[r] == 1 && r !in entries && r !in leaked
      ensures Distinct(entries)
    {
      forall r | r in freed ensures freed[r] == 1 && r !in entries && r !in leaked {
        assert r in issued;
        assert r in entries <==> r in multiset(entries);
      }
      forall i, j | 0 <= i < j < |entries| ensures entries[i] != entries[j] {
        assert entries == entries[..j] + [entries[j]] + entries[j + 1..];
        assert entries[i] in entries[..j];
        assert entries[j] in issued;
      }
    }

    /** The inner search loop: the index of the first record of that name, or the length of the vector. */
    method Search(name: string) returns (index: nat)
      ensures index == FirstIndex(Contents(), name)
    {
      index := 0;
      while index < |entries| && entries[index].config.appName != CStr(name)
        invariant index <= |entries|
        invariant forall k :: 0 <= k < index ==> entries[k].config.appName != CStr(name)
      {
        index := index + 1;
      }
      FirstIndexIs(Contents(), name, index);
    }

    /** The outer search loop. */
    method CollectIndices(names: seq<string>) returns (indices: seq<nat>)
      ensures indices == Collect(Contents(), names)
    {
      indices := [];
      var n := 0;
      while n < |names|
        invariant n <= |names|
        invariant indices == Collect(Contents(), names[..n])
      {
        var index := Search(names[n]);
        assert names[..n + 1][..n] == names[..n];
        if index < |entries| {
          indices := indices + [index];
        }
        n := n + 1;
      }
      assert names[..n] == names;
    }

    /** One record out of the vector and freed. */
    method EraseAndFree(i: nat)
      requires Valid() && i < |entries|
      modifies this`entries, this`freed
      ensures Valid() && entries == EraseAt(old(entries), i) && freed == old(freed) + multiset{old(entries)[i]}
    {
      ghost var victim := entries[i];
      assert entries == entries[..i] + [victim] + entries[i + 1..];
      entries := EraseAt(entries, i);
      freed := freed + multiset{victim};
    }

    /** The erase-and-free loop, over any list of indices. */
    method EraseIndices(indices: seq<nat>) returns (defined: bool)
      requires Valid()
      modifies this`entries, this`freed
      ensures Valid()
      ensures defined <==> EraseAll(old(entries), indices).Some?
      ensures defined ==> entries == EraseAll(old(entries), indices).value
    {
      var k := 0;
      while k < |indices|
        invariant k <= |indices| && Valid()
        invariant EraseAll(old(entries), indices) == EraseAll(entries, indices[k..])
      {
        assert indices[k..][1..] == indices[k + 1..];
        if indices[k] >= |entries| {
          return false;
        }
        EraseAndFree(indices[k]);
        k := k + 1;
      }
      defined := true;
    }

    /** `defined` is false when an index ran past the end of the vector, which C++ leaves undefined. */
    method DeleteFromDynamicAppCache(appsToDelete: seq<string>) returns (defined: bool)
      requires Valid()
      modifies this
      ensures Valid() && issued == old(issued) && leaked == old(leaked)
      ensures defined <==> Delete(old(Contents()), appsToDelete).Some?
      ensures defined ==> Contents() == Delete(old(Contents()), appsToDelete).value
    {
      var entriesToDelete := CollectIndices(appsToDelete);
      var sorted := SortDesc(entriesToDelete);
      EraseAllConfigs(entries, sorted);
      defined := EraseIndices(sorted);
    }

    /** Accounts for records that only the running update points at: until they are appended they would leak. */
    ghost method Issue(list: seq<DynamicAppConfig>)
      requires Valid() && forall r :: r in list ==> r !in issued
      requires Distinct(list)
      modifies this`issued, this`leaked
      ensures Valid() && issued == old(issued) + multiset(list) && leaked == old(leaked) + multiset(list)
    {
      forall r | r in multiset(list) ensures multiset(list)[r] == 1 {
        CountInDistinct(list, r);
      }
      issued := issued + multiset(list);
      leaked := leaked + multiset(list);
    }

    /** The push_back loop. */
    method Append(list: seq<DynamicAppConfig>)
      requires Valid() && multiset(list) <= leaked
      modifies this
      ensures Valid() && issued == old(issued)
      ensures entries == old(entries) + list && leaked == old(leaked) - multiset(list)
    {
      ghost var before := entries;
      var n := 0;
      while n < |list|
        invariant n <= |list| && entries == before + list[..n]
        invariant issued == old(issued) && leaked == old(leaked) && freed == old(freed)
      {
        entries := entries + [list[n]];
        n := n + 1;
      }
      assert list[..n] == list;
      leaked := leaked - multiset(list);
    }

    /** Everything after the allocation loop: drop the re-registered names, append the new records. */
    method Replace(list: seq<DynamicAppConfig>) returns (defined: bool)
      requires Valid() && multiset(list) <= leaked
      modifies this
      ensures Valid() && issued == old(issued) && leaked == old(leaked) - multiset(list)
      ensures var erased := Delete(old(Contents()), Names(Configs(list)));
              && (defined <==> erased.Some?)
              && (defined ==> Contents() == erased.value + Configs(list))
    {
      defined := DeleteFromDynamicAppCache(Names(Configs(list)));
      ghost var kept := entries;
      Append(list);
      assert Configs(entries) == Configs(kept) + Configs(list);
    }

    /** `mallocs` is how many allocations succeed; the first failing one leaks the records built so far. */
    method UpdateDynamicAppCache(apps: seq<AppInfo>, mallocs: nat) returns (defined: bool)
      requires Valid()
      modifies this
      ensures Valid()
      ensures defined <==> Update(old(Contents()), apps, mallocs).Some?
      ensures defined ==> Contents() == Update(old(Contents()), apps, mallocs).value
      ensures defined && mallocs >= |apps| ==> EndsWith(Contents(), apps)
      ensures mallocs < |apps| ==> defined && entries == old(entries)
      ensures |issued| == |old(issued)| + if mallocs < |apps| then mallocs else |apps|
      ensures |leaked| == |old(leaked)| + if mallocs < |apps| then mallocs else 0
    {
      var list := BuildRecords(apps, mallocs);
      Issue(list);
      if |list| < |apps| {
        return true;
      }
      assert Configs(list) == StoreApps(apps);
      defined := Replace(list);
      if defined {
        UpdateHolds(old(Contents()), apps, mallocs);
      }
    }
  }
}
