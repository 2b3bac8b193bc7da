/** The cache as an ordered map keyed by stored name: over any history of duplicate-free batches the erase-and-append
    cache is the map in which every registration is a single "remove the key, append the entry". */
module AppCacheMap {
  import opened Options
  import opened CStrings
  import opened AppCacheSpec

  /** The entries whose name is not in `names`, in order. */
  function DropNames(m: seq<AppConfig>, names: set<string>): (r: seq<AppConfig>) {
    if m == [] then []
    else
      var init, last := m[..|m| - 1], m[|m| - 1];
      if last.appName in names then DropNames(init, names) else DropNames(init, names) + [last]
  }

  function NameSet(m: seq<AppConfig>): set<string> { set c | c in m :: c.appName }

  function CStrSet(names: seq<string>): set<string> { set n | n in names :: CStr(n) }

  // ----- the reference: one key at a time -----

  function Put(m: seq<AppConfig>, c: AppConfig): seq<AppConfig> { DropNames(m, {c.appName}) + [c] }

  function PutAll(m: seq<AppConfig>, batch: seq<AppConfig>): seq<AppConfig> {
    if batch == [] then m
    else Put(PutAll(m, batch[..|batch| - 1]), batch[|batch| - 1])
  }

  /** Forgetting the order: the name a reader looks up. Later entries win. */
  function ToMap(m: seq<AppConfig>): map<string, AppConfig> {
    if m == [] then map[]
    else ToMap(m[..|m| - 1])[m[|m| - 1].appName := m[|m| - 1]]
  }

  // ----- laws of DropNames and ToMap -----

  lemma {:induction false} DropConcat(a: seq<AppConfig>, b: seq<AppConfig>, names: set<string>)
    ensures DropNames(a + b, names) == DropNames(a, names) + DropNames(b, names)
  {
    if b == [] {
      assert a + b == a;
    } else {
      var n := |b| - 1;
      assert (a + b)[..|a + b| - 1] == a + b[..n];
      DropConcat(a, b[..n], names);
    }
  }

  lemma {:induction false} DropDrop(m: seq<AppConfig>, x: set<string>, y: set<string>)
    ensures DropNames(DropNames(m, x), y) == DropNames(m, x + y)
  {
    if m != [] {
      var init, last := m[..|m| - 1], m[|m| - 1];
      DropDrop(init, x, y);
      if last.appName !in x {
        var d := DropNames(init, x);
        assert (d + [last])[..|d|] == d;
      }
    }
  }

  lemma {:induction false} DropMembers(m: seq<AppConfig>, names: set<string>)
    ensures forall c :: c in DropNames(m, names) <==> c in m && c.appName !in names
  {
    if m != [] {
      var init, last := m[..|m| - 1], m[|m| - 1];
      DropMembers(init, names);
      assert m == init + [last];
    }
  }

  lemma {:induction false} DropKeepsUnique(m: seq<AppConfig>, names: set<string>)
    requires UniqueNames(m)
    ensures UniqueNames(DropNames(m, names))
  {
    if m != [] {
      var init, last := m[..|m| - 1], m[|m| - 1];
      assert m == init + [last];
      LastNameIsNew(init, last);
      DropKeepsUnique(init, names);
      DropMembers(init, names);
      var d := DropNames(init, names);
      forall k | 0 <= k < |d| ensures d[k].appName != last.appName {
        assert d[k] in init && d[k].appName in NameSet(init);
      }
    }
  }

  lemma LastNameIsNew(init: seq<AppConfig>, last: AppConfig)
    requires UniqueNames(init + [last])
    ensures UniqueNames(init) && last.appName !in NameSet(init)
  {
    var batch := init + [last];
    assert forall k :: 0 <= k < |init| ==> batch[k] == init[k] && batch[k].appName != batch[|init|].appName;
  }

  lemma {:induction false} DropNothing(m: seq<AppConfig>, names: set<string>)
    requires NameSet(m) !! names
    ensures DropNames(m, names) == m
  {
    if m != [] {
      var init, last := m[..|m| - 1], m[|m| - 1];
      assert last in m && last.appName in NameSet(m);
      assert NameSet(init) <= NameSet(m);
      DropNothing(init, names);
      assert init + [last] == m;
    }
  }

  lemma {:induction false} DropIsMapRemoval(m: seq<AppConfig>, names: set<string>)
    ensures ToMap(DropNames(m, names)) == ToMap(m) - names
  {
    if m != [] {
      var init, last := m[..|m| - 1], m[|m| - 1];
      DropIsMapRemoval(init, names);
      var d := DropNames(init, names);
      if last.appName !in names {
        assert (d + [last])[..|d|] == d;
      }
    }
  }

  lemma {:induction false} ConcatIsMapUnion(a: seq<AppConfig>, b: seq<AppConfig>)
    ensures ToMap(a + b) == ToMap(a) + ToMap(b)
  {
    if b == [] {
      assert a + b == a;
    } else {
      var n := |b| - 1;
      assert (a + b)[..|a + b| - 1] == a + b[..n];
      ConcatIsMapUnion(a, b[..n]);
    }
  }

  lemma {:induction false} MapKeys(m: seq<AppConfig>)
    ensures ToMap(m).Keys == NameSet(m)
  {
    if m != [] {
      var init, last := m[..|m| - 1], m[|m| - 1];
      MapKeys(init);
      assert m == init + [last];
      assert NameSet(m) == NameSet(init) + {last.appName};
    }
  }

  // ----- the code's delete and update against the reference -----

  lemma {:induction false} KeepIsDrop(m: seq<AppConfig>, gone: set<nat>, names: set<string>)
    requires forall i: nat :: i < |m| ==> (i in gone <==> m[i].appName in names)
    ensures Keep(m, gone) == DropNames(m, names)
  {
    if m != [] { KeepIsDrop(m[..|m| - 1], gone, names); }
  }

  /** With unique stored names and no stored name repeated in the batch, delete is key removal. */
  lemma DeleteIsDrop(m: seq<AppConfig>, names: seq<string>)
    requires UniqueNames(m) && NoRepeatedHit(m, names)
    ensures Delete(m, names) == Some(DropNames(m, CStrSet(names)))
  {
    DeleteExact(m, names);
    var gone := IndexSet(Collect(m, names));
    forall i: nat | i < |m| ensures i in gone <==> m[i].appName in CStrSet(names) {
      CollectMembers(m, names, i);
      if m[i].appName in CStrSet(names) {
        var n :| n in names && CStr(n) == m[i].appName;
        FirstIndexIs(m, n, i);
      }
    }
    KeepIsDrop(m, gone, CStrSet(names));
  }

  /** Unregistering the same names again changes nothing. */
  lemma DeleteIdempotent(m: seq<AppConfig>, names: seq<string>)
    requires UniqueNames(m) && NoRepeatedHit(m, names)
    ensures var once := Delete(m, names); once.Some? && Delete(once.value, names) == once
  {
    DeleteIsDrop(m, names);
    var kept := DropNames(m, CStrSet(names));
    DropMembers(m, CStrSet(names));
    DropKeepsUnique(m, CStrSet(names));
    forall i | 0 <= i < |names| ensures !Hit(kept, names[i]) {
      assert CStr(names[i]) in CStrSet(names);
      assert forall k :: 0 <= k < |kept| ==> kept[k] in kept;
    }
    DeleteIsDrop(kept, names);
    DropDrop(m, CStrSet(names), CStrSet(names));
    assert CStrSet(names) + CStrSet(names) == CStrSet(names);
  }

  lemma {:induction false} PutAllIsDropAppend(m: seq<AppConfig>, batch: seq<AppConfig>)
    requires UniqueNames(batch)
    ensures PutAll(m, batch) == DropNames(m, NameSet(batch)) + batch
  {
    if batch == [] {
      DropNothing(m, {});
      assert NameSet(batch) == {};
    } else {
      var n := |batch| - 1;
      var init, last := batch[..n], batch[n];
      assert batch == init + [last];
      LastNameIsNew(init, last);
      PutAllIsDropAppend(m, init);
      var x, y := NameSet(init), {last.appName};
      assert NameSet(batch) == x + y;
      calc {
        PutAll(m, batch);
        DropNames(DropNames(m, x) + init, y) + [last];
        { DropConcat(DropNames(m, x), init, y); DropDrop(m, x, y); DropNothing(init, y); }
        DropNames(m, x + y) + init + [last];
        DropNames(m, x + y) + batch;
      }
    }
  }

  lemma BatchNames(apps: seq<AppInfo>)
    ensures var batch := StoreApps(apps);
            && CStrSet(Names(batch)) == NameSet(batch)
            && (UniqueNames(batch) ==> forall m :: NoRepeatedHit(m, Names(batch)))
  {
    var batch := StoreApps(apps);
    var names := Names(batch);
    forall i | 0 <= i < |names| ensures CStr(names[i]) == batch[i].appName {
      CStrOfNulFree(names[i]);
    }
    forall s ensures s in CStrSet(names) <==> s in NameSet(batch) {
      if s in CStrSet(names) {
        var n :| n in names && CStr(n) == s;
        var k :| 0 <= k < |names| && names[k] == n;
        assert batch[k] in batch;
      }
      if s in NameSet(batch) {
        var c :| c in batch && c.appName == s;
        var k :| 0 <= k < |batch| && batch[k] == c;
        assert names[k] in names;
      }
    }
  }

  lemma UniqueConcat(a: seq<AppConfig>, b: seq<AppConfig>)
    requires UniqueNames(a) && UniqueNames(b) && NameSet(a) !! NameSet(b)
    ensures UniqueNames(a + b)
  {
    forall i, j | 0 <= i < j < |a + b| ensures (a + b)[i].appName != (a + b)[j].appName {
      if i < |a| <= j {
        assert a[i] in a && b[j - |a|] in b;
        assert a[i].appName in NameSet(a) && b[j - |a|].appName in NameSet(b);
      }
    }
  }

  lemma DropAppend(m: seq<AppConfig>, batch: seq<AppConfig>)
    requires UniqueNames(m) && UniqueNames(batch)
    ensures UniqueNames(DropNames(m, NameSet(batch)) + batch)
    ensures ToMap(DropNames(m, NameSet(batch)) + batch) == ToMap(m) + ToMap(batch)
  {
    var kept := DropNames(m, NameSet(batch));
    DropMembers(m, NameSet(batch));
    DropKeepsUnique(m, NameSet(batch));
    UniqueConcat(kept, batch);
    DropIsMapRemoval(m, NameSet(batch));
    ConcatIsMapUnion(kept, batch);
    MapKeys(batch);
  }

  /** One registration: the same as putting the batch into the ordered map one entry at a time. */
  lemma UpdateIsPutAll(m: seq<AppConfig>, apps: seq<AppInfo>, mallocs: nat)
    requires UniqueNames(m) && UniqueNames(StoreApps(apps)) && mallocs >= |apps|
    ensures Update(m, apps, mallocs) == Some(PutAll(m, StoreApps(apps)))
    ensures UniqueNames(PutAll(m, StoreApps(apps)))
    ensures ToMap(PutAll(m, StoreApps(apps))) == ToMap(m) + ToMap(StoreApps(apps))
  {
    var batch := StoreApps(apps);
    BatchNames(apps);
    assert NoRepeatedHit(m, Names(batch));
    DeleteIsDrop(m, Names(batch));
    PutAllIsDropAppend(m, batch);
    DropAppend(m, batch);
  }

  // ----- whole histories -----

  datatype CacheOp = Register(apps: seq<AppInfo>) | Unregister(names: seq<string>)

  /** No two entries of a batch share a stored name, no two unregistered names share a C string. */
  ghost predicate DuplicateFree(op: CacheOp) {
    match op
    case Register(apps) => UniqueNames(StoreApps(apps))
    case Unregister(names) => forall i, j :: 0 <= i < j < |names| ==> CStr(names[i]) != CStr(names[j])
  }

  /** The code, run over a history with allocations succeeding. */
  function Run(ops: seq<CacheOp>): Option<seq<AppConfig>> {
    if ops == [] then Some([])
    else
      match Run(ops[..|ops| - 1])
      case None => None
      case Some(m) =>
        match ops[|ops| - 1]
        case Register(apps) => Update(m, apps, |apps|)
        case Unregister(names) => Delete(m, names)
  }

  /** The ordered map over the same history. */
  function Reference(ops: seq<CacheOp>): seq<AppConfig> {
    if ops == [] then []
    else
      var m := Reference(ops[..|ops| - 1]);
      match ops[|ops| - 1]
      case Register(apps) => PutAll(m, StoreApps(apps))
      case Unregister(names) => DropNames(m, CStrSet(names))
  }

  /** The plain map over the same history: last writer wins, unregistering is domain removal. */
  function MapReference(ops: seq<CacheOp>): map<string, AppConfig> {
    if ops == [] then map[]
    else
      var m := MapReference(ops[..|ops| - 1]);
      match ops[|ops| - 1]
      case Register(apps) => m + ToMap(StoreApps(apps))
      case Unregister(names) => m - CStrSet(names)
  }

  lemma {:induction false} CacheRefinesOrderedMap(ops: seq<CacheOp>)
    requires forall i :: 0 <= i < |ops| ==> DuplicateFree(ops[i])
    ensures Run(ops) == Some(Reference(ops))
    ensures UniqueNames(Reference(ops))
    ensures ToMap(Reference(ops)) == MapReference(ops)
  {
    if ops != [] {
      var n := |ops| - 1;
      CacheRefinesOrderedMap(ops[..n]);
      var m := Reference(ops[..n]);
      assert DuplicateFree(ops[n]);
      match ops[n] {
        case Register(apps) => UpdateIsPutAll(m, apps, |apps|);
        case Unregister(names) =>
          DeleteIsDrop(m, names);
          DropKeepsUnique(m, CStrSet(names));
          DropIsMapRemoval(m, CStrSet(names));
      }
    }
  }
}
