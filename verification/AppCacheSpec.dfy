/** The dynamic application cache on values: the index-collecting, descending erasure of the code, and the
    ordered map it is meant to be. */
module AppCacheSpec {
  import opened Options
  import opened CStrings
  import opened Sequences

  const NAME_WIDTH: nat := 64
  const ID_WIDTH: nat := 64
  const PREFIXES_WIDTH: nat := 128
  const CORS_WIDTH: nat := 128
  const QUERY_WIDTH: nat := 2048
  const DIAL_MAX_PAYLOAD: nat := 4096 * 3

  /** One entry of the list a caller registers. */
  datatype AppInfo = AppInfo(appName: string, appId: string, prefixes: string, cors: string,
                             allowStop: bool, query: string, payload: string)

  /** The contents of one cache record, each buffer as the C string it holds. */
  datatype AppConfig = AppConfig(appName: string, appId: string, prefixes: string, cors: string,
                                 allowStop: bool, query: string, payload: string)

  function StoreApp(a: AppInfo): AppConfig {
    AppConfig(Stored(a.appName, NAME_WIDTH), Stored(a.appId, ID_WIDTH), Stored(a.prefixes, PREFIXES_WIDTH),
              Stored(a.cors, CORS_WIDTH), a.allowStop, Stored(a.query, QUERY_WIDTH),
              Stored(a.payload, DIAL_MAX_PAYLOAD + 1))
  }

  /** A record holds an entry: each text in its own buffer. */
  predicate Holds(c: AppConfig, a: AppInfo) {
    && HoldsText(c.appName, a.appName, 64)
    && HoldsText(c.appId, a.appId, 64)
    && HoldsText(c.prefixes, a.prefixes, 128)
    && HoldsText(c.cors, a.cors, 128)
    && HoldsText(c.query, a.query, 2048)
    && HoldsText(c.payload, a.payload, 12289)
    && c.allowStop == a.allowStop
  }

  lemma StoredHolds(a: AppInfo)
    ensures Holds(StoreApp(a), a)
  {}

  function StoreApps(apps: seq<AppInfo>): (r: seq<AppConfig>)
    ensures |r| == |apps| && forall i :: 0 <= i < |r| ==> r[i] == StoreApp(apps[i])
  {
    seq(|apps|, i requires 0 <= i < |apps| => StoreApp(apps[i]))
  }

  function Names(cache: seq<AppConfig>): (r: seq<string>)
    ensures |r| == |cache| && forall i :: 0 <= i < |r| ==> r[i] == cache[i].appName
  {
    seq(|cache|, i requires 0 <= i < |cache| => cache[i].appName)
  }

  ghost predicate UniqueNames(cache: seq<AppConfig>) {
    forall i, j :: 0 <= i < j < |cache| ==> cache[i].appName != cache[j].appName
  }

  // ----- what the code computes -----

  /** Index of the first record whose stored name `strcmp`s equal to `name`, or `|cache|`. */
  function FirstIndex(cache: seq<AppConfig>, name: string): (i: nat)
    ensures i <= |cache|
    ensures i < |cache| ==> cache[i].appName == CStr(name)
    ensures forall k :: 0 <= k < i ==> cache[k].appName != CStr(name)
  {
    if cache == [] then 0
    else if cache[0].appName == CStr(name) then 0
    else
      var r := FirstIndex(cache[1..], name);
      assert forall k :: 1 <= k < |cache| ==> cache[k] == cache[1..][k - 1];
      r + 1
  }

  lemma FirstIndexIs(cache: seq<AppConfig>, name: string, i: nat)
    requires i <= |cache|
    requires i < |cache| ==> cache[i].appName == CStr(name)
    requires forall k :: 0 <= k < i ==> cache[k].appName != CStr(name)
    ensures FirstIndex(cache, name) == i
  {
    assert i < |cache| ==> cache[i].appName == CStr(name);
  }

  /** The indices the first loop pushes, one per name found, in batch order. */
  function Collect(cache: seq<AppConfig>, names: seq<string>): (r: seq<nat>)
    ensures forall k :: 0 <= k < |r| ==> r[k] < |cache|
  {
    if names == [] then []
    else
      var before := Collect(cache, names[..|names| - 1]);
      var i := FirstIndex(cache, names[|names| - 1]);
      if i < |cache| then before + [i] else before
  }

  function InsertDesc(x: nat, s: seq<nat>): (r: seq<nat>)
    ensures multiset(r) == multiset(s) + multiset{x}
  {
    if s == [] || x >= s[0] then [x] + s
    else
      assert s == [s[0]] + s[1..];
      [s[0]] + InsertDesc(x, s[1..])
  }

  ghost predicate Descending(s: seq<nat>) {
    forall i, j :: 0 <= i < j < |s| ==> s[i] >= s[j]
  }

  /** `std::sort` with `std::greater`. */
  function SortDesc(s: seq<nat>): (r: seq<nat>)
    ensures multiset(r) == multiset(s)
  {
    if s == [] then []
    else
      assert s == [s[0]] + s[1..];
      InsertDesc(s[0], SortDesc(s[1..]))
  }

  lemma {:induction false} InsertDescKeepsOrder(x: nat, s: seq<nat>)
    requires Descending(s)
    ensures Descending(InsertDesc(x, s))
  {
    if s != [] && x < s[0] {
      var rest := s[1..];
      InsertDescKeepsOrder(x, rest);
      var r := InsertDesc(x, rest);
      forall k | 0 <= k < |r| ensures s[0] >= r[k] {
        assert r[k] in multiset(r);
        assert r[k] in multiset(rest) + multiset{x};
        if r[k] != x { assert r[k] in rest; }
      }
    }
  }

  lemma {:induction false} SortDescSorts(s: seq<nat>)
    ensures Descending(SortDesc(s))
  {
    if s != [] {
      SortDescSorts(s[1..]);
      InsertDescKeepsOrder(s[0], SortDesc(s[1..]));
    }
  }

  function EraseAt<T>(s: seq<T>, i: nat): (r: seq<T>)
    requires i < |s|
    ensures |r| == |s| - 1
  {
    s[..i] + s[i + 1..]
  }

  /** Erasing the indices one after another; `None` is an index past the end, which C++ leaves undefined. */
  function EraseAll<T>(s: seq<T>, indices: seq<nat>): (r: Option<seq<T>>)
    ensures r.Some? ==> |r.value| == |s| - |indices|
  {
    if indices == [] then Some(s)
    else if indices[0] >= |s| then None
    else EraseAll(EraseAt(s, indices[0]), indices[1..])
  }

  /** `deleteFromDynamicAppCache`. */
  function Delete(cache: seq<AppConfig>, names: seq<string>): Option<seq<AppConfig>> {
    EraseAll(cache, SortDesc(Collect(cache, names)))
  }

  /** `updateDynamicAppCache`, when `mallocs` allocations can succeed. */
  function Update(cache: seq<AppConfig>, apps: seq<AppInfo>, mallocs: nat): Option<seq<AppConfig>> {
    if mallocs < |apps| then Some(cache)
    else
      var batch := StoreApps(apps);
      match Delete(cache, Names(batch))
      case None => None
      case Some(kept) => Some(kept + batch)
  }

  /** The last records hold the entries of the batch one by one. */
  predicate EndsWith(records: seq<AppConfig>, batch: seq<AppInfo>) {
    && |batch| <= |records|
    && forall i :: 0 <= i < |batch| ==> Holds(records[|records| - |batch| + i], batch[i])
  }

  lemma AppendedHolds(kept: seq<AppConfig>, batch: seq<AppInfo>, i: nat)
    requires i < |batch|
    ensures Holds((kept + StoreApps(batch))[|kept| + i], batch[i])
  {
    StoredHolds(batch[i]);
    assert (kept + StoreApps(batch))[|kept| + i] == StoreApp(batch[i]);
  }

  lemma AppendedHold(kept: seq<AppConfig>, batch: seq<AppInfo>)
    ensures EndsWith(kept + StoreApps(batch), batch)
  {
    forall i | 0 <= i < |batch| ensures Holds((kept + StoreApps(batch))[|kept| + i], batch[i]) {
      AppendedHolds(kept, batch, i);
    }
  }

  /** After an update with its allocations the last records hold the batch. */
  lemma UpdateHolds(cache: seq<AppConfig>, batch: seq<AppInfo>, mallocs: nat)
    requires Update(cache, batch, mallocs).Some? && mallocs >= |batch|
    ensures EndsWith(Update(cache, batch, mallocs).value, batch)
  {
    AppendedHold(Delete(cache, Names(StoreApps(batch))).value, batch);
  }

  // ----- simultaneous removal -----

  /** The elements whose index is not in `gone`, in order. */
  function Keep<T>(s: seq<T>, gone: set<nat>): (r: seq<T>)
    ensures |r| <= |s|
  {
    if s == [] then []
    else if |s| - 1 in gone then Keep(s[..|s| - 1], gone)
    else Keep(s[..|s| - 1], gone) + [s[|s| - 1]]
  }

  function IndexSet(indices: seq<nat>): set<nat> { set i | i in indices }

  lemma {:induction false} KeepSize<T>(s: seq<T>, gone: set<nat>)
    requires forall i :: i in gone ==> i < |s|
    ensures |Keep(s, gone)| == |s| - |gone|
  {
    if s == [] {
      assert gone == {};
    } else if |s| - 1 in gone {
      var less := gone - {|s| - 1};
      KeepSize(s[..|s| - 1], less);
      KeepAgrees(s[..|s| - 1], less, gone);
    } else {
      KeepSize(s[..|s| - 1], gone);
    }
  }

  /** Only the indices inside the sequence matter. */
  lemma {:induction false} KeepAgrees<T>(s: seq<T>, a: set<nat>, b: set<nat>)
    requires forall i: nat :: i < |s| ==> (i in a <==> i in b)
    ensures Keep(s, a) == Keep(s, b)
  {
    if s != [] { KeepAgrees(s[..|s| - 1], a, b); }
  }

  lemma {:induction false} KeepNothing<T>(s: seq<T>)
    ensures Keep(s, {}) == s
  {
    if s != [] { KeepNothing(s[..|s| - 1]); }
  }

  /** Erasing an index above all the others first leaves the others where they were. */
  lemma {:induction false} EraseThenKeep<T>(s: seq<T>, d: nat, rest: set<nat>)
    requires d < |s| && forall i :: i in rest ==> i < d
    ensures Keep(EraseAt(s, d), rest) == Keep(s, rest + {d})
  {
    var e := EraseAt(s, d);
    if d == |s| - 1 {
      assert e == s[..|s| - 1];
      KeepAgrees(e, rest, rest + {d});
    } else {
      var last := s[|s| - 1];
      EraseThenKeep(s[..|s| - 1], d, rest);
      assert e == EraseAt(s[..|s| - 1], d) + [last];
      assert e[..|e| - 1] == EraseAt(s[..|s| - 1], d);
    }
  }

  ghost predicate StrictlyDescending(s: seq<nat>) {
    forall i, j :: 0 <= i < j < |s| ==> s[i] > s[j]
  }

  /** Strictly descending erasure stays in range and removes exactly the named indices at once. */
  lemma {:induction false} DescendingErasureIsSimultaneous<T>(s: seq<T>, indices: seq<nat>)
    requires StrictlyDescending(indices)
    requires forall k :: 0 <= k < |indices| ==> indices[k] < |s|
    ensures EraseAll(s, indices) == Some(Keep(s, IndexSet(indices)))
  {
    if indices == [] {
      KeepNothing(s);
      assert IndexSet(indices) == {};
    } else {
      var d, rest := indices[0], indices[1..];
      DescendingErasureIsSimultaneous(EraseAt(s, d), rest);
      EraseThenKeep(s, d, IndexSet(rest));
      assert indices == [d] + rest;
      assert IndexSet(indices) == IndexSet(rest) + {d};
    }
  }

  /** Sequential erasure is defined exactly when each index still fits the shrunken vector. */
  lemma {:induction false} ErasureInRange<T>(s: seq<T>, indices: seq<nat>)
    ensures EraseAll(s, indices).Some? <==> forall k :: 0 <= k < |indices| ==> indices[k] < |s| - k
  {
    if indices != [] {
      if indices[0] < |s| {
        var rest := indices[1..];
        ErasureInRange(EraseAt(s, indices[0]), rest);
        assert forall k :: 1 <= k < |indices| ==> indices[k] == rest[k - 1];
        assert forall k :: 0 <= k < |rest| ==> rest[k] == indices[k + 1];
      }
    }
  }

  // ----- which batches are erased correctly -----

  predicate Hit(cache: seq<AppConfig>, name: string) {
    FirstIndex(cache, name) < |cache|
  }

  /** No name that is in the cache occurs twice in the batch: what a caller can check beforehand. */
  ghost predicate NoRepeatedHit(cache: seq<AppConfig>, names: seq<string>) {
    forall i, j :: 0 <= i < j < |names| && Hit(cache, names[i]) ==> CStr(names[i]) != CStr(names[j])
  }

  /** Some name of the batch has its first record at `i`. */
  ghost predicate Named(cache: seq<AppConfig>, names: seq<string>, i: nat) {
    exists k :: 0 <= k < |names| && FirstIndex(cache, names[k]) == i
  }

  lemma NamedSnoc(cache: seq<AppConfig>, before: seq<string>, last: string, i: nat)
    ensures Named(cache, before + [last], i) <==> Named(cache, before, i) || FirstIndex(cache, last) == i
  {
    var names := before + [last];
    assert names[|before|] == last;
    assert forall k :: 0 <= k < |before| ==> names[k] == before[k];
  }

  lemma {:induction false} CollectMembers(cache: seq<AppConfig>, names: seq<string>, i: nat)
    ensures i in Collect(cache, names) <==> i < |cache| && Named(cache, names, i)
  {
    if names != [] {
      var n := |names| - 1;
      CollectMembers(cache, names[..n], i);
      NamedSnoc(cache, names[..n], names[n], i);
      assert names == names[..n] + [names[n]];
    }
  }

  lemma NoRepeatedHitSnoc(cache: seq<AppConfig>, before: seq<string>, last: string)
    ensures NoRepeatedHit(cache, before + [last]) <==>
            && NoRepeatedHit(cache, before)
            && forall k :: 0 <= k < |before| && Hit(cache, before[k]) ==> CStr(before[k]) != CStr(last)
  {
    var names := before + [last];
    assert forall k :: 0 <= k < |before| ==> names[k] == before[k];
    assert names[|before|] == last;
  }

  /** The pushed indices repeat exactly when a stored name is repeated in the batch. */
  lemma {:induction false} CollectDistinct(cache: seq<AppConfig>, names: seq<string>)
    ensures Distinct(Collect(cache, names)) <==> NoRepeatedHit(cache, names)
  {
    if names != [] {
      var n := |names| - 1;
      var before, last := names[..n], names[n];
      assert names == before + [last];
      CollectDistinct(cache, before);
      NoRepeatedHitSnoc(cache, before, last);
      var i := FirstIndex(cache, last);
      var c := Collect(cache, before);
      CollectMembers(cache, before, i);
      if i < |cache| {
        DistinctAppend(c, i);
        forall k | 0 <= k < n && CStr(before[k]) == CStr(last) ensures FirstIndex(cache, before[k]) == i {
          FirstIndexIs(cache, before[k], i);
        }
      } else {
        forall k | 0 <= k < n && Hit(cache, before[k]) ensures CStr(before[k]) != CStr(last) {
          var j := FirstIndex(cache, before[k]);
          assert cache[j].appName != CStr(last);
        }
      }
    }
  }

  lemma MultisetMember(a: seq<nat>, b: seq<nat>)
    requires multiset(a) == multiset(b)
    ensures |a| == |b| && IndexSet(a) == IndexSet(b)
  {
    assert |a| == |multiset(a)| == |multiset(b)| == |b|;
    forall x ensures x in a <==> x in b {
      assert x in a <==> x in multiset(a);
      assert x in b <==> x in multiset(b);
    }
  }

  lemma {:induction false} SetOfSeqSize(s: seq<nat>)
    ensures |IndexSet(s)| <= |s|
    ensures |IndexSet(s)| == |s| <==> Distinct(s)
  {
    if s == [] {
      assert IndexSet(s) == {};
    } else {
      var n := |s| - 1;
      var before := s[..n];
      SetOfSeqSize(before);
      assert s == before + [s[n]];
      if s[n] in before {
        assert IndexSet(s) == IndexSet(before);
        var k :| 0 <= k < n && before[k] == s[n];
        assert s[k] == s[n];
      } else {
        assert IndexSet(s) == IndexSet(before) + {s[n]};
        assert forall k :: 0 <= k < n ==> before[k] == s[k];
      }
    }
  }

  lemma DistinctDescendingIsStrict(s: seq<nat>)
    requires Descending(s) && Distinct(s)
    ensures StrictlyDescending(s)
  {}

  /** The whole delete removes exactly the first occurrence of each named record, keeping the rest in order,
      if and only if no stored name is repeated in the batch. */
  lemma DeleteExact(cache: seq<AppConfig>, names: seq<string>)
    ensures Delete(cache, names) == Some(Keep(cache, IndexSet(Collect(cache, names))))
            <==> NoRepeatedHit(cache, names)
  {
    var c := Collect(cache, names);
    var d := SortDesc(c);
    MultisetMember(c, d);
    SortDescSorts(c);
    CollectDistinct(cache, names);
    SetOfSeqSize(c);
    SetOfSeqSize(d);
    forall k | 0 <= k < |d| ensures d[k] < |cache| {
      assert d[k] in IndexSet(d);
    }
    if Distinct(c) {
      DistinctDescendingIsStrict(d);
      DescendingErasureIsSimultaneous(cache, d);
    } else {
      KeepSize(cache, IndexSet(c));
    }
  }

  /** What a stored name given twice does, in every cache: its index is erased twice, so the record that follows
      it is dropped as well, and if there is none the second index is past the end. */
  lemma RepeatedNameErasesNeighbour(cache: seq<AppConfig>, name: string)
    requires Hit(cache, name)
    ensures var i := FirstIndex(cache, name);
            Delete(cache, [name, name]) ==
            if i + 1 < |cache| then Some(cache[..i] + cache[i + 2..]) else None
  {
    var i := FirstIndex(cache, name);
    CollectPair(cache, name);
    SortPair(i);
    ErasePair(cache, i);
  }

  lemma CollectPair(cache: seq<AppConfig>, name: string)
    requires Hit(cache, name)
    ensures Collect(cache, [name, name]) == [FirstIndex(cache, name)] + [FirstIndex(cache, name)]
  {
    CollectSnoc(cache, [], name);
    CollectSnoc(cache, [name], name);
    assert [] + [name] == [name] && [name] + [name] == [name, name];
  }

  lemma CollectSnoc(cache: seq<AppConfig>, names: seq<string>, last: string)
    requires Hit(cache, last)
    ensures Collect(cache, names + [last]) == Collect(cache, names) + [FirstIndex(cache, last)]
  {
    assert (names + [last])[..|names|] == names;
  }

  lemma ErasePair<T>(s: seq<T>, i: nat)
    requires i < |s|
    ensures EraseAll(s, [i] + [i]) == if i + 1 < |s| then Some(s[..i] + s[i + 2..]) else None
  {
    EraseCons(s, i, [i]);
    var once := EraseAt(s, i);
    EraseCons(once, i, []);
    if i < |once| {
      assert EraseAt(once, i) == s[..i] + s[i + 2..];
    }
  }

  lemma SortPair(i: nat)
    ensures SortDesc([i] + [i]) == [i] + [i]
  {
    var s := [i] + [i];
    assert s[1..] == [i] && [i][1..] == [];
    assert SortDesc([i]) == [i];
  }

  lemma EraseCons<T>(s: seq<T>, i: nat, rest: seq<nat>)
    ensures EraseAll(s, [i] + rest) == if i < |s| then EraseAll(EraseAt(s, i), rest) else None
    ensures EraseAll(s, [i]) == if i < |s| then Some(EraseAt(s, i)) else None
  {
    assert ([i] + rest)[1..] == rest;
    assert [i][1..] == [];
  }

  /** A registered name is found again by its full text exactly when that text fits the name buffer. */
  lemma FullNameFound(cache: seq<AppConfig>, a: AppInfo)
    requires StoreApp(a) in cache && forall c :: c in cache ==> |c.appName| < NAME_WIDTH
    ensures Hit(cache, a.appName) <==> |CStr(a.appName)| < NAME_WIDTH
  {
    var i := FirstIndex(cache, a.appName);
    if |CStr(a.appName)| < NAME_WIDTH {
      assert StoreApp(a).appName == CStr(a.appName);
    } else if i < |cache| {
      assert cache[i] in cache;
    }
  }
}
