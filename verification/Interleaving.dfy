/** Two critical sections that the other modules take as one step, taken apart: exactly when another thread in between
    makes a difference. */
module Interleaving {
  import opened Options
  import opened AppCacheSpec
  import opened AppCacheMap
  import opened Gdial
  import opened PluginSpec
  import opened PluginInvariants

  // ----- enableCastService pushes first and caches afterwards -----

  function PushHalf(s: State, name: string, on: bool): State {
    s.(link := Push(s.link, ActivationChanged(on, name)))
  }

  function CacheHalf(s: State, name: string, on: bool): State {
    s.(cache := s.cache.(enable := on, name := name))
  }

  /** A timer firing between the two halves replays the old values to the instance it creates: the instance agrees with
      the caches afterwards if and only if the firing cannot create one or the call changed nothing. */
  lemma FiringBetweenHalves(s: State, name: string, on: bool, c: Connection)
    requires Inv(s) && s.link.timer.Some?
    ensures CacheHalf(PushHalf(s, name, on), name, on) == EnableCast(s, name, on)
    ensures var t := CacheHalf(TimerFires(PushHalf(s, name, on), c), name, on);
            Replayed(t.link, t.cache) <==>
            || !(ReachesGdial(s, c) && c.env.rfc.xdial && c.env.gdialOk)
            || (on == s.cache.enable && name == s.cache.name)
  {
    assert PushHalf(s, name, on) == s;
    TimerKeeps(s, c);
  }

  // ----- updateDynamicAppCache deletes in one section and appends in another -----

  /** One of the two sections of the registration that thread `id` runs. */
  datatype Half = Deletes(id: nat, batch: seq<AppInfo>) | Appends(id: nat)

  /** The cache and the batches whose deletion is done and whose append is not. */
  datatype Split = Split(cache: seq<AppConfig>, pending: map<nat, seq<AppConfig>>)

  /** A batch without repeated stored names, started by a thread that is not at it already. */
  ghost predicate Possible(s: Split, h: Half) {
    match h
    case Deletes(id, batch) => id !in s.pending && UniqueNames(StoreApps(batch))
    case Appends(id) => id in s.pending
  }

  ghost predicate HalfStep(s: Split, h: Half, t: Split) {
    && Possible(s, h)
    && match h
       case Deletes(id, batch) =>
         && Delete(s.cache, Names(StoreApps(batch))) == Some(t.cache)
         && t.pending == s.pending[id := StoreApps(batch)]
       case Appends(id) => t == Split(s.cache + s.pending[id], s.pending - {id})
  }

  /** Any number of registrations in any interleaving of their halves, from unique names, until all are complete. */
  ghost predicate SplitHistory(run: seq<Split>, halves: seq<Half>) {
    && |run| == |halves| + 1 && UniqueNames(run[0].cache) && run[0].pending == map[] == run[|halves|].pending
    && forall i :: 0 <= i < |halves| ==> HalfStep(run[i], halves[i], run[i + 1])
  }

  /** No two registrations under way share a stored name. */
  ghost predicate PendingDisjoint(s: Split) {
    forall j, k :: j in s.pending && k in s.pending && j != k ==> NameSet(s.pending[j]) !! NameSet(s.pending[k])
  }

  /** What is pending is not stored. */
  ghost predicate Clean(s: Split) {
    && UniqueNames(s.cache)
    && forall k :: k in s.pending ==> UniqueNames(s.pending[k]) && NameSet(s.pending[k]) !! NameSet(s.cache)
  }

  lemma DeleteHalf(m: seq<AppConfig>, batch: seq<AppInfo>)
    requires UniqueNames(m) && UniqueNames(StoreApps(batch))
    ensures Delete(m, Names(StoreApps(batch))) == Some(DropNames(m, NameSet(StoreApps(batch))))
    ensures var kept := DropNames(m, NameSet(StoreApps(batch)));
            UniqueNames(kept) && NameSet(kept) == NameSet(m) - NameSet(StoreApps(batch))
  {
    BatchNames(batch);
    DeleteIsDrop(m, Names(StoreApps(batch)));
    DropKeepsUnique(m, NameSet(StoreApps(batch)));
    DropMembers(m, NameSet(StoreApps(batch)));
  }

  lemma NamesConcat(a: seq<AppConfig>, b: seq<AppConfig>)
    ensures NameSet(a + b) == NameSet(a) + NameSet(b)
  {}

  lemma CleanStep(s: Split, h: Half, t: Split)
    requires HalfStep(s, h, t) && Clean(s) && PendingDisjoint(s)
    ensures Clean(t)
  {
    match h
    case Deletes(id, batch) => DeleteHalf(s.cache, batch);
    case Appends(id) =>
      UniqueConcat(s.cache, s.pending[id]);
      NamesConcat(s.cache, s.pending[id]);
  }

  /** A pending registration will store `name`, and another one will too or it is stored already. */
  ghost predicate Doomed(s: Split, name: string, j: nat) {
    && j in s.pending && name in NameSet(s.pending[j])
    && (name in NameSet(s.cache) || exists k :: k in s.pending && k != j && name in NameSet(s.pending[k]))
  }

  lemma SharedNameRepeats(a: seq<AppConfig>, b: seq<AppConfig>)
    requires !(NameSet(a) !! NameSet(b))
    ensures !UniqueNames(a + b)
  {
    var n :| n in NameSet(a) && n in NameSet(b);
    var c :| c in a && c.appName == n;
    var d :| d in b && d.appName == n;
    var i :| 0 <= i < |a| && a[i] == c;
    var j :| 0 <= j < |b| && b[j] == d;
    assert (a + b)[i] == c && (a + b)[|a| + j] == d;
  }

  /** As long as no stored name repeats, a doomed name stays doomed. */
  lemma DoomedStep(s: Split, h: Half, t: Split, name: string, j: nat) returns (j': nat)
    requires HalfStep(s, h, t) && UniqueNames(s.cache) && UniqueNames(t.cache) && Doomed(s, name, j)
    ensures Doomed(t, name, j')
  {
    j' := j;
    if name in NameSet(s.cache) {
      match h
      case Deletes(id, batch) =>
        DeleteHalf(s.cache, batch);
        assert id in t.pending && t.pending[id] == StoreApps(batch);
      case Appends(id) =>
        NamesConcat(s.cache, s.pending[id]);
        if id == j { SharedNameRepeats(s.cache, s.pending[id]); }
    } else {
      var k :| k in s.pending && k != j && name in NameSet(s.pending[k]);
      match h
      case Deletes(id, batch) => assert k in t.pending && t.pending[k] == s.pending[k];
      case Appends(id) =>
        NamesConcat(s.cache, s.pending[id]);
        if id == j {
          j' := k;
        } else {
          assert id != k ==> k in t.pending && t.pending[k] == s.pending[k];
        }
    }
  }

  lemma {:induction false} DoomedToTheEnd(run: seq<Split>, halves: seq<Half>, n: nat, name: string, j: nat)
    requires SplitHistory(run, halves) && n < |run| && Doomed(run[n], name, j)
    ensures exists i :: 0 <= i < |run| && !UniqueNames(run[i].cache)
    decreases |run| - n
  {
    if n < |halves| {
      assert HalfStep(run[n], halves[n], run[n + 1]);
      if UniqueNames(run[n].cache) && UniqueNames(run[n + 1].cache) {
        var j' := DoomedStep(run[n], halves[n], run[n + 1], name, j);
        DoomedToTheEnd(run, halves, n + 1, name, j');
      }
    }
  }

  lemma {:induction false} CleanThroughout(run: seq<Split>, halves: seq<Half>, n: nat)
    requires SplitHistory(run, halves) && n < |run| && forall i :: 0 <= i < n ==> PendingDisjoint(run[i])
    ensures Clean(run[n])
  {
    if n > 0 {
      CleanThroughout(run, halves, n - 1);
      assert HalfStep(run[n - 1], halves[n - 1], run[n]);
      CleanStep(run[n - 1], halves[n - 1], run[n]);
    }
  }

  /** For any number of registrations whose halves interleave: stored names are unique throughout if and only if
      no two registrations are ever under way together that share a stored name. */
  lemma SplitRegistrationsUniqueIff(run: seq<Split>, halves: seq<Half>)
    requires SplitHistory(run, halves)
    ensures (forall i :: 0 <= i < |run| ==> UniqueNames(run[i].cache))
            <==> (forall i :: 0 <= i < |run| ==> PendingDisjoint(run[i]))
  {
    if forall i :: 0 <= i < |run| ==> PendingDisjoint(run[i]) {
      forall i | 0 <= i < |run| ensures UniqueNames(run[i].cache) {
        CleanThroughout(run, halves, i);
      }
    } else {
      var i :| 0 <= i < |run| && !PendingDisjoint(run[i]);
      var s := run[i];
      var j, k :| j in s.pending && k in s.pending && j != k && !(NameSet(s.pending[j]) !! NameSet(s.pending[k]));
      var name :| name in NameSet(s.pending[j]) && name in NameSet(s.pending[k]);
      DoomedToTheEnd(run, halves, i, name, j);
    }
  }
}
