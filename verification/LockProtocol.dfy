/** Every lock the plugin takes, for any number of threads running any sequence of entry points.
    `lock_guard` scopes become programs, programs have traces, threads interleave traces one operation at a time. */
module LockProtocol {

  /** m_TimerMutexSync, _appManagerCallbackLock, m_appConfigMutex, XCastManager::m_mutexSync (recursive), _adminLock. */
  datatype Lock = TimerMutex | CallbackLock | ConfigMutex | ManagerMutex | AdminLock

  function Rank(l: Lock): nat {
    match l
    case TimerMutex => 0
    case CallbackLock => 1
    case ConfigMutex => 2
    case ManagerMutex => 3
    case AdminLock => 4
  }

  // ----- programs and their traces -----

  datatype Prog =
    | Skip
    | Work
    | Scope(lock: Lock, body: Prog)
    | Then(first: Prog, second: Prog)
    | Either(left: Prog, right: Prog)

  datatype Op = Acquire(lock: Lock) | Release(lock: Lock) | Local

  ghost predicate TraceOf(p: Prog, ops: seq<Op>) {
    match p
    case Skip => ops == []
    case Work => ops == [Local]
    case Scope(l, body) =>
      |ops| >= 2 && ops[0] == Acquire(l) && ops[|ops| - 1] == Release(l) && TraceOf(body, ops[1..|ops| - 1])
    case Then(a, b) => exists k :: 0 <= k <= |ops| && TraceOf(a, ops[..k]) && TraceOf(b, ops[k..])
    case Either(a, b) => TraceOf(a, ops) || TraceOf(b, ops)
  }

  /** Every program can run, so what is proved about the traces of the entry points is about something. */
  lemma {:induction false} SomeTrace(p: Prog) returns (ops: seq<Op>)
    ensures TraceOf(p, ops)
  {
    match p
    case Skip => ops := [];
    case Work => ops := [Local];
    case Scope(l, body) =>
      var inner := SomeTrace(body);
      ops := [Acquire(l)] + inner + [Release(l)];
      assert ops[1..|ops| - 1] == inner;
    case Then(a, b) =>
      var x := SomeTrace(a);
      var y := SomeTrace(b);
      ops := x + y;
      assert ops[..|x|] == x && ops[|x|..] == y;
    case Either(a, b) => ops := SomeTrace(a);
  }

  // ----- the entry points -----

  datatype Entry =
    | Configure | LocateCastTimer | NetworkEvent | PowerModeChanged | PowerWorker
    | NameChanged | NameWorker | StandbyWorker | SetEnabled | SetFriendlyName | SetStandbyBehavior
    | RegisterApplications | UnregisterApplications | AppLifecycle | ManagerAccessor
    | RegisterSink | UnregisterSink | DispatchEvent

  function Maybe(p: Prog): Prog { Either(p, Skip) }

  /** Any manager method: one scope of its recursive mutex. */
  function ManagerCall(): Prog { Scope(ManagerMutex, Work) }

  function EnableCastService(): Prog { Then(Maybe(ManagerCall()), Work) }

  /** The wait for workers, the unregistrations, the guarded one, then shutdown of a manager that is still there. */
  function Deinitialize(): Prog {
    Then(Work, Then(Scope(CallbackLock, Work), Then(Maybe(Shutdown()), Work)))
  }

  /** stopTimer, XCastManager::shutdown, clear the pointer. */
  function Shutdown(): Prog { Then(Work, Then(ManagerCall(), Work)) }

  /** One critical section on the application cache. */
  function CacheScope(): Prog { Scope(ConfigMutex, Work) }

  /** The delete, append and dump sections of updateDynamicAppCache; none when an allocation fails. */
  function UpdateCache(): Prog { Maybe(Then(CacheScope(), Then(CacheScope(), CacheScope()))) }

  /** The part of RegisterApplications that keeps the cache locked while it talks to the manager. */
  function RegisterTail(): Prog {
    Scope(ConfigMutex, Then(Maybe(ManagerCall()), Then(Maybe(EnableCastService()), Work)))
  }

  function Connect(): Prog { Scope(TimerMutex, Then(Work, Then(Maybe(ManagerCall()), Work))) }

  function Replay(): Prog { Then(Maybe(Scope(ConfigMutex, Then(Work, ManagerCall()))), ManagerCall()) }

  function Forward(): Prog { Then(CacheScope(), Maybe(ManagerCall())) }

  function ProgOf(e: Entry): Prog {
    match e
    case Configure => Either(Work, Either(Scope(TimerMutex, Then(Deinitialize(), Work)), Work))
    case LocateCastTimer => Then(Connect(), Maybe(Replay()))
    case NetworkEvent => Maybe(Then(Maybe(ManagerCall()), Work))
    case PowerModeChanged => Work
    case PowerWorker => Then(Maybe(Then(Deinitialize(), Work)), Maybe(EnableCastService()))
    case NameChanged => Work
    case NameWorker => EnableCastService()
    case StandbyWorker => Maybe(Then(ManagerCall(), Work))
    case SetEnabled => Then(Work, Then(EnableCastService(), Maybe(Then(ManagerCall(), Work))))
    case SetFriendlyName => Maybe(Then(Work, EnableCastService()))
    case SetStandbyBehavior => Work
    case RegisterApplications =>
      Then(EnableCastService(), Then(UpdateCache(), Then(CacheScope(), RegisterTail())))
    case UnregisterApplications =>
      Then(EnableCastService(),
           Then(CacheScope(), Then(CacheScope(), Then(Maybe(ManagerCall()), Maybe(EnableCastService())))))
    case AppLifecycle =>
      Scope(CallbackLock, Maybe(Forward()))
    case ManagerAccessor => Maybe(ManagerCall())
    case RegisterSink => Scope(AdminLock, Work)
    case UnregisterSink => Scope(AdminLock, Work)
    case DispatchEvent => Scope(AdminLock, Work)
  }

  // ----- which locks are taken, and which inside which -----

  predicate Takes(p: Prog, l: Lock) {
    match p
    case Skip => false
    case Work => false
    case Scope(k, body) => k == l || Takes(body, l)
    case Then(x, y) => Takes(x, l) || Takes(y, l)
    case Either(x, y) => Takes(x, l) || Takes(y, l)
  }

  predicate Nests(p: Prog, outer: Lock, inner: Lock) {
    match p
    case Skip => false
    case Work => false
    case Scope(k, body) => (k == outer && Takes(body, inner)) || Nests(body, outer, inner)
    case Then(x, y) => Nests(x, outer, inner) || Nests(y, outer, inner)
    case Either(x, y) => Nests(x, outer, inner) || Nests(y, outer, inner)
  }

  /** The five pairs of locks that are ever taken one inside the other, entry point by entry point. */
  lemma ConfigureLocks(o: Lock, i: Lock)
    ensures Nests(ProgOf(Configure), o, i) <==> o == TimerMutex && (i == CallbackLock || i == ManagerMutex)
  {}

  lemma LocateCastTimerLocks(o: Lock, i: Lock)
    ensures Nests(ProgOf(LocateCastTimer), o, i) <==> (o == TimerMutex || o == ConfigMutex) && i == ManagerMutex
  {}

  lemma RegisterApplicationsLocks(o: Lock, i: Lock)
    ensures Nests(ProgOf(RegisterApplications), o, i) <==> o == ConfigMutex && i == ManagerMutex
  {}

  lemma UnregisterApplicationsLocks(o: Lock, i: Lock)
    ensures !Nests(ProgOf(UnregisterApplications), o, i)
    ensures Takes(ProgOf(UnregisterApplications), i) <==> i == ConfigMutex || i == ManagerMutex
  {}

  lemma AppLifecycleLocks(o: Lock, i: Lock)
    ensures Nests(ProgOf(AppLifecycle), o, i) <==> o == CallbackLock && (i == ConfigMutex || i == ManagerMutex)
  {}

  lemma PowerWorkerTakes(i: Lock)
    ensures Takes(ProgOf(PowerWorker), i) <==> i == CallbackLock || i == ManagerMutex
  {}

  lemma PowerWorkerNests(o: Lock, i: Lock)
    ensures !Nests(ProgOf(PowerWorker), o, i)
  {}

  /** The entry points that take at most one lock. */
  lemma SettersTake(i: Lock)
    ensures Takes(ProgOf(SetEnabled), i) <==> i == ManagerMutex
    ensures Takes(ProgOf(SetFriendlyName), i) <==> i == ManagerMutex
    ensures Takes(ProgOf(NameWorker), i) <==> i == ManagerMutex
  {}

  lemma ManagerOnly(i: Lock)
    ensures Takes(ProgOf(StandbyWorker), i) <==> i == ManagerMutex
    ensures Takes(ProgOf(NetworkEvent), i) <==> i == ManagerMutex
    ensures Takes(ProgOf(ManagerAccessor), i) <==> i == ManagerMutex
  {}

  lemma NoneTaken(i: Lock)
    ensures !Takes(ProgOf(PowerModeChanged), i) && !Takes(ProgOf(NameChanged), i)
    ensures !Takes(ProgOf(SetStandbyBehavior), i)
  {}

  lemma SinksTake(i: Lock)
    ensures Takes(ProgOf(RegisterSink), i) <==> i == AdminLock
    ensures Takes(ProgOf(UnregisterSink), i) <==> i == AdminLock
    ensures Takes(ProgOf(DispatchEvent), i) <==> i == AdminLock
  {}

  // ----- the order -----

  /** Only the recursive mutex may be taken again; any other lock must rank above all those held. */
  ghost predicate MayTake(held: seq<Lock>, l: Lock) {
    (l == ManagerMutex && l in held) || forall h :: h in held ==> Rank(h) < Rank(l)
  }

  ghost predicate Ordered(p: Prog, held: seq<Lock>) {
    match p
    case Skip => true
    case Work => true
    case Scope(l, body) => MayTake(held, l) && Ordered(body, held + [l])
    case Then(a, b) => Ordered(a, held) && Ordered(b, held)
    case Either(a, b) => Ordered(a, held) && Ordered(b, held)
  }

  /** The remaining operations of a thread respect the order and leave nothing locked. */
  ghost predicate Safe(held: seq<Lock>, todo: seq<Op>)
    decreases |todo|
  {
    if todo == [] then held == []
    else
      match todo[0]
      case Acquire(l) => MayTake(held, l) && Safe(held + [l], todo[1..])
      case Release(l) => held != [] && held[|held| - 1] == l && Safe(held[..|held| - 1], todo[1..])
      case Local => Safe(held, todo[1..])
  }

  lemma SafeCons(held: seq<Lock>, op: Op, rest: seq<Op>)
    ensures Safe(held, [op] + rest) <==>
            if op.Acquire? then MayTake(held, op.lock) && Safe(held + [op.lock], rest)
            else if op.Release? then held != [] && held[|held| - 1] == op.lock && Safe(held[..|held| - 1], rest)
            else Safe(held, rest)
  {
    assert ([op] + rest)[1..] == rest;
  }

  lemma ScopeIsSafe(l: Lock, held: seq<Lock>, inner: seq<Op>, rest: seq<Op>)
    requires MayTake(held, l) && Safe(held + [l], inner + ([Release(l)] + rest))
    ensures Safe(held, ([Acquire(l)] + inner + [Release(l)]) + rest)
  {
    SafeCons(held, Acquire(l), inner + ([Release(l)] + rest));
    assert ([Acquire(l)] + inner + [Release(l)]) + rest == [Acquire(l)] + (inner + ([Release(l)] + rest));
  }

  lemma {:induction false} TracesAreSafe(p: Prog, held: seq<Lock>, ops: seq<Op>, rest: seq<Op>)
    requires Ordered(p, held) && TraceOf(p, ops) && Safe(held, rest)
    ensures Safe(held, ops + rest)
    decreases p, 1
  {
    match p
    case Skip => assert ops + rest == rest;
    case Work => SafeCons(held, Local, rest);
    case Scope(l, body) => ScopeTraceIsSafe(l, body, held, ops, rest);
    case Then(a, b) => ThenTraceIsSafe(a, b, held, ops, rest);
    case Either(a, b) =>
      if TraceOf(a, ops) { TracesAreSafe(a, held, ops, rest); } else { TracesAreSafe(b, held, ops, rest); }
  }

  lemma {:induction false} ScopeTraceIsSafe(l: Lock, body: Prog, held: seq<Lock>, ops: seq<Op>, rest: seq<Op>)
    requires Ordered(Scope(l, body), held) && TraceOf(Scope(l, body), ops) && Safe(held, rest)
    ensures Safe(held, ops + rest)
    decreases Scope(l, body), 0
  {
    var inner := ops[1..|ops| - 1];
    SafeCons(held + [l], Release(l), rest);
    assert (held + [l])[..|held|] == held;
    TracesAreSafe(body, held + [l], inner, [Release(l)] + rest);
    ScopeIsSafe(l, held, inner, rest);
    assert ops == [Acquire(l)] + inner + [Release(l)];
  }

  lemma {:induction false} ThenTraceIsSafe(a: Prog, b: Prog, held: seq<Lock>, ops: seq<Op>, rest: seq<Op>)
    requires Ordered(Then(a, b), held) && TraceOf(Then(a, b), ops) && Safe(held, rest)
    ensures Safe(held, ops + rest)
    decreases Then(a, b), 0
  {
    var k :| 0 <= k <= |ops| && TraceOf(a, ops[..k]) && TraceOf(b, ops[k..]);
    TracesAreSafe(b, held, ops[k..], rest);
    TracesAreSafe(a, held, ops[..k], ops[k..] + rest);
    assert ops[..k] + (ops[k..] + rest) == ops + rest;
  }

  /** `held` lies below `l` in the order. */
  ghost predicate Below(held: seq<Lock>, l: Lock) {
    forall h :: h in held ==> Rank(h) < Rank(l)
  }

  lemma CallsOrdered(held: seq<Lock>)
    requires Below(held, ManagerMutex)
    ensures Ordered(ManagerCall(), held) && Ordered(Maybe(ManagerCall()), held)
    ensures Ordered(EnableCastService(), held) && Ordered(Maybe(EnableCastService()), held)
    ensures Ordered(Shutdown(), held) && Ordered(Maybe(Shutdown()), held)
  {}

  lemma CacheOrdered(held: seq<Lock>)
    requires Below(held, ConfigMutex)
    ensures Ordered(CacheScope(), held) && Ordered(UpdateCache(), held) && Ordered(RegisterTail(), held)
    ensures Ordered(Replay(), held) && Ordered(Forward(), held)
  {
    CallsOrdered(held);
    CallsOrdered(held + [ConfigMutex]);
    assert Ordered(CacheScope(), held);
    assert Ordered(Then(CacheScope(), CacheScope()), held);
    assert Ordered(Then(Maybe(EnableCastService()), Work), held + [ConfigMutex]);
    assert Ordered(Scope(ConfigMutex, Then(Work, ManagerCall())), held);
  }

  lemma DeinitializeOrdered(held: seq<Lock>)
    requires Below(held, CallbackLock)
    ensures Ordered(Deinitialize(), held)
  {
    CallsOrdered(held);
    assert Ordered(Then(Maybe(Shutdown()), Work), held);
    assert Ordered(Scope(CallbackLock, Work), held);
  }

  lemma ConnectOrdered()
    ensures Ordered(Connect(), []) && Ordered(Scope(TimerMutex, Then(Deinitialize(), Work)), [])
  {
    var held := [] + [TimerMutex];
    CallsOrdered(held);
    DeinitializeOrdered(held);
    assert Ordered(Then(Maybe(ManagerCall()), Work), held);
  }

  /** Every entry point nests its locks in the order T < A < C < M; _adminLock is never nested. */
  lemma EntriesOrdered(e: Entry)
    ensures Ordered(ProgOf(e), [])
  {
    CallsOrdered([]);
    CacheOrdered([]);
    DeinitializeOrdered([]);
    ConnectOrdered();
    match e
    case RegisterApplications =>
      assert Ordered(Then(CacheScope(), RegisterTail()), []);
    case UnregisterApplications =>
      assert Ordered(Then(Maybe(ManagerCall()), Maybe(EnableCastService())), []);
      assert Ordered(Then(CacheScope(), Then(Maybe(ManagerCall()), Maybe(EnableCastService()))), []);
    case AppLifecycle =>
      CacheOrdered([] + [CallbackLock]);
    case _ =>
  }

  // ----- interleaving -----

  /** The locks a thread holds, innermost last, and what it has left to do. */
  datatype Thread = Thread(held: seq<Lock>, todo: seq<Op>)

  type State = seq<Thread>

  ghost predicate Free(s: State, t: nat, l: Lock)
    requires t < |s|
  {
    && (forall u :: 0 <= u < |s| && u != t ==> l !in s[u].held)
    && (l in s[t].held ==> l == ManagerMutex)
  }

  ghost predicate CanStep(s: State, t: nat) {
    && t < |s| && s[t].todo != []
    && match s[t].todo[0]
       case Acquire(l) => Free(s, t, l)
       case Release(l) => s[t].held != [] && s[t].held[|s[t].held| - 1] == l
       case Local => true
  }

  function After(th: Thread): Thread
    requires th.todo != [] && (th.todo[0].Release? ==> th.held != [])
  {
    match th.todo[0]
    case Acquire(l) => Thread(th.held + [l], th.todo[1..])
    case Release(_) => Thread(th.held[..|th.held| - 1], th.todo[1..])
    case Local => Thread(th.held, th.todo[1..])
  }

  /** Thread `t` performs its next operation. */
  ghost predicate Step(s: State, s': State) {
    exists t: nat :: CanStep(s, t) && s' == s[t := After(s[t])]
  }

  /** A new thread, or an idle one, enters an entry point. */
  ghost predicate Start(s: State, s': State) {
    exists e: Entry, ops: seq<Op> :: TraceOf(ProgOf(e), ops) &&
      (s' == s + [Thread([], ops)] ||
       exists t :: 0 <= t < |s| && s[t].todo == [] && s' == s[t := Thread(s[t].held, ops)])
  }

  ghost predicate IsRun(run: seq<State>) {
    && run != [] && run[0] == []
    && forall i :: 0 < i < |run| ==> Step(run[i - 1], run[i]) || Start(run[i - 1], run[i])
  }

  ghost predicate Exclusive(s: State) {
    forall t, u, l :: 0 <= t < u < |s| && l in s[t].held ==> l !in s[u].held
  }

  ghost predicate AllSafe(s: State) {
    forall t :: 0 <= t < |s| ==> Safe(s[t].held, s[t].todo)
  }

  lemma StepKeepsSafe(s: State, s': State)
    requires Exclusive(s) && AllSafe(s) && Step(s, s')
    ensures Exclusive(s') && AllSafe(s')
  {
    var t: nat :| CanStep(s, t) && s' == s[t := After(s[t])];
    assert Safe(s[t].held, s[t].todo);
    assert forall l :: l in s'[t].held ==> l in s[t].held || s[t].todo[0] == Acquire(l);
    assert forall u :: 0 <= u < |s| && u != t ==> s'[u] == s[u];
  }

  lemma StartKeepsSafe(s: State, s': State)
    requires Exclusive(s) && AllSafe(s) && Start(s, s')
    ensures Exclusive(s') && AllSafe(s')
  {
    var e: Entry, ops: seq<Op> :| TraceOf(ProgOf(e), ops) &&
      (s' == s + [Thread([], ops)] ||
       exists t :: 0 <= t < |s| && s[t].todo == [] && s' == s[t := Thread(s[t].held, ops)]);
    EntriesOrdered(e);
    TracesAreSafe(ProgOf(e), [], ops, []);
    assert ops + [] == ops;
    if s' != s + [Thread([], ops)] {
      var t :| 0 <= t < |s| && s[t].todo == [] && s' == s[t := Thread(s[t].held, ops)];
      assert Safe(s[t].held, s[t].todo);
    }
  }

  /** In every reachable state each lock has at most one holder and every thread still respects the order. */
  lemma {:induction false} ReachableSafe(run: seq<State>, i: nat)
    requires IsRun(run) && i < |run|
    ensures Exclusive(run[i]) && AllSafe(run[i])
  {
    if i > 0 {
      ReachableSafe(run, i - 1);
      if Step(run[i - 1], run[i]) {
        StepKeepsSafe(run[i - 1], run[i]);
      } else {
        StartKeepsSafe(run[i - 1], run[i]);
      }
    }
  }

  // ----- deadlock freedom -----

  function Wanted(th: Thread): nat
  {
    if th.todo != [] && th.todo[0].Acquire? then 5 - Rank(th.todo[0].lock) else 0
  }

  /** Following the chain "waits for the holder of" climbs the order, so it ends in a thread that can step. */
  lemma {:induction false} FindRunnable(s: State, t: nat) returns (r: nat)
    requires Exclusive(s) && AllSafe(s) && t < |s| && s[t].todo != []
    ensures CanStep(s, r)
    decreases Wanted(s[t])
  {
    assert Safe(s[t].held, s[t].todo);
    if CanStep(s, t) {
      return t;
    }
    var l := s[t].todo[0].lock;
    assert !Free(s, t, l);
    var u: nat := Holder(s, t, l);
    assert Safe(s[u].held, s[u].todo);
    if CanStep(s, u) {
      return u;
    }
    var m := s[u].todo[0].lock;
    HolderWantsMore(s, u, l, m);
    r := FindRunnable(s, u);
  }

  lemma HolderWantsMore(s: State, u: nat, l: Lock, m: Lock)
    requires Exclusive(s) && u < |s| && l in s[u].held && MayTake(s[u].held, m)
    ensures Free(s, u, m) || Rank(l) < Rank(m)
  {}

  lemma Holder(s: State, t: nat, l: Lock) returns (u: nat)
    requires Exclusive(s) && t < |s| && !Free(s, t, l) && MayTake(s[t].held, l)
    ensures u < |s| && u != t && l in s[u].held
  {
    assert !(l in s[t].held && l != ManagerMutex);
    u :| 0 <= u < |s| && u != t && l in s[u].held;
  }

  ghost predicate Finished(s: State) {
    forall t :: 0 <= t < |s| ==> s[t].todo == []
  }

  /** A reachable state is stuck exactly when every thread has finished. */
  lemma DeadlockFree(run: seq<State>, i: nat)
    requires IsRun(run) && i < |run|
    ensures (exists t: nat :: CanStep(run[i], t)) <==> !Finished(run[i])
  {
    ReachableSafe(run, i);
    if !Finished(run[i]) {
      var t :| 0 <= t < |run[i]| && run[i][t].todo != [];
      var r := FindRunnable(run[i], t);
    }
  }

  function Remaining(s: State): nat {
    if s == [] then 0 else Remaining(s[..|s| - 1]) + |s[|s| - 1].todo|
  }

  lemma {:induction false} RemainingUpdate(s: State, t: nat, th: Thread)
    requires t < |s|
    ensures Remaining(s[t := th]) == Remaining(s) - |s[t].todo| + |th.todo|
  {
    var n := |s| - 1;
    if t < n {
      RemainingUpdate(s[..n], t, th);
      assert s[t := th][..n] == s[..n][t := th];
    } else {
      assert s[t := th][..n] == s[..n];
    }
  }

  lemma StepConsumes(s: State, s': State)
    requires Step(s, s')
    ensures Remaining(s') == Remaining(s) - 1
  {
    var t: nat :| CanStep(s, t) && s' == s[t := After(s[t])];
    RemainingUpdate(s, t, After(s[t]));
  }

  lemma StuckIffFinished(s: State)
    requires Exclusive(s) && AllSafe(s)
    ensures Finished(s) <==> !exists s' :: Step(s, s')
  {
    if !Finished(s) {
      var t :| 0 <= t < |s| && s[t].todo != [];
      var r := FindRunnable(s, t);
      assert Step(s, s[r := After(s[r])]);
    }
  }

  /** With no further entries, every schedule takes one operation a step off what was left,
      and it can only stop when all threads have finished. */
  lemma {:induction false} EveryScheduleDrains(s: State, schedule: seq<State>)
    requires Exclusive(s) && AllSafe(s)
    requires schedule != [] && schedule[0] == s
    requires forall i :: 0 < i < |schedule| ==> Step(schedule[i - 1], schedule[i])
    ensures var last := schedule[|schedule| - 1];
            && Remaining(last) + |schedule| - 1 == Remaining(s)
            && Exclusive(last) && AllSafe(last)
            && (Finished(last) <==> !exists s' :: Step(last, s'))
    decreases |schedule|
  {
    var n := |schedule| - 1;
    if n > 0 {
      EveryScheduleDrains(s, schedule[..n]);
      assert Step(schedule[n - 1], schedule[n]);
      StepKeepsSafe(schedule[n - 1], schedule[n]);
      StepConsumes(schedule[n - 1], schedule[n]);
    }
    StuckIffFinished(schedule[n]);
  }
}
