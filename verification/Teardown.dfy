/** Lifecycle callbacks against teardown: any number of OnAppLifecycleStateChanged callbacks interleaved, one access
    at a time, with one Deinitialize. The guard covers only the unregistration, not the deletion of the manager. */
module Teardown {

  /** Entered and waiting for _appManagerCallbackLock; holding it before the null check; past the check; returned. */
  datatype Callback = Waiting | Holding | Checked | Returned

  datatype Deinit = NotYet | Locked | Unregistered | Released | Deleted | Cleared

  /** `misused` are the callbacks that called a manager that was already deleted. */
  datatype State = State(callbacks: seq<Callback>, deinit: Deinit, subscribed: bool,
                         pointer: bool, alive: bool, misused: set<nat>)

  predicate InSection(c: Callback) { c == Holding || c == Checked }

  ghost predicate LockFree(s: State) {
    && (forall i :: 0 <= i < |s.callbacks| ==> !InSection(s.callbacks[i]))
    && s.deinit != Locked && s.deinit != Unregistered
  }

  function Move(s: State, i: nat, c: Callback): State
    requires i < |s.callbacks|
  {
    s.(callbacks := s.callbacks[i := c])
  }

  datatype Action =
    | Arrive | Take(i: nat) | SeeNull(i: nat) | SeeManager(i: nat) | NoSuchApp(i: nat) | Use(i: nat)
    | DeinitLock | DeinitUnregister | DeinitRelease | DeinitDelete | DeinitClear

  ghost predicate Enabled(s: State, a: Action) {
    match a
    case Arrive => s.subscribed
    case Take(i) => i < |s.callbacks| && s.callbacks[i] == Waiting && LockFree(s)
    case SeeNull(i) => i < |s.callbacks| && s.callbacks[i] == Holding && !s.pointer
    case SeeManager(i) => i < |s.callbacks| && s.callbacks[i] == Holding && s.pointer
    case NoSuchApp(i) => i < |s.callbacks| && s.callbacks[i] == Checked
    case Use(i) => i < |s.callbacks| && s.callbacks[i] == Checked
    case DeinitLock => s.deinit == NotYet && LockFree(s)
    case DeinitUnregister => s.deinit == Locked
    case DeinitRelease => s.deinit == Unregistered
    case DeinitDelete => s.deinit == Released
    case DeinitClear => s.deinit == Deleted
  }

  ghost function Next(s: State, a: Action): State
    requires Enabled(s, a)
  {
    match a
    case Arrive => s.(callbacks := s.callbacks + [Waiting])
    case Take(i) => Move(s, i, Holding)
    case SeeNull(i) => Move(s, i, Returned)
    case SeeManager(i) => Move(s, i, Checked)
    case NoSuchApp(i) => Move(s, i, Returned)
    case Use(i) => Move(s, i, Returned).(misused := if s.alive then s.misused else s.misused + {i})
    case DeinitLock => s.(deinit := Locked)
    case DeinitUnregister => s.(deinit := Unregistered, subscribed := false)
    case DeinitRelease => s.(deinit := Released)
    case DeinitDelete => s.(deinit := Deleted, alive := false)
    case DeinitClear => s.(deinit := Cleared, pointer := false)
  }

  ghost predicate Step(s: State, s': State) {
    exists a :: Enabled(s, a) && s' == Next(s, a)
  }

  ghost predicate IsRun(run: seq<State>) {
    run != [] && forall i :: 0 < i < |run| ==> Step(run[i - 1], run[i])
  }

  /** A manager that is there, a subscription, nobody inside. */
  ghost predicate Init(s: State) {
    s == State([], NotYet, true, true, true, {})
  }

  ghost predicate Inv(s: State) {
    && (s.deinit == NotYet || s.deinit == Locked || s.deinit == Unregistered ==> s.alive && s.misused == {})
    && (s.deinit != Deleted && s.deinit != Cleared ==> s.alive && s.pointer && s.misused == {})
    && (s.deinit == Locked || s.deinit == Unregistered ==>
          forall i :: 0 <= i < |s.callbacks| ==> !InSection(s.callbacks[i]))
    && (s.subscribed <==> s.deinit == NotYet || s.deinit == Locked)
    && (forall i :: i in s.misused ==> i < |s.callbacks| && s.callbacks[i] == Returned)
  }

  lemma NextKeepsInv(s: State, a: Action)
    requires Inv(s) && Enabled(s, a)
    ensures Inv(Next(s, a))
  {}

  lemma {:induction false} Reachable(run: seq<State>, i: nat)
    requires IsRun(run) && Init(run[0]) && i < |run|
    ensures Inv(run[i])
  {
    if i > 0 {
      Reachable(run, i - 1);
      assert Step(run[i - 1], run[i]);
      var a :| Enabled(run[i - 1], a) && run[i] == Next(run[i - 1], a);
      NextKeepsInv(run[i - 1], a);
    }
  }

  /** Nothing harms `c` any more, or it is inside while Deinitialize still waits for it. */
  ghost predicate Protected(s: State, c: nat) {
    && c < |s.callbacks| && c !in s.misused
    && (s.callbacks[c] == Returned || (InSection(s.callbacks[c]) && s.deinit == NotYet))
  }

  lemma NextProtects(s: State, a: Action, c: nat)
    requires Inv(s) && Enabled(s, a) && Protected(s, c)
    ensures Protected(Next(s, a), c)
  {}

  lemma {:induction false} StaysProtected(run: seq<State>, i: nat, j: nat, c: nat)
    requires IsRun(run) && Init(run[0]) && i <= j < |run| && Protected(run[i], c)
    ensures Protected(run[j], c)
    decreases j
  {
    if i < j {
      StaysProtected(run, i, j - 1, c);
      Reachable(run, j - 1);
      assert Step(run[j - 1], run[j]);
      var a :| Enabled(run[j - 1], a) && run[j] == Next(run[j - 1], a);
      NextProtects(run[j - 1], a, c);
    }
  }

  /** A callback that took the lock before Deinitialize did has returned before the manager is deleted,
      and never calls a deleted one, in every continuation. */
  lemma EarlyCallbackFinishesFirst(run: seq<State>, i: nat, j: nat, c: nat)
    requires IsRun(run) && Init(run[0]) && i <= j < |run|
    requires c < |run[i].callbacks| && InSection(run[i].callbacks[c]) && run[i].deinit == NotYet
    ensures c < |run[j].callbacks| && c !in run[j].misused
    ensures !run[j].alive ==> run[j].callbacks[c] == Returned
  {
    Reachable(run, i);
    Reachable(run, j);
    StaysProtected(run, i, j, c);
  }

  /** No callback is waiting or inside, and none can arrive. */
  ghost predicate Quiet(s: State) {
    && !s.subscribed
    && forall i :: 0 <= i < |s.callbacks| ==> s.callbacks[i] == Returned
  }

  lemma {:induction false} QuietStaysQuiet(run: seq<State>)
    requires IsRun(run) && Quiet(run[0])
    ensures Quiet(run[|run| - 1]) && run[|run| - 1].misused == run[0].misused
    decreases |run|
  {
    var n := |run| - 1;
    if n > 0 {
      QuietStaysQuiet(run[..n]);
      assert Step(run[n - 1], run[n]);
    }
  }

  ghost predicate MisuseFollows(s: State) {
    exists run: seq<State> :: IsRun(run) && run[0] == s && run[|run| - 1].misused != {}
  }

  /** At the moment Unregister returns, a later call into the deleted manager is possible
      exactly when some callback is still waiting for the lock. */
  lemma MisuseIffWaiting(run: seq<State>, i: nat)
    requires IsRun(run) && Init(run[0]) && i < |run| && run[i].deinit == Unregistered
    ensures MisuseFollows(run[i]) <==> Waiting in run[i].callbacks
  {
    var s := run[i];
    Reachable(run, i);
    if Waiting in s.callbacks {
      var c :| 0 <= c < |s.callbacks| && s.callbacks[c] == Waiting;
      LateCallback(s, c);
    } else {
      forall k | 0 <= k < |s.callbacks| ensures s.callbacks[k] == Returned {
        assert s.callbacks[k] in s.callbacks && !InSection(s.callbacks[k]);
      }
      forall r: seq<State> | IsRun(r) && r[0] == s ensures r[|r| - 1].misused == {} {
        QuietStaysQuiet(r);
      }
    }
  }

  /** The bad schedule: Deinitialize releases, the late callback passes its null check, the manager goes,
      the call follows. */
  lemma LateCallback(s: State, c: nat)
    requires Inv(s) && s.deinit == Unregistered && c < |s.callbacks| && s.callbacks[c] == Waiting
    ensures MisuseFollows(s)
  {
    var s1 := Next(s, DeinitRelease);
    assert LockFree(s1);
    var s2 := Next(s1, Take(c));
    var s3 := Next(s2, SeeManager(c));
    var s4 := Next(s3, DeinitDelete);
    var s5 := Next(s4, Use(c));
    var r := [s, s1, s2, s3, s4, s5];
    assert Step(s, s1) && Step(s1, s2) && Step(s2, s3) && Step(s3, s4) && Step(s4, s5);
    assert IsRun(r) && r[0] == s && c in r[|r| - 1].misused;
  }
}
