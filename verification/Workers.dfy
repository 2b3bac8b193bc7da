/** Reservation of power workers: the scoped counter, the shared guard, and the bounded wait of Deinitialize,
    interleaved one access at a time for any number of workers and waiters. */
module Workers {

  import opened Options

  const MAX_ROUNDS: nat := 50

  datatype Phase = Reserved | Spawned | Running | Ended

  /** One power event: the guard is shared by the notifying thread and the worker's callable. */
  datatype Worker = Worker(callerRef: bool, threadRef: bool, phase: Phase)

  predicate Released(w: Worker) { !w.callerRef && !w.threadRef }

  /** One activation of the wait loop; `caller` is the worker that runs it, if a worker does. */
  datatype Waiter =
    | Waiting(caller: Option<nat>, rounds: nat, polls: nat)
    | Passed(caller: Option<nat>, rounds: nat, polls: nat)

  datatype State = State(counter: int, workers: seq<Worker>, waiters: seq<Waiter>)

  datatype Action =
    | Reserve | Spawn(i: nat) | CallerReturns(i: nat) | Begin(i: nat) | End(i: nat)
    | StartWait(caller: Option<nat>) | Poll(k: nat)

  ghost predicate InWait(s: State, i: nat) {
    exists k :: 0 <= k < |s.waiters| && s.waiters[k].Waiting? && s.waiters[k].caller == Some(i)
  }

  ghost predicate Enabled(s: State, a: Action) {
    match a
    case Reserve => true
    case Spawn(i) => i < |s.workers| && s.workers[i].phase == Reserved
    case CallerReturns(i) => i < |s.workers| && s.workers[i].phase != Reserved && s.workers[i].callerRef
    case Begin(i) => i < |s.workers| && s.workers[i].phase == Spawned
    case End(i) => i < |s.workers| && s.workers[i].phase == Running && !InWait(s, i)
    case StartWait(None) => true
    case StartWait(Some(i)) => i < |s.workers| && s.workers[i].phase == Running && !InWait(s, i)
    case Poll(k) => k < |s.waiters| && s.waiters[k].Waiting?
  }

  /** Drops one reference to the guard; the last one decrements the counter. */
  function Drop(s: State, i: nat, w: Worker): State
    requires i < |s.workers|
  {
    s.(workers := s.workers[i := w], counter := if Released(w) then s.counter - 1 else s.counter)
  }

  function Next(s: State, a: Action): State
    requires Enabled(s, a)
  {
    match a
    case Reserve => s.(workers := s.workers + [Worker(true, false, Reserved)], counter := s.counter + 1)
    case Spawn(i) => s.(workers := s.workers[i := s.workers[i].(threadRef := true, phase := Spawned)])
    case CallerReturns(i) => Drop(s, i, s.workers[i].(callerRef := false))
    case Begin(i) => s.(workers := s.workers[i := s.workers[i].(phase := Running)])
    case End(i) => Drop(s, i, s.workers[i].(threadRef := false, phase := Ended))
    case StartWait(c) => s.(waiters := s.waiters + [Waiting(c, 0, 0)])
    case Poll(k) =>
      var w := s.waiters[k];
      var w' := if s.counter > 0 && w.rounds < MAX_ROUNDS then Waiting(w.caller, w.rounds + 1, w.polls + 1)
                else Passed(w.caller, w.rounds, w.polls + 1);
      s.(waiters := s.waiters[k := w'])
  }

  ghost predicate Step(s: State, s': State) {
    exists a :: Enabled(s, a) && s' == Next(s, a)
  }

  ghost predicate IsRun(run: seq<State>) {
    && run != [] && run[0] == State(0, [], [])
    && forall i :: 0 < i < |run| ==> Step(run[i - 1], run[i])
  }

  /** The guards somebody still refers to. */
  function Unreleased(ws: seq<Worker>): nat {
    if ws == [] then 0 else Unreleased(ws[..|ws| - 1]) + if Released(ws[|ws| - 1]) then 0 else 1
  }

  lemma {:induction false} UnreleasedUpdate(ws: seq<Worker>, i: nat, w: Worker)
    requires i < |ws|
    ensures Unreleased(ws[i := w]) ==
            Unreleased(ws) - (if Released(ws[i]) then 0 else 1) + if Released(w) then 0 else 1
  {
    var n := |ws| - 1;
    if i < n {
      UnreleasedUpdate(ws[..n], i, w);
      assert ws[i := w][..n] == ws[..n][i := w];
    } else {
      assert ws[i := w][..n] == ws[..n];
    }
  }

  lemma {:induction false} UnreleasedZero(ws: seq<Worker>)
    ensures Unreleased(ws) == 0 <==> forall i :: 0 <= i < |ws| ==> Released(ws[i])
  {
    if ws != [] {
      UnreleasedZero(ws[..|ws| - 1]);
      assert forall i :: 0 <= i < |ws| - 1 ==> ws[..|ws| - 1][i] == ws[i];
    }
  }

  ghost predicate GoodWorker(w: Worker) {
    && (w.phase == Reserved ==> w.callerRef && !w.threadRef)
    && (w.phase == Spawned || w.phase == Running ==> w.threadRef)
    && (w.phase == Ended ==> !w.threadRef)
  }

  ghost predicate GoodWaiter(s: State, w: Waiter) {
    && w.rounds <= MAX_ROUNDS
    && (w.Waiting? ==> w.polls == w.rounds)
    && (w.Passed? ==> w.polls == w.rounds + 1)
    && (w.Waiting? && w.caller.Some? ==> w.caller.value < |s.workers| && s.workers[w.caller.value].phase == Running)
    && (w.Passed? && w.caller.Some? ==> w.rounds == MAX_ROUNDS)
  }

  ghost predicate Inv(s: State) {
    && s.counter == Unreleased(s.workers)
    && (forall i :: 0 <= i < |s.workers| ==> GoodWorker(s.workers[i]))
    && (forall k :: 0 <= k < |s.waiters| ==> GoodWaiter(s, s.waiters[k]))
  }

  lemma CounterStep(s: State, a: Action)
    requires Inv(s) && Enabled(s, a)
    ensures Next(s, a).counter == Unreleased(Next(s, a).workers)
  {
    match a
    case Reserve =>
      assert (s.workers + [Worker(true, false, Reserved)])[..|s.workers|] == s.workers;
    case Spawn(i) => UnreleasedUpdate(s.workers, i, s.workers[i].(threadRef := true, phase := Spawned));
    case CallerReturns(i) => UnreleasedUpdate(s.workers, i, s.workers[i].(callerRef := false));
    case Begin(i) => UnreleasedUpdate(s.workers, i, s.workers[i].(phase := Running));
    case End(i) => UnreleasedUpdate(s.workers, i, s.workers[i].(threadRef := false, phase := Ended));
    case _ =>
  }

  lemma WaiterStep(s: State, a: Action, k: nat)
    requires Inv(s) && Enabled(s, a) && k < |Next(s, a).waiters|
    ensures GoodWaiter(Next(s, a), Next(s, a).waiters[k])
  {
    UnreleasedZero(s.workers);
    if k < |s.waiters| {
      assert GoodWaiter(s, s.waiters[k]);
    }
  }

  lemma {:induction false} Reachable(run: seq<State>, i: nat)
    requires IsRun(run) && i < |run|
    ensures Inv(run[i])
  {
    if i > 0 {
      Reachable(run, i - 1);
      assert Step(run[i - 1], run[i]);
      var s := run[i - 1];
      var a :| Enabled(s, a) && run[i] == Next(s, a);
      CounterStep(s, a);
      forall k: nat | k < |run[i].waiters| ensures GoodWaiter(run[i], run[i].waiters[k]) {
        WaiterStep(s, a, k);
      }
    }
  }

  /** The counter is the number of unreleased guards, so a zero means that no worker is reserved, starting or
      running. */
  lemma CounterCountsGuards(run: seq<State>, i: nat)
    requires IsRun(run) && i < |run|
    ensures run[i].counter == Unreleased(run[i].workers)
    ensures run[i].counter == 0 ==> forall w :: w in run[i].workers ==> w.phase == Ended
  {
    Reachable(run, i);
    UnreleasedZero(run[i].workers);
  }

  /** Whatever the interference, a wait polls at most 51 times; leaving it before round 50 means that
      at the deciding poll every guard was released; a worker's own wait always runs all 50 rounds. */
  lemma WaitOutcome(run: seq<State>, i: nat, k: nat)
    requires IsRun(run) && i + 1 < |run|
    requires k < |run[i].waiters| && run[i].waiters[k].Waiting?
    requires k < |run[i + 1].waiters| && run[i + 1].waiters[k].Passed?
    ensures var w := run[i + 1].waiters[k];
            && w.polls <= 51
            && (w.rounds < 50 ==> forall v :: v in run[i].workers ==> Released(v))
            && (w.caller.Some? ==> w.rounds == 50)
  {
    Reachable(run, i);
    Reachable(run, i + 1);
    assert Step(run[i], run[i + 1]);
    assert GoodWaiter(run[i + 1], run[i + 1].waiters[k]);
    UnreleasedZero(run[i].workers);
  }

  /** A wait in progress is bounded too, so no interference keeps it polling. */
  lemma WaitBounded(run: seq<State>, i: nat, k: nat)
    requires IsRun(run) && i < |run| && k < |run[i].waiters|
    ensures run[i].waiters[k].polls <= 51
  {
    Reachable(run, i);
    assert GoodWaiter(run[i], run[i].waiters[k]);
  }

  /** The loop itself; `load(n)` is what the n-th read of the counter returns. */
  method WaitForWorkers(load: nat -> int) returns (waitCount: nat, warned: bool)
    ensures waitCount <= 50
    ensures forall n: nat :: n < waitCount ==> load(n) > 0
    ensures waitCount < 50 ==> load(waitCount) <= 0
    ensures warned <==> load(waitCount + 1) > 0
  {
    waitCount := 0;
    while load(waitCount) > 0 && waitCount < MAX_ROUNDS
      invariant waitCount <= MAX_ROUNDS
      invariant forall n: nat :: n < waitCount ==> load(n) > 0
      decreases MAX_ROUNDS - waitCount
    {
      waitCount := waitCount + 1;
    }
    warned := load(waitCount + 1) > 0;
  }
}
