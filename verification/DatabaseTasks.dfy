/** The queue of database tasks shared by the threads that add tasks, the thread that works them off, and those
    that flush it or shut it down: every interleaving of their steps. */
module DatabaseTasks {

  import opened Wrappers

  datatype ThreadState = RUNNING | CLOSING | TERMINATED

  // Where a calling thread is: adding a task, flushing, or shutting down (`last`).
  datatype Caller =
    | Idle
    | Adding(task: nat)               // has the lock, will look at the state
    | Accepting(task: nat)            // has the lock and has seen the state running
    | Added(signal: bool)             // has the lock
    | Signalling                      // has given the lock back, must still wake the worker
    | Closing                         // has the lock, will set the state
    | Flushing(last: bool)            // wants the lock
    | Taking(last: bool)              // has the lock
    | RunningTask(task: nat, last: bool)
    | Leaving                         // has flushed, must still wake the worker

  datatype Worker =
    | Testing                         // looks at the state
    | Locking                         // wants the lock
    | Looking                         // has the lock, may have to wait
    | Waiting                         // sleeps without the lock
    | Woken                           // wants the lock back
    | Fetching                        // has the lock
    | Working(task: nat)
    | Ended

  datatype Agent = TheWorker | TheCaller(id: nat)

  // `accepted` and `taken` are the tasks ever put into and taken out of the queue; `ended` says that a shutdown has
  // set the state, `flushed` that one has flushed the queue.
  datatype State = State(
    tasks: seq<nat>, accepted: seq<nat>, taken: seq<nat>, state: ThreadState, lock: Option<Agent>,
    callers: map<nat, Caller>, worker: Worker, ended: bool, flushed: bool)

  predicate HasLock(c: Caller) {
    c.Adding? || c.Accepting? || c.Added? || c.Closing? || c.Taking?
  }

  predicate WorkerHasLock(w: Worker) {
    w.Looking? || w.Fetching?
  }

  // A wake-up for the worker is on its way.
  predicate Wakes(c: Caller) {
    c == Added(true) || c == Signalling
  }

  // Has set the state and is now flushing the queue for good.
  predicate Closes(c: Caller) {
    c in {Flushing(true), Taking(true), Leaving} || (c.RunningTask? && c.last)
  }

  // ---------------------------------------------------------------- steps

  datatype Action =
    | AddTask(id: nat, task: nat)     // a caller takes the lock
    | SeeState(id: nat)
    | Append(id: nat)
    | Unlock(id: nat)
    | Notify(id: nat)
    | Stop                            // the state is set to closing, without the lock
    | Shutdown(id: nat)               // a caller takes the lock
    | Terminate(id: nat)
    | Flush(id: nat)
    | LockQueue(id: nat)
    | Take(id: nat)
    | RunTask(id: nat)
    | Test                            // the worker's steps from here on
    | LockWorker
    | Look
    | WakeSpuriously
    | Relock
    | Fetch
    | Work

  function CallerAt(s: State, id: nat): Caller {
    if id in s.callers then s.callers[id] else Idle
  }

  predicate Enabled(s: State, a: Action) {
    match a
    case AddTask(id, task) => CallerAt(s, id).Idle? && s.lock.None?
    case SeeState(id) => CallerAt(s, id).Adding?
    case Append(id) => CallerAt(s, id).Accepting?
    case Unlock(id) => CallerAt(s, id).Added?
    case Notify(id) => CallerAt(s, id).Signalling? || CallerAt(s, id).Leaving?
    case Stop => true
    case Shutdown(id) => CallerAt(s, id).Idle? && s.lock.None?
    case Terminate(id) => CallerAt(s, id).Closing?
    case Flush(id) => CallerAt(s, id).Idle?
    case LockQueue(id) => CallerAt(s, id).Flushing? && s.lock.None?
    case Take(id) => CallerAt(s, id).Taking?
    case RunTask(id) => CallerAt(s, id).RunningTask?
    case Test => s.worker.Testing?
    case LockWorker => s.worker.Locking? && s.lock.None?
    case Look => s.worker.Looking?
    case WakeSpuriously => s.worker.Waiting?
    case Relock => s.worker.Woken? && s.lock.None?
    case Fetch => s.worker.Fetching?
    case Work => s.worker.Working?
  }

  function At(s: State, id: nat, c: Caller): State {
    s.(callers := s.callers[id := c])
  }

  function Locked(s: State, id: nat, c: Caller): State {
    At(s, id, c).(lock := Some(TheCaller(id)))
  }

  function Unlocked(s: State, id: nat, c: Caller): State {
    At(s, id, c).(lock := None)
  }

  function Next(s: State, a: Action): State
    requires Enabled(s, a)
  {
    match a
    case AddTask(id, task) => Locked(s, id, Adding(task))
    case SeeState(id) => At(s, id, if s.state == RUNNING then Accepting(CallerAt(s, id).task) else Added(false))
    case Append(id) =>
      var task := CallerAt(s, id).task;
      At(s, id, Added(s.tasks == [])).(tasks := s.tasks + [task], accepted := s.accepted + [task])
    case Unlock(id) => Unlocked(s, id, if CallerAt(s, id).signal then Signalling else Idle)
    case Notify(id) => At(s, id, Idle).(worker := if s.worker.Waiting? then Woken else s.worker)
    case Stop => s.(state := CLOSING)
    case Shutdown(id) => Locked(s, id, Closing)
    case Terminate(id) => Unlocked(s, id, Flushing(true)).(state := TERMINATED, ended := true)
    case Flush(id) => At(s, id, Flushing(false))
    case LockQueue(id) => Locked(s, id, Taking(CallerAt(s, id).last))
    case Take(id) =>
      var last := CallerAt(s, id).last;
      if s.tasks == [] then Unlocked(s, id, if last then Leaving else Idle).(flushed := s.flushed || last)
      else Unlocked(s, id, RunningTask(s.tasks[0], last)).(tasks := s.tasks[1..], taken := s.taken + [s.tasks[0]])
    case RunTask(id) => At(s, id, Flushing(CallerAt(s, id).last))
    case Test => s.(worker := if s.state == TERMINATED then Ended else Locking)
    case LockWorker => s.(worker := Looking, lock := Some(TheWorker))
    case Look => if s.tasks == [] then s.(worker := Waiting, lock := None) else s.(worker := Fetching)
    case WakeSpuriously => s.(worker := Woken)
    case Relock => s.(worker := Fetching, lock := Some(TheWorker))
    case Fetch =>
      if s.tasks == [] then s.(worker := Testing, lock := None)
      else s.(worker := Working(s.tasks[0]), lock := None, tasks := s.tasks[1..], taken := s.taken + [s.tasks[0]])
    case Work => s.(worker := Testing)
  }

  // ---------------------------------------------------------------- what is always so

  // The lock is held by exactly those who are in their locked part.
  ghost predicate LockOk(s: State) {
    && (s.lock == Some(TheWorker) <==> WorkerHasLock(s.worker))
    && forall id :: s.lock == Some(TheCaller(id)) <==> HasLock(CallerAt(s, id))
  }

  // First in, first out, and nothing lost or taken twice.
  ghost predicate QueueOk(s: State) {
    s.accepted == s.taken + s.tasks
  }

  // A worker asleep beside a filled queue is about to be woken.
  ghost predicate WakeOk(s: State) {
    s.worker.Waiting? && s.tasks != [] ==> exists id :: Wakes(CallerAt(s, id))
  }

  // After a shutdown nothing is accepted any more, and once it has flushed the queue nothing is left in it. That the
  // state may be set to closing again changes nothing about this.
  ghost predicate ShutdownOk(s: State) {
    && (s.state == TERMINATED ==> s.ended)
    && (s.ended ==> s.state != RUNNING)
    && (s.ended ==> forall id :: !CallerAt(s, id).Accepting? && CallerAt(s, id) != Added(true))
    && (forall id | Closes(CallerAt(s, id)) :: s.ended && (CallerAt(s, id).Leaving? ==> s.flushed))
    && (s.flushed ==> s.ended && s.tasks == [])
  }

  ghost predicate Safe(s: State) {
    LockOk(s) && QueueOk(s) && WakeOk(s) && ShutdownOk(s)
  }

  const START := State([], [], [], RUNNING, None, map[], Testing, false, false)

  lemma {:induction false} StepLock(s: State, a: Action)
    requires LockOk(s) && Enabled(s, a)
    ensures LockOk(Next(s, a))
  {
    var t := Next(s, a);
    forall id ensures t.lock == Some(TheCaller(id)) <==> HasLock(CallerAt(t, id)) {
      assert s.lock == Some(TheCaller(id)) <==> HasLock(CallerAt(s, id));
    }
  }

  lemma {:induction false} StepQueue(s: State, a: Action)
    requires QueueOk(s) && Enabled(s, a)
    ensures QueueOk(Next(s, a))
  {
    assert s.tasks != [] ==> [s.tasks[0]] + s.tasks[1..] == s.tasks;
  }

  lemma {:induction false} StepWake(s: State, a: Action)
    requires LockOk(s) && WakeOk(s) && Enabled(s, a)
    ensures WakeOk(Next(s, a))
  {
    var t := Next(s, a);
    if t.worker.Waiting? && t.tasks != [] {
      if a.Append? {
        if s.tasks == [] {
          assert Wakes(CallerAt(t, a.id));
        } else {
          var id :| Wakes(CallerAt(s, id));
          assert Wakes(CallerAt(t, id));
        }
      } else if s.tasks != [] && s.worker.Waiting? {
        var id :| Wakes(CallerAt(s, id));
        assert Wakes(CallerAt(t, id));
      }
    }
  }

  // The same as one caller sees it.
  lemma {:induction false} StepAccepting(s: State, a: Action, id: nat)
    requires LockOk(s) && ShutdownOk(s) && Enabled(s, a)
    ensures var t := Next(s, a);
      t.ended ==> !CallerAt(t, id).Accepting? && CallerAt(t, id) != Added(true)
  {
    assert s.lock == Some(TheCaller(id)) <==> HasLock(CallerAt(s, id));
    if a.Terminate? {
      assert s.lock == Some(TheCaller(a.id)) <==> HasLock(CallerAt(s, a.id));
    }
    hide LockOk;
  }

  lemma {:induction false} StepClosing(s: State, a: Action, id: nat)
    requires ShutdownOk(s) && Enabled(s, a)
    ensures var t := Next(s, a);
      Closes(CallerAt(t, id)) ==> t.ended && (CallerAt(t, id).Leaving? ==> t.flushed)
  {
    assert Closes(CallerAt(s, id)) ==> s.ended && (CallerAt(s, id).Leaving? ==> s.flushed);
  }

  lemma {:induction false} StepShutdown(s: State, a: Action)
    requires LockOk(s) && ShutdownOk(s) && Enabled(s, a)
    ensures ShutdownOk(Next(s, a))
  {
    var t := Next(s, a);
    forall id
      ensures t.ended ==> !CallerAt(t, id).Accepting? && CallerAt(t, id) != Added(true)
      ensures Closes(CallerAt(t, id)) ==> t.ended && (CallerAt(t, id).Leaving? ==> t.flushed)
    {
      StepAccepting(s, a, id);
      StepClosing(s, a, id);
    }
  }

  ghost predicate Run(states: seq<State>, actions: seq<Action>) {
    && |states| == |actions| + 1 && states[0] == START
    && forall k | 0 <= k < |actions| :: Enabled(states[k], actions[k]) && states[k + 1] == Next(states[k], actions[k])
  }

  // Over every interleaving.
  lemma {:induction false} RunSafe(states: seq<State>, actions: seq<Action>)
    requires Run(states, actions)
    ensures Safe(states[|actions|])
  {
    if actions != [] {
      var n := |actions| - 1;
      RunSafe(states[..n + 1], actions[..n]);
      var s, a := states[n], actions[n];
      StepLock(s, a);
      StepQueue(s, a);
      StepWake(s, a);
      StepShutdown(s, a);
    }
  }

  // ---------------------------------------------------------------- shutdown

  // When a shutdown has flushed the queue, every task ever accepted has been taken out, in the order it came in, and
  // this stays so.
  lemma {:induction false} FlushedMeansAllTaken(states: seq<State>, actions: seq<Action>)
    requires Run(states, actions) && states[|actions|].flushed
    ensures states[|actions|].taken == states[|actions|].accepted
  {
    RunSafe(states, actions);
  }

  // The worker is on its way out: whenever it looks at the state next, it ends.
  predicate NoSleep(s: State) {
    s.state == TERMINATED && s.flushed && !s.worker.Locking? && !s.worker.Looking? && !s.worker.Waiting?
  }

  // Neither wakes the worker nor leads to anything that does, unless a new shutdown is begun.
  predicate Quiet(c: Caller) {
    c in {Idle, Added(false), Flushing(false), Taking(false)} || c.Adding? || (c.RunningTask? && !c.last)
  }

  // The worker sleeps after a shutdown, or is about to, with nobody left to wake it.
  ghost predicate Stuck(s: State) {
    && (s.worker.Locking? || s.worker.Looking? || s.worker.Waiting?)
    && s.flushed && forall id :: Quiet(CallerAt(s, id))
  }

  // Once the shutdown's wake-up has been given, the worker is on its way out exactly if the state is still that of the
  // shutdown, and the worker was not between its look at the state and its wait.
  lemma {:induction false} NotifiedInTime(s: State, id: nat)
    requires Safe(s) && CallerAt(s, id).Leaving?
    ensures NoSleep(Next(s, Notify(id))) <==> s.state == TERMINATED && !s.worker.Locking? && !s.worker.Looking?
  {}

  // It stays on its way out, whatever else happens, as long as the state is not set to closing again.
  lemma {:induction false} NoSleepStays(s: State, a: Action)
    requires Safe(s) && NoSleep(s) && Enabled(s, a) && !a.Stop?
    ensures NoSleep(Next(s, a))
  {}

  // Between that look and the wait the wake-up finds nobody waiting, and the worker is stuck.
  lemma {:induction false} NotifiedTooEarly(s: State, id: nat)
    requires Safe(s) && CallerAt(s, id).Leaving? && forall other | other != id :: Quiet(CallerAt(s, other))
    ensures Stuck(Next(s, Notify(id))) <==> s.worker.Locking? || s.worker.Looking?
  {
    var t := Next(s, Notify(id));
    assert forall other | other != id :: CallerAt(t, other) == CallerAt(s, other);
    assert forall other :: Quiet(CallerAt(t, other));
  }

  // It stays stuck, whatever happens, unless it wakes for no reason or another shutdown is begun.
  lemma {:induction false} StuckStays(s: State, a: Action)
    requires Safe(s) && Stuck(s) && Enabled(s, a) && !a.WakeSpuriously? && !a.Shutdown?
    ensures Stuck(Next(s, a))
  {
    var t := Next(s, a);
    forall id ensures Quiet(CallerAt(t, id)) {
      assert Quiet(CallerAt(s, id));
    }
  }

  // Over every run: a worker that is notified in time never sleeps again.
  lemma {:induction false} NotifiedRun(states: seq<State>, actions: seq<Action>, k: nat)
    requires Run(states, actions) && k < |actions| && actions[k].Notify? && CallerAt(states[k], actions[k].id).Leaving?
    requires states[k].state == TERMINATED && !states[k].worker.Locking? && !states[k].worker.Looking?
    requires forall j | k <= j < |actions| :: !actions[j].Stop?
    ensures NoSleep(states[|actions|])
  {
    hide NoSleep, Next, Enabled;
    var n := |actions| - 1;
    PrefixSafe(states, actions, n);
    if n == k {
      NotifiedInTime(states[n], actions[n].id);
    } else {
      NotifiedRun(states[..n + 1], actions[..n], k);
      NoSleepStays(states[n], actions[n]);
    }
  }

  // Over every run: a worker that is stuck after a shutdown never ends.
  lemma {:induction false} StuckRun(states: seq<State>, actions: seq<Action>, k: nat)
    requires Run(states, actions) && k <= |actions| && Stuck(states[k])
    requires forall j | k <= j < |actions| :: !actions[j].WakeSpuriously? && !actions[j].Shutdown?
    ensures Stuck(states[|actions|])
  {
    hide Stuck, Next, Enabled;
    if k < |actions| {
      var n := |actions| - 1;
      PrefixSafe(states, actions, n);
      StuckRun(states[..n + 1], actions[..n], k);
      StuckStays(states[n], actions[n]);
    }
  }

  lemma {:induction false} PrefixSafe(states: seq<State>, actions: seq<Action>, n: nat)
    requires Run(states, actions) && n <= |actions|
    ensures Run(states[..n + 1], actions[..n]) && Safe(states[n])
  {
    RunSafe(states[..n + 1], actions[..n]);
  }

  // A run in which the worker comes to sleep like that, from the very start.
  lemma {:induction false} ShutdownMissed() returns (states: seq<State>, actions: seq<Action>)
    ensures Run(states, actions)
    ensures Stuck(states[|actions|]) && states[|actions|].worker.Waiting?
  {
    states, actions := ShutdownBeforeWait();
    hide Run;
    states, actions := Extend(states, actions, Take(0));
    assert states[|actions|] == State([], [], [], TERMINATED, None, map[0 := Leaving], Locking, true, true);
    states, actions := Extend(states, actions, Notify(0));
    assert states[|actions|] == State([], [], [], TERMINATED, None, map[0 := Idle], Locking, true, true);
    states, actions := Extend(states, actions, LockWorker);
    states, actions := Extend(states, actions, Look);
  }

  // The worker has seen the state running when a caller takes the lock to shut down.
  lemma {:induction false} ShutdownBegun() returns (states: seq<State>, actions: seq<Action>)
    ensures Run(states, actions)
    ensures states[|actions|] ==
      State([], [], [], RUNNING, Some(TheCaller(0)), map[0 := Closing], Locking, false, false)
  {
    states, actions := [START], [];
    assert Run(states, actions);
    hide Run;
    states, actions := Extend(states, actions, Test);
    assert states[|actions|] == State([], [], [], RUNNING, None, map[], Locking, false, false);
    states, actions := Extend(states, actions, Shutdown(0));
  }

  lemma {:induction false} ShutdownBeforeWait() returns (states: seq<State>, actions: seq<Action>)
    ensures Run(states, actions)
    ensures states[|actions|] ==
      State([], [], [], TERMINATED, Some(TheCaller(0)), map[0 := Taking(true)], Locking, true, false)
  {
    states, actions := ShutdownBegun();
    hide Run;
    states, actions := Extend(states, actions, Terminate(0));
    assert states[|actions|] ==
      State([], [], [], TERMINATED, None, map[0 := Flushing(true)], Locking, true, false);
    states, actions := Extend(states, actions, LockQueue(0));
  }

  lemma {:induction false} Extend(states: seq<State>, actions: seq<Action>, a: Action)
    returns (states': seq<State>, actions': seq<Action>)
    requires Run(states, actions) && Enabled(states[|actions|], a)
    ensures Run(states', actions') && states'[|actions'|] == Next(states[|actions|], a)
  {
    states', actions' := states + [Next(states[|actions|], a)], actions + [a];
  }
}
