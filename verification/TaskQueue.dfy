/** The task queue of the heartbeat layer. One worker thread waits on a condition variable,
    takes tasks from the front of a deque and runs them outside the lock; other threads
    enqueue under the lock, and one thread asks the worker to stop without taking it.
    Each access to the stop flag, each critical section and each notification is a step
    of its own. */
module TaskQueue {
  import opened Types

  datatype Priority = Normal | High

  /** The callable is opaque: a task is known by its arrival number. */
  datatype Task = Task(id: nat, priority: Priority)

  /** Where the worker is. It holds the lock in Testing, Parking, Passed and Cleared. */
  datatype Phase =
    | Top                       // about to test the loop condition
    | Locking                   // about to take the lock, on arrival or after a wake-up
    | Testing                   // about to evaluate the wait predicate
    | Parking                   // the predicate was false: about to block
    | Blocked                   // waiting on the condition variable, lock released
    | Passed                    // left the wait, about to test for stop
    | Cleared                   // saw no stop, about to take the front task
    | Executing(task: Task)
    | Exited

  datatype StopPhase = NotAsked | Requested | Notified

  datatype State = State(
    queue: seq<Task>,
    phase: Phase,
    stop: StopPhase,
    owed: nat,                  // enqueue calls that have not sent their notification yet
    arrived: seq<Task>,
    executed: seq<Task>)
  {
    predicate StopRequested() { !stop.NotAsked? }
    predicate LockFree() { !phase.Testing? && !phase.Parking? && !phase.Passed? && !phase.Cleared? }

    /** What the worker has taken from the queue so far, in order. */
    function Taken(): seq<Task> {
      if phase.Executing? then executed + [phase.task] else executed
    }

    function Woken(): State {
      if phase.Blocked? then this.(phase := Locking) else this
    }
  }

  datatype Step = Enqueue(priority: Priority) | NotifyOfTask | RequestStop | NotifyOfStop | Worker | SpuriousWake

  const Init := State([], Top, NotAsked, 0, [], [])

  function Inserted(queue: seq<Task>, task: Task): seq<Task> {
    if task.priority.High? then [task] + queue else queue + [task]
  }

  function WorkerNext(s: State): State {
    match s.phase
    case Top => s.(phase := if s.StopRequested() then Exited else Locking)
    case Locking => s.(phase := Testing)
    case Testing => s.(phase := if s.StopRequested() || s.queue != [] then Passed else Parking)
    case Parking => s.(phase := Blocked)
    case Passed => s.(phase := if s.StopRequested() then Exited else Cleared)
    case Cleared =>
      if s.queue == [] then s.(phase := Top)
      else s.(phase := Executing(s.queue[0]), queue := s.queue[1..])
    case Executing(task) => s.(phase := Top, executed := s.executed + [task])
    case Blocked => s
    case Exited => s
  }

  /** A step that cannot be taken leaves the state alone. */
  function Next(s: State, step: Step): State {
    match step
    case Worker => WorkerNext(s)
    case Enqueue(priority) =>
      if !s.LockFree() then s
      else
        var task := Task(|s.arrived|, priority);
        s.(queue := Inserted(s.queue, task), arrived := s.arrived + [task], owed := s.owed + 1)
    case NotifyOfTask => if s.owed == 0 then s else s.(owed := s.owed - 1).Woken()
    case RequestStop => if s.stop.NotAsked? then s.(stop := Requested) else s
    case NotifyOfStop => if s.stop.Requested? then s.(stop := Notified).Woken() else s
    case SpuriousWake => s.Woken()
  }

  function Run(s: State, steps: seq<Step>): State
    decreases |steps|
  {
    if steps == [] then s else Run(Next(s, steps[0]), steps[1..])
  }

  function NormalsOf(tasks: seq<Task>): seq<Task> {
    if tasks == [] then []
    else
      var before, t := NormalsOf(tasks[..|tasks| - 1]), tasks[|tasks| - 1];
      if t.priority.Normal? then before + [t] else before
  }

  // -------------------------------------------------------------------------
  // What every run keeps
  // -------------------------------------------------------------------------

  predicate Before(a: Task, b: Task) {
    if a.priority.High? then b.priority.High? ==> a.id > b.id
    else b.priority.Normal? && a.id < b.id
  }

  /** High-priority tasks, newest first, then normal ones, oldest first. */
  ghost predicate InOrder(queue: seq<Task>) {
    forall i, j | 0 <= i < j < |queue| :: Before(queue[i], queue[j])
  }

  ghost predicate Numbered(s: State) {
    && (forall i | 0 <= i < |s.arrived| :: s.arrived[i].id == i)
    && (forall i | 0 <= i < |s.queue| :: s.queue[i].id < |s.arrived|)
  }

  ghost predicate Accounted(s: State) {
    && multiset(s.arrived) == multiset(s.Taken()) + multiset(s.queue)
    && NormalsOf(s.arrived) == NormalsOf(s.Taken()) + NormalsOf(s.queue)
  }

  /** What the worker knows at each point, and who will still wake it. */
  predicate Awake(s: State) {
    && (s.phase.Parking? ==> s.queue == [])
    && (s.phase.Passed? ==> s.queue != [] || s.StopRequested())
    && (s.phase.Cleared? ==> s.queue != [])
    && (s.phase.Blocked? && s.queue != [] ==> s.owed > 0)
  }

  ghost predicate Inv(s: State) {
    InOrder(s.queue) && Numbered(s) && Accounted(s) && Awake(s)
  }

  lemma {:induction false} NormalsOfConcat(a: seq<Task>, b: seq<Task>)
    ensures NormalsOf(a + b) == NormalsOf(a) + NormalsOf(b)
  {
    if b == [] {
      assert a + b == a;
    } else {
      NormalsOfConcat(a, b[..|b| - 1]);
      assert (a + b)[..|a + b| - 1] == a + b[..|b| - 1];
    }
  }

  lemma NormalsOfOne(t: Task)
    ensures NormalsOf([t]) == if t.priority.Normal? then [t] else []
  {
    assert [t][..0] == [];
  }

  lemma ArrivalKeepsAccounts(s: State, t: State, task: Task)
    requires Accounted(s)
    requires t.Taken() == s.Taken() && t.arrived == s.arrived + [task] && t.queue == Inserted(s.queue, task)
    ensures Accounted(t)
  {
    hide NormalsOf, Inserted;
    NormalsOfConcat(s.arrived, [task]);
    InsertedContents(s.queue, task);
    var pending, taken, one := NormalsOf(s.queue), NormalsOf(s.Taken()), NormalsOf([task]);
    assert (taken + pending) + one == taken + (pending + one);
  }

  lemma InsertedContents(queue: seq<Task>, task: Task)
    ensures multiset(Inserted(queue, task)) == multiset(queue) + multiset([task])
    ensures NormalsOf(Inserted(queue, task)) == NormalsOf(queue) + NormalsOf([task])
  {
    hide NormalsOf;
    NormalsOfOne(task);
    NormalsOfConcat([task], queue);
    NormalsOfConcat(queue, [task]);
    if task.priority.High? {
      assert [] + NormalsOf(queue) == NormalsOf(queue) + [];
    }
  }

  lemma TakeKeepsAccounts(s: State)
    requires Accounted(s) && s.phase.Cleared? && s.queue != []
    ensures Accounted(WorkerNext(s))
  {
    hide NormalsOf;
    var front, rest := [s.queue[0]], s.queue[1..];
    var t := WorkerNext(s);
    assert t.Taken() == s.executed + front && s.Taken() == s.executed && t.queue == rest && t.arrived == s.arrived;
    assert s.queue == front + rest;
    NormalsOfConcat(front, rest);
    NormalsOfConcat(s.executed, front);
    var a, b, c := NormalsOf(s.executed), NormalsOf(front), NormalsOf(rest);
    assert a + (b + c) == (a + b) + c;
  }

  lemma AccountsDependOn(s: State, t: State)
    requires Accounted(s) && t.Taken() == s.Taken() && t.queue == s.queue && t.arrived == s.arrived
    ensures Accounted(t)
  {
  }

  lemma StepKeepsAccounts(s: State, step: Step)
    requires Accounted(s)
    ensures Accounted(Next(s, step))
  {
    hide Accounted;
    if step.Enqueue? && s.LockFree() {
      ArrivalKeepsAccounts(s, Next(s, step), Task(|s.arrived|, step.priority));
    } else if step.Worker? && s.phase.Cleared? && s.queue != [] {
      TakeKeepsAccounts(s);
    } else {
      var t := Next(s, step);
      AccountsDependOn(s, t);
    }
  }

  lemma StepKeepsOrder(s: State, step: Step)
    requires InOrder(s.queue) && Numbered(s)
    ensures InOrder(Next(s, step).queue) && Numbered(Next(s, step))
  {
    var t := Next(s, step);
    if step.Enqueue? && s.LockFree() {
      var task := Task(|s.arrived|, step.priority);
      assert t.arrived == s.arrived + [task] && t.queue == Inserted(s.queue, task);
    } else if step.Worker? && s.phase.Cleared? && s.queue != [] {
      assert t.arrived == s.arrived && t.queue == s.queue[1..];
    } else {
      assert t.arrived == s.arrived && t.queue == s.queue;
    }
  }

  lemma StepKeepsAwake(s: State, step: Step)
    requires Awake(s)
    ensures Awake(Next(s, step))
  {
  }

  lemma StepKeepsInv(s: State, step: Step)
    requires Inv(s)
    ensures Inv(Next(s, step))
  {
    hide Next, InOrder, Numbered, Accounted, Awake;
    StepKeepsAccounts(s, step);
    StepKeepsOrder(s, step);
    StepKeepsAwake(s, step);
  }

  lemma {:induction false} RunKeepsInv(s: State, steps: seq<Step>)
    requires Inv(s)
    ensures Inv(Run(s, steps))
    decreases |steps|
  {
    if steps != [] {
      StepKeepsInv(s, steps[0]);
      RunKeepsInv(Next(s, steps[0]), steps[1..]);
    }
  }

  /** In every interleaving: the queue is the pending high-priority tasks, newest first,
      then the normal ones, oldest first; each arrival is taken once or pending; and the
      normal tasks are taken in exactly their order of arrival. */
  lemma TasksAreConservedInOrder(steps: seq<Step>)
    ensures
      var s := Run(Init, steps);
      && InOrder(s.queue)
      && multiset(s.arrived) == multiset(s.Taken()) + multiset(s.queue)
      && NormalsOf(s.Taken()) <= NormalsOf(s.arrived)
  {
    RunKeepsInv(Init, steps);
  }

  /** A task is never forgotten: whenever the worker is asleep over a non-empty queue, a
      notification is still to come. The worker also never finds an empty queue after the
      wait, so its guard against that is dead code. */
  lemma NoTaskIsForgotten(steps: seq<Step>)
    ensures
      var s := Run(Init, steps);
      && (s.phase.Blocked? && s.queue != [] ==> s.owed > 0)
      && (s.phase.Cleared? ==> s.queue != [])
  {
    RunKeepsInv(Init, steps);
  }

  // -------------------------------------------------------------------------
  // Stopping
  // -------------------------------------------------------------------------

  lemma StepAfterStopRequest(s: State, step: Step)
    requires Awake(s) && s.StopRequested()
    ensures
      var t := Next(s, step);
      && Awake(t) && t.StopRequested()
      && (!s.phase.Cleared? ==> t.Taken() == s.Taken() && !t.phase.Cleared?)
      && (s.phase.Cleared? && t.phase.Cleared? ==> t.Taken() == s.Taken() && t.queue == s.queue)
      && (s.phase.Cleared? && !t.phase.Cleared? ==> t.Taken() == s.Taken() + s.queue[..1])
  {
  }

  /** After the request, nothing more is taken, save one task when the worker had just
      found that it need not stop. */
  lemma {:induction false} AfterStopRequest(s: State, steps: seq<Step>)
    requires Awake(s) && s.StopRequested()
    ensures Run(s, steps).StopRequested()
    ensures !s.phase.Cleared? ==> Run(s, steps).Taken() == s.Taken()
    ensures s.phase.Cleared? ==> Run(s, steps).Taken() in [s.Taken(), s.Taken() + s.queue[..1]]
    decreases |steps|
  {
    hide Next, Awake;
    if steps != [] {
      StepAfterStopRequest(s, steps[0]);
      AfterStopRequest(Next(s, steps[0]), steps[1..]);
    }
  }

  /** The exception is real: request between the worker's test and its take. */
  lemma OneMoreIsTaken()
    ensures
      var s := Run(Init, [Enqueue(Normal), Worker, Worker, Worker, Worker, RequestStop]);
      s.StopRequested() && s.Taken() == [] && Next(s, Worker).Taken() == [Task(0, Normal)]
  {
    var s1 := Next(Init, Enqueue(Normal));
    assert s1.queue == [Task(0, Normal)];
    var s5 := Next(Next(Next(Next(s1, Worker), Worker), Worker), Worker);
    assert s5.phase == Cleared && s5.queue == s1.queue;
    assert Run(Init, [Enqueue(Normal), Worker, Worker, Worker, Worker, RequestStop]) == Next(s5, RequestStop) by {
      assert Run(s5, [RequestStop]) == Next(s5, RequestStop);
    }
  }

  function Alone(k: nat): (steps: seq<Step>)
    ensures |steps| == k && forall i | 0 <= i < k :: steps[i] == Worker
  {
    seq(k, i => Worker)
  }

  lemma {:induction false} FinalPhase(s: State, k: nat)
    requires s.phase.Blocked? || s.phase.Exited?
    ensures Run(s, Alone(k)) == s
  {
    if k > 0 {
      assert Alone(k)[1..] == Alone(k - 1);
      FinalPhase(s, k - 1);
    }
  }

  lemma AloneStep(s: State, k: nat)
    requires k > 0
    ensures Run(s, Alone(k)) == Run(WorkerNext(s), Alone(k - 1))
  {
    assert Alone(k)[1..] == Alone(k - 1);
  }

  /** How many more steps a worker asked to stop takes before it exits. */
  function StepsLeft(phase: Phase): nat
    requires !phase.Parking? && !phase.Blocked?
  {
    match phase
    case Exited => 0
    case Top | Passed => 1
    case Testing | Executing(_) => 2
    case Locking | Cleared => 3
  }

  lemma {:induction false} ExitsInTime(s: State, k: nat)
    requires Awake(s) && s.StopRequested() && !s.phase.Parking? && !s.phase.Blocked?
    requires k >= StepsLeft(s.phase)
    ensures Run(s, Alone(k)).phase.Exited?
    decreases k
  {
    if s.phase.Exited? {
      FinalPhase(s, k);
    } else {
      AloneStep(s, k);
      StepKeepsAwake(s, Worker);
      ExitsInTime(WorkerNext(s), k - 1);
    }
  }

  /** Stop joins the worker after notifying it. Left to itself the worker then exits
      exactly when it was not between finding nothing to wait for and blocking, at the
      moment of the notification; in that gap the notification is lost. */
  lemma StopCompletesExactlyWhen(s: State, k: nat)
    requires Awake(s) && s.stop.Requested? && k >= 3
    ensures Run(Next(s, NotifyOfStop), Alone(k)).phase.Exited? <==> !s.phase.Parking?
  {
    var t := Next(s, NotifyOfStop);
    if s.phase.Parking? {
      AloneStep(t, k);
      FinalPhase(WorkerNext(t), k - 1);
    } else {
      ExitsInTime(t, k);
    }
  }

  /** A request that does not fall into that gap keeps the worker out of it. */
  lemma {:induction false} RequestKeepsOutOfGap(s: State, steps: seq<Step>)
    requires Awake(s) && s.StopRequested() && !s.phase.Parking?
    ensures Awake(Run(s, steps)) && !Run(s, steps).phase.Parking?
    decreases |steps|
  {
    hide Awake;
    if steps != [] {
      StepKeepsAwake(s, steps[0]);
      RequestKeepsOutOfGap(Next(s, steps[0]), steps[1..]);
    }
  }

  /** What a caller can rely on: a stop requested while the lock is free, as it is for a
      caller holding it, always completes, whatever happens before its notification. */
  lemma StopUnderLockCompletes(s: State, between: seq<Step>, k: nat)
    requires Awake(s) && s.LockFree() && s.stop.NotAsked? && k >= 3
    requires Run(Next(s, RequestStop), between).stop.Requested?
    ensures Run(Next(Run(Next(s, RequestStop), between), NotifyOfStop), Alone(k)).phase.Exited?
  {
    StepKeepsAwake(s, RequestStop);
    RequestKeepsOutOfGap(Next(s, RequestStop), between);
    StopCompletesExactlyWhen(Run(Next(s, RequestStop), between), k);
  }

  /** Once lost, the wake-up stays lost whatever the worker and the stopping thread do. */
  lemma {:induction false} LostWakeUpIsForever(s: State, steps: seq<Step>)
    requires s.phase.Blocked? && s.stop.Notified? && s.owed == 0
    requires forall i | 0 <= i < |steps| :: !steps[i].Enqueue? && !steps[i].SpuriousWake?
    ensures Run(s, steps) == s
    decreases |steps|
  {
    if steps != [] {
      LostWakeUpIsForever(Next(s, steps[0]), steps[1..]);
    }
  }

  /** The gap is reached by stopping an idle queue: the worker has tested the predicate
      and not yet blocked when the stop arrives, and the join never returns. */
  lemma {:induction false} StopCanHang(steps: seq<Step>)
    requires forall i | 0 <= i < |steps| :: !steps[i].Enqueue? && !steps[i].SpuriousWake?
    ensures
      var s := Run(Init, [Worker, Worker, Worker, RequestStop, NotifyOfStop, Worker]);
      s.stop.Notified? && Run(s, steps).phase.Blocked?
  {
    var s3 := Next(Next(Next(Init, Worker), Worker), Worker);
    assert s3 == Init.(phase := Parking);
    var s6 := Next(Next(Next(s3, RequestStop), NotifyOfStop), Worker);
    assert s6 == Init.(phase := Blocked, stop := Notified);
    assert Run(s3, [RequestStop, NotifyOfStop, Worker]) == s6 by {
      assert Run(Next(Next(s3, RequestStop), NotifyOfStop), [Worker]) == s6;
    }
    LostWakeUpIsForever(s6, steps);
  }

  // -------------------------------------------------------------------------
  // The queue object: its critical sections
  // -------------------------------------------------------------------------

  class Queue {
    var queue: seq<Task>
    var stopRequested: bool
    var next: nat

    ghost predicate Valid()
      reads this
    {
      InOrder(queue) && forall i | 0 <= i < |queue| :: queue[i].id < next
    }

    constructor ()
      ensures Valid() && queue == [] && !stopRequested
    {
      queue, stopRequested, next := [], false, 0;
    }

    method EnqueueTask(priority: Priority) returns (task: Task)
      requires Valid()
      modifies this`queue, this`next
      ensures Valid() && task == Task(old(next), priority) && next == old(next) + 1
      ensures queue == Inserted(old(queue), task)
    {
      task := Task(next, priority);
      if task.priority.High? {
        queue := [task] + queue;
      } else {
        queue := queue + [task];
      }
      next := next + 1;
    }

    /** The worker's critical section after a wake-up. The task handed out precedes every
        task left behind. */
    method TakeFront() returns (task: Option<Task>)
      requires Valid()
      modifies this`queue
      ensures Valid()
      ensures task.None? <==> stopRequested || old(queue) == []
      ensures task.None? ==> queue == old(queue)
      ensures task.Some? ==> old(queue) == [task.value] + queue
      ensures task.Some? ==> forall i | 0 <= i < |queue| :: Before(task.value, queue[i])
    {
      if stopRequested {
        return None;
      }
      if queue == [] {
        return None;
      }
      task := Some(queue[0]);
      queue := queue[1..];
    }

    method Stop()
      requires Valid()
      modifies this`stopRequested
      ensures Valid() && stopRequested
    {
      stopRequested := true;
    }
  }
}
