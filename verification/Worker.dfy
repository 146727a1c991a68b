/** The engine worker: any number of calling threads, one loop thread and one draining thread
    that share a queue and a stop flag under a mutex, with one condition variable. A step is
    what one thread does between two points where another may run. */
module Worker {
  import opened Options
  import opened Sequences

  // ---- threads

  datatype Refusal = WorkerStopped | QueueFull

  /** What a task ends with: its result, or the exception that lands in the caller's future. */
  datatype Outcome = Result(value: int) | Exception(error: int)

  /** A task is the number of the Run call that brings it. */
  type Task = nat

  /** Where a Run call stands: first in Enqueue, then at its future. */
  datatype Call =
    | WantLock
    | HasLock
    | NotStopping
    | HasRoom
    | Pushed
    | MustNotify
    | Awaiting
    | Refusing(why: Refusal)
    | Returned(outcome: Outcome)
    | Threw(why: Refusal)

  datatype Loop = Locking | Evaluating | Blocked | Popped(task: Task) | Running(task: Task) | Leaving | Exited

  datatype Drain = Idle | Entering | Inside | StopSet | Notifying | Joining | TurningBack

  datatype Thread = Caller(task: Task) | LoopThread | DrainThread

  predicate InEnqueueLock(c: Call) {
    c.HasLock? || c.NotStopping? || c.HasRoom? || c.Pushed? || c.Refusing?
  }

  predicate InLoopLock(l: Loop) {
    l.Evaluating? || l.Popped? || l.Leaving?
  }

  predicate InDrainLock(d: Drain) {
    d.Inside? || d.StopSet? || d.TurningBack?
  }

  predicate Accepted(c: Call) {
    c.Pushed? || c.MustNotify? || c.Awaiting? || c.Returned?
  }

  // ---- the machine

  /** `accepted` and `executed` are history: the tasks pushed and the tasks finished, in order. */
  datatype State = State(
    queue: seq<Task>,
    stopping: bool,
    joined: bool,
    holder: Option<Thread>,
    calls: seq<Call>,
    loop: Loop,
    drain: Drain,
    results: map<Task, Outcome>,
    accepted: seq<Task>,
    executed: seq<Task>)

  const START := State([], false, false, None, [], Locking, Idle, map[], [], [])

  /** The bound on the queue, and what a task gives when it runs last of a sequence of tasks:
      tasks share the engine's state. */
  datatype Setting = Setting(maxDepth: nat, work: seq<Task> -> Outcome)

  datatype Label = Arrive | CallerMoves(task: Task) | LoopMoves | WakesForNothing | DrainCalled | DrainMoves

  /** cv_.notify_one: the loop is the only thread that ever waits. */
  function Notify(s: State): State {
    if s.loop.Blocked? then s.(loop := Locking) else s
  }

  /** Where a Run call goes next, or None while it cannot move. */
  function NextCall(w: Setting, s: State, t: Task): Option<Call>
    requires t < |s.calls|
  {
    match s.calls[t]
    case WantLock => if s.holder.Some? then None else Some(HasLock)
    case HasLock => Some(if s.stopping then Refusing(WorkerStopped) else NotStopping)
    case NotStopping => Some(if |s.queue| >= w.maxDepth then Refusing(QueueFull) else HasRoom)
    case HasRoom => Some(Pushed)
    case Pushed => Some(MustNotify)
    case MustNotify => Some(Awaiting)
    case Awaiting => if t in s.results then Some(Returned(s.results[t])) else None
    case Refusing(why) => Some(Threw(why))
    case Returned(_) => None
    case Threw(_) => None
  }

  /** What that step does to what the threads share. */
  function Shared(s: State, t: Task): State
    requires t < |s.calls|
  {
    match s.calls[t]
    case WantLock => s.(holder := Some(Caller(t)))
    case HasRoom => s.(queue := s.queue + [t], accepted := s.accepted + [t])
    case Pushed => s.(holder := None)
    case MustNotify => Notify(s)
    case Refusing(_) => s.(holder := None)
    case _ => s
  }

  function CallerStep(w: Setting, s: State, t: Task): Option<State>
    requires t < |s.calls|
  {
    match NextCall(w, s, t)
    case None => None
    case Some(c) => Some(Shared(s, t).(calls := s.calls[t := c]))
  }

  function LoopStep(w: Setting, s: State): Option<State> {
    match s.loop
    case Locking =>
      if s.holder.Some? then None else Some(s.(loop := Evaluating, holder := Some(LoopThread)))
    case Evaluating =>
      if !s.stopping && s.queue == [] then Some(s.(loop := Blocked, holder := None))
      else if s.queue == [] then Some(s.(loop := Leaving))
      else Some(s.(loop := Popped(s.queue[0]), queue := s.queue[1..]))
    case Blocked => None
    case Popped(t) => Some(s.(loop := Running(t), holder := None))
    case Running(t) =>
      Some(s.(loop := Locking, results := s.results[t := w.work(s.executed + [t])], executed := s.executed + [t]))
    case Leaving => Some(s.(loop := Exited, holder := None))
    case Exited => None
  }

  function DrainStep(s: State): Option<State> {
    match s.drain
    case Idle => None
    case Entering =>
      if s.holder.Some? then None else Some(s.(drain := Inside, holder := Some(DrainThread)))
    case Inside =>
      if s.stopping && s.joined then Some(s.(drain := TurningBack)) else Some(s.(drain := StopSet, stopping := true))
    case TurningBack => Some(s.(drain := Idle, holder := None))
    case StopSet => Some(s.(drain := Notifying, holder := None))
    case Notifying => Some(Notify(s).(drain := Joining))
    case Joining =>
      if s.joined || s.loop.Exited? then Some(s.(drain := Idle, joined := true)) else None
  }

  /** One step, or None when the thread cannot move. */
  function Step(w: Setting, s: State, l: Label): Option<State> {
    match l
    case Arrive => Some(s.(calls := s.calls + [WantLock]))
    case CallerMoves(t) => if t < |s.calls| then CallerStep(w, s, t) else None
    case LoopMoves => LoopStep(w, s)
    case WakesForNothing => if s.loop.Blocked? then Some(s.(loop := Locking)) else None
    case DrainCalled => if s.drain.Idle? then Some(s.(drain := Entering)) else None
    case DrainMoves => DrainStep(s)
  }

  ghost predicate CanRun(w: Setting, s: State, ls: seq<Label>)
    decreases |ls|
  {
    ls == [] || (Step(w, s, ls[0]).Some? && CanRun(w, Step(w, s, ls[0]).value, ls[1..]))
  }

  ghost function Run(w: Setting, s: State, ls: seq<Label>): State
    requires CanRun(w, s, ls)
    decreases |ls|
  {
    if ls == [] then s else Run(w, Step(w, s, ls[0]).value, ls[1..])
  }

  // ---- what every step keeps

  /** Exactly the threads inside a locked region hold the mutex. */
  ghost predicate MutexOk(s: State) {
    && (forall t :: 0 <= t < |s.calls| ==> (InEnqueueLock(s.calls[t]) <==> s.holder == Some(Caller(t))))
    && (InLoopLock(s.loop) <==> s.holder == Some(LoopThread))
    && (InDrainLock(s.drain) <==> s.holder == Some(DrainThread))
    && (s.holder.Some? && s.holder.value.Caller? ==> s.holder.value.task < |s.calls|)
  }

  /** The queue is bounded, and a caller that has passed both checks may still push. */
  ghost predicate DepthOk(w: Setting, s: State) {
    && |s.queue| <= w.maxDepth
    && (forall t :: 0 <= t < |s.calls| && s.calls[t].HasRoom? ==> |s.queue| < w.maxDepth)
    && (forall t :: 0 <= t < |s.calls| && (s.calls[t].NotStopping? || s.calls[t].HasRoom?) ==> !s.stopping)
  }

  /** The task that the loop has taken and not finished. */
  function InHand(l: Loop): seq<Task> {
    if l.Popped? || l.Running? then [l.task] else []
  }

  /** Accepted tasks are finished, in hand or queued, in the order of acceptance, each once. */
  ghost predicate OrderOk(s: State) {
    && s.accepted == s.executed + InHand(s.loop) + s.queue
    && Distinct(s.accepted)
    && (forall t :: t in s.accepted <==> 0 <= t < |s.calls| && Accepted(s.calls[t]))
  }

  /** A finished task's future holds what the task gave in its place of that order. */
  ghost predicate ResultsOk(w: Setting, s: State) {
    && (forall t :: t in s.results <==> t in s.executed)
    && (forall i :: 0 <= i < |s.executed| ==> s.results[s.executed[i]] == w.work(s.executed[..i + 1]))
    && (forall t :: 0 <= t < |s.calls| && s.calls[t].Returned? ==> t in s.results && s.calls[t].outcome == s.results[t])
  }

  /** Someone is between releasing the mutex with news for the loop and telling it. */
  ghost predicate WakeUpDue(s: State) {
    || s.drain.StopSet? || s.drain.Notifying?
    || exists t :: 0 <= t < |s.calls| && (s.calls[t].Pushed? || s.calls[t].MustNotify?)
  }

  ghost predicate WakeUpsOk(s: State) {
    s.loop.Blocked? ==> (s.queue == [] && !s.stopping) || WakeUpDue(s)
  }

  ghost predicate StopOk(s: State) {
    && (s.loop.Leaving? || s.loop.Exited? ==> s.stopping && s.queue == [])
    && (s.drain.StopSet? || s.drain.Notifying? || s.drain.Joining? ==> s.stopping)
    && (s.joined ==> s.loop.Exited?)
    && (s.drain.TurningBack? ==> s.joined)
  }

  ghost predicate Inv(w: Setting, s: State) {
    && MutexOk(s)
    && DepthOk(w, s)
    && OrderOk(s)
    && ResultsOk(w, s)
    && WakeUpsOk(s)
    && StopOk(s)
  }

  lemma MutexKeptByCaller(w: Setting, s: State, t: Task)
    requires MutexOk(s) && t < |s.calls| && CallerStep(w, s, t).Some?
    ensures MutexOk(CallerStep(w, s, t).value)
  {
    var s' := CallerStep(w, s, t).value;
    assert |s'.calls| == |s.calls|;
    forall u | 0 <= u < |s'.calls|
      ensures InEnqueueLock(s'.calls[u]) <==> s'.holder == Some(Caller(u))
    {
      assert InEnqueueLock(s.calls[u]) <==> s.holder == Some(Caller(u));
      assert InEnqueueLock(s.calls[t]) <==> s.holder == Some(Caller(t));
    }
  }

  lemma MutexKept(w: Setting, s: State, l: Label)
    requires MutexOk(s) && !l.CallerMoves? && Step(w, s, l).Some?
    ensures MutexOk(Step(w, s, l).value)
  {
  }

  lemma DepthKeptByCaller(w: Setting, s: State, t: Task)
    requires MutexOk(s) && DepthOk(w, s) && t < |s.calls| && CallerStep(w, s, t).Some?
    ensures DepthOk(w, CallerStep(w, s, t).value)
  {
  }

  lemma DepthKept(w: Setting, s: State, l: Label)
    requires MutexOk(s) && DepthOk(w, s) && !l.CallerMoves? && Step(w, s, l).Some?
    ensures DepthOk(w, Step(w, s, l).value)
  {
  }

  lemma StopKept(w: Setting, s: State, l: Label)
    requires MutexOk(s) && DepthOk(w, s) && StopOk(s) && Step(w, s, l).Some?
    ensures StopOk(Step(w, s, l).value)
  {
  }

  lemma WakeUpsKept(w: Setting, s: State, l: Label)
    requires MutexOk(s) && WakeUpsOk(s) && !l.CallerMoves? && Step(w, s, l).Some?
    ensures WakeUpsOk(Step(w, s, l).value)
  {
    var s' := Step(w, s, l).value;
    if s'.loop.Blocked? && s.loop.Blocked? {
      if t :| 0 <= t < |s.calls| && (s.calls[t].Pushed? || s.calls[t].MustNotify?) {
        assert s'.calls[t] == s.calls[t];
      }
    }
  }

  lemma WakeUpsKeptByCaller(w: Setting, s: State, t: Task)
    requires WakeUpsOk(s) && t < |s.calls| && CallerStep(w, s, t).Some?
    ensures WakeUpsOk(CallerStep(w, s, t).value)
  {
    var s' := CallerStep(w, s, t).value;
    CallerMovesItself(w, s, t);
    if s'.loop.Blocked? {
      assert s.loop.Blocked? && !s.calls[t].MustNotify?;
      if u :| 0 <= u < |s.calls| && (s.calls[u].Pushed? || s.calls[u].MustNotify?) {
        assert s'.calls[u].Pushed? || s'.calls[u].MustNotify?;
      } else if s.calls[t].HasRoom? {
        assert s'.calls[t].Pushed?;
      }
    }
  }

  lemma CallerMovesItself(w: Setting, s: State, t: Task)
    requires t < |s.calls| && CallerStep(w, s, t).Some?
    ensures |CallerStep(w, s, t).value.calls| == |s.calls|
    ensures CallerStep(w, s, t).value.calls == s.calls[t := CallerStep(w, s, t).value.calls[t]]
  {
  }

  /** The steps that move a task on: pushing it, taking it and finishing it. */
  predicate MovesTask(s: State, l: Label) {
    || (l.CallerMoves? && l.task < |s.calls| && s.calls[l.task].HasRoom?)
    || (l.LoopMoves? && (s.loop.Evaluating? || s.loop.Running?))
  }

  /** Nothing of a task has changed, but that a caller may have picked up its result. */
  ghost predicate SameTasks(s: State, s': State) {
    && s'.results == s.results && s'.executed == s.executed && s'.accepted == s.accepted && s'.queue == s.queue
    && InHand(s'.loop) == InHand(s.loop)
    && |s.calls| <= |s'.calls|
    && (forall t :: 0 <= t < |s.calls| ==> (Accepted(s'.calls[t]) <==> Accepted(s.calls[t])))
    && (forall t :: |s.calls| <= t < |s'.calls| ==> s'.calls[t] == WantLock)
    && (forall t :: 0 <= t < |s.calls| && s'.calls[t].Returned? && s'.calls[t] != s.calls[t] ==>
          t in s.results && s'.calls[t].outcome == s.results[t])
  }

  lemma CallerLeavesTasks(w: Setting, s: State, t: Task)
    requires t < |s.calls| && CallerStep(w, s, t).Some? && !s.calls[t].HasRoom?
    ensures SameTasks(s, CallerStep(w, s, t).value)
  {
    var s' := CallerStep(w, s, t).value;
    CallerMovesItself(w, s, t);
    var c := s'.calls[t];
    assert Accepted(c) <==> Accepted(s.calls[t]);
    assert c.Returned? ==> t in s.results && c.outcome == s.results[t];
    assert s'.calls == s.calls[t := c];
  }

  lemma StepLeavesTasks(w: Setting, s: State, l: Label)
    requires Step(w, s, l).Some? && !MovesTask(s, l)
    ensures SameTasks(s, Step(w, s, l).value)
  {
    if l.CallerMoves? {
      CallerLeavesTasks(w, s, l.task);
    }
  }

  lemma SameTasksOk(w: Setting, s: State, s': State)
    requires SameTasks(s, s') && OrderOk(s) && ResultsOk(w, s)
    ensures OrderOk(s') && ResultsOk(w, s')
  {
  }

  lemma PushOk(w: Setting, s: State, t: Task)
    requires OrderOk(s) && ResultsOk(w, s) && t < |s.calls| && s.calls[t].HasRoom?
    ensures OrderOk(CallerStep(w, s, t).value) && ResultsOk(w, CallerStep(w, s, t).value)
  {
    var s' := CallerStep(w, s, t).value;
    assert t !in s.accepted;
    assert s'.accepted == s'.executed + InHand(s'.loop) + s'.queue;
  }

  lemma TakeOk(w: Setting, s: State)
    requires OrderOk(s) && ResultsOk(w, s) && s.loop.Evaluating?
    ensures OrderOk(LoopStep(w, s).value) && ResultsOk(w, LoopStep(w, s).value)
  {
    var s' := LoopStep(w, s).value;
    if s.queue != [] {
      assert s.queue == [s.queue[0]] + s'.queue;
    }
    assert s'.accepted == s'.executed + InHand(s'.loop) + s'.queue;
  }

  lemma FinishOk(w: Setting, s: State)
    requires OrderOk(s) && ResultsOk(w, s) && s.loop.Running?
    ensures OrderOk(LoopStep(w, s).value) && ResultsOk(w, LoopStep(w, s).value)
  {
    var s' := LoopStep(w, s).value;
    var t, n := s.loop.task, |s.executed|;
    assert s'.accepted == s'.executed + InHand(s'.loop) + s'.queue;
    assert s.accepted[n] == t && s.accepted[..n] == s.executed;
    forall i | 0 <= i < |s'.executed|
      ensures s'.results[s'.executed[i]] == w.work(s'.executed[..i + 1])
    {
      if i < n {
        assert s.executed[i] == s.accepted[i];
        assert s'.executed[..i + 1] == s.executed[..i + 1];
      } else {
        assert s'.executed[..i + 1] == s'.executed;
      }
    }
  }

  lemma TasksKept(w: Setting, s: State, l: Label)
    requires OrderOk(s) && ResultsOk(w, s) && Step(w, s, l).Some?
    ensures OrderOk(Step(w, s, l).value) && ResultsOk(w, Step(w, s, l).value)
  {
    if !MovesTask(s, l) {
      StepLeavesTasks(w, s, l);
      SameTasksOk(w, s, Step(w, s, l).value);
    } else if l.CallerMoves? {
      PushOk(w, s, l.task);
    } else if s.loop.Running? {
      FinishOk(w, s);
    } else {
      TakeOk(w, s);
    }
  }

  lemma StepKeepsInv(w: Setting, s: State, l: Label)
    requires Inv(w, s) && Step(w, s, l).Some?
    ensures Inv(w, Step(w, s, l).value)
  {
    StopKept(w, s, l);
    TasksKept(w, s, l);
    if l.CallerMoves? {
      MutexKeptByCaller(w, s, l.task);
      WakeUpsKeptByCaller(w, s, l.task);
      DepthKeptByCaller(w, s, l.task);
    } else {
      MutexKept(w, s, l);
      WakeUpsKept(w, s, l);
      DepthKept(w, s, l);
    }
  }

  lemma {:induction false} RunKeepsInv(w: Setting, s: State, ls: seq<Label>)
    requires Inv(w, s) && CanRun(w, s, ls)
    ensures Inv(w, Run(w, s, ls))
    decreases |ls|
  {
    if ls != [] {
      StepKeepsInv(w, s, ls[0]);
      RunKeepsInv(w, Step(w, s, ls[0]).value, ls[1..]);
    }
  }

  /** Every interleaving of the threads, from a new worker on. */
  lemma ReachableIsSound(w: Setting, ls: seq<Label>)
    requires CanRun(w, START, ls)
    ensures Inv(w, Run(w, START, ls))
  {
    RunKeepsInv(w, START, ls);
  }
}
