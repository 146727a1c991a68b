/** What the worker promises over every interleaving of its threads, and that it always gets
    there. */
module WorkerGuarantees {
  import opened Options
  import opened Sequences
  import opened Worker

  /** The queue never exceeds its bound, and tasks finish one at a time, in the order of
      acceptance, each at most once. */
  lemma TasksRunOnceInOrder(w: Setting, ls: seq<Label>)
    requires CanRun(w, START, ls)
    ensures var s := Run(w, START, ls);
            && |s.queue| <= w.maxDepth
            && s.executed <= s.accepted
            && Distinct(s.accepted)
            && |s.accepted| - |s.executed| <= |s.queue| + 1
  {
    ReachableIsSound(w, ls);
    var s := Run(w, START, ls);
    assert s.executed == s.accepted[..|s.executed|];
  }

  /** A Run call that returns gives what its own task gave, run behind the tasks accepted
      before it; one that throws was never accepted. */
  lemma EachCallGetsItsOwn(w: Setting, ls: seq<Label>, t: Task)
    requires CanRun(w, START, ls) && t < |Run(w, START, ls).calls|
    ensures var s := Run(w, START, ls);
            && (s.calls[t].Returned? ==>
                  exists i :: 0 <= i < |s.accepted| && s.accepted[i] == t && s.calls[t].outcome == w.work(s.accepted[..i + 1]))
            && (s.calls[t].Threw? ==> t !in s.accepted && t !in s.executed)
  {
    ReachableIsSound(w, ls);
    var s := Run(w, START, ls);
    if s.calls[t].Returned? {
      var i :| 0 <= i < |s.executed| && s.executed[i] == t;
      assert s.accepted[i] == t && s.accepted[..i + 1] == s.executed[..i + 1];
    }
  }

  lemma StepKeepsHistory(w: Setting, s: State, l: Label)
    requires Step(w, s, l).Some?
    ensures s.accepted <= Step(w, s, l).value.accepted && s.executed <= Step(w, s, l).value.executed
    ensures s.stopping ==> Step(w, s, l).value.stopping
    ensures Inv(w, s) && s.stopping ==> Step(w, s, l).value.accepted == s.accepted
  {
  }

  /** Once stopping is set nothing is accepted, whatever happens then. */
  lemma {:induction false} NothingAcceptedAfterStop(w: Setting, s: State, ls: seq<Label>)
    requires Inv(w, s) && s.stopping && CanRun(w, s, ls)
    ensures Run(w, s, ls).accepted == s.accepted && Run(w, s, ls).stopping
    decreases |ls|
  {
    if ls != [] {
      StepKeepsHistory(w, s, ls[0]);
      StepKeepsInv(w, s, ls[0]);
      NothingAcceptedAfterStop(w, Step(w, s, ls[0]).value, ls[1..]);
    }
  }

  /** When a Drain call has returned, the loop is gone and every accepted task has run; so has
      nothing else, ever. */
  lemma DrainedMeansDone(w: Setting, s: State, ls: seq<Label>)
    requires Inv(w, s) && s.joined && CanRun(w, s, ls)
    ensures s.queue == [] && s.loop.Exited? && s.executed == s.accepted
    ensures Run(w, s, ls).executed == s.executed
  {
    assert s.accepted == s.executed + [] + [];
    NothingAcceptedAfterStop(w, s, ls);
    RunKeepsInv(w, s, ls);
    HistoryGrows(w, s, ls);
    var s' := Run(w, s, ls);
    assert s'.executed <= s'.accepted by {
      assert s'.executed == s'.accepted[..|s'.executed|];
    }
  }

  lemma {:induction false} HistoryGrows(w: Setting, s: State, ls: seq<Label>)
    requires CanRun(w, s, ls)
    ensures s.accepted <= Run(w, s, ls).accepted && s.executed <= Run(w, s, ls).executed
    decreases |ls|
  {
    if ls != [] {
      StepKeepsHistory(w, s, ls[0]);
      HistoryGrows(w, Step(w, s, ls[0]).value, ls[1..]);
    }
  }

  // ---- progress

  /** Steps that the worker's own code takes, rather than its surroundings. */
  predicate IsOwn(l: Label) {
    l.CallerMoves? || l.LoopMoves? || l.DrainMoves?
  }

  ghost predicate CanMove(w: Setting, s: State) {
    exists l :: IsOwn(l) && Step(w, s, l).Some?
  }

  /** Every call has its answer, no task is left, and the loop waits, or is gone if stopped. */
  ghost predicate Settled(s: State) {
    && s.queue == [] && s.executed == s.accepted && s.holder == None && s.drain.Idle?
    && (forall t :: 0 <= t < |s.calls| ==> s.calls[t].Returned? || s.calls[t].Threw?)
    && s.loop == (if s.stopping then Exited else Blocked)
  }

  lemma HolderMoves(w: Setting, s: State)
    requires Inv(w, s) && s.holder.Some?
    ensures CanMove(w, s)
  {
    match s.holder.value
    case Caller(t) => assert Step(w, s, CallerMoves(t)).Some?;
    case LoopThread => assert Step(w, s, LoopMoves).Some?;
    case DrainThread => assert Step(w, s, DrainMoves).Some?;
  }

  lemma CallerStuck(w: Setting, s: State, t: Task)
    requires Inv(w, s) && !CanMove(w, s) && t < |s.calls|
    ensures s.calls[t].Returned? || s.calls[t].Threw? || (s.calls[t].Awaiting? && t !in s.results)
  {
    if s.holder.Some? {
      HolderMoves(w, s);
    }
    assert Step(w, s, CallerMoves(t)).None?;
  }

  lemma LoopStuck(w: Setting, s: State)
    requires Inv(w, s) && !CanMove(w, s)
    ensures s.queue == [] && s.holder == None && s.drain.Idle?
    ensures s.loop == (if s.stopping then Exited else Blocked)
  {
    if s.holder.Some? {
      HolderMoves(w, s);
    }
    assert Step(w, s, LoopMoves).None? && Step(w, s, DrainMoves).None?;
    if s.loop.Blocked? && WakeUpDue(s) {
      var t :| 0 <= t < |s.calls| && (s.calls[t].Pushed? || s.calls[t].MustNotify?);
      CallerStuck(w, s, t);
    }
  }

  /** No lost wake-up and no deadlock: the worker can move until everything is settled. */
  lemma MovesUntilSettled(w: Setting, s: State)
    requires Inv(w, s)
    ensures CanMove(w, s) || Settled(s)
  {
    if !CanMove(w, s) {
      LoopStuck(w, s);
      assert s.accepted == s.executed + [] + [];
      forall t | 0 <= t < |s.calls|
        ensures s.calls[t].Returned? || s.calls[t].Threw?
      {
        CallerStuck(w, s, t);
      }
    }
  }

  function CallRank(c: Call): nat {
    match c
    case WantLock => 14
    case HasLock => 13
    case NotStopping => 12
    case HasRoom => 11
    case Pushed => 6
    case MustNotify => 5
    case Awaiting => 1
    case Refusing(_) => 1
    case Returned(_) => 0
    case Threw(_) => 0
  }

  function LoopRank(l: Loop): nat {
    match l
    case Popped(_) => 5
    case Running(_) => 4
    case Locking => 3
    case Evaluating => 2
    case Leaving => 1
    case Blocked => 0
    case Exited => 0
  }

  function DrainRank(d: Drain): nat {
    match d
    case Entering => 8
    case Inside => 7
    case StopSet => 6
    case Notifying => 5
    case TurningBack => 1
    case Joining => 1
    case Idle => 0
  }

  function CallsRank(calls: seq<Call>): nat {
    if calls == [] then 0 else CallsRank(calls[..|calls| - 1]) + CallRank(calls[|calls| - 1])
  }

  /** Work left: a bound on the steps that the worker's threads can still take unprompted. */
  function Left(s: State): nat {
    CallsRank(s.calls) + 4 * |s.queue| + LoopRank(s.loop) + DrainRank(s.drain)
  }

  /** What the surroundings can add by one step. */
  function Added(l: Label): nat {
    match l
    case Arrive => 14
    case WakesForNothing => 3
    case DrainCalled => 8
    case _ => 0
  }

  lemma {:induction false} RankOfUpdate(calls: seq<Call>, t: nat, c: Call)
    requires t < |calls|
    ensures CallsRank(calls[t := c]) + CallRank(calls[t]) == CallsRank(calls) + CallRank(c)
  {
    var n := |calls| - 1;
    if t == n {
      assert calls[t := c][..n] == calls[..n];
    } else {
      assert calls[t := c][..n] == calls[..n][t := c];
      RankOfUpdate(calls[..n], t, c);
    }
  }

  lemma CallerRanks(w: Setting, s: State, t: Task)
    requires t < |s.calls| && CallerStep(w, s, t).Some?
    ensures var s' := CallerStep(w, s, t).value;
            && |s'.calls| == |s.calls| && s'.drain == s.drain
            && CallRank(s'.calls[t]) + 4 * |s'.queue| + LoopRank(s'.loop) < CallRank(s.calls[t]) + 4 * |s.queue| + LoopRank(s.loop)
  {
  }

  lemma CallerUsesUp(w: Setting, s: State, t: Task)
    requires t < |s.calls| && CallerStep(w, s, t).Some?
    ensures Left(CallerStep(w, s, t).value) < Left(s)
  {
    var s' := CallerStep(w, s, t).value;
    CallerMovesItself(w, s, t);
    CallerRanks(w, s, t);
    RankOfUpdate(s.calls, t, s'.calls[t]);
  }

  /** Each own step leaves less to do. */
  lemma OwnStepUsesUp(w: Setting, s: State, l: Label)
    requires Step(w, s, l).Some?
    ensures IsOwn(l) ==> Left(Step(w, s, l).value) < Left(s)
    ensures !IsOwn(l) ==> Left(Step(w, s, l).value) <= Left(s) + Added(l)
  {
    if l.CallerMoves? {
      CallerUsesUp(w, s, l.task);
    } else if l.Arrive? {
      assert (s.calls + [WantLock])[..|s.calls|] == s.calls;
    }
  }

  function OwnSteps(ls: seq<Label>): nat {
    if ls == [] then 0 else (if IsOwn(ls[0]) then 1 else 0) + OwnSteps(ls[1..])
  }

  function AddedBy(ls: seq<Label>): nat {
    if ls == [] then 0 else Added(ls[0]) + AddedBy(ls[1..])
  }

  /** In any run the worker's threads take no more steps than were left to do, plus what new
      calls, Drain calls and spurious wake-ups have added. */
  lemma {:induction false} OwnStepsAreBounded(w: Setting, s: State, ls: seq<Label>)
    requires CanRun(w, s, ls)
    ensures OwnSteps(ls) + Left(Run(w, s, ls)) <= Left(s) + AddedBy(ls)
    decreases |ls|
  {
    if ls != [] {
      OwnStepUsesUp(w, s, ls[0]);
      OwnStepsAreBounded(w, Step(w, s, ls[0]).value, ls[1..]);
    }
  }

  /** Left alone, the worker settles, however its threads are scheduled: no run of own steps is
      longer than what was left, and one that cannot be continued ends settled. With stopping
      set, that is the loop gone, the queue empty and every accepted call answered. */
  lemma SettlesLeftAlone(w: Setting, s: State, ls: seq<Label>)
    requires Inv(w, s) && CanRun(w, s, ls) && (forall k :: 0 <= k < |ls| ==> IsOwn(ls[k]))
    ensures |ls| <= Left(s)
    ensures CanMove(w, Run(w, s, ls)) || Settled(Run(w, s, ls))
    ensures s.stopping && !CanMove(w, Run(w, s, ls)) ==>
              Run(w, s, ls).loop.Exited? && Run(w, s, ls).executed == s.accepted
  {
    OwnStepsAreBounded(w, s, ls);
    AllOwn(ls);
    RunKeepsInv(w, s, ls);
    MovesUntilSettled(w, Run(w, s, ls));
    if s.stopping {
      NothingAcceptedAfterStop(w, s, ls);
    }
  }

  lemma {:induction false} AllOwn(ls: seq<Label>)
    requires forall k :: 0 <= k < |ls| ==> IsOwn(ls[k])
    ensures OwnSteps(ls) == |ls| && AddedBy(ls) == 0
  {
    if ls != [] {
      assert IsOwn(ls[0]);
      AllOwn(ls[1..]);
    }
  }
}
