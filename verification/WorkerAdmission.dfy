/** Which Run calls the worker accepts and which it throws back, decided at the moment a call
    gets the lock; and what a Drain call has achieved when it returns. */
module WorkerAdmission {
  import opened Options
  import opened Worker
  import opened WorkerGuarantees

  /** The call is past its checks: pushed, or on its way to throwing. */
  predicate Decided(c: Call) {
    !c.WantLock? && !c.HasLock? && !c.NotStopping? && !c.HasRoom?
  }

  predicate Turned(c: Call, why: Refusal) {
    c == Refusing(why) || c == Threw(why)
  }

  /** The fate that the call meets if it gets the lock with this flag and this queue length. */
  ghost predicate Fate(w: Setting, s: State, t: Task, stopping: bool, depth: nat)
    requires t < |s.calls|
  {
    && (stopping ==> Turned(s.calls[t], WorkerStopped))
    && (!stopping && depth >= w.maxDepth ==> Turned(s.calls[t], QueueFull))
    && (!stopping && depth < w.maxDepth ==> t in s.accepted)
  }

  /** Still deciding, with the flag and the queue as they were; or decided by them. */
  ghost predicate OnItsWay(w: Setting, s: State, t: Task, stopping: bool, depth: nat) {
    && t < |s.calls| && !s.calls[t].WantLock?
    && if Decided(s.calls[t]) then Fate(w, s, t, stopping, depth)
       else s.stopping == stopping && |s.queue| == depth
            && (s.calls[t].NotStopping? ==> !stopping)
            && (s.calls[t].HasRoom? ==> !stopping && depth < w.maxDepth)
  }

  lemma OthersWait(w: Setting, s: State, l: Label, t: Task)
    requires MutexOk(s) && Step(w, s, l).Some? && t < |s.calls| && InEnqueueLock(s.calls[t])
    requires l != CallerMoves(t)
    ensures var s' := Step(w, s, l).value;
            t < |s'.calls| && s'.calls[t] == s.calls[t] && s'.stopping == s.stopping && s'.queue == s.queue
  {
    assert s.holder == Some(Caller(t));
    if l.CallerMoves? {
      CallerMovesItself(w, s, l.task);
      assert !InEnqueueLock(s.calls[l.task]);
    }
  }

  lemma DecidedStays(w: Setting, s: State, l: Label, t: Task)
    requires Step(w, s, l).Some? && t < |s.calls| && Decided(s.calls[t])
    ensures var s' := Step(w, s, l).value;
            && t < |s'.calls| && Decided(s'.calls[t])
            && (forall why :: Turned(s.calls[t], why) ==> Turned(s'.calls[t], why))
            && (t in s.accepted ==> t in s'.accepted)
  {
    if l.CallerMoves? {
      CallerMovesItself(w, s, l.task);
    }
  }

  lemma StaysOnItsWay(w: Setting, s: State, l: Label, t: Task, stopping: bool, depth: nat)
    requires Inv(w, s) && Step(w, s, l).Some? && OnItsWay(w, s, t, stopping, depth)
    ensures OnItsWay(w, Step(w, s, l).value, t, stopping, depth)
  {
    if Decided(s.calls[t]) {
      DecidedStays(w, s, l, t);
    } else if l != CallerMoves(t) {
      OthersWait(w, s, l, t);
    } else {
      CallerMovesItself(w, s, t);
    }
  }

  /** Whatever the threads do from the moment a call has the lock, it is decided by the flag and
      the queue of that moment: it throws WorkerStopped exactly if stopping was set, QueueFull
      exactly if it was not and the queue was full, and else its task is accepted. */
  lemma {:induction false} DecidedAtTheLock(w: Setting, s: State, ls: seq<Label>, t: Task, stopping: bool, depth: nat)
    requires Inv(w, s) && CanRun(w, s, ls) && OnItsWay(w, s, t, stopping, depth)
    ensures OnItsWay(w, Run(w, s, ls), t, stopping, depth)
    decreases |ls|
  {
    if ls != [] {
      StaysOnItsWay(w, s, ls[0], t, stopping, depth);
      StepKeepsInv(w, s, ls[0]);
      DecidedAtTheLock(w, Step(w, s, ls[0]).value, ls[1..], t, stopping, depth);
    }
  }

  lemma {:induction false} RunSplits(w: Setting, s: State, ls: seq<Label>, k: nat)
    requires CanRun(w, s, ls) && k <= |ls|
    ensures CanRun(w, s, ls[..k]) && CanRun(w, Run(w, s, ls[..k]), ls[k..])
    ensures Run(w, Run(w, s, ls[..k]), ls[k..]) == Run(w, s, ls)
    decreases k
  {
    if k > 0 {
      assert ls[..k][1..] == ls[1..][..k - 1];
      assert ls[k..] == ls[1..][k - 1..];
      RunSplits(w, Step(w, s, ls[0]).value, ls[1..], k - 1);
    } else {
      assert ls[..0] == [] && ls[0..] == ls;
    }
  }

  lemma GetsTheLock(w: Setting, s: State, l: Label, t: Task)
    requires Step(w, s, l).Some? && t < |Step(w, s, l).value.calls| && !Step(w, s, l).value.calls[t].WantLock?
    requires t < |s.calls| ==> s.calls[t].WantLock?
    ensures Step(w, s, l).value.calls[t].HasLock?
  {
    if l.CallerMoves? {
      CallerMovesItself(w, s, l.task);
    }
  }

  /** A call that is no longer waiting for the lock has got it at some point of the run. */
  lemma {:induction false} HadTheLock(w: Setting, s: State, ls: seq<Label>, t: Task) returns (k: nat)
    requires CanRun(w, s, ls) && t < |Run(w, s, ls).calls| && !Run(w, s, ls).calls[t].WantLock?
    requires t < |s.calls| ==> s.calls[t].WantLock?
    ensures k <= |ls| && CanRun(w, s, ls[..k])
    ensures t < |Run(w, s, ls[..k]).calls| && Run(w, s, ls[..k]).calls[t].HasLock?
    decreases |ls|
  {
    var s' := Step(w, s, ls[0]).value;
    if t < |s'.calls| && !s'.calls[t].WantLock? {
      GetsTheLock(w, s, ls[0], t);
      k := 1;
      assert ls[..1][1..] == [];
    } else {
      var j := HadTheLock(w, s', ls[1..], t);
      k := j + 1;
      assert ls[..k][1..] == ls[1..][..j];
    }
  }

  /** In every interleaving: a call that is past its checks made them at some moment k, holding
      the lock. If stopping was set then, it throws WorkerStopped; if not and the queue was full,
      it throws QueueFull; and if there was room, its task was accepted. */
  lemma RefusedExactly(w: Setting, ls: seq<Label>, t: Task) returns (k: nat)
    requires CanRun(w, START, ls) && t < |Run(w, START, ls).calls| && Decided(Run(w, START, ls).calls[t])
    ensures k <= |ls| && CanRun(w, START, ls[..k])
    ensures var at, s := Run(w, START, ls[..k]), Run(w, START, ls);
            && t < |at.calls| && at.calls[t].HasLock? && at.holder == Some(Caller(t))
            && (Turned(s.calls[t], WorkerStopped) <==> at.stopping)
            && (Turned(s.calls[t], QueueFull) <==> !at.stopping && |at.queue| >= w.maxDepth)
            && (t in s.accepted <==> !at.stopping && |at.queue| < w.maxDepth)
  {
    k := HadTheLock(w, START, ls, t);
    var at := Run(w, START, ls[..k]);
    RunSplits(w, START, ls, k);
    ReachableIsSound(w, ls[..k]);
    ReachableIsSound(w, ls);
    DecidedAtTheLock(w, at, ls[k..], t, at.stopping, |at.queue|);
    var s := Run(w, START, ls);
    assert t in s.accepted <==> Accepted(s.calls[t]);
  }

  function ChecksLeft(c: Call): nat {
    if c.HasLock? then 3 else if c.NotStopping? then 2 else if c.HasRoom? then 1 else 0
  }

  /** A call that holds the lock is done with its checks after three steps of its own at most:
      nobody else need move. */
  lemma {:induction false} DecidesSoon(w: Setting, s: State, t: Task) returns (ls: seq<Label>)
    requires t < |s.calls| && !s.calls[t].WantLock?
    ensures |ls| <= ChecksLeft(s.calls[t]) && (forall k :: 0 <= k < |ls| ==> ls[k] == CallerMoves(t)) && CanRun(w, s, ls)
    ensures t < |Run(w, s, ls).calls| && Decided(Run(w, s, ls).calls[t])
    decreases ChecksLeft(s.calls[t])
  {
    if Decided(s.calls[t]) {
      ls := [];
    } else {
      var s' := Step(w, s, CallerMoves(t)).value;
      CallerMovesItself(w, s, t);
      var rest := DecidesSoon(w, s', t);
      ls := [CallerMoves(t)] + rest;
      assert ls[1..] == rest;
    }
  }

  /** A Drain call that returns, for having joined or for finding that done, leaves the loop gone
      and every accepted task run. */
  lemma DrainReturnsDone(w: Setting, s: State)
    requires Inv(w, s) && !s.drain.Idle? && Step(w, s, DrainMoves).Some? && Step(w, s, DrainMoves).value.drain.Idle?
    ensures var s' := Step(w, s, DrainMoves).value;
            s'.stopping && s'.joined && s'.loop.Exited? && s'.queue == [] && s'.executed == s'.accepted
  {
    StepKeepsInv(w, s, DrainMoves);
    DrainedMeansDone(w, Step(w, s, DrainMoves).value, []);
  }
}
