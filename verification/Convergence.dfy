/** Nothing is lost as long as the book passes the startup gate: a crash, a restart and one
    retry bring any journaled id to its outcome. If it does not pass, nothing more happens. */
module Convergence {
  import opened Options
  import opened Books
  import opened Handlers
  import opened Recovery
  import opened Journals
  import opened Sequences
  import opened Protocol
  import opened Reconciliation
  import opened Refinement
  import opened Guarantees
  import opened Daemon
  import Startup
  import Verdicts

  /** One run after another. */
  lemma {:induction false} RunsOn(s: State, xs: seq<Label>, ys: seq<Label>)
    requires CanRun(s, xs) && CanRun(Run(s, xs), ys)
    ensures CanRun(s, xs + ys) && Run(s, xs + ys) == Run(Run(s, xs), ys)
    ensures Legal(s, xs) && Legal(Run(s, xs), ys) ==> Legal(s, xs + ys)
    decreases |xs|
  {
    if xs == [] {
      assert xs + ys == ys;
    } else {
      RunsOn(Step(s, xs[0]), xs[1..], ys);
      StepThenRun(s, xs[0], xs[1..] + ys);
      assert [xs[0]] + (xs[1..] + ys) == xs + ys;
    }
  }

  lemma {:induction false} ResolvingIsLegal(s: State, entries: seq<PendingEntry>)
    requires CanRun(s, ResolveSteps(s.book, entries))
    ensures Legal(s, ResolveSteps(s.book, entries))
    decreases |entries|
  {
    if entries != [] {
      var l := Resolve(JudgedApplied(s.book, entries[0].request, entries[0].pending));
      assert ResolveSteps(s.book, entries)[1..] == ResolveSteps(s.book, entries[1..]);
      ResolvingIsLegal(Step(s, l), entries[1..]);
    }
  }

  lemma UnresolvedListed(s: State) returns (todo: seq<PendingEntry>)
    requires Inv(s)
    ensures Lists(s.tables, todo)
  {
    todo := [];
    if id :| id in Unresolved(s.tables) {
      assert forall x :: x in Unresolved(s.tables) ==> x == id;
      OnlyEntry(s.tables, id);
      todo := [EntryOf(s.tables, id)];
    }
  }

  /** A daemon that is down, over a book that the gate lets through, comes up again, reconciles
      and serves. */
  lemma StartRuns(s: State) returns (ls: seq<Label>)
    requires Inv(s) && s.phase.Down? && Startup.Opens(s.book)
    ensures Legal(s, ls) && CanRun(s, ls)
    ensures Run(s, ls) ==
            s.(phase := Idle, open := true, tables := AfterReconciling(s.tables, s.book, Unresolved(s.tables)))
  {
    var todo := UnresolvedListed(s);
    var started := Step(s, Start(todo));
    NothingResolved(s.tables, Confirmed(s.tables, s.book));
    assert todo[0..] == todo && Ids(todo[..0]) == {};
    RestartReconciles(started, s.tables, todo, 0);
    ResolvingIsLegal(started, todo);
    var resolved := Run(started, ResolveSteps(s.book, todo));
    StepThenRun(resolved, Serve, []);
    assert [Serve] + [] == [Serve];
    RunsOn(started, ResolveSteps(s.book, todo), [Serve]);
    StepThenRun(s, Start(todo), ResolveSteps(s.book, todo) + [Serve]);
    ls := [Start(todo)] + (ResolveSteps(s.book, todo) + [Serve]);
  }

  /** So does one that runs and dies now. */
  lemma RestartRuns(s: State) returns (ls: seq<Label>)
    requires Inv(s) && Startup.Opens(s.book)
    ensures Legal(s, ls) && CanRun(s, ls)
    ensures Run(s, ls) ==
            s.(phase := Idle, open := true, tables := AfterReconciling(s.tables, s.book, Unresolved(s.tables)))
  {
    if s.phase.Down? {
      ls := StartRuns(s);
    } else {
      StepKeepsInv(s, Crash);
      var rest := StartRuns(Step(s, Crash));
      StepThenRun(s, Crash, rest);
      ls := [Crash] + rest;
    }
  }

  /** One retry with the first request gives an indeterminate id its outcome. */
  lemma RetryResolves(s: State, id: Id, env: Env) returns (ls: seq<Label>)
    requires s.phase.Idle? && s.open && id in Indeterminate(s.tables)
    requires Fresh(s.book, s.tables.intents[id].request, env)
    ensures Legal(s, ls) && CanRun(s, ls)
    ensures var v, s' := Execute(Some(s.book), s.tables.intents[id].request, env), Run(s, ls);
            && id in s'.tables.applied && s'.tables.applied[id] == OutcomeOf(v)
            && s'.commits == s.commits + (if v.Commit? then [id] else [])
            && s'.book == (if v.Commit? then v.post else s.book)
  {
    var r := s.tables.intents[id].request;
    match Execute(Some(s.book), r, env)
    case Commit(response, post) =>
      ls := CommittedRuns(s, id, r, env, response, post);
    case Reject(e) =>
      Verdicts.RefusalsAreVerdicts(s.book, r, env);
      ls := RefusedRuns(s, id, r, env, e);
  }

  /** From every reachable state whose book passes the gate, wherever the daemon is: let it die,
      start again and reconcile, and if the id is then still indeterminate, retry it once. It has
      its outcome, with its edit committed now exactly if the handler accepts, and no id has been
      committed twice. */
  lemma NothingIsLost(b: Book, ls: seq<Label>, id: Id, env: Env) returns (restart: seq<Label>, retry: seq<Label>)
    requires Legal(Initial(b), ls) && CanRun(Initial(b), ls) && Startup.Opens(Run(Initial(b), ls).book)
    requires var s := Run(Initial(b), ls);
             id in s.tables.intents && Fresh(s.book, s.tables.intents[id].request, env)
    ensures var s := Run(Initial(b), ls);
            && Legal(s, restart) && CanRun(s, restart)
            && Legal(Run(s, restart), retry) && CanRun(Run(s, restart), retry)
            && Run(s, restart).book == s.book && Run(s, restart).commits == s.commits
    ensures var s := Run(Initial(b), ls);
            var up, s' := Run(s, restart), Run(Run(s, restart), retry);
            && id in s'.tables.applied && Distinct(s'.commits)
            && if id in up.tables.applied then s' == up
               else
                 var v := Execute(Some(s.book), s.tables.intents[id].request, env);
                 && s'.tables.applied[id] == OutcomeOf(v)
                 && s'.commits == s.commits + (if v.Commit? then [id] else [])
                 && s'.book == (if v.Commit? then v.post else s.book)
  {
    Reachable(b, ls);
    var s := Run(Initial(b), ls);
    restart := RestartRuns(s);
    RunKeepsInv(s, restart);
    var up := Run(s, restart);
    retry := [];
    if id !in up.tables.applied {
      retry := RetryResolves(up, id, env);
    }
    RunKeepsInv(up, retry);
  }

  // ---- the gate

  /** A daemon that is down, over a book that the gate refuses, does nothing ever again. */
  lemma StaysDown(s: State, ls: seq<Label>)
    requires s.phase.Down? && !Startup.Opens(s.book) && CanRun(s, ls)
    ensures ls == []
  {
  }

  /** Some way on gives the id its outcome. */
  ghost predicate CanSettle(s: State, id: Id) {
    exists ls :: Legal(s, ls) && CanRun(s, ls) && id in Run(s, ls).tables.applied
  }

  /** So a journaled id of a daemon that has died can still get its outcome exactly if it has it
      already or the gate lets the book through. */
  lemma SettlesIffOpens(b: Book, ls: seq<Label>, id: Id, env: Env)
    requires Legal(Initial(b), ls) && CanRun(Initial(b), ls)
    requires var s := Run(Initial(b), ls);
             s.phase.Down? && id in s.tables.intents && Fresh(s.book, s.tables.intents[id].request, env)
    ensures var s := Run(Initial(b), ls);
            CanSettle(s, id) <==> id in s.tables.applied || Startup.Opens(s.book)
  {
    var s := Run(Initial(b), ls);
    if Startup.Opens(s.book) {
      var restart, retry := NothingIsLost(b, ls, id, env);
      RunsOn(s, restart, retry);
    } else {
      forall more | CanRun(s, more)
        ensures more == []
      {
        StaysDown(s, more);
      }
      assert Run(s, []) == s && Legal(s, []);
    }
  }

  /** Whatever a legal run did to a well-formed book, and wherever it died, the next start passes
      the gate in every listing order as long as the book it left is bounded. */
  lemma RestartPasses(b: Book, ls: seq<Label>, rows: seq<Row>, order: seq<Row>)
    requires WellFormed(b) && Legal(Initial(b), ls) && CanRun(Initial(b), ls)
    requires var left := Run(Initial(b), ls).book;
             && Startup.Lists(left, left.transactions.Keys, rows) && AreRows(left, rows) && Startup.Bounded(left, rows)
             && Startup.Lists(left, left.transactions.Keys, order) && AreRows(left, order)
    ensures Startup.GateHolds(Run(Initial(b), ls).book, order) && Startup.Opens(Run(Initial(b), ls).book)
  {
    InitialInv(b);
    BookStaysSound(Initial(b), ls);
    Startup.BoundedBookPasses(Run(Initial(b), ls).book, rows, order);
    Startup.BoundedBookOpens(Run(Initial(b), ls).book, rows);
  }

  /** A call whose edit is committed and whose outcome is not recorded, since the daemon dies. */
  lemma DiesAfterCommit(s: State, id: Id, r: Request, env: Env, response: Response, post: Book) returns (ls: seq<Label>)
    requires s.phase.Idle? && id !in s.tables.applied && Hypotheses(s, Call(id, r))
    requires Yields(OpenedBook(s), r, env, Commit(response, post)) && Fresh(s.book, r, env)
    ensures Legal(s, ls) && CanRun(s, ls)
    ensures var s' := Run(s, ls);
            && s'.phase.Down? && s'.book == post && s'.commits == s.commits + [id]
            && s'.tables == WithPending(WithIntent(s.tables, id, r), id, Some(response))
  {
    var v := Commit(response, post);
    var s1 := Step(s, Call(id, r));
    var s2 := Step(s1, Lookup(true));
    var s3 := Step(s2, Apply(env, v));
    var s4 := Step(s3, CommitEdit);
    StepThenRun(s4, Crash, []);
    StepThenRun(s3, CommitEdit, [Crash] + []);
    StepThenRun(s2, Apply(env, v), [CommitEdit] + ([Crash] + []));
    StepThenRun(s1, Lookup(true), [Apply(env, v)] + ([CommitEdit] + ([Crash] + [])));
    ls := [Call(id, r)] + ([Lookup(true)] + ([Apply(env, v)] + ([CommitEdit] + ([Crash] + []))));
    StepThenRun(s, Call(id, r), [Lookup(true)] + ([Apply(env, v)] + ([CommitEdit] + ([Crash] + []))));
  }

  /** Any accepted call that leaves a book which the gate refuses can be the last: its edit is
      committed, its client never hears of it, and the daemon does not come up again. */
  lemma CommittedNeverSettled(s: State, id: Id, r: Request, env: Env, response: Response, post: Book)
    returns (ls: seq<Label>)
    requires s.phase.Idle? && id !in s.tables.applied && Hypotheses(s, Call(id, r))
    requires Yields(OpenedBook(s), r, env, Commit(response, post)) && Fresh(s.book, r, env) && !Startup.Opens(post)
    ensures Legal(s, ls) && CanRun(s, ls)
    ensures var s' := Run(s, ls);
            && s'.commits == s.commits + [id] && id in s'.tables.intents && id !in s'.tables.applied
            && !CanSettle(s', id) && forall more :: CanRun(s', more) ==> more == []
  {
    ls := DiesAfterCommit(s, id, r, env, response, post);
    var s' := Run(s, ls);
    forall more | CanRun(s', more)
      ensures more == []
    {
      StaysDown(s', more);
    }
  }
}
