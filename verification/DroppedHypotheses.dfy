/** What goes wrong when a hypothesis of the protocol is dropped: families of runs that break
    a guarantee, each by one step outside the hypotheses. */
module DroppedHypotheses {
  import opened Options
  import opened Books
  import opened Transactions
  import opened Handlers
  import opened Journals
  import opened Protocol
  import opened Daemon
  import opened Sequences
  import Startup

  lemma LoseRuns(s: State)
    requires s.phase.Pended?
    ensures CanRun(s, [CommitEdit, LoseOutcome])
    ensures Run(s, [CommitEdit, LoseOutcome]) == Step(Step(s, CommitEdit), LoseOutcome)
  {
    StepThenRun(Step(s, CommitEdit), LoseOutcome, []);
    StepThenRun(s, CommitEdit, [LoseOutcome]);
    assert [LoseOutcome] + [] == [LoseOutcome] && [CommitEdit] + [LoseOutcome] == [CommitEdit, LoseOutcome];
  }

  /** A call whose outcome record is lost while the daemon lives: the edit is committed, and
      the daemon serves on without an outcome for the id. */
  lemma OutcomeLost(s: State, id: Id, r: Request, env: Env, v: Verdict) returns (ls: seq<Label>)
    requires s.phase.Idle? && s.open && id !in s.tables.applied
    requires Yields(Some(s.book), r, env, v) && v.Commit?
    ensures ls == [Call(id, r), Lookup(true)] + [Apply(env, v), CommitEdit, LoseOutcome]
    ensures CanRun(s, ls)
    ensures var s' := Run(s, ls);
            s'.phase.Idle? && s'.open && s'.book == v.post && s'.commits == s.commits + [id] && id !in s'.tables.applied
  {
    var s2 := Step(Step(s, Call(id, r)), Lookup(true));
    var s3 := Step(s2, Apply(env, v));
    LoseRuns(s3);
    StepThenRun(s2, Apply(env, v), [CommitEdit, LoseOutcome]);
    assert [Apply(env, v)] + [CommitEdit, LoseOutcome] == [Apply(env, v), CommitEdit, LoseOutcome];
    ls := LookupRuns(s, id, r, true, [Apply(env, v), CommitEdit, LoseOutcome]);
  }

  /** A retry of an id without outcome runs its handler, and commits if the handler accepts. */
  lemma RetryCommits(s: State, id: Id, r: Request, env: Env, v: Verdict) returns (ls: seq<Label>)
    requires s.phase.Idle? && s.open && id !in s.tables.applied
    requires Yields(Some(s.book), r, env, v) && v.Commit?
    ensures ls == [Call(id, r), Lookup(true)] + AfterLookup(env, v)
    ensures CanRun(s, ls) && Run(s, ls).commits == s.commits + [id] && Run(s, ls).book == v.post
  {
    var s2 := Step(Step(s, Call(id, r)), Lookup(true));
    var s3 := Step(s2, Apply(env, v));
    CommitRuns(s3);
    StepThenRun(s2, Apply(env, v), [CommitEdit, Record]);
    assert [Apply(env, v)] + [CommitEdit, Record] == AfterLookup(env, v);
    ls := LookupRuns(s, id, r, true, AfterLookup(env, v));
  }

  /** Without the first hypothesis a call can be applied twice: the outcome record fails but
      the daemon lives on, the client retries, and the handler accepts again. */
  lemma LostOutcomeAppliesTwice(s: State, id: Id, r: Request, env: Env, v: Verdict, env': Env, v': Verdict)
    returns (first: seq<Label>, retry: seq<Label>)
    requires s.phase.Idle? && s.open && id !in s.tables.applied
    requires Yields(Some(s.book), r, env, v) && v.Commit?
    requires Yields(Some(v.post), r, env', v') && v'.Commit?
    ensures CanRun(s, first) && CanRun(Run(s, first), retry)
    ensures Run(Run(s, first), retry).commits == s.commits + [id, id]
    ensures Run(Run(s, first), retry).book == v'.post
  {
    first := OutcomeLost(s, id, r, env, v);
    retry := RetryCommits(Run(s, first), id, r, env', v');
  }

  /** An accepted posting is accepted again by the book it has left. */
  lemma PostAgain(b: Book, s: TransactionSpec, env: Env, env': Env)
    requires |s.splits| <= |env.splits| && |s.splits| <= |env'.splits|
    requires DoPostTransaction(Some(b), s, env).Ok?
    ensures var v := DoPostTransaction(Some(b), s, env).value;
            && v.Commit? && v.post.transactions.Keys == b.transactions.Keys + {env.entity}
            && var again := DoPostTransaction(Some(v.post), s, env');
            && again.Ok? && again.value.Commit?
            && again.value.post.transactions.Keys == b.transactions.Keys + {env.entity, env'.entity}
  {
    var v := DoPostTransaction(Some(b), s, env).value;
    assert PlanHeader(v.post, s) == PlanHeader(b, s);
    assert Plan(v.post, s, None, env'.now).Ok?;
  }

  lemma TwoMore(before: map<Guid, Transaction>, after: map<Guid, Transaction>, g: Guid, h: Guid)
    requires after.Keys == before.Keys + {g, h}
    ensures g != h && g !in before && h !in before ==> |after| == |before| + 2
  {
    if g != h && g !in before && h !in before {
      assert |before.Keys + {g, h}| == |before.Keys| + |{g, h}|;
      assert |after.Keys| == |after| && |before.Keys| == |before|;
    }
  }

  /** There are such calls: any accepted posting is accepted again, and the book then holds it
      under both GUIDs that the engine gave it: as two transactions more, if these are new and
      different. */
  lemma PostsAppliedTwice(b: Book, s: TransactionSpec, env: Env, env': Env) returns (first: seq<Label>, retry: seq<Label>)
    requires |s.splits| <= |env.splits| && |s.splits| <= |env'.splits|
    requires DoPostTransaction(Some(b), s, env).Ok?
    ensures var idle := Initial(b).(phase := Idle, open := true);
            && CanRun(idle, first) && CanRun(Run(idle, first), retry)
            && var s' := Run(Run(idle, first), retry);
            && s'.commits == ["id", "id"] && s'.book.transactions.Keys == b.transactions.Keys + {env.entity, env'.entity}
            && (env.entity != env'.entity && env.entity !in b.transactions && env'.entity !in b.transactions ==>
                  |s'.book.transactions| == |b.transactions| + 2)
  {
    PostAgain(b, s, env, env');
    var idle := Initial(b).(phase := Idle, open := true);
    var v := DoPostTransaction(Some(b), s, env).value;
    var v' := DoPostTransaction(Some(v.post), s, env').value;
    first, retry := LostOutcomeAppliesTwice(idle, "id", PostTransaction(s), env, v, env', v');
    TwoMore(b.transactions, v'.post.transactions, env.entity, env'.entity);
  }

  /** There is such a call: any accepted price is accepted again. */
  lemma PricesAppliedTwice(b: Book, s: PriceSpec, env: Env, env': Env) returns (first: seq<Label>, retry: seq<Label>)
    requires Dispatch(Some(b), AddPrice(s), env).Ok?
    ensures var idle := Initial(b).(phase := Idle, open := true);
            && CanRun(idle, first) && CanRun(Run(idle, first), retry)
            && !Distinct(Run(Run(idle, first), retry).commits)
  {
    var v := Execute(Some(b), AddPrice(s), env);
    var v' := Execute(Some(v.post), AddPrice(s), env');
    first, retry := LostOutcomeAppliesTwice(Initial(b).(phase := Idle, open := true), "id", AddPrice(s), env, v, env', v');
    var commits := Run(Run(Initial(b).(phase := Idle, open := true), first), retry).commits;
    assert commits[0] == commits[1];
  }

  // ---- an unresolved id reused for another request

  lemma CrashRuns(s: State, todo: seq<PendingEntry>, ls: seq<Label>)
    requires !s.phase.Down? && Lists(s.tables, todo) && Startup.Opens(s.book)
    requires CanRun(Step(Step(s, Crash), Start(todo)), ls)
    ensures CanRun(s, [Crash, Start(todo)] + ls)
    ensures Run(s, [Crash, Start(todo)] + ls) == Run(Step(Step(s, Crash), Start(todo)), ls)
  {
    StepThenRun(Step(s, Crash), Start(todo), ls);
    StepThenRun(s, Crash, [Start(todo)] + ls);
    assert [Crash] + ([Start(todo)] + ls) == [Crash, Start(todo)] + ls;
  }

  /** The daemon died right after journaling the deletion of a transaction that does not exist,
      and has restarted. */
  lemma JournaledOnly(s: State, id: Id, gone: Guid) returns (ls: seq<Label>)
    requires s.phase.Idle? && id !in s.tables.intents && id !in s.tables.applied && Unresolved(s.tables) == {}
    requires Startup.Opens(s.book)
    ensures ls == [Call(id, DeleteTransaction(Wire(gone))), Lookup(true)] + ([Crash, Start([])] + [Serve])
    ensures CanRun(s, ls)
    ensures Run(s, ls) == s.(open := true, tables := WithIntent(s.tables, id, DeleteTransaction(Wire(gone))))
  {
    var r := DeleteTransaction(Wire(gone));
    var s2 := Step(Step(s, Call(id, r)), Lookup(true));
    UnresolvedAfter(s.tables, id);
    assert Lists(s2.tables, []);
    var s4 := Step(Step(s2, Crash), Start([]));
    StepThenRun(s4, Serve, []);
    assert [Serve] + [] == [Serve];
    CrashRuns(s2, [], [Serve]);
    ls := LookupRuns(s, id, r, true, [Crash, Start([])] + [Serve]);
  }

  /** Recovery reads the first request, finds that transaction absent, and records a success. */
  lemma RecoveredAsDone(s: State, entry: PendingEntry) returns (ls: seq<Label>)
    requires s.phase == Starting([entry]) && s.open && Insertable(s.tables, entry.id)
    requires entry.request.DeleteTransaction? && entry.request.guid.Wire? && entry.pending == EmptyReply
    requires entry.request.guid.guid !in s.book.transactions
    ensures ls == [Resolve(true)] + ([Serve] + []) && CanRun(s, ls)
    ensures Run(s, ls) == s.(phase := Idle, tables := WithOutcome(s.tables, entry.id, Succeeded(EmptyReply)))
  {
    var s1 := Step(s, Resolve(true));
    StepThenRun(s1, Serve, []);
    StepThenRun(s, Resolve(true), [Serve] + []);
    ls := [Resolve(true)] + ([Serve] + []);
  }

  /** The handler has recorded its response as pending and the daemon dies and restarts. */
  lemma DiesPending(s: State, id: Id, env: Env, v: Verdict, tail: seq<Label>) returns (ls: seq<Label>)
    requires s.phase.Applying? && s.phase.id == id && Yields(OpenedBook(s), s.phase.request, env, v) && v.Commit?
    requires Unresolved(s.tables) == {} && Insertable(s.tables, id) && Startup.Opens(s.book)
    requires var s3 := Step(s, Apply(env, v));
             var entry := PendingEntry(id, s.tables.intents[id].request, v.response);
             CanRun(s3.(phase := Starting([entry])), tail)
    ensures CanRun(s, ls)
    ensures var s3 := Step(s, Apply(env, v));
            var entry := PendingEntry(id, s.tables.intents[id].request, v.response);
            Run(s, ls) == Run(s3.(phase := Starting([entry])), tail)
  {
    var s3 := Step(s, Apply(env, v));
    var entry := PendingEntry(id, s.tables.intents[id].request, v.response);
    UnresolvedAfter(s.tables, id);
    OnlyEntry(s3.tables, id);
    assert EntryOf(s3.tables, id) == entry && s3.open;
    assert Step(Step(s3, Crash), Start([entry])) == s3.(phase := Starting([entry]));
    CrashRuns(s3, [entry], tail);
    StepThenRun(s, Apply(env, v), [Crash, Start([entry])] + tail);
    ls := [Apply(env, v)] + ([Crash, Start([entry])] + tail);
  }

  /** Then the id is reused to delete a transaction that does exist, and the daemon dies
      before the commit. */
  lemma ReusedThenRecovered(s: State, id: Id, gone: Guid, kept: Guid, env: Env) returns (ls: seq<Label>)
    requires s.phase.Idle? && s.open && Unresolved(s.tables) == {} && Startup.Opens(s.book)
    requires Insertable(s.tables, id) && s.tables.intents[id] == Intent(DeleteTransaction(Wire(gone)), None)
    requires gone !in s.book.transactions && kept in s.book.transactions
    ensures CanRun(s, ls)
    ensures var s' := Run(s, ls);
            && s'.phase.Idle? && s'.book == s.book && s'.commits == s.commits
            && id in s'.tables.applied && s'.tables.applied[id] == Succeeded(EmptyReply)
  {
    var r := DeleteTransaction(Wire(kept));
    var v := Execute(Some(s.book), r, env);
    assert v.Commit? && v.response == EmptyReply;
    var s2 := Step(Step(s, Call(id, r)), Lookup(true));
    var entry := PendingEntry(id, DeleteTransaction(Wire(gone)), EmptyReply);
    var tail := RecoveredAsDone(Step(s2, Apply(env, v)).(phase := Starting([entry])), entry);
    var rest := DiesPending(s2, id, env, v, tail);
    ls := LookupRuns(s, id, r, true, rest);
  }

  /** Without the third hypothesis a deletion is acknowledged that never happened: the id is
      recorded as a success, no edit was committed, and the transaction is still there. The book
      is one that the restarts in between can open. */
  lemma ReusedIdMisreports(s: State, id: Id, gone: Guid, kept: Guid, env: Env)
    returns (first: seq<Label>, second: seq<Label>)
    requires s.phase.Idle? && id !in s.tables.intents && id !in s.tables.applied && Unresolved(s.tables) == {}
    requires Startup.Opens(s.book)
    requires gone !in s.book.transactions && kept in s.book.transactions
    ensures CanRun(s, first) && CanRun(Run(s, first), second)
    ensures var s' := Run(Run(s, first), second);
            && id in s'.tables.applied && s'.tables.applied[id].Succeeded?
            && kept in s'.book.transactions && s'.book == s.book && s'.commits == s.commits
  {
    first := JournaledOnly(s, id, gone);
    UnresolvedAfter(s.tables, id);
    second := ReusedThenRecovered(Run(s, first), id, gone, kept, env);
  }

  // ---- an edit from outside between a crash and the restart

  /** An account update has been committed and the daemon has died. If someone else gives that
      account another content before the restart, in a book that still opens, reconciliation
      finds the update not applied, and reports an id that was committed as one that was not. */
  lemma OutsideEditHidesCommit(s: State, edited: Book) returns (up: seq<Label>)
    requires Inv(s) && s.phase.Committed? && s.phase.attempt.request.UpdateAccount? && s.phase.attempt.response.AccountReply?
    requires Startup.Opens(edited)
    requires var v := s.phase.attempt.response.account;
             v.guid in edited.accounts && AccountToProto(v.guid, edited.accounts[v.guid]) != v
    ensures var down := Step(s, Crash).(book := edited);
            && CanRun(down, up)
            && var s', id := Run(down, up), s.phase.attempt.id;
            s'.phase.Idle? && id in Indeterminate(s'.tables) && id in s'.commits
  {
    var id, down := s.phase.attempt.id, Step(s, Crash).(book := edited);
    assert id in Unresolved(s.tables);
    OnlyEntry(s.tables, id);
    var todo := [EntryOf(s.tables, id)];
    var started := Step(down, Start(todo));
    var resolved := Step(started, Resolve(false));
    StepThenRun(resolved, Serve, []);
    StepThenRun(started, Resolve(false), [Serve] + []);
    StepThenRun(down, Start(todo), [Resolve(false)] + ([Serve] + []));
    up := [Start(todo)] + ([Resolve(false)] + ([Serve] + []));
  }
}
