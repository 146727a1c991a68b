/** Calls made while no book is open, their retry once one is, and what a client can tell from
    the status of a reply. */
module Reopening {
  import opened Options
  import opened Errors
  import opened Handlers
  import opened Journals
  import opened Protocol
  import opened Refinement
  import opened Daemon
  import opened Convergence
  import opened Verdicts

  /** A call while no book is open is refused and changes nothing but the journal; there it
      leaves an outcome exactly if its fault is found without a book, so that every open book
      refuses it in the same way. */
  lemma ClosedCall(s: State, id: Id, r: Request, env: Env) returns (ls: seq<Label>)
    requires s.phase.Idle? && !s.open && id !in s.tables.applied && Hypotheses(s, Call(id, r))
    requires SplitCount(r) <= |env.splits| && Fresh(s.book, r, env)
    ensures Legal(s, ls) && CanRun(s, ls)
    ensures var s', v := Run(s, ls), Execute(None, r, env);
            && v.Reject? && (RefusedAnyway(r, v.error) <==> FaultyUnopened(r)) && s'.phase.Idle? && s'.acks == s.acks + [Ack(id, r, Failed(v.error))]
            && s'.book == s.book && s'.commits == s.commits && s'.open == s.open
            && s'.tables == if RefusedAnyway(r, v.error) then WithOutcome(WithIntent(s.tables, id, r), id, Failed(v.error))
                            else WithIntent(s.tables, id, r)
  {
    var v := Execute(None, r, env);
    ClosedRefuses(r, env, s.book, env);
    ClosedVerdict(r, env, v.error);
    MutationIsLegal(s, id, r, true, env, v);
    var s2 := Step(Step(s, Call(id, r)), Lookup(true));
    StepThenRun(s2, Apply(env, v), []);
    assert [Apply(env, v)] + [] == AfterLookup(env, v);
    ls := LookupRuns(s, id, r, true, AfterLookup(env, v));
  }

  lemma OpenRuns(s: State)
    requires s.phase.Idle?
    ensures Legal(s, [SetOpen(true)]) && CanRun(s, [SetOpen(true)])
    ensures Run(s, [SetOpen(true)]) == s.(open := true)
  {
    StepThenRun(s, SetOpen(true), []);
    assert [SetOpen(true)] + [] == [SetOpen(true)];
  }

  /** A call that was refused only because no book was open can be retried: the daemon opens the
      book, the retry runs the handler on it, and what that gives becomes the outcome. */
  lemma RetriedOnceOpen(s: State, id: Id, r: Request, env: Env, env': Env)
    returns (closed: seq<Label>, retry: seq<Label>)
    requires s.phase.Idle? && !s.open && id !in s.tables.applied && id !in s.tables.intents
    requires SplitCount(r) <= |env.splits| && Fresh(s.book, r, env) && Fresh(s.book, r, env')
    requires !FaultyUnopened(r)
    ensures Legal(s, closed) && CanRun(s, closed) && Run(s, closed).tables == WithIntent(s.tables, id, r)
    ensures Legal(Run(s, closed), retry) && CanRun(Run(s, closed), retry)
    ensures var v, s' := Execute(Some(s.book), r, env'), Run(Run(s, closed), retry);
            && id in s'.tables.applied && s'.tables.applied[id] == OutcomeOf(v)
            && s'.commits == s.commits + (if v.Commit? then [id] else [])
            && s'.book == (if v.Commit? then v.post else s.book)
  {
    closed := ClosedCall(s, id, r, env);
    var after := Run(s, closed);
    OpenRuns(after);
    var rest := RetryResolves(after.(open := true), id, env');
    RunsOn(after, [SetOpen(true)], rest);
    retry := [SetOpen(true)] + rest;
  }

  // ---- statuses

  function CodeOfStatus(status: Status): Option<StatusCode> {
    if status.OkStatus? then None else Some(status.code)
  }

  /** The reply leaves the outcome open: a client has to ask again. */
  predicate InDoubt(o: Outcome) {
    CodeOfStatus(StatusOf(o)) in {Some(Unavailable), Some(Internal)}
  }

  ghost predicate Telling(o: Outcome) {
    o.Failed? ==> IsDeterministicVerdict(o.error.code) || o.error.code in {BookNotOpen, EngineError}
  }

  ghost predicate AcksTell(s: State) {
    && (forall k :: 0 <= k < |s.acks| ==> Telling(s.acks[k].reply))
    && (forall id :: id in s.tables.applied ==> Final(s.tables.applied[id]))
  }

  lemma RefusalTells(s: State, env: Env, v: Verdict)
    requires s.phase.Applying? && Yields(OpenedBook(s), s.phase.request, env, v) && v.Reject?
    ensures Telling(Failed(v.error))
  {
    if s.open {
      RefusalsAreVerdicts(s.book, s.phase.request, env);
    } else {
      ClosedRefuses(s.phase.request, env, s.book, env);
      if Execute(Some(s.book), s.phase.request, env) == v {
        RefusalsAreVerdicts(s.book, s.phase.request, env);
      }
    }
  }

  lemma TellingKept(s: State, l: Label)
    requires AcksTell(s) && Enabled(s, l)
    ensures AcksTell(Step(s, l))
  {
    if l.Apply? && l.verdict.Reject? {
      RefusalTells(s, l.env, l.verdict);
    }
  }

  /** From any reply's status a client can tell whether it is final: it asks again exactly at
      UNAVAILABLE and INTERNAL. */
  lemma {:induction false} StatusTellsFinal(s: State, ls: seq<Label>)
    requires AcksTell(s) && CanRun(s, ls)
    ensures forall k :: 0 <= k < |Run(s, ls).acks| ==>
              (Final(Run(s, ls).acks[k].reply) <==> !InDoubt(Run(s, ls).acks[k].reply))
    decreases |ls|
  {
    if ls != [] {
      TellingKept(s, ls[0]);
      StatusTellsFinal(Step(s, ls[0]), ls[1..]);
    }
  }
}
