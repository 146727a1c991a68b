/** The engine thread running mutations over the journal and the book, statement by
    statement, as one run of the protocol machine. */
module Daemon {
  import opened Options
  import opened Errors
  import opened Books
  import opened Handlers
  import opened Journals
  import opened Protocol
  import opened Verdicts

  /** What the caller receives. */
  datatype Status = OkStatus(response: Response) | ErrorStatus(code: StatusCode, error: ShimError)

  function StatusOf(o: Outcome): Status {
    match o
    case Succeeded(r) => OkStatus(r)
    case Failed(e) => ErrorStatus(GrpcCodeFor(e.code), e)
  }

  datatype Durable = Durable(tables: Tables, book: Book)

  ghost function DurableOf(s: State): Durable {
    Durable(s.tables, s.book)
  }

  /** The durable states that a run from s passes through, one after each step. */
  ghost function Trail(s: State, ls: seq<Label>): seq<Durable>
    requires CanRun(s, ls)
    decreases |ls|
  {
    if ls == [] then [] else [DurableOf(Step(s, ls[0]))] + Trail(Step(s, ls[0]), ls[1..])
  }

  /** The steps ls from s pass through these durable states and end in final. */
  ghost predicate Took(s: State, ls: seq<Label>, states: seq<Durable>, final: State) {
    CanRun(s, ls) && Run(s, ls) == final && Trail(s, ls) == states
  }

  lemma StepThenRun(s: State, l: Label, ls: seq<Label>)
    requires Enabled(s, l) && CanRun(Step(s, l), ls)
    ensures CanRun(s, [l] + ls) && Run(s, [l] + ls) == Run(Step(s, l), ls)
    ensures Trail(s, [l] + ls) == [DurableOf(Step(s, l))] + Trail(Step(s, l), ls)
    ensures Hypotheses(s, l) && Legal(Step(s, l), ls) ==> Legal(s, [l] + ls)
  {
    assert ([l] + ls)[1..] == ls;
  }

  /** Dying after any number of steps is itself a run, and leaves that state of the trail. */
  lemma {:induction false} PrefixRuns(s: State, ls: seq<Label>, k: nat)
    requires CanRun(s, ls) && k <= |ls|
    ensures CanRun(s, ls[..k]) && |Trail(s, ls)| == |ls|
    ensures k > 0 ==> Trail(s, ls)[k - 1] == DurableOf(Run(s, ls[..k]))
    decreases |ls|
  {
    if ls != [] {
      PrefixRuns(Step(s, ls[0]), ls[1..], if k == 0 then 0 else k - 1);
      if k > 0 {
        assert ls[..k][1..] == ls[1..][..k - 1];
        if k == 1 {
          assert ls[..1][1..] == [];
        }
      }
    }
  }

  class EngineThread {
    const journal: Journal
    var book: Book
    var open: bool

    /** Every durable state so far, latest last. */
    ghost var trail: seq<Durable>

    constructor (journal: Journal, book: Book)
      ensures this.journal == journal && this.book == book && open && trail == []
    {
      this.journal, this.book, open, trail := journal, book, true, [];
    }

    ghost predicate Matches(s: State)
      reads this, journal
    {
      s.tables == journal.Rows() && s.book == book && s.open == open
    }

    /** Notes the durable state that the statement just executed has produced. */
    ghost method Note()
      modifies this`trail
      ensures trail == old(trail) + [Durable(journal.Rows(), book)]
    {
      trail := trail + [Durable(journal.Rows(), book)];
    }

    /** The engine commit and step 4, once the response is recorded as pending. */
    method CommitAndRecord(id: Id, response: Response, post: Book, ghost s: State) returns (reply: Outcome)
      requires s.phase.Pended? && Matches(s)
      requires s.phase.attempt.id == id && s.phase.attempt.response == response && s.phase.attempt.post == post
      modifies this`book, this`trail, journal
      ensures var s1 := Step(s, CommitEdit);
              var s2 := Step(s1, Record);
              && Matches(s2) && trail == old(trail) + [DurableOf(s1), DurableOf(s2)]
              && s2.phase.Idle? && s2.acks == s.acks + [Ack(id, s.phase.attempt.request, reply)]
    {
      book := post;
      Note();
      var done := journal.RecordOutcome(id, Succeeded(response));
      Note();
      reply := if done then Succeeded(response) else JOURNAL_FAILED;
    }

    /** A refusal is recorded exactly if it is a verdict on the request: given on an open book, or
        given by every open book alike. */
    ghost predicate JudgesRequest(id: Id, r: Request, bookOpen: bool, e: ShimError)
      reads this, journal
    {
      && (id in journal.applied <==> bookOpen || RefusedAnyway(r, e))
      && (id in journal.applied ==> journal.applied[id] == Failed(e))
    }

    /** What the handler leaves in the journal before any engine commit: a verdict on the
        request as the outcome, or the response as pending. */
    method StartApply(id: Id, env: Env, apply: Verdict, ghost s: State)
      requires s.phase.Applying? && s.phase.id == id && Matches(s)
      requires Yields(OpenedBook(s), s.phase.request, env, apply)
      modifies this`trail, journal
      ensures Matches(Step(s, Apply(env, apply)))
      ensures trail == old(trail) + [DurableOf(Step(s, Apply(env, apply)))]
      ensures apply.Reject? && Insertable(s.tables, id) ==> JudgesRequest(id, s.phase.request, s.open, apply.error)
    {
      RecordedIfVerdict(s, env, apply);
      match apply {
        case Reject(e) =>
          if IsDeterministicVerdict(e.code) {
            var _ := journal.RecordOutcome(id, Failed(e));
          }
        case Commit(response, _) =>
          journal.RecordPending(id, response);
      }
      Note();
    }

    /** Steps 3 and 4. */
    method ApplyAndRecord(id: Id, env: Env, apply: Verdict, ghost s: State)
      returns (reply: Outcome, ghost ls: seq<Label>, ghost states: seq<Durable>, ghost final: State)
      requires s.phase.Applying? && s.phase.id == id && Matches(s)
      requires Yields(OpenedBook(s), s.phase.request, env, apply)
      modifies this`book, this`trail, journal
      ensures ls == AfterLookup(env, apply)
      ensures Took(s, ls, states, final) && trail == old(trail) + states
      ensures Matches(final) && final.phase.Idle? && final.acks == s.acks + [Ack(id, s.phase.request, reply)]
      ensures apply.Reject? && Insertable(s.tables, id) ==> JudgesRequest(id, s.phase.request, s.open, apply.error)
    {
      ghost var s1 := Step(s, Apply(env, apply));
      StartApply(id, env, apply, s);
      ghost var rest: seq<Label> := [];
      match apply {
        case Reject(e) =>
          reply := Failed(e);
        case Commit(response, post) =>
          reply := CommitAndRecord(id, response, post, s1);
          CommitRuns(s1);
          rest := [CommitEdit, Record];
      }
      StepThenRun(s, Apply(env, apply), rest);
      ls := [Apply(env, apply)] + rest;
      states, final := Trail(s, ls), Run(s, ls);
    }

    /** Steps 1 and 2: the intent is durable before anything else, and an id that has an
        outcome goes no further. */
    method Consult(id: Id, request: Request, ghost legible: bool, ghost s: State)
      returns (recorded: Option<Outcome>, ghost s1: State, ghost s2: State)
      requires s.phase.Idle? && Matches(s)
      modifies this`trail, journal
      ensures s1 == Step(s, Call(id, request)) && s2 == Step(s1, Lookup(legible))
      ensures Matches(s2) && trail == old(trail) + [DurableOf(s1), DurableOf(s2)]
      ensures recorded.Some? <==> id in s.tables.applied
      ensures if recorded.Some?
              then s2.phase.Idle? && s2.acks == s.acks + [Ack(id, request, Replayed(request, recorded.value, legible))]
              else s2.phase == Applying(id, request) && s2.acks == s.acks && s2.book == s.book && s2.open == s.open
    {
      s1 := Step(s, Call(id, request));
      s2 := Step(s1, Lookup(legible));
      journal.RecordIntent(id, request);
      Note();
      recorded := journal.GetOutcome(id);
      Note();
    }

    /** The protocol from the intent on, told from the state s2 after the outcome lookup. */
    method ConsultAndApply(id: Id, request: Request, legible: bool, env: Env, apply: Verdict, ghost s: State)
      returns (reply: Outcome, ghost s1: State, ghost s2: State, ghost rest: seq<Label>, ghost states: seq<Durable>, ghost final: State)
      requires s.phase.Idle? && Matches(s)
      requires Yields(OpenedBook(s), request, env, apply)
      modifies this`book, this`trail, journal
      ensures s1 == Step(s, Call(id, request)) && s2 == Step(s1, Lookup(legible))
      ensures rest == if id in s.tables.applied then [] else AfterLookup(env, apply)
      ensures Took(s2, rest, states, final) && trail == old(trail) + ([DurableOf(s1), DurableOf(s2)] + states)
      ensures Matches(final) && final.phase.Idle? && final.acks == s.acks + [Ack(id, request, reply)]
      ensures apply.Reject? && id !in s.tables.applied ==> JudgesRequest(id, request, s.open, apply.error)
    {
      var recorded;
      recorded, s1, s2 := Consult(id, request, legible, s);
      if recorded.Some? {
        return Replayed(request, recorded.value, legible), s1, s2, [], [], s2;
      }
      reply, rest, states, final := ApplyAndRecord(id, env, apply, s2);
    }

    /** One mutation. legible says whether a recorded response of another message type would
        happen to parse; apply is what the handler passed in does when it is called: throw, or
        build the response, record it as pending and commit the edit. The statements it
        executes are the steps ls of the machine, in that order, each producing the durable
        state that the machine says; so a crash after any statement is a crash in that run. */
    method RunMutation(id: Id, request: Request, legible: bool, env: Env, apply: Verdict, ghost s: State)
      returns (status: Status, ghost reply: Outcome, ghost ls: seq<Label>, ghost states: seq<Durable>, ghost final: State)
      requires s.phase.Idle? && Matches(s)
      requires Yields(OpenedBook(s), request, env, apply)
      modifies this`book, this`trail, journal
      ensures ls == [Call(id, request), Lookup(legible)] +
                    (if id in s.tables.applied then [] else AfterLookup(env, apply))
      ensures Took(s, ls, states, final) && trail == old(trail) + states
      ensures Matches(final) && final.phase.Idle? && final.acks == s.acks + [Ack(id, request, reply)]
      ensures apply.Reject? && id !in s.tables.applied ==> JudgesRequest(id, request, s.open, apply.error)
      ensures status == StatusOf(reply)
      ensures if reply.Succeeded? then status == OkStatus(reply.response) else status.ErrorStatus? && status.error == reply.error
    {
      var outcome;
      ghost var s1: State, s2: State, rest: seq<Label>;
      outcome, s1, s2, rest, states, final := ConsultAndApply(id, request, legible, env, apply, s);
      ls, states := LookupTook(s, id, request, legible, rest, states, final);
      return StatusOf(outcome), outcome, ls, states, final;
    }
  }

  lemma RecordedIfVerdict(s: State, env: Env, v: Verdict)
    requires s.phase.Applying? && Yields(OpenedBook(s), s.phase.request, env, v)
    ensures v.Reject? ==> (IsDeterministicVerdict(v.error.code) <==> s.open || RefusedAnyway(s.phase.request, v.error))
  {
    if v.Reject? && s.open {
      RefusalsAreVerdicts(s.book, s.phase.request, env);
    } else if v.Reject? {
      ClosedVerdict(s.phase.request, env, v.error);
    }
  }

  lemma LookupTook(s: State, id: Id, r: Request, legible: bool, rest: seq<Label>, after: seq<Durable>, final: State)
    returns (ls: seq<Label>, states: seq<Durable>)
    requires s.phase.Idle?
    requires Took(Step(Step(s, Call(id, r)), Lookup(legible)), rest, after, final)
    ensures ls == [Call(id, r), Lookup(legible)] + rest && Took(s, ls, states, final)
    ensures var s1 := Step(s, Call(id, r));
            states == [DurableOf(s1), DurableOf(Step(s1, Lookup(legible)))] + after
  {
    ls := LookupRuns(s, id, r, legible, rest);
    states := Trail(s, ls);
  }

  /** The steps of one mutation whose id has no outcome yet. */
  function AfterLookup(env: Env, apply: Verdict): seq<Label> {
    if apply.Reject? then [Apply(env, apply)] else [Apply(env, apply), CommitEdit, Record]
  }

  /** One after the other, the steps of a script; its states are s1, s2 and so on. */
  lemma LookupRuns(s: State, id: Id, r: Request, legible: bool, rest: seq<Label>) returns (ls: seq<Label>)
    requires s.phase.Idle?
    requires CanRun(Step(Step(s, Call(id, r)), Lookup(legible)), rest)
    ensures ls == [Call(id, r), Lookup(legible)] + rest
    ensures var s1 := Step(s, Call(id, r));
            var s2 := Step(s1, Lookup(legible));
            && CanRun(s, ls) && Run(s, ls) == Run(s2, rest)
            && Trail(s, ls) == [DurableOf(s1), DurableOf(s2)] + Trail(s2, rest)
  {
    ls := [Call(id, r)] + ([Lookup(legible)] + rest);
    StepThenRun(Step(s, Call(id, r)), Lookup(legible), rest);
    StepThenRun(s, Call(id, r), [Lookup(legible)] + rest);
  }

  lemma CommitRuns(s: State)
    requires s.phase.Pended?
    ensures var s1 := Step(s, CommitEdit);
            var s2 := Step(s1, Record);
            && Legal(s, [CommitEdit, Record]) && CanRun(s, [CommitEdit, Record])
            && Run(s, [CommitEdit, Record]) == s2 && Trail(s, [CommitEdit, Record]) == [DurableOf(s1), DurableOf(s2)]
  {
    StepThenRun(Step(s, CommitEdit), Record, []);
    StepThenRun(s, CommitEdit, [Record]);
    assert [Record] + [] == [Record] && [CommitEdit] + [Record] == [CommitEdit, Record];
  }

  /** The steps that follow an unanswered lookup are a run of the machine, and one that the
      guarantees cover when the engine's GUIDs are fresh. */
  lemma AfterLookupRuns(s: State, env: Env, apply: Verdict)
    requires s.phase.Applying? && Yields(OpenedBook(s), s.phase.request, env, apply)
    ensures CanRun(s, AfterLookup(env, apply))
    ensures Fresh(s.book, s.phase.request, env) ==> Legal(s, AfterLookup(env, apply))
  {
    var s' := Step(s, Apply(env, apply));
    var rest: seq<Label> := [];
    if apply.Commit? {
      CommitRuns(s');
      rest := [CommitEdit, Record];
    }
    StepThenRun(s, Apply(env, apply), rest);
    assert AfterLookup(env, apply) == [Apply(env, apply)] + rest;
  }

  /** The run that one mutation makes is one that the guarantees cover, when a retry of an
      unresolved id carries its first request and the engine's GUIDs are fresh. */
  lemma MutationIsLegal(s: State, id: Id, r: Request, legible: bool, env: Env, apply: Verdict)
    requires s.phase.Idle? && Hypotheses(s, Call(id, r))
    requires Yields(OpenedBook(s), r, env, apply) && Fresh(s.book, r, env)
    ensures Legal(s, [Call(id, r), Lookup(legible)] + (if id in s.tables.applied then [] else AfterLookup(env, apply)))
  {
    var s1 := Step(s, Call(id, r));
    var s2 := Step(s1, Lookup(legible));
    var rest := if id in s.tables.applied then [] else AfterLookup(env, apply);
    if id !in s.tables.applied {
      AfterLookupRuns(s2, env, apply);
    }
    StepThenRun(s1, Lookup(legible), rest);
    StepThenRun(s, Call(id, r), [Lookup(legible)] + rest);
    assert [Call(id, r), Lookup(legible)] + rest == [Call(id, r)] + ([Lookup(legible)] + rest);
  }

  /** What the steps after the lookup come to when the handler commits. */
  lemma CommitLeads(s: State, env: Env, response: Response, post: Book)
    requires s.phase.Applying? && Insertable(s.tables, s.phase.id)
    requires Yields(OpenedBook(s), s.phase.request, env, Commit(response, post))
    ensures CanRun(s, AfterLookup(env, Commit(response, post)))
    ensures var id, s' := s.phase.id, Run(s, AfterLookup(env, Commit(response, post)));
            && s'.phase.Idle? && s'.open == s.open && s'.book == post && s'.commits == s.commits + [id]
            && s'.tables == WithOutcome(WithPending(s.tables, id, Some(response)), id, Succeeded(response))
            && s'.acks == s.acks + [Ack(id, s.phase.request, Succeeded(response))]
  {
    var v := Commit(response, post);
    CommitRuns(Step(s, Apply(env, v)));
    StepThenRun(s, Apply(env, v), [CommitEdit, Record]);
    assert [Apply(env, v)] + [CommitEdit, Record] == AfterLookup(env, v);
  }

  /** What a mutation with no outcome yet comes to when its handler commits. */
  lemma CommittedRuns(s: State, id: Id, r: Request, env: Env, response: Response, post: Book) returns (ls: seq<Label>)
    requires s.phase.Idle? && id !in s.tables.applied && Hypotheses(s, Call(id, r))
    requires Yields(OpenedBook(s), r, env, Commit(response, post)) && Fresh(s.book, r, env)
    ensures Legal(s, ls) && CanRun(s, ls)
    ensures var s' := Run(s, ls);
            && s'.phase.Idle? && s'.open == s.open && s'.book == post && s'.commits == s.commits + [id]
            && s'.tables == WithOutcome(WithPending(WithIntent(s.tables, id, r), id, Some(response)), id, Succeeded(response))
            && s'.acks == s.acks + [Ack(id, r, Succeeded(response))]
  {
    MutationIsLegal(s, id, r, true, env, Commit(response, post));
    CommitLeads(Step(Step(s, Call(id, r)), Lookup(true)), env, response, post);
    ls := LookupRuns(s, id, r, true, AfterLookup(env, Commit(response, post)));
  }

  /** And when its handler refuses for a reason that is a verdict on the request. */
  lemma RefusedRuns(s: State, id: Id, r: Request, env: Env, e: ShimError) returns (ls: seq<Label>)
    requires s.phase.Idle? && id !in s.tables.applied && Hypotheses(s, Call(id, r))
    requires Yields(OpenedBook(s), r, env, Reject(e)) && Fresh(s.book, r, env) && IsDeterministicVerdict(e.code)
    ensures Legal(s, ls) && CanRun(s, ls)
    ensures var s' := Run(s, ls);
            && s'.phase.Idle? && s'.book == s.book && s'.commits == s.commits
            && s'.tables == WithOutcome(WithIntent(s.tables, id, r), id, Failed(e))
  {
    var s2 := Step(Step(s, Call(id, r)), Lookup(true));
    MutationIsLegal(s, id, r, true, env, Reject(e));
    StepThenRun(s2, Apply(env, Reject(e)), []);
    assert [Apply(env, Reject(e))] + [] == AfterLookup(env, Reject(e));
    ls := LookupRuns(s, id, r, true, AfterLookup(env, Reject(e)));
  }
}
