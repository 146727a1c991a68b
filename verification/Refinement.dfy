/** The protocol refines an atomic store: a mutation id takes effect on the book and gets its
    outcome in one indivisible step, at most once. */
module Refinement {
  import opened Options
  import opened Errors
  import opened Books
  import opened Handlers
  import opened Recovery
  import opened Journals
  import opened Protocol

  // ---- the atomic store

  datatype Store = Store(book: Book, outcomes: map<Id, Outcome>)

  datatype Atomic = Stutter | Do(id: Id, request: Request, env: Env, open: bool)

  ghost predicate AtomicEnabled(a: Store, x: Atomic) {
    x.Do? ==>
      && x.id !in a.outcomes
      && SplitCount(x.request) <= |x.env.splits|
      && Final(OutcomeOf(Execute(if x.open then Some(a.book) else None, x.request, x.env)))
  }

  function OutcomeOf(v: Verdict): Outcome {
    match v
    case Reject(e) => Failed(e)
    case Commit(response, _) => Succeeded(response)
  }

  /** An id that has no outcome yet gets one, together with its whole effect on the book. */
  ghost function AtomicStep(a: Store, x: Atomic): Store
    requires AtomicEnabled(a, x)
  {
    if x.Stutter? then a
    else
      var v := Execute(if x.open then Some(a.book) else None, x.request, x.env);
      Store(if v.Commit? then Observe(v.post) else a.book, a.outcomes[x.id := OutcomeOf(v)])
  }

  ghost predicate CanAtomicRun(a: Store, xs: seq<Atomic>)
    decreases |xs|
  {
    xs == [] || (AtomicEnabled(a, xs[0]) && CanAtomicRun(AtomicStep(a, xs[0]), xs[1..]))
  }

  ghost function AtomicRun(a: Store, xs: seq<Atomic>): Store
    requires CanAtomicRun(a, xs)
    decreases |xs|
  {
    if xs == [] then a else AtomicRun(AtomicStep(a, xs[0]), xs[1..])
  }

  predicate Acts(xs: seq<Atomic>, k: nat, id: Id)
    requires k < |xs|
  {
    xs[k].Do? && xs[k].id == id
  }

  /** In the atomic store an id acts at most once, an outcome once given stays, and every
      outcome comes from the id's own act. */
  lemma {:induction false} AtomicOnce(a: Store, xs: seq<Atomic>, id: Id)
    requires CanAtomicRun(a, xs)
    ensures id in a.outcomes ==>
              && id in AtomicRun(a, xs).outcomes && AtomicRun(a, xs).outcomes[id] == a.outcomes[id]
              && forall k :: 0 <= k < |xs| ==> !Acts(xs, k, id)
    ensures forall j, k :: 0 <= j < k < |xs| && Acts(xs, j, id) ==> !Acts(xs, k, id)
    ensures id in AtomicRun(a, xs).outcomes && id !in a.outcomes ==> exists k :: 0 <= k < |xs| && Acts(xs, k, id)
    decreases |xs|
  {
    if xs != [] {
      var rest := xs[1..];
      AtomicOnce(AtomicStep(a, xs[0]), rest, id);
      assert forall k :: 1 <= k < |xs| ==> (Acts(xs, k, id) <==> Acts(rest, k - 1, id));
      if k :| 0 <= k < |rest| && Acts(rest, k, id) {
        assert Acts(xs, k + 1, id);
      }
      assert Acts(xs, 0, id) ==> id in AtomicStep(a, xs[0]).outcomes;
      assert !Acts(xs, 0, id) ==> (id in AtomicStep(a, xs[0]).outcomes <==> id in a.outcomes);
    }
  }

  // ---- what a protocol state stands for

  ghost predicate JudgedHere(s: State, id: Id) {
    IsUnresolved(s.tables, id) &&
    JudgedApplied(s.book, s.tables.intents[id].request, s.tables.intents[id].pending.value)
  }

  /** The recorded outcomes, and the pending response wherever recovery would find the
      mutation applied. */
  ghost function Outcomes(s: State): map<Id, Outcome> {
    s.tables.applied +
    map id | id in s.tables.intents && JudgedHere(s, id) :: Succeeded(s.tables.intents[id].pending.value)
  }

  ghost function Abstraction(s: State): Store {
    Store(Observe(s.book), Outcomes(s))
  }

  /** The atomic act of a protocol step: a verdict as it is recorded, an effective edit at its
      engine commit, an edit that changes nothing at its pending record. */
  ghost function ActOf(s: State, l: Label): Atomic
    requires Enabled(s, l)
  {
    match l
    case Apply(env, v) =>
      if v.Reject? then
        if IsDeterministicVerdict(v.error.code) then Do(s.phase.id, s.phase.request, env, s.open) else Stutter
      else if JudgedApplied(s.book, s.phase.request, v.response) then Do(s.phase.id, s.phase.request, env, true)
      else Stutter
    case CommitEdit =>
      var a := s.phase.attempt;
      if JudgedApplied(a.pre, a.request, a.response) then Stutter else Do(a.id, a.request, a.env, true)
    case _ => Stutter
  }

  /** With nothing unresolved, exactly the recorded outcomes count. */
  lemma OutcomesQuiet(s: State)
    requires Unresolved(s.tables) == {}
    ensures Outcomes(s) == s.tables.applied
  {
    forall id | id in s.tables.intents
      ensures !JudgedHere(s, id)
    {
      assert id !in Unresolved(s.tables);
    }
  }

  lemma OutcomesOne(s: State, id: Id)
    requires Unresolved(s.tables) == {id}
    ensures Outcomes(s) == if JudgedHere(s, id) then s.tables.applied[id := Succeeded(s.tables.intents[id].pending.value)] else s.tables.applied
  {
    assert id in Unresolved(s.tables);
    forall x | x in s.tables.intents && x != id
      ensures !JudgedHere(s, x)
    {
      assert x !in Unresolved(s.tables);
    }
  }

  /** Executing on the observable book is one enabled atomic act with the observable effect. */
  lemma ActIsAtomic(s: State, id: Id, r: Request, env: Env, open: bool)
    requires SplitCount(r) <= |env.splits|
    requires id !in Outcomes(s)
    requires Final(OutcomeOf(Execute(if open then Some(s.book) else None, r, env)))
    ensures AtomicEnabled(Abstraction(s), Do(id, r, env, open))
    ensures var v := Execute(if open then Some(s.book) else None, r, env);
            AtomicStep(Abstraction(s), Do(id, r, env, open)) ==
            Store(if v.Commit? then Observe(v.post) else Observe(s.book), Outcomes(s)[id := OutcomeOf(v)])
  {
    ObserveExecute(s.book, r, env);
  }

  lemma ApplyRefines(s: State, env: Env, v: Verdict)
    requires Inv(s) && Enabled(s, Apply(env, v)) && Hypotheses(s, Apply(env, v))
    ensures var x := ActOf(s, Apply(env, v));
            AtomicEnabled(Abstraction(s), x) && Abstraction(Step(s, Apply(env, v))) == AtomicStep(Abstraction(s), x)
  {
    var id, r := s.phase.id, s.phase.request;
    StepKeepsInv(s, Apply(env, v));
    OutcomesQuiet(s);
    if v.Reject? {
      OutcomesQuiet(Refuse(s, id, r, v.error));
      if IsDeterministicVerdict(v.error.code) {
        ActIsAtomic(s, id, r, env, s.open);
      }
    } else {
      var a := Attempt(id, r, env, s.book, v.response, v.post);
      OutcomesOne(Pend(s, a), id);
      if JudgedApplied(s.book, r, v.response) {
        UncommittedIsJudgedUnapplied(s.book, r, env, v.response, v.post);
        ActIsAtomic(s, id, r, env, true);
      }
    }
  }

  lemma CommitEditRefines(s: State)
    requires Inv(s) && Enabled(s, CommitEdit)
    ensures var x := ActOf(s, CommitEdit);
            AtomicEnabled(Abstraction(s), x) && Abstraction(Step(s, CommitEdit)) == AtomicStep(Abstraction(s), x)
  {
    var a := s.phase.attempt;
    var s' := Step(s, CommitEdit);
    assert a.id in Unresolved(s.tables);
    OutcomesOne(s, a.id);
    OutcomesOne(s', a.id);
    CommittedIsJudgedApplied(a.pre, a.request, a.env, a.response, a.post);
    UncommittedIsJudgedUnapplied(a.pre, a.request, a.env, a.response, a.post);
    if !JudgedApplied(a.pre, a.request, a.response) {
      ActIsAtomic(s, a.id, a.request, a.env, true);
    }
  }

  lemma RecordRefines(s: State)
    requires Inv(s) && Enabled(s, Record)
    ensures Abstraction(Step(s, Record)) == Abstraction(s)
  {
    var a := s.phase.attempt;
    assert a.id in Unresolved(s.tables);
    StepKeepsInv(s, Record);
    OutcomesOne(s, a.id);
    OutcomesQuiet(Step(s, Record));
    CommittedIsJudgedApplied(a.pre, a.request, a.env, a.response, a.post);
  }

  lemma ResolveRefines(s: State, applied: bool)
    requires Inv(s) && Enabled(s, Resolve(applied))
    ensures Abstraction(Step(s, Resolve(applied))) == Abstraction(s)
  {
    var e := s.phase.todo[0];
    var s' := Step(s, Resolve(applied));
    assert e.id in Ids(s.phase.todo);
    assert Unresolved(s.tables) == {e.id};
    UnresolvedAfter(s.tables, e.id);
    OutcomesOne(s, e.id);
    OutcomesQuiet(s');
  }

  lemma CallRefines(s: State, id: Id, r: Request)
    requires Inv(s) && Enabled(s, Call(id, r))
    ensures Abstraction(Step(s, Call(id, r))) == Abstraction(s)
  {
    UnresolvedAfter(s.tables, id);
    OutcomesQuiet(s);
    OutcomesQuiet(Step(s, Call(id, r)));
  }

  lemma SameDurable(s: State, s': State)
    requires s.tables == s'.tables && s.book == s'.book
    ensures Abstraction(s) == Abstraction(s')
  {
    assert Outcomes(s) == Outcomes(s');
  }

  /** Each protocol step is its atomic act, or changes nothing that can be observed. */
  lemma StepRefines(s: State, l: Label)
    requires Inv(s) && Enabled(s, l) && Hypotheses(s, l)
    ensures AtomicEnabled(Abstraction(s), ActOf(s, l))
    ensures Abstraction(Step(s, l)) == AtomicStep(Abstraction(s), ActOf(s, l))
  {
    match l
    case Call(id, r) => CallRefines(s, id, r);
    case Apply(env, v) => ApplyRefines(s, env, v);
    case CommitEdit => CommitEditRefines(s);
    case Record => RecordRefines(s);
    case Resolve(applied) => ResolveRefines(s, applied);
    case LoseOutcome =>
    case _ => SameDurable(s, Step(s, l));
  }

  ghost function Linearization(s: State, ls: seq<Label>): seq<Atomic>
    requires CanRun(s, ls)
    decreases |ls|
  {
    if ls == [] then [] else [ActOf(s, ls[0])] + Linearization(Step(s, ls[0]), ls[1..])
  }

  /** Every legal run, with crashes, restarts and retries anywhere, is a run of the atomic
      store. */
  lemma {:induction false} RunRefines(s: State, ls: seq<Label>)
    requires Inv(s) && Legal(s, ls) && CanRun(s, ls)
    ensures CanAtomicRun(Abstraction(s), Linearization(s, ls))
    ensures Abstraction(Run(s, ls)) == AtomicRun(Abstraction(s), Linearization(s, ls))
    decreases |ls|
  {
    if ls != [] {
      StepRefines(s, ls[0]);
      StepKeepsInv(s, ls[0]);
      RunRefines(Step(s, ls[0]), ls[1..]);
      assert Linearization(s, ls)[1..] == Linearization(Step(s, ls[0]), ls[1..]);
    }
  }

  // ---- the stored book, not only what the contract shows of it

  ghost function ExactAbstraction(s: State): Store {
    Store(s.book, Outcomes(s))
  }

  /** The atomic store over stored books. */
  ghost function ExactStep(a: Store, x: Atomic): Store
    requires AtomicEnabled(a, x)
  {
    if x.Stutter? then a
    else
      var v := Execute(if x.open then Some(a.book) else None, x.request, x.env);
      Store(if v.Commit? then v.post else a.book, a.outcomes[x.id := OutcomeOf(v)])
  }

  ghost predicate CanExactRun(a: Store, xs: seq<Atomic>)
    decreases |xs|
  {
    xs == [] || (AtomicEnabled(a, xs[0]) && CanExactRun(ExactStep(a, xs[0]), xs[1..]))
  }

  ghost function ExactRun(a: Store, xs: seq<Atomic>): Store
    requires CanExactRun(a, xs)
    decreases |xs|
  {
    if xs == [] then a else ExactRun(ExactStep(a, xs[0]), xs[1..])
  }

  /** The step is not part of a reconcile stamp over one that its view hides. */
  ghost predicate Plain(s: State, l: Label)
    requires Enabled(s, l)
  {
    match l
    case Apply(_, _) => !StampHidden(s.book, s.phase.request)
    case CommitEdit => !StampHidden(s.phase.attempt.pre, s.phase.attempt.request)
    case _ => true
  }

  ghost predicate AllPlain(s: State, ls: seq<Label>)
    requires CanRun(s, ls)
    decreases |ls|
  {
    ls == [] || (Plain(s, ls[0]) && AllPlain(Step(s, ls[0]), ls[1..]))
  }

  /** An act on the stored book has the outcome of the same act on what is shown of it. */
  lemma ActsAlike(s: State, x: Atomic)
    requires AtomicEnabled(Abstraction(s), x)
    ensures AtomicEnabled(ExactAbstraction(s), x)
    ensures ExactStep(ExactAbstraction(s), x).outcomes == AtomicStep(Abstraction(s), x).outcomes
  {
    if x.Do? {
      ObserveExecute(s.book, x.request, x.env);
    }
  }

  /** The book after a plain step is the book after its act. */
  lemma BookOfPlainStep(s: State, l: Label)
    requires Inv(s) && Enabled(s, l) && Hypotheses(s, l) && Plain(s, l)
    requires AtomicEnabled(ExactAbstraction(s), ActOf(s, l))
    ensures Step(s, l).book == ExactStep(ExactAbstraction(s), ActOf(s, l)).book
  {
    match l
    case Apply(env, v) =>
      if v.Commit? {
        VerdictIsStrict(s.book, s.phase.request, env, v.response, v.post);
      }
    case CommitEdit =>
      var a := s.phase.attempt;
      VerdictIsStrict(a.pre, a.request, a.env, a.response, a.post);
    case _ =>
  }

  lemma StepRefinesExactly(s: State, l: Label)
    requires Inv(s) && Enabled(s, l) && Hypotheses(s, l) && Plain(s, l)
    ensures AtomicEnabled(ExactAbstraction(s), ActOf(s, l))
    ensures ExactAbstraction(Step(s, l)) == ExactStep(ExactAbstraction(s), ActOf(s, l))
  {
    StepRefines(s, l);
    ActsAlike(s, ActOf(s, l));
    BookOfPlainStep(s, l);
  }

  /** Every legal run without a hidden reconcile stamp is a run of the atomic store over the
      very books that are stored. */
  lemma {:induction false} RunRefinesExactly(s: State, ls: seq<Label>)
    requires Inv(s) && Legal(s, ls) && CanRun(s, ls) && AllPlain(s, ls)
    ensures CanExactRun(ExactAbstraction(s), Linearization(s, ls))
    ensures ExactAbstraction(Run(s, ls)) == ExactRun(ExactAbstraction(s), Linearization(s, ls))
    decreases |ls|
  {
    if ls != [] {
      StepRefinesExactly(s, ls[0]);
      StepKeepsInv(s, ls[0]);
      RunRefinesExactly(Step(s, ls[0]), ls[1..]);
      assert Linearization(s, ls)[1..] == Linearization(Step(s, ls[0]), ls[1..]);
    }
  }
}
