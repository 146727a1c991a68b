/** What clients can rely on, over every run from any book and an empty journal, and what the
    book itself keeps when it was well formed. */
module Guarantees {
  import opened Options
  import opened Errors
  import opened Books
  import opened Handlers
  import opened Integrity
  import opened Recovery
  import opened Journals
  import opened Sequences
  import opened Protocol
  import opened Refinement
  import opened Reconciliation
  import opened Daemon
  import opened FirstRequests
  import opened Verdicts

  lemma Reachable(b: Book, ls: seq<Label>)
    requires Legal(Initial(b), ls)
    ensures CanRun(Initial(b), ls) && Inv(Run(Initial(b), ls))
  {
    InitialInv(b);
    LegalCanRun(Initial(b), ls);
    RunKeepsInv(Initial(b), ls);
  }

  /** At most once: whatever crashes, restarts and retries a run contains, no id's edit is
      committed twice, and an id with an outcome never reaches its handler again. */
  lemma AtMostOnce(b: Book, ls: seq<Label>)
    requires Legal(Initial(b), ls) && CanRun(Initial(b), ls)
    ensures var s := Run(Initial(b), ls);
            && Distinct(s.commits)
            && (s.phase.Applying? ==> s.phase.id !in s.tables.applied && s.phase.id !in s.commits)
            && (s.phase.Pended? ==> s.phase.attempt.id !in s.tables.applied && s.phase.attempt.id !in s.commits)
  {
    Reachable(b, ls);
    var s := Run(Initial(b), ls);
    assert s.phase.Pended? ==> s.phase.attempt.id in Unresolved(s.tables);
  }

  /** In every reachable state at most one id is unresolved, and the verdict on it is exact: a
      true verdict means the book shows what the attempt commits, any other that the book is
      still the one the attempt found. */
  lemma ReconciliationIsExact(b: Book, ls: seq<Label>, id: Id)
    requires Legal(Initial(b), ls) && CanRun(Initial(b), ls)
    requires IsUnresolved(Run(Initial(b), ls).tables, id)
    ensures var s := Run(Initial(b), ls);
            && Unresolved(s.tables) == {id} && s.last.Some? && s.last.value.id == id
            && (JudgedHere(s, id) ==> Observe(s.book) == Observe(s.last.value.post))
            && (JudgedHere(s, id) && !StampHidden(s.last.value.pre, s.last.value.request) ==> s.book == s.last.value.post)
            && (!JudgedHere(s, id) ==> s.book == s.last.value.pre && id !in s.commits)
  {
    Reachable(b, ls);
    var s := Run(Initial(b), ls);
    assert id in Unresolved(s.tables);
    var a := s.last.value;
    CommittedIsJudgedApplied(a.pre, a.request, a.env, a.response, a.post);
    UncommittedIsJudgedUnapplied(a.pre, a.request, a.env, a.response, a.post);
    VerdictIsStrict(a.pre, a.request, a.env, a.response, a.post);
    assert forall x :: x in Unresolved(s.tables) ==> x == id;
  }

  /** Once startup has finished, an id reported indeterminate has had no effect: it was never
      committed, and the atomic run that explains the book contains no act of it. */
  lemma IndeterminateMeansUnapplied(b: Book, ls: seq<Label>, id: Id)
    requires Legal(Initial(b), ls) && CanRun(Initial(b), ls)
    requires Run(Initial(b), ls).phase.Idle? && id in Indeterminate(Run(Initial(b), ls).tables)
    ensures id !in Run(Initial(b), ls).commits
    ensures var xs := Linearization(Initial(b), ls);
            && CanAtomicRun(Abstraction(Initial(b)), xs)
            && Observe(Run(Initial(b), ls).book) == AtomicRun(Abstraction(Initial(b)), xs).book
            && forall k :: 0 <= k < |xs| ==> !Acts(xs, k, id)
  {
    Reachable(b, ls);
    InitialInv(b);
    RunRefines(Initial(b), ls);
    OutcomesQuiet(Run(Initial(b), ls));
    ActMeansOutcome(Abstraction(Initial(b)), Linearization(Initial(b), ls), id);
  }

  lemma {:induction false} ActMeansOutcome(a: Store, xs: seq<Atomic>, id: Id)
    requires CanAtomicRun(a, xs) && id !in AtomicRun(a, xs).outcomes
    ensures forall k :: 0 <= k < |xs| ==> !Acts(xs, k, id)
    decreases |xs|
  {
    if xs != [] {
      ActMeansOutcome(AtomicStep(a, xs[0]), xs[1..], id);
      AtomicOnce(AtomicStep(a, xs[0]), xs[1..], id);
      assert forall k :: 1 <= k < |xs| ==> (Acts(xs, k, id) <==> Acts(xs[1..], k - 1, id));
    }
  }

  /** The outcome that act k of an atomic run gives its id. */
  ghost function GivenAt(a: Store, xs: seq<Atomic>, k: nat): Outcome
    requires CanAtomicRun(a, xs) && k < |xs| && xs[k].Do?
    decreases |xs|
  {
    if k == 0 then OutcomeOf(Execute(if xs[0].open then Some(a.book) else None, xs[0].request, xs[0].env))
    else GivenAt(AtomicStep(a, xs[0]), xs[1..], k - 1)
  }

  lemma {:induction false} OutcomeWasGiven(a: Store, xs: seq<Atomic>, id: Id) returns (k: nat)
    requires CanAtomicRun(a, xs) && id in AtomicRun(a, xs).outcomes && id !in a.outcomes
    ensures k < |xs| && Acts(xs, k, id) && GivenAt(a, xs, k) == AtomicRun(a, xs).outcomes[id]
    ensures forall j :: 0 <= j < |xs| && j != k ==> !Acts(xs, j, id)
    decreases |xs|
  {
    var a', rest := AtomicStep(a, xs[0]), xs[1..];
    AtomicOnce(a', rest, id);
    assert forall j :: 1 <= j < |xs| ==> (Acts(xs, j, id) <==> Acts(rest, j - 1, id));
    if Acts(xs, 0, id) {
      k := 0;
    } else {
      var j := OutcomeWasGiven(a', rest, id);
      k := j + 1;
    }
  }

  /** A final reply tells the truth: the id's outcome is on record, it is the outcome of the
      one atomic act of that id in the run that explains the book, that act carries the request
      the id was first journaled with, and the reply is that outcome as the asking call reads
      it: the outcome itself exactly when it is a failure or a response of the asking call's
      type. */
  lemma RepliesAreTrue(b: Book, ls: seq<Label>, n: nat) returns (k: nat)
    requires Legal(Initial(b), ls) && CanRun(Initial(b), ls)
    requires n < |Run(Initial(b), ls).acks| && Final(Run(Initial(b), ls).acks[n].reply)
    ensures var s, xs := Run(Initial(b), ls), Linearization(Initial(b), ls);
            var ack := s.acks[n];
            && ack.id in s.tables.applied && ack.reply == Told(ack.request, s.tables.applied[ack.id])
            && (ack.reply == s.tables.applied[ack.id] <==> OwnType(ack.request, s.tables.applied[ack.id]))
            && CanAtomicRun(Abstraction(Initial(b)), xs)
            && Observe(s.book) == AtomicRun(Abstraction(Initial(b)), xs).book
            && k < |xs| && Acts(xs, k, ack.id)
            && FirstIs(s, ack.id, xs[k].request)
            && GivenAt(Abstraction(Initial(b)), xs, k) == s.tables.applied[ack.id]
            && forall j :: 0 <= j < |xs| && j != k ==> !Acts(xs, j, ack.id)
  {
    Reachable(b, ls);
    InitialInv(b);
    RunRefines(Initial(b), ls);
    var s := Run(Initial(b), ls);
    var id := s.acks[n].id;
    k := RecordedWasGiven(b, ls, id);
    ToldOwnType(s.acks[n].request, s.tables.applied[id]);
  }

  lemma {:induction false} GivenHasShape(a: Store, xs: seq<Atomic>, k: nat)
    requires CanAtomicRun(a, xs) && k < |xs| && xs[k].Do?
    ensures OwnType(xs[k].request, GivenAt(a, xs, k))
    decreases |xs|
  {
    if k == 0 {
      AnswerHasShape(if xs[0].open then Some(a.book) else None, xs[0].request, xs[0].env);
    } else {
      GivenHasShape(AtomicStep(a, xs[0]), xs[1..], k - 1);
    }
  }

  /** The run that explains the book has an act of the acknowledged id, with the acknowledged
      request, and the reply is what that act gave. */
  ghost predicate Done(b: Book, ls: seq<Label>, ack: Ack)
    requires CanRun(Initial(b), ls) && CanAtomicRun(Abstraction(Initial(b)), Linearization(Initial(b), ls))
  {
    var xs := Linearization(Initial(b), ls);
    exists k :: 0 <= k < |xs| && Acts(xs, k, ack.id) && xs[k].request == ack.request
                && GivenAt(Abstraction(Initial(b)), xs, k) == ack.reply
  }

  /** What a final reply is worth: the acknowledged request itself is what was done exactly if it
      is the one that its id was first journaled with. */
  lemma AcknowledgedIsDone(b: Book, ls: seq<Label>, n: nat)
    requires Legal(Initial(b), ls) && CanRun(Initial(b), ls)
    requires n < |Run(Initial(b), ls).acks| && Final(Run(Initial(b), ls).acks[n].reply)
    ensures CanAtomicRun(Abstraction(Initial(b)), Linearization(Initial(b), ls))
    ensures var s := Run(Initial(b), ls);
            Done(b, ls, s.acks[n]) <==> FirstIs(s, s.acks[n].id, s.acks[n].request)
  {
    var s, xs := Run(Initial(b), ls), Linearization(Initial(b), ls);
    var ack := s.acks[n];
    var k := RepliesAreTrue(b, ls, n);
    if FirstIs(s, ack.id, ack.request) {
      GivenHasShape(Abstraction(Initial(b)), xs, k);
      assert Acts(xs, k, ack.id) && xs[k].request == ack.request;
    }
  }

  /** A client that never reuses an id for another request can take a final reply at its word. */
  lemma UnsharedIdIsDone(b: Book, ls: seq<Label>, id: Id, r: Request, n: nat)
    requires Legal(Initial(b), ls) && CanRun(Initial(b), ls) && OnlyCall(ls, id, r)
    requires n < |Run(Initial(b), ls).acks| && Final(Run(Initial(b), ls).acks[n].reply)
    requires Run(Initial(b), ls).acks[n].id == id
    ensures CanAtomicRun(Abstraction(Initial(b)), Linearization(Initial(b), ls))
    ensures Run(Initial(b), ls).acks[n].request == r && Done(b, ls, Run(Initial(b), ls).acks[n])
  {
    NeverReused(Initial(b), ls, id, r);
    Reachable(b, ls);
    AcknowledgedIsDone(b, ls, n);
  }

  /** Replay fidelity: two final replies to one id are the same reply exactly when the calls
      have the same response type, or the outcome is a failure. */
  lemma RepliesAgree(b: Book, ls: seq<Label>, m: nat, n: nat)
    requires Legal(Initial(b), ls) && CanRun(Initial(b), ls)
    requires var s := Run(Initial(b), ls);
             m < |s.acks| && n < |s.acks| && s.acks[m].id == s.acks[n].id
             && Final(s.acks[m].reply) && Final(s.acks[n].reply)
    ensures var s := Run(Initial(b), ls);
            s.acks[m].reply == s.acks[n].reply <==>
            s.acks[m].reply.Failed? || Asked(s.acks[m].request) == Asked(s.acks[n].request)
  {
    Reachable(b, ls);
    var s := Run(Initial(b), ls);
    var o := s.tables.applied[s.acks[m].id];
    ToldOwnType(s.acks[m].request, o);
    ToldOwnType(s.acks[n].request, o);
  }

  /** Failure purity: an id whose recorded outcome is a failure was never committed, and the
      failure is one that an open book gives its first request, not one of the daemon's state. */
  lemma FailuresArePure(b: Book, ls: seq<Label>, id: Id)
    requires Legal(Initial(b), ls) && CanRun(Initial(b), ls)
    requires var t := Run(Initial(b), ls).tables; id in t.applied && t.applied[id].Failed?
    ensures id !in Run(Initial(b), ls).commits
    ensures IsDeterministicVerdict(Run(Initial(b), ls).tables.applied[id].error.code)
    ensures var t := Run(Initial(b), ls).tables;
            id in t.intents && SomeBookRefuses(t.intents[id].request, t.applied[id].error)
  {
    Reachable(b, ls);
    assert id !in Unresolved(Run(Initial(b), ls).tables);
    var k := RecordedWasGiven(b, ls, id);
    GivenByABook(Abstraction(Initial(b)), Linearization(Initial(b), ls), k);
  }

  /** The act that gave a recorded outcome, and whose request it carries. */
  lemma RecordedWasGiven(b: Book, ls: seq<Label>, id: Id) returns (k: nat)
    requires Legal(Initial(b), ls) && CanRun(Initial(b), ls) && id in Run(Initial(b), ls).tables.applied
    ensures var s, xs := Run(Initial(b), ls), Linearization(Initial(b), ls);
            && CanAtomicRun(Abstraction(Initial(b)), xs)
            && k < |xs| && Acts(xs, k, id) && FirstIs(s, id, xs[k].request)
            && GivenAt(Abstraction(Initial(b)), xs, k) == s.tables.applied[id]
            && forall j :: 0 <= j < |xs| && j != k ==> !Acts(xs, j, id)
  {
    InitialInv(b);
    RunRefines(Initial(b), ls);
    var s := Run(Initial(b), ls);
    assert Outcomes(s)[id] == s.tables.applied[id] by {
      assert !JudgedHere(s, id);
    }
    OutcomesQuiet(Initial(b));
    k := OutcomeWasGiven(Abstraction(Initial(b)), Linearization(Initial(b), ls), id);
    ActsAreOfFirst(Initial(b), ls, k);
  }

  /** A failure that an act gives is one that some open book gives its request. */
  lemma {:induction false} GivenByABook(a: Store, xs: seq<Atomic>, k: nat)
    requires CanAtomicRun(a, xs) && k < |xs| && xs[k].Do?
    ensures GivenAt(a, xs, k).Failed? ==> SomeBookRefuses(xs[k].request, GivenAt(a, xs, k).error)
    decreases |xs|
  {
    if k > 0 {
      GivenByABook(AtomicStep(a, xs[0]), xs[1..], k - 1);
    } else if GivenAt(a, xs, 0).Failed? {
      VerdictsAreBooks(if xs[0].open then Some(a.book) else None, xs[0].request, xs[0].env, GivenAt(a, xs, 0).error);
    }
  }

  /** A recorded outcome stays as it is through any further steps at all, hypotheses or not. */
  lemma {:induction false} OutcomesArePermanent(s: State, ls: seq<Label>, id: Id)
    requires CanRun(s, ls) && id in s.tables.applied
    ensures id in Run(s, ls).tables.applied && Run(s, ls).tables.applied[id] == s.tables.applied[id]
    decreases |ls|
  {
    if ls != [] {
      OutcomeKept(s, ls[0], id);
      OutcomesArePermanent(Step(s, ls[0]), ls[1..], id);
    }
  }

  lemma OutcomeKept(s: State, l: Label, id: Id)
    requires Enabled(s, l) && id in s.tables.applied
    ensures id in Step(s, l).tables.applied && Step(s, l).tables.applied[id] == s.tables.applied[id]
  {
  }

  lemma SoundStep(s: State, l: Label)
    requires Inv(s) && WellFormed(s.book) && Enabled(s, l)
    ensures WellFormed(Step(s, l).book) && RootKept(s.book, Step(s, l).book)
  {
    if l.CommitEdit? {
      var a := s.phase.attempt;
      CommitKeepsIntegrity(a.pre, a.request, a.env);
    }
  }

  /** Book integrity over whole runs: a well-formed book stays so. */
  lemma {:induction false} BookStaysSound(s: State, ls: seq<Label>)
    requires Inv(s) && WellFormed(s.book) && Legal(s, ls) && CanRun(s, ls)
    ensures WellFormed(Run(s, ls).book)
    ensures RootKept(s.book, Run(s, ls).book)
    decreases |ls|
  {
    if ls != [] {
      StepKeepsInv(s, ls[0]);
      SoundStep(s, ls[0]);
      BookStaysSound(Step(s, ls[0]), ls[1..]);
    }
  }

  ghost function StampBy(s: State, l: Label): Option<Seconds>
    requires Enabled(s, l)
  {
    if l.CommitEdit? then RootStamp(s.book.root, s.phase.attempt.request) else None
  }

  /** The root's stamp after a run: that of the last commit that set it, or the one before. */
  ghost function RootStampAfter(s: State, ls: seq<Label>, stamp: Option<Seconds>): Option<Seconds>
    requires CanRun(s, ls)
    decreases |ls|
  {
    if ls == [] then stamp
    else
      var given := StampBy(s, ls[0]);
      RootStampAfter(Step(s, ls[0]), ls[1..], if given.Some? then given else stamp)
  }

  lemma RootStep(s: State, l: Label)
    requires Inv(s) && WellFormed(s.book) && Enabled(s, l)
    ensures s.book.root == Step(s, l).book.root && s.book.root in s.book.accounts && s.book.root in Step(s, l).book.accounts
    ensures var before, after := s.book.accounts[s.book.root], Step(s, l).book.accounts[s.book.root];
            var given := StampBy(s, l);
            after == before.(lastReconciled := if given.Some? then given else before.lastReconciled)
  {
    if l.CommitEdit? {
      var a := s.phase.attempt;
      RootAfterCommit(a.pre, a.request, a.env);
    }
  }

  /** Over whole runs the root account stays what it was but for its reconcile stamp, which is
      the one last committed for it; so it is unmodified exactly if that is the stamp it had. */
  lemma {:induction false} RootOverRuns(s: State, ls: seq<Label>)
    requires Inv(s) && WellFormed(s.book) && Legal(s, ls) && CanRun(s, ls)
    ensures Run(s, ls).book.root == s.book.root
    ensures s.book.root in s.book.accounts && s.book.root in Run(s, ls).book.accounts
    ensures var before, after := s.book.accounts[s.book.root], Run(s, ls).book.accounts[s.book.root];
            && after == before.(lastReconciled := RootStampAfter(s, ls, before.lastReconciled))
            && (after == before <==> RootStampAfter(s, ls, before.lastReconciled) == before.lastReconciled)
    decreases |ls|
  {
    if ls != [] {
      RootStep(s, ls[0]);
      StepKeepsInv(s, ls[0]);
      SoundStep(s, ls[0]);
      RootOverRuns(Step(s, ls[0]), ls[1..]);
    }
  }

  // ---- a restart reconciles the whole journal

  /** The steps of a reconciliation against book b. */
  function ResolveSteps(b: Book, entries: seq<PendingEntry>): seq<Label> {
    if entries == [] then []
    else [Resolve(JudgedApplied(b, entries[0].request, entries[0].pending))] + ResolveSteps(b, entries[1..])
  }

  /** From any journal and any book, the steps of a restart do what the reconciliation loop
      does: every unresolved id ends as applied or plainly indeterminate. */
  lemma {:induction false} RestartReconciles(s: State, t: Tables, entries: seq<PendingEntry>, i: nat)
    requires Lists(t, entries) && i <= |entries|
    requires s.phase == Starting(entries[i..]) && s.tables == AfterReconciling(t, s.book, Ids(entries[..i]))
    ensures CanRun(s, ResolveSteps(s.book, entries[i..]))
    ensures Run(s, ResolveSteps(s.book, entries[i..])) ==
            s.(phase := Starting([]), tables := AfterReconciling(t, s.book, Unresolved(t)))
    decreases |entries| - i
  {
    if i == |entries| {
      assert entries[..i] == entries && entries[i..] == [];
    } else {
      var e := entries[i];
      var l := Resolve(JudgedApplied(s.book, e.request, e.pending));
      assert entries[i..][0] == e && entries[i..][1..] == entries[i + 1..];
      Round(t, s.book, entries, i);
      RestartReconciles(Step(s, l), t, entries, i + 1);
      StepThenRun(s, l, ResolveSteps(s.book, entries[i + 1..]));
    }
  }

  /** The pending response is of another message type than the request answers with, or an update
      whose entity is gone: a record that says nothing about the commit. */
  predicate Unfit(b: Book, r: Request, pending: Response) {
    match r
    case CreateAccount(_) => !pending.AccountReply?
    case UpdateAccount(_) => !pending.AccountReply? || pending.account.guid !in b.accounts
    case SetReconcileInfo(_, _) => !pending.ReconcileReply? || pending.info.account !in b.accounts
    case PostTransaction(_) => !pending.TransactionReply?
    case UpdateTransaction(_) => !pending.TransactionReply? || pending.transaction.guid !in b.transactions
    case AddPrice(_) => !pending.PriceReply?
    case _ => false
  }

  /** Reconciliation never resolves such a record as done, whatever the journal and the book: the
      id ends indeterminate. */
  lemma UnfitStaysOpen(t: Tables, b: Book, id: Id)
    requires IsUnresolved(t, id) && Unfit(b, t.intents[id].request, t.intents[id].pending.value)
    ensures var after := AfterReconciling(t, b, Unresolved(t));
            id !in after.applied && id in after.intents && after.intents[id] == Intent(t.intents[id].request, None)
  {
    UnresolvedMember(t, id);
    ConfirmedMember(t, b, id);
  }
}
