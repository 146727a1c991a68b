/** The mutation protocol as a machine of durable steps. The process may die between any two
    of them, also while a restart is still reconciling, and any call may be retried. */
module Protocol {
  import opened Options
  import opened Errors
  import opened Books
  import opened Handlers
  import opened Recovery
  import opened Journals
  import opened Sequences
  import Startup

  /** One execution that reached its pending record: the book it ran on and the one it commits. */
  datatype Attempt = Attempt(id: Id, request: Request, env: Env, pre: Book, response: Response, post: Book)

  /** Where the engine thread stands; all of it is lost in a crash. */
  datatype Phase =
    | Down
    | Starting(todo: seq<PendingEntry>)
    | Idle
    | Intended(id: Id, request: Request)
    | Applying(id: Id, request: Request)
    | Pended(attempt: Attempt)
    | Committed(attempt: Attempt)

  datatype Ack = Ack(id: Id, request: Request, reply: Outcome)

  /** tables and book are durable; last, commits and acks only record history: the latest
      attempt that was recorded as pending, the ids whose engine edits were committed, in
      order, and the replies that clients have seen. */
  datatype State = State(
    phase: Phase, tables: Tables, book: Book, open: bool,
    last: Option<Attempt>, commits: seq<Id>, acks: seq<Ack>)

  datatype Label =
    | Call(id: Id, request: Request)
    | Lookup(legible: bool)
    | Apply(env: Env, verdict: Verdict)
    | CommitEdit
    | Record
    | LoseOutcome
    | Crash
    | Start(todo: seq<PendingEntry>)
    | Resolve(applied: bool)
    | Serve
    | SetOpen(open: bool)

  /** The response type of the call. */
  function Asked(r: Request): Shape {
    match r
    case CreateAccount(_) => AccountShape
    case UpdateAccount(_) => AccountShape
    case DeleteAccount(_) => EmptyShape
    case SetReconcileInfo(_, _) => ReconcileShape
    case PostTransaction(_) => TransactionShape
    case UpdateTransaction(_) => TransactionShape
    case DeleteTransaction(_) => EmptyShape
    case AddPrice(_) => PriceShape
  }

  const UNPARSED := Failed(ShimError(EngineError, OutcomeDoesNotParse, Whole))
  const JOURNAL_FAILED := Failed(ShimError(EngineError, JournalFailed, Whole))

  /** A recorded outcome as the asking call reads it: nothing compares the two calls. */
  function Told(r: Request, o: Outcome): Outcome {
    if o.Succeeded? then Succeeded(ReadAs(Asked(r), o.response)) else o
  }

  /** What a replay answers; legible says whether another message's bytes happen to parse. */
  function Replayed(r: Request, o: Outcome, legible: bool): Outcome {
    if o.Succeeded? && !MustParse(Asked(r), o.response) && !legible then UNPARSED else Told(r, o)
  }

  /** Called on the book, or on none while it is closed, the handler of r yields v. */
  ghost predicate Yields(book: Option<Book>, r: Request, env: Env, v: Verdict) {
    SplitCount(r) <= |env.splits| && v == Execute(book, r, env)
  }

  function OpenedBook(s: State): Option<Book> {
    if s.open then Some(s.book) else None
  }

  ghost predicate Enabled(s: State, l: Label) {
    match l
    case Call(_, _) => s.phase.Idle?
    case Lookup(_) => s.phase.Intended?
    case Apply(env, v) => s.phase.Applying? && Yields(OpenedBook(s), s.phase.request, env, v)
    case CommitEdit => s.phase.Pended?
    case Record => s.phase.Committed?
    case LoseOutcome => s.phase.Committed?
    case Crash => !s.phase.Down?
    case Start(todo) => s.phase.Down? && Lists(s.tables, todo) && Startup.Opens(s.book)
    case Resolve(applied) =>
      s.phase.Starting? && s.phase.todo != []
      && applied == JudgedApplied(s.book, s.phase.todo[0].request, s.phase.todo[0].pending)
    case Serve => s.phase.Starting? && s.phase.todo == []
    case SetOpen(_) => s.phase.Idle?
  }

  /** What the protocol relies on: journal statements do not fail while the process lives, an
      unresolved id is retried with the request it first came with, engine GUIDs are fresh. */
  ghost predicate Hypotheses(s: State, l: Label)
    requires Enabled(s, l)
  {
    match l
    case Call(id, r) => id in Indeterminate(s.tables) ==> s.tables.intents[id].request == r
    case Apply(env, _) => Fresh(s.book, s.phase.request, env)
    case LoseOutcome => false
    case _ => true
  }

  function Reply(s: State, id: Id, r: Request, o: Outcome): State {
    s.(phase := Idle, acks := s.acks + [Ack(id, r, o)])
  }

  /** Step 3a: the response is durable as pending, the edit not yet committed. */
  function Pend(s: State, a: Attempt): State {
    s.(phase := Pended(a), tables := WithPending(s.tables, a.id, Some(a.response)), last := Some(a))
  }

  /** A handler threw: only a verdict on the request becomes the outcome. */
  function Refuse(s: State, id: Id, r: Request, e: ShimError): State {
    var t := if IsDeterministicVerdict(e.code) then WithOutcome(s.tables, id, Failed(e)) else s.tables;
    Reply(s.(tables := t), id, r, Failed(e))
  }

  ghost function Step(s: State, l: Label): State
    requires Enabled(s, l)
  {
    match l
    case Call(id, r) => s.(phase := Intended(id, r), tables := WithIntent(s.tables, id, r))
    case Lookup(legible) =>
      var id, r := s.phase.id, s.phase.request;
      if id in s.tables.applied then Reply(s, id, r, Replayed(r, s.tables.applied[id], legible))
      else s.(phase := Applying(id, r))
    case Apply(env, v) =>
      var id, r := s.phase.id, s.phase.request;
      (match v
       case Reject(e) => Refuse(s, id, r, e)
       case Commit(response, post) => Pend(s, Attempt(id, r, env, s.book, response, post)))
    case CommitEdit =>
      var a := s.phase.attempt;
      s.(phase := Committed(a), book := a.post, commits := s.commits + [a.id])
    case Record =>
      var a := s.phase.attempt;
      Reply(s.(tables := WithOutcome(s.tables, a.id, Succeeded(a.response))), a.id, a.request,
            if Insertable(s.tables, a.id) then Succeeded(a.response) else JOURNAL_FAILED)
    case LoseOutcome =>
      var a := s.phase.attempt;
      Reply(s, a.id, a.request, JOURNAL_FAILED)
    case Crash => s.(phase := Down, open := false)
    case Start(todo) => s.(phase := Starting(todo), open := true)
    case Resolve(applied) =>
      var e := s.phase.todo[0];
      var t := if applied
               then WithOutcome(s.tables, e.id, Succeeded(e.pending))
               else WithPending(s.tables, e.id, None);
      s.(phase := Starting(s.phase.todo[1..]), tables := t)
    case Serve => s.(phase := Idle)
    case SetOpen(open) => s.(open := open)
  }

  /** Labels that can be taken one after the other from s. */
  ghost predicate CanRun(s: State, ls: seq<Label>)
    decreases |ls|
  {
    ls == [] || (Enabled(s, ls[0]) && CanRun(Step(s, ls[0]), ls[1..]))
  }

  ghost function Run(s: State, ls: seq<Label>): State
    requires CanRun(s, ls)
    decreases |ls|
  {
    if ls == [] then s else Run(Step(s, ls[0]), ls[1..])
  }

  /** A run all of whose steps meet the hypotheses. */
  ghost predicate Legal(s: State, ls: seq<Label>)
    decreases |ls|
  {
    ls == [] || (Enabled(s, ls[0]) && Hypotheses(s, ls[0]) && Legal(Step(s, ls[0]), ls[1..]))
  }

  lemma {:induction false} LegalCanRun(s: State, ls: seq<Label>)
    requires Legal(s, ls)
    ensures CanRun(s, ls)
    decreases |ls|
  {
    if ls != [] {
      LegalCanRun(Step(s, ls[0]), ls[1..]);
    }
  }

  /** A daemon that is not running yet, over a book and an empty journal. */
  function Initial(b: Book): State {
    State(Down, Tables(map[], map[]), b, false, None, [], [])
  }

  // ---- the invariant

  predicate Final(o: Outcome) {
    o.Succeeded? || IsDeterministicVerdict(o.error.code)
  }

  /** The one unresolved id is the last attempt's, and the book is on one of its two sides. */
  ghost predicate LastAction(s: State) {
    && (s.last.Some? ==>
          Executed(s.last.value.pre, s.last.value.request, s.last.value.env, s.last.value.response, s.last.value.post))
    && forall id :: id in Unresolved(s.tables) ==>
         && s.last.Some? && s.last.value.id == id
         && s.tables.intents[id] == Intent(s.last.value.request, Some(s.last.value.response))
         && (|| (s.book == s.last.value.pre && id !in s.commits)
             || (s.book == s.last.value.post && id in s.commits))
  }

  ghost predicate PhaseOk(s: State) {
    match s.phase
    case Down => true
    case Starting(todo) => s.open && Lists(s.tables, todo)
    case Idle => Unresolved(s.tables) == {}
    case Intended(id, r) =>
      Unresolved(s.tables) == {} && id in s.tables.intents
      && (id !in s.tables.applied ==> s.tables.intents[id].request == r)
    case Applying(id, r) =>
      Unresolved(s.tables) == {} && Insertable(s.tables, id)
      && s.tables.intents[id].request == r && id !in s.commits
    case Pended(a) => s.last == Some(a) && Unresolved(s.tables) == {a.id} && s.book == a.pre && a.id !in s.commits
    case Committed(a) => s.last == Some(a) && Unresolved(s.tables) == {a.id} && s.book == a.post && a.id in s.commits
  }

  /** Each id commits at most once, and only on the way to a recorded success. */
  ghost predicate CommitsOk(s: State) {
    && Distinct(s.commits)
    && forall id :: id in s.commits ==>
         id in Unresolved(s.tables) || (id in s.tables.applied && s.tables.applied[id].Succeeded?)
  }

  /** Every final reply a client has seen is the recorded outcome, as its call reads it. */
  ghost predicate AcksOk(s: State) {
    && (forall id :: id in s.tables.applied ==> id in s.tables.intents && Final(s.tables.applied[id]))
    && forall k :: 0 <= k < |s.acks| && Final(s.acks[k].reply) ==>
         s.acks[k].id in s.tables.applied && s.acks[k].reply == Told(s.acks[k].request, s.tables.applied[s.acks[k].id])
  }

  ghost predicate Inv(s: State) {
    LastAction(s) && PhaseOk(s) && CommitsOk(s) && AcksOk(s)
  }

  lemma InitialInv(b: Book)
    ensures Inv(Initial(b))
  {
  }

  lemma CallKeeps(s: State, id: Id, r: Request)
    requires Inv(s) && Enabled(s, Call(id, r)) && Hypotheses(s, Call(id, r))
    ensures Inv(Step(s, Call(id, r)))
  {
    UnresolvedAfter(s.tables, id);
    assert Unresolved(Step(s, Call(id, r)).tables) == {};
  }

  lemma PendKeeps(s: State, a: Attempt)
    requires Inv(s) && s.phase == Applying(a.id, a.request) && a.pre == s.book
    requires Executed(a.pre, a.request, a.env, a.response, a.post)
    ensures Inv(Pend(s, a))
  {
    UnresolvedAfter(s.tables, a.id);
    assert Unresolved(Pend(s, a).tables) == {a.id};
  }

  lemma RefuseKeeps(s: State, id: Id, r: Request, e: ShimError)
    requires Inv(s) && s.phase == Applying(id, r)
    ensures Inv(Refuse(s, id, r, e))
  {
    UnresolvedAfter(s.tables, id);
    assert Unresolved(Refuse(s, id, r, e).tables) == {};
  }

  lemma ApplyKeeps(s: State, env: Env, v: Verdict)
    requires Inv(s) && Enabled(s, Apply(env, v)) && Hypotheses(s, Apply(env, v))
    ensures Inv(Step(s, Apply(env, v)))
  {
    var id, r := s.phase.id, s.phase.request;
    match v
    case Reject(e) => RefuseKeeps(s, id, r, e);
    case Commit(response, post) => PendKeeps(s, Attempt(id, r, env, s.book, response, post));
  }

  lemma CommitEditKeeps(s: State)
    requires Inv(s) && Enabled(s, CommitEdit)
    ensures Inv(Step(s, CommitEdit))
  {
  }

  /** A handler answers with its own response type. */
  lemma AnswersAsAsked(pre: Book, r: Request, env: Env, response: Response, post: Book)
    requires Executed(pre, r, env, response, post)
    ensures ShapeOf(response) == Asked(r)
  {
  }

  /** A reply that is the recorded outcome as its call reads it, or is not final. */
  lemma ReplyKeeps(s: State, id: Id, r: Request, o: Outcome)
    requires Inv(s) && Unresolved(s.tables) == {} && id in s.tables.applied
    requires Final(o) ==> o == Told(r, s.tables.applied[id])
    ensures Inv(Reply(s, id, r, o))
  {
  }

  lemma ReplayIsTold(r: Request, o: Outcome, legible: bool)
    ensures Final(Replayed(r, o, legible)) ==> Replayed(r, o, legible) == Told(r, o)
  {
  }

  lemma LookupKeeps(s: State, legible: bool)
    requires Inv(s) && Enabled(s, Lookup(legible))
    ensures Inv(Step(s, Lookup(legible)))
  {
    var id, r := s.phase.id, s.phase.request;
    if id in s.tables.applied {
      ReplayIsTold(r, s.tables.applied[id], legible);
      ReplyKeeps(s, id, r, Replayed(r, s.tables.applied[id], legible));
    }
  }

  /** Steps that leave the tables, the book and the history as they are. */
  lemma PhaseKeeps(s: State, l: Label)
    requires Inv(s) && Enabled(s, l) && (l.Crash? || l.Start? || l.Serve? || l.SetOpen?)
    ensures Inv(Step(s, l))
  {
  }

  /** The outcome row of a committed attempt. */
  lemma OutcomeKeeps(s: State, t: Tables, a: Attempt)
    requires Inv(s) && s.phase == Committed(a) && t == WithOutcome(s.tables, a.id, Succeeded(a.response))
    ensures Insertable(s.tables, a.id)
    ensures Inv(s.(phase := Idle, tables := t))
  {
    assert a.id in Unresolved(s.tables);
    UnresolvedAfter(s.tables, a.id);
    assert Unresolved(t) == {};
  }

  lemma RecordKeeps(s: State)
    requires Inv(s) && Enabled(s, Record)
    ensures Inv(Step(s, Record))
  {
    var a := s.phase.attempt;
    AnswersAsAsked(a.pre, a.request, a.env, a.response, a.post);
    OutcomeKeeps(s, WithOutcome(s.tables, a.id, Succeeded(a.response)), a);
  }

  lemma FewEntries(entries: seq<PendingEntry>, id: Id)
    requires entries != [] && Ids(entries) == {id}
    requires forall i, j :: 0 <= i < j < |entries| ==> entries[i].id != entries[j].id
    ensures |entries| == 1 && entries[0].id == id
  {
    assert entries[0].id in Ids(entries);
    assert entries[|entries| - 1].id in Ids(entries);
  }

  /** Reconciling an entry resolves it on the side of the commit that the book is on. */
  lemma ResolveKeeps(s: State, applied: bool)
    requires Inv(s) && Enabled(s, Resolve(applied))
    ensures Inv(Step(s, Resolve(applied)))
  {
    var todo := s.phase.todo;
    assert todo[0].id in Ids(todo);
    var a := s.last.value;
    assert Ids(todo) == {a.id};
    FewEntries(todo, a.id);
    UnresolvedAfter(s.tables, a.id);
    CommittedIsJudgedApplied(a.pre, a.request, a.env, a.response, a.post);
  }

  /** Every step that meets the hypotheses keeps the invariant. */
  lemma StepKeepsInv(s: State, l: Label)
    requires Inv(s) && Enabled(s, l) && Hypotheses(s, l)
    ensures Inv(Step(s, l))
  {
    match l
    case Call(id, r) => CallKeeps(s, id, r);
    case Apply(env, v) => ApplyKeeps(s, env, v);
    case CommitEdit => CommitEditKeeps(s);
    case Record => RecordKeeps(s);
    case Resolve(applied) => ResolveKeeps(s, applied);
    case Lookup(legible) => LookupKeeps(s, legible);
    case LoseOutcome =>
    case _ => PhaseKeeps(s, l);
  }

  lemma {:induction false} RunKeepsInv(s: State, ls: seq<Label>)
    requires Inv(s) && Legal(s, ls) && CanRun(s, ls)
    ensures Inv(Run(s, ls))
    decreases |ls|
  {
    if ls != [] {
      StepKeepsInv(s, ls[0]);
      RunKeepsInv(Step(s, ls[0]), ls[1..]);
    }
  }
}
