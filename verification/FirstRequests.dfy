/** Whose request an id's one act carries: the one that its intent row was first journaled with. */
module FirstRequests {
  import opened Options
  import opened Books
  import opened Handlers
  import opened Journals
  import opened Protocol
  import opened Refinement

  /** The id has been journaled, first with this request. */
  predicate FirstIs(s: State, id: Id, r: Request) {
    id in s.tables.intents && s.tables.intents[id].request == r
  }

  lemma FirstIsKept(s: State, l: Label, id: Id)
    requires Enabled(s, l) && id in s.tables.intents
    ensures FirstIs(Step(s, l), id, s.tables.intents[id].request)
  {
  }

  lemma {:induction false} FirstIsPermanent(s: State, ls: seq<Label>, id: Id)
    requires CanRun(s, ls) && id in s.tables.intents
    ensures FirstIs(Run(s, ls), id, s.tables.intents[id].request)
    decreases |ls|
  {
    if ls != [] {
      FirstIsKept(s, ls[0], id);
      FirstIsPermanent(Step(s, ls[0]), ls[1..], id);
    }
  }

  lemma ActIsOfFirst(s: State, l: Label)
    requires Inv(s) && Enabled(s, l) && ActOf(s, l).Do?
    ensures FirstIs(s, ActOf(s, l).id, ActOf(s, l).request)
  {
    if l.CommitEdit? {
      assert s.phase.attempt.id in Unresolved(s.tables);
    }
  }

  lemma FirstActIsOfFirst(s: State, ls: seq<Label>)
    requires Inv(s) && CanRun(s, ls) && ls != [] && ActOf(s, ls[0]).Do?
    ensures FirstIs(Run(s, ls), ActOf(s, ls[0]).id, ActOf(s, ls[0]).request)
  {
    var act := ActOf(s, ls[0]);
    ActIsOfFirst(s, ls[0]);
    FirstIsKept(s, ls[0], act.id);
    FirstIsPermanent(Step(s, ls[0]), ls[1..], act.id);
  }

  lemma LaterAct(s: State, ls: seq<Label>, k: nat)
    requires CanRun(s, ls) && 0 < k < |Linearization(s, ls)|
    ensures Run(s, ls) == Run(Step(s, ls[0]), ls[1..])
    ensures k - 1 < |Linearization(Step(s, ls[0]), ls[1..])|
    ensures Linearization(s, ls)[k] == Linearization(Step(s, ls[0]), ls[1..])[k - 1]
  {
  }

  /** Every act of a run carries the first request of its id. */
  lemma {:induction false} ActsAreOfFirst(s: State, ls: seq<Label>, k: nat)
    requires Inv(s) && Legal(s, ls) && CanRun(s, ls)
    requires k < |Linearization(s, ls)| && Linearization(s, ls)[k].Do?
    ensures FirstIs(Run(s, ls), Linearization(s, ls)[k].id, Linearization(s, ls)[k].request)
    decreases |ls|
  {
    if k == 0 {
      FirstActIsOfFirst(s, ls);
    } else {
      LaterAct(s, ls, k);
      StepKeepsInv(s, ls[0]);
      ActsAreOfFirst(Step(s, ls[0]), ls[1..], k - 1);
    }
  }

  /** All calls under the id carry the same request. */
  ghost predicate OnlyCall(ls: seq<Label>, id: Id, r: Request) {
    forall k :: 0 <= k < |ls| && ls[k].Call? && ls[k].id == id ==> ls[k].request == r
  }

  /** Whatever the state knows of the id comes with this request. */
  ghost predicate Carries(s: State, id: Id, r: Request) {
    && (id in s.tables.intents ==> FirstIs(s, id, r))
    && (s.phase.Intended? && s.phase.id == id ==> s.phase.request == r)
    && (s.phase.Applying? && s.phase.id == id ==> s.phase.request == r)
    && (s.phase.Pended? && s.phase.attempt.id == id ==> s.phase.attempt.request == r)
    && (s.phase.Committed? && s.phase.attempt.id == id ==> s.phase.attempt.request == r)
    && (forall k :: 0 <= k < |s.acks| && s.acks[k].id == id ==> s.acks[k].request == r)
  }

  lemma CarriesAcknowledged(s: State, s': State, id: Id, r: Request, ack: Ack)
    requires Carries(s, id, r) && (ack.id == id ==> ack.request == r)
    requires s'.acks == s.acks + [ack] && s'.phase.Idle?
    requires s'.tables.intents == s.tables.intents
    ensures Carries(s', id, r)
  {
  }

  lemma CarriesReplied(s: State, l: Label, id: Id, r: Request)
    requires Carries(s, id, r) && Enabled(s, l) && (l.Lookup? || l.Apply? || l.Record? || l.LoseOutcome?)
    ensures Carries(Step(s, l), id, r)
  {
    var s' := Step(s, l);
    if s'.acks != s.acks {
      CarriesAcknowledged(s, s', id, r, s'.acks[|s.acks|]);
    }
  }

  lemma CarriesKept(s: State, l: Label, id: Id, r: Request)
    requires Carries(s, id, r) && Enabled(s, l) && (l.Call? && l.id == id ==> l.request == r)
    ensures Carries(Step(s, l), id, r)
  {
    if l.Lookup? || l.Apply? || l.Record? || l.LoseOutcome? {
      CarriesReplied(s, l, id, r);
    }
  }

  /** An id that is never reused for another request is first journaled and always acknowledged
      with that request. */
  lemma {:induction false} NeverReused(s: State, ls: seq<Label>, id: Id, r: Request)
    requires CanRun(s, ls) && Carries(s, id, r) && OnlyCall(ls, id, r)
    ensures Carries(Run(s, ls), id, r)
    decreases |ls|
  {
    if ls != [] {
      assert ls[0].Call? && ls[0].id == id ==> ls[0].request == r;
      CarriesKept(s, ls[0], id, r);
      assert forall k :: 0 <= k < |ls[1..]| ==> ls[1..][k] == ls[k + 1];
      NeverReused(Step(s, ls[0]), ls[1..], id, r);
    }
  }

  /** A handler answers with its call's response type. */
  lemma AnswerHasShape(book: Option<Book>, r: Request, env: Env)
    requires SplitCount(r) <= |env.splits|
    ensures OwnType(r, OutcomeOf(Execute(book, r, env)))
  {
  }

  /** The outcome is a failure, or a response of the type that r asks for. */
  predicate OwnType(r: Request, o: Outcome) {
    o.Succeeded? ==> ShapeOf(o.response) == Asked(r)
  }

  lemma ToldOwnType(r: Request, o: Outcome)
    ensures Told(r, o) == o <==> OwnType(r, o)
    ensures o.Succeeded? ==> Told(r, o).Succeeded? && ShapeOf(Told(r, o).response) == Asked(r)
  {
  }
}
