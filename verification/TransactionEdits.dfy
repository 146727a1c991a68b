/** Posting and updating a transaction as the handlers run them on the engine's objects: plan,
    apply inside the open edit, take the view for the response, commit. */
module TransactionEdits {
  import opened Options
  import opened Errors
  import opened Books
  import opened Sequences
  import opened Transactions
  import opened Planning
  import opened Replacement
  import opened Handlers
  import opened Edits

  /** The plan's doomed splits are those it does not claim. */
  lemma DoomedUnclaimed(b: Book, s: TransactionSpec, was: Option<seq<Split>>, now: Seconds, plan: TransactionPlan)
    requires Plan(b, s, Owned(was), now) == Ok(plan)
    ensures |plan.splits| == |s.splits| && plan.doomed <= Guids(Current(was))
    ensures forall g :: g in Guids(Current(was)) ==> (g in plan.doomed <==> PlanFor(plan.splits, g).None?)
  {
    PlanContents(b, s, Owned(was), now);
    forall g | g in Guids(Current(was))
      ensures g in plan.doomed <==> PlanFor(plan.splits, g).None?
    {
      if was.Some? {
        assert g in plan.doomed + ClaimedBy(s.splits);
      }
      if g in ClaimedBy(s.splits) {
        var i :| 0 <= i < |s.splits| && s.splits[i].guid == Wire(g);
        assert plan.splits[i].existing == Some(g);
      }
    }
  }

  /** engine_splits: the transaction's splits by GUID. */
  method IndexSplits(t: EngineTransaction) returns (table: map<Guid, EngineSplit>)
    requires t.Valid()
    ensures t.Indexes(table)
  {
    table := map[];
    for k := 0 to |t.splits|
      invariant forall g :: g in table ==> table[g] in t.splits && table[g].guid == g
      invariant forall i :: 0 <= i < k ==> t.splits[i].guid in table && table[t.splits[i].guid] == t.splits[i]
    {
      table := table[t.splits[k].guid := t.splits[k]];
    }
  }

  /** What a transaction under edit shows is the stored transaction of a plan. */
  ghost predicate Edited(t: EngineTransaction, plan: TransactionPlan, was: seq<Split>, alloc: seq<Guid>)
    requires |plan.splits| <= |alloc|
    reads t, t.splits
  {
    t.Shown() == Stored(plan, Replace(was, plan.splits, alloc))
  }

  lemma TableGuids(t: EngineTransaction, table: map<Guid, EngineSplit>)
    requires t.Indexes(table)
    ensures table.Keys == Guids(Contents(t.splits))
  {
    var was := Contents(t.splits);
    assert forall i :: 0 <= i < |was| ==> was[i].guid == t.splits[i].guid;
    forall g | g in table
      ensures g in Guids(was)
    {
      var i :| 0 <= i < |t.splits| && t.splits[i] == table[g];
      assert was[i].guid == g;
    }
  }

  /** Plan and apply; a refusal leaves the transaction as it was. */
  method PlanAndApply(b: Book, t: EngineTransaction, s: TransactionSpec, existing: bool, env: Env)
    returns (r: Result<TransactionPlan, ShimError>)
    requires t.Valid() && (forall x :: x in t.splits ==> !x.destroying) && (!existing ==> t.splits == [])
    requires |s.splits| <= |env.splits| && FreshFor(Some(Contents(t.splits)), env.splits)
    modifies t, t.splits
    ensures r == Plan(b, s, if existing then Some(Guids(old(Contents(t.splits)))) else None, env.now)
    ensures r.Err? ==> t.Shown() == old(t.Shown()) && t.splits == old(t.splits) && forall x :: x in t.splits ==> !x.destroying
    ensures r.Ok? ==> |r.value.splits| <= |env.splits| && Edited(t, r.value, old(Contents(t.splits)), env.splits)
    ensures r.Ok? ==> DistinctGuids(t.Shown().splits)
    ensures forall x :: x in t.splits ==> x in old(t.splits) || fresh(x)
  {
    var table := IndexSplits(t);
    var was := if existing then Some(Contents(t.splits)) else None;
    r := PlanTransaction(b, s, was, env.now);
    if r.Ok? {
      assert Current(was) == Contents(t.splits);
      DoomedUnclaimed(b, s, was, env.now, r.value);
      PlanApplies(b, s, was, env.now, env.splits, r.value);
      TableGuids(t, table);
      ReplaceDistinct(Contents(t.splits), r.value.splits, env.splits);
      t.ApplyPlan(r.value, table, env.splits);
    }
  }

  /** TransactionToProto over the engine's objects: splits queued for destruction are skipped,
      so inside the edit it shows what the commit will leave. */
  method ViewOf(g: Guid, t: EngineTransaction) returns (view: TransactionView)
    ensures view == TransactionToProto(g, t.Shown())
  {
    var splits: seq<SplitView> := [];
    for k := 0 to |t.splits|
      invariant splits == SplitsToProto(Live(t.splits[..k]))
    {
      assert t.splits[..k + 1][..k] == t.splits[..k];
      if !t.splits[k].destroying {
        splits := splits + [SplitToProto(t.splits[k].Content())];
      }
    }
    assert t.splits[..|t.splits|] == t.splits;
    view := TransactionView(g, t.currency, t.postDate, t.enterTime, t.num, t.description, splits);
  }

  /** A handler's run on the transaction with this GUID amounts to its specification: refused
      with nothing changed, or answered with the view of what is then committed. */
  ghost predicate Runs(spec: Result<Verdict, ShimError>, g: Guid, r: Result<Response, ShimError>, before: Transaction, after: Transaction) {
    match spec
    case Err(e) => r == Err(e) && after == before
    case Ok(Reject(_)) => false
    case Ok(Commit(response, post)) => r == Ok(response) && g in post.transactions && after == post.transactions[g]
  }

  ghost predicate Quiet(t: EngineTransaction)
    reads t, t.splits
  {
    t.Valid() && forall x :: x in t.splits ==> !x.destroying
  }

  /** The response is built before the commit, and holds after it. */
  method Finish(g: Guid, t: EngineTransaction) returns (r: Result<Response, ShimError>)
    requires DistinctGuids(t.Shown().splits)
    modifies t`splits
    ensures Quiet(t) && t.Shown() == old(t.Shown())
    ensures r == Ok(TransactionReply(TransactionToProto(g, t.Shown())))
    ensures forall x :: x in t.splits ==> x in old(t.splits)
  {
    var view := ViewOf(g, t);
    t.CommitEdit();
    assert forall i :: 0 <= i < |t.splits| ==> Contents(t.splits)[i].guid == t.splits[i].guid;
    return Ok(TransactionReply(view));
  }

  /** The update of a transaction that has been found. */
  method UpdateFound(b: Book, g: Guid, t: EngineTransaction, s: TransactionSpec, env: Env)
    returns (r: Result<Response, ShimError>)
    requires g in b.transactions && s.guid == Wire(g)
    requires Quiet(t) && t.Shown() == b.transactions[g]
    requires |s.splits| <= |env.splits| && FreshFor(Some(b.transactions[g].splits), env.splits)
    modifies t, t.splits
    ensures Runs(DoUpdateTransaction(Some(b), s, env), g, r, old(t.Shown()), t.Shown())
    ensures Quiet(t) && forall x :: x in t.splits ==> x in old(t.splits) || fresh(x)
  {
    AllLive(t.splits);
    var planned := PlanAndApply(b, t, s, true, env);
    if planned.Err? {
      return Err(planned.error);
    }
    r := Finish(g, t);
  }

  /** Planned and applied to a transaction just made. */
  method PostInto(b: Book, t: EngineTransaction, s: TransactionSpec, env: Env)
    returns (r: Result<Response, ShimError>)
    requires s.guid.NoGuid? && t.splits == []
    requires |s.splits| <= |env.splits| && Distinct(env.splits)
    modifies t
    ensures Runs(DoPostTransaction(Some(b), s, env), env.entity, r, old(t.Shown()), t.Shown())
    ensures r.Ok? ==> Quiet(t) && forall x :: x in t.splits ==> fresh(x)
  {
    var planned := PlanAndApply(b, t, s, false, env);
    if planned.Err? {
      return Err(planned.error);
    }
    r := Finish(env.entity, t);
  }

  /** What a handler's run must amount to for all transactions at once: the refusal with nothing
      changed, or the response with the transactions that are committed. */
  ghost predicate Does(spec: Result<Verdict, ShimError>, r: Result<Response, ShimError>,
                       before: map<Guid, Transaction>, after: map<Guid, Transaction>) {
    match spec
    case Err(e) => r == Err(e) && after == before
    case Ok(Reject(_)) => false
    case Ok(Commit(response, post)) => r == Ok(response) && after == post.transactions
  }

  /** The engine's transactions. Each split object has one owner. */
  class EngineTransactions {
    var transactions: map<Guid, EngineTransaction>
    ghost var owner: map<EngineSplit, Guid>

    constructor ()
      ensures transactions == map[] && owner == map[] && Valid()
    {
      transactions, owner := map[], map[];
    }

    ghost predicate Valid()
      reads this, transactions.Values, owner.Keys
    {
      forall g :: g in transactions ==> Owns(g, transactions[g]) && Quiet(transactions[g])
    }

    ghost predicate Owns(g: Guid, t: EngineTransaction)
      reads this, t
    {
      t.guid == g && forall x :: x in t.splits ==> x in owner && owner[x] == g
    }

    ghost function Shown(): map<Guid, Transaction>
      requires Valid()
      reads this, transactions.Values, owner.Keys
    {
      map g | g in transactions :: transactions[g].Shown()
    }

    twostate lemma {:induction false} LiveKept(splits: seq<EngineSplit>)
      requires forall i :: 0 <= i < |splits| ==> unchanged(splits[i])
      ensures Live(splits) == old(Live(splits))
    {
      if splits != [] {
        var front := splits[..|splits| - 1];
        assert forall i :: 0 <= i < |front| ==> front[i] == splits[i];
        LiveKept(front);
        assert unchanged(splits[|splits| - 1]);
      }
    }

    /** Editing one of them leaves the others alone. */
    twostate lemma OthersKept(g: Guid)
      requires old(Valid()) && transactions == old(transactions) && g in transactions
      requires forall h :: h in transactions && h != g ==> unchanged(transactions[h])
      requires forall x :: x in old(owner) && x !in old(transactions[g].splits) ==> unchanged(x)
      requires Quiet(transactions[g])
      requires owner == old(owner) + map x | x in transactions[g].splits :: g
      requires forall x :: x in transactions[g].splits ==> x in old(transactions[g].splits) || fresh(x)
      ensures Valid() && Shown() == old(Shown())[g := transactions[g].Shown()]
    {
      forall h | h in transactions && h != g
        ensures Owns(h, transactions[h]) && Quiet(transactions[h]) && transactions[h].Shown() == old(transactions[h].Shown())
      {
        assert old(Owns(h, transactions[h]) && Owns(g, transactions[g]) && Quiet(transactions[h]));
        forall i | 0 <= i < |transactions[h].splits|
          ensures unchanged(transactions[h].splits[i])
        {
          assert transactions[h].splits[i] in transactions[h].splits;
        }
        LiveKept(transactions[h].splits);
      }
    }

    method UpdateOne(b: Book, g: Guid, s: TransactionSpec, env: Env) returns (r: Result<Response, ShimError>)
      requires Valid() && g in transactions && g in b.transactions && transactions[g].Shown() == b.transactions[g]
      requires s.guid == Wire(g)
      requires |s.splits| <= |env.splits| && FreshFor(Some(b.transactions[g].splits), env.splits)
      modifies this`owner, transactions[g], transactions[g].splits
      ensures Valid() && Shown() == old(Shown())[g := transactions[g].Shown()]
      ensures Runs(DoUpdateTransaction(Some(b), s, env), g, r, b.transactions[g], transactions[g].Shown())
    {
      assert forall h :: h in transactions ==> Owns(h, transactions[h]);
      r := UpdateFound(b, g, transactions[g], s, env);
      owner := owner + map x | x in transactions[g].splits :: g;
      OthersKept(g);
    }

    /** From one transaction to all of them. */
    lemma RunsMeansDoes(b: Book, g: Guid, s: TransactionSpec, env: Env, r: Result<Response, ShimError>,
                        after: map<Guid, Transaction>)
      requires |s.splits| <= |env.splits| && s.guid == Wire(g) && g in b.transactions && g in after
      requires Runs(DoUpdateTransaction(Some(b), s, env), g, r, b.transactions[g], after[g])
      requires after == b.transactions[g := after[g]]
      ensures Does(DoUpdateTransaction(Some(b), s, env), r, b.transactions, after)
    {
    }

    method UpdateKnown(b: Book, g: Guid, s: TransactionSpec, env: Env) returns (r: Result<Response, ShimError>)
      requires Valid() && Shown() == b.transactions && g in b.transactions && s.guid == Wire(g)
      requires |s.splits| <= |env.splits| && FreshFor(Some(b.transactions[g].splits), env.splits)
      modifies this`owner, transactions.Values, owner.Keys
      ensures Valid()
      ensures Does(DoUpdateTransaction(Some(b), s, env), r, b.transactions, Shown())
    {
      assert g in Shown() && Shown()[g] == b.transactions[g];
      assert Owns(g, transactions[g]);
      r := UpdateOne(b, g, s, env);
      RunsMeansDoes(b, g, s, env, r, Shown());
    }

    lemma FreshForOne(b: Book, g: Guid, alloc: seq<Guid>)
      requires g in b.transactions && Distinct(alloc)
      requires forall i :: 0 <= i < |alloc| ==> !SplitGuidUsed(b, alloc[i])
      ensures FreshFor(Some(b.transactions[g].splits), alloc)
    {
    }

    /** The handler, from the checks of the GUID on. */
    method UpdateTransaction(b: Book, s: TransactionSpec, env: Env) returns (r: Result<Response, ShimError>)
      requires Valid() && Shown() == b.transactions && Fresh(b, Request.UpdateTransaction(s), env)
      modifies this`owner, transactions.Values, owner.Keys
      ensures Valid()
      ensures Does(DoUpdateTransaction(Some(b), s, env), r, b.transactions, Shown())
    {
      if s.guid.NoGuid? {
        return Err(Invalid(GuidRequired, Field("transaction.guid")));
      }
      var g :- FindTransaction(b, s.guid, Field("transaction.guid"));
      FreshForOne(b, g, env.splits);
      r := UpdateKnown(b, g, s, env);
    }

    /** The splits of a new transaction are nobody else's. */
    method Register(t: EngineTransaction)
      requires Valid() && forall x :: x in t.splits ==> x !in owner
      modifies this`owner
      ensures Valid() && Shown() == old(Shown()) && Owns(t.guid, t)
    {
      assert forall h :: h in transactions ==> Owns(h, transactions[h]);
      owner := owner + map x | x in t.splits :: t.guid;
    }

    /** A new transaction joins the others. */
    method Adopt(t: EngineTransaction)
      requires Valid() && t.guid !in transactions && Quiet(t) && Owns(t.guid, t)
      modifies this`transactions
      ensures Valid() && Shown() == old(Shown())[t.guid := t.Shown()]
    {
      ghost var was, others := Shown(), transactions;
      assert forall h :: h in others ==> Owns(h, others[h]) && Quiet(others[h]);
      transactions := transactions[t.guid := t];
      assert Valid() by {
        forall h | h in transactions
          ensures Owns(h, transactions[h]) && Quiet(transactions[h])
        {
          assert h != t.guid ==> h in others && transactions[h] == others[h];
        }
      }
      forall h | h in transactions
        ensures transactions[h].Shown() == was[t.guid := t.Shown()][h]
      {
        assert h != t.guid ==> h in others && transactions[h] == others[h];
      }
    }

    method Join(t: EngineTransaction)
      requires Valid() && t.guid !in transactions && Quiet(t)
      requires forall x :: x in t.splits ==> x !in owner
      modifies this
      ensures Valid() && Shown() == old(Shown())[t.guid := t.Shown()]
    {
      Register(t);
      Adopt(t);
    }

    method Remove(g: Guid)
      requires Valid()
      modifies this`transactions
      ensures Valid() && Shown() == old(Shown()) - {g}
    {
      assert forall h :: h in transactions ==> Owns(h, transactions[h]);
      transactions := transactions - {g};
    }

    lemma ShowsPosted(b: Book, s: TransactionSpec, env: Env, r: Result<Response, ShimError>, t: Transaction)
      requires |s.splits| <= |env.splits|
      requires Runs(DoPostTransaction(Some(b), s, env), env.entity, r, t, t) && r.Ok?
      ensures Does(DoPostTransaction(Some(b), s, env), r, b.transactions, b.transactions[env.entity := t])
    {
    }

    method PostNew(b: Book, s: TransactionSpec, env: Env) returns (r: Result<Response, ShimError>)
      requires Valid() && Shown() == b.transactions && env.entity !in transactions && s.guid.NoGuid?
      requires |s.splits| <= |env.splits| && Distinct(env.splits)
      modifies this
      ensures Valid()
      ensures Does(DoPostTransaction(Some(b), s, env), r, b.transactions, Shown())
    {
      var t := new EngineTransaction(env.entity);
      r := PostInto(b, t, s, env);
      assert Valid() && Shown() == b.transactions;
      if r.Ok? {
        Join(t);
        ShowsPosted(b, s, env, r, t.Shown());
      }
    }

    method PostTransaction(b: Book, s: TransactionSpec, env: Env) returns (r: Result<Response, ShimError>)
      requires Valid() && Shown() == b.transactions && Fresh(b, Request.PostTransaction(s), env)
      modifies this
      ensures Valid()
      ensures Does(DoPostTransaction(Some(b), s, env), r, b.transactions, Shown())
    {
      if !s.guid.NoGuid? {
        return Err(Invalid(GuidMustBeEmpty, Field("transaction.guid")));
      }
      assert env.entity !in Shown();
      r := PostNew(b, s, env);
    }

    method DeleteTransaction(b: Book, guid: GuidText) returns (r: Result<Response, ShimError>)
      requires Valid() && Shown() == b.transactions
      modifies this`transactions
      ensures Valid()
      ensures Does(DoDeleteTransaction(Some(b), guid), r, b.transactions, Shown())
    {
      var g :- FindTransaction(b, guid, Field("guid"));
      Remove(g);
      return Ok(EmptyReply);
    }
  }
}
