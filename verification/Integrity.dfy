/** Every commit keeps the book well formed. */
module Integrity {
  import opened Options
  import opened Books
  import opened Accounts
  import opened Transactions
  import opened Planning
  import opened Replacement
  import opened Handlers
  import opened Sequences

  /** The root account is where it was, and only its reconcile stamp may have changed. */
  ghost predicate RootKept(b: Book, post: Book) {
    && post.root == b.root && b.root in b.accounts && b.root in post.accounts
    && post.accounts[b.root] == b.accounts[b.root].(lastReconciled := post.accounts[b.root].lastReconciled)
  }

  /** Replacing the set of accounts by one that still holds every split's account keeps the
      transactions in order. */
  lemma AccountsChanged(b: Book, post: Book)
    requires WellFormed(b) && IsTree(post)
    requires post.transactions == b.transactions && post.commodities == b.commodities
    requires forall g :: g in b.accounts && HasSplits(b, g) ==> g in post.accounts
    ensures WellFormed(post)
  {
    forall t | t in post.transactions
      ensures TransactionOk(post, post.transactions[t])
    {
      assert TransactionOk(b, b.transactions[t]);
      forall s | s in post.transactions[t].splits
        ensures s.account in post.accounts
      {
        assert HasSplits(b, s.account);
      }
    }
  }

  lemma CreateKeeps(b: Book, s: AccountSpec, env: Env)
    requires WellFormed(b) && Fresh(b, CreateAccount(s), env)
    requires DoCreateAccount(Some(b), s, env).Ok?
    ensures var v := DoCreateAccount(Some(b), s, env).value;
            v.Commit? && WellFormed(v.post) && RootKept(b, v.post)
  {
    var post := DoCreateAccount(Some(b), s, env).value.post;
    AddLeafKeepsTree(b, env.entity, post.accounts[env.entity], s.parent.guid);
    AccountsChanged(b, post);
  }

  lemma UpdateKeeps(b: Book, s: AccountSpec)
    requires WellFormed(b) && DoUpdateAccount(Some(b), s).Ok?
    ensures var v := DoUpdateAccount(Some(b), s).value;
            v.Commit? && WellFormed(v.post) && RootKept(b, v.post)
  {
    var g, p := s.guid.guid, s.parent.guid;
    var post := DoUpdateAccount(Some(b), s).value.post;
    ReparentKeepsTree(b, g, post.accounts[g], p);
    AccountsChanged(b, post);
  }

  lemma DeleteKeeps(b: Book, guid: GuidText)
    requires WellFormed(b) && DoDeleteAccount(Some(b), guid).Ok?
    ensures var v := DoDeleteAccount(Some(b), guid).value;
            v.Commit? && WellFormed(v.post) && RootKept(b, v.post)
  {
    RemoveLeafKeepsTree(b, guid.guid);
    AccountsChanged(b, Accounts.Without(b, guid.guid));
  }

  lemma StampKeeps(b: Book, guid: GuidText, d: WireDate)
    requires WellFormed(b) && DoSetReconcileInfo(Some(b), guid, d).Ok?
    ensures var v := DoSetReconcileInfo(Some(b), guid, d).value;
            v.Commit? && WellFormed(v.post) && RootKept(b, v.post)
  {
    var post := Stamped(b, guid.guid, d.day);
    SameShapeTree(b, post);
    AccountsChanged(b, post);
  }

  /** Storing one transaction that is itself in order, under GUIDs no other transaction uses. */
  lemma TransactionPut(b: Book, g: Guid, t: Transaction, alloc: seq<Guid>)
    requires WellFormed(b) && TransactionOk(b, t)
    requires forall i :: 0 <= i < |alloc| ==> !SplitGuidUsed(b, alloc[i])
    requires forall s :: s in t.splits ==>
               s.guid in alloc || (g in b.transactions && s.guid in Guids(b.transactions[g].splits))
    ensures WellFormed(b.(transactions := b.transactions[g := t]))
  {
    var post := b.(transactions := b.transactions[g := t]);
    SameShapeTree(b, post);
    forall u, x | u in b.transactions && u != g && x in Guids(b.transactions[u].splits)
      ensures x !in Guids(t.splits)
    {
      forall i | 0 <= i < |t.splits|
        ensures t.splits[i].guid != x
      {
        assert t.splits[i] in t.splits;
        assert SplitGuidUsed(b, x);
      }
    }
    assert SplitsApart(post);
    forall u | u in post.transactions
      ensures TransactionOk(post, post.transactions[u])
    {
      assert u != g ==> TransactionOk(b, b.transactions[u]);
    }
  }

  /** Planning against a transaction of the book, or against none, and storing the result. */
  lemma PlannedKeeps(b: Book, g: Guid, s: TransactionSpec, was: Option<seq<Split>>, plan: TransactionPlan, env: Env)
    requires WellFormed(b) && |s.splits| <= |env.splits| && Distinct(env.splits)
    requires forall i :: 0 <= i < |env.splits| ==> !SplitGuidUsed(b, env.splits[i])
    requires was.Some? ==> g in b.transactions && was.value == b.transactions[g].splits
    requires Plan(b, s, Owned(was), env.now) == Ok(plan) && |plan.splits| <= |env.splits|
    ensures WellFormed(ApplyTo(b, g, Current(was), plan, env).post)
  {
    assert DistinctGuids(Current(was)) by {
      assert was.Some? ==> TransactionOk(b, b.transactions[g]);
    }
    assert FreshFor(was, env.splits) by {
      forall i | 0 <= i < |env.splits|
        ensures env.splits[i] !in Guids(Current(was))
      {
        assert !SplitGuidUsed(b, env.splits[i]);
      }
    }
    ReplacementBalances(b, s, was, env.now, env.splits, plan);
    var t := Stored(plan, Replace(Current(was), plan.splits, env.splits));
    PlanContents(b, s, Owned(was), env.now);
    assert TransactionOk(b, t);
    TransactionPut(b, g, t, env.splits);
  }

  lemma PostKeeps(b: Book, s: TransactionSpec, env: Env)
    requires WellFormed(b) && Fresh(b, PostTransaction(s), env)
    requires DoPostTransaction(Some(b), s, env).Ok?
    ensures var v := DoPostTransaction(Some(b), s, env).value;
            v.Commit? && WellFormed(v.post) && RootKept(b, v.post)
  {
    PlanLength(b.accounts.Keys, None, s.splits, |s.splits|);
    PlannedKeeps(b, env.entity, s, None, Plan(b, s, None, env.now).value, env);
  }

  lemma UpdateTransactionKeeps(b: Book, s: TransactionSpec, env: Env)
    requires WellFormed(b) && Fresh(b, UpdateTransaction(s), env)
    requires DoUpdateTransaction(Some(b), s, env).Ok?
    ensures var v := DoUpdateTransaction(Some(b), s, env).value;
            v.Commit? && WellFormed(v.post) && RootKept(b, v.post)
  {
    var g := s.guid.guid;
    var was := b.transactions[g].splits;
    PlanLength(b.accounts.Keys, Some(Guids(was)), s.splits, |s.splits|);
    PlannedKeeps(b, g, s, Some(was), Plan(b, s, Some(Guids(was)), env.now).value, env);
  }

  lemma RemovalKeeps(b: Book, g: Guid)
    requires WellFormed(b)
    ensures WellFormed(b.(transactions := b.transactions - {g}))
  {
    var post := b.(transactions := b.transactions - {g});
    SameShapeTree(b, post);
    forall t | t in post.transactions
      ensures TransactionOk(post, post.transactions[t])
    {
      assert TransactionOk(b, b.transactions[t]);
    }
  }

  lemma PriceKeeps(b: Book, prices: map<Guid, Price>)
    requires WellFormed(b)
    ensures WellFormed(b.(prices := prices))
  {
    var post := b.(prices := prices);
    SameShapeTree(b, post);
    forall t | t in post.transactions
      ensures TransactionOk(post, post.transactions[t])
    {
      assert TransactionOk(b, b.transactions[t]);
    }
  }

  /** Any of the eight calls, committed against a well-formed book, leaves a well-formed book
      under the same root. */
  lemma CommitKeepsIntegrity(b: Book, r: Request, env: Env)
    requires WellFormed(b) && Fresh(b, r, env)
    requires Execute(Some(b), r, env).Commit?
    ensures WellFormed(Execute(Some(b), r, env).post)
    ensures RootKept(b, Execute(Some(b), r, env).post)
  {
    match r
    case CreateAccount(s) => CreateKeeps(b, s, env);
    case UpdateAccount(s) => UpdateKeeps(b, s);
    case DeleteAccount(g) => DeleteKeeps(b, g);
    case SetReconcileInfo(g, d) => StampKeeps(b, g, d);
    case PostTransaction(s) => PostKeeps(b, s, env);
    case UpdateTransaction(s) => UpdateTransactionKeeps(b, s, env);
    case DeleteTransaction(g) => RemovalKeeps(b, g.guid);
    case AddPrice(s) => PriceKeeps(b, Execute(Some(b), r, env).post.prices);
  }

  /** The reconcile stamp that a call puts on the root, if it does. */
  function RootStamp(root: Guid, r: Request): Option<Seconds> {
    if r.SetReconcileInfo? && r.guid == Wire(root) && r.lastDate.Date? then Some(NeutralTime(r.lastDate.day)) else None
  }

  /** What a commit makes of the root account: its record, with the stamp if the call sets one. */
  lemma RootAfterCommit(b: Book, r: Request, env: Env)
    requires WellFormed(b) && Fresh(b, r, env)
    requires Execute(Some(b), r, env).Commit?
    ensures var post := Execute(Some(b), r, env).post;
            && post.root == b.root && b.root in b.accounts && b.root in post.accounts
            && post.accounts[b.root] ==
               b.accounts[b.root].(lastReconciled := if RootStamp(b.root, r).Some? then RootStamp(b.root, r)
                                                     else b.accounts[b.root].lastReconciled)
  {
    CommitKeepsIntegrity(b, r, env);
  }

  /** The root account is unmodified by a commit exactly if the call does not set its reconcile
      stamp to another instant. */
  lemma RootUnmodified(b: Book, r: Request, env: Env)
    requires WellFormed(b) && Fresh(b, r, env)
    requires Execute(Some(b), r, env).Commit?
    ensures var post := Execute(Some(b), r, env).post;
            && b.root in b.accounts && b.root in post.accounts
            && (post.accounts[b.root] == b.accounts[b.root] <==>
                RootStamp(b.root, r).None? || RootStamp(b.root, r) == b.accounts[b.root].lastReconciled)
  {
    RootAfterCommit(b, r, env);
  }

  /** A book with nothing but its root, and the call that stamps it. */
  lemma RootStampExample() returns (b: Book, r: Request, env: Env)
    ensures WellFormed(b) && Fresh(b, r, env) && Execute(Some(b), r, env).Commit?
    ensures var post := Execute(Some(b), r, env).post;
            && b.root in b.accounts && b.root in post.accounts && post.accounts[b.root] != b.accounts[b.root]
  {
    b := Book(1, map[1 := BLANK.(kind := Modelled(RootType))], map[], map[], map[]);
    r := SetReconcileInfo(Wire(1), Date(0));
    env := Env(2, [], 0);
    assert ReachesRoot(b, 1, 0);
    RootUnmodified(b, r, env);
  }
}
