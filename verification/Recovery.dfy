/** Deciding from the book whether a pending mutation's engine commit reached it. */
module Recovery {
  import opened Options
  import opened Errors
  import opened Books
  import opened Accounts
  import opened Transactions
  import opened Replacement
  import opened Handlers

  /** None stands for a record that does not fit its call; it counts as not applied. Deletions
      are judged by their request, and their record is not looked at. */
  function WasApplied(b: Book, r: Request, pending: Response): Option<bool> {
    match (r, pending)
    case (CreateAccount(_), AccountReply(v)) => Some(v.guid in b.accounts)
    case (UpdateAccount(_), AccountReply(v)) =>
      if v.guid !in b.accounts then None
      else Some(AccountToProto(v.guid, b.accounts[v.guid]) == v)
    case (DeleteAccount(g), _) => Some(!(g.Wire? && g.guid in b.accounts))
    case (SetReconcileInfo(_, _), ReconcileReply(v)) =>
      if v.account !in b.accounts then None
      else Some(ReconcileInfoToProto(b, v.account) == v)
    case (PostTransaction(_), TransactionReply(v)) => Some(v.guid in b.transactions)
    case (UpdateTransaction(_), TransactionReply(v)) =>
      if v.guid !in b.transactions then None
      else Some(TransactionToProto(v.guid, b.transactions[v.guid]) == v)
    case (DeleteTransaction(g), _) => Some(!(g.Wire? && g.guid in b.transactions))
    case (AddPrice(_), PriceReply(v)) => Some(v.guid in b.prices)
    case _ => None
  }

  /** The verdict that reconciliation acts on. */
  function JudgedApplied(b: Book, r: Request, pending: Response): bool {
    WasApplied(b, r, pending) == Some(true)
  }

  // ---- views determine what a full replacement writes

  /** A split whose reconcile flag is one the contract can name. */
  predicate Nameable(s: Split) {
    ReconcileStateToProto(s.reconcile) != UnspecifiedState
  }

  lemma SplitViewInjective(a: Split, c: Split)
    requires Nameable(c) && SplitToProto(a) == SplitToProto(c)
    ensures a == c
  {
  }

  lemma TransactionViewInjective(g: Guid, a: Transaction, c: Transaction)
    requires forall s :: s in c.splits ==> Nameable(s)
    requires TransactionToProto(g, a) == TransactionToProto(g, c)
    ensures a == c
  {
    assert |a.splits| == |SplitsToProto(a.splits)| == |SplitsToProto(c.splits)| == |c.splits|;
    forall i | 0 <= i < |a.splits|
      ensures a.splits[i] == c.splits[i]
    {
      assert SplitsToProto(a.splits)[i] == SplitsToProto(c.splits)[i];
      assert c.splits[i] in c.splits;
      SplitViewInjective(a.splits[i], c.splits[i]);
    }
  }

  lemma PlannedStateNameable(state: ReconcileState)
    ensures PlannedState(state).Some? ==> ReconcileStateToProto(PlannedState(state).value) != UnspecifiedState
  {
  }

  lemma {:induction false} PlansNameable(known: set<Guid>, owned: Option<set<Guid>>, specs: seq<SplitSpec>, n: nat)
    requires n <= |specs| && PlanSplits(known, owned, specs, n).Ok?
    ensures forall p :: p in PlanSplits(known, owned, specs, n).value.plans ==>
              ReconcileStateToProto(p.reconcile) != UnspecifiedState
  {
    if n > 0 {
      PlansNameable(known, owned, specs, n - 1);
      PlannedStateNameable(specs[n - 1].state);
    }
  }

  lemma {:induction false} UpdatedNameable(was: seq<Split>, plans: seq<SplitPlan>)
    requires forall p :: p in plans ==> ReconcileStateToProto(p.reconcile) != UnspecifiedState
    ensures forall s :: s in Updated(was, plans) ==> Nameable(s)
  {
    if was != [] {
      UpdatedNameable(was[..|was| - 1], plans);
    }
  }

  lemma {:induction false} AddedNameable(plans: seq<SplitPlan>, alloc: seq<Guid>)
    requires |plans| <= |alloc|
    requires forall p :: p in plans ==> ReconcileStateToProto(p.reconcile) != UnspecifiedState
    ensures forall s :: s in Added(plans, alloc) ==> Nameable(s)
  {
    if plans != [] {
      AddedNameable(plans[..|plans| - 1], alloc);
      assert plans[|plans| - 1] in plans;
    }
  }

  lemma PlannedNameable(b: Book, s: TransactionSpec, owned: Option<set<Guid>>, was: seq<Split>, env: Env, plan: TransactionPlan)
    requires Plan(b, s, owned, env.now) == Ok(plan) && |plan.splits| <= |env.splits|
    ensures forall x :: x in Replace(was, plan.splits, env.splits) ==> Nameable(x)
  {
    PlansNameable(b.accounts.Keys, owned, s.splits, |s.splits|);
    UpdatedNameable(was, plan.splits);
    AddedNameable(plan.splits, env.splits);
  }

  /** An account record that a call may write is determined by its view and its stamp. */
  lemma AccountViewInjective(g: Guid, a: Account, c: Account)
    requires c.kind.Modelled? && c.kind.kind != UnspecifiedType
    requires AccountToProto(g, a) == AccountToProto(g, c) && a.lastReconciled == c.lastReconciled
    ensures a == c
  {
  }

  // ---- the verdict is exact

  /** What one execution that got as far as its pending record amounts to. */
  ghost predicate Executed(pre: Book, r: Request, env: Env, response: Response, post: Book) {
    SplitCount(r) <= |env.splits| && Fresh(pre, r, env) && Execute(Some(pre), r, env) == Commit(response, post)
  }

  lemma StampView(b: Book, g: Guid, day: Day)
    requires g in b.accounts
    ensures ReconcileInfoToProto(b, g) == ReconcileInfoToProto(Stamped(b, g, day), g) ==>
              Observe(b) == Observe(Stamped(b, g, day))
  {
    if ReconcileInfoToProto(b, g) == ReconcileInfoToProto(Stamped(b, g, day), g) {
      var post := Stamped(b, g, day);
      assert forall x :: x in b.accounts ==> ObserveAccount(b.accounts[x]) == ObserveAccount(post.accounts[x]);
      assert Observe(b).accounts == Observe(post).accounts;
    }
  }

  /** Against the committed book the verdict is always that the call was applied. */
  lemma CommittedIsJudgedApplied(pre: Book, r: Request, env: Env, response: Response, post: Book)
    requires Executed(pre, r, env, response, post)
    ensures JudgedApplied(post, r, response)
  {
  }

  /** On any book a deletion is judged applied exactly if nothing there has the GUID it names, and
      a creation exactly if its record is of the right type and what that names is there. */
  lemma PresenceDecides(b: Book, r: Request, pending: Response)
    ensures r.DeleteAccount? ==> (JudgedApplied(b, r, pending) <==> forall g :: g in b.accounts ==> r.guid != Wire(g))
    ensures r.DeleteTransaction? ==> (JudgedApplied(b, r, pending) <==> forall g :: g in b.transactions ==> r.guid != Wire(g))
    ensures r.CreateAccount? ==> (JudgedApplied(b, r, pending) <==> pending.AccountReply? && pending.account.guid in b.accounts)
    ensures r.PostTransaction? ==>
              (JudgedApplied(b, r, pending) <==> pending.TransactionReply? && pending.transaction.guid in b.transactions)
    ensures r.AddPrice? ==> (JudgedApplied(b, r, pending) <==> pending.PriceReply? && pending.price.guid in b.prices)
  {
    if (r.DeleteAccount? || r.DeleteTransaction?) && r.guid.Wire? {
      assert forall g :: r.guid == Wire(g) ==> g == r.guid.guid;
    }
  }

  lemma ViewsAreObservable(b: Book, c: Book, g: Guid)
    requires Observe(b) == Observe(c)
    ensures g in b.accounts <==> g in c.accounts
    ensures g in b.accounts ==> AccountToProto(g, b.accounts[g]) == AccountToProto(g, c.accounts[g])
    ensures g in b.accounts ==> ReconcileInfoToProto(b, g) == ReconcileInfoToProto(c, g)
  {
    assert g in b.accounts <==> g in Observe(b).accounts;
    assert g in c.accounts <==> g in Observe(c).accounts;
    if g in b.accounts {
      assert ObserveAccount(b.accounts[g]) == Observe(b).accounts[g] == ObserveAccount(c.accounts[g]);
    }
  }

  /** Two books that look alike get the same verdict. */
  lemma VerdictIsObservable(b: Book, c: Book, r: Request, response: Response)
    requires Observe(b) == Observe(c)
    ensures WasApplied(b, r, response) == WasApplied(c, r, response)
  {
    if r.DeleteAccount? && r.guid.Wire? {
      ViewsAreObservable(b, c, r.guid.guid);
    } else if response.AccountReply? {
      ViewsAreObservable(b, c, response.account.guid);
    } else if response.ReconcileReply? {
      ViewsAreObservable(b, c, response.info.account);
    }
  }

  lemma AppliedMeansUnchanged(pre: Book, r: Request, env: Env, response: Response, post: Book)
    requires Executed(pre, r, env, response, post) && JudgedApplied(pre, r, response)
    ensures Observe(pre) == Observe(post)
    ensures !r.SetReconcileInfo? ==> pre == post
  {
    match r
    case UpdateAccount(s) => {
      var g := s.guid.guid;
      AccountViewInjective(g, pre.accounts[g], post.accounts[g]);
      assert pre.accounts == post.accounts;
    }
    case SetReconcileInfo(g, d) => StampView(pre, g.guid, d.day);
    case UpdateTransaction(s) => {
      var g := s.guid.guid;
      var was := pre.transactions[g].splits;
      var plan := Plan(pre, s, Some(Guids(was)), env.now).value;
      PlanLength(pre.accounts.Keys, Some(Guids(was)), s.splits, |s.splits|);
      PlannedNameable(pre, s, Some(Guids(was)), was, env, plan);
      TransactionViewInjective(g, pre.transactions[g], post.transactions[g]);
      assert pre.transactions == post.transactions;
    }
    case _ =>
  }

  /** Against the book before the commit the verdict is that the call was applied exactly if
      the commit would not change anything the contract can observe. */
  lemma UncommittedIsJudgedUnapplied(pre: Book, r: Request, env: Env, response: Response, post: Book)
    requires Executed(pre, r, env, response, post)
    ensures JudgedApplied(pre, r, response) <==> Observe(pre) == Observe(post)
    ensures JudgedApplied(pre, r, response) && !r.SetReconcileInfo? ==> pre == post
  {
    if JudgedApplied(pre, r, response) {
      AppliedMeansUnchanged(pre, r, env, response, post);
    } else if Observe(pre) == Observe(post) {
      CommittedIsJudgedApplied(pre, r, env, response, post);
      VerdictIsObservable(pre, post, r, response);
    }
  }

  /** The account already carries a stamp on the requested day, but at another time of day
      than the one this daemon writes, as a desktop session may have left it. */
  predicate StampHidden(b: Book, r: Request) {
    && r.SetReconcileInfo? && r.guid.Wire? && r.lastDate.Date?
    && r.guid.guid in b.accounts
    && b.accounts[r.guid.guid].lastReconciled.Some?
    && DayOf(b.accounts[r.guid.guid].lastReconciled.value) == r.lastDate.day
    && b.accounts[r.guid.guid].lastReconciled.value != NeutralTime(r.lastDate.day)
  }

  /** A true verdict means the stored book is exactly the committed one, except for the one
      call whose view hides the time of day of a stamp that is already there. */
  lemma VerdictIsStrict(pre: Book, r: Request, env: Env, response: Response, post: Book)
    requires Executed(pre, r, env, response, post)
    ensures (JudgedApplied(pre, r, response) ==> pre == post) <==> !StampHidden(pre, r)
  {
    UncommittedIsJudgedUnapplied(pre, r, env, response, post);
    if r.SetReconcileInfo? {
      var g, day := r.guid.guid, r.lastDate.day;
      if StampHidden(pre, r) {
        assert pre.accounts[g] != post.accounts[g];
        assert ReconcileInfoToProto(pre, g) == ReconcileInfoToProto(post, g);
      } else if JudgedApplied(pre, r, response) {
        assert pre.accounts[g].lastReconciled == post.accounts[g].lastReconciled;
        assert pre.accounts == post.accounts;
      }
    }
  }

  /** Such a book exists: reconciled to the last second of day 0, and asked for day 0 again. */
  lemma StampHiddenExample() returns (pre: Book, r: Request, env: Env, response: Response, post: Book)
    ensures Executed(pre, r, env, response, post)
    ensures JudgedApplied(pre, r, response) && pre != post && Observe(pre) == Observe(post)
  {
    var root := BLANK.(kind := Modelled(RootType), lastReconciled := Some(86399));
    pre := Book(1, map[1 := root], map[], map[], map[]);
    r := SetReconcileInfo(Wire(1), Date(0));
    env := Env(2, [], 0);
    post := Stamped(pre, 1, 0);
    response := ReconcileReply(ReconcileInfoToProto(post, 1));
    assert Fresh(pre, r, env);
    assert Execute(Some(pre), r, env) == Commit(response, post);
    VerdictIsStrict(pre, r, env, response, post);
    UncommittedIsJudgedUnapplied(pre, r, env, response, post);
    assert StampHidden(pre, r);
  }

  // ---- the observable book is a book of its own

  /** The same account, but for the time of day of its reconcile stamp. */
  predicate SameButTime(a: Account, c: Account) {
    && c == a.(lastReconciled := c.lastReconciled)
    && (a.lastReconciled.Some? <==> c.lastReconciled.Some?)
    && (a.lastReconciled.Some? ==> DayOf(a.lastReconciled.value) == DayOf(c.lastReconciled.value))
  }

  lemma AccountsLookAlike(a: Account, c: Account)
    ensures ObserveAccount(a) == ObserveAccount(c) <==> SameButTime(a, c)
  {
  }

  ghost predicate SameButTimes(b: Book, c: Book) {
    && b.root == c.root && b.transactions == c.transactions && b.prices == c.prices && b.commodities == c.commodities
    && b.accounts.Keys == c.accounts.Keys
    && forall g :: g in b.accounts ==> SameButTime(b.accounts[g], c.accounts[g])
  }

  lemma AlikeMeansSame(b: Book, c: Book)
    requires Observe(b) == Observe(c)
    ensures SameButTimes(b, c)
  {
    assert b.accounts.Keys == Observe(b).accounts.Keys == Observe(c).accounts.Keys == c.accounts.Keys;
    forall g | g in b.accounts
      ensures SameButTime(b.accounts[g], c.accounts[g])
    {
      assert Observe(b).accounts[g] == Observe(c).accounts[g];
      AccountsLookAlike(b.accounts[g], c.accounts[g]);
    }
  }

  lemma SameMeansAlike(b: Book, c: Book)
    requires SameButTimes(b, c)
    ensures Observe(b) == Observe(c)
  {
    forall g | g in b.accounts
      ensures ObserveAccount(b.accounts[g]) == ObserveAccount(c.accounts[g])
    {
      AccountsLookAlike(b.accounts[g], c.accounts[g]);
    }
    assert Observe(b).accounts == Observe(c).accounts;
  }

  /** Two books look alike exactly if they are the same but for the times of day of reconcile
      stamps. */
  lemma LookAlike(b: Book, c: Book)
    ensures Observe(b) == Observe(c) <==> SameButTimes(b, c)
  {
    if Observe(b) == Observe(c) {
      AlikeMeansSame(b, c);
    } else if SameButTimes(b, c) {
      SameMeansAlike(b, c);
    }
  }

  lemma ObserveShape(b: Book)
    ensures SameShape(b, Observe(b))
  {
  }

  lemma ObserveStored(b: Book, g: Guid, a: Account)
    ensures Observe(b.(accounts := b.accounts[g := a])).accounts == Observe(b).accounts[g := ObserveAccount(a)]
  {
  }

  /** Storing records that look alike leaves books that look alike. */
  lemma ObservePut(b: Book, g: Guid, a: Account, c: Account)
    requires ObserveAccount(a) == ObserveAccount(c)
    ensures Observe(b.(accounts := b.accounts[g := a])) == Observe(Observe(b).(accounts := Observe(b).accounts[g := c]))
  {
    ObserveStored(b, g, a);
    ObserveStored(Observe(b), g, c);
    ObserveIdempotent(b);
  }

  lemma ObserveIdempotent(b: Book)
    ensures Observe(Observe(b)) == Observe(b)
  {
    assert Observe(Observe(b)).accounts == Observe(b).accounts;
  }

  /** Two results that no client can tell apart. */
  ghost predicate SameResult(v: Result<Verdict, ShimError>, w: Result<Verdict, ShimError>) {
    match (v, w)
    case (Err(e), Err(f)) => e == f
    case (Ok(Commit(r, post)), Ok(Commit(s, post'))) => r == s && Observe(post) == Observe(post')
    case _ => false
  }

  lemma ObserveChildren(b: Book, g: Guid)
    ensures HasChild(b, g) <==> HasChild(Observe(b), g)
  {
    if HasChild(b, g) {
      var c :| c in b.accounts && b.accounts[c].parent == Some(g);
      assert Observe(b).accounts[c].parent == Some(g);
    }
    if HasChild(Observe(b), g) {
      var c :| c in Observe(b).accounts && Observe(b).accounts[c].parent == Some(g);
      assert b.accounts[c].parent == Some(g);
    }
  }

  lemma ObservePlan(b: Book, s: TransactionSpec, owned: Option<set<Guid>>, now: Seconds)
    ensures Plan(Observe(b), s, owned, now) == Plan(b, s, owned, now)
  {
    assert Observe(b).accounts.Keys == b.accounts.Keys;
  }

  lemma ObserveCreate(b: Book, s: AccountSpec, env: Env)
    ensures SameResult(DoCreateAccount(Some(b), s, env), DoCreateAccount(Some(Observe(b)), s, env))
  {
    if s.parent.Wire? {
      var a := WithSpec(BLANK, s, s.parent.guid, Modelled(s.kind));
      ObservePut(b, env.entity, a, a);
    }
  }

  lemma ObserveSpec(b: Book, g: Guid, s: AccountSpec, p: Guid, kind: EngineType)
    requires g in b.accounts
    ensures SameResult(Ok(PutAccount(b, g, WithSpec(b.accounts[g], s, p, kind))),
                       Ok(PutAccount(Observe(b), g, WithSpec(Observe(b).accounts[g], s, p, kind))))
  {
    ObservePut(b, g, WithSpec(b.accounts[g], s, p, kind), WithSpec(ObserveAccount(b.accounts[g]), s, p, kind));
  }

  lemma ObserveCheckUpdate(b: Book, s: AccountSpec)
    ensures CheckUpdate(Some(b), s) == CheckUpdate(Some(Observe(b)), s)
  {
    if s.guid.Wire? && s.guid.guid in b.accounts && s.parent.Wire? {
      ObserveShape(b);
      SameShapeAncestors(b, Observe(b), s.guid.guid, s.parent.guid);
    }
  }

  lemma ObserveUpdateAccount(b: Book, s: AccountSpec)
    ensures SameResult(DoUpdateAccount(Some(b), s), DoUpdateAccount(Some(Observe(b)), s))
  {
    ObserveCheckUpdate(b, s);
    if CheckUpdate(Some(b), s).Ok? {
      var (g, p, kind) := CheckUpdate(Some(b), s).value;
      ObserveSpec(b, g, s, p, kind);
    }
  }

  lemma ObserveDelete(b: Book, guid: GuidText)
    ensures SameResult(DoDeleteAccount(Some(b), guid), DoDeleteAccount(Some(Observe(b)), guid))
  {
    if guid.Wire? {
      var g := guid.guid;
      ObserveChildren(b, g);
      ObserveIdempotent(b);
      assert Observe(Accounts.Without(b, g)).accounts == Observe(Accounts.Without(Observe(b), g)).accounts;
    }
  }

  lemma ObserveStamp(b: Book, guid: GuidText, d: WireDate)
    ensures SameResult(DoSetReconcileInfo(Some(b), guid, d), DoSetReconcileInfo(Some(Observe(b)), guid, d))
  {
    if guid.Wire? && d.Date? && guid.guid in b.accounts {
      var a := b.accounts[guid.guid].(lastReconciled := Some(NeutralTime(d.day)));
      ObservePut(b, guid.guid, a, ObserveAccount(b.accounts[guid.guid]).(lastReconciled := Some(NeutralTime(d.day))));
    }
  }

  lemma ObservePost(b: Book, s: TransactionSpec, env: Env)
    requires |s.splits| <= |env.splits|
    ensures SameResult(DoPostTransaction(Some(b), s, env), DoPostTransaction(Some(Observe(b)), s, env))
  {
    ObservePlan(b, s, None, env.now);
    ObserveIdempotent(b);
  }

  lemma ObserveUpdateTransaction(b: Book, s: TransactionSpec, env: Env)
    requires |s.splits| <= |env.splits|
    ensures SameResult(DoUpdateTransaction(Some(b), s, env), DoUpdateTransaction(Some(Observe(b)), s, env))
  {
    if s.guid.Wire? && s.guid.guid in b.transactions {
      ObservePlan(b, s, Some(Guids(b.transactions[s.guid.guid].splits)), env.now);
      ObserveIdempotent(b);
    }
  }

  /** Executing against the observable part of the book gives the same answer and the same
      observable effect: no call depends on what the contract does not show. */
  lemma ObserveExecute(b: Book, r: Request, env: Env)
    requires SplitCount(r) <= |env.splits|
    ensures SameResult(Dispatch(Some(b), r, env), Dispatch(Some(Observe(b)), r, env))
  {
    match r
    case CreateAccount(s) => ObserveCreate(b, s, env);
    case UpdateAccount(s) => ObserveUpdateAccount(b, s);
    case DeleteAccount(g) => ObserveDelete(b, g);
    case SetReconcileInfo(g, d) => ObserveStamp(b, g, d);
    case PostTransaction(s) => ObservePost(b, s, env);
    case UpdateTransaction(s) => ObserveUpdateTransaction(b, s, env);
    case DeleteTransaction(g) => ObserveIdempotent(b);
    case AddPrice(s) => ObserveIdempotent(b);
  }
}
