/** Which calls an open book accepts, said of the request and the book alone, and what a refusal
    says about them. */
module Admission {
  import opened Options
  import opened Errors
  import opened Numerics
  import opened Books
  import opened Accounts
  import opened Transactions
  import opened Planning
  import opened Handlers

  predicate NamesAccount(b: Book, text: GuidText) {
    text.Wire? && text.guid in b.accounts
  }

  predicate NamesTransaction(b: Book, text: GuidText) {
    text.Wire? && text.guid in b.transactions
  }

  predicate NamesCurrency(b: Book, c: CommodityId) {
    c in b.commodities && b.commodities[c]
  }

  // ---- the conditions under which each call is accepted

  predicate AccountSettable(b: Book, s: AccountSpec) {
    && s.name != "" && s.kind != RootType && s.kind != UnspecifiedType
    && s.commodity in b.commodities && NamesAccount(b, s.parent)
  }

  ghost predicate Deletable(b: Book, g: Guid) {
    && g != b.root
    && (forall t, x :: t in b.transactions && x in b.transactions[t].splits ==> x.account != g)
    && (forall c :: c in b.accounts ==> b.accounts[c].parent != Some(g))
  }

  /** A split that names nothing foreign and no state that the contract does not know. */
  predicate SplitInOrder(b: Book, owned: set<Guid>, s: SplitSpec) {
    && (s.guid.NoGuid? || (s.guid.Wire? && s.guid.guid in owned))
    && NamesAccount(b, s.account)
    && s.value.denom > 0 && s.quantity.denom > 0
    && !s.state.UnknownState?
  }

  ghost predicate TransactionInOrder(b: Book, owned: set<Guid>, s: TransactionSpec) {
    && s.currency.Some? && NamesCurrency(b, s.currency.value) && s.postDate.Date? && s.splits != []
    && (forall i :: 0 <= i < |s.splits| ==> SplitInOrder(b, owned, s.splits[i]))
    && (forall i, j :: 0 <= i < j < |s.splits| && s.splits[i].guid.Wire? ==> s.splits[i].guid != s.splits[j].guid)
    && AllPrefixesFit(SpecValues(s.splits)) && RealSum(SpecValues(s.splits)) == 0.0
  }

  ghost predicate Admissible(b: Book, r: Request) {
    match r
    case CreateAccount(s) => s.guid.NoGuid? && AccountSettable(b, s)
    case UpdateAccount(s) =>
      && NamesAccount(b, s.guid) && s.guid.guid != b.root && AccountSettable(b, s)
      && !IsAncestorOrSelf(b, s.guid.guid, s.parent.guid)
    case DeleteAccount(g) => NamesAccount(b, g) && Deletable(b, g.guid)
    case SetReconcileInfo(g, d) => NamesAccount(b, g) && d.Date?
    case PostTransaction(s) => s.guid.NoGuid? && TransactionInOrder(b, {}, s)
    case UpdateTransaction(s) =>
      NamesTransaction(b, s.guid) && TransactionInOrder(b, Guids(b.transactions[s.guid.guid].splits), s)
    case DeleteTransaction(g) => NamesTransaction(b, g)
    case AddPrice(s) =>
      && s.guid.NoGuid? && s.commodity in b.commodities && NamesCurrency(b, s.currency)
      && s.date.Date? && s.value.denom > 0
  }

  lemma StatesKnown(state: ReconcileState)
    ensures PlannedState(state).Some? <==> !state.UnknownState?
  {
  }

  lemma PlannedInOrder(b: Book, owned: Option<set<Guid>>, s: TransactionSpec)
    ensures Acceptable(b, s, owned) <==> TransactionInOrder(b, if owned.None? then {} else owned.value, s)
  {
    var names := if owned.None? then {} else owned.value;
    forall i | 0 <= i < |s.splits|
      ensures SplitResolves(b.accounts.Keys, owned, s.splits[i]) <==> SplitInOrder(b, names, s.splits[i])
    {
      StatesKnown(s.splits[i].state);
    }
  }

  /** An open book accepts a call exactly if these conditions hold, whatever the engine assigns. */
  lemma AcceptedIff(b: Book, r: Request, env: Env)
    requires SplitCount(r) <= |env.splits|
    ensures Execute(Some(b), r, env).Commit? <==> Admissible(b, r)
  {
    match r
    case PostTransaction(s) =>
      PlannedInOrder(b, None, s);
      PlanAccepts(b, s, None, env.now);
    case UpdateTransaction(s) =>
      if NamesTransaction(b, s.guid) {
        var owned := Guids(b.transactions[s.guid.guid].splits);
        PlannedInOrder(b, Some(owned), s);
        PlanAccepts(b, s, Some(owned), env.now);
      }
    case _ =>
  }

  // ---- what a refusal says is so

  /** The fault that the message names is there, at the place that the context names. */
  ghost predicate AccountFault(b: Book, s: AccountSpec, update: bool, e: ShimError) {
    match e.message
    case GuidMustBeEmpty => !update && !s.guid.NoGuid? && e.context == Field("account.guid")
    case GuidRequired => update && s.guid.NoGuid? && e.context == Field("account.guid")
    case NameRequired => s.name == "" && e.context == Field("account.name")
    case ParentRequired => s.parent.NoGuid? && e.context == Field("account.parent_guid")
    case MalformedGuid =>
      || (update && !s.guid.Wire? && e.context == Field("account.guid"))
      || (!s.parent.Wire? && e.context == Field("account.parent_guid"))
    case NoAccount =>
      || (update && s.guid.Wire? && s.guid.guid !in b.accounts && e.context == Field("account.guid"))
      || (s.parent.Wire? && s.parent.guid !in b.accounts && e.context == Field("account.parent_guid"))
    case RootNotSettable => s.kind == RootType && e.context == Field("account.type")
    case UnspecifiedAccountType => s.kind == UnspecifiedType && e.context == Field("account.type")
    case NoCommodity => s.commodity !in b.commodities && e.context == Field("account.commodity")
    case RootUnmodifiable => update && s.guid == Wire(b.root) && e.context == Field("account.guid")
    case WouldCycle =>
      && update && s.guid.Wire? && s.parent.Wire? && IsAncestorOrSelf(b, s.guid.guid, s.parent.guid)
      && e.context == Field("account.parent_guid")
    case _ => false
  }

  predicate AccountTextFault(b: Book, text: GuidText, field: string, e: ShimError) {
    match e.message
    case MalformedGuid => !text.Wire? && e.context == Field(field)
    case NoAccount => text.Wire? && text.guid !in b.accounts && e.context == Field(field)
    case _ => false
  }

  predicate DateFault(d: WireDate, required: Message, field: string, e: ShimError) {
    e.context == Field(field) && ((e.message == required && d.NoDate?) || (e.message == InvalidDate && d.BadDate?))
  }

  /** A fault of split i alone, or of it after the ones before. */
  ghost predicate SplitFault(b: Book, owned: Option<set<Guid>>, specs: seq<SplitSpec>, i: nat, e: ShimError)
    requires i < |specs|
  {
    var s := specs[i];
    match e.message
    case GuidMustBeEmpty => owned.None? && !s.guid.NoGuid? && e.context == SplitField(i, "guid")
    case SplitNotOwned =>
      owned.Some? && !s.guid.NoGuid? && !(s.guid.Wire? && s.guid.guid in owned.value) && e.context == SplitField(i, "guid")
    case SplitTwice =>
      s.guid.Wire? && (exists j :: 0 <= j < i && specs[j].guid == s.guid) && e.context == SplitField(i, "guid")
    case MalformedGuid => !s.account.Wire? && e.context == SplitField(i, "account_guid")
    case NoAccount => s.account.Wire? && s.account.guid !in b.accounts && e.context == SplitField(i, "account_guid")
    case DenomNotPositive =>
      || (s.value.denom <= 0 && e.context == SplitField(i, "value"))
      || (s.quantity.denom <= 0 && e.context == SplitField(i, "quantity"))
    case UnspecifiedReconcileState => s.state.UnknownState? && e.context == SplitField(i, "reconcile_state")
    case SplitOverflow =>
      && (forall j :: 0 <= j <= i ==> specs[j].value.denom > 0)
      && !AllPrefixesFit(SpecValues(specs[..i + 1])) && e.context == SplitField(i, "")
    case _ => false
  }

  ghost predicate TransactionFault(b: Book, owned: Option<set<Guid>>, s: TransactionSpec, e: ShimError) {
    || DateFault(s.postDate, PostDateRequired, "transaction.post_date", e)
    || (exists i :: 0 <= i < |s.splits| && SplitFault(b, owned, s.splits, i, e))
    || match e.message
       case CurrencyRequired => s.currency.None? && e.context == Field("transaction.currency")
       case NoCommodity =>
         s.currency.Some? && s.currency.value !in b.commodities && e.context == Field("transaction.currency")
       case NotACurrency =>
         && s.currency.Some? && s.currency.value in b.commodities && !b.commodities[s.currency.value]
         && e.context == Field("transaction.currency")
       case SplitRequired => s.splits == [] && e.context == Field("transaction.splits")
       case SumNotZero =>
         && (forall i :: 0 <= i < |s.splits| ==> s.splits[i].value.denom > 0)
         && RealSum(SpecValues(s.splits)) != 0.0 && e.context == Field("transaction.splits")
       case _ => false
  }

  ghost predicate PriceFault(b: Book, s: PriceSpec, e: ShimError) {
    || DateFault(s.date, DateRequired, "price.date", e)
    || match e.message
       case GuidMustBeEmpty => !s.guid.NoGuid? && e.context == Field("price.guid")
       case NoCommodity =>
         || (s.commodity !in b.commodities && e.context == Field("price.commodity"))
         || (s.currency !in b.commodities && e.context == Field("price.currency"))
       case NotACurrency => s.currency in b.commodities && !b.commodities[s.currency] && e.context == Field("price.currency")
       case DenomNotPositive => s.value.denom <= 0 && e.context == Field("price.value")
       case _ => false
  }

  predicate TransactionTextFault(b: Book, text: GuidText, field: string, e: ShimError) {
    match e.message
    case MalformedGuid => !text.Wire? && e.context == Field(field)
    case NoTransaction => text.Wire? && text.guid !in b.transactions && e.context == Field(field)
    case _ => false
  }

  ghost predicate Faulty(b: Book, r: Request, e: ShimError) {
    match r
    case CreateAccount(s) => AccountFault(b, s, false, e)
    case UpdateAccount(s) => AccountFault(b, s, true, e)
    case DeleteAccount(g) =>
      || AccountTextFault(b, g, "guid", e)
      || (e.message == RootUnmodifiable && g == Wire(b.root) && e.context == Field("guid"))
      || (e.message == HasSplitsOrChildren && g.Wire? && g.guid != b.root && !Deletable(b, g.guid) && e.context == Entity(g.guid))
    case SetReconcileInfo(g, d) => AccountTextFault(b, g, "account_guid", e) || DateFault(d, DateRequired, "last_date", e)
    case PostTransaction(s) =>
      || (e.message == GuidMustBeEmpty && !s.guid.NoGuid? && e.context == Field("transaction.guid"))
      || TransactionFault(b, None, s, e)
    case UpdateTransaction(s) =>
      || (e.message == GuidRequired && s.guid.NoGuid? && e.context == Field("transaction.guid"))
      || TransactionTextFault(b, s.guid, "transaction.guid", e)
      || (NamesTransaction(b, s.guid) && TransactionFault(b, Some(Guids(b.transactions[s.guid.guid].splits)), s, e))
    case DeleteTransaction(g) => TransactionTextFault(b, g, "guid", e)
    case AddPrice(s) => PriceFault(b, s, e)
  }

  /** The one code that goes with each message of a refusal. */
  function CodeFor(m: Message): ErrorCode {
    match m
    case NoAccount => AccountNotFound
    case NoTransaction => TxnNotFound
    case NoCommodity => CommodityNotFound
    case NotACurrency => CurrencyMismatch
    case HasSplitsOrChildren => AccountNotEmpty
    case SumNotZero => UnbalancedTransaction
    case NoBookOpen => BookNotOpen
    case _ => InvalidArgument
  }

  lemma SplitRefused(b: Book, owned: Option<set<Guid>>, specs: seq<SplitSpec>, i: nat, p: Progress)
    requires i < |specs| && SplitsResolve(b.accounts.Keys, owned, specs[..i]) && Describes(p, specs[..i])
    requires PlanOne(b.accounts.Keys, owned, i, specs[i], p).Err?
    ensures var e := PlanOne(b.accounts.Keys, owned, i, specs[i], p).error;
            SplitFault(b, owned, specs, i, e) && e.code == CodeFor(e.message)
  {
    var e := PlanOne(b.accounts.Keys, owned, i, specs[i], p).error;
    StatesKnown(specs[i].state);
    if e.message == SplitTwice {
      assert specs[i].guid.guid in ClaimedBy(specs[..i]);
      var j :| 0 <= j < i && specs[..i][j].guid.Wire? && specs[..i][j].guid.guid == specs[i].guid.guid;
      assert specs[j].guid == specs[i].guid;
    }
    if e.message == SplitOverflow {
      SumOverflows(b.accounts.Keys, owned, specs, i, p);
    }
  }

  lemma SumOverflows(known: set<Guid>, owned: Option<set<Guid>>, specs: seq<SplitSpec>, i: nat, p: Progress)
    requires i < |specs| && SplitsResolve(known, owned, specs[..i]) && Describes(p, specs[..i])
    requires specs[i].value.denom > 0 && AddLcd(p.sum, specs[i].value).None?
    ensures forall j :: 0 <= j <= i ==> specs[j].value.denom > 0
    ensures !AllPrefixesFit(SpecValues(specs[..i + 1]))
  {
    forall j | 0 <= j <= i
      ensures specs[j].value.denom > 0
    {
      assert j < i ==> SplitResolves(known, owned, specs[..i][j]);
    }
    SumExtends(specs, i);
    RunningSumExact(SpecValues(specs[..i + 1]));
  }

  lemma {:induction false} SplitsRefused(b: Book, owned: Option<set<Guid>>, specs: seq<SplitSpec>, n: nat)
    requires n <= |specs| && PlanSplits(b.accounts.Keys, owned, specs, n).Err?
    ensures var e := PlanSplits(b.accounts.Keys, owned, specs, n).error;
            e.code == CodeFor(e.message) && exists i :: 0 <= i < n && SplitFault(b, owned, specs, i, e)
  {
    if PlanSplits(b.accounts.Keys, owned, specs, n - 1).Err? {
      SplitsRefused(b, owned, specs, n - 1);
    } else {
      PlanSplitsOk(b.accounts.Keys, owned, specs, n - 1);
      SplitRefused(b, owned, specs, n - 1, PlanSplits(b.accounts.Keys, owned, specs, n - 1).value);
    }
  }

  lemma PlanRefused(b: Book, owned: Option<set<Guid>>, s: TransactionSpec, now: Seconds)
    requires Plan(b, s, owned, now).Err?
    ensures var e := Plan(b, s, owned, now).error;
            TransactionFault(b, owned, s, e) && e.code == CodeFor(e.message)
  {
    if PlanHeader(b, s).Ok? {
      if PlanSplits(b.accounts.Keys, owned, s.splits, |s.splits|).Err? {
        SplitsRefused(b, owned, s.splits, |s.splits|);
      } else {
        UnbalancedVerdict(b, s, owned, now);
        assert forall i :: 0 <= i < |s.splits| ==> SplitResolves(b.accounts.Keys, owned, s.splits[i]);
      }
    }
  }

  /** The refusal of the call by the open book is founded, and its code is its message's. */
  ghost predicate Founded(b: Book, r: Request, env: Env)
    requires SplitCount(r) <= |env.splits|
  {
    var v := Execute(Some(b), r, env);
    v.Reject? ==> Faulty(b, r, v.error) && v.error.code == CodeFor(v.error.message)
  }

  lemma CreationRefused(b: Book, s: AccountSpec, env: Env)
    requires DoCreateAccount(Some(b), s, env).Err?
    ensures var e := DoCreateAccount(Some(b), s, env).error;
            AccountFault(b, s, false, e) && e.code == CodeFor(e.message)
  {
  }

  lemma AccountRefused(b: Book, s: AccountSpec)
    requires CheckUpdate(Some(b), s).Err?
    ensures var e := CheckUpdate(Some(b), s).error;
            AccountFault(b, s, true, e) && e.code == CodeFor(e.message)
  {
  }

  lemma DeletionRefused(b: Book, g: GuidText, env: Env)
    ensures Founded(b, DeleteAccount(g), env)
  {
    if NamesAccount(b, g) && g.guid != b.root && (HasSplits(b, g.guid) || HasChild(b, g.guid)) {
      assert !Deletable(b, g.guid);
    }
  }

  lemma PostRefused(b: Book, s: TransactionSpec, env: Env)
    requires |s.splits| <= |env.splits|
    ensures Founded(b, PostTransaction(s), env)
  {
    if Plan(b, s, None, env.now).Err? {
      PlanRefused(b, None, s, env.now);
    }
  }

  lemma TransactionRefused(b: Book, s: TransactionSpec, env: Env)
    requires |s.splits| <= |env.splits|
    ensures Founded(b, UpdateTransaction(s), env)
  {
    if NamesTransaction(b, s.guid) {
      var owned := Some(Guids(b.transactions[s.guid.guid].splits));
      if Plan(b, s, owned, env.now).Err? {
        PlanRefused(b, owned, s, env.now);
      }
    }
  }

  /** A refusal by an open book names a fault that is there, and its code is the message's. */
  lemma RefusalsAreFounded(b: Book, r: Request, env: Env)
    requires SplitCount(r) <= |env.splits| && Execute(Some(b), r, env).Reject?
    ensures var e := Execute(Some(b), r, env).error;
            Faulty(b, r, e) && e.code == CodeFor(e.message)
  {
    assert Founded(b, r, env) by {
      match r
      case CreateAccount(s) => CreationRefused(b, s, env);
      case UpdateAccount(s) => AccountRefused(b, s);
      case DeleteAccount(g) => DeletionRefused(b, g, env);
      case PostTransaction(s) => PostRefused(b, s, env);
      case UpdateTransaction(s) => TransactionRefused(b, s, env);
      case _ =>
    }
  }
}
