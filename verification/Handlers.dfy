/** The eight mutating calls: what each validates, what it would answer, and the book it
    commits. Every refusal happens before any engine edit begins. */
module Handlers {
  import opened Options
  import opened Errors
  import opened Numerics
  import opened Books
  import opened Accounts
  import opened Transactions
  import opened Replacement
  import opened Sequences

  datatype AccountSpec = AccountSpec(
    guid: GuidText, parent: GuidText, name: string, kind: AccountType, commodity: CommodityId,
    code: string, description: string, placeholder: bool, hidden: bool)

  datatype PriceSpec = PriceSpec(
    guid: GuidText, commodity: CommodityId, currency: CommodityId, date: WireDate,
    value: Numeric, source: string)

  datatype Request =
    | CreateAccount(account: AccountSpec)
    | UpdateAccount(account: AccountSpec)
    | DeleteAccount(guid: GuidText)
    | SetReconcileInfo(guid: GuidText, lastDate: WireDate)
    | PostTransaction(transaction: TransactionSpec)
    | UpdateTransaction(transaction: TransactionSpec)
    | DeleteTransaction(guid: GuidText)
    | AddPrice(price: PriceSpec)

  /** What the engine contributes to one execution: the GUIDs it assigns and its clock. */
  datatype Env = Env(entity: Guid, splits: seq<Guid>, now: Seconds)

  /** A handler either throws before touching the engine, or has a response ready to be
      recorded as pending and a book ready to be committed. */
  datatype Verdict = Reject(error: ShimError) | Commit(response: Response, post: Book)

  function SplitCount(r: Request): nat {
    match r
    case PostTransaction(t) => |t.splits|
    case UpdateTransaction(t) => |t.splits|
    case _ => 0
  }

  ghost predicate SplitGuidUsed(b: Book, g: Guid) {
    exists t :: t in b.transactions && g in Guids(b.transactions[t].splits)
  }

  /** The engine's GUIDs are new to the book, and there are enough of them. */
  ghost predicate Fresh(b: Book, r: Request, env: Env) {
    && env.entity !in b.accounts && env.entity !in b.transactions && env.entity !in b.prices
    && Distinct(env.splits) && SplitCount(r) <= |env.splits|
    && forall i :: 0 <= i < |env.splits| ==> !SplitGuidUsed(b, env.splits[i])
  }

  // ---- account handlers

  function AccountTypeFromProto(kind: AccountType): Result<EngineType, ShimError> {
    if kind == RootType then Err(Invalid(RootNotSettable, Field("account.type")))
    else if kind == UnspecifiedType then Err(Invalid(UnspecifiedAccountType, Field("account.type")))
    else Ok(Modelled(kind))
  }

  function WithSpec(a: Account, s: AccountSpec, parent: Guid, kind: EngineType): Account {
    a.(parent := Some(parent), name := s.name, kind := kind, commodity := Some(s.commodity),
       code := s.code, description := s.description, placeholder := s.placeholder, hidden := s.hidden)
  }

  const BLANK := Account(None, "", Obsolete(0), None, "", "", false, false, None)

  function OpenBook(book: Option<Book>): Result<Book, ShimError> {
    if book.None? then Err(ShimError(BookNotOpen, NoBookOpen, Whole)) else Ok(book.value)
  }

  function PutAccount(b: Book, g: Guid, a: Account): Verdict {
    Commit(AccountReply(AccountToProto(g, a)), b.(accounts := b.accounts[g := a]))
  }

  function DoCreateAccount(book: Option<Book>, s: AccountSpec, env: Env): Result<Verdict, ShimError> {
    if !s.guid.NoGuid? then Err(Invalid(GuidMustBeEmpty, Field("account.guid")))
    else if s.name == "" then Err(Invalid(NameRequired, Field("account.name")))
    else if s.parent.NoGuid? then Err(Invalid(ParentRequired, Field("account.parent_guid")))
    else
      var b :- OpenBook(book);
      var parent :- FindAccount(b, s.parent, Field("account.parent_guid"));
      var kind :- AccountTypeFromProto(s.kind);
      var _ :- FindCommodity(b, s.commodity, Field("account.commodity"));
      Ok(PutAccount(b, env.entity, WithSpec(BLANK, s, parent, kind)))
  }

  /** The checks of an account update; they yield the account, its new parent and its type. */
  ghost function CheckUpdate(book: Option<Book>, s: AccountSpec): (r: Result<(Guid, Guid, EngineType), ShimError>)
    ensures r.Ok? ==> book.Some? && r.value.0 in book.value.accounts
  {
    if s.guid.NoGuid? then Err(Invalid(GuidRequired, Field("account.guid")))
    else if s.name == "" then Err(Invalid(NameRequired, Field("account.name")))
    else
      var b :- OpenBook(book);
      var g :- FindAccount(b, s.guid, Field("account.guid"));
      if g == b.root then Err(Invalid(RootUnmodifiable, Field("account.guid"))) else
      var kind :- AccountTypeFromProto(s.kind);
      var _ :- FindCommodity(b, s.commodity, Field("account.commodity"));
      if s.parent.NoGuid? then Err(Invalid(ParentRequired, Field("account.parent_guid"))) else
      var parent :- FindAccount(b, s.parent, Field("account.parent_guid"));
      if IsAncestorOrSelf(b, g, parent) then Err(Invalid(WouldCycle, Field("account.parent_guid")))
      else Ok((g, parent, kind))
  }

  ghost function DoUpdateAccount(book: Option<Book>, s: AccountSpec): Result<Verdict, ShimError> {
    var found :- CheckUpdate(book, s);
    var (g, parent, kind) := found;
    Ok(PutAccount(book.value, g, WithSpec(book.value.accounts[g], s, parent, kind)))
  }

  predicate HasSplits(b: Book, a: Guid) {
    exists t, s :: t in b.transactions && s in b.transactions[t].splits && s.account == a
  }

  ghost function DoDeleteAccount(book: Option<Book>, guid: GuidText): Result<Verdict, ShimError> {
    var b :- OpenBook(book);
    var g :- FindAccount(b, guid, Field("guid"));
    if g == b.root then Err(Invalid(RootUnmodifiable, Field("guid")))
    else if HasSplits(b, g) || HasChild(b, g) then
      Err(ShimError(AccountNotEmpty, HasSplitsOrChildren, Entity(g)))
    else Ok(Commit(EmptyReply, Accounts.Without(b, g)))
  }

  function Stamped(b: Book, g: Guid, day: Day): Book
    requires g in b.accounts
  {
    b.(accounts := b.accounts[g := b.accounts[g].(lastReconciled := Some(NeutralTime(day)))])
  }

  function DoSetReconcileInfo(book: Option<Book>, guid: GuidText, d: WireDate): Result<Verdict, ShimError> {
    var b :- OpenBook(book);
    var g :- FindAccount(b, guid, Field("account_guid"));
    var day :- DateFromProto(d, DateRequired, Field("last_date"));
    Ok(Commit(ReconcileReply(ReconcileInfoToProto(Stamped(b, g, day), g)), Stamped(b, g, day)))
  }

  // ---- transaction handlers

  function Stored(plan: TransactionPlan, splits: seq<Split>): Transaction {
    Transaction(Some(plan.currency), Some(plan.postDate), plan.enterTime, plan.num, plan.description, splits)
  }

  function PutTransaction(b: Book, g: Guid, t: Transaction): Verdict {
    Commit(TransactionReply(TransactionToProto(g, t)), b.(transactions := b.transactions[g := t]))
  }

  function ApplyTo(b: Book, g: Guid, was: seq<Split>, plan: TransactionPlan, env: Env): Verdict
    requires |plan.splits| <= |env.splits|
  {
    PutTransaction(b, g, Stored(plan, Replace(was, plan.splits, env.splits)))
  }

  /** A plan has one entry for each split of the request. */
  lemma {:induction false} PlanLength(known: set<Guid>, owned: Option<set<Guid>>, specs: seq<SplitSpec>, n: nat)
    requires n <= |specs|
    ensures PlanSplits(known, owned, specs, n).Ok? ==> |PlanSplits(known, owned, specs, n).value.plans| == n
  {
    if n > 0 {
      PlanLength(known, owned, specs, n - 1);
    }
  }

  function DoPostTransaction(book: Option<Book>, s: TransactionSpec, env: Env): Result<Verdict, ShimError>
    requires |s.splits| <= |env.splits|
  {
    if !s.guid.NoGuid? then Err(Invalid(GuidMustBeEmpty, Field("transaction.guid"))) else
    var b :- OpenBook(book);
    var plan :- Plan(b, s, None, env.now);
    PlanLength(b.accounts.Keys, None, s.splits, |s.splits|);
    Ok(ApplyTo(b, env.entity, [], plan, env))
  }

  function DoUpdateTransaction(book: Option<Book>, s: TransactionSpec, env: Env): Result<Verdict, ShimError>
    requires |s.splits| <= |env.splits|
  {
    if s.guid.NoGuid? then Err(Invalid(GuidRequired, Field("transaction.guid"))) else
    var b :- OpenBook(book);
    var g :- FindTransaction(b, s.guid, Field("transaction.guid"));
    var was := b.transactions[g].splits;
    var plan :- Plan(b, s, Some(Guids(was)), env.now);
    PlanLength(b.accounts.Keys, Some(Guids(was)), s.splits, |s.splits|);
    Ok(ApplyTo(b, g, was, plan, env))
  }

  function DoDeleteTransaction(book: Option<Book>, guid: GuidText): Result<Verdict, ShimError> {
    var b :- OpenBook(book);
    var g :- FindTransaction(b, guid, Field("guid"));
    Ok(Commit(EmptyReply, b.(transactions := b.transactions - {g})))
  }

  // ---- prices

  function DoAddPrice(book: Option<Book>, s: PriceSpec, env: Env): Result<Verdict, ShimError> {
    if !s.guid.NoGuid? then Err(Invalid(GuidMustBeEmpty, Field("price.guid"))) else
    var b :- OpenBook(book);
    var commodity :- FindCommodity(b, s.commodity, Field("price.commodity"));
    var currency :- FindCommodity(b, s.currency, Field("price.currency"));
    if !b.commodities[currency] then
      Err(ShimError(CurrencyMismatch, NotACurrency, Field("price.currency")))
    else
      var day :- DateFromProto(s.date, DateRequired, Field("price.date"));
      var value :- NumericFromProto(s.value, Field("price.value"));
      var p := Price(commodity, currency, NeutralTime(day), value,
                     if s.source == "" then "shim:api" else s.source);
      Ok(Commit(PriceReply(PriceToProto(env.entity, p)), b.(prices := b.prices[env.entity := p])))
  }

  ghost function Dispatch(book: Option<Book>, r: Request, env: Env): Result<Verdict, ShimError>
    requires SplitCount(r) <= |env.splits|
  {
    match r
    case CreateAccount(s) => DoCreateAccount(book, s, env)
    case UpdateAccount(s) => DoUpdateAccount(book, s)
    case DeleteAccount(g) => DoDeleteAccount(book, g)
    case SetReconcileInfo(g, d) => DoSetReconcileInfo(book, g, d)
    case PostTransaction(s) => DoPostTransaction(book, s, env)
    case UpdateTransaction(s) => DoUpdateTransaction(book, s, env)
    case DeleteTransaction(g) => DoDeleteTransaction(book, g)
    case AddPrice(s) => DoAddPrice(book, s, env)
  }

  /** One call against the book, which is absent while no book is open. */
  ghost function Execute(book: Option<Book>, r: Request, env: Env): Verdict
    requires SplitCount(r) <= |env.splits|
  {
    match Dispatch(book, r, env)
    case Ok(v) => v
    case Err(e) => Reject(e)
  }

  // ---- what every commit keeps

  ghost predicate TransactionOk(b: Book, t: Transaction) {
    && t.currency.Some? && t.currency.value in b.commodities && b.commodities[t.currency.value]
    && t.splits != []
    && DistinctGuids(t.splits)
    && RealSum(Values(t.splits)) == 0.0
    && forall s :: s in t.splits ==> s.account in b.accounts
  }

  /** No split GUID occurs in two transactions. */
  ghost predicate SplitsApart(b: Book) {
    forall t, u, g ::
      (t in b.transactions && u in b.transactions
       && g in Guids(b.transactions[t].splits) && g in Guids(b.transactions[u].splits)) ==> t == u
  }

  /** The book's integrity: one account tree, every split on an existing account, every
      transaction exactly balanced in a known currency. */
  ghost predicate WellFormed(b: Book) {
    && IsTree(b)
    && SplitsApart(b)
    && forall t :: t in b.transactions ==> TransactionOk(b, b.transactions[t])
  }
}
