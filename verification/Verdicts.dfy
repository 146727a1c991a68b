/** Refusals that are a verdict on the request, to be journaled and replayed, and refusals that
    are not: which is which, said of what books would do with the call. */
module Verdicts {
  import opened Options
  import opened Errors
  import opened Numerics
  import opened Books
  import opened Accounts
  import opened Transactions
  import opened Planning
  import opened Handlers
  import opened Admission

  /** Every open book refuses the call in this way, whatever the engine assigns. */
  ghost predicate RefusedAnyway(r: Request, e: ShimError) {
    forall b: Book, env: Env :: SplitCount(r) <= |env.splits| ==> Execute(Some(b), r, env) == Reject(e)
  }

  /** Some open book does. */
  ghost predicate SomeBookRefuses(r: Request, e: ShimError) {
    exists b: Book, env: Env :: SplitCount(r) <= |env.splits| && Execute(Some(b), r, env) == Reject(e)
  }

  const BARE := Book(1, map[1 := BLANK.(kind := Modelled(RootType))], map[], map[], map[])

  function Enough(r: Request): Env {
    Env(0, seq(SplitCount(r), i => i), 0)
  }

  /** On an open book every refusal is a verdict on the request, and so is recorded. */
  lemma RefusalsAreVerdicts(b: Book, r: Request, env: Env)
    requires SplitCount(r) <= |env.splits| && Execute(Some(b), r, env).Reject?
    ensures IsDeterministicVerdict(Execute(Some(b), r, env).error.code)
  {
    RefusalsAreFounded(b, r, env);
    assert Execute(Some(b), r, env).error.message != NoBookOpen;
  }

  /** With no book open a call is refused: for its own fault if any book would refuse it so, or
      because no book is open. */
  lemma ClosedRefuses(r: Request, env: Env, b: Book, env': Env)
    requires SplitCount(r) <= |env.splits| && SplitCount(r) <= |env'.splits|
    ensures Execute(None, r, env).Reject?
    ensures var e := Execute(None, r, env).error;
            Execute(Some(b), r, env') == Reject(e) <==> e != ShimError(BookNotOpen, NoBookOpen, Whole)
  {
    if Execute(Some(b), r, env').Reject? {
      RefusalsAreFounded(b, r, env');
    }
  }

  /** The request has a fault that is found before the book is asked for. */
  predicate FaultyUnopened(r: Request) {
    match r
    case CreateAccount(s) => !s.guid.NoGuid? || s.name == "" || s.parent.NoGuid?
    case UpdateAccount(s) => s.guid.NoGuid? || s.name == ""
    case PostTransaction(s) => !s.guid.NoGuid?
    case UpdateTransaction(s) => s.guid.NoGuid?
    case AddPrice(s) => !s.guid.NoGuid?
    case _ => false
  }

  lemma ClosedIffUnopened(r: Request, env: Env)
    requires SplitCount(r) <= |env.splits| && Execute(None, r, env).Reject?
    ensures Execute(None, r, env).error != ShimError(BookNotOpen, NoBookOpen, Whole) <==> FaultyUnopened(r)
  {
  }

  lemma ClosedAlike(r: Request, env: Env, e: ShimError)
    requires SplitCount(r) <= |env.splits| && Execute(None, r, env) == Reject(e)
    ensures RefusedAnyway(r, e) <==> e != ShimError(BookNotOpen, NoBookOpen, Whole)
    ensures SomeBookRefuses(r, e) <==> e != ShimError(BookNotOpen, NoBookOpen, Whole)
  {
    forall b: Book, env': Env | SplitCount(r) <= |env'.splits|
      ensures Execute(Some(b), r, env') == Reject(e) <==> e != ShimError(BookNotOpen, NoBookOpen, Whole)
    {
      ClosedRefuses(r, env, b, env');
    }
    ClosedRefuses(r, env, BARE, Enough(r));
  }

  /** Such a refusal is a verdict on the request exactly if every open book refuses the call in
      the same way, which is so exactly of faults that are found before the book is asked for. */
  lemma ClosedVerdict(r: Request, env: Env, e: ShimError)
    requires SplitCount(r) <= |env.splits| && Execute(None, r, env) == Reject(e)
    ensures IsDeterministicVerdict(e.code) <==> RefusedAnyway(r, e)
    ensures RefusedAnyway(r, e) <==> SomeBookRefuses(r, e)
    ensures RefusedAnyway(r, e) <==> FaultyUnopened(r)
    ensures e.code == CodeFor(e.message)
  {
    ClosedAlike(r, env, e);
    ClosedIffUnopened(r, env);
    if e != ShimError(BookNotOpen, NoBookOpen, Whole) {
      ClosedRefuses(r, env, BARE, Enough(r));
      RefusalsAreFounded(BARE, r, Enough(r));
      RefusalsAreVerdicts(BARE, r, Enough(r));
    }
  }

  /** A refusal that is a verdict on the request is one that some open book gives. */
  lemma VerdictsAreBooks(book: Option<Book>, r: Request, env: Env, e: ShimError)
    requires SplitCount(r) <= |env.splits| && Execute(book, r, env) == Reject(e)
    ensures IsDeterministicVerdict(e.code) <==> SomeBookRefuses(r, e)
  {
    if book.Some? {
      RefusalsAreVerdicts(book.value, r, env);
    } else {
      ClosedVerdict(r, env, e);
    }
  }

  // ---- each such code does occur

  ghost predicate CanRefuseWith(c: ErrorCode) {
    exists b: Book, r: Request, env: Env ::
      SplitCount(r) <= |env.splits| && Execute(Some(b), r, env).Reject? && Execute(Some(b), r, env).error.code == c
  }

  const EUR := CommodityId("CURRENCY", "EUR")
  const NESTED := BARE.(
    accounts := map[1 := BLANK.(kind := Modelled(RootType)), 2 := BLANK.(parent := Some(1)), 3 := BLANK.(parent := Some(2))],
    commodities := map[EUR := true, CommodityId("FUND", "X") := false])

  function PriceIn(currency: CommodityId): Request {
    AddPrice(PriceSpec(NoGuid, EUR, currency, Date(0), Numeric(1, 1), ""))
  }

  const LOPSIDED := PostTransaction(TransactionSpec(NoGuid, Some(EUR), Date(0), 0, "", "",
    [SplitSpec(NoGuid, Wire(2), Numeric(1, 1), Numeric(1, 1), "", "", UnspecifiedState)]))

  lemma Refused(r: Request, c: ErrorCode)
    requires Execute(Some(NESTED), r, Enough(r)).Reject? && Execute(Some(NESTED), r, Enough(r)).error.code == c
    ensures CanRefuseWith(c)
  {
  }

  lemma LopsidedIsPlanned()
    ensures var p := PlanSplits({1, 2, 3}, None, LOPSIDED.transaction.splits, 1);
            p.Ok? && p.value.sum.num == 1
  {
    var specs := LOPSIDED.transaction.splits;
    AddUnits(ZERO, Numeric(1, 1));
    PlanOneOk({1, 2, 3}, None, 0, specs[0], Progress([], {}, ZERO));
    assert PlanSplits({1, 2, 3}, None, specs, 0) == Ok(Progress([], {}, ZERO));
  }

  lemma LopsidedIsRefused()
    ensures CanRefuseWith(UnbalancedTransaction)
  {
    LopsidedIsPlanned();
    assert NESTED.accounts.Keys == {1, 2, 3};
    assert Plan(NESTED, LOPSIDED.transaction, None, 0).Err?;
    Refused(LOPSIDED, UnbalancedTransaction);
  }

  lemma NotEmptyIsRefused()
    ensures CanRefuseWith(AccountNotEmpty)
  {
    assert NESTED.accounts[3].parent == Some(2);
    assert HasChild(NESTED, 2);
    Refused(DeleteAccount(Wire(2)), AccountNotEmpty);
  }

  lemma NoAccountIsRefused()
    ensures CanRefuseWith(AccountNotFound)
  {
    assert NESTED.accounts.Keys == {1, 2, 3};
    Refused(DeleteAccount(Wire(9)), AccountNotFound);
  }

  lemma NoTransactionIsRefused()
    ensures CanRefuseWith(TxnNotFound)
  {
    Refused(DeleteTransaction(Wire(9)), TxnNotFound);
  }

  lemma NoGuidIsRefused()
    ensures CanRefuseWith(InvalidArgument)
  {
    Refused(DeleteTransaction(NoGuid), InvalidArgument);
  }

  lemma PriceIsRefused()
    ensures CanRefuseWith(CommodityNotFound) && CanRefuseWith(CurrencyMismatch)
  {
    var unknown, fund := CommodityId("", ""), CommodityId("FUND", "X");
    assert unknown.space != EUR.space && fund.space != EUR.space && unknown !in NESTED.commodities;
    Refused(PriceIn(unknown), CommodityNotFound);
    Refused(PriceIn(fund), CurrencyMismatch);
  }

  lemma VerdictOccurs(c: ErrorCode)
    requires IsDeterministicVerdict(c)
    ensures CanRefuseWith(c)
  {
    match c
    case UnbalancedTransaction => LopsidedIsRefused();
    case AccountNotFound => NoAccountIsRefused();
    case TxnNotFound => NoTransactionIsRefused();
    case CommodityNotFound => PriceIsRefused();
    case CurrencyMismatch => PriceIsRefused();
    case AccountNotEmpty => NotEmptyIsRefused();
    case InvalidArgument => NoGuidIsRefused();
  }

  /** The codes that are recorded are exactly those with which an open book can refuse a call. */
  lemma VerdictCodes(c: ErrorCode)
    ensures IsDeterministicVerdict(c) <==> CanRefuseWith(c)
  {
    if b: Book, r: Request, env: Env :|
      SplitCount(r) <= |env.splits| && Execute(Some(b), r, env).Reject? && Execute(Some(b), r, env).error.code == c
    {
      RefusalsAreVerdicts(b, r, env);
    }
    if IsDeterministicVerdict(c) {
      VerdictOccurs(c);
    }
  }

  // ---- what the status tells

  /** What a client learns from the status of a refused call: it is unavailable exactly if a
      book, once open, would not refuse it so. */
  lemma StatusSaysWhy(book: Option<Book>, r: Request, env: Env, e: ShimError)
    requires SplitCount(r) <= |env.splits| && Execute(book, r, env) == Reject(e)
    ensures GrpcCodeFor(e.code) == Unavailable <==> book.None? && !RefusedAnyway(r, e)
    ensures GrpcCodeFor(e.code) == NotFound <==> e.message in {NoAccount, NoTransaction, NoCommodity}
    ensures GrpcCodeFor(e.code) == FailedPrecondition <==> e.message in {NotACurrency, HasSplitsOrChildren, SumNotZero}
    ensures GrpcCodeFor(e.code) != Internal
  {
    if book.Some? {
      RefusalsAreFounded(book.value, r, env);
      RefusalsAreVerdicts(book.value, r, env);
    } else {
      ClosedVerdict(r, env, e);
    }
  }
}
