/** Planning a transaction: every field of the request resolved and validated, the splits
    matched to the engine's by GUID, and the values shown to sum to exactly zero, before any
    engine object is touched. Then the effect of applying the plan. */
module Transactions {
  import opened Options
  import opened Errors
  import opened Numerics
  import opened Books

  datatype SplitSpec = SplitSpec(
    guid: GuidText, account: GuidText, value: Numeric, quantity: Numeric,
    memo: string, action: string, state: ReconcileState)

  datatype TransactionSpec = TransactionSpec(
    guid: GuidText, currency: Option<CommodityId>, postDate: WireDate, enterTime: Seconds,
    num: string, description: string, splits: seq<SplitSpec>)

  /** existing names the engine split to update in place; without it a new split is made. */
  datatype SplitPlan = SplitPlan(
    existing: Option<Guid>, account: Guid, value: Value, quantity: Value,
    memo: string, action: string, reconcile: char)

  datatype TransactionPlan = TransactionPlan(
    currency: CommodityId, postDate: Day, enterTime: Seconds, num: string, description: string,
    splits: seq<SplitPlan>, doomed: set<Guid>)

  // ---- resolving single fields

  function Invalid(m: Message, c: Context): ShimError {
    ShimError(InvalidArgument, m, c)
  }

  function FindAccountIn(known: set<Guid>, text: GuidText, c: Context): Result<Guid, ShimError> {
    match text
    case Wire(g) => if g in known then Ok(g) else Err(ShimError(AccountNotFound, NoAccount, c))
    case _ => Err(Invalid(MalformedGuid, c))
  }

  function FindAccount(b: Book, text: GuidText, c: Context): Result<Guid, ShimError> {
    FindAccountIn(b.accounts.Keys, text, c)
  }

  function FindTransaction(b: Book, text: GuidText, c: Context): Result<Guid, ShimError> {
    match text
    case Wire(g) => if g in b.transactions then Ok(g) else Err(ShimError(TxnNotFound, NoTransaction, c))
    case _ => Err(Invalid(MalformedGuid, c))
  }

  function FindCommodity(b: Book, id: CommodityId, c: Context): Result<CommodityId, ShimError> {
    if id in b.commodities then Ok(id) else Err(ShimError(CommodityNotFound, NoCommodity, c))
  }

  function NumericFromProto(n: Numeric, c: Context): Result<Value, ShimError> {
    if 0 < n.denom then Ok(n) else Err(Invalid(DenomNotPositive, c))
  }

  function DateFromProto(d: WireDate, required: Message, c: Context): Result<Day, ShimError> {
    match d
    case NoDate => Err(Invalid(required, c))
    case BadDate => Err(Invalid(InvalidDate, c))
    case Date(day) => Ok(day)
  }

  // ---- planning, one split at a time

  datatype Progress = Progress(plans: seq<SplitPlan>, claimed: set<Guid>, sum: Value)

  /** The engine split a spec claims; owned is absent on create. */
  function Claim(owned: Option<set<Guid>>, claimed: set<Guid>, text: GuidText, c: Context)
    : Result<Option<Guid>, ShimError>
  {
    if text.NoGuid? then Ok(None)
    else if owned.None? then Err(Invalid(GuidMustBeEmpty, c))
    else if !text.Wire? || text.guid !in owned.value then Err(Invalid(SplitNotOwned, c))
    else if text.guid in claimed then Err(Invalid(SplitTwice, c))
    else Ok(Some(text.guid))
  }

  /** Unset means not reconciled: an update replaces the state too. */
  function PlannedState(state: ReconcileState): Option<char> {
    if state.UnspecifiedState? then Some('n') else ReconcileStateFromProto(state)
  }

  function PlanState(state: ReconcileState, c: Context): Result<char, ShimError> {
    match PlannedState(state)
    case None => Err(Invalid(UnspecifiedReconcileState, c))
    case Some(flag) => Ok(flag)
  }

  function PlanOne(known: set<Guid>, owned: Option<set<Guid>>, i: nat, s: SplitSpec, p: Progress)
    : Result<Progress, ShimError>
  {
    var existing :- Claim(owned, p.claimed, s.guid, SplitField(i, "guid"));
    var account :- FindAccountIn(known, s.account, SplitField(i, "account_guid"));
    var value :- NumericFromProto(s.value, SplitField(i, "value"));
    var quantity :- NumericFromProto(s.quantity, SplitField(i, "quantity"));
    var reconcile :- PlanState(s.state, SplitField(i, "reconcile_state"));
    var plan := SplitPlan(existing, account, value, quantity, s.memo, s.action, reconcile);
    match AddLcd(p.sum, value)
    case None => Err(Invalid(SplitOverflow, SplitField(i, "")))
    case Some(sum) =>
      Ok(Progress(p.plans + [plan], p.claimed + (if existing.Some? then {existing.value} else {}), sum))
  }

  function PlanSplits(known: set<Guid>, owned: Option<set<Guid>>, specs: seq<SplitSpec>, n: nat)
    : Result<Progress, ShimError>
    requires n <= |specs|
  {
    if n == 0 then Ok(Progress([], {}, ZERO))
    else
      var p :- PlanSplits(known, owned, specs, n - 1);
      PlanOne(known, owned, n - 1, specs[n - 1], p)
  }

  function PlanHeader(b: Book, spec: TransactionSpec): Result<(CommodityId, Day), ShimError> {
    if spec.currency.None? then Err(Invalid(CurrencyRequired, Field("transaction.currency"))) else
    var currency :- FindCommodity(b, spec.currency.value, Field("transaction.currency"));
    if !b.commodities[currency] then
      Err(ShimError(CurrencyMismatch, NotACurrency, Field("transaction.currency")))
    else
      var day :- DateFromProto(spec.postDate, PostDateRequired, Field("transaction.post_date"));
      if spec.splits == [] then Err(Invalid(SplitRequired, Field("transaction.splits")))
      else Ok((currency, day))
  }

  /** What planning yields; owned holds the GUIDs of the transaction being updated. */
  function Plan(b: Book, spec: TransactionSpec, owned: Option<set<Guid>>, now: Seconds)
    : Result<TransactionPlan, ShimError>
  {
    var header :- PlanHeader(b, spec);
    var p :- PlanSplits(b.accounts.Keys, owned, spec.splits, |spec.splits|);
    if p.sum.num != 0 then
      Err(ShimError(UnbalancedTransaction, SumNotZero, Field("transaction.splits")))
    else
      Ok(TransactionPlan(header.0, header.1, if spec.enterTime != 0 then spec.enterTime else now,
                         spec.num, spec.description, p.plans,
                         if owned.None? then {} else owned.value - p.claimed))
  }

  function Guids(splits: seq<Split>): set<Guid> {
    set i | 0 <= i < |splits| :: splits[i].guid
  }

  lemma GuidsExtend(splits: seq<Split>, k: nat)
    requires k < |splits|
    ensures Guids(splits[..k + 1]) == Guids(splits[..k]) + {splits[k].guid}
  {
    var longer, shorter := splits[..k + 1], splits[..k];
    assert forall j :: 0 <= j < k ==> longer[j] == shorter[j];
    assert longer[k] == splits[k];
  }

  /** The table of a transaction's engine splits, gathered from its split list. */
  method CollectSplits(splits: seq<Split>) returns (guids: set<Guid>)
    ensures guids == Guids(splits)
  {
    guids := {};
    for k := 0 to |splits|
      invariant guids == Guids(splits[..k])
    {
      GuidsExtend(splits, k);
      guids := guids + {splits[k].guid};
    }
    assert splits[..|splits|] == splits;
  }

  /** The planning loop: the first split that is refused decides. */
  method PlanEverySplit(known: set<Guid>, owned: Option<set<Guid>>, specs: seq<SplitSpec>)
    returns (r: Result<Progress, ShimError>)
    ensures r == PlanSplits(known, owned, specs, |specs|)
  {
    var progress := Progress([], {}, ZERO);
    for i := 0 to |specs|
      invariant PlanSplits(known, owned, specs, i) == Ok(progress)
    {
      var next := PlanOne(known, owned, i, specs[i], progress);
      assert PlanSplits(known, owned, specs, i + 1) == next;
      if next.Err? {
        PlanningStops(known, owned, specs, i + 1, |specs|);
        return Err(next.error);
      }
      progress := next.value;
    }
    return Ok(progress);
  }

  /** Planning as the handlers run it, over the transaction's current splits if any. */
  method PlanTransaction(b: Book, spec: TransactionSpec, existing: Option<seq<Split>>, now: Seconds)
    returns (r: Result<TransactionPlan, ShimError>)
    ensures r == Plan(b, spec, if existing.None? then None else Some(Guids(existing.value)), now)
  {
    var header := PlanHeader(b, spec);
    if header.Err? {
      return Err(header.error);
    }
    var engineSplits: set<Guid> := {};
    if existing.Some? {
      engineSplits := CollectSplits(existing.value);
    }
    var progress := PlanEverySplit(b.accounts.Keys, if existing.None? then None else Some(engineSplits), spec.splits);
    if progress.Err? {
      return Err(progress.error);
    }
    var p := progress.value;
    if p.sum.num != 0 {
      return Err(ShimError(UnbalancedTransaction, SumNotZero, Field("transaction.splits")));
    }
    return Ok(TransactionPlan(header.value.0, header.value.1,
                              if spec.enterTime != 0 then spec.enterTime else now,
                              spec.num, spec.description, p.plans,
                              if existing.None? then {} else engineSplits - p.claimed));
  }

  /** The first split that is refused decides: later splits are not looked at. */
  lemma {:induction false} PlanningStops(known: set<Guid>, owned: Option<set<Guid>>, specs: seq<SplitSpec>, n: nat, m: nat)
    requires n <= m <= |specs| && PlanSplits(known, owned, specs, n).Err?
    ensures PlanSplits(known, owned, specs, m) == PlanSplits(known, owned, specs, n)
    decreases m
  {
    if n < m {
      PlanningStops(known, owned, specs, n, m - 1);
    }
  }
}
