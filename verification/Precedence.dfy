/** Of all the faults that a call has, the one it is refused for is the first in the order of the
    checks. */
module Precedence {
  import opened Options
  import opened Errors
  import opened Numerics
  import opened Books
  import opened Transactions
  import opened Planning
  import opened Handlers
  import opened Admission

  /** The place of a fault in the order of the checks: by stage; within the splits by split, and
      there by field. */
  datatype Rank = Rank(stage: nat, split: nat, check: nat)

  predicate NotAfter(x: Rank, y: Rank) {
    x.stage < y.stage || (x.stage == y.stage && (x.split < y.split || (x.split == y.split && x.check <= y.check)))
  }

  function CreationStage(e: ShimError): nat {
    match e.message
    case GuidMustBeEmpty => 0
    case NameRequired => 1
    case ParentRequired => 2
    case MalformedGuid => 3
    case NoAccount => 3
    case RootNotSettable => 4
    case UnspecifiedAccountType => 4
    case _ => 5
  }

  function UpdateStage(e: ShimError): nat {
    match e.message
    case GuidRequired => 0
    case NameRequired => 1
    case MalformedGuid => if e.context == Field("account.guid") then 2 else 7
    case NoAccount => if e.context == Field("account.guid") then 2 else 7
    case RootUnmodifiable => 3
    case RootNotSettable => 4
    case UnspecifiedAccountType => 4
    case NoCommodity => 5
    case ParentRequired => 6
    case _ => 8
  }

  function FieldCheck(name: string): nat {
    if name == "guid" then 0 else if name == "account_guid" then 1 else if name == "value" then 2
    else if name == "quantity" then 3 else if name == "reconcile_state" then 4 else 5
  }

  function TransactionRank(e: ShimError): Rank {
    if e.context.SplitField? then Rank(7, e.context.index, FieldCheck(e.context.name))
    else
      match e.message
      case GuidMustBeEmpty => Rank(0, 0, 0)
      case GuidRequired => Rank(0, 0, 0)
      case MalformedGuid => Rank(1, 0, 0)
      case NoTransaction => Rank(1, 0, 0)
      case CurrencyRequired => Rank(2, 0, 0)
      case NoCommodity => Rank(3, 0, 0)
      case NotACurrency => Rank(4, 0, 0)
      case SplitRequired => Rank(6, 0, 0)
      case SumNotZero => Rank(8, 0, 0)
      case _ => Rank(5, 0, 0)
  }

  function PriceStage(e: ShimError): nat {
    match e.message
    case GuidMustBeEmpty => 0
    case NoCommodity => if e.context == Field("price.commodity") then 1 else 2
    case NotACurrency => 3
    case DenomNotPositive => 5
    case _ => 4
  }

  function RankOf(r: Request, e: ShimError): Rank {
    match r
    case CreateAccount(_) => Rank(CreationStage(e), 0, 0)
    case UpdateAccount(_) => Rank(UpdateStage(e), 0, 0)
    case DeleteAccount(_) => Rank(if e.message.HasSplitsOrChildren? then 2 else if e.message.RootUnmodifiable? then 1 else 0, 0, 0)
    case SetReconcileInfo(_, _) => Rank(if e.message.DateRequired? || e.message.InvalidDate? then 1 else 0, 0, 0)
    case PostTransaction(_) => TransactionRank(e)
    case UpdateTransaction(_) => TransactionRank(e)
    case DeleteTransaction(_) => Rank(0, 0, 0)
    case AddPrice(_) => Rank(PriceStage(e), 0, 0)
  }

  // ---- the splits

  lemma PlannedDiffer(b: Book, owned: Option<set<Guid>>, specs: seq<SplitSpec>, n: nat, i: nat, j: nat)
    requires i < j < n <= |specs| && PlanSplits(b.accounts.Keys, owned, specs, n).Ok?
    ensures specs[j].guid.Wire? ==> specs[i].guid != specs[j].guid
  {
    PlanSplitsOk(b.accounts.Keys, owned, specs, n);
    assert specs[..n][i] == specs[i] && specs[..n][j] == specs[j];
  }

  lemma PlannedFit(b: Book, owned: Option<set<Guid>>, specs: seq<SplitSpec>, n: nat, j: nat)
    requires j < n <= |specs| && PlanSplits(b.accounts.Keys, owned, specs, n).Ok?
    ensures forall i :: 0 <= i <= j ==> specs[i].value.denom > 0
    ensures AllPrefixesFit(SpecValues(specs[..j + 1]))
  {
    PlanSplitsOk(b.accounts.Keys, owned, specs, n);
    forall i | 0 <= i < n
      ensures specs[i].value.denom > 0
    {
      assert SplitResolves(b.accounts.Keys, owned, specs[..n][i]);
    }
    RunningSumExact(SpecValues(specs[..n]));
    assert SpecValues(specs[..j + 1]) == SpecValues(specs[..n])[..j + 1];
    PrefixFits(SpecValues(specs[..n]), SpecValues(specs[..j + 1]));
  }

  /** Splits that are planned have no fault. */
  lemma PlannedHaveNone(b: Book, owned: Option<set<Guid>>, specs: seq<SplitSpec>, n: nat, j: nat, f: ShimError)
    requires j < n <= |specs| && PlanSplits(b.accounts.Keys, owned, specs, n).Ok?
    ensures !SplitFault(b, owned, specs, j, f)
  {
    PlanSplitsOk(b.accounts.Keys, owned, specs, n);
    assert SplitResolves(b.accounts.Keys, owned, specs[..n][j]);
    StatesKnown(specs[j].state);
    forall i: nat | i < j
      ensures specs[j].guid.Wire? ==> specs[i].guid != specs[j].guid
    {
      PlannedDiffer(b, owned, specs, n, i, j);
    }
    PlannedFit(b, owned, specs, n, j);
  }

  /** The fields of a split are checked in their order. */
  lemma FirstCheck(b: Book, owned: Option<set<Guid>>, specs: seq<SplitSpec>, i: nat, p: Progress, f: ShimError)
    requires i < |specs| && PlanOne(b.accounts.Keys, owned, i, specs[i], p).Err? && SplitFault(b, owned, specs, i, f)
    requires f.message == SplitTwice ==> specs[i].guid.guid in p.claimed
    ensures var e := PlanOne(b.accounts.Keys, owned, i, specs[i], p).error;
            && e.context.SplitField? && e.context.index == i && f.context.SplitField? && f.context.index == i
            && FieldCheck(e.context.name) <= FieldCheck(f.context.name)
  {
    StatesKnown(specs[i].state);
  }

  lemma ClaimedBefore(b: Book, owned: Option<set<Guid>>, specs: seq<SplitSpec>, i: nat, p: Progress, f: ShimError)
    requires i < |specs| && PlanSplits(b.accounts.Keys, owned, specs, i) == Ok(p)
    requires f.message == SplitTwice && SplitFault(b, owned, specs, i, f)
    ensures specs[i].guid.guid in p.claimed
  {
    PlanSplitsOk(b.accounts.Keys, owned, specs, i);
    var j :| 0 <= j < i && specs[j].guid == specs[i].guid;
    assert specs[..i][j].guid.guid in ClaimedBy(specs[..i]);
  }

  /** The first split that has a fault is named, with the first field of it that has. */
  lemma {:induction false} FirstSplit(b: Book, owned: Option<set<Guid>>, specs: seq<SplitSpec>, n: nat, j: nat, f: ShimError)
    requires j < n <= |specs| && PlanSplits(b.accounts.Keys, owned, specs, n).Err? && SplitFault(b, owned, specs, j, f)
    ensures var e := PlanSplits(b.accounts.Keys, owned, specs, n).error;
            e.context.SplitField? && f.context.SplitField? && NotAfter(TransactionRank(e), TransactionRank(f))
  {
    var front := PlanSplits(b.accounts.Keys, owned, specs, n - 1);
    if front.Ok? {
      if j < n - 1 {
        PlannedHaveNone(b, owned, specs, n - 1, j, f);
      } else {
        if f.message == SplitTwice {
          ClaimedBefore(b, owned, specs, j, front.value, f);
        }
        FirstCheck(b, owned, specs, j, front.value, f);
      }
    } else if j < n - 1 {
      FirstSplit(b, owned, specs, n - 1, j, f);
    } else {
      SplitsRefusedAt(b, owned, specs, n - 1);
      SplitFaultAt(b, owned, specs, j, f);
    }
  }

  lemma SplitFaultAt(b: Book, owned: Option<set<Guid>>, specs: seq<SplitSpec>, i: nat, e: ShimError)
    requires i < |specs| && SplitFault(b, owned, specs, i, e)
    ensures e.context.SplitField? && e.context.index == i
  {
  }

  lemma SplitsRefusedAt(b: Book, owned: Option<set<Guid>>, specs: seq<SplitSpec>, n: nat)
    requires n <= |specs| && PlanSplits(b.accounts.Keys, owned, specs, n).Err?
    ensures var e := PlanSplits(b.accounts.Keys, owned, specs, n).error;
            e.context.SplitField? && e.context.index < n
  {
    SplitsRefused(b, owned, specs, n);
    var e := PlanSplits(b.accounts.Keys, owned, specs, n).error;
    var i :| 0 <= i < n && SplitFault(b, owned, specs, i, e);
    SplitFaultAt(b, owned, specs, i, e);
  }

  // ---- the calls

  lemma HeaderFirst(b: Book, owned: Option<set<Guid>>, s: TransactionSpec, f: ShimError)
    requires PlanHeader(b, s).Err? && TransactionFault(b, owned, s, f)
    ensures var e := PlanHeader(b, s).error;
            !e.context.SplitField? && TransactionRank(e).stage >= 2 && NotAfter(TransactionRank(e), TransactionRank(f))
  {
    if i :| 0 <= i < |s.splits| && SplitFault(b, owned, s.splits, i, f) {
      SplitFaultAt(b, owned, s.splits, i, f);
    }
  }

  lemma PlanFirst(b: Book, owned: Option<set<Guid>>, s: TransactionSpec, now: Seconds, f: ShimError)
    requires Plan(b, s, owned, now).Err? && TransactionFault(b, owned, s, f)
    ensures var e := Plan(b, s, owned, now).error;
            TransactionRank(e).stage >= 2 && NotAfter(TransactionRank(e), TransactionRank(f))
  {
    var n := |s.splits|;
    if PlanHeader(b, s).Err? {
      HeaderFirst(b, owned, s, f);
    } else if PlanSplits(b.accounts.Keys, owned, s.splits, n).Err? {
      SplitsRefusedAt(b, owned, s.splits, n);
      if i :| 0 <= i < n && SplitFault(b, owned, s.splits, i, f) {
        FirstSplit(b, owned, s.splits, n, i, f);
      } else {
        assert f.message == SumNotZero;
      }
    } else if i :| 0 <= i < n && SplitFault(b, owned, s.splits, i, f) {
      PlannedHaveNone(b, owned, s.splits, n, i, f);
    }
  }

  /** The refusal, if there is one, comes no later in the order of the checks than this fault. */
  ghost predicate First(b: Book, r: Request, env: Env, f: ShimError)
    requires SplitCount(r) <= |env.splits|
  {
    var v := Execute(Some(b), r, env);
    v.Reject? && Faulty(b, r, f) ==> NotAfter(RankOf(r, v.error), RankOf(r, f))
  }

  lemma CreationFirst(b: Book, s: AccountSpec, env: Env, f: ShimError)
    ensures First(b, CreateAccount(s), env, f)
  {
  }

  lemma AccountFirst(b: Book, s: AccountSpec, f: ShimError)
    requires CheckUpdate(Some(b), s).Err? && AccountFault(b, s, true, f)
    ensures UpdateStage(CheckUpdate(Some(b), s).error) <= UpdateStage(f)
  {
  }

  lemma PostFirst(b: Book, s: TransactionSpec, env: Env, f: ShimError)
    requires |s.splits| <= |env.splits|
    ensures First(b, PostTransaction(s), env, f)
  {
    if s.guid.NoGuid? && Plan(b, s, None, env.now).Err? && TransactionFault(b, None, s, f) {
      PlanFirst(b, None, s, env.now, f);
    }
  }

  lemma TransactionFirst(b: Book, s: TransactionSpec, env: Env, f: ShimError)
    requires |s.splits| <= |env.splits|
    ensures First(b, UpdateTransaction(s), env, f)
  {
    if NamesTransaction(b, s.guid) {
      var owned := Some(Guids(b.transactions[s.guid.guid].splits));
      if Plan(b, s, owned, env.now).Err? && TransactionFault(b, owned, s, f) {
        PlanFirst(b, owned, s, env.now, f);
      }
    }
  }

  lemma PriceFirst(b: Book, s: PriceSpec, env: Env, f: ShimError)
    ensures First(b, AddPrice(s), env, f)
  {
  }

  lemma SimpleFirst(b: Book, r: Request, env: Env, f: ShimError)
    requires r.DeleteAccount? || r.SetReconcileInfo? || r.DeleteTransaction?
    ensures First(b, r, env, f)
  {
  }

  /** A refused call is refused for the first of its faults, in the order of the checks. */
  lemma FirstFaultDecides(b: Book, r: Request, env: Env, f: ShimError)
    requires SplitCount(r) <= |env.splits| && Execute(Some(b), r, env).Reject? && Faulty(b, r, f)
    ensures NotAfter(RankOf(r, Execute(Some(b), r, env).error), RankOf(r, f))
  {
    assert First(b, r, env, f) by {
      match r
      case CreateAccount(s) => CreationFirst(b, s, env, f);
      case UpdateAccount(s) => AccountFirst(b, s, f);
      case PostTransaction(s) => PostFirst(b, s, env, f);
      case UpdateTransaction(s) => TransactionFirst(b, s, env, f);
      case AddPrice(s) => PriceFirst(b, s, env, f);
      case _ => SimpleFirst(b, r, env, f);
    }
  }
}
