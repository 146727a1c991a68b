/** When planning accepts a transaction, and what an accepted plan is. */
module Planning {
  import opened Options
  import opened Errors
  import opened Numerics
  import opened Books
  import opened Transactions

  /** The fields that do not depend on the book are in order. */
  predicate Plannable(s: SplitSpec) {
    s.account.Wire? && 0 < s.value.denom && 0 < s.quantity.denom && PlannedState(s.state).Some?
  }

  /** Every field of a split specification resolves. */
  predicate SplitResolves(known: set<Guid>, owned: Option<set<Guid>>, s: SplitSpec) {
    && Plannable(s) && s.account.guid in known
    && (s.guid.NoGuid? || (s.guid.Wire? && owned.Some? && s.guid.guid in owned.value))
  }

  ghost predicate SplitsResolve(known: set<Guid>, owned: Option<set<Guid>>, specs: seq<SplitSpec>) {
    && (forall i :: 0 <= i < |specs| ==> SplitResolves(known, owned, specs[i]))
    && (forall i, j :: 0 <= i < j < |specs| && specs[i].guid.Wire? ==> specs[i].guid != specs[j].guid)
  }

  function SpecValues(specs: seq<SplitSpec>): seq<Value>
    requires forall i :: 0 <= i < |specs| ==> 0 < specs[i].value.denom
  {
    seq(|specs|, i requires 0 <= i < |specs| => specs[i].value)
  }

  ghost function ClaimedBy(specs: seq<SplitSpec>): set<Guid> {
    set i | 0 <= i < |specs| && specs[i].guid.Wire? :: specs[i].guid.guid
  }

  predicate HeaderResolves(b: Book, spec: TransactionSpec) {
    && spec.currency.Some? && spec.currency.value in b.commodities
    && b.commodities[spec.currency.value]
    && spec.postDate.Date?
    && spec.splits != []
  }

  /** The request meets the contract: everything resolves, no split is named twice, and the
      values add up to exactly zero without any partial sum leaving 64 bits. */
  ghost predicate Acceptable(b: Book, spec: TransactionSpec, owned: Option<set<Guid>>) {
    && HeaderResolves(b, spec)
    && SplitsResolve(b.accounts.Keys, owned, spec.splits)
    && AllPrefixesFit(SpecValues(spec.splits))
    && RealSum(SpecValues(spec.splits)) == 0.0
  }

  /** The plan that a resolvable split specification stands for. */
  function PlanOf(s: SplitSpec): SplitPlan
    requires Plannable(s)
  {
    SplitPlan(if s.guid.Wire? then Some(s.guid.guid) else None, s.account.guid,
              s.value, s.quantity, s.memo, s.action, PlannedState(s.state).value)
  }

  /** The flag with which the engine keeps each state that a request can ask for. */
  predicate FlagFor(state: ReconcileState, flag: char) {
    && (flag == 'n' <==> state.NotReconciled? || state.UnspecifiedState?)
    && (flag == 'c' <==> state.Cleared?)
    && (flag == 'y' <==> state.Reconciled?)
    && (flag == 'f' <==> state.Frozen?)
    && (flag == 'v' <==> state.Voided?)
    && !state.UnknownState?
  }

  lemma FlagPlanned(state: ReconcileState)
    ensures PlannedState(state).Some? ==> FlagFor(state, PlannedState(state).value)
  {
  }

  /** The plan is for the specified split, field by field. */
  predicate PlanAsAsked(p: SplitPlan, s: SplitSpec) {
    && p.existing == (if s.guid.Wire? then Some(s.guid.guid) else None)
    && s.account == Wire(p.account) && p.value == s.value && p.quantity == s.quantity
    && p.memo == s.memo && p.action == s.action && FlagFor(s.state, p.reconcile)
  }

  /** What the loop holds after n splits that all resolve. */
  ghost predicate Describes(p: Progress, specs: seq<SplitSpec>)
    requires forall i :: 0 <= i < |specs| ==> Plannable(specs[i])
  {
    && |p.plans| == |specs|
    && (forall i :: 0 <= i < |specs| ==> p.plans[i] == PlanOf(specs[i]))
    && p.claimed == ClaimedBy(specs)
    && RunningSum(SpecValues(specs)) == Some(p.sum)
  }

  lemma ClaimedExtends(specs: seq<SplitSpec>, n: nat)
    requires n < |specs|
    ensures ClaimedBy(specs[..n + 1]) ==
            ClaimedBy(specs[..n]) + (if specs[n].guid.Wire? then {specs[n].guid.guid} else {})
  {
    var longer, shorter := specs[..n + 1], specs[..n];
    assert forall j :: 0 <= j < n ==> longer[j] == shorter[j];
    assert longer[n] == specs[n];
  }

  lemma ResolvesExtends(known: set<Guid>, owned: Option<set<Guid>>, specs: seq<SplitSpec>, n: nat)
    requires n < |specs|
    ensures SplitsResolve(known, owned, specs[..n + 1]) <==>
            && SplitsResolve(known, owned, specs[..n])
            && SplitResolves(known, owned, specs[n])
            && !(specs[n].guid.Wire? && specs[n].guid.guid in ClaimedBy(specs[..n]))
  {
    var longer, shorter := specs[..n + 1], specs[..n];
    assert forall j :: 0 <= j < n ==> longer[j] == shorter[j];
    assert longer[n] == specs[n];
  }

  lemma SumExtends(specs: seq<SplitSpec>, n: nat)
    requires n < |specs| && forall i :: 0 <= i <= n ==> 0 < specs[i].value.denom
    ensures RunningSum(SpecValues(specs[..n + 1])) == AddSticky(RunningSum(SpecValues(specs[..n])), specs[n].value)
  {
    var vs := SpecValues(specs[..n + 1]);
    assert vs[..n] == SpecValues(specs[..n]);
  }

  /** One more split is planned exactly when it resolves, is not claimed already, and its
      value does not overflow the running sum. */
  lemma PlanOneOk(known: set<Guid>, owned: Option<set<Guid>>, i: nat, s: SplitSpec, p: Progress)
    ensures PlanOne(known, owned, i, s, p).Ok? <==>
            && SplitResolves(known, owned, s)
            && !(s.guid.Wire? && s.guid.guid in p.claimed)
            && AddLcd(p.sum, s.value).Some?
    ensures PlanOne(known, owned, i, s, p).Ok? ==>
              var q := PlanOne(known, owned, i, s, p).value;
              && q.plans == p.plans + [PlanOf(s)]
              && q.claimed == p.claimed + (if s.guid.Wire? then {s.guid.guid} else {})
              && Some(q.sum) == AddLcd(p.sum, s.value)
  {
  }

  lemma DescribesExtends(known: set<Guid>, owned: Option<set<Guid>>, specs: seq<SplitSpec>, n: nat, p: Progress)
    requires n < |specs| && SplitsResolve(known, owned, specs[..n]) && Describes(p, specs[..n])
    ensures PlanOne(known, owned, n, specs[n], p).Ok? <==>
            SplitsResolve(known, owned, specs[..n + 1]) && RunningSum(SpecValues(specs[..n + 1])).Some?
    ensures PlanOne(known, owned, n, specs[n], p).Ok? ==>
              Describes(PlanOne(known, owned, n, specs[n], p).value, specs[..n + 1])
  {
    ResolvesExtends(known, owned, specs, n);
    ClaimedExtends(specs, n);
    PlanOneOk(known, owned, n, specs[n], p);
    assert specs[..n + 1][..n] == specs[..n];
    if SplitsResolve(known, owned, specs[..n + 1]) {
      assert forall i :: 0 <= i <= n ==> specs[i] == specs[..n + 1][i];
      SumExtends(specs, n);
    }
  }

  lemma {:induction false} PlanSplitsOk(known: set<Guid>, owned: Option<set<Guid>>, specs: seq<SplitSpec>, n: nat)
    requires n <= |specs|
    ensures PlanSplits(known, owned, specs, n).Ok? <==>
            SplitsResolve(known, owned, specs[..n]) && RunningSum(SpecValues(specs[..n])).Some?
    ensures PlanSplits(known, owned, specs, n).Ok? ==> Describes(PlanSplits(known, owned, specs, n).value, specs[..n])
  {
    if n > 0 {
      PlanSplitsOk(known, owned, specs, n - 1);
      var before := PlanSplits(known, owned, specs, n - 1);
      if before.Ok? {
        DescribesExtends(known, owned, specs, n - 1, before.value);
      } else {
        NotPlannable(known, owned, specs, n - 1);
      }
    }
  }

  /** A prefix that cannot be planned keeps every longer prefix from being planned. */
  lemma NotPlannable(known: set<Guid>, owned: Option<set<Guid>>, specs: seq<SplitSpec>, n: nat)
    requires n < |specs|
    requires !(SplitsResolve(known, owned, specs[..n]) && RunningSum(SpecValues(specs[..n])).Some?)
    ensures !(SplitsResolve(known, owned, specs[..n + 1]) && RunningSum(SpecValues(specs[..n + 1])).Some?)
  {
    ResolvesExtends(known, owned, specs, n);
    if SplitsResolve(known, owned, specs[..n + 1]) {
      assert forall i :: 0 <= i <= n ==> specs[i] == specs[..n + 1][i];
      SumExtends(specs, n);
    }
  }

  /** Planning succeeds exactly on acceptable requests: an unbalanced or overflowing one is
      never accepted, and nothing acceptable is refused. */
  lemma PlanAccepts(b: Book, spec: TransactionSpec, owned: Option<set<Guid>>, now: Seconds)
    ensures Plan(b, spec, owned, now).Ok? <==> Acceptable(b, spec, owned)
  {
    var n := |spec.splits|;
    assert spec.splits[..n] == spec.splits;
    PlanSplitsOk(b.accounts.Keys, owned, spec.splits, n);
    assert PlanHeader(b, spec).Ok? <==> HeaderResolves(b, spec);
    if HeaderResolves(b, spec) && SplitsResolve(b.accounts.Keys, owned, spec.splits) {
      RunningSumExact(SpecValues(spec.splits));
    }
  }

  /** The refusal for imbalance is exact: it means everything resolved, nothing overflowed,
      and the exact sum is not zero. */
  lemma UnbalancedVerdict(b: Book, spec: TransactionSpec, owned: Option<set<Guid>>, now: Seconds)
    ensures Plan(b, spec, owned, now).Err? && Plan(b, spec, owned, now).error.code == UnbalancedTransaction <==>
            && HeaderResolves(b, spec) && SplitsResolve(b.accounts.Keys, owned, spec.splits)
            && AllPrefixesFit(SpecValues(spec.splits)) && RealSum(SpecValues(spec.splits)) != 0.0
  {
    var n := |spec.splits|;
    assert spec.splits[..n] == spec.splits;
    PlanSplitsOk(b.accounts.Keys, owned, spec.splits, n);
    NeverUnbalanced(b.accounts.Keys, owned, spec.splits, n);
    assert PlanHeader(b, spec).Ok? <==> HeaderResolves(b, spec);
    if HeaderResolves(b, spec) && SplitsResolve(b.accounts.Keys, owned, spec.splits) {
      RunningSumExact(SpecValues(spec.splits));
    }
  }

  lemma {:induction false} NeverUnbalanced(known: set<Guid>, owned: Option<set<Guid>>, specs: seq<SplitSpec>, n: nat)
    requires n <= |specs|
    ensures PlanSplits(known, owned, specs, n).Err? ==>
              PlanSplits(known, owned, specs, n).error.code != UnbalancedTransaction
  {
    if n > 0 {
      NeverUnbalanced(known, owned, specs, n - 1);
    }
  }

  /** An accepted plan holds each specified split in order, and its claimed and doomed splits
      partition the engine's. */
  lemma PlanContents(b: Book, spec: TransactionSpec, owned: Option<set<Guid>>, now: Seconds)
    requires Plan(b, spec, owned, now).Ok?
    ensures Acceptable(b, spec, owned)
    ensures var plan := Plan(b, spec, owned, now).value;
            && plan.currency == spec.currency.value && plan.postDate == spec.postDate.day
            && plan.enterTime == (if spec.enterTime == 0 then now else spec.enterTime)
            && plan.num == spec.num && plan.description == spec.description
            && |plan.splits| == |spec.splits|
            && (forall i :: 0 <= i < |spec.splits| ==>
                  plan.splits[i] == PlanOf(spec.splits[i]) && PlanAsAsked(plan.splits[i], spec.splits[i]))
            && plan.doomed !! ClaimedBy(spec.splits)
            && plan.doomed + ClaimedBy(spec.splits) == (if owned.None? then {} else owned.value)
  {
    PlanAccepts(b, spec, owned, now);
    var n := |spec.splits|;
    assert spec.splits[..n] == spec.splits;
    PlanSplitsOk(b.accounts.Keys, owned, spec.splits, n);
    forall i | 0 <= i < n
      ensures PlanAsAsked(PlanOf(spec.splits[i]), spec.splits[i])
    {
      FlagPlanned(spec.splits[i].state);
    }
  }

  /** Reordering the splits of a request can change the verdict only to or from overflow. */
  lemma ReorderedSplits(b: Book, spec: TransactionSpec, order: seq<SplitSpec>, owned: Option<set<Guid>>, now: Seconds)
    requires Acceptable(b, spec, owned)
    requires SplitsResolve(b.accounts.Keys, owned, order)
    requires multiset(SpecValues(order)) == multiset(SpecValues(spec.splits))
    ensures Plan(b, spec.(splits := order), owned, now).Ok? <==> AllPrefixesFit(SpecValues(order))
    ensures RealSum(SpecValues(order)) == 0.0
  {
    PlanAccepts(b, spec.(splits := order), owned, now);
    RealSumPermutation(SpecValues(spec.splits), SpecValues(order), 1);
    PermutationLength(SpecValues(spec.splits), SpecValues(order));
  }

  lemma PermutationLength(a: seq<Value>, b: seq<Value>)
    requires multiset(a) == multiset(b)
    ensures |a| == |b|
  {
    assert |multiset(a)| == |a| && |multiset(b)| == |b|;
  }
}
