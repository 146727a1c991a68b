/** Full replacement: what applying a plan does to a transaction's splits. */
module Replacement {
  import opened Options
  import opened Numerics
  import opened Books
  import opened Sequences
  import opened Transactions
  import opened Planning

  function FromPlan(p: SplitPlan, g: Guid): Split {
    Split(g, p.account, p.value, p.quantity, p.memo, p.action, p.reconcile)
  }

  /** The plan that claims GUID g, if any. */
  function PlanFor(plans: seq<SplitPlan>, g: Guid): (r: Option<nat>)
    ensures r.Some? ==> r.value < |plans| && plans[r.value].existing == Some(g)
    ensures r.None? ==> forall i :: 0 <= i < |plans| ==> plans[i].existing != Some(g)
  {
    if plans == [] then None
    else if plans[|plans| - 1].existing == Some(g) then Some(|plans| - 1)
    else PlanFor(plans[..|plans| - 1], g)
  }

  /** The engine splits that survive, in their own order, with their planned contents. */
  function Updated(was: seq<Split>, plans: seq<SplitPlan>): seq<Split> {
    if was == [] then []
    else
      var front, last := Updated(was[..|was| - 1], plans), was[|was| - 1];
      match PlanFor(plans, last.guid)
      case None => front
      case Some(i) => front + [FromPlan(plans[i], last.guid)]
  }

  /** The splits made new, in plan order; alloc[i] is the GUID the engine gives the i-th. */
  function Added(plans: seq<SplitPlan>, alloc: seq<Guid>): seq<Split>
    requires |plans| <= |alloc|
  {
    if plans == [] then []
    else
      var front, last := Added(plans[..|plans| - 1], alloc), plans[|plans| - 1];
      if last.existing.Some? then front else front + [FromPlan(last, alloc[|plans| - 1])]
  }

  function Replace(was: seq<Split>, plans: seq<SplitPlan>, alloc: seq<Guid>): seq<Split>
    requires |plans| <= |alloc|
  {
    Updated(was, plans) + Added(plans, alloc)
  }

  // ---- the reference: each planned split under the GUID it ends up with

  function FinalGuid(plans: seq<SplitPlan>, alloc: seq<Guid>, i: nat): Guid
    requires i < |plans| <= |alloc|
  {
    if plans[i].existing.Some? then plans[i].existing.value else alloc[i]
  }

  /** The split has the planned contents, field by field. */
  predicate HasContents(s: Split, p: SplitPlan) {
    && s.account == p.account && s.value == p.value && s.quantity == p.quantity
    && s.memo == p.memo && s.action == p.action && s.reconcile == p.reconcile
  }

  function Specified(plans: seq<SplitPlan>, alloc: seq<Guid>): seq<Split>
    requires |plans| <= |alloc|
  {
    seq(|plans|, i requires 0 <= i < |plans| => FromPlan(plans[i], FinalGuid(plans, alloc, i)))
  }

  ghost predicate DistinctGuids(splits: seq<Split>) {
    forall i, j :: 0 <= i < j < |splits| ==> splits[i].guid != splits[j].guid
  }

  /** The plan claims distinct splits of the transaction and dooms the rest; alloc is new and distinct. */
  ghost predicate Applicable(was: seq<Split>, plans: seq<SplitPlan>, alloc: seq<Guid>) {
    && DistinctGuids(was)
    && |plans| <= |alloc| && Distinct(alloc)
    && (forall i :: 0 <= i < |alloc| ==> alloc[i] !in Guids(was))
    && (forall i :: 0 <= i < |plans| && plans[i].existing.Some? ==> plans[i].existing.value in Guids(was))
    && (forall i, j :: 0 <= i < j < |plans| && plans[i].existing.Some? ==> plans[i].existing != plans[j].existing)
  }

  lemma {:induction false} UpdatedElements(was: seq<Split>, plans: seq<SplitPlan>, s: Split)
    ensures s in Updated(was, plans) <==>
            s.guid in Guids(was) && PlanFor(plans, s.guid).Some? && s == FromPlan(plans[PlanFor(plans, s.guid).value], s.guid)
  {
    if was != [] {
      UpdatedElements(was[..|was| - 1], plans, s);
      GuidsExtend(was, |was| - 1);
      assert was[..|was|] == was;
    }
  }

  lemma {:induction false} UpdatedDistinct(was: seq<Split>, plans: seq<SplitPlan>)
    requires DistinctGuids(was)
    ensures DistinctGuids(Updated(was, plans))
  {
    if was != [] {
      var front, last := was[..|was| - 1], was[|was| - 1];
      UpdatedDistinct(front, plans);
      assert last.guid !in Guids(front);
      forall s | s in Updated(front, plans)
        ensures s.guid != last.guid
      {
        UpdatedElements(front, plans, s);
      }
    }
  }

  lemma {:induction false} AddedElements(plans: seq<SplitPlan>, alloc: seq<Guid>, s: Split)
    requires |plans| <= |alloc|
    ensures s in Added(plans, alloc) <==>
            exists i :: 0 <= i < |plans| && plans[i].existing.None? && s == FromPlan(plans[i], alloc[i])
  {
    if plans != [] {
      var front, n := plans[..|plans| - 1], |plans| - 1;
      AddedElements(front, alloc, s);
      assert forall i :: 0 <= i < n ==> front[i] == plans[i];
      if s in Added(plans, alloc) {
        if s in Added(front, alloc) {
          var i :| 0 <= i < n && front[i].existing.None? && s == FromPlan(front[i], alloc[i]);
          assert plans[i].existing.None? && s == FromPlan(plans[i], alloc[i]);
        } else {
          assert plans[n].existing.None? && s == FromPlan(plans[n], alloc[n]);
        }
      }
      if i :| 0 <= i < |plans| && plans[i].existing.None? && s == FromPlan(plans[i], alloc[i]) {
        if i < n {
          assert front[i].existing.None? && s == FromPlan(front[i], alloc[i]);
        }
      }
    }
  }

  lemma {:induction false} AddedDistinct(plans: seq<SplitPlan>, alloc: seq<Guid>)
    requires |plans| <= |alloc| && Distinct(alloc)
    ensures DistinctGuids(Added(plans, alloc))
  {
    if plans != [] {
      var front, n := plans[..|plans| - 1], |plans| - 1;
      AddedDistinct(front, alloc);
      forall s | s in Added(front, alloc)
        ensures s.guid != alloc[n]
      {
        AddedElements(front, alloc, s);
      }
    }
  }

  lemma ReplaceDistinct(was: seq<Split>, plans: seq<SplitPlan>, alloc: seq<Guid>)
    requires Applicable(was, plans, alloc)
    ensures DistinctGuids(Replace(was, plans, alloc))
  {
    UpdatedDistinct(was, plans);
    AddedDistinct(plans, alloc);
    var u, a := Updated(was, plans), Added(plans, alloc);
    forall i, j | 0 <= i < |u| && 0 <= j < |a|
      ensures u[i].guid != a[j].guid
    {
      UpdatedElements(was, plans, u[i]);
      AddedElements(plans, alloc, a[j]);
      assert u[i] in u && a[j] in a;
    }
  }

  lemma SpecifiedDistinct(was: seq<Split>, plans: seq<SplitPlan>, alloc: seq<Guid>)
    requires Applicable(was, plans, alloc)
    ensures DistinctGuids(Specified(plans, alloc))
  {
  }

  lemma SameSplits(was: seq<Split>, plans: seq<SplitPlan>, alloc: seq<Guid>, s: Split)
    requires Applicable(was, plans, alloc)
    ensures s in Replace(was, plans, alloc) <==> s in Specified(plans, alloc)
  {
    UpdatedElements(was, plans, s);
    AddedElements(plans, alloc, s);
    var spec := Specified(plans, alloc);
    if s in spec {
      var i :| 0 <= i < |spec| && spec[i] == s;
      if plans[i].existing.Some? {
        assert PlanFor(plans, s.guid) == Some(i);
      }
    }
    if s in Updated(was, plans) {
      assert spec[PlanFor(plans, s.guid).value] == s;
    } else if s in Added(plans, alloc) {
      var i :| 0 <= i < |plans| && plans[i].existing.None? && s == FromPlan(plans[i], alloc[i]);
      assert spec[i] == s;
    }
  }

  /** Full replacement: the live splits afterwards are a permutation of the specified ones,
      claimed splits under the GUIDs they had and new ones under fresh GUIDs; an engine split
      that was not claimed is gone, and no GUID repeats. */
  lemma FullReplacement(was: seq<Split>, plans: seq<SplitPlan>, alloc: seq<Guid>)
    requires Applicable(was, plans, alloc)
    ensures multiset(Replace(was, plans, alloc)) == multiset(Specified(plans, alloc))
    ensures forall k :: 0 <= k < |plans| ==>
              var s := Specified(plans, alloc)[k];
              HasContents(s, plans[k]) && s.guid == (if plans[k].existing.Some? then plans[k].existing.value else alloc[k])
    ensures |Replace(was, plans, alloc)| == |plans|
    ensures DistinctGuids(Replace(was, plans, alloc))
    ensures forall s :: s in Replace(was, plans, alloc) && s.guid in Guids(was) ==> PlanFor(plans, s.guid).Some?
  {
    var r, spec := Replace(was, plans, alloc), Specified(plans, alloc);
    ReplaceDistinct(was, plans, alloc);
    SpecifiedDistinct(was, plans, alloc);
    forall s
      ensures s in r <==> s in spec
      ensures s in r && s.guid in Guids(was) ==> PlanFor(plans, s.guid).Some?
    {
      SameSplits(was, plans, alloc, s);
      UpdatedElements(was, plans, s);
      AddedElements(plans, alloc, s);
    }
    SameElementsPermute(r, spec);
  }

  // ---- consequences for the values

  lemma ValuesPullOut(a: seq<Split>, i: nat)
    requires i < |a|
    ensures multiset(a) == multiset(Without(a, i)) + multiset{a[i]}
    ensures multiset(Values(a)) == multiset(Values(Without(a, i))) + multiset{a[i].value}
  {
    PullOut(a, i);
    PullOut(Values(a), i);
    assert Without(Values(a), i) == Values(Without(a, i));
  }

  lemma {:induction false} ValuesPermute(a: seq<Split>, b: seq<Split>)
    requires multiset(a) == multiset(b)
    ensures multiset(Values(a)) == multiset(Values(b))
    decreases |a|
  {
    if a == [] {
      assert |multiset(b)| == |b|;
    } else {
      assert a[0] in multiset(b);
      var i :| 0 <= i < |b| && b[i] == a[0];
      ValuesPullOut(a, 0);
      ValuesPullOut(b, i);
      Cancel(multiset(Without(a, 0)), multiset(Without(b, i)), a[0]);
      ValuesPermute(Without(a, 0), Without(b, i));
    }
  }

  function Owned(was: Option<seq<Split>>): Option<set<Guid>> {
    if was.None? then None else Some(Guids(was.value))
  }

  function Current(was: Option<seq<Split>>): seq<Split> {
    if was.None? then [] else was.value
  }

  /** Enough fresh GUIDs for the splits of a request; was is absent on create. */
  ghost predicate FreshFor(was: Option<seq<Split>>, alloc: seq<Guid>) {
    Distinct(alloc) && forall i :: 0 <= i < |alloc| ==> alloc[i] !in Guids(Current(was))
  }

  lemma PlanIsApplicable(b: Book, spec: TransactionSpec, was: Option<seq<Split>>, now: Seconds, alloc: seq<Guid>, plan: TransactionPlan)
    requires DistinctGuids(Current(was)) && FreshFor(was, alloc) && |spec.splits| <= |alloc|
    requires Plan(b, spec, Owned(was), now) == Ok(plan)
    ensures Applicable(Current(was), plan.splits, alloc)
  {
    PlanContents(b, spec, Owned(was), now);
  }

  /** A plan made from a request applies to the transaction it was made against. */
  lemma PlanApplies(b: Book, spec: TransactionSpec, was: Option<seq<Split>>, now: Seconds, alloc: seq<Guid>, plan: TransactionPlan)
    requires DistinctGuids(Current(was)) && FreshFor(was, alloc) && |spec.splits| <= |alloc|
    requires Plan(b, spec, Owned(was), now) == Ok(plan)
    ensures Applicable(Current(was), plan.splits, alloc)
    ensures Specified(plan.splits, alloc) != []
    ensures SplitsResolve(b.accounts.Keys, Owned(was), spec.splits)
    ensures RealSum(Values(Specified(plan.splits, alloc))) == 0.0
    ensures forall s :: s in Specified(plan.splits, alloc) ==>
              s.account in b.accounts && (s.guid in Guids(Current(was)) || s.guid in alloc)
  {
    PlanIsApplicable(b, spec, was, now, alloc, plan);
    PlanContents(b, spec, Owned(was), now);
    assert Values(Specified(plan.splits, alloc)) == SpecValues(spec.splits);
    forall s | s in Specified(plan.splits, alloc)
      ensures s.account in b.accounts && (s.guid in Guids(Current(was)) || s.guid in alloc)
    {
      var k :| 0 <= k < |plan.splits| && s == Specified(plan.splits, alloc)[k];
      SpecifiedIsKnown(b, spec, was, alloc, plan.splits, k);
    }
  }

  lemma SpecifiedIsKnown(b: Book, spec: TransactionSpec, was: Option<seq<Split>>, alloc: seq<Guid>, plans: seq<SplitPlan>, k: nat)
    requires k < |spec.splits| == |plans| <= |alloc|
    requires SplitsResolve(b.accounts.Keys, Owned(was), spec.splits)
    requires forall i :: 0 <= i < |plans| ==> plans[i] == PlanOf(spec.splits[i])
    ensures var s := Specified(plans, alloc)[k];
            s.account in b.accounts && (s.guid in Guids(Current(was)) || s.guid in alloc)
  {
    assert SplitResolves(b.accounts.Keys, Owned(was), spec.splits[k]);
  }

  /** What is stored balances exactly, and every stored split names an existing account. */
  lemma ReplacementBalances(b: Book, spec: TransactionSpec, was: Option<seq<Split>>, now: Seconds, alloc: seq<Guid>, plan: TransactionPlan)
    requires DistinctGuids(Current(was)) && FreshFor(was, alloc) && |spec.splits| <= |alloc|
    requires Plan(b, spec, Owned(was), now) == Ok(plan) && |plan.splits| <= |alloc|
    ensures var r := Replace(Current(was), plan.splits, alloc);
            && r != []
            && DistinctGuids(r)
            && RealSum(Values(r)) == 0.0
            && (forall s :: s in r ==> s.account in b.accounts)
            && (forall s :: s in r ==> s.guid in Guids(Current(was)) || s.guid in alloc)
  {
    PlanApplies(b, spec, was, now, alloc, plan);
    FullReplacement(Current(was), plan.splits, alloc);
    var r, s := Replace(Current(was), plan.splits, alloc), Specified(plan.splits, alloc);
    ValuesPermute(r, s);
    RealSumPermutation(Values(r), Values(s), 1);
    forall x | x in r
      ensures x in s
    {
      SameSplits(Current(was), plan.splits, alloc, x);
    }
  }
}
