/** What an accepted post or update stores and answers, field by field against the request. */
module StoredSplits {
  import opened Options
  import opened Books
  import opened Sequences
  import opened Transactions
  import opened Planning
  import opened Replacement
  import opened Handlers

  /** The stored split is the specified one. */
  predicate SplitAsAsked(x: Split, s: SplitSpec) {
    && s.account == Wire(x.account) && x.value == s.value && x.quantity == s.quantity
    && x.memo == s.memo && x.action == s.action && FlagFor(s.state, x.reconcile)
    && (s.guid.Wire? ==> s.guid == Wire(x.guid))
  }

  /** The answer shows the stored split, with the state that was asked for. */
  predicate ViewAsAsked(v: SplitView, s: SplitSpec) {
    && s.account == Wire(v.account) && v.value == s.value && v.quantity == s.quantity
    && v.memo == s.memo && v.action == s.action
    && v.state == (if s.state.UnspecifiedState? then NotReconciled else s.state)
    && (s.guid.Wire? ==> s.guid == Wire(v.guid))
  }

  predicate HeaderAsAsked(t: Transaction, s: TransactionSpec, now: Seconds) {
    && s.currency == t.currency && t.postDate.Some? && s.postDate == Date(t.postDate.value)
    && t.num == s.num && t.description == s.description
    && t.enterTime == (if s.enterTime == 0 then now else s.enterTime)
  }

  /** at places each specified split: a bijection onto the stored ones. */
  ghost predicate Places(at: seq<nat>, specs: seq<SplitSpec>, stored: seq<Split>) {
    && |at| == |specs| == |stored| && Distinct(at)
    && forall k :: 0 <= k < |at| ==> at[k] < |stored| && SplitAsAsked(stored[at[k]], specs[k])
  }

  /** GUID g stands before h in the list. */
  ghost predicate Precedes(splits: seq<Split>, g: Guid, h: Guid) {
    exists p, q :: 0 <= p < q < |splits| && splits[p].guid == g && splits[q].guid == h
  }

  function ClaimedGuid(s: SplitSpec): Option<Guid> {
    if s.guid.Wire? then Some(s.guid.guid) else None
  }

  /** The splits kept come first, in the order they had; those made follow, in the order asked. */
  ghost predicate MustPrecede(was: seq<Split>, j: nat, x: Option<Guid>, k: nat, y: Option<Guid>) {
    match (x, y)
    case (Some(g), Some(h)) => Precedes(was, g, h)
    case (Some(_), None) => true
    case (None, Some(_)) => false
    case (None, None) => j < k
  }

  /** The stored splits are in that order, and those made have new GUIDs. */
  ghost predicate InPlace(at: seq<nat>, specs: seq<SplitSpec>, was: seq<Split>, stored: seq<Split>)
    requires Places(at, specs, stored)
  {
    && (forall j: nat, k: nat :: j < |at| && k < |at| ==>
          MustPrecede(was, j, ClaimedGuid(specs[j]), k, ClaimedGuid(specs[k])) ==> at[j] < at[k])
    && (forall k :: 0 <= k < |at| && ClaimedGuid(specs[k]).None? ==> stored[at[k]].guid !in Guids(was))
  }

  // ---- one plan

  lemma PlannedAsAsked(s: SplitSpec, g: Guid)
    requires Plannable(s) && (s.guid.Wire? ==> g == s.guid.guid)
    ensures SplitAsAsked(FromPlan(PlanOf(s), g), s)
  {
    FlagPlanned(s.state);
  }

  lemma ViewOfAsked(x: Split, s: SplitSpec)
    requires SplitAsAsked(x, s)
    ensures ViewAsAsked(SplitToProto(x), s) && SplitToProto(x).guid == x.guid
  {
  }

  ghost function IndexOf(s: seq<Split>, x: Split): nat
    requires x in s
    ensures IndexOf(s, x) < |s| && s[IndexOf(s, x)] == x
  {
    var i: nat :| i < |s| && s[i] == x;
    i
  }

  // ---- where each split ends up

  ghost function PlaceOf(was: seq<Split>, plans: seq<SplitPlan>, alloc: seq<Guid>, k: nat): nat
    requires Applicable(was, plans, alloc) && k < |plans|
    ensures var r := Replace(was, plans, alloc);
            PlaceOf(was, plans, alloc, k) < |r| && r[PlaceOf(was, plans, alloc, k)] == Specified(plans, alloc)[k]
  {
    SameSplits(was, plans, alloc, Specified(plans, alloc)[k]);
    IndexOf(Replace(was, plans, alloc), Specified(plans, alloc)[k])
  }

  lemma {:induction false} UpdatedInOrder(was: seq<Split>, plans: seq<SplitPlan>, i: nat, j: nat, p: nat, q: nat)
    requires DistinctGuids(was) && i < |Updated(was, plans)| && j < |Updated(was, plans)| && p < q < |was|
    requires Updated(was, plans)[i].guid == was[p].guid && Updated(was, plans)[j].guid == was[q].guid
    ensures i < j
  {
    var n := |was| - 1;
    var front, u := Updated(was[..n], plans), Updated(was, plans);
    UpdatedDistinct(was, plans);
    forall x | x in front
      ensures x.guid in Guids(was[..n]) && x.guid != was[n].guid
    {
      UpdatedElements(was[..n], plans, x);
    }
    if q == n {
      assert j == |front|;
      assert i != j;
    } else {
      assert i < |front| && j < |front| by {
        assert was[p].guid != was[n].guid && was[q].guid != was[n].guid;
      }
      UpdatedInOrder(was[..n], plans, i, j, p, q);
    }
  }

  lemma {:induction false} AddedInOrder(plans: seq<SplitPlan>, alloc: seq<Guid>, i: nat, j: nat, p: nat, q: nat)
    requires |plans| <= |alloc| && Distinct(alloc) && i < |Added(plans, alloc)| && j < |Added(plans, alloc)| && p < q < |plans|
    requires Added(plans, alloc)[i].guid == alloc[p] && Added(plans, alloc)[j].guid == alloc[q]
    ensures i < j
  {
    var n := |plans| - 1;
    var front := Added(plans[..n], alloc);
    AddedDistinct(plans, alloc);
    forall x | x in front
      ensures x.guid != alloc[n]
    {
      AddedElements(plans[..n], alloc, x);
    }
    if q == n {
      assert j == |front|;
      assert i != j;
    } else {
      assert i < |front| && j < |front|;
      AddedInOrder(plans[..n], alloc, i, j, p, q);
    }
  }

  lemma KeptFirst(was: seq<Split>, plans: seq<SplitPlan>, alloc: seq<Guid>, i: nat)
    requires Applicable(was, plans, alloc) && i < |Replace(was, plans, alloc)|
    ensures i < |Updated(was, plans)| <==> Replace(was, plans, alloc)[i].guid in Guids(was)
  {
    var u, a := Updated(was, plans), Added(plans, alloc);
    if i < |u| {
      UpdatedElements(was, plans, u[i]);
    } else {
      AddedElements(plans, alloc, a[i - |u|]);
    }
  }

  /** Every plan under the GUID it ends up with, in the order of the plans. */
  lemma PlacesInOrder(was: seq<Split>, plans: seq<SplitPlan>, alloc: seq<Guid>, j: nat, k: nat)
    requires Applicable(was, plans, alloc) && j < |plans| && k < |plans|
    ensures var x, y := PlaceOf(was, plans, alloc, j), PlaceOf(was, plans, alloc, k);
            && (j != k ==> x != y)
            && (MustPrecede(was, j, plans[j].existing, k, plans[k].existing) ==> x < y)
            && (plans[k].existing.None? ==> Replace(was, plans, alloc)[y].guid !in Guids(was))
  {
    var r, u := Replace(was, plans, alloc), Updated(was, plans);
    var x, y := PlaceOf(was, plans, alloc, j), PlaceOf(was, plans, alloc, k);
    KeptFirst(was, plans, alloc, x);
    KeptFirst(was, plans, alloc, y);
    assert r[x].guid == FinalGuid(plans, alloc, j) && r[y].guid == FinalGuid(plans, alloc, k);
    if MustPrecede(was, j, plans[j].existing, k, plans[k].existing) {
      if plans[j].existing.None? {
        AddedInOrder(plans, alloc, x - |u|, y - |u|, j, k);
      } else if plans[k].existing.Some? {
        var p: nat, q: nat :| p < q < |was| && was[p].guid == plans[j].existing.value && was[q].guid == plans[k].existing.value;
        UpdatedInOrder(was, plans, x, y, p, q);
      }
    }
  }

  ghost function AllPlaces(was: seq<Split>, plans: seq<SplitPlan>, alloc: seq<Guid>): seq<nat>
    requires Applicable(was, plans, alloc)
  {
    seq(|plans|, k requires 0 <= k < |plans| => PlaceOf(was, plans, alloc, k))
  }

  /** The plans are those of the specified splits, all of which resolve. */
  ghost predicate PlansOf(plans: seq<SplitPlan>, specs: seq<SplitSpec>) {
    && |plans| == |specs|
    && forall k :: 0 <= k < |specs| ==> Plannable(specs[k]) && (specs[k].guid.Wire? || specs[k].guid.NoGuid?)
                                        && plans[k] == PlanOf(specs[k])
  }

  lemma PlacesAll(was: seq<Split>, plans: seq<SplitPlan>, alloc: seq<Guid>, specs: seq<SplitSpec>)
    requires Applicable(was, plans, alloc) && PlansOf(plans, specs)
    ensures Places(AllPlaces(was, plans, alloc), specs, Replace(was, plans, alloc))
  {
    FullReplacement(was, plans, alloc);
    forall k | 0 <= k < |plans|
      ensures SplitAsAsked(Replace(was, plans, alloc)[PlaceOf(was, plans, alloc, k)], specs[k])
    {
      PlannedAsAsked(specs[k], FinalGuid(plans, alloc, k));
    }
    forall j: nat, k: nat | j < k < |plans|
      ensures PlaceOf(was, plans, alloc, j) != PlaceOf(was, plans, alloc, k)
    {
      PlacesInOrder(was, plans, alloc, j, k);
    }
  }

  lemma PlacesAllInOrder(was: seq<Split>, plans: seq<SplitPlan>, alloc: seq<Guid>, specs: seq<SplitSpec>)
    requires Applicable(was, plans, alloc) && PlansOf(plans, specs)
    requires Places(AllPlaces(was, plans, alloc), specs, Replace(was, plans, alloc))
    ensures InPlace(AllPlaces(was, plans, alloc), specs, was, Replace(was, plans, alloc))
  {
    var at := AllPlaces(was, plans, alloc);
    forall j: nat, k: nat | j < |at| && k < |at|
      ensures MustPrecede(was, j, ClaimedGuid(specs[j]), k, ClaimedGuid(specs[k])) ==> at[j] < at[k]
      ensures ClaimedGuid(specs[k]).None? ==> Replace(was, plans, alloc)[at[k]].guid !in Guids(was)
    {
      PlacesInOrder(was, plans, alloc, j, k);
      assert plans[j] == PlanOf(specs[j]) && plans[k] == PlanOf(specs[k]);
    }
  }

  /** What replacing does to the splits, said of the request. */
  lemma SplitsAsAsked(b: Book, spec: TransactionSpec, was: Option<seq<Split>>, now: Seconds, alloc: seq<Guid>, plan: TransactionPlan)
    returns (at: seq<nat>)
    requires DistinctGuids(Current(was)) && FreshFor(was, alloc) && |spec.splits| <= |alloc|
    requires Plan(b, spec, Owned(was), now) == Ok(plan) && |plan.splits| <= |alloc|
    ensures Places(at, spec.splits, Replace(Current(was), plan.splits, alloc))
    ensures InPlace(at, spec.splits, Current(was), Replace(Current(was), plan.splits, alloc))
  {
    PlanApplies(b, spec, was, now, alloc, plan);
    PlanContents(b, spec, Owned(was), now);
    assert PlansOf(plan.splits, spec.splits) by {
      assert forall k :: 0 <= k < |spec.splits| ==> SplitResolves(b.accounts.Keys, Owned(was), spec.splits[k]);
    }
    PlacesAll(Current(was), plan.splits, alloc, spec.splits);
    PlacesAllInOrder(Current(was), plan.splits, alloc, spec.splits);
    at := AllPlaces(Current(was), plan.splits, alloc);
  }

  // ---- the two calls

  predicate IsEdit(r: Request) {
    r.PostTransaction? || r.UpdateTransaction?
  }

  /** The transaction that the call is about. */
  function Target(r: Request, env: Env): Guid
    requires IsEdit(r)
  {
    if r.UpdateTransaction? && r.transaction.guid.Wire? then r.transaction.guid.guid else env.entity
  }

  /** The splits it has before the call, if there are any. */
  function Before(b: Book, r: Request): seq<Split>
    requires IsEdit(r)
  {
    if r.UpdateTransaction? && r.transaction.guid.Wire? && r.transaction.guid.guid in b.transactions
    then b.transactions[r.transaction.guid.guid].splits else []
  }

  /** The view shows the transaction and nothing else. */
  predicate Shows(v: TransactionView, g: Guid, t: Transaction) {
    && v.guid == g && v.currency == t.currency && v.postDate == t.postDate && v.enterTime == t.enterTime
    && v.num == t.num && v.description == t.description && |v.splits| == |t.splits|
    && forall i :: 0 <= i < |t.splits| ==> v.splits[i].guid == t.splits[i].guid
  }

  ghost function OwnedBefore(b: Book, r: Request): Option<seq<Split>>
    requires IsEdit(r)
  {
    if r.PostTransaction? then None else Some(Before(b, r))
  }

  /** The accepted call comes down to applying the plan of its request. */
  lemma EditIsPlanned(b: Book, r: Request, env: Env, response: Response, post: Book) returns (plan: TransactionPlan)
    requires IsEdit(r) && Fresh(b, r, env) && SplitCount(r) <= |env.splits|
    requires Execute(Some(b), r, env) == Commit(response, post)
    ensures Plan(b, r.transaction, Owned(OwnedBefore(b, r)), env.now) == Ok(plan) && |plan.splits| <= |env.splits|
    ensures Commit(response, post) == ApplyTo(b, Target(r, env), Before(b, r), plan, env)
    ensures Target(r, env) in b.transactions <==> r.UpdateTransaction?
  {
    plan := Plan(b, r.transaction, Owned(OwnedBefore(b, r)), env.now).value;
    PlanLength(b.accounts.Keys, Owned(OwnedBefore(b, r)), r.transaction.splits, |r.transaction.splits|);
  }

  lemma AppliedHeader(b: Book, s: TransactionSpec, owned: Option<set<Guid>>, now: Seconds, plan: TransactionPlan, splits: seq<Split>)
    requires Plan(b, s, owned, now) == Ok(plan)
    ensures HeaderAsAsked(Stored(plan, splits), s, now)
  {
    PlanContents(b, s, owned, now);
  }

  lemma ViewShows(g: Guid, t: Transaction)
    ensures Shows(TransactionToProto(g, t), g, t)
    ensures forall i :: 0 <= i < |t.splits| ==> TransactionToProto(g, t).splits[i] == SplitToProto(t.splits[i])
  {
  }

  lemma ViewsAsAsked(g: Guid, t: Transaction, at: seq<nat>, specs: seq<SplitSpec>)
    requires Places(at, specs, t.splits)
    ensures forall k :: 0 <= k < |at| ==> ViewAsAsked(TransactionToProto(g, t).splits[at[k]], specs[k])
  {
    ViewShows(g, t);
    forall k | 0 <= k < |at|
      ensures ViewAsAsked(TransactionToProto(g, t).splits[at[k]], specs[k])
    {
      ViewOfAsked(t.splits[at[k]], specs[k]);
    }
  }

  /** An accepted post or update stores exactly what was asked for: the header, and each
      specified split once with its own account, value, quantity, memo, action and state; it
      changes no other transaction, account or price, and answers with what it stores. */
  lemma StoredAsAsked(b: Book, r: Request, env: Env, response: Response, post: Book) returns (at: seq<nat>)
    requires IsEdit(r) && DistinctGuids(Before(b, r)) && Fresh(b, r, env) && SplitCount(r) <= |env.splits|
    requires Execute(Some(b), r, env) == Commit(response, post)
    ensures var g, s := Target(r, env), r.transaction;
            && (g in b.transactions <==> r.UpdateTransaction?)
            && g in post.transactions && post == b.(transactions := b.transactions[g := post.transactions[g]])
            && var t := post.transactions[g];
            && HeaderAsAsked(t, s, env.now)
            && Places(at, s.splits, t.splits) && InPlace(at, s.splits, Before(b, r), t.splits)
            && response.TransactionReply? && Shows(response.transaction, g, t)
            && forall k :: 0 <= k < |at| ==> ViewAsAsked(response.transaction.splits[at[k]], s.splits[k])
  {
    var plan := EditIsPlanned(b, r, env, response, post);
    var g, s, was := Target(r, env), r.transaction, OwnedBefore(b, r);
    assert FreshFor(was, env.splits);
    at := SplitsAsAsked(b, s, was, env.now, env.splits, plan);
    var t := Stored(plan, Replace(Before(b, r), plan.splits, env.splits));
    AppliedHeader(b, s, Owned(was), env.now, plan, t.splits);
    ViewShows(g, t);
    ViewsAsAsked(g, t, at, s.splits);
  }

  // ---- what the account's reconciled balance is summed from

  lemma {:induction false} CountedOf(splits: seq<Split>, a: Guid, x: Split)
    ensures multiset(ReconciledOf(splits, a))[x] ==
            if x.account == a && x.reconcile == 'y' then multiset(splits)[x] else 0
  {
    if splits != [] {
      CountedOf(splits[1..], a, x);
      assert splits == [splits[0]] + splits[1..];
    }
  }

  /** The account's reconciled balance counts its own splits flagged 'y', of every transaction. */
  ghost predicate CountsReconciled(v: ReconcileView, b: Book, g: Guid) {
    && v.account == g && v.reconciled.Keys == b.transactions.Keys
    && forall t, x :: t in b.transactions ==>
         multiset(v.reconciled[t])[x] ==
         if x.account == g && x.reconcile == 'y' then multiset(b.transactions[t].splits)[x] else 0
  }

  /** An account's reconciled balance counts, of every transaction, exactly the splits on it that
      carry the flag 'y', each as often as it is there. */
  lemma ReconciledIsCounted(b: Book, a: Guid)
    requires a in b.accounts
    ensures CountsReconciled(ReconcileInfoToProto(b, a), b, a)
  {
    forall t, x | t in b.transactions
      ensures multiset(ReconciledOf(b.transactions[t].splits, a))[x] ==
              if x.account == a && x.reconcile == 'y' then multiset(b.transactions[t].splits)[x] else 0
    {
      CountedOf(b.transactions[t].splits, a, x);
    }
  }

  /** So after an accepted post or update a split counts towards its account's reconciled balance
      exactly if it was asked for as reconciled. */
  lemma ReconciledAsAsked(b: Book, r: Request, env: Env, response: Response, post: Book, a: Guid) returns (at: seq<nat>)
    requires IsEdit(r) && DistinctGuids(Before(b, r)) && Fresh(b, r, env) && SplitCount(r) <= |env.splits|
    requires Execute(Some(b), r, env) == Commit(response, post) && a in b.accounts
    ensures a in post.accounts && Target(r, env) in post.transactions
    ensures var t, specs := post.transactions[Target(r, env)], r.transaction.splits;
            && Places(at, specs, t.splits)
            && forall k :: 0 <= k < |at| ==>
                 (t.splits[at[k]] in ReconcileInfoToProto(post, a).reconciled[Target(r, env)] <==>
                  specs[k].account == Wire(a) && specs[k].state.Reconciled?)
  {
    at := StoredAsAsked(b, r, env, response, post);
    var t := post.transactions[Target(r, env)];
    forall k | 0 <= k < |at|
      ensures t.splits[at[k]] in ReconciledOf(t.splits, a) <==>
              r.transaction.splits[k].account == Wire(a) && r.transaction.splits[k].state.Reconciled?
    {
      CountedOf(t.splits, a, t.splits[at[k]]);
      assert SplitAsAsked(t.splits[at[k]], r.transaction.splits[k]);
    }
  }
}
