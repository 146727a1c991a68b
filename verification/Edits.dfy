/** A transaction under edit in the engine: splits updated in place, new ones appended, and
    destroyed ones lingering in the list until the commit. */
module Edits {
  import opened Options
  import opened Numerics
  import opened Books
  import opened Transactions
  import opened Replacement

  class EngineSplit {
    const guid: Guid
    var account: Guid
    var value: Value
    var amount: Value
    var memo: string
    var action: string
    var reconcile: char
    var destroying: bool

    constructor (guid: Guid)
      ensures this.guid == guid && !destroying
    {
      this.guid := guid;
      account, value, amount, memo, action, reconcile := 0, ZERO, ZERO, "", "", 'n';
      destroying := false;
    }

    function Content(): Split
      reads this
    {
      Split(guid, account, value, amount, memo, action, reconcile)
    }

    /** The setters that applying a split plan calls, in order. */
    method SetFrom(p: SplitPlan)
      modifies this
      ensures Content() == FromPlan(p, guid) && HasContents(Content(), p) && destroying == old(destroying)
      ensures account == p.account && value == p.value && amount == p.quantity
      ensures memo == p.memo && action == p.action && reconcile == p.reconcile
    {
      account := p.account;
      value := p.value;
      amount := p.quantity;
      memo := p.memo;
      action := p.action;
      reconcile := p.reconcile;
    }
  }

  /** The contents of the splits that are not queued for destruction, in list order. */
  function Live(splits: seq<EngineSplit>): seq<Split>
    reads splits
  {
    if splits == [] then []
    else
      var front, last := Live(splits[..|splits| - 1]), splits[|splits| - 1];
      if last.destroying then front else front + [last.Content()]
  }

  function Contents(splits: seq<EngineSplit>): seq<Split>
    reads splits
  {
    seq(|splits|, i requires 0 <= i < |splits| reads splits => splits[i].Content())
  }

  lemma {:induction false} LiveConcat(a: seq<EngineSplit>, b: seq<EngineSplit>)
    ensures Live(a + b) == Live(a) + Live(b)
  {
    if b == [] {
      assert a + b == a;
    } else {
      LiveConcat(a, b[..|b| - 1]);
      assert (a + b)[..|a + b| - 1] == a + b[..|b| - 1];
    }
  }

  lemma {:induction false} AllLive(splits: seq<EngineSplit>)
    requires forall s :: s in splits ==> !s.destroying
    ensures Live(splits) == Contents(splits)
  {
    if splits != [] {
      AllLive(splits[..|splits| - 1]);
    }
  }

  /** Splits in which exactly the unclaimed are queued for destruction, and the claimed hold
      their planned contents, show the updated list. */
  lemma {:induction false} LiveIsUpdated(splits: seq<EngineSplit>, was: seq<Split>, plans: seq<SplitPlan>)
    requires |splits| == |was|
    requires forall i :: 0 <= i < |was| ==> Settled(splits[i], was[i].guid, plans)
    ensures Live(splits) == Updated(was, plans)
  {
    if splits != [] {
      LiveIsUpdated(splits[..|splits| - 1], was[..|was| - 1], plans);
    }
  }

  /** The splits are all live, with these contents. */
  ghost predicate Holds(splits: seq<EngineSplit>, contents: seq<Split>)
    reads splits
  {
    && |splits| == |contents|
    && forall i :: 0 <= i < |splits| ==> !splits[i].destroying && splits[i].Content() == contents[i]
  }

  lemma LiveIsReplaced(objs: seq<EngineSplit>, made: seq<EngineSplit>, was: seq<Split>, plans: seq<SplitPlan>, alloc: seq<Guid>)
    requires |plans| <= |alloc| && |objs| == |was|
    requires forall i :: 0 <= i < |was| ==>
               && objs[i].guid == was[i].guid && UpTo(objs[i], plans, |plans|)
               && (objs[i].destroying <==> PlanFor(plans, was[i].guid).None?)
    requires Holds(made, Added(plans, alloc))
    ensures Live(objs + made) == Replace(was, plans, alloc)
  {
    LiveIsUpdated(objs, was, plans);
    LiveConcat(objs, made);
    AllLive(made);
    assert Contents(made) == Added(plans, alloc);
  }

  ghost predicate Settled(s: EngineSplit, g: Guid, plans: seq<SplitPlan>)
    reads s
  {
    && s.guid == g
    && (s.destroying <==> PlanFor(plans, g).None?)
    && (PlanFor(plans, g).Some? ==> s.Content() == FromPlan(plans[PlanFor(plans, g).value], g))
  }

  class EngineTransaction {
    const guid: Guid
    var currency: Option<CommodityId>
    var postDate: Option<Day>
    var enterTime: Seconds
    var num: string
    var description: string
    var splits: seq<EngineSplit>

    /** xaccMallocTransaction. */
    constructor (guid: Guid)
      ensures this.guid == guid && splits == []
    {
      this.guid := guid;
      currency, postDate, enterTime, num, description, splits := None, None, 0, "", "", [];
    }

    /** The splits in the list have distinct GUIDs, and so are distinct objects. */
    ghost predicate Valid()
      reads this
    {
      forall i, j :: 0 <= i < j < |splits| ==> splits[i].guid != splits[j].guid
    }

    /** table finds each split of the list by its GUID. */
    ghost predicate Indexes(table: map<Guid, EngineSplit>)
      reads this
    {
      && (forall g :: g in table ==> table[g] in splits && table[g].guid == g)
      && (forall i :: 0 <= i < |splits| ==> splits[i].guid in table && table[splits[i].guid] == splits[i])
    }

    /** The transaction as the daemon's views show it: splits queued for destruction skipped. */
    ghost function Shown(): Transaction
      reads this, splits
    {
      Transaction(currency, postDate, enterTime, num, description, Live(splits))
    }

    /** Queues the doomed splits for destruction, whatever order they come in. */
    method DestroyDoomed(table: map<Guid, EngineSplit>, doomed: set<Guid>)
      requires Indexes(table) && doomed <= table.Keys
      requires forall s :: s in splits ==> !s.destroying
      modifies splits
      ensures forall s :: s in splits ==> s.Content() == old(s.Content())
      ensures forall s :: s in splits ==> (s.destroying <==> s.guid in doomed)
    {
      var rest := doomed;
      while rest != {}
        invariant rest <= doomed
        invariant forall s :: s in splits ==> s.Content() == old(s.Content())
        invariant forall s :: s in splits ==> (s.destroying <==> s.guid in doomed - rest)
      {
        var g :| g in rest;
        table[g].destroying := true;
        rest := rest - {g};
      }
    }

    method MakeSplit(p: SplitPlan, g: Guid) returns (split: EngineSplit)
      modifies this`splits
      ensures fresh(split) && splits == old(splits) + [split]
      ensures !split.destroying && split.Content() == FromPlan(p, g)
    {
      split := new EngineSplit(g);
      splits := splits + [split];
      split.SetFrom(p);
    }

    /** A plan that claims none: a new split, with the plan's contents. */
    method MakeNew(ghost objs: seq<EngineSplit>, ghost made: seq<EngineSplit>, plans: seq<SplitPlan>, k: nat, alloc: seq<Guid>)
      returns (split: EngineSplit)
      requires k < |plans| <= |alloc| && plans[k].existing.None?
      requires forall s :: s in objs ==> UpTo(s, plans, k)
      requires Holds(made, Added(plans[..k], alloc))
      modifies this`splits
      ensures fresh(split) && splits == old(splits) + [split]
      ensures forall s :: s in objs ==> UpTo(s, plans, k + 1)
      ensures Holds(made + [split], Added(plans[..k + 1], alloc))
    {
      split := MakeSplit(plans[k], alloc[k]);
      assert plans[..k + 1][..k] == plans[..k];
    }

    /** A plan's claimed split is set in place; no other plan has touched it. */
    method SetClaimed(ghost objs: seq<EngineSplit>, ghost made: seq<EngineSplit>, plans: seq<SplitPlan>, k: nat,
                      split: EngineSplit, ghost alloc: seq<Guid>)
      requires k < |plans| <= |alloc| && plans[k].existing == Some(split.guid)
      requires forall i :: 0 <= i < k ==> plans[i].existing != plans[k].existing
      requires forall s :: s in objs && s != split ==> s.guid != split.guid
      requires forall s :: s in objs ==> UpTo(s, plans, k)
      requires split !in made && Holds(made, Added(plans[..k], alloc))
      modifies split
      ensures split.destroying == old(split.destroying)
      ensures forall s :: s in objs ==> UpTo(s, plans, k + 1)
      ensures Holds(made, Added(plans[..k + 1], alloc))
    {
      split.SetFrom(plans[k]);
      assert plans[..k + 1][..k] == plans[..k];
    }

    /** The split loop of applying a plan: claimed splits are set in place, the others made. */
    method ApplySplits(plans: seq<SplitPlan>, table: map<Guid, EngineSplit>, alloc: seq<Guid>)
      requires Indexes(table)
      requires |plans| <= |alloc|
      requires forall i :: 0 <= i < |plans| && plans[i].existing.Some? ==> plans[i].existing.value in table
      requires forall i, j :: 0 <= i < j < |plans| && plans[i].existing.Some? ==> plans[i].existing != plans[j].existing
      modifies this`splits, splits
      ensures old(splits) <= splits
      ensures Holds(splits[|old(splits)|..], Added(plans, alloc))
      ensures forall x :: x in splits ==> x in old(splits) || fresh(x)
      ensures forall s :: s in old(splits) ==> s.destroying == old(s.destroying)
      ensures forall s :: s in old(splits) ==> UpTo(s, plans, |plans|)
    {
      ghost var objs := splits;
      ghost var made: seq<EngineSplit> := [];
      for k := 0 to |plans|
        invariant splits == objs + made
        invariant fresh(made)
        invariant forall s :: s in objs ==> s.destroying == old(s.destroying)
        invariant forall s :: s in objs ==> UpTo(s, plans, k)
        invariant Holds(made, Added(plans[..k], alloc))
      {
        if plans[k].existing.Some? {
          SetClaimed(objs, made, plans, k, table[plans[k].existing.value], alloc);
        } else {
          var split := MakeNew(objs, made, plans, k, alloc);
          made := made + [split];
        }
      }
      assert plans[..|plans|] == plans;
      assert splits[|objs|..] == made;
    }

    /** Dooms, updates and makes splits: afterwards the live splits are the replacement. */
    method ReplaceSplits(plans: seq<SplitPlan>, doomed: set<Guid>, table: map<Guid, EngineSplit>, alloc: seq<Guid>, ghost was: seq<Split>)
      requires Valid() && Indexes(table) && Applicable(was, plans, alloc)
      requires |was| == |splits| && forall i :: 0 <= i < |was| ==> splits[i].guid == was[i].guid
      requires forall s :: s in splits ==> !s.destroying
      requires doomed <= table.Keys
      requires forall s :: s in splits ==> (s.guid in doomed <==> PlanFor(plans, s.guid).None?)
      modifies this`splits, splits
      ensures Live(splits) == Replace(was, plans, alloc)
      ensures forall x :: x in splits ==> x in old(splits) || fresh(x)
    {
      ghost var objs := splits;
      forall i | 0 <= i < |plans| && plans[i].existing.Some?
        ensures plans[i].existing.value in table
      {
        ClaimedInTable(table, was, plans[i].existing.value);
      }
      DestroyDoomed(table, doomed);
      ApplySplits(plans, table, alloc);
      assert splits == objs + splits[|objs|..];
      assert forall i :: 0 <= i < |objs| ==> objs[i] in objs;
      LiveIsReplaced(objs, splits[|objs|..], was, plans, alloc);
    }

    method SetHeader(plan: TransactionPlan)
      modifies this`currency, this`postDate, this`enterTime, this`num, this`description
      ensures currency == Some(plan.currency) && postDate == Some(plan.postDate)
      ensures enterTime == plan.enterTime && num == plan.num && description == plan.description
    {
      currency := Some(plan.currency);
      postDate := Some(plan.postDate);
      enterTime := plan.enterTime;
      num := plan.num;
      description := plan.description;
    }

    lemma ClaimedInTable(table: map<Guid, EngineSplit>, was: seq<Split>, g: Guid)
      requires Indexes(table) && g in Guids(was)
      requires |was| == |splits| && forall i :: 0 <= i < |was| ==> splits[i].guid == was[i].guid
      ensures g in table
    {
      var i :| 0 <= i < |was| && was[i].guid == g;
      assert splits[i].guid in table;
    }

    /** Applies a validated plan inside an open edit. Before the commit the transaction
        already shows the full replacement: every planned split, and none of the doomed. */
    method ApplyPlan(plan: TransactionPlan, table: map<Guid, EngineSplit>, alloc: seq<Guid>)
      requires Valid() && Indexes(table) && Applicable(Contents(splits), plan.splits, alloc)
      requires forall s :: s in splits ==> !s.destroying
      requires plan.doomed <= table.Keys
      requires forall s :: s in splits ==> (s.guid in plan.doomed <==> PlanFor(plan.splits, s.guid).None?)
      modifies this, splits
      ensures Shown() == Transaction(Some(plan.currency), Some(plan.postDate), plan.enterTime, plan.num,
                                     plan.description, Replace(old(Contents(splits)), plan.splits, alloc))
      ensures forall x :: x in splits ==> x in old(splits) || fresh(x)
    {
      ghost var was := Contents(splits);
      assert forall i :: 0 <= i < |was| ==> splits[i].guid == was[i].guid;
      SetHeader(plan);
      ReplaceSplits(plan.splits, plan.doomed, table, alloc, was);
    }

    /** The commit unlinks what was queued for destruction; what is shown does not change. */
    method CommitEdit()
      modifies this`splits
      ensures Shown() == old(Shown())
      ensures forall s :: s in splits ==> !s.destroying && s in old(splits)
      ensures Contents(splits) == old(Live(splits))
    {
      var kept: seq<EngineSplit> := [];
      for k := 0 to |splits|
        invariant splits == old(splits)
        invariant forall s :: s in kept ==> !s.destroying && s in splits
        invariant Contents(kept) == Live(splits[..k])
      {
        assert splits[..k + 1][..k] == splits[..k];
        if !splits[k].destroying {
          kept := kept + [splits[k]];
        }
      }
      assert splits[..|splits|] == splits;
      splits := kept;
      AllLive(kept);
    }
  }

  /** The split holds the contents of the plan among the first k that claims it. */
  ghost predicate UpTo(s: EngineSplit, plans: seq<SplitPlan>, k: nat)
    requires k <= |plans|
    reads s
  {
    forall i :: 0 <= i < k && plans[i].existing == Some(s.guid) ==> s.Content() == FromPlan(plans[i], s.guid)
  }
}
