/** Books that the daemon itself wrote and then refuses to serve: one accepted transaction whose
    values overflow in another listing order, and one accepted update after which no listing
    passes, since the engine stores its splits in another order than the request has them. */
module RestartFailure {
  import opened Options
  import opened Numerics
  import opened Books
  import opened Accounts
  import opened Transactions
  import opened Replacement
  import opened Handlers
  import opened Startup

  const USD := CommodityId("CURRENCY", "USD")
  const LARGE: Value := Numeric(INT64_MAX, 1)
  const NEGATED: Value := Numeric(0 - INT64_MAX, 1)

  const EMPTY_BOOK :=
    Book(1, map[1 := BLANK.(kind := Modelled(RootType))], map[], map[], map[USD := true])

  function TextOf(g: Option<Guid>): GuidText {
    if g.None? then NoGuid else Wire(g.value)
  }

  function SplitOf(g: Option<Guid>, v: Value): SplitSpec {
    SplitSpec(TextOf(g), Wire(1), v, v, "", "", NotReconciled)
  }

  /** The largest amount in and out, twice; the two splits that move it in may be claimed. */
  function SplitsOf(a: Option<Guid>, c: Option<Guid>): seq<SplitSpec> {
    [SplitOf(a, LARGE), SplitOf(None, NEGATED), SplitOf(c, LARGE), SplitOf(None, NEGATED)]
  }

  function SpecOf(g: GuidText, a: Option<Guid>, c: Option<Guid>): TransactionSpec {
    TransactionSpec(g, Some(USD), Date(0), 1, "", "", SplitsOf(a, c))
  }

  const POSTING := PostTransaction(SpecOf(NoGuid, None, None))
  const POSTING_ENV := Env(10, [10, 11, 12, 13], 0)

  /** Keeps the two splits that move the amount in, and replaces the other two. */
  const UPDATE := UpdateTransaction(SpecOf(Wire(10), Some(10), Some(12)))
  const UPDATE_ENV := Env(20, [20, 21, 22, 23], 0)

  lemma EmptyBookIsSound()
    ensures WellFormed(EMPTY_BOOK)
  {
    assert ReachesRoot(EMPTY_BOOK, 1, 0);
  }

  // ---- both requests are planned

  function PlanOfSplit(g: Option<Guid>, v: Value): SplitPlan {
    SplitPlan(g, 1, v, v, "", "", 'n')
  }

  function PlansOf(a: Option<Guid>, c: Option<Guid>): seq<SplitPlan> {
    [PlanOfSplit(a, LARGE), PlanOfSplit(None, NEGATED), PlanOfSplit(c, LARGE), PlanOfSplit(None, NEGATED)]
  }

  function Just(g: Option<Guid>): set<Guid> {
    if g.None? then {} else {g.value}
  }

  predicate Claimable(owned: Option<set<Guid>>, g: Option<Guid>) {
    g.Some? ==> owned.Some? && g.value in owned.value
  }

  lemma SplitIsPlanned(owned: Option<set<Guid>>, i: nat, g: Option<Guid>, v: Value, p: Progress)
    requires Claimable(owned, g) && Just(g) !! p.claimed
    requires p.sum.denom == 1 && v.denom == 1 && InInt64(p.sum.num + v.num)
    ensures PlanOne({1}, owned, i, SplitOf(g, v), p) ==
            Ok(Progress(p.plans + [PlanOfSplit(g, v)], p.claimed + Just(g), Numeric(p.sum.num + v.num, 1)))
  {
    AddUnits(p.sum, v);
  }

  lemma SplitsArePlanned(owned: Option<set<Guid>>, a: Option<Guid>, c: Option<Guid>)
    requires Claimable(owned, a) && Claimable(owned, c) && Just(a) !! Just(c)
    ensures PlanSplits({1}, owned, SplitsOf(a, c), 4) == Ok(Progress(PlansOf(a, c), Just(a) + Just(c), ZERO))
  {
    var specs, plans := SplitsOf(a, c), PlansOf(a, c);
    var p0 := Progress([], {}, ZERO);
    var p1 := Progress(plans[..1], Just(a), LARGE);
    var p2 := Progress(plans[..2], Just(a), ZERO);
    var p3 := Progress(plans[..3], Just(a) + Just(c), LARGE);
    SplitIsPlanned(owned, 0, a, LARGE, p0);
    SplitIsPlanned(owned, 1, None, NEGATED, p1);
    SplitIsPlanned(owned, 2, c, LARGE, p2);
    SplitIsPlanned(owned, 3, None, NEGATED, p3);
    assert PlanSplits({1}, owned, specs, 0) == Ok(p0);
    assert PlanSplits({1}, owned, specs, 1) == Ok(p1) by {
      assert p0.plans + [plans[0]] == plans[..1] && p0.claimed + Just(a) == Just(a);
    }
    assert PlanSplits({1}, owned, specs, 2) == Ok(p2) by {
      assert p1.plans + [plans[1]] == plans[..2] && p1.claimed + {} == p1.claimed;
    }
    assert PlanSplits({1}, owned, specs, 3) == Ok(p3) by {
      assert p2.plans + [plans[2]] == plans[..3];
    }
    assert p3.plans + [plans[3]] == plans && p3.claimed + {} == p3.claimed;
  }

  lemma IsPlanned(b: Book, g: GuidText, owned: Option<set<Guid>>, a: Option<Guid>, c: Option<Guid>)
    requires b.accounts.Keys == {1} && b.commodities == map[USD := true]
    requires Claimable(owned, a) && Claimable(owned, c) && Just(a) !! Just(c)
    ensures var plan := Plan(b, SpecOf(g, a, c), owned, 0);
            && plan.Ok? && plan.value.splits == PlansOf(a, c) && plan.value.currency == USD && plan.value.postDate == 0
            && plan.value.enterTime == 1 && plan.value.num == "" && plan.value.description == ""
  {
    SplitsArePlanned(owned, a, c);
  }

  // ---- and stored

  function StoredSplit(g: Guid, v: Value): Split {
    FromPlan(PlanOfSplit(None, v), g)
  }

  const POSTED: seq<Split> :=
    [StoredSplit(10, LARGE), StoredSplit(11, NEGATED), StoredSplit(12, LARGE), StoredSplit(13, NEGATED)]

  /** The kept splits come first, the new ones behind them. */
  const UPDATED: seq<Split> :=
    [StoredSplit(10, LARGE), StoredSplit(12, LARGE), StoredSplit(21, NEGATED), StoredSplit(23, NEGATED)]

  function BookWith(splits: seq<Split>): Book {
    EMPTY_BOOK.(transactions := map[10 := Transaction(Some(USD), Some(0), 1, "", "", splits)])
  }

  lemma AddedExtends(plans: seq<SplitPlan>, alloc: seq<Guid>, k: nat)
    requires k < |plans| <= |alloc|
    ensures Added(plans[..k + 1], alloc) ==
            Added(plans[..k], alloc) + (if plans[k].existing.Some? then [] else [FromPlan(plans[k], alloc[k])])
  {
    assert plans[..k + 1][..k] == plans[..k];
  }

  lemma AddedOf(a: Option<Guid>, c: Option<Guid>, alloc: seq<Guid>)
    requires |alloc| == 4
    ensures Added(PlansOf(a, c), alloc) ==
            (if a.Some? then [] else [StoredSplit(alloc[0], LARGE)]) + [StoredSplit(alloc[1], NEGATED)] +
            (if c.Some? then [] else [StoredSplit(alloc[2], LARGE)]) + [StoredSplit(alloc[3], NEGATED)]
  {
    var plans := PlansOf(a, c);
    assert plans[..0] == [] && plans[..4] == plans;
    AddedExtends(plans, alloc, 0);
    AddedExtends(plans, alloc, 1);
    AddedExtends(plans, alloc, 2);
    AddedExtends(plans, alloc, 3);
    assert Added(plans[..1], alloc) == if a.Some? then [] else [StoredSplit(alloc[0], LARGE)];
    assert Added(plans[..2], alloc) == Added(plans[..1], alloc) + [StoredSplit(alloc[1], NEGATED)];
  }

  lemma UpdatedExtends(was: seq<Split>, plans: seq<SplitPlan>, k: nat)
    requires k < |was|
    ensures Updated(was[..k + 1], plans) ==
            Updated(was[..k], plans) +
            (match PlanFor(plans, was[k].guid) case None => [] case Some(i) => [FromPlan(plans[i], was[k].guid)])
  {
    assert was[..k + 1][..k] == was[..k];
  }

  lemma UpdatedOf()
    ensures Updated(POSTED, PlansOf(Some(10), Some(12))) == [StoredSplit(10, LARGE), StoredSplit(12, LARGE)]
  {
    var plans := PlansOf(Some(10), Some(12));
    assert plans[0].existing == Some(10) && plans[2].existing == Some(12);
    assert POSTED[..0] == [] && POSTED[..4] == POSTED;
    UpdatedExtends(POSTED, plans, 0);
    UpdatedExtends(POSTED, plans, 1);
    UpdatedExtends(POSTED, plans, 2);
    UpdatedExtends(POSTED, plans, 3);
  }

  lemma PostingIsStored()
    ensures Fresh(EMPTY_BOOK, POSTING, POSTING_ENV)
    ensures var v := Execute(Some(EMPTY_BOOK), POSTING, POSTING_ENV);
            v.Commit? && v.post == BookWith(POSTED)
  {
    IsPlanned(EMPTY_BOOK, NoGuid, None, None, None);
    AddedOf(None, None, POSTING_ENV.splits);
    assert Replace([], PlansOf(None, None), POSTING_ENV.splits) == POSTED;
  }

  lemma PostedGuids()
    ensures Guids(POSTED) == {10, 11, 12, 13}
  {
    assert POSTED[0].guid == 10 && POSTED[1].guid == 11 && POSTED[2].guid == 12 && POSTED[3].guid == 13;
  }

  lemma UpdateIsFresh()
    ensures Fresh(BookWith(POSTED), UPDATE, UPDATE_ENV)
  {
    PostedGuids();
  }

  lemma UpdateReplaces()
    ensures Replace(POSTED, PlansOf(Some(10), Some(12)), UPDATE_ENV.splits) == UPDATED
  {
    AddedOf(Some(10), Some(12), UPDATE_ENV.splits);
    UpdatedOf();
  }

  lemma UpdateIsStored()
    ensures var v := DoUpdateTransaction(Some(BookWith(POSTED)), UPDATE.transaction, UPDATE_ENV);
            v.Ok? && v.value.Commit? && v.value.post == BookWith(UPDATED)
  {
    PostedGuids();
    IsPlanned(BookWith(POSTED), Wire(10), Some({10, 11, 12, 13}), Some(10), Some(12));
    UpdateReplaces();
    assert BookWith(POSTED).transactions[10 := BookWith(UPDATED).transactions[10]] == BookWith(UPDATED).transactions;
  }

  // ---- and then refused

  /** The engine need not list a transaction's splits in the order it stores them. */
  const ROWS := [Row(10, 0), Row(10, 2), Row(10, 1), Row(10, 3)]

  /** A posting is accepted, yet one listing of the resulting book fails the gate. */
  lemma RestartCanFail()
    ensures WellFormed(EMPTY_BOOK) && Fresh(EMPTY_BOOK, POSTING, POSTING_ENV)
    ensures var v := Execute(Some(EMPTY_BOOK), POSTING, POSTING_ENV);
            && v.Commit? && AreRows(v.post, ROWS) && Lists(v.post, v.post.transactions.Keys, ROWS)
            && !GateHolds(v.post, ROWS)
  {
    EmptyBookIsSound();
    PostingIsStored();
    RowsComplete(BookWith(POSTED));
    GateOverflows(BookWith(POSTED));
  }

  /** An update of that book is accepted as well, and after it every listing fails the gate:
      the daemon never starts on the book again. */
  lemma RestartMustFail(rows: seq<Row>)
    ensures var b := Execute(Some(EMPTY_BOOK), POSTING, POSTING_ENV);
            && b.Commit? && Fresh(b.post, UPDATE, UPDATE_ENV)
            && var v := Execute(Some(b.post), UPDATE, UPDATE_ENV);
            && v.Commit?
            && (AreRows(v.post, rows) && Lists(v.post, v.post.transactions.Keys, rows) ==> !GateHolds(v.post, rows))
  {
    PostingIsStored();
    UpdateIsFresh();
    UpdateIsStored();
    var b := BookWith(UPDATED);
    if AreRows(b, rows) && Lists(b, b.transactions.Keys, rows) {
      assert IsRow(b, Row(10, 0));
      assert Row(10, 0) in rows;
      var i :| 0 <= i < |rows| && rows[i] == Row(10, 0);
      UpdatedOverflows();
      assert !BalancedTransaction(b, rows[i].transaction);
    }
  }

  lemma UpdatedOverflows()
    ensures RunningSum(Values(UPDATED)) == None
  {
    LargeTwice(Values(UPDATED));
  }

  /** A sum that begins with the largest amount twice has overflowed. */
  lemma LargeTwice(vs: seq<Value>)
    requires |vs| >= 2 && vs[0] == LARGE && vs[1] == LARGE
    ensures RunningSum(vs) == None
  {
    var two := [LARGE, LARGE];
    assert vs[..2] == two && two[..1] == [LARGE] && [LARGE][..0] == [];
    AddUnits(ZERO, LARGE);
    AddUnits(LARGE, LARGE);
    assert RunningSum([LARGE]) == Some(LARGE);
    RunningSumExact(two);
    RunningSumExact(vs);
    if AllPrefixesFit(vs) {
      PrefixFits(vs, two);
    }
  }

  lemma RowsComplete(b: Book)
    requires b.transactions.Keys == {10} && |b.transactions[10].splits| == 4
    ensures AreRows(b, ROWS) && Lists(b, b.transactions.Keys, ROWS)
  {
    forall row
      ensures row in ROWS <==> row.transaction in b.transactions && IsRow(b, row)
    {
      assert row == Row(row.transaction, row.index);
      assert ROWS[0] == Row(10, 0) && ROWS[1] == Row(10, 2) && ROWS[2] == Row(10, 1) && ROWS[3] == Row(10, 3);
    }
  }

  lemma {:induction false} AllInGroup(b: Book, rows: seq<Row>, g: Group)
    requires AreRows(b, rows) && forall i :: 0 <= i < |rows| ==> InGroup(g, CurrencyOf(b, rows[i]))
    ensures |ValuesIn(b, rows, g)| == |rows|
    ensures forall i :: 0 <= i < |rows| ==> ValuesIn(b, rows, g)[i] == ValueOf(b, rows[i])
  {
    if rows != [] {
      AllInGroup(b, rows[..|rows| - 1], g);
    }
  }

  lemma GateOverflows(b: Book)
    requires b == BookWith(POSTED) && AreRows(b, ROWS)
    ensures !GateHolds(b, ROWS)
  {
    var k := KeyOf(USD);
    assert InGroup(ByKey(k), CurrencyOf(b, ROWS[0]));
    AllInGroup(b, ROWS, ByKey(k));
    LargeTwice(ValuesIn(b, ROWS, ByKey(k)));
    assert Nonzero(b, ROWS, k);
  }
}
