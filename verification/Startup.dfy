/** The gate that every restart passes before it serves, and the trial balance that clients
    ask for: both add up the splits of the whole book, in whatever order the engine lists them. */
module Startup {
  import opened Options
  import opened Errors
  import opened Numerics
  import opened Books
  import opened Sequences
  import TextOrder
  import opened Handlers

  /** A complete listing: each split of the transactions in among once, in any order. */
  ghost predicate Lists(b: Book, among: set<Guid>, rows: seq<Row>) {
    && Distinct(rows)
    && forall row :: row in rows <==> row.transaction in among && IsRow(b, row)
  }

  /** The gate groups by namespace and mnemonic joined into one text, the trial balance by
      the pair. */
  datatype Group = ByKey(key: string) | ByCurrency(currency: CommodityId)

  function KeyOf(c: CommodityId): string {
    c.space + ":" + c.mnemonic
  }

  predicate InGroup(g: Group, c: Option<CommodityId>) {
    c.Some? && match g case ByKey(k) => KeyOf(c.value) == k case ByCurrency(d) => c.value == d
  }

  function CurrencyOf(b: Book, row: Row): Option<CommodityId>
    requires IsRow(b, row)
  {
    b.transactions[row.transaction].currency
  }

  function ValueOf(b: Book, row: Row): Value
    requires IsRow(b, row)
  {
    b.transactions[row.transaction].splits[row.index].value
  }

  /** The values of a group, in the order listed. */
  function ValuesIn(b: Book, rows: seq<Row>, g: Group): seq<Value>
    requires AreRows(b, rows)
  {
    if rows == [] then []
    else
      var front, last := ValuesIn(b, rows[..|rows| - 1], g), rows[|rows| - 1];
      if InGroup(g, CurrencyOf(b, last)) then front + [ValueOf(b, last)] else front
  }

  /** Adding row i to the sums of all groups seen. */
  lemma ValuesExtend(b: Book, rows: seq<Row>, i: nat, g: Group)
    requires AreRows(b, rows) && i < |rows|
    ensures ValuesIn(b, rows[..i + 1], g) ==
            ValuesIn(b, rows[..i], g) + (if InGroup(g, CurrencyOf(b, rows[i])) then [ValueOf(b, rows[i])] else [])
    ensures RunningSum(ValuesIn(b, rows[..i + 1], g)) ==
            if InGroup(g, CurrencyOf(b, rows[i])) then AddSticky(RunningSum(ValuesIn(b, rows[..i], g)), ValueOf(b, rows[i]))
            else RunningSum(ValuesIn(b, rows[..i], g))
  {
    assert rows[..i + 1][..i] == rows[..i];
    var vs := ValuesIn(b, rows[..i + 1], g);
    if InGroup(g, CurrencyOf(b, rows[i])) {
      assert vs[..|vs| - 1] == ValuesIn(b, rows[..i], g);
    }
  }

  /** Some row among the first i falls into the group. */
  ghost predicate Seen(b: Book, rows: seq<Row>, i: nat, g: Group)
    requires AreRows(b, rows) && i <= |rows|
  {
    exists j :: 0 <= j < i && InGroup(g, CurrencyOf(b, rows[j]))
  }

  /** The sum exists and is zero. */
  predicate SumsToZero(sum: Option<Value>) {
    sum.Some? && sum.value.num == 0
  }

  /** The engine's imbalance, summed over the splits in their stored order, is zero. */
  predicate BalancedTransaction(b: Book, t: Guid)
    requires t in b.transactions
  {
    SumsToZero(RunningSum(Values(b.transactions[t].splits)))
  }

  /** The key is in the listing and its sum is not zero. */
  ghost predicate Nonzero(b: Book, rows: seq<Row>, key: string)
    requires AreRows(b, rows)
  {
    Seen(b, rows, |rows|, ByKey(key)) && !SumsToZero(RunningSum(ValuesIn(b, rows, ByKey(key))))
  }

  /** What the gate demands of a listing. */
  ghost predicate GateHolds(b: Book, rows: seq<Row>)
    requires AreRows(b, rows)
  {
    && (forall i :: 0 <= i < |rows| ==> BalancedTransaction(b, rows[i].transaction))
    && forall k :: !Nonzero(b, rows, k)
  }

  function Find<K, V>(m: map<K, V>, k: K): Option<V> {
    if k in m then Some(m[k]) else None
  }

  /** A group's entry in a map of sums after i rows: its running sum, if one of them is in it. */
  ghost predicate SumOk(b: Book, rows: seq<Row>, i: nat, g: Group, entry: Option<Option<Value>>)
    requires AreRows(b, rows) && i <= |rows|
  {
    if entry.Some? then Seen(b, rows, i, g) && entry.value == RunningSum(ValuesIn(b, rows[..i], g))
    else !Seen(b, rows, i, g) && ValuesIn(b, rows[..i], g) == []
  }

  function Plus(entry: Option<Option<Value>>, v: Value): Option<Option<Value>> {
    Some(AddSticky(if entry.Some? then entry.value else Some(ZERO), v))
  }

  lemma SumGrows(b: Book, rows: seq<Row>, i: nat, g: Group, entry: Option<Option<Value>>)
    requires AreRows(b, rows) && i < |rows| && SumOk(b, rows, i, g, entry)
    ensures SumOk(b, rows, i + 1, g,
                  if InGroup(g, CurrencyOf(b, rows[i])) then Plus(entry, ValueOf(b, rows[i])) else entry)
  {
    ValuesExtend(b, rows, i, g);
    if Seen(b, rows, i, g) {
      var j :| 0 <= j < i && InGroup(g, CurrencyOf(b, rows[j]));
    }
  }

  /** sums holds the running sum of each group seen among the first i rows. */
  ghost predicate Summed(b: Book, rows: seq<Row>, i: nat, sums: map<string, Option<Value>>)
    requires AreRows(b, rows) && i <= |rows|
  {
    forall k :: SumOk(b, rows, i, ByKey(k), Find(sums, k))
  }

  /** imbalanced is the transaction of the first of these rows that is not balanced, if any. */
  ghost predicate Watched(b: Book, rows: seq<Row>, imbalanced: Option<Guid>)
    requires AreRows(b, rows)
  {
    if imbalanced.None? then forall j :: 0 <= j < |rows| ==> BalancedTransaction(b, rows[j].transaction)
    else
      exists n :: 0 <= n < |rows| && rows[n].transaction == imbalanced.value
                  && !BalancedTransaction(b, rows[n].transaction)
                  && forall j :: 0 <= j < n ==> BalancedTransaction(b, rows[j].transaction)
  }

  method AddRow(b: Book, rows: seq<Row>, i: nat, sums: map<string, Option<Value>>)
    returns (sums': map<string, Option<Value>>)
    requires AreRows(b, rows) && i < |rows| && Summed(b, rows, i, sums)
    ensures Summed(b, rows, i + 1, sums')
  {
    sums' := sums;
    var currency := CurrencyOf(b, rows[i]);
    if currency.Some? {
      var key := KeyOf(currency.value);
      var sum := if key in sums then sums[key] else Some(ZERO);
      sums' := sums[key := AddSticky(sum, ValueOf(b, rows[i]))];
    }
    forall k
      ensures SumOk(b, rows, i + 1, ByKey(k), Find(sums', k))
    {
      SumGrows(b, rows, i, ByKey(k), Find(sums, k));
    }
  }

  method WatchRow(b: Book, rows: seq<Row>, i: nat, imbalanced: Option<Guid>) returns (imbalanced': Option<Guid>)
    requires AreRows(b, rows) && i < |rows| && Watched(b, rows[..i], imbalanced)
    ensures Watched(b, rows[..i + 1], imbalanced')
  {
    var longer, shorter := rows[..i + 1], rows[..i];
    assert forall j :: 0 <= j < i ==> longer[j] == shorter[j];
    assert longer[i] == rows[i];
    imbalanced' := imbalanced;
    if imbalanced.None? && !BalancedTransaction(b, rows[i].transaction) {
      imbalanced' := Some(rows[i].transaction);
    }
  }

  /** key is the first in the order of the keys whose sum is not zero. */
  ghost predicate FirstNonzero(b: Book, rows: seq<Row>, key: string)
    requires AreRows(b, rows)
  {
    && Nonzero(b, rows, key)
    && forall k :: Nonzero(b, rows, k) ==> k == key || TextOrder.Before(key, k)
  }

  /** The keys of a std::map, as it iterates over them. */
  method KeysInOrder(sums: map<string, Option<Value>>) returns (keys: seq<string>)
    ensures TextOrder.InOrder(keys)
    ensures forall k :: k in keys <==> k in sums
  {
    keys := [];
    var rest := sums.Keys;
    while rest != {}
      invariant TextOrder.InOrder(keys) && rest <= sums.Keys
      invariant forall k :: k in keys <==> k in sums && k !in rest
    {
      var k :| k in rest;
      rest := rest - {k};
      TextOrder.InsertKeepsOrder(keys, k);
      keys := TextOrder.Insert(keys, k);
    }
  }

  /** The second half of the gate: the first key whose sum is not zero. */
  method CheckSums(b: Book, rows: seq<Row>, sums: map<string, Option<Value>>) returns (failing: Option<string>)
    requires AreRows(b, rows) && Summed(b, rows, |rows|, sums)
    ensures if failing.Some? then FirstNonzero(b, rows, failing.value) else forall k :: !Nonzero(b, rows, k)
  {
    assert rows[..|rows|] == rows;
    assert forall k :: SumOk(b, rows, |rows|, ByKey(k), Find(sums, k));
    var keys := KeysInOrder(sums);
    for n := 0 to |keys|
      invariant forall j :: 0 <= j < n ==> !Nonzero(b, rows, keys[j])
    {
      assert keys[n] in sums;
      if !SumsToZero(sums[keys[n]]) {
        forall k | Nonzero(b, rows, k)
          ensures k == keys[n] || TextOrder.Before(keys[n], k)
        {
          assert k in keys;
          var j :| 0 <= j < |keys| && keys[j] == k;
        }
        return Some(keys[n]);
      }
    }
    return None;
  }

  /** The first half: one pass over the splits. */
  method WatchAndAdd(b: Book, rows: seq<Row>) returns (imbalanced: Option<Guid>, sums: map<string, Option<Value>>)
    requires AreRows(b, rows)
    ensures Watched(b, rows, imbalanced) && Summed(b, rows, |rows|, sums)
  {
    imbalanced, sums := None, map[];
    for i := 0 to |rows|
      invariant Watched(b, rows[..i], imbalanced) && Summed(b, rows, i, sums)
    {
      imbalanced := WatchRow(b, rows, i, imbalanced);
      sums := AddRow(b, rows, i, sums);
    }
    assert rows[..|rows|] == rows;
  }

  /** The startup gate. It lets the daemon serve exactly when the engine finds every listed
      transaction balanced and every group's running sum ends at zero without overflow; else it
      names the first transaction listed, or the first key, that fails. */
  method RunStartupChecks(b: Book, rows: seq<Row>) returns (r: Result<(), ShimError>)
    requires AreRows(b, rows)
    ensures r.Ok? <==> GateHolds(b, rows)
    ensures r.Err? ==> r.error.code == EngineError && r.error.message in {ImbalancedTransaction, TrialBalanceNonzero}
    ensures r.Err? && r.error.message == ImbalancedTransaction ==>
              r.error.context.Entity? && Watched(b, rows, Some(r.error.context.guid))
    ensures r.Err? && r.error.message == TrialBalanceNonzero ==>
              r.error.context.Field? && Watched(b, rows, None) && FirstNonzero(b, rows, r.error.context.name)
  {
    var imbalanced, sums := WatchAndAdd(b, rows);
    if imbalanced.Some? {
      return Err(ShimError(EngineError, ImbalancedTransaction, Entity(imbalanced.value)));
    }
    var failing := CheckSums(b, rows, sums);
    if failing.Some? {
      return Err(ShimError(EngineError, TrialBalanceNonzero, Field(failing.value)));
    }
    return Ok(());
  }

  /** The trial balance: for each currency in the listing, the running sum of its values. */
  method GetTrialBalance(b: Book, rows: seq<Row>) returns (entries: map<CommodityId, Option<Value>>)
    requires AreRows(b, rows)
    ensures forall c :: c in entries <==> Seen(b, rows, |rows|, ByCurrency(c))
    ensures forall c :: c in entries ==> entries[c] == RunningSum(ValuesIn(b, rows, ByCurrency(c)))
  {
    entries := map[];
    for i := 0 to |rows|
      invariant forall c :: SumOk(b, rows, i, ByCurrency(c), Find(entries, c))
    {
      ghost var before := entries;
      var currency := CurrencyOf(b, rows[i]);
      if currency.Some? {
        var sum := if currency.value in entries then entries[currency.value] else Some(ZERO);
        entries := entries[currency.value := AddSticky(sum, ValueOf(b, rows[i]))];
      }
      forall c
        ensures SumOk(b, rows, i + 1, ByCurrency(c), Find(entries, c))
      {
        SumGrows(b, rows, i, ByCurrency(c), Find(before, c));
      }
    }
    assert rows[..|rows|] == rows;
    assert forall c :: SumOk(b, rows, |rows|, ByCurrency(c), Find(entries, c));
  }

  // ---- a complete listing of a well-formed book sums to zero in every group

  lemma {:induction false} ValuesConcat(b: Book, a: seq<Row>, c: seq<Row>, g: Group)
    requires AreRows(b, a) && AreRows(b, c)
    ensures AreRows(b, a + c) && ValuesIn(b, a + c, g) == ValuesIn(b, a, g) + ValuesIn(b, c, g)
  {
    if c == [] {
      assert a + c == a;
    } else {
      ValuesConcat(b, a, c[..|c| - 1], g);
      assert (a + c)[..|a + c| - 1] == a + c[..|c| - 1];
    }
  }

  /** Taking one row out takes its value out of its group. */
  lemma ValuesTakeOut(b: Book, rows: seq<Row>, i: nat, g: Group)
    requires AreRows(b, rows) && i < |rows|
    ensures AreRows(b, Without(rows, i))
    ensures multiset(ValuesIn(b, rows, g)) == multiset(ValuesIn(b, Without(rows, i), g)) +
            (if InGroup(g, CurrencyOf(b, rows[i])) then multiset{ValueOf(b, rows[i])} else multiset{})
  {
    var front, back := rows[..i], rows[i + 1..];
    assert rows == front + ([rows[i]] + back);
    ValuesConcat(b, [rows[i]], back, g);
    ValuesConcat(b, front, [rows[i]] + back, g);
    ValuesConcat(b, front, back, g);
    assert [rows[i]][..0] == [];
  }

  /** Two listings of the same rows hold the same values in every group. */
  lemma {:induction false} ValuesReorder(b: Book, rows: seq<Row>, order: seq<Row>, g: Group)
    requires AreRows(b, rows) && AreRows(b, order) && multiset(rows) == multiset(order)
    ensures multiset(ValuesIn(b, rows, g)) == multiset(ValuesIn(b, order, g))
    decreases |rows|
  {
    if rows == [] {
      assert |multiset(order)| == |order|;
    } else {
      assert rows[0] in multiset(order);
      var i :| 0 <= i < |order| && order[i] == rows[0];
      PullOut(rows, 0);
      PullOut(order, i);
      Cancel(multiset(Without(rows, 0)), multiset(Without(order, i)), rows[0]);
      ValuesTakeOut(b, rows, 0, g);
      ValuesTakeOut(b, order, i, g);
      ValuesReorder(b, Without(rows, 0), Without(order, i), g);
    }
  }

  function RowsOf(b: Book, t: Guid, n: nat): seq<Row> {
    seq(n, i requires 0 <= i < n => Row(t, i))
  }

  lemma {:induction false} TransactionValues(b: Book, t: Guid, n: nat, g: Group)
    requires t in b.transactions && n <= |b.transactions[t].splits|
    ensures AreRows(b, RowsOf(b, t, n))
    ensures ValuesIn(b, RowsOf(b, t, n), g) ==
            if InGroup(g, b.transactions[t].currency) then Values(b.transactions[t].splits[..n]) else []
  {
    if n > 0 {
      TransactionValues(b, t, n - 1, g);
      assert RowsOf(b, t, n)[..n - 1] == RowsOf(b, t, n - 1);
      assert Values(b.transactions[t].splits[..n]) ==
             Values(b.transactions[t].splits[..n - 1]) + [b.transactions[t].splits[n - 1].value];
    }
  }

  lemma BookOrder(b: Book, among: set<Guid>) returns (rows: seq<Row>)
    requires among <= b.transactions.Keys
    requires forall t :: t in among ==> RealSum(Values(b.transactions[t].splits)) == 0.0
    ensures Lists(b, among, rows) && AreRows(b, rows)
    ensures forall g :: RealSum(ValuesIn(b, rows, g)) == 0.0
    decreases among
  {
    if among == {} {
      rows := [];
    } else {
      var t :| t in among;
      var rest := BookOrder(b, among - {t});
      var n := |b.transactions[t].splits|;
      var own := RowsOf(b, t, n);
      rows := rest + own;
      forall row
        ensures row in rows <==> row.transaction in among && IsRow(b, row)
      {
        if row.transaction == t && IsRow(b, row) {
          assert own[row.index] == row;
        }
      }
      forall g
        ensures RealSum(ValuesIn(b, rows, g)) == 0.0
      {
        TransactionValues(b, t, n, g);
        assert b.transactions[t].splits[..n] == b.transactions[t].splits;
        ValuesConcat(b, rest, own, g);
        RealSumConcat(ValuesIn(b, rest, g), ValuesIn(b, own, g));
      }
    }
  }

  /** What the listed splits of transactions in this currency add up to, as real numbers. */
  ghost function CurrencyTotal(b: Book, rows: seq<Row>, c: CommodityId): real
    requires AreRows(b, rows)
  {
    if rows == [] then 0.0
    else
      var row := rows[|rows| - 1];
      var t := b.transactions[row.transaction];
      CurrencyTotal(b, rows[..|rows| - 1], c) + (if t.currency == Some(c) then RealOf(t.splits[row.index].value) else 0.0)
  }

  /** The same for the currencies whose namespace and mnemonic join to this text. */
  ghost function JoinedTotal(b: Book, rows: seq<Row>, text: string): real
    requires AreRows(b, rows)
  {
    if rows == [] then 0.0
    else
      var row := rows[|rows| - 1];
      var t := b.transactions[row.transaction];
      JoinedTotal(b, rows[..|rows| - 1], text) +
      (if t.currency.Some? && t.currency.value.space + ":" + t.currency.value.mnemonic == text
       then RealOf(t.splits[row.index].value) else 0.0)
  }

  /** The values of a group of the trial balance add up to just that. */
  lemma {:induction false} CurrencyGroup(b: Book, rows: seq<Row>, c: CommodityId)
    requires AreRows(b, rows)
    ensures RealSum(ValuesIn(b, rows, ByCurrency(c))) == CurrencyTotal(b, rows, c)
  {
    if rows != [] {
      CurrencyGroup(b, rows[..|rows| - 1], c);
      ValueSumExtends(b, rows, ByCurrency(c));
    }
  }

  /** And so do those of a group of the gate. */
  lemma {:induction false} JoinedGroup(b: Book, rows: seq<Row>, text: string)
    requires AreRows(b, rows)
    ensures RealSum(ValuesIn(b, rows, ByKey(text))) == JoinedTotal(b, rows, text)
  {
    if rows != [] {
      JoinedGroup(b, rows[..|rows| - 1], text);
      ValueSumExtends(b, rows, ByKey(text));
      SameText(CurrencyOf(b, rows[|rows| - 1]), text);
    }
  }

  lemma SameText(c: Option<CommodityId>, text: string)
    ensures InGroup(ByKey(text), c) <==> c.Some? && c.value.space + ":" + c.value.mnemonic == text
  {
  }

  lemma ValueSumExtends(b: Book, rows: seq<Row>, g: Group)
    requires AreRows(b, rows) && rows != []
    ensures var n := |rows| - 1;
            RealSum(ValuesIn(b, rows, g)) ==
            RealSum(ValuesIn(b, rows[..n], g)) + (if InGroup(g, CurrencyOf(b, rows[n])) then RealOf(ValueOf(b, rows[n])) else 0.0)
  {
    var n := |rows| - 1;
    var vs := ValuesIn(b, rows, g);
    if InGroup(g, CurrencyOf(b, rows[n])) {
      assert vs[..|vs| - 1] == ValuesIn(b, rows[..n], g);
    }
  }

  /** The engine's sums are exact: one that did not overflow is the real total of its currency,
      and of the currencies behind its key. */
  lemma SumsAreTotals(b: Book, rows: seq<Row>, c: CommodityId, text: string)
    requires AreRows(b, rows)
    ensures var sum := RunningSum(ValuesIn(b, rows, ByCurrency(c)));
            sum.Some? ==> RealOf(sum.value) == CurrencyTotal(b, rows, c)
    ensures var sum := RunningSum(ValuesIn(b, rows, ByKey(text)));
            sum.Some? ==> (SumsToZero(sum) <==> JoinedTotal(b, rows, text) == 0.0)
  {
    RunningSumExact(ValuesIn(b, rows, ByCurrency(c)));
    RunningSumExact(ValuesIn(b, rows, ByKey(text)));
    CurrencyGroup(b, rows, c);
    JoinedGroup(b, rows, text);
  }

  /** Double entry over the whole book: in any complete listing every group sums to exactly
      zero, as real numbers. */
  lemma GroupsSumToZero(b: Book, rows: seq<Row>, g: Group)
    requires WellFormed(b) && Lists(b, b.transactions.Keys, rows) && AreRows(b, rows)
    ensures RealSum(ValuesIn(b, rows, g)) == 0.0
  {
    assert forall t :: t in b.transactions ==> TransactionOk(b, b.transactions[t]);
    var order := BookOrder(b, b.transactions.Keys);
    SameElementsPermute(rows, order);
    ValuesReorder(b, rows, order, g);
    RealSumPermutation(ValuesIn(b, rows, g), ValuesIn(b, order, g), 1);
  }

  /** No partial sum of a listed transaction, in its stored order, leaves 64 bits. */
  ghost predicate TransactionsFit(b: Book, rows: seq<Row>)
    requires AreRows(b, rows)
  {
    forall i :: 0 <= i < |rows| ==> AllPrefixesFit(Values(b.transactions[rows[i].transaction].splits))
  }

  /** No partial sum of a group, in the order listed, leaves 64 bits. */
  ghost predicate GroupsFit(b: Book, rows: seq<Row>)
    requires AreRows(b, rows)
  {
    forall k :: Seen(b, rows, |rows|, ByKey(k)) ==> AllPrefixesFit(ValuesIn(b, rows, ByKey(k)))
  }

  lemma BalancedIffFits(b: Book, t: Guid)
    requires WellFormed(b) && t in b.transactions
    ensures BalancedTransaction(b, t) <==> AllPrefixesFit(Values(b.transactions[t].splits))
  {
    assert TransactionOk(b, b.transactions[t]);
    RunningSumExact(Values(b.transactions[t].splits));
  }

  lemma ZeroIffFits(b: Book, rows: seq<Row>, g: Group)
    requires WellFormed(b) && Lists(b, b.transactions.Keys, rows) && AreRows(b, rows)
    ensures SumsToZero(RunningSum(ValuesIn(b, rows, g))) <==> AllPrefixesFit(ValuesIn(b, rows, g))
  {
    GroupsSumToZero(b, rows, g);
    RunningSumExact(ValuesIn(b, rows, g));
  }

  /** On a book reached by accepted mutations the gate can refuse for one reason only: it lets
      the daemon serve exactly when no partial sum, of any transaction in its stored order or of
      any group in the order listed, leaves 64 bits. */
  lemma GateRefusesOnlyOverflow(b: Book, rows: seq<Row>)
    requires WellFormed(b) && Lists(b, b.transactions.Keys, rows) && AreRows(b, rows)
    ensures GateHolds(b, rows) <==> TransactionsFit(b, rows) && GroupsFit(b, rows)
  {
    forall i | 0 <= i < |rows|
      ensures BalancedTransaction(b, rows[i].transaction) <==>
              AllPrefixesFit(Values(b.transactions[rows[i].transaction].splits))
    {
      BalancedIffFits(b, rows[i].transaction);
    }
    forall k
      ensures Nonzero(b, rows, k) <==>
              Seen(b, rows, |rows|, ByKey(k)) && !AllPrefixesFit(ValuesIn(b, rows, ByKey(k)))
    {
      ZeroIffFits(b, rows, ByKey(k));
    }
  }

  /** Every group of the listing stays small over some common denominator. */
  ghost predicate Bounded(b: Book, rows: seq<Row>)
    requires AreRows(b, rows)
  {
    forall g: Group :: g.ByKey? ==> exists m: pos :: WithinBound(ValuesIn(b, rows, g), m)
  }

  /** A complete listing that begins with one transaction's splits in their stored order. */
  lemma ListedFirst(b: Book, t: Guid) returns (order: seq<Row>)
    requires WellFormed(b) && t in b.transactions
    ensures Lists(b, b.transactions.Keys, order) && AreRows(b, order)
    ensures forall g :: InGroup(g, b.transactions[t].currency) ==>
              Values(b.transactions[t].splits) <= ValuesIn(b, order, g)
  {
    assert forall u :: u in b.transactions ==> TransactionOk(b, b.transactions[u]);
    var n := |b.transactions[t].splits|;
    var rest := BookOrder(b, b.transactions.Keys - {t});
    var own := RowsOf(b, t, n);
    order := own + rest;
    forall row
      ensures row in order <==> row.transaction in b.transactions && IsRow(b, row)
    {
      if row.transaction == t && IsRow(b, row) {
        assert own[row.index] == row;
      }
    }
    forall g | InGroup(g, b.transactions[t].currency)
      ensures Values(b.transactions[t].splits) <= ValuesIn(b, order, g)
    {
      TransactionValues(b, t, n, g);
      assert b.transactions[t].splits[..n] == b.transactions[t].splits;
      ValuesConcat(b, own, rest, g);
    }
  }

  /** A bounded group never overflows, in any order of its rows. */
  lemma BoundedGroupFits(b: Book, rows: seq<Row>, order: seq<Row>, g: Group)
    requires Lists(b, b.transactions.Keys, rows) && AreRows(b, rows) && Bounded(b, rows) && g.ByKey?
    requires Lists(b, b.transactions.Keys, order) && AreRows(b, order)
    ensures AllPrefixesFit(ValuesIn(b, order, g))
  {
    SameElementsPermute(rows, order);
    var m: pos :| WithinBound(ValuesIn(b, rows, g), m);
    ValuesReorder(b, rows, order, g);
    BoundedInEveryOrder(ValuesIn(b, rows, g), m, ValuesIn(b, order, g));
    RunningSumExact(ValuesIn(b, order, g));
  }

  lemma BoundedTransactionFits(b: Book, rows: seq<Row>, t: Guid)
    requires WellFormed(b) && t in b.transactions
    requires Lists(b, b.transactions.Keys, rows) && AreRows(b, rows) && Bounded(b, rows)
    ensures AllPrefixesFit(Values(b.transactions[t].splits))
  {
    assert TransactionOk(b, b.transactions[t]);
    var g := ByKey(KeyOf(b.transactions[t].currency.value));
    var order := ListedFirst(b, t);
    BoundedGroupFits(b, rows, order, g);
    PrefixFits(ValuesIn(b, order, g), Values(b.transactions[t].splits));
  }

  /** Restart always succeeds: if one listing of the book is bounded, every listing passes. */
  lemma BoundedBookPasses(b: Book, rows: seq<Row>, order: seq<Row>)
    requires WellFormed(b)
    requires Lists(b, b.transactions.Keys, rows) && AreRows(b, rows) && Bounded(b, rows)
    requires Lists(b, b.transactions.Keys, order) && AreRows(b, order)
    ensures GateHolds(b, order)
  {
    GateRefusesOnlyOverflow(b, order);
    forall i | 0 <= i < |order|
      ensures AllPrefixesFit(Values(b.transactions[order[i].transaction].splits))
    {
      BoundedTransactionFits(b, rows, order[i].transaction);
    }
    forall k
      ensures AllPrefixesFit(ValuesIn(b, order, ByKey(k)))
    {
      BoundedGroupFits(b, rows, order, ByKey(k));
    }
  }

  /** Some listing of the book passes the gate. */
  ghost predicate Opens(b: Book) {
    exists rows :: Passes(b, rows)
  }

  ghost predicate Passes(b: Book, rows: seq<Row>) {
    AreRows(b, rows) && Lists(b, b.transactions.Keys, rows) && GateHolds(b, rows)
  }

  /** A book of accepted mutations opens exactly if some listing of it has no partial sum that
      leaves 64 bits; a bounded one does. */
  lemma OpensIffFits(b: Book)
    requires WellFormed(b)
    ensures Opens(b) <==>
            exists rows :: AreRows(b, rows) && Lists(b, b.transactions.Keys, rows) && TransactionsFit(b, rows) && GroupsFit(b, rows)
  {
    forall rows | AreRows(b, rows) && Lists(b, b.transactions.Keys, rows)
      ensures Passes(b, rows) <==> TransactionsFit(b, rows) && GroupsFit(b, rows)
    {
      GateRefusesOnlyOverflow(b, rows);
    }
  }

  lemma BoundedBookOpens(b: Book, rows: seq<Row>)
    requires WellFormed(b)
    requires Lists(b, b.transactions.Keys, rows) && AreRows(b, rows) && Bounded(b, rows)
    ensures Opens(b)
  {
    BoundedBookPasses(b, rows, rows);
    assert Passes(b, rows);
  }
}
