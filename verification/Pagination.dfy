/** Cursor pagination over the engine's result list: value bounds are filtered after the
    cursor has been skipped to, and the cursor is the GUID of the last split of a page. */
module Pagination {
  import opened Options
  import opened Errors
  import opened Numerics
  import opened Books
  import opened Planning

  /** A split as a query shows it: with its transaction's context. */
  datatype Found = Found(split: SplitView, transaction: Guid, postDate: Option<Day>,
                         description: string, currency: Option<CommodityId>)

  function Show(b: Book, row: Row): Found
    requires IsRow(b, row)
  {
    var t := b.transactions[row.transaction];
    Found(SplitToProto(t.splits[row.index]), row.transaction, t.postDate, t.description, t.currency)
  }

  /** The engine's result list as it would all be shown. */
  function ShowAll(b: Book, rows: seq<Row>): seq<Found>
    requires AreRows(b, rows)
  {
    seq(|rows|, i requires 0 <= i < |rows| => Show(b, rows[i]))
  }

  /** Entry i is split i as the book stores it, with the context of its own transaction. */
  lemma ShownIsStored(b: Book, rows: seq<Row>, i: nat)
    requires AreRows(b, rows) && i < |rows|
    ensures var f, g := ShowAll(b, rows)[i], rows[i].transaction;
            var t := b.transactions[g];
            var s := t.splits[rows[i].index];
            && f.transaction == g && f.postDate == t.postDate && f.description == t.description && f.currency == t.currency
            && f.split.guid == s.guid && f.split.account == s.account && f.split.value == s.value
            && f.split.quantity == s.quantity && f.split.memo == s.memo && f.split.action == s.action
            && (s.reconcile in "ncyfv" ==> FlagFor(f.split.state, s.reconcile) && !f.split.state.UnspecifiedState?)
            && (s.reconcile !in "ncyfv" ==> f.split.state.UnspecifiedState?)
  {
  }

  datatype Bounds = Bounds(min: Option<Value>, max: Option<Value>)

  datatype Page = Page(splits: seq<Found>, next: Option<Guid>)

  const DEFAULT_PAGE_SIZE := 100
  const MAX_PAGE_SIZE := 500

  function PageSize(requested: int): pos {
    if requested <= 0 then DEFAULT_PAGE_SIZE
    else if requested > MAX_PAGE_SIZE then MAX_PAGE_SIZE else requested
  }

  predicate InBounds(b: Bounds, v: Value) {
    && (b.min.Some? ==> RealOf(v) >= RealOf(b.min.value))
    && (b.max.Some? ==> RealOf(v) <= RealOf(b.max.value))
  }

  /** The inclusive range of values, in integers: the denominators are positive. */
  predicate Within(b: Bounds, v: Value) {
    && (b.min.Some? ==> b.min.value.num * v.denom <= v.num * b.min.value.denom)
    && (b.max.Some? ==> v.num * b.max.value.denom <= b.max.value.num * v.denom)
  }

  lemma CompareQuotients(x: real, d: real, y: real, e: real)
    requires d > 0.0 && e > 0.0
    ensures x / d <= y / e <==> x * e <= y * d
  {
    var p, q := x / d, y / e;
    assert p * d == x && q * e == y;
    assert x * e == p * (d * e) && y * d == q * (d * e);
    assert d * e > 0.0;
  }

  lemma CompareValues(v: Value, w: Value)
    ensures RealOf(v) <= RealOf(w) <==> v.num * w.denom <= w.num * v.denom
  {
    CompareQuotients(v.num as real, v.denom as real, w.num as real, w.denom as real);
    assert (v.num * w.denom) as real == v.num as real * w.denom as real;
    assert (w.num * v.denom) as real == w.num as real * v.denom as real;
  }

  /** The filter keeps exactly the values within the range, its two ends included. */
  lemma InBoundsIffWithin(b: Bounds, v: Value)
    ensures InBounds(b, v) <==> Within(b, v)
  {
    if b.min.Some? {
      CompareValues(b.min.value, v);
    }
    if b.max.Some? {
      CompareValues(v, b.max.value);
    }
  }

  predicate Passes(b: Bounds, f: Found) {
    InBounds(b, f.split.value)
  }

  /** Where a page starts: behind its token's split; None if the token matches no result. */
  function StartOf(results: seq<Found>, token: GuidText): (r: Option<nat>)
    ensures r.Some? ==> r.value <= |results|
  {
    if token.NoGuid? then Some(0)
    else if results == [] then None
    else
      var r := StartOf(results[..|results| - 1], token);
      if r.Some? then r
      else if token == Wire(results[|results| - 1].split.guid) then Some(|results|) else None
  }

  /** The positions from `from` on whose split passes, in order. */
  function Matches(results: seq<Found>, b: Bounds, from: nat): (ms: seq<nat>)
    ensures forall k :: 0 <= k < |ms| ==> from <= ms[k] < |results| && Passes(b, results[ms[k]])
    decreases |results| - from
  {
    if from >= |results| then []
    else if Passes(b, results[from]) then [from] + Matches(results, b, from + 1)
    else Matches(results, b, from + 1)
  }

  lemma {:induction false} MatchesInOrder(results: seq<Found>, b: Bounds, from: nat, j: nat, k: nat)
    requires j < k < |Matches(results, b, from)|
    ensures Matches(results, b, from)[j] < Matches(results, b, from)[k]
    decreases |results| - from
  {
    if !Passes(b, results[from]) {
      MatchesInOrder(results, b, from + 1, j, k);
    } else if j > 0 {
      MatchesInOrder(results, b, from + 1, j - 1, k - 1);
    }
  }

  lemma {:induction false} MatchesComplete(results: seq<Found>, b: Bounds, from: nat, i: nat)
    requires from <= i < |results| && Passes(b, results[i])
    ensures i in Matches(results, b, from)
    decreases i - from
  {
    if from < i {
      MatchesComplete(results, b, from + 1, i);
    }
  }

  function At(results: seq<Found>, ms: seq<nat>): seq<Found>
    requires forall k :: 0 <= k < |ms| ==> ms[k] < |results|
  {
    seq(|ms|, k requires 0 <= k < |ms| => results[ms[k]])
  }

  /** The page that a query with this token returns. */
  function PageAt(results: seq<Found>, b: Bounds, start: nat, size: pos): Page
    requires start <= |results|
  {
    var ms := Matches(results, b, start);
    if |ms| <= size then Page(At(results, ms), None)
    else Page(At(results, ms[..size]), Some(results[ms[size - 1]].split.guid))
  }

  function QueryPage(results: seq<Found>, b: Bounds, token: GuidText, requested: int): Result<Page, ShimError> {
    match StartOf(results, token)
    case None => Err(ShimError(InvalidArgument, TokenMismatch, Field("page_token")))
    case Some(start) => Ok(PageAt(results, b, start, PageSize(requested)))
  }

  lemma {:induction false} MatchesExtend(results: seq<Found>, b: Bounds, from: nat, i: nat)
    requires from <= i < |results|
    ensures Matches(results[..i + 1], b, from) ==
            Matches(results[..i], b, from) + (if Passes(b, results[i]) then [i] else [])
    decreases i - from
  {
    if from < i {
      MatchesExtend(results, b, from + 1, i);
    }
  }

  lemma {:induction false} MatchesPrefix(results: seq<Found>, b: Bounds, from: nat, i: nat)
    requires from <= i <= |results|
    ensures Matches(results[..i], b, from) <= Matches(results, b, from)
    decreases |results| - i
  {
    if i == |results| {
      assert results[..i] == results;
    } else {
      MatchesExtend(results, b, from, i);
      MatchesPrefix(results, b, from, i + 1);
    }
  }

  /** StartOf finds the first split that the token names, and nothing else. */
  lemma {:induction false} StartIsBehindToken(results: seq<Found>, token: GuidText)
    requires !token.NoGuid?
    ensures var r := StartOf(results, token);
            if r.Some?
            then 0 < r.value && token == Wire(results[r.value - 1].split.guid)
                 && forall j :: 0 <= j < r.value - 1 ==> token != Wire(results[j].split.guid)
            else forall j :: 0 <= j < |results| ==> token != Wire(results[j].split.guid)
  {
    if results != [] {
      StartIsBehindToken(results[..|results| - 1], token);
    }
  }

  lemma StartFound(results: seq<Found>, token: GuidText, i: nat)
    requires i < |results| && token == Wire(results[i].split.guid)
    requires forall j :: 0 <= j < i ==> token != Wire(results[j].split.guid)
    ensures StartOf(results, token) == Some(i + 1)
  {
    StartIsBehindToken(results, token);
  }

  /** The matches behind the cursor among the first i results. */
  function Seen(results: seq<Found>, b: Bounds, start: nat, i: nat): seq<Found>
    requires start <= i <= |results|
  {
    At(results, Matches(results[..i], b, start))
  }

  lemma SeenWithin(results: seq<Found>, b: Bounds, start: nat, i: nat)
    requires start <= i <= |results|
    ensures forall k :: 0 <= k < |Seen(results, b, start, i)| ==> Within(b, Seen(results, b, start, i)[k].split.value)
  {
    forall k | 0 <= k < |Seen(results, b, start, i)|
      ensures Within(b, Seen(results, b, start, i)[k].split.value)
    {
      InBoundsIffWithin(b, Seen(results, b, start, i)[k].split.value);
    }
  }

  lemma SeeNext(results: seq<Found>, b: Bounds, start: nat, i: nat)
    requires start <= i < |results|
    ensures Seen(results, b, start, i + 1) == Seen(results, b, start, i) + (if Passes(b, results[i]) then [results[i]] else [])
  {
    MatchesExtend(results, b, start, i);
  }

  /** A page that is full when one more match turns up is cut there. */
  lemma FullPage(results: seq<Found>, b: Bounds, start: nat, i: nat, size: pos)
    requires start <= i < |results| && Passes(b, results[i])
    requires |Seen(results, b, start, i)| == size
    ensures var page := Seen(results, b, start, i);
            PageAt(results, b, start, size) == Page(page, Some(page[size - 1].split.guid))
  {
    var ms := Matches(results[..i], b, start);
    MatchesExtend(results, b, start, i);
    MatchesPrefix(results, b, start, i + 1);
    assert Matches(results, b, start)[..size] == ms;
    assert Matches(results, b, start)[size - 1] == ms[size - 1];
  }

  lemma LastPage(results: seq<Found>, b: Bounds, start: nat, size: pos)
    requires start <= |results| && |Seen(results, b, start, |results|)| <= size
    ensures PageAt(results, b, start, size) == Page(Seen(results, b, start, |results|), None)
  {
    assert results[..|results|] == results;
  }

  /** The cursor loop: skip to the token, filter, fill the page, and stop one match past it. */
  method QuerySplits(book: Book, rows: seq<Row>, b: Bounds, token: GuidText, requested: int)
    returns (r: Result<Page, ShimError>)
    requires AreRows(book, rows)
    ensures r == QueryPage(ShowAll(book, rows), b, token, requested)
    ensures r.Ok? ==> forall k :: 0 <= k < |r.value.splits| ==> Within(b, r.value.splits[k].split.value)
  {
    ghost var results := ShowAll(book, rows);
    var size := PageSize(requested);
    var skipping := !token.NoGuid?;
    var tokenSeen := false;
    ghost var start := 0;
    var page: seq<Found> := [];
    for i := 0 to |rows|
      invariant skipping ==> !token.NoGuid? && page == [] && !tokenSeen
      invariant skipping ==> forall j :: 0 <= j < i ==> token != Wire(results[j].split.guid)
      invariant !skipping ==> start <= i && StartOf(results, token) == Some(start) && |page| <= size
      invariant !skipping ==> page == Seen(results, b, start, i)
    {
      var split := book.transactions[rows[i].transaction].splits[rows[i].index];
      if skipping {
        if token == Wire(split.guid) {
          StartFound(results, token, i);
          skipping := false;
          tokenSeen := true;
          start := i + 1;
        }
        continue;
      }
      SeeNext(results, b, start, i);
      if !InBounds(b, split.value) {
        continue;
      }
      if |page| == size {
        FullPage(results, b, start, i, size);
        SeenWithin(results, b, start, i);
        return Ok(Page(page, Some(page[|page| - 1].split.guid)));
      }
      page := page + [Show(book, rows[i])];
    }
    if skipping && !tokenSeen {
      StartIsBehindToken(results, token);
      return Err(ShimError(InvalidArgument, TokenMismatch, Field("page_token")));
    }
    LastPage(results, b, start, size);
    SeenWithin(results, b, start, |rows|);
    return Ok(Page(page, None));
  }
}
