/** Following next-page tokens to the end: over an unchanged book, and while the result list
    changes between pages. */
module PagedWalk {
  import opened Options
  import opened Numerics
  import opened Books
  import opened Pagination

  ghost predicate DistinctGuids(results: seq<Found>) {
    forall i, j :: 0 <= i < j < |results| ==> results[i].split.guid != results[j].split.guid
  }

  predicate Holds(results: seq<Found>, i: int, g: Guid) {
    0 <= i < |results| && results[i].split.guid == g
  }

  ghost predicate Has(results: seq<Found>, g: Guid) {
    exists i :: Holds(results, i, g)
  }

  /** pages are what a client sees that follows tokens to the end, page k being answered from
      lists[k] and the first page asked for with the given token. */
  ghost predicate IsWalk(lists: seq<seq<Found>>, b: Bounds, token: GuidText, requested: int, pages: seq<Page>) {
    && |pages| == |lists| && pages != []
    && DistinctGuids(lists[0])
    && QueryPage(lists[0], b, token, requested) == Ok(pages[0])
    && match pages[0].next
       case None => |pages| == 1
       case Some(next) => IsWalk(lists[1..], b, Wire(next), requested, pages[1..])
  }

  // ---- an unchanged list

  /** The splits that pass, in order: what a walk should yield. */
  function Matching(results: seq<Found>, b: Bounds): seq<Found> {
    if results == [] then []
    else
      var front, last := Matching(results[..|results| - 1], b), results[|results| - 1];
      if Passes(b, last) then front + [last] else front
  }

  lemma {:induction false} MatchingIsFromStart(results: seq<Found>, b: Bounds)
    ensures At(results, Matches(results, b, 0)) == Matching(results, b)
  {
    if results != [] {
      var front, n := results[..|results| - 1], |results| - 1;
      MatchingIsFromStart(front, b);
      SeeNext(results, b, 0, n);
      assert results[..n + 1] == results;
      assert At(results, Matches(front, b, 0)) == At(front, Matches(front, b, 0));
    }
  }

  /** Behind its k-th match, a list has just the later matches. */
  lemma {:induction false} MatchesBehind(results: seq<Found>, b: Bounds, from: nat, k: nat, at: nat)
    requires k < |Matches(results, b, from)| && Matches(results, b, from)[k] == at
    ensures Matches(results, b, at + 1) == Matches(results, b, from)[k + 1..]
    decreases |results| - from
  {
    var rest := Matches(results, b, from + 1);
    if !Passes(b, results[from]) {
      assert Matches(results, b, from) == rest;
      MatchesBehind(results, b, from + 1, k, at);
    } else {
      assert Matches(results, b, from) == [from] + rest;
      assert ([from] + rest)[k + 1..] == rest[k..];
      if k > 0 {
        MatchesBehind(results, b, from + 1, k - 1, at);
      }
    }
  }

  lemma TokenFound(results: seq<Found>, i: nat)
    requires DistinctGuids(results) && i < |results|
    ensures StartOf(results, Wire(results[i].split.guid)) == Some(i + 1)
  {
    StartFound(results, Wire(results[i].split.guid), i);
  }

  function Concat(pages: seq<Page>): seq<Found> {
    if pages == [] then [] else pages[0].splits + Concat(pages[1..])
  }

  function Repeat<T>(x: T, n: nat): seq<T> {
    if n == 0 then [] else [x] + Repeat(x, n - 1)
  }

  lemma AtSplits(results: seq<Found>, ms: seq<nat>, k: nat)
    requires forall j :: 0 <= j < |ms| ==> ms[j] < |results|
    requires k <= |ms|
    ensures At(results, ms) == At(results, ms[..k]) + At(results, ms[k..])
  {
  }

  lemma PageHasAll(results: seq<Found>, b: Bounds, token: GuidText, requested: int, start: nat, page: Page)
    requires StartOf(results, token) == Some(start)
    requires QueryPage(results, b, token, requested) == Ok(page) && page.next.None?
    ensures page.splits == At(results, Matches(results, b, start))
  {
  }

  lemma CutAt(results: seq<Found>, b: Bounds, start: nat, n: nat, at: nat)
    requires n < |Matches(results, b, start)| && Matches(results, b, start)[n] == at
    ensures At(results, Matches(results, b, start)) ==
            At(results, Matches(results, b, start)[..n + 1]) + At(results, Matches(results, b, at + 1))
  {
    MatchesBehind(results, b, start, n, at);
    AtSplits(results, Matches(results, b, start), n + 1);
  }

  lemma FullPage(results: seq<Found>, b: Bounds, start: nat, size: pos)
    returns (last: nat)
    requires start <= |results| && PageAt(results, b, start, size).next.Some?
    ensures size - 1 < |Matches(results, b, start)| && Matches(results, b, start)[size - 1] == last
    ensures start <= last < |results|
    ensures PageAt(results, b, start, size) ==
            Page(At(results, Matches(results, b, start)[..size]), Some(results[last].split.guid))
  {
    last := Matches(results, b, start)[size - 1];
  }

  /** Cutting the matches behind a full page: the token leads to the rest of them. */
  lemma PageAndRest(results: seq<Found>, b: Bounds, token: GuidText, requested: int, start: nat, page: Page)
    returns (after: nat)
    requires DistinctGuids(results) && StartOf(results, token) == Some(start)
    requires QueryPage(results, b, token, requested) == Ok(page) && page.next.Some?
    ensures start < after <= |results|
    ensures StartOf(results, Wire(page.next.value)) == Some(after)
    ensures At(results, Matches(results, b, start)) == page.splits + At(results, Matches(results, b, after))
  {
    var last := FullPage(results, b, start, PageSize(requested));
    var n: nat := PageSize(requested);
    CutAt(results, b, start, n - 1, last);
    TokenFound(results, last);
    after := last + 1;
  }

  lemma LastPageEnds(results: seq<Found>, b: Bounds, token: GuidText, requested: int, last: Page)
    requires DistinctGuids(results) && QueryPage(results, b, token, requested) == Ok(last) && last.next.None?
    ensures IsWalk([results], b, token, requested, [last])
    ensures Concat([last]) == last.splits
  {
    assert Concat([last][1..]) == [];
  }

  lemma WalkExtends(results: seq<Found>, lists: seq<seq<Found>>, b: Bounds, token: GuidText, requested: int,
                    first: Page, rest: seq<Page>)
    requires DistinctGuids(results) && QueryPage(results, b, token, requested) == Ok(first) && first.next.Some?
    requires IsWalk(lists, b, Wire(first.next.value), requested, rest)
    ensures IsWalk([results] + lists, b, token, requested, [first] + rest)
    ensures Concat([first] + rest) == first.splits + Concat(rest)
  {
    assert ([first] + rest)[1..] == rest;
    assert ([results] + lists)[1..] == lists;
  }

  /** The walk from an accepted token on: it ends, each token it is given is accepted, a token
      is given exactly when a further match exists, and together the pages are the matches. */
  lemma {:induction false} WalkFrom(results: seq<Found>, b: Bounds, token: GuidText, requested: int, start: nat)
    returns (pages: seq<Page>)
    requires DistinctGuids(results) && StartOf(results, token) == Some(start)
    ensures IsWalk(Repeat(results, |pages|), b, token, requested, pages)
    ensures Concat(pages) == At(results, Matches(results, b, start))
    decreases |results| - start
  {
    var first := QueryPage(results, b, token, requested).value;
    if first.next.None? {
      pages := [first];
      LastPageEnds(results, b, token, requested, first);
      PageHasAll(results, b, token, requested, start, first);
    } else {
      var after := PageAndRest(results, b, token, requested, start, first);
      var rest := WalkFrom(results, b, Wire(first.next.value), requested, after);
      pages := [first] + rest;
      WalkExtends(results, Repeat(results, |rest|), b, token, requested, first, rest);
    }
  }

  /** Over an unchanged list, for any page size, there is a walk to the end, and its pages one
      after the other are exactly the matching splits, each once and in order. */
  lemma WalkEnumerates(results: seq<Found>, b: Bounds, requested: int) returns (pages: seq<Page>)
    requires DistinctGuids(results)
    ensures IsWalk(Repeat(results, |pages|), b, NoGuid, requested, pages)
    ensures Concat(pages) == Matching(results, b)
  {
    pages := WalkFrom(results, b, NoGuid, requested, 0);
    MatchingIsFromStart(results, b);
  }

  lemma WalkStarts(results: seq<Found>, b: Bounds, token: GuidText, requested: int, pages: seq<Page>)
    requires IsWalk(Repeat(results, |pages|), b, token, requested, pages)
    ensures QueryPage(results, b, token, requested) == Ok(pages[0])
    ensures if pages[0].next.None? then |pages| == 1
            else IsWalk(Repeat(results, |pages[1..]|), b, Wire(pages[0].next.value), requested, pages[1..])
  {
    assert Repeat(results, |pages|)[1..] == Repeat(results, |pages[1..]|);
  }

  /** And so are the pages of every walk from an accepted token. */
  lemma {:induction false} EveryWalkFrom(results: seq<Found>, b: Bounds, token: GuidText, requested: int,
                                         start: nat, pages: seq<Page>)
    requires DistinctGuids(results) && StartOf(results, token) == Some(start)
    requires IsWalk(Repeat(results, |pages|), b, token, requested, pages)
    ensures Concat(pages) == At(results, Matches(results, b, start))
    decreases |pages|
  {
    WalkStarts(results, b, token, requested, pages);
    if pages[0].next.None? {
      PageHasAll(results, b, token, requested, start, pages[0]);
      assert pages == [pages[0]];
      LastPageEnds(results, b, token, requested, pages[0]);
    } else {
      var after := PageAndRest(results, b, token, requested, start, pages[0]);
      EveryWalkFrom(results, b, Wire(pages[0].next.value), requested, after, pages[1..]);
    }
  }

  /** Over an unchanged list, whatever walk a client takes to the end shows exactly the matching
      splits, each once and in order. */
  lemma EveryWalkEnumerates(results: seq<Found>, b: Bounds, requested: int, pages: seq<Page>)
    requires DistinctGuids(results) && IsWalk(Repeat(results, |pages|), b, NoGuid, requested, pages)
    ensures Concat(pages) == Matching(results, b)
  {
    EveryWalkFrom(results, b, NoGuid, requested, 0, pages);
    MatchingIsFromStart(results, b);
  }

  /** So, over integers: a walk to the end shows exactly the splits of the list whose value lies in
      the range, both ends included, each once and in the order of the list. */
  lemma WalkShowsRange(results: seq<Found>, b: Bounds, requested: int, pages: seq<Page>) returns (at: seq<nat>)
    requires DistinctGuids(results) && IsWalk(Repeat(results, |pages|), b, NoGuid, requested, pages)
    ensures |at| == |Concat(pages)| && forall k :: 0 <= k < |at| ==> at[k] < |results| && Concat(pages)[k] == results[at[k]]
    ensures forall j, k :: 0 <= j < k < |at| ==> at[j] < at[k]
    ensures forall i: nat :: i < |results| ==> (i in at <==> Within(b, results[i].split.value))
  {
    EveryWalkEnumerates(results, b, requested, pages);
    MatchingIsFromStart(results, b);
    at := Matches(results, b, 0);
    forall j, k | 0 <= j < k < |at|
      ensures at[j] < at[k]
    {
      MatchesInOrder(results, b, 0, j, k);
    }
    forall i: nat | i < |results|
      ensures i in at <==> Within(b, results[i].split.value)
    {
      InBoundsIffWithin(b, results[i].split.value);
      if Passes(b, results[i]) {
        MatchesComplete(results, b, 0, i);
      }
    }
  }

  /** There is no other walk: tokens lead one way. */
  lemma {:induction false} OneWalk(lists: seq<seq<Found>>, b: Bounds, token: GuidText, requested: int,
                                   pages: seq<Page>, others: seq<Page>)
    requires IsWalk(lists, b, token, requested, pages) && IsWalk(lists, b, token, requested, others)
    ensures pages == others
  {
    if pages[0].next.Some? {
      OneWalk(lists[1..], b, Wire(pages[0].next.value), requested, pages[1..], others[1..]);
    }
    assert pages == [pages[0]] + pages[1..];
    assert others == [others[0]] + others[1..];
  }

  // ---- a list that changes between pages

  /** Splits in both lists come in the same order in both. */
  ghost predicate SurvivorsKeepOrder(before: seq<Found>, after: seq<Found>) {
    forall g, h, i, j, i', j' ::
      (Holds(before, i, g) && Holds(before, j, h) && Holds(after, i', g) && Holds(after, j', h) && i <= j) ==> i' <= j'
  }

  ghost predicate Steady(lists: seq<seq<Found>>) {
    forall k :: 0 <= k < |lists| - 1 ==> SurvivorsKeepOrder(lists[k], lists[k + 1])
  }

  /** The split is in every list after the m-th and before the k-th. */
  ghost predicate StaysBetween(lists: seq<seq<Found>>, g: Guid, m: nat, k: nat) {
    forall j :: m < j < k && j < |lists| ==> Has(lists[j], g)
  }

  /** One page of a walk, with the place in its list that it starts from. */
  datatype Visit = Visit(list: seq<Found>, start: nat, page: Page)

  ghost predicate Answers(v: Visit, b: Bounds, size: pos) {
    DistinctGuids(v.list) && v.start <= |v.list| && v.page == PageAt(v.list, b, v.start, size)
  }

  /** w is the page after v: it starts behind the split that v's token names. */
  ghost predicate Continues(v: Visit, w: Visit) {
    v.page.next.Some? && Holds(w.list, w.start - 1, v.page.next.value)
  }

  ghost predicate VisitOk(vs: seq<Visit>, b: Bounds, size: pos, k: int) {
    && 0 <= k < |vs|
    && Answers(vs[k], b, size)
    && (vs[k].page.next.Some? <==> k < |vs| - 1)
    && (k < |vs| - 1 ==> Continues(vs[k], vs[k + 1]))
  }

  ghost predicate IsTour(vs: seq<Visit>, b: Bounds, size: pos) {
    forall k :: 0 <= k < |vs| ==> VisitOk(vs, b, size, k)
  }

  function Lists(vs: seq<Visit>): seq<seq<Found>> {
    seq(|vs|, k requires 0 <= k < |vs| => vs[k].list)
  }

  function Pages(vs: seq<Visit>): seq<Page> {
    seq(|vs|, k requires 0 <= k < |vs| => vs[k].page)
  }

  lemma StartBehindToken(results: seq<Found>, t: Guid)
    requires StartOf(results, Wire(t)).Some?
    ensures Holds(results, StartOf(results, Wire(t)).value - 1, t)
  {
    StartIsBehindToken(results, Wire(t));
  }

  /** A walk's pages with their starting places. */
  lemma {:induction false} TourOf(lists: seq<seq<Found>>, b: Bounds, token: GuidText, requested: int, pages: seq<Page>)
    returns (vs: seq<Visit>)
    requires IsWalk(lists, b, token, requested, pages)
    ensures Lists(vs) == lists && Pages(vs) == pages
    ensures IsTour(vs, b, PageSize(requested))
    ensures StartOf(lists[0], token) == Some(vs[0].start)
  {
    var size := PageSize(requested);
    var first := Visit(lists[0], StartOf(lists[0], token).value, pages[0]);
    if first.page.next.None? {
      vs := [first];
      assert VisitOk(vs, b, size, 0);
    } else {
      var next := first.page.next.value;
      var rest := TourOf(lists[1..], b, Wire(next), requested, pages[1..]);
      vs := [first] + rest;
      assert rest[0].list == Lists(rest)[0];
      StartBehindToken(rest[0].list, next);
      TourExtends(first, rest, b, size);
      assert lists == [lists[0]] + lists[1..];
      assert pages == [pages[0]] + pages[1..];
    }
  }

  lemma TourExtends(first: Visit, rest: seq<Visit>, b: Bounds, size: pos)
    requires IsTour(rest, b, size) && rest != []
    requires Answers(first, b, size) && Continues(first, rest[0])
    ensures IsTour([first] + rest, b, size)
    ensures Lists([first] + rest) == [first.list] + Lists(rest)
    ensures Pages([first] + rest) == [first.page] + Pages(rest)
  {
    var vs := [first] + rest;
    forall k | 0 <= k < |vs|
      ensures VisitOk(vs, b, size, k)
    {
      if k > 0 {
        assert VisitOk(rest, b, size, k - 1);
      }
    }
  }

  predicate Emits(p: Page, g: Guid) {
    exists n :: 0 <= n < |p.splits| && p.splits[n].split.guid == g
  }

  lemma EmittedAt(v: Visit, b: Bounds, size: pos, g: Guid) returns (n: nat)
    requires v.start <= |v.list| && v.page == PageAt(v.list, b, v.start, size) && Emits(v.page, g)
    ensures n < |Matches(v.list, b, v.start)| && n < size
    ensures Holds(v.list, Matches(v.list, b, v.start)[n], g)
  {
    n :| 0 <= n < |v.page.splits| && v.page.splits[n].split.guid == g;
  }

  lemma PageIsClosed(v: Visit, b: Bounds, size: pos, n: nat) returns (e: nat)
    requires v.start <= |v.list| && v.page == PageAt(v.list, b, v.start, size) && v.page.next.Some?
    requires n < size
    ensures n < |Matches(v.list, b, v.start)| && Matches(v.list, b, v.start)[n] <= e
    ensures Holds(v.list, e, v.page.next.value)
  {
    var last: nat := size - 1;
    e := Matches(v.list, b, v.start)[last];
    if n < last {
      MatchesInOrder(v.list, b, v.start, n, last);
    }
  }

  /** What a page shows lies at or behind its start, and not behind the token it gives. */
  lemma EmittedWithin(v: Visit, b: Bounds, size: pos, g: Guid) returns (i: nat, e: nat)
    requires Answers(v, b, size) && Emits(v.page, g)
    ensures v.start <= i && Holds(v.list, i, g)
    ensures v.page.next.Some? ==> i <= e && Holds(v.list, e, v.page.next.value)
  {
    var n := EmittedAt(v, b, size, g);
    i := Matches(v.list, b, v.start)[n];
    e := i;
    if v.page.next.Some? {
      e := PageIsClosed(v, b, size, n);
    }
  }

  /** The token that a page gives is on the page. */
  lemma TokenOnPage(v: Visit, b: Bounds, size: pos) returns (e: nat)
    requires Answers(v, b, size) && v.page.next.Some?
    ensures v.start <= e && Holds(v.list, e, v.page.next.value)
  {
    e := Matches(v.list, b, v.start)[size - 1];
  }

  lemma MatchOnPage(v: Visit, b: Bounds, size: pos, n: nat)
    requires v.start <= |v.list| && v.page == PageAt(v.list, b, v.start, size)
    requires n < |Matches(v.list, b, v.start)|
    ensures n < size ==> Emits(v.page, v.list[Matches(v.list, b, v.start)[n]].split.guid)
    ensures n >= size ==> v.page.next.Some?
  {
    if n < size {
      assert v.page.splits[n].split.guid == v.list[Matches(v.list, b, v.start)[n]].split.guid;
    }
  }

  lemma MatchBehindPage(v: Visit, b: Bounds, size: pos, n: nat) returns (e: nat)
    requires v.start <= |v.list| && v.page == PageAt(v.list, b, v.start, size)
    requires size <= n < |Matches(v.list, b, v.start)| && v.page.next.Some?
    ensures e < Matches(v.list, b, v.start)[n] && Holds(v.list, e, v.page.next.value)
  {
    var last: nat := size - 1;
    e := Matches(v.list, b, v.start)[last];
    MatchesInOrder(v.list, b, v.start, last, n);
  }

  /** A match at or behind the start is shown, or lies behind the token. */
  lemma ShownOrBehind(v: Visit, b: Bounds, size: pos, i: nat) returns (e: nat)
    requires Answers(v, b, size)
    requires v.start <= i < |v.list| && Passes(b, v.list[i])
    ensures Emits(v.page, v.list[i].split.guid)
         || (v.page.next.Some? && e < i && Holds(v.list, e, v.page.next.value))
  {
    e := 0;
    MatchesComplete(v.list, b, v.start, i);
    var n :| 0 <= n < |Matches(v.list, b, v.start)| && Matches(v.list, b, v.start)[n] == i;
    MatchOnPage(v, b, size, n);
    if n >= size {
      e := MatchBehindPage(v, b, size, n);
    }
  }

  lemma OrderKept(before: seq<Found>, after: seq<Found>, g: Guid, t: Guid, i: nat, e: nat, i': nat, e': int)
    requires SurvivorsKeepOrder(before, after)
    requires Holds(before, i, g) && Holds(before, e, t) && i <= e
    requires Holds(after, i', g) && Holds(after, e', t)
    ensures i' <= e'
  {
  }

  /** A split that lay at or before one page's token lies before the next page's start. */
  lemma BeforeNext(v: Visit, w: Visit, g: Guid, i: nat, e: nat, i': nat)
    requires SurvivorsKeepOrder(v.list, w.list) && Continues(v, w)
    requires Holds(v.list, i, g) && Holds(v.list, e, v.page.next.value) && i <= e
    requires Holds(w.list, i', g)
    ensures i' < w.start
  {
    OrderKept(v.list, w.list, g, v.page.next.value, i, e, i', w.start - 1);
  }

  /** A split that lay behind one page's token lies at or behind the next page's start. */
  lemma BehindNext(v: Visit, w: Visit, g: Guid, i: nat, e: nat, i': nat)
    requires DistinctGuids(v.list) && SurvivorsKeepOrder(v.list, w.list) && Continues(v, w)
    requires Holds(v.list, i, g) && Holds(v.list, e, v.page.next.value) && e < i
    requires Holds(w.list, i', g)
    ensures w.start <= i'
  {
    OrderKept(v.list, w.list, v.page.next.value, g, e, i, w.start - 1, i');
  }

  lemma PlaceBetween(vs: seq<Visit>, m: nat, k: nat, j: nat, g: Guid) returns (i: nat)
    requires StaysBetween(Lists(vs), g, m, k) && m < j < k && j < |vs|
    ensures Holds(vs[j].list, i, g)
  {
    assert Has(Lists(vs)[j], g);
    i :| Holds(vs[j].list, i, g);
  }

  lemma OrderAt(vs: seq<Visit>, k: nat)
    requires Steady(Lists(vs)) && k < |vs| - 1
    ensures SurvivorsKeepOrder(vs[k].list, vs[k + 1].list)
  {
    assert Lists(vs)[k] == vs[k].list && Lists(vs)[k + 1] == vs[k + 1].list;
  }

  /** A split that lies before the start of page k lies before that of every later page while
      it stays. */
  lemma {:induction false} StaysBefore(vs: seq<Visit>, b: Bounds, size: pos, k: nat, n: nat, g: Guid, i: nat, j: nat)
    requires IsTour(vs, b, size) && Steady(Lists(vs))
    requires k <= n < |vs| && StaysBetween(Lists(vs), g, k, n)
    requires Holds(vs[k].list, i, g) && i < vs[k].start && Holds(vs[n].list, j, g)
    ensures j < vs[n].start
    decreases n
  {
    assert VisitOk(vs, b, size, n);
    if k < n {
      var was := i;
      if k < n - 1 {
        was := PlaceBetween(vs, k, n, n - 1, g);
        StaysBefore(vs, b, size, k, n - 1, g, i, was);
      }
      assert VisitOk(vs, b, size, n - 1);
      var e := TokenOnPage(vs[n - 1], b, size);
      OrderAt(vs, n - 1);
      BeforeNext(vs[n - 1], vs[n], g, was, e, j);
    }
  }

  /** So does a split that page m has shown, from the next page on. */
  lemma StaysBehindCursor(vs: seq<Visit>, b: Bounds, size: pos, m: nat, k: nat, g: Guid, i: nat)
    requires IsTour(vs, b, size) && Steady(Lists(vs))
    requires m < k < |vs| && Emits(vs[m].page, g) && Holds(vs[k].list, i, g)
    requires StaysBetween(Lists(vs), g, m, k)
    ensures i < vs[k].start
  {
    assert VisitOk(vs, b, size, m);
    var was, e := EmittedWithin(vs[m], b, size, g);
    var next := i;
    if m + 1 < k {
      next := PlaceBetween(vs, m, k, m + 1, g);
    }
    OrderAt(vs, m);
    BeforeNext(vs[m], vs[m + 1], g, was, e, next);
    StaysBefore(vs, b, size, m + 1, k, g, next, i);
  }

  /** The split is in every list from the k-th on and passes in each. */
  ghost predicate MatchesFrom(lists: seq<seq<Found>>, b: Bounds, g: Guid, k: nat) {
    forall j :: k <= j < |lists| ==> MatchesIn(lists[j], b, g)
  }

  ghost predicate MatchesIn(results: seq<Found>, b: Bounds, g: Guid) {
    exists i :: Holds(results, i, g) && Passes(b, results[i])
  }

  lemma MatchAt(vs: seq<Visit>, b: Bounds, k: nat, g: Guid) returns (i: nat)
    requires k < |vs| && MatchesIn(Lists(vs)[k], b, g)
    ensures Holds(vs[k].list, i, g) && Passes(b, vs[k].list[i])
  {
    i :| Holds(vs[k].list, i, g) && Passes(b, vs[k].list[i]);
  }

  lemma {:induction false} ShownFrom(vs: seq<Visit>, b: Bounds, size: pos, k: nat, g: Guid, i: nat) returns (n: nat)
    requires IsTour(vs, b, size) && Steady(Lists(vs)) && MatchesFrom(Lists(vs), b, g, k)
    requires k < |vs| && Holds(vs[k].list, i, g) && Passes(b, vs[k].list[i]) && vs[k].start <= i
    ensures k <= n < |vs| && Emits(vs[n].page, g)
    decreases |vs| - k
  {
    assert VisitOk(vs, b, size, k);
    var e := ShownOrBehind(vs[k], b, size, i);
    if Emits(vs[k].page, g) {
      return k;
    }
    assert MatchesIn(Lists(vs)[k + 1], b, g);
    var i' := MatchAt(vs, b, k + 1, g);
    OrderAt(vs, k);
    BehindNext(vs[k], vs[k + 1], g, i, e, i');
    n := ShownFrom(vs, b, size, k + 1, g, i');
  }

  lemma StaysFrom(lists: seq<seq<Found>>, b: Bounds, g: Guid, k: nat, m: nat, n: nat)
    requires MatchesFrom(lists, b, g, k) && k <= m + 1
    ensures StaysBetween(lists, g, m, n)
  {
    forall j | m < j < n && j < |lists|
      ensures Has(lists[j], g)
    {
      assert MatchesIn(lists[j], b, g);
    }
  }

  /** A split that matches from page k on is shown from then on exactly if it lies at or behind
      the place where that page starts. */
  lemma ShownFromExactly(vs: seq<Visit>, b: Bounds, size: pos, k: nat, g: Guid, i: nat)
    requires IsTour(vs, b, size) && Steady(Lists(vs)) && MatchesFrom(Lists(vs), b, g, k)
    requires k < |vs| && Holds(vs[k].list, i, g)
    ensures (exists n :: k <= n < |vs| && Emits(vs[n].page, g)) <==> vs[k].start <= i
  {
    if vs[k].start <= i {
      assert VisitOk(vs, b, size, k) && MatchesIn(Lists(vs)[k], b, g);
      var at := MatchAt(vs, b, k, g);
      assert at == i;
      var n := ShownFrom(vs, b, size, k, g, i);
    } else {
      forall n | k <= n < |vs|
        ensures !Emits(vs[n].page, g)
      {
        if Emits(vs[n].page, g) {
          assert VisitOk(vs, b, size, n);
          var j, _ := EmittedWithin(vs[n], b, size, g);
          StaysFrom(Lists(vs), b, g, k, k, n);
          StaysBefore(vs, b, size, k, n, g, i, j);
        }
      }
    }
  }

  /** When a split is shown (again): one that matches in every list from page k on, having come
      back or been there before, is shown on some page from then on exactly if it lies behind
      the split that the token for page k names. */
  lemma ShownAgainExactly(lists: seq<seq<Found>>, b: Bounds, token: GuidText, requested: int, pages: seq<Page>,
                          k: nat, g: Guid, i: nat, c: nat)
    requires IsWalk(lists, b, token, requested, pages) && Steady(lists) && MatchesFrom(lists, b, g, k)
    requires 0 < k < |pages| && pages[k - 1].next.Some?
    requires Holds(lists[k], c, pages[k - 1].next.value) && Holds(lists[k], i, g)
    ensures (exists n :: k <= n < |pages| && Emits(pages[n], g)) <==> c < i
  {
    var vs := TourOf(lists, b, token, requested, pages);
    var size := PageSize(requested);
    assert VisitOk(vs, b, size, k - 1) && VisitOk(vs, b, size, k);
    assert Lists(vs)[k] == vs[k].list && Pages(vs)[k - 1] == vs[k - 1].page;
    assert vs[k].start == c + 1;
    ShownFromExactly(vs, b, size, k, g, i);
    assert forall n :: 0 <= n < |pages| ==> Pages(vs)[n] == vs[n].page;
  }

  /** However the list changes between pages, a split is shown on two pages only if it was gone
      from some list between them. */
  lemma NothingTwice(lists: seq<seq<Found>>, b: Bounds, token: GuidText, requested: int, pages: seq<Page>,
                     m: nat, k: nat, g: Guid)
    requires IsWalk(lists, b, token, requested, pages) && Steady(lists)
    requires m < k < |pages| && Emits(pages[m], g) && StaysBetween(lists, g, m, k)
    ensures !Emits(pages[k], g)
  {
    var size := PageSize(requested);
    var vs := TourOf(lists, b, token, requested, pages);
    assert Pages(vs)[m] == vs[m].page && Pages(vs)[k] == vs[k].page;
    if Emits(pages[k], g) {
      assert VisitOk(vs, b, size, k);
      var i, _ := EmittedWithin(vs[k], b, size, g);
      StaysBehindCursor(vs, b, size, m, k, g, i);
    }
  }

  /** A page itself shows no split twice. */
  lemma NothingTwiceOnAPage(results: seq<Found>, b: Bounds, token: GuidText, requested: int, m: nat, n: nat)
    requires DistinctGuids(results) && QueryPage(results, b, token, requested).Ok?
    requires m < n < |QueryPage(results, b, token, requested).value.splits|
    ensures var page := QueryPage(results, b, token, requested).value;
            page.splits[m].split.guid != page.splits[n].split.guid
  {
    MatchesInOrder(results, b, StartOf(results, token).value, m, n);
  }

  /** A split that matches throughout the walk is shown on exactly one page. */
  lemma ShownExactlyOnce(lists: seq<seq<Found>>, b: Bounds, requested: int, pages: seq<Page>, g: Guid) returns (n: nat)
    requires IsWalk(lists, b, NoGuid, requested, pages) && Steady(lists) && MatchesFrom(lists, b, g, 0)
    ensures n < |pages| && Emits(pages[n], g)
    ensures forall k :: 0 <= k < |pages| && k != n ==> !Emits(pages[k], g)
  {
    var vs := TourOf(lists, b, NoGuid, requested, pages);
    assert MatchesIn(Lists(vs)[0], b, g);
    var i := MatchAt(vs, b, 0, g);
    n := ShownFrom(vs, b, PageSize(requested), 0, g, i);
    assert Pages(vs)[n] == vs[n].page;
    forall k | 0 <= k < |pages| && k != n
      ensures !Emits(pages[k], g)
    {
      StaysFrom(lists, b, g, 0, n, k);
      StaysFrom(lists, b, g, 0, k, n);
      if k > n {
        NothingTwice(lists, b, NoGuid, requested, pages, n, k, g);
      } else if Emits(pages[k], g) {
        NothingTwice(lists, b, NoGuid, requested, pages, k, n, g);
      }
    }
  }

  // ---- lists in one common order

  /** The list is sorted by rank, strictly. */
  ghost predicate RankedBy(results: seq<Found>, rank: Guid -> int) {
    forall i, j :: 0 <= i < j < |results| ==> rank(results[i].split.guid) < rank(results[j].split.guid)
  }

  lemma RankKept(results: seq<Found>, rank: Guid -> int, i: int, j: int, g: Guid, h: Guid)
    requires RankedBy(results, rank) && Holds(results, i, g) && Holds(results, j, h)
    ensures i <= j ==> rank(g) <= rank(h)
    ensures i < j ==> rank(g) < rank(h)
  {
  }

  /** Tokens climb: what page m has shown ranks no higher than any later token. */
  lemma {:induction false} TokensClimb(vs: seq<Visit>, b: Bounds, size: pos, rank: Guid -> int, m: nat, k: nat, g: Guid)
    requires IsTour(vs, b, size) && m <= k < |vs| - 1 && Emits(vs[m].page, g)
    requires forall j :: 0 <= j < |vs| ==> RankedBy(vs[j].list, rank)
    ensures vs[k].page.next.Some? && rank(g) <= rank(vs[k].page.next.value)
    decreases k
  {
    assert VisitOk(vs, b, size, k);
    if m == k {
      var i, e := EmittedWithin(vs[k], b, size, g);
      RankKept(vs[k].list, rank, i, e, g, vs[k].page.next.value);
    } else {
      assert VisitOk(vs, b, size, k - 1);
      TokensClimb(vs, b, size, rank, m, k - 1, g);
      var e := TokenOnPage(vs[k], b, size);
      RankKept(vs[k].list, rank, vs[k].start - 1, e, vs[k - 1].page.next.value, vs[k].page.next.value);
    }
  }

  /** What a page shows ranks above the token it was asked for with. */
  lemma ShownAboveToken(v: Visit, w: Visit, b: Bounds, size: pos, rank: Guid -> int, g: Guid)
    requires Answers(w, b, size) && Continues(v, w) && RankedBy(w.list, rank) && Emits(w.page, g)
    ensures rank(v.page.next.value) < rank(g)
  {
    var i, _ := EmittedWithin(w, b, size, g);
    RankKept(w.list, rank, w.start - 1, i, v.page.next.value, g);
  }

  lemma OrderedTour(vs: seq<Visit>, b: Bounds, size: pos, rank: Guid -> int, m: nat, k: nat, g: Guid)
    requires IsTour(vs, b, size) && m < k < |vs| && Emits(vs[m].page, g)
    requires forall j :: 0 <= j < |vs| ==> RankedBy(vs[j].list, rank)
    ensures !Emits(vs[k].page, g)
  {
    assert VisitOk(vs, b, size, k - 1) && VisitOk(vs, b, size, k);
    TokensClimb(vs, b, size, rank, m, k - 1, g);
    if Emits(vs[k].page, g) {
      ShownAboveToken(vs[k - 1], vs[k], b, size, rank, g);
    }
  }

  /** If all lists are sorted by one common order, no split is shown on two pages, even one that
      leaves the results and comes back. */
  lemma OrderedNothingTwice(lists: seq<seq<Found>>, b: Bounds, token: GuidText, requested: int, pages: seq<Page>,
                            rank: Guid -> int, m: nat, k: nat, g: Guid)
    requires IsWalk(lists, b, token, requested, pages)
    requires forall j :: 0 <= j < |lists| ==> RankedBy(lists[j], rank)
    requires m < k < |pages| && Emits(pages[m], g)
    ensures !Emits(pages[k], g)
  {
    var vs := TourOf(lists, b, token, requested, pages);
    assert Pages(vs)[m] == vs[m].page && Pages(vs)[k] == vs[k].page;
    assert forall j :: 0 <= j < |vs| ==> Lists(vs)[j] == vs[j].list;
    OrderedTour(vs, b, PageSize(requested), rank, m, k, g);
  }

  /** Behind a full page's token there is a match that the page does not show. */
  lemma MoreBehindToken(v: Visit, b: Bounds, size: pos) returns (i: nat)
    requires Answers(v, b, size) && v.page.next.Some?
    ensures v.start <= i < |v.list| && Passes(b, v.list[i]) && !Emits(v.page, v.list[i].split.guid)
  {
    var n: nat := size;
    i := Matches(v.list, b, v.start)[n];
    var e := MatchBehindPage(v, b, size, n);
    if Emits(v.page, v.list[i].split.guid) {
      var at, closed := EmittedWithin(v, b, size, v.list[i].split.guid);
      assert false;
    }
  }

  lemma PageIsFull(v: Visit, b: Bounds, size: pos)
    requires v.start <= |v.list| && v.page == PageAt(v.list, b, v.start, size)
    ensures |v.page.splits| <= size
    ensures v.page.next.Some? ==> |v.page.splits| == size && v.page.next.value == v.page.splits[size - 1].split.guid
  {
  }

  /** A page is as full as it can be, a hundred splits if no size is asked for and five hundred at
      most, and gives a token exactly when a further match exists. */
  lemma TokenMeansMore(results: seq<Found>, b: Bounds, token: GuidText, requested: int)
    requires DistinctGuids(results) && QueryPage(results, b, token, requested).Ok?
    ensures var page, start := QueryPage(results, b, token, requested).value, StartOf(results, token).value;
            var full := if requested <= 0 then 100 else if requested > 500 then 500 else requested;
            && |page.splits| <= full
            && (page.next.Some? <==>
                exists i :: start <= i < |results| && Passes(b, results[i]) && !Emits(page, results[i].split.guid))
            && (page.next.Some? ==>
                |page.splits| == full && page.next.value == page.splits[|page.splits| - 1].split.guid)
  {
    var page, size := QueryPage(results, b, token, requested).value, PageSize(requested);
    var v := Visit(results, StartOf(results, token).value, page);
    PageIsFull(v, b, size);
    if page.next.Some? {
      var i := MoreBehindToken(v, b, size);
    } else {
      forall i | v.start <= i < |results| && Passes(b, results[i])
        ensures Emits(page, results[i].split.guid)
      {
        var _ := ShownOrBehind(v, b, size, i);
      }
    }
  }

  // ---- what the order of survivors alone does not give

  function FoundList(guids: seq<Guid>): seq<Found> {
    seq(|guids|, i requires 0 <= i < |guids| => Found(SplitView(guids[i], 0, ZERO, ZERO, "", "", NotReconciled), 0, None, "", None))
  }

  const ANYTHING := Bounds(None, None)

  function Range(from: nat, to: nat): seq<nat>
    requires from <= to
  {
    seq(to - from, k requires 0 <= k < to - from => from + k)
  }

  lemma {:induction false} AllMatch(results: seq<Found>, from: nat)
    requires from <= |results|
    ensures Matches(results, ANYTHING, from) == Range(from, |results|)
    decreases |results| - from
  {
    if from < |results| {
      AllMatch(results, from + 1);
    }
  }

  lemma AtRange(results: seq<Found>, from: nat, to: nat)
    requires from <= to <= |results|
    ensures At(results, Range(from, to)) == results[from..to]
  {
  }

  lemma ShortPage(results: seq<Found>, start: nat)
    requires start <= |results| <= start + 2
    ensures PageAt(results, ANYTHING, start, 2) == Page(results[start..], None)
  {
    AllMatch(results, start);
    AtRange(results, start, |results|);
    assert results[start..|results|] == results[start..];
  }

  lemma LongPage(results: seq<Found>, start: nat)
    requires start + 2 < |results|
    ensures PageAt(results, ANYTHING, start, 2) == Page(results[start..start + 2], Some(results[start + 1].split.guid))
  {
    AllMatch(results, start);
    AtRange(results, start, start + 2);
    var ms := Range(start, |results|);
    assert ms[..2] == Range(start, start + 2);
    assert ms[1] == start + 1;
  }

  /** With a page size of two, the page of an unfiltered list behind its i-th split. */
  lemma PageOfTwo(results: seq<Found>, token: GuidText, start: nat)
    requires StartOf(results, token) == Some(start)
    ensures QueryPage(results, ANYTHING, token, 2) ==
            Ok(if |results| <= start + 2 then Page(results[start..], None)
               else Page(results[start..start + 2], Some(results[start + 1].split.guid)))
  {
    if |results| <= start + 2 {
      ShortPage(results, start);
    } else {
      LongPage(results, start);
    }
  }

  lemma WalkOfTwo(second: seq<Found>, third: seq<Found>, token: Guid)
    requires DistinctGuids(second) && DistinctGuids(third)
    requires |second| == 4 && |third| == 2 && second[0].split.guid == token && third[0] == second[2]
    ensures IsWalk([second] + [third], ANYTHING, Wire(token), 2,
                   [Page(second[1..3], Some(second[2].split.guid))] + [Page(third[1..], None)])
  {
    var next := second[2].split.guid;
    TokenFound(second, 0);
    TokenFound(third, 0);
    PageOfTwo(second, Wire(token), 1);
    PageOfTwo(third, Wire(next), 1);
    LastPageEnds(third, ANYTHING, Wire(next), 2, Page(third[1..], None));
    WalkExtends(second, [third], ANYTHING, Wire(token), 2, Page(second[1..3], Some(next)), [Page(third[1..], None)]);
  }

  lemma WalkOfThree(first: seq<Found>, rest: seq<seq<Found>>, pages: seq<Page>)
    requires DistinctGuids(first) && |first| == 3
    requires IsWalk(rest, ANYTHING, Wire(first[1].split.guid), 2, pages)
    ensures IsWalk([first] + rest, ANYTHING, NoGuid, 2, [Page(first[0..2], Some(first[1].split.guid))] + pages)
  {
    PageOfTwo(first, NoGuid, 0);
    WalkExtends(first, rest, ANYTHING, NoGuid, 2, Page(first[0..2], Some(first[1].split.guid)), pages);
  }

  lemma ComebackIsSteady(first: seq<Found>, second: seq<Found>, third: seq<Found>)
    requires first == FoundList([1, 2, 3]) && second == FoundList([2, 3, 4, 5]) && third == FoundList([4, 1])
    ensures Steady([first] + ([second] + [third]))
  {
    var lists := [first] + ([second] + [third]);
    assert lists[0] == first && lists[1] == second && lists[2] == third;
    assert SurvivorsKeepOrder(first, second);
    assert SurvivorsKeepOrder(second, third);
  }

  lemma ComebackWalks(first: seq<Found>, second: seq<Found>, third: seq<Found>) returns (pages: seq<Page>)
    requires DistinctGuids(first) && DistinctGuids(second) && DistinctGuids(third)
    requires |first| == 3 && |second| == 4 && |third| == 2
    requires second[0].split.guid == first[1].split.guid && third[0] == second[2]
    ensures IsWalk([first] + ([second] + [third]), ANYTHING, NoGuid, 2, pages)
    ensures |pages| == 3 && pages[0].splits == first[0..2] && pages[2].splits == third[1..]
  {
    var b, c := Page(second[1..3], Some(second[2].split.guid)), Page(third[1..], None);
    WalkOfTwo(second, third, first[1].split.guid);
    WalkOfThree(first, [second] + [third], [b] + [c]);
    pages := [Page(first[0..2], Some(first[1].split.guid))] + ([b] + [c]);
  }

  /** Lists whose survivors keep their order, yet split 1, gone from the second list and back
      in the third, is shown on the first page and on the third. */
  lemma ComebackIsShownTwice() returns (lists: seq<seq<Found>>, pages: seq<Page>)
    ensures IsWalk(lists, ANYTHING, NoGuid, 2, pages) && Steady(lists)
    ensures |pages| == 3 && Emits(pages[0], 1) && Emits(pages[2], 1)
  {
    var first, second, third := FoundList([1, 2, 3]), FoundList([2, 3, 4, 5]), FoundList([4, 1]);
    lists := [first] + ([second] + [third]);
    ComebackIsSteady(first, second, third);
    pages := ComebackWalks(first, second, third);
    assert pages[0].splits[0].split.guid == 1 && pages[2].splits[0].split.guid == 1;
  }
}
