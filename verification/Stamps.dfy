/** The dated names of snapshot directories, which sort by time. */
module Stamps {
  import opened Sequences
  import opened TextOrder

  /** Ten characters with dashes where a date has them; "<stamp>.tmp" is longer. */
  predicate LooksLikeStamp(n: Name) {
    |n| == 10 && n[4] == '-' && n[7] == '-'
  }

  function Later(stamps: set<Name>, n: Name): set<Name> {
    set m | m in stamps && Before(n, m)
  }

  /** The stamps that fewer than `keep` others come after. */
  function Newest(stamps: set<Name>, keep: nat): set<Name> {
    set n | n in stamps && |Later(stamps, n)| < keep
  }

  lemma {:induction false} DistinctSize(s: seq<Name>)
    requires Distinct(s)
    ensures |Elements(s)| == |s|
  {
    if s == [] {
      assert Elements(s) == {};
    } else {
      DistinctSize(s[1..]);
      assert Elements(s) == {s[0]} + Elements(s[1..]);
      assert s[0] !in s[1..];
    }
  }

  lemma LaterInOrder(s: seq<Name>, i: nat)
    requires InOrder(s) && i < |s|
    ensures |Later(Elements(s), s[i])| == |s| - 1 - i
  {
    forall j | 0 <= j < |s|
      ensures Before(s[i], s[j]) <==> i < j
    {
      BeforeIsTotal(s[i], s[j]);
    }
    assert Later(Elements(s), s[i]) == Elements(s[i + 1..]) by {
      forall n | n in Later(Elements(s), s[i])
        ensures n in s[i + 1..]
      {
        var j :| 0 <= j < |s| && s[j] == n;
        assert s[i + 1..][j - i - 1] == n;
      }
    }
    OrderedIsDistinct(s);
    DistinctSize(s[i + 1..]);
  }

  /** In order, the newest stamps are the ones at the end. */
  lemma NewestAreLast(s: seq<Name>, keep: nat)
    requires InOrder(s)
    ensures Newest(Elements(s), keep) == Elements(if |s| <= keep then s else s[|s| - keep..])
  {
    var first := if |s| <= keep then 0 else |s| - keep;
    forall i | 0 <= i < |s|
      ensures s[i] in Newest(Elements(s), keep) <==> first <= i
    {
      LaterInOrder(s, i);
    }
    OrderedIsDistinct(s);
    assert s[first..] == if |s| <= keep then s else s[|s| - keep..];
    forall n
      ensures n in Newest(Elements(s), keep) <==> n in s[first..]
    {
      if n in s {
        var i :| 0 <= i < |s| && s[i] == n;
        if first <= i {
          assert s[first..][i - first] == n;
        }
      }
    }
  }

  /** Pruning to `keep` leaves that many stamps, or all of fewer; the one that no other comes
      after is among them unless none is kept. */
  lemma NewestCount(stamps: set<Name>, keep: nat)
    ensures |Newest(stamps, keep)| == if |stamps| <= keep then |stamps| else keep
    ensures forall n :: n in stamps && (forall m :: m in stamps ==> !Before(n, m)) ==>
                          (n in Newest(stamps, keep) <==> keep >= 1)
  {
    var s := InSomeOrder(stamps);
    OrderedIsDistinct(s);
    DistinctSize(s);
    var last := if |s| <= keep then s else s[|s| - keep..];
    NewestAreLast(s, keep);
    DistinctSize(last);
    forall n | n in stamps && (forall m :: m in stamps ==> !Before(n, m))
      ensures n in Newest(stamps, keep) <==> keep >= 1
    {
      assert Later(stamps, n) == {};
    }
  }

  // ---- today's stamp

  datatype CalendarDay = CalendarDay(year: nat, month: nat, day: nat)

  predicate Printable(d: CalendarDay) {
    d.year < 10000 && d.month < 100 && d.day < 100
  }

  function Digit(n: nat): char
    requires n < 10
  {
    "0123456789"[n]
  }

  function TwoDigits(n: nat): Name
    requires n < 100
  {
    [Digit(n / 10), Digit(n % 10)]
  }

  /** "%04d-%02d-%02d". */
  function StampOf(d: CalendarDay): Name
    requires Printable(d)
  {
    TwoDigits(d.year / 100) + (TwoDigits(d.year % 100) + ("-" + (TwoDigits(d.month) + ("-" + TwoDigits(d.day)))))
  }

  predicate Earlier(d: CalendarDay, e: CalendarDay) {
    d.year < e.year || (d.year == e.year && (d.month < e.month || (d.month == e.month && d.day < e.day)))
  }

  lemma {:induction false} BeforeConcat(a: Name, b: Name, x: Name, y: Name)
    requires |a| == |b|
    ensures Before(a + x, b + y) <==> Before(a, b) || (a == b && Before(x, y))
  {
    if a == [] {
      assert a + x == x && b + y == y;
    } else {
      BeforeConcat(a[1..], b[1..], x, y);
      assert (a + x)[1..] == a[1..] + x && (b + y)[1..] == b[1..] + y;
      assert a == [a[0]] + a[1..] && b == [b[0]] + b[1..];
    }
  }

  lemma TwoDigitsOrder(m: nat, n: nat)
    requires m < 100 && n < 100
    ensures Before(TwoDigits(m), TwoDigits(n)) <==> m < n
    ensures TwoDigits(m) == TwoDigits(n) <==> m == n
  {
    DigitOrder(m / 10, n / 10);
    DigitOrder(m % 10, n % 10);
    BeforeConcat([Digit(m / 10)], [Digit(n / 10)], [Digit(m % 10)], [Digit(n % 10)]);
    assert TwoDigits(m) == [Digit(m / 10)] + [Digit(m % 10)] && TwoDigits(n) == [Digit(n / 10)] + [Digit(n % 10)];
    assert TwoDigits(m)[0] == Digit(m / 10) && TwoDigits(m)[1] == Digit(m % 10);
    assert TwoDigits(n)[0] == Digit(n / 10) && TwoDigits(n)[1] == Digit(n % 10);
  }

  lemma DigitOrder(m: nat, n: nat)
    requires m < 10 && n < 10
    ensures Digit(m) < Digit(n) <==> m < n
    ensures Digit(m) == Digit(n) <==> m == n
    ensures Before([Digit(m)], [Digit(n)]) <==> m < n
  {
    assert [Digit(m)][1..] == [] && [Digit(n)][1..] == [];
  }

  lemma StampOrder(d: CalendarDay, e: CalendarDay)
    requires Printable(d) && Printable(e)
    ensures Before(StampOf(d), StampOf(e)) <==> Earlier(d, e)
  {
    TwoDigitsOrder(d.year / 100, e.year / 100);
    TwoDigitsOrder(d.year % 100, e.year % 100);
    TwoDigitsOrder(d.month, e.month);
    TwoDigitsOrder(d.day, e.day);
    var x, y := TwoDigits(d.day), TwoDigits(e.day);
    BeforeConcat("-", "-", x, y);
    x, y := "-" + x, "-" + y;
    BeforeConcat(TwoDigits(d.month), TwoDigits(e.month), x, y);
    x, y := TwoDigits(d.month) + x, TwoDigits(e.month) + y;
    BeforeConcat("-", "-", x, y);
    x, y := "-" + x, "-" + y;
    BeforeConcat(TwoDigits(d.year % 100), TwoDigits(e.year % 100), x, y);
    x, y := TwoDigits(d.year % 100) + x, TwoDigits(e.year % 100) + y;
    BeforeConcat(TwoDigits(d.year / 100), TwoDigits(e.year / 100), x, y);
  }

  /** Stamps sort as their days do, and differ if those do; one is recognized as a stamp, and the
      name under which its snapshot is still being made is not. */
  lemma StampsSortByDay(d: CalendarDay, e: CalendarDay)
    requires Printable(d) && Printable(e)
    ensures Before(StampOf(d), StampOf(e)) <==> Earlier(d, e)
    ensures StampOf(d) == StampOf(e) <==> d == e
    ensures LooksLikeStamp(StampOf(d)) && !LooksLikeStamp(StampOf(d) + ".tmp")
  {
    StampOrder(d, e);
    StampOrder(e, d);
    BeforeIsTotal(StampOf(d), StampOf(e));
  }
}
