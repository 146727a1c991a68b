/** Texts in the order in which std::string compares and std::map and std::sort arrange them. */
module TextOrder {
  import opened Sequences

  type Name = string

  predicate Before(a: Name, b: Name) {
    b != [] && (a == [] || a[0] < b[0] || (a[0] == b[0] && Before(a[1..], b[1..])))
  }

  lemma {:induction false} BeforeIsTotal(a: Name, b: Name)
    ensures a == b || Before(a, b) || Before(b, a)
    ensures !(Before(a, b) && Before(b, a)) && !Before(a, a)
  {
    if a != [] && b != [] {
      BeforeIsTotal(a[1..], b[1..]);
      BeforeIsTotal(a[1..], a[1..]);
      assert a == [a[0]] + a[1..] && b == [b[0]] + b[1..];
    } else if a != [] {
      BeforeIsTotal(a[1..], a[1..]);
    }
  }

  lemma {:induction false} BeforeIsTransitive(a: Name, b: Name, c: Name)
    requires Before(a, b) && Before(b, c)
    ensures Before(a, c)
  {
    if a != [] && a[0] == b[0] == c[0] {
      BeforeIsTransitive(a[1..], b[1..], c[1..]);
    }
  }

  predicate InOrder(s: seq<Name>) {
    forall i, j :: 0 <= i < j < |s| ==> Before(s[i], s[j])
  }

  function Insert(s: seq<Name>, n: Name): seq<Name> {
    if s == [] || Before(n, s[0]) then [n] + s else [s[0]] + Insert(s[1..], n)
  }

  lemma {:induction false} InsertKeepsOrder(s: seq<Name>, n: Name)
    requires InOrder(s) && n !in s
    ensures InOrder(Insert(s, n))
    ensures forall x :: x in Insert(s, n) <==> x in s || x == n
  {
    if s == [] {
    } else if Before(n, s[0]) {
      forall j | 0 < j < |s|
        ensures Before(n, s[j])
      {
        BeforeIsTransitive(n, s[0], s[j]);
      }
    } else {
      BeforeIsTotal(n, s[0]);
      InsertKeepsOrder(s[1..], n);
      assert s == [s[0]] + s[1..];
      var rest := Insert(s[1..], n);
      forall j | 0 <= j < |rest|
        ensures Before(s[0], rest[j])
      {
        assert rest[j] in s[1..] || rest[j] == n;
      }
    }
  }

  function Elements(s: seq<Name>): set<Name> {
    set n | n in s
  }

  lemma OrderedIsDistinct(s: seq<Name>)
    requires InOrder(s)
    ensures Distinct(s)
  {
    forall i, j | 0 <= i < j < |s|
      ensures s[i] != s[j]
    {
      BeforeIsTotal(s[i], s[j]);
    }
  }

  lemma {:induction false} InSomeOrder(names: set<Name>) returns (s: seq<Name>)
    ensures InOrder(s) && Elements(s) == names
    decreases |names|
  {
    s := [];
    if names != {} {
      var n :| n in names;
      var rest := InSomeOrder(names - {n});
      assert n !in rest by {
        assert n !in Elements(rest);
      }
      InsertKeepsOrder(rest, n);
      s := Insert(rest, n);
      assert forall x :: x in rest <==> x in names - {n};
    }
  }
}
