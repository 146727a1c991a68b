/** The account tree: the reparent guard and what it protects. */
module Accounts {
  import opened Options
  import opened Books

  /** From g, exactly n parent links lead to the root. */
  ghost predicate ReachesRoot(b: Book, g: Guid, n: nat)
    decreases n
  {
    g in b.accounts &&
    if n == 0 then g == b.root
    else
      && g != b.root
      && b.accounts[g].parent.Some?
      && ReachesRoot(b, b.accounts[g].parent.value, n - 1)
  }

  ghost predicate HasDepth(b: Book, g: Guid) {
    exists n: nat :: ReachesRoot(b, g, n)
  }

  /** The accounts form one tree under a parentless root. */
  ghost predicate IsTree(b: Book) {
    && b.root in b.accounts
    && b.accounts[b.root].parent.None?
    && forall g :: g in b.accounts ==> HasDepth(b, g)
  }

  ghost function Depth(b: Book, g: Guid): nat
    requires HasDepth(b, g)
  {
    var n: nat :| ReachesRoot(b, g, n);
    n
  }

  lemma {:induction false} DepthUnique(b: Book, g: Guid, n: nat, m: nat)
    requires ReachesRoot(b, g, n) && ReachesRoot(b, g, m)
    ensures n == m
    decreases n
  {
    if n > 0 && m > 0 {
      DepthUnique(b, b.accounts[g].parent.value, n - 1, m - 1);
    }
  }

  /** a is met within n parent steps when climbing from cursor. */
  ghost predicate OnChain(b: Book, a: Guid, cursor: Guid, n: nat)
    decreases n
  {
    || cursor == a
    || (&& n > 0
        && cursor in b.accounts && b.accounts[cursor].parent.Some?
        && OnChain(b, a, b.accounts[cursor].parent.value, n - 1))
  }

  /** a is g or one of g's ancestors. */
  ghost predicate IsAncestorOrSelf(b: Book, a: Guid, g: Guid) {
    exists n: nat :: OnChain(b, a, g, n)
  }

  /** The chain of a tree node is its own depth long. */
  lemma {:induction false} ChainWithinDepth(b: Book, a: Guid, g: Guid, depth: nat, n: nat)
    requires IsTree(b) && ReachesRoot(b, g, depth) && OnChain(b, a, g, n)
    ensures OnChain(b, a, g, depth)
    decreases depth
  {
    if g != a && depth > 0 {
      ChainWithinDepth(b, a, b.accounts[g].parent.value, depth - 1, n - 1);
    }
  }

  /** The climb from a new parent towards the root terminates, and finds the account exactly
      when the account is the new parent or one of its ancestors. */
  method CheckNoCycle(b: Book, account: Guid, newParent: Guid) returns (clear: bool)
    requires IsTree(b) && newParent in b.accounts
    ensures clear <==> !IsAncestorOrSelf(b, account, newParent)
  {
    var cursor: Option<Guid> := Some(newParent);
    ghost var left: int := Depth(b, newParent);
    ghost var depth := Depth(b, newParent);
    if IsAncestorOrSelf(b, account, newParent) {
      ghost var n: nat :| OnChain(b, account, newParent, n);
      ChainWithinDepth(b, account, newParent, depth, n);
    }
    while cursor.Some?
      invariant -1 <= left <= depth
      invariant cursor.None? <==> left == -1
      invariant cursor.Some? ==> ReachesRoot(b, cursor.value, left)
      invariant IsAncestorOrSelf(b, account, newParent) ==>
                  cursor.Some? && OnChain(b, account, cursor.value, left)
      invariant cursor.Some? ==>
                  (OnChain(b, account, cursor.value, left) ==> OnChain(b, account, newParent, depth))
      decreases left
    {
      if cursor.value == account {
        return false;
      }
      cursor := b.accounts[cursor.value].parent;
      left := left - 1;
    }
    return true;
  }

  // ---- replacing one account's record

  /** b with account a's record replaced. */
  ghost function Replaced(b: Book, a: Guid, record: Account): Book {
    b.(accounts := b.accounts[a := record])
  }

  /** A node whose chain avoids a keeps its chain. */
  lemma {:induction false} ChainAvoids(b: Book, a: Guid, record: Account, g: Guid, n: nat)
    requires ReachesRoot(b, g, n) && !OnChain(b, a, g, n)
    ensures ReachesRoot(Replaced(b, a, record), g, n)
    decreases n
  {
    if n > 0 {
      ChainAvoids(b, a, record, b.accounts[g].parent.value, n - 1);
    }
  }

  /** If a itself still reaches the root, so does every node. */
  lemma {:induction false} DepthSurvives(b: Book, a: Guid, record: Account, g: Guid, n: nat)
    requires ReachesRoot(b, g, n) && HasDepth(Replaced(b, a, record), a)
    ensures HasDepth(Replaced(b, a, record), g)
    decreases n
  {
    var b' := Replaced(b, a, record);
    if g != a {
      if n == 0 {
        assert ReachesRoot(b', g, 0);
      } else {
        var p := b.accounts[g].parent.value;
        DepthSurvives(b, a, record, p, n - 1);
        var m: nat :| ReachesRoot(b', p, m);
        assert ReachesRoot(b', g, m + 1);
      }
    }
  }

  /** Climbing to a takes a node's whole remaining depth below a's own. */
  lemma {:induction false} ChainIsDeeper(b: Book, a: Guid, record: Account, g: Guid, n: nat, d: nat, m: nat)
    requires IsTree(b) && a != b.root && OnChain(b, a, g, n)
    requires ReachesRoot(Replaced(b, a, record), g, d) && ReachesRoot(Replaced(b, a, record), a, m)
    ensures d >= m
    decreases n
  {
    if g == a {
      DepthUnique(Replaced(b, a, record), a, d, m);
    } else {
      ChainIsDeeper(b, a, record, b.accounts[g].parent.value, n - 1, d - 1, m);
    }
  }

  /** Moving an account under a new parent leaves a tree exactly when the guard accepts: the
      account is neither the new parent nor one of its ancestors. */
  lemma ReparentKeepsTree(b: Book, a: Guid, record: Account, p: Guid)
    requires IsTree(b) && a in b.accounts && a != b.root && p in b.accounts
    requires record.parent == Some(p)
    ensures IsTree(Replaced(b, a, record)) <==> !IsAncestorOrSelf(b, a, p)
  {
    var b' := Replaced(b, a, record);
    if IsAncestorOrSelf(b, a, p) {
      if IsTree(b') {
        var n: nat :| OnChain(b, a, p, n);
        var m := Depth(b', a);
        ChainIsDeeper(b, a, record, p, n, m - 1, m);
      }
    } else {
      var d := Depth(b, p);
      ChainAvoids(b, a, record, p, d);
      assert ReachesRoot(b', a, d + 1);
      forall g | g in b'.accounts
        ensures HasDepth(b', g)
      {
        DepthSurvives(b, a, record, g, Depth(b, g));
      }
    }
  }

  /** A change that touches neither the parent links nor the set of accounts keeps every chain. */
  ghost predicate SameShape(b: Book, b': Book) {
    && b.root == b'.root
    && b.accounts.Keys == b'.accounts.Keys
    && forall g :: g in b.accounts ==> b.accounts[g].parent == b'.accounts[g].parent
  }

  lemma {:induction false} SameShapeReaches(b: Book, b': Book, g: Guid, n: nat)
    requires SameShape(b, b')
    ensures ReachesRoot(b, g, n) <==> ReachesRoot(b', g, n)
    decreases n
  {
    if n > 0 && g in b.accounts && b.accounts[g].parent.Some? {
      SameShapeReaches(b, b', b.accounts[g].parent.value, n - 1);
    }
  }

  lemma SameShapeTree(b: Book, b': Book)
    requires SameShape(b, b') && IsTree(b)
    ensures IsTree(b')
  {
    forall g | g in b'.accounts
      ensures HasDepth(b', g)
    {
      SameShapeReaches(b, b', g, Depth(b, g));
    }
  }

  lemma {:induction false} SameShapeChain(b: Book, b': Book, a: Guid, g: Guid, n: nat)
    requires SameShape(b, b')
    ensures OnChain(b, a, g, n) <==> OnChain(b', a, g, n)
    decreases n
  {
    if n > 0 && g in b.accounts && b.accounts[g].parent.Some? {
      SameShapeChain(b, b', a, b.accounts[g].parent.value, n - 1);
    }
  }

  lemma SameShapeAncestors(b: Book, b': Book, a: Guid, g: Guid)
    requires SameShape(b, b')
    ensures IsAncestorOrSelf(b, a, g) <==> IsAncestorOrSelf(b', a, g)
  {
    forall n: nat
      ensures OnChain(b, a, g, n) <==> OnChain(b', a, g, n)
    {
      SameShapeChain(b, b', a, g, n);
    }
  }

  // ---- adding and removing a leaf

  lemma {:induction false} AddKeepsDepth(b: Book, a: Guid, record: Account, g: Guid, n: nat)
    requires a !in b.accounts && ReachesRoot(b, g, n)
    ensures ReachesRoot(Replaced(b, a, record), g, n)
    decreases n
  {
    if n > 0 {
      AddKeepsDepth(b, a, record, b.accounts[g].parent.value, n - 1);
    }
  }

  lemma AddLeafKeepsTree(b: Book, a: Guid, record: Account, p: Guid)
    requires IsTree(b) && a !in b.accounts && p in b.accounts && record.parent == Some(p)
    ensures IsTree(Replaced(b, a, record))
  {
    var b' := Replaced(b, a, record);
    AddKeepsDepth(b, a, record, p, Depth(b, p));
    assert ReachesRoot(b', a, Depth(b, p) + 1);
    forall g | g in b'.accounts
      ensures HasDepth(b', g)
    {
      if g != a {
        AddKeepsDepth(b, a, record, g, Depth(b, g));
      }
    }
  }

  predicate HasChild(b: Book, a: Guid) {
    exists g :: g in b.accounts && b.accounts[g].parent == Some(a)
  }

  ghost function Without(b: Book, a: Guid): Book {
    b.(accounts := b.accounts - {a})
  }

  lemma {:induction false} RemoveKeepsDepth(b: Book, a: Guid, g: Guid, n: nat)
    requires !HasChild(b, a) && g != a && ReachesRoot(b, g, n)
    ensures ReachesRoot(Without(b, a), g, n)
    decreases n
  {
    if n > 0 {
      RemoveKeepsDepth(b, a, b.accounts[g].parent.value, n - 1);
    }
  }

  lemma RemoveLeafKeepsTree(b: Book, a: Guid)
    requires IsTree(b) && a != b.root && !HasChild(b, a)
    ensures IsTree(Without(b, a))
  {
    forall g | g in Without(b, a).accounts
      ensures HasDepth(Without(b, a), g)
    {
      RemoveKeepsDepth(b, a, g, Depth(b, g));
    }
  }
}
