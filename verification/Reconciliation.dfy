/** Startup reconciliation as a whole: what it does to the journal, and why it may be
    interrupted anywhere. */
module Reconciliation {
  import opened Options
  import opened Books
  import opened Recovery
  import opened Journals

  /** The unresolved ids that book b shows as applied. */
  function Confirmed(t: Tables, b: Book): set<Id> {
    set id | id in Unresolved(t) && JudgedApplied(b, t.intents[id].request, t.intents[id].pending.value)
  }

  /** The tables once the ids in done are resolved: those in yes as applied, the others with
      their pending record dropped. */
  function Resolved(t: Tables, yes: set<Id>, done: set<Id>): Tables {
    Tables(
      map id | id in t.intents ::
        if id in done && id !in yes then t.intents[id].(pending := None) else t.intents[id],
      t.applied + map id | id in done && id in yes && IsUnresolved(t, id) :: Succeeded(t.intents[id].pending.value))
  }

  /** The tables after reconciling the ids in done against book b. */
  function AfterReconciling(t: Tables, b: Book, done: set<Id>): Tables {
    Resolved(t, Confirmed(t, b), done)
  }

  /** After resolving some of the unresolved ids, just the others are unresolved. */
  lemma ResolvedUnresolved(t: Tables, yes: set<Id>, done: set<Id>)
    requires done <= Unresolved(t)
    ensures Unresolved(Resolved(t, yes, done)) == Unresolved(t) - done
    ensures forall id :: id in Unresolved(t) - done ==> Resolved(t, yes, done).intents[id] == t.intents[id]
  {
    var r := Resolved(t, yes, done);
    forall id
      ensures id in Unresolved(r) <==> id in Unresolved(t) - done
    {
      assert id in Unresolved(r) <==> IsUnresolved(r, id);
      assert id in Unresolved(t) <==> IsUnresolved(t, id);
    }
  }

  lemma ResolvedInTwoParts(t: Tables, yes: set<Id>, done: set<Id>)
    requires done <= Unresolved(t) && yes <= Unresolved(t)
    ensures Resolved(Resolved(t, yes, done), yes - done, Unresolved(t) - done) == Resolved(t, yes, Unresolved(t))
  {
    var partway := Resolved(t, yes, done);
    var again, through := Resolved(partway, yes - done, Unresolved(t) - done), Resolved(t, yes, Unresolved(t));
    ResolvedUnresolved(t, yes, done);
    assert again.intents == through.intents;
    forall id
      ensures id in again.applied <==> id in through.applied
      ensures id in again.applied ==> again.applied[id] == through.applied[id]
    {
      UnresolvedMember(t, id);
      UnresolvedMember(partway, id);
    }
  }

  lemma UnresolvedMember(t: Tables, id: Id)
    ensures id in Unresolved(t) <==> IsUnresolved(t, id)
  {
  }

  /** Dying after any part of reconciliation and starting over on the same book ends in the
      same journal as running through, with nothing left unresolved. */
  lemma ReconciliationRestarts(t: Tables, b: Book, done: set<Id>)
    requires done <= Unresolved(t)
    ensures var partway := AfterReconciling(t, b, done);
            AfterReconciling(partway, b, Unresolved(partway)) == AfterReconciling(t, b, Unresolved(t))
    ensures Unresolved(AfterReconciling(t, b, Unresolved(t))) == {}
  {
    var yes := Confirmed(t, b);
    ResolvedUnresolved(t, yes, done);
    ResolvedUnresolved(t, yes, Unresolved(t));
    ResolvedInTwoParts(t, yes, done);
    assert Confirmed(AfterReconciling(t, b, done), b) == yes - done;
  }

  /** Resolving one more entry, as the loop does. */
  lemma ResolveOne(t: Tables, yes: set<Id>, done: set<Id>, id: Id)
    requires done <= Unresolved(t) && id in Unresolved(t) && id !in done
    ensures var r := Resolved(t, yes, done);
            && Insertable(r, id)
            && Resolved(t, yes, done + {id}) ==
               if id in yes then WithOutcome(r, id, Succeeded(t.intents[id].pending.value))
               else WithPending(r, id, None)
  {
    var r, next := Resolved(t, yes, done), Resolved(t, yes, done + {id});
    assert Insertable(r, id);
    if id in yes {
      assert next.intents == r.intents;
      assert next.applied == r.applied[id := Succeeded(t.intents[id].pending.value)];
    } else {
      assert next.applied == r.applied;
      assert next.intents == r.intents[id := r.intents[id].(pending := None)];
    }
  }

  /** One round of the loop. */
  method ResolveEntry(journal: Journal, b: Book, e: PendingEntry) returns (applied: bool)
    modifies journal
    ensures applied == JudgedApplied(b, e.request, e.pending)
    ensures journal.Rows() == if applied then WithOutcome(old(journal.Rows()), e.id, Succeeded(e.pending))
                              else WithPending(old(journal.Rows()), e.id, None)
  {
    var verdict := WasApplied(b, e.request, e.pending);
    applied := verdict == Some(true);
    if applied {
      var _ := journal.RecordOutcome(e.id, Succeeded(e.pending));
    } else {
      journal.ClearPending(e.id);
    }
  }

  lemma ConfirmedMember(t: Tables, b: Book, id: Id)
    requires IsUnresolved(t, id)
    ensures id in Confirmed(t, b) <==> JudgedApplied(b, EntryOf(t, id).request, EntryOf(t, id).pending)
  {
  }

  lemma IdsExtend(entries: seq<PendingEntry>, i: nat)
    requires i < |entries|
    ensures Ids(entries[..i + 1]) == Ids(entries[..i]) + {entries[i].id}
  {
    var longer, shorter := entries[..i + 1], entries[..i];
    assert forall j :: 0 <= j < i ==> longer[j] == shorter[j];
    assert longer[i] == entries[i];
  }

  /** What round i of the loop finds and does. */
  lemma Round(t: Tables, b: Book, entries: seq<PendingEntry>, i: nat)
    requires Lists(t, entries) && i < |entries|
    ensures var e, done := entries[i], Ids(entries[..i]);
            var yes := JudgedApplied(b, e.request, e.pending);
            && Ids(entries[..i + 1]) == done + {e.id}
            && AfterReconciling(t, b, done + {e.id}) ==
               (if yes then WithOutcome(AfterReconciling(t, b, done), e.id, Succeeded(e.pending))
                else WithPending(AfterReconciling(t, b, done), e.id, None))
            && |(done + {e.id}) * Confirmed(t, b)| == |done * Confirmed(t, b)| + (if yes then 1 else 0)
  {
    var e, done, yes := entries[i], Ids(entries[..i]), Confirmed(t, b);
    assert forall j :: 0 <= j < i ==> entries[..i][j] == entries[j];
    assert e.id in Ids(entries) && e.id !in done && done <= Ids(entries);
    IdsExtend(entries, i);
    ConfirmedMember(t, b, e.id);
    ResolveOne(t, yes, done, e.id);
    assert (done + {e.id}) * yes == if e.id in yes then done * yes + {e.id} else done * yes;
  }

  lemma NothingResolved(t: Tables, yes: set<Id>)
    ensures Resolved(t, yes, {}) == t
  {
    assert Resolved(t, yes, {}).intents == t.intents;
    assert Resolved(t, yes, {}).applied == t.applied;
  }

  /** Where the loop stands after i entries. */
  ghost predicate Partway(t: Tables, b: Book, entries: seq<PendingEntry>, i: nat, rows: Tables, count: nat)
    requires i <= |entries|
  {
    && rows == AfterReconciling(t, b, Ids(entries[..i]))
    && count == |Ids(entries[..i]) * Confirmed(t, b)|
  }

  lemma RoundDone(t: Tables, b: Book, entries: seq<PendingEntry>, i: nat, rows: Tables, count: nat)
    requires Lists(t, entries) && i < |entries| && Partway(t, b, entries, i, rows, count)
    ensures var e := entries[i];
            if JudgedApplied(b, e.request, e.pending)
            then Partway(t, b, entries, i + 1, WithOutcome(rows, e.id, Succeeded(e.pending)), count + 1)
            else Partway(t, b, entries, i + 1, WithPending(rows, e.id, None), count)
  {
    Round(t, b, entries, i);
  }

  lemma LoopStarts(t: Tables, b: Book, entries: seq<PendingEntry>)
    ensures Partway(t, b, entries, 0, t, 0)
  {
    NothingResolved(t, Confirmed(t, b));
    assert Ids(entries[..0]) == {};
  }

  lemma LoopEnds(t: Tables, b: Book, entries: seq<PendingEntry>, rows: Tables, count: nat)
    requires Lists(t, entries) && Partway(t, b, entries, |entries|, rows, count)
    ensures rows == AfterReconciling(t, b, Unresolved(t)) && count == |Confirmed(t, b)|
  {
    assert entries[..|entries|] == entries;
    assert Unresolved(t) * Confirmed(t, b) == Confirmed(t, b);
  }

  /** The reconciliation loop. Its result is the reconciliation of every unresolved id, and
      the count is of those found applied. */
  method ReconcilePendingMutations(journal: Journal, b: Book) returns (appliedCount: nat)
    modifies journal
    ensures journal.Rows() == AfterReconciling(old(journal.Rows()), b, Unresolved(old(journal.Rows())))
    ensures appliedCount == |Confirmed(old(journal.Rows()), b)|
  {
    ghost var t := journal.Rows();
    var entries := journal.ListPendingUnresolved();
    LoopStarts(t, b, entries);
    appliedCount := 0;
    for i := 0 to |entries|
      invariant Partway(t, b, entries, i, journal.Rows(), appliedCount)
    {
      RoundDone(t, b, entries, i, journal.Rows(), appliedCount);
      var applied := ResolveEntry(journal, b, entries[i]);
      if applied {
        appliedCount := appliedCount + 1;
      }
    }
    LoopEnds(t, b, entries, journal.Rows(), appliedCount);
  }
}
