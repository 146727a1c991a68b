/** The sidecar journal: one table of intents, one of outcomes, updated by single durable
    statements. */
module Journals {
  import opened Options
  import opened Errors
  import opened Books
  import opened Handlers
  import opened Sequences

  type Id = string

  datatype Intent = Intent(request: Request, pending: Option<Response>)

  datatype Outcome = Succeeded(response: Response) | Failed(error: ShimError)

  /** An intent that reached its pending record without an outcome. */
  datatype PendingEntry = PendingEntry(id: Id, request: Request, pending: Response)

  datatype Tables = Tables(intents: map<Id, Intent>, applied: map<Id, Outcome>)

  // ---- what each statement does to the tables

  function WithIntent(t: Tables, id: Id, r: Request): Tables {
    if id in t.intents then t else t.(intents := t.intents[id := Intent(r, None)])
  }

  function WithPending(t: Tables, id: Id, pending: Option<Response>): Tables {
    if id in t.intents then t.(intents := t.intents[id := t.intents[id].(pending := pending)]) else t
  }

  /** An outcome row needs its intent row, and there is at most one per id. */
  predicate Insertable(t: Tables, id: Id) {
    id in t.intents && id !in t.applied
  }

  function WithOutcome(t: Tables, id: Id, o: Outcome): Tables {
    if Insertable(t, id) then t.(applied := t.applied[id := o]) else t
  }

  // ---- what the two lists select

  predicate IsUnresolved(t: Tables, id: Id) {
    id in t.intents && t.intents[id].pending.Some? && id !in t.applied
  }

  function Unresolved(t: Tables): set<Id> {
    set id | id in t.intents && IsUnresolved(t, id)
  }

  /** How each statement changes the set of unresolved ids. */
  lemma UnresolvedAfter(t: Tables, id: Id)
    ensures forall r :: Unresolved(WithIntent(t, id, r)) == Unresolved(t)
    ensures forall o :: Insertable(t, id) ==> Unresolved(WithOutcome(t, id, o)) == Unresolved(t) - {id}
    ensures forall p :: Insertable(t, id) ==> Unresolved(WithPending(t, id, Some(p))) == Unresolved(t) + {id}
    ensures Unresolved(WithPending(t, id, None)) == Unresolved(t) - {id}
  {
  }

  function Indeterminate(t: Tables): set<Id> {
    t.intents.Keys - t.applied.Keys
  }

  function EntryOf(t: Tables, id: Id): PendingEntry
    requires IsUnresolved(t, id)
  {
    PendingEntry(id, t.intents[id].request, t.intents[id].pending.value)
  }

  ghost function Ids(entries: seq<PendingEntry>): set<Id> {
    set i | 0 <= i < |entries| :: entries[i].id
  }

  /** The entries list each unresolved id once, with what its intent row holds. */
  ghost predicate Lists(t: Tables, entries: seq<PendingEntry>) {
    && Ids(entries) == Unresolved(t)
    && (forall i, j :: 0 <= i < j < |entries| ==> entries[i].id != entries[j].id)
    && forall i :: 0 <= i < |entries| ==> IsUnresolved(t, entries[i].id) && entries[i] == EntryOf(t, entries[i].id)
  }

  lemma OnlyEntry(t: Tables, id: Id)
    requires Unresolved(t) == {id} && IsUnresolved(t, id)
    ensures Lists(t, [EntryOf(t, id)])
  {
    assert [EntryOf(t, id)][0].id == id;
    assert Ids([EntryOf(t, id)]) == {id};
  }

  lemma ListedOnce(t: Tables, entries: seq<PendingEntry>)
    requires Lists(t, entries)
    ensures forall e :: e in entries <==>
              e.id in t.intents && e.id !in t.applied && t.intents[e.id] == Intent(e.request, Some(e.pending))
  {
    forall e
      ensures e in entries <==>
              e.id in t.intents && e.id !in t.applied && t.intents[e.id] == Intent(e.request, Some(e.pending))
    {
      if IsUnresolved(t, e.id) {
        assert e.id in Unresolved(t);
        var i :| 0 <= i < |entries| && entries[i].id == e.id;
        assert entries[i] == EntryOf(t, e.id);
      }
    }
  }

  class Journal {
    var intents: map<Id, Intent>
    var applied: map<Id, Outcome>

    ghost function Rows(): Tables
      reads this
    {
      Tables(intents, applied)
    }

    constructor ()
      ensures Rows() == Tables(map[], map[])
    {
      intents, applied := map[], map[];
    }

    /** Step 1. A row that exists already is left as it is. */
    method RecordIntent(id: Id, request: Request)
      modifies this
      ensures Rows() == WithIntent(old(Rows()), id, request)
    {
      if id !in intents {
        intents := intents[id := Intent(request, None)];
      }
    }

    /** Step 2. */
    method GetOutcome(id: Id) returns (outcome: Option<Outcome>)
      ensures outcome == if id in applied then Some(applied[id]) else None
    {
      if id in applied {
        return Some(applied[id]);
      }
      return None;
    }

    /** Step 3a. */
    method RecordPending(id: Id, response: Response)
      modifies this
      ensures Rows() == WithPending(old(Rows()), id, Some(response))
    {
      if id in intents {
        intents := intents[id := intents[id].(pending := Some(response))];
      }
    }

    method ClearPending(id: Id)
      modifies this
      ensures Rows() == WithPending(old(Rows()), id, None)
    {
      if id in intents {
        intents := intents[id := intents[id].(pending := None)];
      }
    }

    /** Step 4. The statement fails on a second outcome or without an intent row. */
    method RecordOutcome(id: Id, outcome: Outcome) returns (recorded: bool)
      modifies this
      ensures recorded <==> Insertable(old(Rows()), id)
      ensures Rows() == WithOutcome(old(Rows()), id, outcome)
    {
      if id !in intents || id in applied {
        return false;
      }
      applied := applied[id := outcome];
      return true;
    }

    method ListPendingUnresolved() returns (entries: seq<PendingEntry>)
      ensures Lists(Rows(), entries)
      ensures forall e :: e in entries <==>
                e.id in intents && e.id !in applied && intents[e.id] == Intent(e.request, Some(e.pending))
    {
      entries := [];
      var rows := intents.Keys;
      while rows != {}
        invariant rows <= intents.Keys
        invariant forall i, j :: 0 <= i < j < |entries| ==> entries[i].id != entries[j].id
        invariant forall i :: 0 <= i < |entries| ==>
                    entries[i].id !in rows && IsUnresolved(Rows(), entries[i].id) && entries[i] == EntryOf(Rows(), entries[i].id)
        invariant forall id :: id in Unresolved(Rows()) ==> id in rows || id in Ids(entries)
      {
        var id :| id in rows;
        rows := rows - {id};
        ghost var before := entries;
        if intents[id].pending.Some? && id !in applied {
          entries := entries + [PendingEntry(id, intents[id].request, intents[id].pending.value)];
          assert entries[|before|].id == id;
        }
        assert forall i :: 0 <= i < |before| ==> entries[i] == before[i];
      }
      ListedOnce(Rows(), entries);
    }

    method ListIndeterminate() returns (ids: seq<Id>)
      ensures Distinct(ids)
      ensures forall id :: id in ids <==> id in Indeterminate(Rows())
      ensures forall id :: id in ids <==> id in intents && id !in applied
    {
      ids := [];
      var rows := intents.Keys;
      while rows != {}
        invariant rows <= intents.Keys && Distinct(ids)
        invariant forall id :: id in ids <==> id in Indeterminate(Rows()) && id !in rows
      {
        var id :| id in rows;
        rows := rows - {id};
        if id !in applied {
          ids := ids + [id];
        }
      }
    }
  }
}
