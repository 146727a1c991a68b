/** A committed update after which the daemon does not come up again. */
module LockedOut {
  import opened Options
  import opened Handlers
  import opened Protocol
  import opened Daemon
  import opened Convergence
  import opened RestartFailure
  import Startup

  lemma EmptyBookOpens()
    ensures Startup.Opens(EMPTY_BOOK)
  {
    assert Startup.Passes(EMPTY_BOOK, []);
  }

  /** The update leaves a book that the gate refuses. */
  lemma UpdateDoesNotOpen()
    ensures !Startup.Opens(BookWith(UPDATED))
  {
    PostingIsStored();
    UpdateIsStored();
    forall rows
      ensures !Startup.Passes(BookWith(UPDATED), rows)
    {
      RestartMustFail(rows);
    }
  }

  /** The daemon starts on an empty book and posts a transaction. */
  lemma PostingRuns() returns (ls: seq<Label>)
    ensures Legal(Initial(EMPTY_BOOK), ls) && CanRun(Initial(EMPTY_BOOK), ls)
    ensures var s := Run(Initial(EMPTY_BOOK), ls);
            && s.phase.Idle? && s.open && s.book == BookWith(POSTED) && s.commits == ["p"]
            && s.tables.intents.Keys == s.tables.applied.Keys == {"p"}
  {
    EmptyBookOpens();
    InitialInv(EMPTY_BOOK);
    var up := StartRuns(Initial(EMPTY_BOOK));
    var s := Run(Initial(EMPTY_BOOK), up);
    PostingIsStored();
    var v := Execute(Some(EMPTY_BOOK), POSTING, POSTING_ENV);
    var post := CommittedRuns(s, "p", POSTING, POSTING_ENV, v.response, v.post);
    RunsOn(Initial(EMPTY_BOOK), up, post);
    ls := up + post;
  }

  /** From an empty book: the daemon starts, posts a transaction and updates it, and dies before
      it records the second outcome. The update is committed and stays without an outcome, and
      no step is possible any more. */
  lemma UpdateNeverSettled() returns (ls: seq<Label>)
    ensures WellFormed(EMPTY_BOOK) && Legal(Initial(EMPTY_BOOK), ls) && CanRun(Initial(EMPTY_BOOK), ls)
    ensures var s := Run(Initial(EMPTY_BOOK), ls);
            && s.commits == ["p", "u"] && "u" in s.tables.intents && "u" !in s.tables.applied
            && !CanSettle(s, "u") && forall more :: CanRun(s, more) ==> more == []
  {
    EmptyBookIsSound();
    var post := PostingRuns();
    var s := Run(Initial(EMPTY_BOOK), post);
    UpdateIsFresh();
    UpdateIsStored();
    UpdateDoesNotOpen();
    var v := Execute(Some(s.book), UPDATE, UPDATE_ENV);
    var update := CommittedNeverSettled(s, "u", UPDATE, UPDATE_ENV, v.response, v.post);
    RunsOn(Initial(EMPTY_BOOK), post, update);
    ls := post + update;
  }
}
