/** A resolved id used again for another request. The hypotheses allow it, and the book is safe,
    but the answer then speaks of the first request. */
module CrossedReplies {
  import opened Options
  import opened Books
  import opened Transactions
  import opened Handlers
  import opened Journals
  import opened Protocol
  import opened Daemon
  import opened FirstRequests

  lemma ReplayRuns(s: State, id: Id, r: Request, legible: bool)
    requires s.phase.Idle? && id in s.tables.applied && id in s.tables.intents
    ensures Legal(s, [Call(id, r), Lookup(legible)]) && CanRun(s, [Call(id, r), Lookup(legible)])
    ensures Run(s, [Call(id, r), Lookup(legible)]) == Protocol.Reply(s, id, r, Replayed(r, s.tables.applied[id], legible))
  {
    var s1 := Step(s, Call(id, r));
    assert s1.tables == s.tables;
    StepThenRun(s1, Lookup(legible), []);
    StepThenRun(s, Call(id, r), [Lookup(legible)] + []);
    assert [Call(id, r)] + ([Lookup(legible)] + []) == [Call(id, r), Lookup(legible)];
  }

  /** What a call gets under an id that has its outcome, which runs no handler and changes nothing:
      the recorded failure; the recorded response if it is of the type that the call answers
      with; nothing at all for a deletion; and else other content or an error that is not final,
      as the bytes happen to parse. */
  lemma ReplayIsExact(s: State, id: Id, r: Request, legible: bool)
    requires s.phase.Idle? && id in s.tables.applied && id in s.tables.intents
    requires s.tables.applied[id].Succeeded? ==> !s.tables.applied[id].response.Misread?
    ensures CanRun(s, [Call(id, r), Lookup(legible)])
    ensures var o, s' := s.tables.applied[id], Run(s, [Call(id, r), Lookup(legible)]);
            && s' == s.(acks := s'.acks) && |s'.acks| == |s.acks| + 1
            && var ack := s'.acks[|s.acks|];
            && s'.acks == s.acks + [ack] && ack.id == id && ack.request == r
            && (o.Failed? || ShapeOf(o.response) == Asked(r) ==> ack.reply == o)
            && (o.Succeeded? && Asked(r) == EmptyShape ==> ack.reply == Succeeded(EmptyReply))
            && (o.Succeeded? && ShapeOf(o.response) != Asked(r) && Asked(r) != EmptyShape ==>
                  if legible || o.response == EmptyReply
                  then ack.reply.Succeeded? && ShapeOf(ack.reply.response) == Asked(r)
                  else ack.reply.Failed? && !Final(ack.reply))
  {
    ReplayRuns(s, id, r, legible);
  }

  lemma DeletionReplays(s: State, id: Id, g: Guid)
    requires s.phase.Idle? && id in s.tables.applied && id in s.tables.intents
    requires s.tables.applied[id].Succeeded? && !s.tables.applied[id].response.Misread?
    ensures var ls := [Call(id, DeleteTransaction(Wire(g))), Lookup(true)];
            && Legal(s, ls) && CanRun(s, ls)
            && Run(s, ls) == Protocol.Reply(s, id, DeleteTransaction(Wire(g)), Succeeded(EmptyReply))
  {
    var r, response := DeleteTransaction(Wire(g)), s.tables.applied[id].response;
    ReplayRuns(s, id, r, true);
    assert ReadAs(EmptyShape, response) == EmptyReply;
    assert Replayed(r, s.tables.applied[id], true) == Succeeded(EmptyReply);
  }

  /** The id's outcome on record is a success of this request, with this response. */
  predicate Recorded(s: State, id: Id, r: Request, response: Response) {
    FirstIs(s, id, r) && id in s.tables.applied && s.tables.applied[id] == Succeeded(response)
  }

  /** A request that the handler accepts, and then a deletion under the same id. */
  lemma DeletionFollows(s: State, id: Id, r: Request, env: Env, response: Response, post: Book, g: Guid)
    returns (first: seq<Label>, delete: seq<Label>)
    requires s.phase.Idle? && s.open && id !in s.tables.intents && id !in s.tables.applied
    requires Yields(Some(s.book), r, env, Commit(response, post)) && Fresh(s.book, r, env)
    requires !response.Misread?
    ensures Legal(s, first) && CanRun(s, first) && Legal(Run(s, first), delete) && CanRun(Run(s, first), delete)
    ensures Recorded(Run(s, first), id, r, response) && Run(s, first).book == post && Run(s, first).commits == s.commits + [id]
    ensures Run(Run(s, first), delete) ==
            Protocol.Reply(Run(s, first), id, DeleteTransaction(Wire(g)), Succeeded(EmptyReply))
  {
    first := CommittedRuns(s, id, r, env, response, post);
    DeletionReplays(Run(s, first), id, g);
    delete := [Call(id, DeleteTransaction(Wire(g))), Lookup(true)];
  }

  /** A transaction is posted under an id, then its deletion is asked for under the same id.
      The daemon answers that deletion with success; the record still holds the posting, the
      edit was committed once, and the transaction is there. */
  lemma DeletionAnsweredNotDone(s: State, id: Id, t: TransactionSpec, env: Env)
    returns (post: seq<Label>, delete: seq<Label>)
    requires s.phase.Idle? && s.open && id !in s.tables.intents && id !in s.tables.applied
    requires Fresh(s.book, PostTransaction(t), env) && DoPostTransaction(Some(s.book), t, env).Ok?
    ensures Legal(s, post) && CanRun(s, post) && Legal(Run(s, post), delete) && CanRun(Run(s, post), delete)
    ensures var s' := Run(Run(s, post), delete);
            && s'.acks == Run(s, post).acks + [Ack(id, DeleteTransaction(Wire(env.entity)), Succeeded(EmptyReply))]
            && FirstIs(s', id, PostTransaction(t)) && s'.commits == s.commits + [id]
            && s'.book == Run(s, post).book && env.entity in s'.book.transactions
  {
    var v := Execute(Some(s.book), PostTransaction(t), env);
    post, delete := DeletionFollows(s, id, PostTransaction(t), env, v.response, v.post, env.entity);
  }

  /** Two deletions under one id: the second is answered with success, and its reply is even the
      recorded outcome, but only the first was done. */
  lemma OtherDeletionNotDone(s: State, id: Id, gone: Guid, kept: Guid, env: Env)
    returns (first: seq<Label>, second: seq<Label>)
    requires s.phase.Idle? && s.open && id !in s.tables.intents && id !in s.tables.applied
    requires gone in s.book.transactions && kept in s.book.transactions && gone != kept
    requires Fresh(s.book, DeleteTransaction(Wire(gone)), env)
    ensures Legal(s, first) && CanRun(s, first) && Legal(Run(s, first), second) && CanRun(Run(s, first), second)
    ensures var s' := Run(Run(s, first), second);
            && s'.acks == Run(s, first).acks + [Ack(id, DeleteTransaction(Wire(kept)), Succeeded(EmptyReply))]
            && Recorded(s', id, DeleteTransaction(Wire(gone)), EmptyReply)
            && gone !in s'.book.transactions && kept in s'.book.transactions
  {
    var v := Execute(Some(s.book), DeleteTransaction(Wire(gone)), env);
    first, second := DeletionFollows(s, id, DeleteTransaction(Wire(gone)), env, EmptyReply, v.post, kept);
  }
}
