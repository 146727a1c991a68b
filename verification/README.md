# A verified model of the daichod mutation protocol and its ledger

daichod serves one GnuCash book over gRPC. A client names every mutation with an id; the daemon
journals the request, runs it on the single engine thread, records the response as pending,
commits the engine edit and records the outcome. It may be killed between any two of these
durable steps, also while a restart is still reconciling, and a client may retry an id as often
as it likes. This project models that protocol, the eight mutating calls it carries, the
arithmetic that decides whether a transaction balances, the worker thread that serializes it
all, the paginated split query and the snapshot taken before the book is opened, and proves what
clients may rely on. `dafny verify dfyconfig.toml` checks it.

| part | files |
|---|---|
| ledger arithmetic: the running sum over a common denominator, with 64-bit overflow | `Numerics` |
| the book, its wire views, the account tree | `Books`, `Accounts` |
| planning a transaction, and replacing its splits | `Transactions`, `Planning`, `Replacement` |
| the same, on the engine's objects, step by step | `Edits`, `TransactionEdits`, `AccountEdits`, `PriceEdits` |
| what the calls accept, refuse, store and answer, said of the requests alone | `Admission`, `Precedence`, `Verdicts`, `StoredSplits`, `Effects` |
| the eight handlers, and what every commit keeps | `Handlers`, `Integrity` |
| the journal tables, and the verdict of startup reconciliation | `Journals`, `Recovery`, `Reconciliation` |
| the protocol machine, the atomic store it refines, the guarantees, the daemon's own code | `Protocol`, `Refinement`, `FirstRequests`, `Guarantees`, `Convergence`, `Reopening`, `Daemon`, `DroppedHypotheses`, `CrossedReplies` |
| the startup gate and the trial balance | `Startup`, `RestartFailure`, `LockedOut` |
| the split query's cursor, and following it | `Pagination`, `PagedWalk` |
| the engine worker | `Worker`, `WorkerGuarantees`, `WorkerAdmission` |
| the daily snapshot | `TextOrder`, `Stamps`, `Backup` |

## What the protocol relies on

The guarantees hold for every run that begins with any book and an empty journal, and whose steps
meet these hypotheses (`Protocol.Hypotheses` and the shape of `Protocol.Step`); what they say of the
book itself (`Guarantees.BookStaysSound`, `Guarantees.RootOverRuns`, `Convergence.RestartPasses`) needs
a well-formed one to begin with. Without the first, the third or the fifth hypothesis the guarantees
fail, as the lemmas named here show.

1. A journal statement becomes durable or the process dies. `DroppedHypotheses.LostOutcomeAppliesTwice`
   shows what happens otherwise: the outcome record fails, the daemon lives on, and a retry commits
   the same mutation again.
2. An engine commit is atomic and durable.
3. While an id has no outcome it is retried with the request it first came with. The code never
   compares them: `DroppedHypotheses.ReusedIdMisreports` is a run in which a deletion is recorded as
   done that never happened. Once an id has an outcome it may come with any request. The book stays
   safe, but the answer is that of the first request: a deletion asked for under the id of a posting,
   or of another deletion, is answered with success and not done (`CrossedReplies.DeletionAnsweredNotDone`,
   `CrossedReplies.OtherDeletionNotDone`). What an acknowledged call asked for is what was done exactly
   if it is the request that its id was first journaled with (`Guarantees.AcknowledgedIsDone`), so a
   client that never uses an id for two requests can take every reply at its word
   (`Guarantees.UnsharedIdIsDone`).
4. GUIDs that the engine assigns are new, it stores split values exactly as given, it keeps the
   order of a transaction's splits, and it stores a posting date as a day, without a time.
5. Nobody but the daemon writes the book, above all not between a crash and the end of reconciliation.
   An outside edit in between can make a committed update look unapplied
   (`DroppedHypotheses.OutsideEditHidesCommit`).

Every start passes the startup gate before it reconciles (`Startup.Opens` in `Protocol.Enabled`). So a
journaled id of a daemon that has died can still get its outcome exactly if it has it already, or the
gate lets the book through in some listing order (`Convergence.SettlesIffOpens`; one retry is then
enough, `Convergence.NothingIsLost`). `Startup.OpensIffFits` says when it does, and
`Convergence.RestartPasses` gives a bound on the book under which every start passes.

## Where the code and its documentation differ

- `DESIGN.md` line 22 calls the startup check exact. It is exact about everything the contract shows.
  The stored book can differ in one case: `SetReconcileInfo` for a day on which the account already
  has a stamp with another time of day. The two look alike, so reconciliation may record the call as
  applied although its commit never happened (`Recovery.VerdictIsStrict` gives the exact condition,
  `Recovery.StampHiddenExample` an instance). Runs without such a call refine the atomic store down to
  the stored book (`Refinement.RunRefinesExactly`).
- The daemon can refuse to start on a book that it built itself. One accepted posting can overflow the
  gate's sums in the order in which its splits are listed (`RestartFailure.RestartCanFail`); an accepted
  update, whose splits the engine stores in another order than the request has them, can overflow the
  engine's own imbalance, and then no listing passes again (`RestartFailure.RestartMustFail`). If the
  daemon dies between the commit of that update and its outcome record, the update is committed and its
  client never gets an answer (`LockedOut.UpdateNeverSettled`), although `DESIGN.md` line 40 has every
  crash converge without loss.
  `Startup.GateRefusesOnlyOverflow` says exactly when the gate opens, and `Startup.BoundedBookPasses`
  gives a bound that makes it open for every listing order.
- The root account is protected from updates and deletion, but not from `SetReconcileInfo`
  (`src/rpc/account_service.cpp` lines 202 to 219). A commit leaves it unmodified exactly if it does not
  set its stamp to another instant (`Integrity.RootUnmodified`, an instance in
  `Integrity.RootStampExample`); over whole runs only the stamp can differ, and it is the one last
  committed (`Guarantees.RootOverRuns`).
- Survivors keeping their order does not keep the cursor walk from showing a split twice
  (`PagedWalk.ComebackIsShownTwice`): one that leaves the results and comes back is shown again exactly
  if it comes back behind the cursor (`PagedWalk.ShownAgainExactly`). If all result lists are sorted by
  one common order, nothing is shown twice (`PagedWalk.OrderedNothingTwice`).
- The comment above `CopyWithSidecars` (`src/util/backup.cpp` line 38) says that every sidecar that
  exists is copied. Line 44 takes an existence test that ends in an error for absence, so a live part
  can be left out and the snapshot is published all the same. After a clean start it holds every live
  file exactly if no existence test of one failed (`Backup.CleanStartIsComplete`); with remains of an
  earlier attempt, a part that was missed may still be there (`Backup.PublishedIsComplete`).
- `src/util/backup.cpp` lines 81 and 82 say that a failed prune must not block serving. Reading on in the
  directory throws outside the `try` block if it fails, and `src/main.cpp` line 237 then ends the daemon.
  This happens exactly if the directory opens and its first entry reads, every further one does up to
  one that cannot be read, and nothing stops the process before (`Backup.Disk.Prune`). The next start that
  day finds the snapshot and skips the pruning.
- With `--backup-keep-days 0` the snapshot just made is pruned again (`Backup.Retention`).

## Model

| member | source | states |
|---|---|---|
| Numerics.LcmDivides | src/rpc/transaction_service.cpp:137-138 | the common denominator divides exactly the common multiples of the two denominators |
| Numerics.RunningSumScaled | src/rpc/transaction_service.cpp:98-143 | a running sum that exists is the exact sum over the lcm of all denominators seen |
| Numerics.RunningSumExact | src/rpc/transaction_service.cpp:98-143 | the running sum exists iff every prefix's exact sum fits 64 bits, and then equals the sum of the values as reals |
| Numerics.RealSumPermutation | src/rpc/transaction_service.cpp:98-153 | exact sums and sums of magnitudes do not depend on the order of the splits |
| Numerics.PermutationChangesOnlyOverflow | src/rpc/transaction_service.cpp:139-153 | two orders of the same values that both avoid overflow agree on balanced or not |
| Numerics.BoundedNeverOverflows | src/engine/session.cpp:282-283 | values whose magnitudes, scaled to a common denominator, sum within 64 bits never overflow a running sum |
| Numerics.BoundedInEveryOrder | src/engine/session.cpp:268-284 | that bound holds of every order of the values at once |
| Numerics.AddUnits | src/rpc/transaction_service.cpp:137-143 | whole units add up as integers do exactly while the sum stays from -9223372036854775808 to 9223372036854775807 |
| Books.NeutralTime | src/rpc/account_service.cpp:210-214 | the neutral time of a day falls on that day |
| Accounts.CheckNoCycle | src/rpc/account_service.cpp:20-29 | on every tree the climb ends, and accepts iff the account is not the new parent or one of its ancestors |
| Accounts.ReparentKeepsTree | src/rpc/account_service.cpp:142-157 | after a move every account still reaches the root iff the guard accepts the move |
| Accounts.AddLeafKeepsTree | src/rpc/account_service.cpp:96-108 | a new account under an existing parent leaves a tree |
| Accounts.RemoveLeafKeepsTree | src/rpc/account_service.cpp:174-181 | removing a childless account other than the root leaves a tree |
| Transactions.CollectSplits | src/rpc/transaction_service.cpp:84-91 | the table of engine splits has exactly the transaction's split GUIDs |
| Transactions.PlanEverySplit | src/rpc/transaction_service.cpp:92-144 | the planning loop ends as its specification does, the first refused split deciding |
| Transactions.PlanTransaction | src/rpc/transaction_service.cpp:50-159 | planning computes its specification, refusals in the code's order, that of an unrecognized reconcile state among them |
| Transactions.PlanningStops | src/rpc/transaction_service.cpp:99-144 | a refused split decides the whole request, whatever follows |
| Planning.PlanAccepts | src/rpc/transaction_service.cpp:50-159 | planning succeeds iff everything resolves, every reconcile state is a known one, no split is claimed twice, no prefix overflows and the exact sum is zero |
| Planning.UnbalancedVerdict | src/rpc/transaction_service.cpp:145-153 | the unbalanced refusal means iff all resolved, nothing overflowed and the exact sum is not zero |
| Planning.PlanContents | src/rpc/transaction_service.cpp:123-158 | the plan has the request's header, its own enter time unless that is zero, and each specified split in order with its account, value, quantity, memo, action and flag, 'n' if no state is asked for; claimed and doomed splits partition the engine's |
| Planning.ReorderedSplits | src/rpc/transaction_service.cpp:98-153 | reordering the splits of a request turns its verdict only to or from overflow, never from unbalanced to accepted |
| Replacement.FullReplacement | src/rpc/transaction_service.cpp:161-183 | the live splits become a permutation of the specified ones, each with all six planned fields: claimed GUIDs kept, unclaimed splits gone, new ones under fresh GUIDs, none repeated |
| Replacement.PlanApplies | src/rpc/transaction_service.cpp:155-183 | a plan made against a transaction can be applied to it, and names only existing accounts |
| Replacement.ReplacementBalances | src/rpc/transaction_service.cpp:94-97 | what is stored balances exactly, is not empty and lies on existing accounts |
| Edits.EngineSplit.SetFrom | src/rpc/transaction_service.cpp:176-181 | the six setters leave account, value, amount, memo, action and flag as planned, the amount being the quantity |
| Edits.EngineTransaction.DestroyDoomed | src/rpc/transaction_service.cpp:169 | exactly the doomed splits are queued for destruction, in any order of the table |
| Edits.EngineTransaction.ApplySplits | src/rpc/transaction_service.cpp:170-182 | claimed splits are set in place, the others appended new |
| Edits.EngineTransaction.ApplyPlan | src/rpc/transaction_service.cpp:162-183 | inside the open edit the transaction already shows the full replacement |
| Edits.EngineTransaction.CommitEdit | src/engine/map.cpp:240-247 | unlinking the doomed splits at the commit changes nothing that was shown |
| TransactionEdits.PlanAndApply | src/rpc/transaction_service.cpp:255-260 | planned and applied, or refused with the transaction as it was |
| TransactionEdits.ViewOf | src/engine/map.cpp:223-250 | the view built over the engine's objects inside the edit is the view of what the commit leaves |
| TransactionEdits.EngineTransactions.UpdateTransaction | src/rpc/transaction_service.cpp:250-263 | the handler's statements, GUID checks included, do what its specification says to all transactions at once: refused with nothing changed, or answered with the view of the one replaced |
| TransactionEdits.EngineTransactions.PostTransaction | src/rpc/transaction_service.cpp:225-238 | the same for a new transaction, which joins the others |
| TransactionEdits.EngineTransactions.DeleteTransaction | src/rpc/transaction_service.cpp:274-279 | refused with nothing changed, or the one transaction gone |
| StoredSplits.StoredAsAsked | src/rpc/transaction_service.cpp:92-183 | an accepted post or update stores the specified header and, in a bijection, each specified split with its account, value, quantity, memo, action and state, those kept first in their old order, those made behind in the order asked under new GUIDs; it changes nothing else, and the answer shows each split with the state asked for, not reconciled if none was |
| StoredSplits.ReconciledAsAsked | src/engine/map.cpp:165-174 | after it a split counts towards an account's reconciled balance iff it was asked for on that account as reconciled |
| StoredSplits.ReconciledIsCounted | src/engine/map.cpp:165-174 | the reconciled balance counts exactly the account's splits flagged 'y', each as often as it is there |
| AccountEdits.EngineAccount.SetFrom | src/rpc/account_service.cpp:148-157 | the setters leave the account with the full replacement |
| AccountEdits.EngineBook.CreateAccount | src/rpc/account_service.cpp:65-110 | refused with nothing changed, or answered with the view of the one account added |
| AccountEdits.EngineBook.UpdateAccount | src/rpc/account_service.cpp:112-162 | refused with nothing changed, or answered with the view of the one account replaced |
| AccountEdits.EngineBook.DeleteAccount | src/rpc/account_service.cpp:164-183 | refused for the root, splits or children, else the one account is gone |
| AccountEdits.EngineBook.SetReconcileInfo | src/rpc/account_service.cpp:194-221 | refused, or the stamp of the one account set and shown |
| PriceEdits.EnginePrices.AddPrice | src/rpc/commodity_service.cpp:106-155 | refused with nothing changed, or answered with the view of the one price added |
| PriceEdits.EnginePrice.SetFrom | src/rpc/commodity_service.cpp:136-147 | the setters leave commodity, currency, neutral time, value and source, "shim:api" if none is given |
| Effects.AccountStoredAsAsked | src/rpc/account_service.cpp:65-162 | an accepted creation or update stores each field of the request, keeps the stamp, changes nothing else and answers with it |
| Effects.AccountShown | src/engine/map.cpp:252-270 | an account's view shows every field but the stamp, and an unmodelled type as unspecified |
| Effects.DeletedAsAsked | src/rpc/account_service.cpp:164-183 | an accepted deletion removes the one account or transaction named and nothing else |
| Effects.StampedAsAsked | src/rpc/account_service.cpp:194-221 | an accepted stamp is the neutral instant of the day asked for, shows as that day beside the account's reconciled splits, and changes nothing else |
| Effects.NeutralInZones | src/rpc/account_service.cpp:208-214 | the neutral instant is 10:59, and falls on its day exactly in the zones from 10:59 behind to just over 13:00 ahead |
| Effects.PriceStoredAsAsked | src/rpc/commodity_service.cpp:106-155 | an accepted price is stored under a new GUID with commodity, currency, day, value and source as asked, and shown so |
| Admission.AcceptedIff | src/rpc/transaction_service.cpp:217-281 | an open book accepts each of the eight calls iff the conditions on the request and the book hold, whatever the engine assigns |
| Admission.RefusalsAreFounded | src/rpc/account_service.cpp:65-219 | the message and place of a refusal name a fault that is there, and its code is the one of that message |
| Precedence.FirstFaultDecides | src/rpc/transaction_service.cpp:50-153 | of all its faults a call is refused for the first in the order of the checks: by stage, then by split, then by field |
| Integrity.CommitKeepsIntegrity | src/rpc/account_service.cpp:65-183 | whatever any of the eight calls commits keeps one tree under the same root, every split on an account, every transaction balanced |
| Integrity.RootUnmodified | src/rpc/account_service.cpp:194-221 | a commit leaves the root account unmodified iff it does not set its reconcile stamp to another instant |
| Integrity.RootStampExample | src/rpc/account_service.cpp:202-219 | an accepted call that changes the root account |
| Recovery.CommittedIsJudgedApplied | src/journal/recovery.cpp:39-120 | against the committed book the verdict is applied, for all eight calls |
| Recovery.UncommittedIsJudgedUnapplied | src/journal/recovery.cpp:39-120 | against the book before the commit the verdict is applied iff the commit changes nothing the contract shows |
| Recovery.VerdictIsStrict | src/journal/recovery.cpp:71-83 | an applied verdict before the commit implies that the commit would store nothing new, iff the call is not a reconcile stamp whose day is there already at another time of day |
| Recovery.VerdictIsObservable | src/journal/recovery.cpp:39-120 | books that look alike through the contract get the same verdict |
| Recovery.PresenceDecides | src/journal/recovery.cpp:48-120 | on any book a deletion counts as applied iff nothing has the GUID it names, a creation iff its record is of the right type and what it names is there |
| Recovery.StampHiddenExample | src/engine/map.cpp:168-171 | a book on which the verdict is applied though the commit would change the stored stamp |
| Recovery.ObserveExecute | src/engine/map.cpp:165-174 | no call's answer or visible effect depends on what the contract does not show |
| Recovery.LookAlike | src/engine/map.cpp:165-174 | two books look alike iff they are the same but for the times of day of reconcile stamps |
| Journals.Journal.RecordIntent | src/journal/journal.cpp:140-153 | an existing intent row is left as it is |
| Journals.Journal.GetOutcome | src/journal/journal.cpp:155-166 | the recorded outcome of an id, if any |
| Journals.Journal.RecordPending | src/journal/journal.cpp:168-174 | the response is pending on the intent row |
| Journals.Journal.ClearPending | src/journal/journal.cpp:190-196 | the pending response is dropped |
| Journals.Journal.RecordOutcome | src/journal/journal.cpp:198-208 | inserted iff the id has an intent and no outcome; otherwise nothing changes |
| Journals.Journal.ListPendingUnresolved | src/journal/journal.cpp:176-188 | exactly the rows with a pending response and no outcome, each once, with their first request and response |
| Journals.Journal.ListIndeterminate | src/journal/journal.cpp:210-223 | exactly the ids with an intent and no outcome, each once |
| Protocol.StepKeepsInv | src/rpc/mutation.h:48-90 | every step keeps: at most one unresolved id, it was the last engine action, the book is on one of its two sides, commits are distinct, final replies are the recorded outcomes as the asking calls read them |
| Protocol.ResolveKeeps | src/journal/recovery.cpp:126-138 | reconciling an entry resolves it on the side of the commit that the book is on |
| Verdicts.RefusalsAreVerdicts | src/rpc/error.cpp:55-74 | on an open book every refusal of the eight handlers is a verdict on the request |
| Verdicts.ClosedVerdict | src/rpc/mutation.h:36-40 | a refusal given while no book is open is a verdict on the request iff every open book refuses the call in the same way, and that is so iff its fault is one of those found before the book is asked for |
| Verdicts.VerdictCodes | src/rpc/error.cpp:55-74 | the codes that are recorded are exactly those with which some open book refuses some call |
| Verdicts.StatusSaysWhy | src/rpc/error.cpp:32-53 | the status is UNAVAILABLE iff the call is refused only because no book is open, NOT_FOUND iff it names something missing, FAILED_PRECONDITION iff currency, emptiness or balance fail, never INTERNAL |
| Refinement.AtomicOnce | src/rpc/mutation.h:27-40 | in the atomic store an id acts at most once and its outcome is never replaced |
| Refinement.StepRefines | src/rpc/mutation.h:48-90 | each protocol step is one atomic act or changes nothing that can be observed |
| Refinement.RunRefines | src/rpc/mutation.h:48-90 | every legal run, crashes, restarts and retries included, is a run of the atomic store |
| Refinement.RunRefinesExactly | src/rpc/mutation.h:48-90 | without a hidden reconcile stamp, it is a run of the atomic store over the very books that are stored |
| FirstRequests.ActsAreOfFirst | src/journal/journal.cpp:143-144 | every act of the explaining run carries the first request of its id |
| FirstRequests.NeverReused | src/journal/journal.cpp:140-153 | an id that always comes with one request is journaled, run and acknowledged with it only |
| Guarantees.AtMostOnce | src/rpc/mutation.h:56-65 | no id's edit commits twice; an id with an outcome never reaches its handler again, whatever request it carries |
| Guarantees.ReconciliationIsExact | src/journal/recovery.h:13-21 | in every reachable state at most one id is unresolved; a true verdict means the committed state, any other the state before |
| Guarantees.IndeterminateMeansUnapplied | src/journal/journal.cpp:210-223 | once the daemon serves, an indeterminate id was never committed, and the atomic run explaining the book has no act of it |
| Guarantees.RepliesAreTrue | src/rpc/mutation.h:56-91 | the id of a final reply has exactly one atomic act in the run explaining the book; that act carries the request the id was first journaled with and gave the outcome on record; the reply is that outcome iff it is a failure or of the asking call's response type, else its bytes read as that type |
| Guarantees.AcknowledgedIsDone | src/rpc/mutation.h:56-65 | the run explaining the book has an act of the id with the very request acknowledged, giving the very reply, iff that request is the one the id was first journaled with |
| Guarantees.UnsharedIdIsDone | src/rpc/mutation.h:27-40 | if all calls under an id carry one request, every final reply to the id is what that request, done, has given |
| Guarantees.RepliesAgree | src/rpc/mutation.h:56-65 | two final replies to one id are the same iff the calls answer with the same type, or the outcome is a failure |
| Guarantees.FailuresArePure | src/rpc/mutation.h:80-87 | an id with a recorded failure was never committed, and the failure is one that some open book gives the id's first request |
| Guarantees.OutcomesArePermanent | src/journal/journal.cpp:198-208 | a recorded outcome survives any steps at all, hypotheses or not |
| Guarantees.BookStaysSound | src/rpc/account_service.cpp:65-183 | over any run with crashes a well-formed book stays well-formed under the same root |
| Guarantees.RootOverRuns | src/rpc/account_service.cpp:194-221 | over any run from a well-formed book the root account keeps everything but its stamp, which is the one last committed for it |
| Guarantees.RestartReconciles | src/main.cpp:269-283 | the steps of a restart do what the reconciliation loop does, from any journal and book |
| Guarantees.UnfitStaysOpen | src/journal/recovery.cpp:36-60 | a pending record of another type, or of an update whose entity is gone, is never resolved as done: its id ends indeterminate, on any journal and book |
| Convergence.NothingIsLost | src/rpc/mutation.h:48-90 | from every reachable state whose book passes the gate, a crash, a restart and at most one retry of a journaled id is a legal run that leaves the id with its outcome; it is committed now iff it was indeterminate and the handler accepts, and no id is committed twice |
| Convergence.SettlesIffOpens | src/main.cpp:263-283 | after a crash, some way on gives a journaled id its outcome iff it has it already or the gate lets the book through |
| Convergence.CommittedNeverSettled | src/main.cpp:263-267 | any accepted call that leaves a book which the gate refuses in every listing can be committed and never answered, with no step possible after it |
| Convergence.RetryResolves | src/rpc/mutation.h:67-90 | one retry with the first request gives an indeterminate id the outcome of its handler, committed iff accepted |
| Reopening.ClosedCall | src/rpc/mutation.h:36-40 | a call while no book is open is refused and leaves the book as it was; an outcome is recorded iff its fault is found without a book, else the journal has the intent and nothing more |
| Reopening.RetriedOnceOpen | src/rpc/mutation.h:36-40 | a call whose only fault was that no book was open, retried once one is, runs its handler, and what that gives becomes the outcome, committed iff accepted |
| Reopening.StatusTellsFinal | src/rpc/error.cpp:32-84 | over any run of a daemon whose earlier replies and records are of that kind, as those of a new one are, a reply is final iff its status is neither UNAVAILABLE nor INTERNAL |
| Reconciliation.ReconcilePendingMutations | src/journal/recovery.cpp:124-141 | the loop leaves exactly the reconciled tables and counts the ids found applied |
| Reconciliation.ResolveEntry | src/journal/recovery.cpp:127-138 | one round records a success or drops the pending response |
| Reconciliation.ReconciliationRestarts | src/journal/recovery.cpp:124-141 | stopping after any part of the loop and rerunning it reaches the same tables, with nothing left unresolved |
| Daemon.EngineThread.RunMutation | src/rpc/mutation.h:41-95 | the statements are the machine's steps in order, each leaving the durable state the machine says; the reply and status are the run's; a refusal becomes the outcome iff the book is open or every open book refuses alike |
| Daemon.EngineThread.Consult | src/rpc/mutation.h:52-65 | intent first, then an id with an outcome goes no further |
| Daemon.EngineThread.StartApply | src/rpc/mutation.h:67-87 | a refusal is recorded as the outcome iff the book is open or every open book refuses alike; an acceptance as pending |
| Daemon.EngineThread.CommitAndRecord | src/rpc/mutation.h:76-88 | commit, then outcome, each a step of the machine |
| Daemon.PrefixRuns | src/rpc/mutation.h:48-90 | dying after any number of steps is itself a run, and leaves that state of the trail |
| Daemon.AfterLookupRuns | src/rpc/mutation.h:67-90 | what follows an unanswered lookup is a run, covered by the guarantees when GUIDs are fresh |
| Daemon.MutationIsLegal | src/rpc/mutation.h:48-90 | the whole run of one mutation is covered by the guarantees when the request of an unresolved id is repeated and GUIDs are fresh |
| DroppedHypotheses.LostOutcomeAppliesTwice | src/rpc/mutation.h:88 | if the outcome record fails and the daemon lives, a retry commits again whenever its handler accepts |
| DroppedHypotheses.PostsAppliedTwice | src/rpc/transaction_service.cpp:217-240 | any accepted posting is accepted and committed again; if the two GUIDs the engine gives are new and different the book has two transactions more |
| DroppedHypotheses.PricesAppliedTwice | src/rpc/commodity_service.cpp:106-155 | an accepted price is accepted and committed again |
| DroppedHypotheses.ReusedIdMisreports | src/journal/journal.cpp:143-144 | on any book that the gate lets through, an id reused for another request can be recorded as done with nothing committed |
| DroppedHypotheses.OutsideEditHidesCommit | src/journal/recovery.h:18-20 | an outside edit between crash and restart, into any book that the gate lets through with the account's content changed, makes a committed account update end as indeterminate |
| CrossedReplies.DeletionAnsweredNotDone | src/rpc/mutation.h:56-65 | within the hypotheses: a posting's id asked for a deletion is answered with success, nothing is deleted, and the record still holds the posting |
| CrossedReplies.OtherDeletionNotDone | src/rpc/mutation.h:56-65 | within the hypotheses: of two deletions under one id both are answered with success, the second with the recorded outcome itself, and only the first is done |
| CrossedReplies.ReplayIsExact | src/rpc/mutation.h:56-65 | what a call gets under a completed id, by the types of the call and the record: the record itself, nothing for a deletion, or other content or an error that is not final; no handler runs and nothing changes |
| Startup.AddRow | src/engine/session.cpp:276-283 | each row adds to the running sum of its own currency key |
| Startup.WatchRow | src/engine/session.cpp:272-275 | the transaction reported is the first listed whose engine sum, in stored order, overflows or is not zero |
| Startup.RunStartupChecks | src/engine/session.cpp:261-299 | the gate opens iff every listed transaction's and every group's engine sum ends at zero without overflow; else it names the first transaction, or the first key in order, that fails |
| Startup.CheckSums | src/engine/session.cpp:292-298 | the key reported is the first in the order of the keys whose sum is not zero |
| Startup.GetTrialBalance | src/rpc/commodity_service.cpp:199-233 | one entry for exactly each currency listed, holding the running sum of its values |
| Startup.GroupsSumToZero | src/rpc/commodity_service.cpp:203-205 | in any complete listing of a well-formed book every group sums to exactly zero |
| Startup.SumsAreTotals | src/rpc/commodity_service.cpp:203-225 | a sum that did not overflow is the real total of the listed splits in its currency, or in the currencies that its key joins |
| Startup.GateRefusesOnlyOverflow | src/engine/session.cpp:261-299 | on a well-formed book the gate opens iff no partial sum, of a transaction as stored or of a group as listed, leaves 64 bits |
| Startup.BoundedBookPasses | src/engine/session.cpp:261-299 | a bounded book passes the gate in every listing order |
| Startup.OpensIffFits | src/engine/session.cpp:261-299 | a well-formed book opens iff in some complete listing no partial sum, of a transaction as stored or of a group as listed, leaves 64 bits |
| Convergence.RestartPasses | src/main.cpp:263-267 | wherever a legal run from a well-formed book died, the next start passes the gate, in every listing order, if the book it left is bounded |
| RestartFailure.RestartCanFail | src/engine/session.cpp:282-298 | one accepted posting leaves a book that a listing order makes the gate refuse |
| RestartFailure.RestartMustFail | src/engine/session.cpp:272-291 | one accepted update of it leaves a book that the gate refuses in every listing order |
| LockedOut.UpdateNeverSettled | src/main.cpp:263-267 | a legal run from an empty book after which an update is committed, has no outcome, and no step is possible any more |
| Pagination.QuerySplits | src/rpc/transaction_service.cpp:326-411 | the cursor loop returns the page behind the token's split, each split with its own transaction's context and within the inclusive range of values, or refuses a token that matches nothing |
| Pagination.InBoundsIffWithin | src/rpc/transaction_service.cpp:374-381 | a value is kept iff it lies in the range, both ends included, by cross-multiplied integers |
| Pagination.ShownIsStored | src/rpc/transaction_service.cpp:388-403 | what is shown of a split is what is stored, field by field, with its own transaction's date, description and currency |
| Pagination.StartIsBehindToken | src/rpc/transaction_service.cpp:361-373 | paging starts behind the first split that the token names |
| PagedWalk.TokenMeansMore | src/rpc/transaction_service.cpp:326-387 | a token is given iff a further match is not on the page; then the page is full, with 100 splits or the number asked for up to 500, and the token is its last split |
| PagedWalk.WalkEnumerates | src/rpc/transaction_service.cpp:326-411 | over an unchanged list, for any page size, there is a walk to the end, each of its tokens accepted, and its pages are exactly the matches in order |
| PagedWalk.EveryWalkEnumerates | src/rpc/transaction_service.cpp:326-411 | over an unchanged list the pages of every walk to the end, of whatever length, are exactly the matches in order |
| PagedWalk.WalkShowsRange | src/rpc/transaction_service.cpp:355-411 | over an unchanged list a walk shows exactly the splits whose value lies in the range, both ends included, each once in list order |
| PagedWalk.OneWalk | src/rpc/transaction_service.cpp:357-404 | the same lists and first token give only one walk |
| PagedWalk.NothingTwice | src/rpc/transaction_service.cpp:357-404 | while lists change, a split is shown on two pages only if it was gone from a list between; ShownAgainExactly says when it then is |
| PagedWalk.ShownAgainExactly | src/rpc/transaction_service.cpp:357-404 | a split matching from some page on is shown on that page or later iff it lies behind the split named by that page's token |
| PagedWalk.OrderedNothingTwice | src/rpc/transaction_service.cpp:355-404 | lists sorted by one common order show no split twice, even one that leaves and returns |
| PagedWalk.NothingTwiceOnAPage | src/rpc/transaction_service.cpp:388-403 | a page shows no split twice |
| PagedWalk.ShownExactlyOnce | src/rpc/transaction_service.cpp:357-404 | a split matching throughout the walk is shown on exactly one page |
| PagedWalk.ComebackIsShownTwice | src/rpc/transaction_service.cpp:357-404 | a split that leaves and returns can be shown twice though survivors keep their order |
| Worker.StepKeepsInv | src/engine/worker.cpp:10-47 | every step of any thread keeps mutual exclusion, the queue bound, acceptance order, results and pending wake-ups |
| Worker.ReachableIsSound | src/engine/worker.cpp:10-47 | so does every interleaving from a new worker on |
| WorkerGuarantees.TasksRunOnceInOrder | src/engine/worker.cpp:35-47 | the queue never exceeds its bound; tasks finish once each, in acceptance order, one at a time |
| WorkerGuarantees.EachCallGetsItsOwn | src/engine/worker.h:40-47 | a call returns what its own task gave behind the tasks accepted before it; one that throws was never accepted |
| WorkerAdmission.RefusedExactly | src/engine/worker.cpp:10-18 | in every interleaving a call past its checks made them while holding the lock: it throws WorkerStopped iff stopping was set then, QueueFull iff not and the queue was full, and is accepted iff there was room |
| WorkerAdmission.DecidesSoon | src/engine/worker.cpp:10-18 | a call that holds the lock is decided after at most three steps of its own |
| WorkerGuarantees.NothingAcceptedAfterStop | src/engine/worker.cpp:13 | once stopping is set nothing is accepted, whatever happens |
| WorkerGuarantees.DrainedMeansDone | src/engine/worker.cpp:25-33 | when Drain has returned the loop is gone, every accepted task has run, and nothing runs any more |
| WorkerAdmission.DrainReturnsDone | src/engine/worker.cpp:25-33 | a Drain call that returns, on either path, leaves stopping set, the loop gone and every accepted task run |
| WorkerGuarantees.MovesUntilSettled | src/engine/worker.cpp:17-40 | no lost wake-up, no deadlock: some thread can move until every call is answered and the loop waits or is gone |
| WorkerGuarantees.OwnStepUsesUp | src/engine/worker.cpp:10-47 | every own step decreases a measure that only new calls, Drain calls and spurious wake-ups raise |
| WorkerGuarantees.OwnStepsAreBounded | src/engine/worker.cpp:10-47 | so any run has a bounded number of own steps |
| WorkerGuarantees.SettlesLeftAlone | src/engine/worker.cpp:25-47 | under any scheduling the worker settles; once stopping, with the queue empty, the loop gone and every accepted call answered |
| Stamps.NewestCount | src/util/backup.cpp:90-94 | pruning leaves min(keep, count) stamps, the latest among them unless keep is zero |
| Stamps.StampsSortByDay | src/util/backup.cpp:18-32 | stamps sort as their days do, are recognized, and the name of an unfinished snapshot is not |
| TextOrder.InsertKeepsOrder | src/util/backup.cpp:90 | sorting keeps the names and orders them |
| Backup.CopiesAreExact | src/util/backup.cpp:39-48 | a copy with sidecars holds just the live parts whose existence test worked, each with its live content |
| Backup.PublishedIsComplete | src/util/backup.cpp:39-79 | the published directory holds every live part of book and journal iff each was found to exist or an earlier attempt has left a copy with its live content, unless two parts share a file name |
| Backup.CleanStartIsComplete | src/util/backup.cpp:39-79 | with no remains of an earlier attempt, iff no existence test of a live part failed |
| Backup.PublishedFiles | src/util/backup.cpp:39-48 | with every test working, what is published are just the book, the journal and their -wal, -shm and -journal files that exist, under their names and with their content |
| Backup.Disk.CopyWithSidecars | src/util/backup.cpp:39-48 | all parts found to exist are copied, or the reason they are not is a failure, a stop or a name already taken |
| Backup.Disk.Assemble | src/util/backup.cpp:61-79 | wherever it stops, today's directory appears iff every copy and the rename went through, and then holds every part found to exist and exactly what could not be removed before; one already there is replaced only if it is empty |
| Backup.Disk.ListStamps | src/util/backup.cpp:83-90 | dated directories in order, all of them if nothing failed; none if the directory cannot be opened; an exception iff it was, and the listing comes to an entry it cannot read on from before anything stops it |
| Backup.Disk.Prune | src/util/backup.cpp:81-94 | only directories older than the newest keep_days are touched; it throws iff the listing does, and then nothing is touched; if no step fails exactly the newest remain |
| Backup.Disk.SnapshotBeforeOpen | src/util/backup.cpp:52-96 | skipped iff today's snapshot exists and is found to; a non-empty one is never touched; else today's directory is absent, holds every part found to exist with exactly what could not be removed before, or was itself pruned; nothing else is touched |
| Backup.Retention | src/util/backup.cpp:81-94 | min(keep_days, count) stamps are kept, all of them for a negative keep_days, today's among them iff fewer than keep_days later-dated ones exist |

## Left out

- libgnucash, GLib and SQLite: the book is maps of entities with an atomic commit, the journal two maps with durable statements; an operation on them that fails while the process lives is excluded by the first two hypotheses, but for the outcome record.
- Engine arithmetic is exact over the least common denominator or an error, and an error stays one; how the engine represents intermediate results is not modelled.
- GUIDs are numbers: their canonical text, and a well-formed text in another notation, are one constructor; mutation ids are opaque, so the UUID shape check is not part of this model.
- Dates are days: which year, month and day make a calendar date is one constructor. The neutral instant is 10:59 on that day everywhere; how the engine moves it in zones where that would be another day is not part of this model.
- Error messages are one constructor each, without the values embedded in the text.
- Protobuf encoding: parsing is taken to undo serializing. A recorded response asked for as another type either fails to parse or gives other content of that type; any bytes parse as the empty message, and no bytes as any. A record that is corrupt in itself is not part of this model.
- A pending response of another call's type, which only breaking the third hypothesis leaves behind, is taken not to fit its call; deletions are judged without it, as in the code.
- Timestamps of the journal: its lists come in any order, so what is proved holds for the order of journaling too. SHA-256, logging and the named crash points add nothing to the state.
- Read-only mode, trading and template accounts, and null strings of the engine.
- Daemon.EngineThread.RunMutation: takes the verdict that the handler's call yields as a parameter; that the handler's own statements yield it is proved apart, in `AccountEdits` and `TransactionEdits`, where the edit between begin and commit is visible and record_pending is not.
- The engine's imbalance value is taken to be the same running sum as the gate's, over the splits in their stored order. Keys of two currencies that join to the same text are one group, as in the code.
- DroppedHypotheses.PricesAppliedTwice: states two commits; that the price database may replace a price of the same day, so that only one price remains, is left out, and AddPrice's two engine calls are taken as one commit.
- An edit left open by a record_pending that throws while the process lives.
- EngineWorker is a state machine of interleaved steps rather than a class, since no thread runs a method alone; `queue_depth` and a second concurrent Drain are left out.
- The engine's result list is taken as given, with distinct GUIDs; the query predicates behind it are left out.
- GetBalance, GetPrices, price conversion, ListAccounts and the other reads.
- Session Open and Close beyond an open flag, the engine lock and its stale check, PID files and flock.
- Option parsing, signal handling, URI redaction and gRPC transport; of the startup only the order: gate, reconciliation, serving.
