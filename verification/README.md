# Verified model of the publishing server

The repository publishes notes to a social platform, and reads them back, through one browser session per
account. This project models the parts where a mistake cannot be undone: an account that opens too many
sessions, a post that goes out twice, an edit that deletes the wrong image or submits a half-edited note, a
migration that loses history, a paged read that silently stops early. Each model follows the Python code
branch by branch; what the page, the database or the clock may do is a parameter, and the theorems hold for
every value of it. A method is proved against a specification function, and what that function means is stated
once more by lemmas that do not name it: in terms of rows, answers, characters and constants.

**Publishing and dispatch.** `PublishLedger` holds the two job tables and the guarded statements on them.
`Protocol` is the whole system as a transition relation: one supervisor with its rotation list, process table
and dispatch passes, any number of account children that can die between any two statements, clients that
submit and cancel jobs, and the clock. Two requests write without looking again at the row they read (the
cancel endpoint and the recovery of browser jobs); in the relation their reading and their writing are two
actions, and anything may happen in between. `Run` is the state after any sequence of actions, `Reached` says that a state is one
of those. `ProtocolSafety`, `ClaimLedger`,
`BrowserLedger`, `PublishSpacing`, `SessionWindow` and `FairDispatch` prove what holds in every run, `CapEscapes`
that the hourly cap cannot be had under weaker conditions. `AccountWorker` and
`Dispatcher` are the same code as objects whose fields are updated in place; `JobIsProtocolRun` and
`PassIsProtocolRun` (in `DispatchRun`) show that an undisturbed call of the object is a run of the relation.

**Style-profile migration.** `StyleMigration` has the tables, the statements and the loop as functions,
`StyleMigrationRun` the loop as a method that records the tables after every statement, and the other three
modules the proofs.

**Editing a published note.** `TopicText` and `TopicPlan` (topic chips and what to append), `ImageRemoval`
(deletion on a page that renumbers itself), `QuoteCard` (which card belongs to the note to be quoted),
`EditorFlow` (the run that may submit once), `Verdict` (how the read-back becomes a status).

**Paged reading and addresses.** `AudienceDrain` (notification stream), `CreatorList` (own notes), `MediaUrl`
(permanent media addresses). `Collections`, `Dedup` and `Text` hold what several models share.

## What is true and what is not

Some promises hold only under a condition. The model keeps the code as it is, and the exact condition is a
theorem:

- *Hourly cap.* The supervisor counts table rows. A session whose row was reset (a failed or requeued publish,
  a recovered job) or canceled, or that began between the count of a pass and its spawn, is not in the count.
  The bound is the wider cap plus those sessions (`HourlySessionsAreBounded`), and runs without them keep the cap
  (`HourlyCapHolds`). Conversely, for all positive caps, from every reachable idle state whose tables show fewer
  sessions than began in the last hour, the same hour can come to hold more than the wider cap
  (`UndercountBreaksTheCap`). A crash, a late cancel and a failed publish each lead to such a state under every
  configuration. The comment in `app/worker.py:579-581` names only failed publishes; stale recovery of browser
  jobs returns idempotent kinds to the queue after 900 seconds (`app/services/browser_jobs_repo.py:144-195`).
- *Canceled jobs.* The endpoint reads that a job is pending and later writes `canceled` without a guard
  (`app/http/publish_rest.py:769-781`). While a job is executed its row is `publishing` if and only if no such
  write came after the claim (`SingleExecutor`), and a terminal row stays as it is if and only if none comes
  later (`TerminalForever`). `LateCancelEscapes` shows that this happens: a row `canceled` while its post goes out.
  Spacing and daily cap are about rows that are `published`, so a post whose row was canceled is not among them.
- *New version number.* `(maxv or cur_version) + 1` reads a maximum of zero as no maximum, so the new number
  exceeds the history if and only if the maximum is not zero or the current number is not negative.
- *Second migration run.* It changes nothing if and only if no set of a container is a container itself.
- *Image deletion.* With deletions that land in the wait, before the next try, or not at all, a `done` is exact
  if and only if no two deletions in a row came late among the answers that were used.
- *Replanning topics.* It adds nothing if and only if no requested name still begins with `#` after normalisation
  (`# #x` becomes `#x`), or the note is full and stays so when its topics are read as names again.
- *Quoted card.* For an untitled note a card is returned if and only if every unrendered note is identified,
  and then it is right; for a titled note a returned card is right if and only if the note is rendered.
- *Own notes.* The list is complete if and only if the newest of the first batches was not an empty page
  behind the end.
- *Media addresses.* The normal form of a video is a normal form if and only if host and path, and not only
  the query, name the delivery network.

## Model

| member | source | states |
|---|---|---|
| ProtocolSafety.SingleExecutor | app/account_worker.py:165-254 | in every run, whatever crashes, a publish job has at most one child executing it; meanwhile its row is `publishing` exactly if no cancel request wrote after the claim, and `canceled` otherwise |
| ProtocolSafety.ReachableTables | app/worker.py:544-557 | in every run there are at most `max_procs` children, `started_at` is set exactly on `publishing` and `published` rows and on none but late-canceled ones besides, and retries never pass the number of delays |
| ProtocolSafety.TerminalForever | app/account_worker.py:177-254 | once terminal, a row never changes again, even when the steps after publishing raise and the closing branch runs, exactly unless a cancel request writes only then, which changes nothing but the status |
| ProtocolSafety.RowChangesOnlyByOwner | app/worker.py:428-453 | a row changes only by its own account's child, by stale recovery while that account has no live child, or by the write of a cancel request |
| ProtocolSafety.ChildrenChangeOnlyThemselves | app/worker.py:703-797 | an account gets a child only from the turn that dispatches it, and no other process changes that child |
| ProtocolSafety.RecoveryNeedsTimeout | app/worker.py:428-453 | stale recovery resets exactly the rows that are `publishing`, were claimed at least the timeout ago, and whose account has no live child |
| BrowserLedger.NoSecondStart | app/services/browser_jobs_repo.py:144-195 | in every run, whatever crashes and is recovered, a browser job of a kind that must not be repeated is started at most once |
| BrowserLedger.BrowserRowMoves | app/services/browser_jobs_repo.py:144-285 | a browser row changes its status only by its claim, by the end reported under the number it was claimed with, or by a reset, back to the queue exactly if its kind may be repeated |
| BrowserLedger.ResetNeedsAStoppedHeart | app/services/browser_jobs_repo.py:144-195 | a reset begins only for a running job without a sign of life for more than 900 seconds |
| ClaimLedger.ClaimsAreConserved | app/account_worker.py:165-254 | claims of a job = retries + hanging requeues + stale recoveries + 1 if published or failed + 1 if publishing + 1 if canceled after its claim, in every run |
| PublishSpacing.PublishedPostsAreSpaced | app/account_worker.py:113-162 | any two `published` rows of an account started at least the minimum interval apart, despite retries that clear `started_at` |
| PublishSpacing.DailyCapHolds | app/account_worker.py:113-162 | no UTC day ever holds more published posts of an account than the daily cap |
| PublishSpacing.ClaimLeavesRoom | app/account_worker.py:308-324 | a claim after an open gate leaves room under the cap on the day of the claim, also when midnight passed in between |
| SessionWindow.HourlySessionsAreBounded | app/worker.py:565-677 | with both caps on, every one-hour window of every run holds at most the wider cap plus the sessions that escaped the count |
| SessionWindow.HourlyCapHolds | app/worker.py:565-677 | a run in which no session escapes the count keeps the wider cap in every one-hour window |
| SessionWindow.CountCoversSessions | app/services/queue_status.py:81-107 | every counted session of the last hour has its own row among those the supervisor counts |
| PublishLedger.CountedRows | app/services/queue_status.py:81-107 | counted are exactly the rows in flight, the posts published within the hour, and the browser jobs that ended within it |
| CapEscapes.UndercountBreaksTheCap | app/worker.py:565-677 | for all positive caps, every reachable idle state that shows fewer sessions than began in the last hour leads on to more sessions in that hour than the wider cap |
| CapEscapes.CrashEscapesTheCap | app/services/browser_jobs_repo.py:144-195 | for all positive caps, a crash, a missed heartbeat of 900 seconds and a reset lead to more sessions in one hour than the wider cap |
| CapEscapes.LateCancelEscapes | app/http/publish_rest.py:769-781 | for all positive caps, a cancel that was read before the claim and written after it leaves an executing job `canceled` and its session uncounted |
| CapEscapes.FailedPublishEscapes | app/worker.py:579-581 | for all positive caps, a failed publish leads to more sessions in one hour than the wider cap |
| FairDispatch.OvertakingIsBounded | app/worker.py:503-561 | while an account has work in every pass and meets at its own turns only a full process table, the set in front of it only shrinks and every other account is dispatched at most once, only from in front of it; this counts from any state, also within a pass |
| FairDispatch.WaitingContinues | app/worker.py:542-561 | a step, also a turn that meets a full table, takes exactly the dispatched accounts of a finished pass out of the front of a waiting account, and nothing else |
| FairDispatch.DispatchedIsAhead | app/worker.py:542-561 | an account dispatched while another waits stood in front of it and had not been dispatched in this pass |
| FairDispatch.AddMissingMeaning | app/worker.py:503-509 | exactly the accounts missing in the rotation join it, each once, by rising number and behind all others |
| PublishLedger.Caps.KeptWithinCap | app/worker.py:610-677 | what a batch starts, on top of the sessions already spent, stays within the wider cap |
| PublishLedger.Caps.KeptWithinOwnCap | app/worker.py:634-649 | every item that starts is within the cap of its own layer, counted with the sessions before it |
| PublishLedger.Caps.KeptOneMore | app/services/queue_status.py:113-129 | whether the next item starts depends on its own layer alone: that cap is off, or not yet used up by the sessions and the items before it |
| PublishLedger.GateMeaning | app/account_worker.py:113-162 | the gate is open if and only if every other started row of the account is old enough and fewer than the cap were published since the last UTC midnight |
| AccountWorker.Worker.ReadHistory | app/account_worker.py:122-142 | finds the newest start among the account's other started rows, or none, and the number published since midnight |
| AccountWorker.Worker.PublishGate | app/account_worker.py:113-162 | opens exactly when every other started row is old enough and the day has room; otherwise only postpones the row |
| AccountWorker.Worker.ClaimPublish | app/account_worker.py:165-174 | succeeds exactly on a pending row, which then is `publishing` from that moment |
| AccountWorker.Worker.ApplyDecision | app/account_worker.py:177-231 | a verdict lands only on a `publishing` row, and an error after it does not take it back |
| AccountWorker.Worker.RequeueIfHanging | app/account_worker.py:234-254 | puts back a row that is still `publishing`, and leaves every other row alone |
| AccountWorker.Worker.RunPublishJob | app/account_worker.py:308-358 | of all writes of one call the first that lands decides alone; later fallbacks do nothing |
| AccountWorker.OnlyTheJobChanges | app/account_worker.py:308-358 | a call changes no other row, and no row that was not pending |
| AccountWorker.JobEndings | app/account_worker.py:308-358 | the exact case of each ending: published iff the success was written; failed iff an answer was written that was no success and manual login, a restricted account or used-up retries stand against another try, or the fallback found the retries used up; one retry more iff neither; left `publishing` iff no write landed |
| AccountWorker.ClaimsMeaning | app/account_worker.py:308-324 | a call claims its job if and only if nothing raised before, the gate is open and the row is pending; otherwise it at most postpones it |
| AccountWorker.ClaimedEndings | app/publish/policy.py:29-90 | when a claimed job fails and when it is tried again, and which of the three writes sets its next due time |
| AccountWorker.JobIsProtocolRun | app/account_worker.py:308-358 | an undisturbed call is a run of the transition relation with the same table |
| Dispatcher.Supervisor.RecoverStalePublish | app/worker.py:428-453 | resets exactly the stale `publishing` rows of accounts without a live child, and returns how many rows changed |
| Dispatcher.Supervisor.FairOrder | app/worker.py:503-509 | new accounts enter at the tail by number, and the order is the rotation restricted to accounts with work, without repetition |
| Dispatcher.Supervisor.ApplySessionCap | app/worker.py:610-677 | the two-budget loop keeps what the caps allow, each item within the cap of its own layer, and each layer remembers the account exactly if it held something back |
| Dispatcher.Supervisor.Start | app/worker.py:548-557 | an idle account gets a process exactly if the cap leaves something of its batch and the process can be created |
| Dispatcher.Supervisor.TryDispatch | app/worker.py:543-557 | busy, full, held back or dispatched, in this order of precedence, and only a created process is registered |
| Dispatcher.Supervisor.HandleAll | app/worker.py:542-557 | the accounts dispatched are those of `Dispatch`, exactly the created processes are added to the table, and both layers' memories follow |
| Dispatcher.Supervisor.MoveDispatched | app/worker.py:558-561 | dispatched accounts leave their places and stand at the tail in order of dispatch |
| Dispatcher.Supervisor.DispatchAccounts | app/worker.py:511-561 | one whole pass: order, dispatched accounts, rotation, process table and both layers' memories |
| Dispatcher.CapSplitsBatch | app/worker.py:634-649 | every item of a batch is let through or held back, none twice and none lost |
| Dispatcher.KeptIsPrefixOfLayer | app/worker.py:634-649 | within a layer the oldest items go first: what is kept is a prefix of the layer |
| Dispatcher.HeldMeaning | app/worker.py:634-649 | an item is held back if and only if the cap of its own layer is on and used up by the sessions and the items before it |
| Dispatcher.HeldInIsRest | app/worker.py:634-677 | what a layer holds back are its items of the batch without those that start |
| Dispatcher.ExhaustedLayerKeepsNothing | app/services/queue_status.py:118-129 | a layer that refuses one item refuses all later items of that layer |
| Dispatcher.DispatchStopsWhenFull | app/worker.py:542-557 | exactly the idle accounts with work in front of the first idle one that meets a full table are dispatched, and the table stays within its limit |
| Dispatcher.RoomUntilStop | app/worker.py:542-557 | every idle account looked at before the stop found room in the process table |
| Dispatcher.ChosenFromBatch | app/worker.py:544-557 | a child gets at most one batch, from the front of its account's queue |
| Dispatcher.WatchedMeaning | app/worker.py:650-677 | after a pass each layer remembers exactly those of the accounts looked at whose batch it held back, and is unchanged for the others |
| Dispatcher.MovingOneMore | app/worker.py:558-561 | removing an account and appending it is the next step of moving all dispatched accounts |
| DispatchRun.TodoIsChildOrder | app/worker.py:554-556 | publish jobs by ascending number and then browser jobs in batch order is a rearrangement of the batch that a child may be given |
| DispatchRun.PassIsProtocolRun | app/worker.py:511-561 | an undisturbed pass is a run of the transition relation with the same dispatched accounts, rotation and processes |
| StyleMigrationRun.Migration.MigrateData | alembic/versions/f4a2c8e1b9d7_style_profiles_多套_每套独立版本链.py:47-206 | the loop ends in the tables of `Migrate`, moving by single statements, and the constraints hold after each of them |
| StyleMigrationRun.Migration.SplitContainer | alembic/versions/f4a2c8e1b9d7_style_profiles_多套_每套独立版本链.py:77-206 | rewriting the row first, inserting the other sets, then hanging the history never breaks a constraint on the way |
| StyleMigrationRun.Migration.SplitOff | alembic/versions/f4a2c8e1b9d7_style_profiles_多套_每套独立版本链.py:117-175 | inserting one set and its first version keeps the constraints, also between the two inserts |
| StyleMigrationMeaning.MigrationOutcome | alembic/versions/f4a2c8e1b9d7_style_profiles_多套_每套独立版本链.py:47-206 | from one row per owner the constraints hold at the end, every owner's rows are the split or the untouched row, and orphaned history stays as it was |
| StyleMigrationMeaning.NotNullStepSucceeds | alembic/versions/f4a2c8e1b9d7_style_profiles_多套_每套独立版本链.py:256-258 | after the migration every version row has a set if and only if every history row had an owner with a profile row |
| StyleMigrationMeaning.RowOutcome | alembic/versions/f4a2c8e1b9d7_style_profiles_多套_每套独立版本链.py:55-206 | one fetched row: constraints kept, outcome as promised, rows of other owners untouched |
| StyleMigrationSafety.BackfillKeeps | alembic/versions/f4a2c8e1b9d7_style_profiles_多套_每套独立版本链.py:236-252 | moving an operator's history into an empty set keeps (set, version) unique because the old constraint kept (operator, version) unique |
| StyleMigrationSafety.SplitHolds | alembic/versions/f4a2c8e1b9d7_style_profiles_多套_每套独立版本链.py:117-175 | after any number of split-off sets the new rows are exactly those sets, each with one first version, and no name was taken |
| StyleMigrationSafety.SplitBesideOthers | alembic/versions/f4a2c8e1b9d7_style_profiles_多套_每套独立版本链.py:117-175 | whatever other sets the owner already has, splitting keeps the constraints and every existing row, and leaves a set of every name |
| StyleMigrationResults.EachSetHasOneRow | alembic/versions/f4a2c8e1b9d7_style_profiles_多套_每套独立版本链.py:77-175 | every set of a container, and every plain profile, has exactly one row with its name and content |
| StyleMigrationResults.EachRowIsASet | alembic/versions/f4a2c8e1b9d7_style_profiles_多套_每套独立版本链.py:77-175 | every row of an owner is one of the owner's sets, and exactly one of them is active |
| StyleMigrationResults.ChosenSetIsActive | alembic/versions/f4a2c8e1b9d7_style_profiles_多套_每套独立版本链.py:77-121 | the row in place becomes the set that the container chose, with that set's content, and the first set if the choice is missing or names none |
| StyleMigrationResults.PlainRowStays | alembic/versions/f4a2c8e1b9d7_style_profiles_多套_每套独立版本链.py:55-75 | any other document leaves its row as it was, and no row is added for its owner |
| StyleMigrationResults.KindIsStated | alembic/versions/f4a2c8e1b9d7_style_profiles_多套_每套独立版本链.py:83-87 | every row of a container's owner has the kind that its set states itself, or else `carousel`; split-off sets have version 1 |
| StyleMigrationResults.HistoryIsKept | alembic/versions/f4a2c8e1b9d7_style_profiles_多套_每套独立版本链.py:63-72 | no history row is lost, renumbered or changed, and an owned one belongs to the set that took over the owner's row |
| StyleMigrationResults.HistoryIsMarked | alembic/versions/f4a2c8e1b9d7_style_profiles_多套_每套独立版本链.py:176-186 | an owned history row gets the prefix on its note if and only if its owner's row was a container |
| StyleMigrationResults.NewNumberExceedsHistory | alembic/versions/f4a2c8e1b9d7_style_profiles_多套_每套独立版本链.py:91-101 | the new number exceeds the whole history if and only if there is none, its maximum is not zero, or the current number is not negative |
| StyleMigrationResults.CarrierIsSnapshotted | alembic/versions/f4a2c8e1b9d7_style_profiles_多套_每套独立版本链.py:176-206 | the carrier's new number is stored for its set, with the active content whenever the number exceeds the history |
| StyleMigrationResults.ZeroHistoryLosesTheSnapshot | alembic/versions/f4a2c8e1b9d7_style_profiles_多套_每套独立版本链.py:91-101 | a concrete table in which the new number repeats an old one and the snapshot is not stored |
| StyleMigrationResults.SecondRunChangesNothing | alembic/versions/f4a2c8e1b9d7_style_profiles_多套_每套独立版本链.py:102-104 | running the migration again changes nothing if and only if no set of a container is itself a container |
| TopicText.NormKeepsTopics | app/browser/note_editing.py:101-126 | for every body the list of topics is the same before and after normalisation |
| TopicText.NormDeletesOnlySpace | app/browser/note_editing.py:112-126 | normalisation deletes white space and nothing else, so the body never gets longer |
| TopicText.NormTwice | app/browser/note_editing.py:112-126 | normalising twice is normalising once |
| TopicText.NormalExactlyWithoutSeparators | app/browser/note_editing.py:51-58 | a body is left alone if and only if it has no gap between two whole chips |
| TopicText.WrittenIsReadBack | app/browser/note_editing.py:49-109 | names written as chips, with any plain text before, between and behind them, are read back as they are, in order |
| TopicText.WrittenCloseUp | app/browser/note_editing.py:51-126 | normalising written chips drops exactly the texts between two chips that are white space, and never the last one |
| TopicText.ExtractedNames | app/browser/note_editing.py:49-109 | an extracted topic is a stripped, non-blank name without any delimiter |
| TopicText.StripParts | app/browser/note_editing.py:109 | what is stripped is white space at both ends, and none is left there |
| TopicPlan.NormalizeTopicNames | app/browser/note_editing.py:681-694 | the loop with its set of seen names returns each non-blank name at its first occurrence |
| TopicPlan.NormalNamesMeaning | app/browser/note_editing.py:681-694 | exactly the non-blank names of the topics, none twice |
| TopicPlan.NormalNamesGrow | app/browser/note_editing.py:681-694 | further topics never move or replace earlier names |
| TopicPlan.NameOfName | app/browser/note_editing.py:681-694 | a name is its own normal form if and only if it does not begin with a hash |
| TopicPlan.NameWithin | app/browser/note_editing.py:681-694 | a topic is hashes, white space, its name and white space, in this order, each as long as it can be |
| TopicPlan.HashedNameIsNotFixed | app/browser/note_editing.py:681-694 | a concrete name that needs two rounds |
| TopicPlan.PlanSplitsRequest | app/browser/note_editing.py:697-727 | every requested name is already there, to be added or cut off, exactly one of the three, in request order |
| TopicPlan.PlanRespectsCap | app/browser/note_editing.py:697-727 | no topic is hung twice, the cap is passed only if it already was, and names are cut off only when it is reached |
| TopicPlan.ReplanAddsNothing | app/browser/note_editing.py:697-727 | for names without hashes a second plan on the edited note adds nothing |
| TopicPlan.ReplanAddsNothingIff | app/browser/note_editing.py:697-727 | a second plan adds nothing if and only if no requested name begins with a hash, or the note was full before, or it is now and no two of its topics share a name |
| TopicPlan.ExtractedTopicsAreNames | app/browser/note_components.py:3221 | topics read from a body are normal names, so the conditions on existing topics always hold |
| ImageRemoval.DescendingMeaning | app/browser/note_editing.py:61-73 | the plan has each requested position once, largest first |
| ImageRemoval.RemovalIsSetDifference | app/browser/note_editing_images.py:222-318 | if clicks work in time or not at all, `done` leaves exactly the unrequested images in order, and an error leaves exactly the largest `removed` requested ones deleted |
| ImageRemoval.DoneIsExactIff | app/browser/note_editing_images.py:277-318 | whatever the page answers, with late deletions landing before the next try, `done` is exact if and only if no two deletions in a row came late |
| ImageRemoval.LateClicksDeleteTwice | app/browser/note_editing_images.py:440-451 | a concrete page on which two slow clicks are reported as done and cost two images |
| ImageRemoval.InTimeFinishes | app/browser/note_editing_images.py:222-274 | if every click works in time, every list of existing positions is deleted |
| ImageRemoval.EditorPage.CountImages | app/browser/note_editing_images.py:91-126 | a count is given only if the containers carry the labels 1..n in order and there is at least one |
| ImageRemoval.EditorPage.PickCard | app/browser/note_editing_images.py:425-437 | finds the container with a label exactly if it is the only one |
| ImageRemoval.EditorPage.RemoveOne | app/browser/note_editing_images.py:277-318 | up to three located clicks at one label, ending at the expected count, a dialog or a lost card |
| ImageRemoval.TriesExactly | app/browser/note_editing_images.py:277-318 | click by click: which answers are used for one image, why the tries end where they end, that `done` means the expected count was seen, and which images are gone |
| ImageRemoval.EditorPage.RemoveImages | app/browser/note_editing_images.py:222-274 | an uncountable page is not touched; otherwise page and report are those of the specified loop |
| QuoteCard.MergeCandidateNotes | app/browser/note_components.py:1445-1460 | the candidates are the new pages in order, each note once, at its first occurrence |
| QuoteCard.CandidateIsUnique | app/browser/note_components.py:2102-2107 | a note is found exactly if a new page lists it, and then at its only place |
| QuoteCard.UntitledChoiceIsRight | app/browser/note_components.py:1720-1758 | a card is returned exactly if every unrendered note is identified by its title, and it is the target's card |
| QuoteCard.TitledChoiceIsRightIffRendered | app/browser/note_components.py:2130-2151 | a returned card is the target's if and only if the target is rendered, and a rendered target is returned exactly if no other card shows its title |
| QuoteCard.UnrenderedTitleMisleads | app/browser/note_components.py:2141-2151 | a concrete dialog in which an unrendered note is mistaken for another |
| EditorFlow.OutcomeShape | app/browser/note_components.py:2830-2874 | the outcomes are a run of successes, then one failure, then steps that were never carried out |
| EditorFlow.OutcomesFit | app/browser/note_components.py:2837-2874 | a step is reported as refused exactly if it is about images and the gate is shut, and a step that was carried out with the status that the page gave it, an exception being an error |
| EditorFlow.DecisionIsChange | app/browser/note_components.py:3246-3285 | the two refusals to submit leave exactly the runs in which something changed |
| EditorFlow.Session.RunEditSteps | app/browser/note_components.py:2792-2882 | the loop carries out exactly the steps up to the first failure, with the image gate judged once before |
| EditorFlow.Session.ApplyComponents | app/browser/note_components.py:2591-2646 | every requested component is tried on its own, only the hard error stops the run, and nothing is clicked for submission |
| EditorFlow.Session.Submit | app/browser/note_components.py:3287-3300 | the click happens exactly if the permission reads the same as at the start and the button is certain |
| EditorFlow.Session.SetNoteComponents | app/browser/note_components.py:3122-3300 | the log and the result are exactly `RunEvents` and `RunResult`, whose meaning the following rows state |
| EditorFlow.SubmitsExactly | app/browser/note_components.py:3122-3300 | the note is submitted if and only if page, both readings of the permission and the button are there, every requested edit was done on the declared image count, no hard error came, and something was changed |
| EditorFlow.ClicksAtMostOnce | app/browser/note_components.py:3287-3300 | the log holds the click exactly if the note is submitted, once, at its end, right after the second reading of the permission |
| EditorFlow.EditsExactly | app/browser/note_components.py:2806-2882 | an edit is in the log if and only if it is requested, every requested edit before it was done, and the images count as declared if it or one of those is about images |
| EditorFlow.WrongCountTouchesNothing | app/browser/note_components.py:2769-2840 | without a declared count that matches both counts of the page, no image step is in the log, and no click |
| EditorFlow.RightCountStarts | app/browser/note_components.py:2769-2840 | with matching counts the first requested image step is in the log |
| EditorFlow.ComponentsExactly | app/browser/note_components.py:2591-2646 | a component is in the log if and only if it is requested, all edits were done, and no component before it ended in the hard error |
| EditorFlow.TopicsTypedExactly | app/browser/note_components.py:3200-3245 | topics are typed if and only if nothing stopped the run, a requested topic is missing and the note has room for it |
| EditorFlow.RunInOrder | app/browser/note_components.py:3122-3300 | a run looks at the permission first; edits, components, topics, the second look and the click follow in this order, none of them twice |
| EditorFlow.ResultExactly | app/browser/note_components.py:3122-3300 | when a run raises, aborts, clicks, or reports that nothing changed, in terms of the answers alone |
| EditorFlow.NothingChangedNothingSubmitted | app/browser/note_components.py:3246-3285 | if only idempotent steps that found their goal reached succeeded, the note is not submitted |
| Verdict.Report.Compose | app/browser/note_components.py:3561-3639 | done iff all confirmed, failed iff none, error iff failed, and the failures are exactly the unconfirmed steps in order |
| Verdict.Report.FinalizeTopics | app/browser/note_components.py:2913-2997 | the same agreement over steps and topics, where only topics read back count and cut-off ones never do |
| Verdict.FailuresMatchUnits | app/browser/note_components.py:3593-3607 | a failure is listed for an item exactly if the item is not confirmed |
| Verdict.AppliedMeaning | app/browser/note_components.py:3588-3589 | one entry a step, in order, with what the read-back says of it; a step it does not name is recorded as unread |
| Verdict.FailureMeaning | app/browser/note_components.py:2913-2997 | what fails is exactly an unseen or unread step, a planned topic that was not read back, and every topic that was cut off |
| Verdict.SuccessMeaning | app/browser/note_components.py:2913-2997 | something succeeds if and only if a step was seen, a planned topic was read back, or there was no topic to add |
| Verdict.AllOrNone | app/browser/note_components.py:2984-2996 | no failures means all confirmed, and a count of zero means none |
| AudienceDrain.Drain.TakeUntilKnown | app/browser/audience_collect.py:117-133 | the messages before the first known one, and whether there is one |
| AudienceDrain.Drain.Consume | app/browser/audience_collect.py:286-313 | reads arrived pages up to one that ends the reading; reaching known messages wins over the end of the list |
| AudienceDrain.Drain.DrainChannel | app/browser/audience_collect.py:222-283 | whenever pages arrive, the result is the one-pass specification over all of them, except after a wall, where it is that of the consumed ones; each stop has its cause in the world (limit reached, the next round late, a wall in the last round, three still rounds), and none of these came earlier |
| AudienceDrain.TakenIsOnePass | app/browser/audience_collect.py:286-313 | reading page by page takes the same messages as one pass over the joined stream |
| AudienceDrain.CutsDoNotMatter | app/browser/audience_collect.py:286-313 | however the same stream is cut into pages, the collected list is the same |
| AudienceDrain.UnreadIsUnseen | app/browser/audience_collect.py:117-133 | on a newest-first stream exactly the events after the cursor are taken |
| AudienceDrain.UnreadAreNewer | app/browser/audience_collect.py:117-133 | on a newest-first stream exactly the messages with a later time than the newest one collected are taken, and all without one |
| AudienceDrain.ReachedMeansComplete | app/browser/audience_collect.py:226-234 | once a known event was reached nothing unseen is missing, however long the stream goes on |
| CreatorList.PostedCollector.HandleResponse | app/browser/creator_note_list.py:90-124 | a response without a list of notes is ignored; otherwise its notes are appended and its total is taken if there is none yet |
| CreatorList.TotalIsFirst | app/browser/creator_note_list.py:90-124 | the total held after any responses is the first that came together with notes |
| CreatorList.PostedCollector.WaitForNewBatch | app/browser/creator_note_list.py:127-141 | the newest batch if one arrived since, else nothing |
| CreatorList.PostedCollector.MergeBatches | app/browser/creator_note_list.py:144-161 | each note once, at its first occurrence, blank numbers dropped |
| CreatorList.MergedMeaning | app/browser/creator_note_list.py:144-161 | the merged list holds exactly the stripped numbers that are not blank, each once |
| CreatorList.PostedCollector.ScrollAll | app/browser/creator_note_list.py:278-311 | terminates by pages left, then retries left, in the state of the specified loop |
| CreatorList.ScrollStopsFirst | app/browser/creator_note_list.py:278-311 | scrolling ends at the first of these: enough batches; an empty page as the newest; an unanswered scroll with the total reached; three unanswered scrolls in a row |
| CreatorList.PostedCollector.FetchPostedNotes | app/browser/creator_note_list.py:227-330 | the whole fetch, including the second navigation, the empty account, and what arrives while the mouse moves to the list |
| CreatorList.WaitingKeepsAll | app/browser/creator_note_list.py:227-267 | before the scrolling everything that arrived is kept: of the first wait, or of both waits and the navigation between |
| CreatorList.ScrollIsComplete | app/browser/creator_note_list.py:278-311 | if one of three scrolls is answered while pages remain, totals are truthful and pages fit the limit, every note is found once in first-seen order |
| CreatorList.ReachedIsComplete | app/browser/creator_note_list.py:200-206 | reaching a truthful total leaves no note unseen |
| CreatorList.FetchIsComplete | app/browser/creator_note_list.py:227-330 | the fetch is complete if and only if the newest of the first batches is not an empty page, or there are no notes |
| CreatorList.EmptyPageBehindHidesNotes | app/browser/creator_note_list.py:268-272 | a concrete start in which a page and the empty page behind it arrive together and nothing is returned |
| CreatorList.NoResponseIff | app/browser/creator_note_list.py:250-267 | there is no response if and only if neither wait brings a batch; a page that arrives during the second navigation does not count |
| Dedup.FirstsKeepTheFirst | app/browser/creator_note_list.py:144-161 | of all notes with one number the first is the one that is kept |
| MediaUrl.ImageNormalForm | app/browser/note_media.py:54-104 | for every image the normal form normalises to the same record |
| MediaUrl.VideoNormalForm | app/browser/note_media.py:65-74 | for a video that holds if and only if host and path name the delivery network; otherwise the normal form is rejected |
| MediaUrl.VideoQueryIsNotEnough | app/browser/note_media.py:62-74 | a concrete video address that is accepted once and lost the second time |
| MediaUrl.OneAssetOneRecord | app/browser/note_media.py:75-104 | issue time, signature, variant, query and host do not matter: the record depends on segment and file number alone |
| MediaUrl.ForeignIsNotTaken | app/browser/note_media.py:49-64 | an address outside the delivery network, of an avatar, a static asset or a page's own video gives no record |
| MediaUrl.ImageExactly | app/browser/note_media.py:75-104 | every other address, unless it is a film of the video host, gives the record with the number in front of the variant and the permanent address spelled out, if the number has at least 16 of the allowed characters, and none otherwise |
| MediaUrl.SegmentMeaning | app/browser/note_media.py:82-95 | the directory in front of the number is kept unless it is all digits or 32 hexadecimal digits |
| MediaUrl.VideoExactly | app/browser/note_media.py:65-74 | every film address of the network gives the record with its last path part without the ending, and the address over https without the query |
| MediaUrl.CollectMedia | app/browser/note_media.py:107-127 | the loop returns the numbered list of first occurrences |
| MediaUrl.ListIsNumbered | app/browser/note_media.py:107-127 | ordinals 1..n, distinct file numbers, and exactly the numbers that occur |
| MediaUrl.ListGrows | app/browser/note_media.py:107-127 | further addresses never renumber or replace what was found |
| MediaUrl.ListReproducesItself | app/browser/note_media.py:107-127 | fed with its own addresses the list comes out the same if and only if each address names the delivery network |

## Left out

- PublishSpacing.PublishedPostsAreSpaced: speaks of rows that are `published`. A post whose row a late cancel took over has gone out, but the gate does not see it any more.
- PublishSpacing.DailyCapHolds: counts `published` rows only, for the same reason.
- SessionWindow.HourlySessionsAreBounded: sessions that leave no row (cookie patrol, probe scripts) are not in the model; the count of a pass is one step, as it is two queries in the code.
- Protocol: a heartbeat comes only while the job runs (the thread may send a last one just after the end); the due time of a retry is not looked at when a pass begins; video, image and script jobs without an account are not dispatched here.
- Protocol: one supervisor incarnation. Children that outlive a restart, and the single-process mode with its own scheduler, are not modelled.
- AccountWorker.Worker.RunPublishJob: what the publish itself does in the browser is one nondeterministic result; the payload columns of a row (note id, error text, result echo) are not kept.
- Dispatcher.Supervisor.DispatchAccounts: children that end while a pass is under way are modelled in Protocol, not in this method; process time limits are not modelled.
- StyleMigrationRun.Migration.MigrateData: a container whose `active` or `kind` is not a string makes the code raise; such documents are not representable. Columns `source`, `updated_at` and `updated_by`, the length of names and the schema changes around the data are not modelled.
- TopicText.NormKeepsTopics: characters are Unicode scalar values, so unpaired surrogates are not representable.
- ImageRemoval.EditorPage.RemoveOne: scrolling, hovering and the hit test before a click are one outcome, found or lost; labels are numbers, and during the tries the page is completely redrawn after every deletion, so half-drawn labels occur only before the first count.
- ImageRemoval.DoneIsExactIff: a late deletion lands before the next try; one that lands during a later wait is not modelled.
- QuoteCard.UntitledChoiceIsRight: titles and card texts are taken as already normalised; paging the candidate list and selecting the card in the dialog are not modelled.
- EditorFlow.Session.SetNoteComponents: the result says whether the submission was clicked, not whether the platform answered it; an unexpected exception of a page read before the click aborts the run without a click and is not a separate branch; permission repair after the submission works through another dialog and is not modelled. The title read back is rebound inside the code's read-back of quotes, so title read-back is left out.
- Verdict.Report.Compose: the texts of reasons and the evidence fields are not modelled.
- Verdict.Report.FinalizeTopics: the echoed topic lists of the result are not modelled, only the units they come from.
- AudienceDrain.Drain.DrainChannel: choosing the tab and hovering are not modelled; pages arrive between rounds.
- CreatorList.ScrollIsComplete: waiting times are not modelled; what arrives during one wait is one list.
- MediaUrl.VideoNormalForm: `urlsplit` also removes tabs and line breaks, strips control characters and rejects broken IPv6 hosts; digits of a path segment are ASCII digits here.
- The browser driving itself (selectors, scripts, mouse and typing), HTTP and MCP wiring, authentication, encryption, the other migrations, log messages and the remaining schedulers add no property of the kinds above.
