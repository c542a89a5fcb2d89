# Clipboard daemon: model and proofs

A Dafny model of the parts of the clipboard daemon that keep its history honest, and
proofs of what they promise. `dafny verify dfyconfig.toml` checks the project.

- `Tables`, `Retention`, `EchoGraph`, `Mutations`, `Runs`, `Duplicates`, `Eviction`,
  `Outcomes`, `RowOutcomes`, `PolicyOutcomes`, `References`: the history store as a state
  machine over its tables. Each SQL statement is an operation on whole tables; each mutation
  is a function from the tables it reads to those it commits; the theorems hold over every
  run.
- `Database`, `Durability`: the same mutations as statements on mutable tables, with commits
  that are acknowledged, durable but unacknowledged, or lost, and with crashes.
- `Search`, `Listing`, `Paging`, `ObservationClock`: trigram narrowing, cursors sealed by
  revision, walks with arbitrary mutations in between, and the observation clock above them.
- `EditLeases`, `EditRuns`: optimistic edits that overwrite only what was shown, first one
  edit against any mutations, then any number of edits with each other and with the
  mutations.
- `CaptureGate`, `CaptureAdmission`, `CaptureWorker`, `WorkerProgress`, `CaptureController`,
  `CaptureSystem`: the capture fence, one step per atomic access and one program counter per
  thread; the threads of a worker on top of it; the controller that starts and stops
  workers; and the controller together with all workers it ever started.
- `Operations`, `OperationOutcomes`, `OperationBook`: the commit/cancel race with bounded
  retention, and the owner registry above it.
- `StoreQueue`: byte reservations, the job queue, drain and shutdown.
- `Settings`, `SettingsOutcomes`, `CaptureContract`: preferences, store policy and capture
  with services that fail anywhere; and the manager wired to the controller with all its
  workers.
- `MimeOffers`, `MimePreference`, `Transfers`, `Intake`: the MIME policy, one bounded
  transfer, and the slots and byte budget of capture intake.

Sequential code that updates objects is modelled as classes whose methods are proved
equal to functions on values; the theorems are about those functions. Concurrent code is
modelled as labelled steps, and its theorems quantify over every interleaving.

Three things a reader might expect do not hold. Each is stated with an input on which it
fails and with the exact condition under which it holds:

- `replace` keeps contents unique if and only if no other entry that eviction spares holds
  the replacement already (`Duplicates`).
- A `close` leaves the gate shut, until the next resume begins, if and only if no resume
  that passes its check holds the lock at that moment (`CaptureGate`).
- A failed settings call leaves capture stopped, whatever goes wrong, if and only if capture
  is not running before it and the call is refused at once, or capture is to stay paused, or
  the controller is latched; for a restart request also if the store limits differ from the
  saved ones (`Settings`).

## Model

| member | source | states |
|---|---|---|
| `Retention.OverflowKeepsTop` | src/history_store/database.rs:611-613 | The count stages keep the first `limit` rows of their category, the protected one and then the most recent ones, and exactly as many as fit |
| `Retention.ByteStageKeepsLongestPrefix` | src/history_store/database.rs:614-615 | What the byte stage keeps is a prefix of the order (protected, favorites, most recent first), fits the budget, and contains every other prefix that fits |
| `Retention.FavoritesAreEvictedLast` | src/history_store/database.rs:614-615 | The byte stage drops a non-protected favorite only if it drops every non-protected regular entry |
| `Retention.RetainEstablishesLimits` | src/history_store/database.rs:605-620 | From any catalog, retain leaves every entry, both categories and the total within the policy, and a protected row the policy has room for survives |
| `Retention.RetainIdlesWithinLimits` | src/history_store/database.rs:605-620 | Retain changes nothing in a history that already respects the policy |
| `Eviction.OverflowKeepsNewer` | src/history_store/database.rs:611-613 | In a count stage, whenever an unprotected row stays every more recent row of its kind stays |
| `Eviction.BudgetKeepsNewer` | src/history_store/database.rs:614-615 | In the byte stage the same, and every favorite stays as long as any unprotected regular row does |
| `Eviction.EvictKeepsNewer` | src/history_store/database.rs:605-620 | Over all stages a kept unprotected row keeps every more recent row of its kind that is not oversized |
| `Eviction.EvictLosesOnlyOverLimits` | src/history_store/database.rs:605-620 | A row is lost only if it is oversized, or its kind or the total exceeds its limit |
| `Eviction.MutationEvictsOldest` | src/history_store/database.rs:426-565 | If an insert, replace or favorite leaves an entry it did not touch, it leaves every more recent entry of that kind |
| `Eviction.StoreRespectsPolicy` | src/history_store/database.rs:605-620 | In every reachable state payload lengths, both counts and the total are within the policy, in numbers |
| `Eviction.InsertKeepsAllWithRoom` | src/history_store/database.rs:426-458 | An insert loses no entry while there is room for new content, or when the content is known |
| `Eviction.FavoriteKeepsAllWithRoom` | src/history_store/database.rs:547-565 | A change of the favorite flag loses no entry while the other kind has room |
| `Tables.OneCurrentEntry` | src/history_store/database.rs:270-273 | With distinct recencies a non-empty history has exactly one newest entry |
| `Tables.DeleteKeepsContents` | src/history_store/schema.rs:6-17 | A row deletion with its cascades leaves one matching payload and one search row per entry and no dangling reference |
| `Tables.DeleteKeepsNumbers` | src/history_store/schema.rs:2-6 | A row deletion keeps revisions and recencies distinct and bounded by the counters |
| `EchoGraph.LinkFromUnreferencedRow` | src/history_store/database.rs:499-521 | A link out of a row that no row points at closes no cycle: why insert (a fresh id) and replace (inbound links cleared first) are safe |
| `EchoGraph.NoEchoCycle` | src/history_store/database.rs:499-521 | In an acyclic history no chain of echo links of any length returns to where it started |
| `EchoGraph.EveryEntryHasVisibleRoot` | src/history_store/database.rs:499-521 | From every entry a chain of live echo links leads to one without a link |
| `Search.CollapsedEmptyIff` | src/history_store/database.rs:499-521 | In every reachable state the collapsed list is empty exactly when the history is, although collapsing hides every echo |
| `Mutations.ConcludeSucceeds` | src/history_store/database.rs:616-618 | After a mutation the protected row survives retain and the final summary lookup never fails |
| `Mutations.BodyKeepsHistory` | src/history_store/database.rs:426-601 | Every successful mutation keeps the whole store invariant: keys, contents, distinct bounded numbers, acyclic echoes, policy limits |
| `Runs.EmptyIsHistory` | src/history_store/schema.rs:2-6 | The freshly created schema satisfies the store invariant |
| `Runs.RunKeepsHistory` | src/history_store/database.rs:426-620 | The store invariant holds in every state of every run of mutations |
| `Runs.StepEvolves` | src/history_store/database.rs:266-307 | Each call leaves rows, payloads and search rows untouched, or advances the catalog revision by one and stamps every row it changed with it; only a cleared echo link carries no new revision |
| `Runs.RevisionIdentifiesCatalog` | src/history_store/database.rs:266-307 | Over any run the revision never goes back, and equal revisions mean equal entries, payloads and search rows |
| `Runs.EntryOverTime` | src/history_store/database.rs:426-601 | A removed identifier never returns; an entry revision never goes back and an unchanged one means an unchanged version |
| `Runs.VersionIdentifiesContent` | src/history_store/database.rs:426-601 | An (id, revision) pair determines bytes, MIME, favorite flag and recency for the whole run |
| `Outcomes.InsertOutcome` | src/history_store/database.rs:426-458 | Insert succeeds exactly when admitted; the offered bytes are then the newest entry under the offered MIME, and an existing twin is the row answered |
| `Outcomes.InsertIsIdempotent` | src/history_store/database.rs:435-440 | Inserting the same content again returns the same summary and the same catalog, for every digest function |
| `Outcomes.ReplaceOutcome` | src/history_store/database.rs:524-546 | Replace succeeds exactly for the expected revision within the limits; the row holds the new bytes at the next revision, in its old place and category |
| `Outcomes.FavoriteOutcome` | src/history_store/database.rs:547-565 | Exactly when favorite succeeds, and that content and recency stay while flag and revision change |
| `Outcomes.RemoveManyOutcome` | src/history_store/database.rs:566-593 | Bulk removal drops exactly the named rows or none; exactly when it reports an absent and when a stale target |
| `PolicyOutcomes.WipeOutcome` | src/history_store/database.rs:594-604 | Exactly when a wipe succeeds; then entries, payloads, search rows and links are empty, the revision is one higher and everything else stays |
| `PolicyOutcomes.ApplyPolicyOutcome` | src/history_store/database.rs:290-307 | Exactly when a policy is applied; it is then in force and respected, and the policy in force already changes nothing |
| `PolicyOutcomes.WiderPolicyKeepsAll` | src/history_store/database.rs:290-307 | A policy the history is within costs no entry |
| `PolicyOutcomes.TighterPolicyEvictsOldest` | src/history_store/database.rs:290-307 | A tighter policy gives up the oldest entries of each kind first |
| `PolicyOutcomes.CloseAdmissionOutcome` | src/history_store/database.rs:164-168 | Closing admission changes nothing else |
| `PolicyOutcomes.RegisterOutcome` | src/history_store/database.rs:634-651 | Exactly when a generated file is registered, and that only its own record changes |
| `PolicyOutcomes.ForgetOutcome` | src/history_store/database.rs:652-660 | Forgetting a file drops exactly its record |
| `RowOutcomes.NewEntryOutcome` | src/history_store/database.rs:447-456 | New content becomes a regular, newest entry at the new revision, shown as it was resolved |
| `RowOutcomes.KnownEntryOutcome` | src/history_store/database.rs:435-446 | Known content keeps everything but its number, and a current entry keeps even that |
| `RowOutcomes.ReplacedEntryOutcome` | src/history_store/database.rs:524-546 | A replaced entry is shown as its new content was resolved, and its summary is answered |
| `RowOutcomes.FlaggedEntryOutcome` | src/history_store/database.rs:547-565 | Changing the favorite flag changes nothing else of the entry but its revision |
| `RowOutcomes.InsertErrors` | src/history_store/database.rs:426-458 | Which error an insert reports, case by case |
| `RowOutcomes.ReplaceErrors` | src/history_store/database.rs:524-546 | Which error a replace reports, case by case |
| `RowOutcomes.FavoriteErrors` | src/history_store/database.rs:547-565 | Which error a change of the favorite flag reports, case by case |
| `References.InsertedEchoIff` | src/history_store/database.rs:499-521 | New content echoes exactly the surviving entry whose registered, unmodified file it names |
| `References.ReplacedEchoIff` | src/history_store/database.rs:537-543 | So does replaced content, whatever the entry echoed before |
| `References.StepKeepsEcho` | src/history_store/schema.rs:6 | A mutation clears the link of an entry it does not rewrite exactly when the source is gone or rewritten |
| `References.LinksFollowContent` | src/history_store/database.rs:482-498 | Over any run the recorded file links are exactly the paths the payloads name |
| `References.CandidatesAreUnused` | src/history_store/database.rs:627-633 | In every reachable state the files old enough for cleanup are exactly those whose source is gone and that no payload names |
| `Duplicates.ReplaceSurvivors` | src/history_store/database.rs:524-546 | Which rows a replace leaves, as a condition on the catalog before the call |
| `Duplicates.ReplaceKeepsUniqueIff` | src/history_store/database.rs:524-546 | Replace does not deduplicate: contents stay unique if and only if no other entry that the total limit spares already holds the replacement |
| `Duplicates.StepKeepsUniqueIff` | src/history_store/database.rs:426-604 | Every mutation keeps contents unique, except exactly a replace by content that a surviving entry holds |
| `Duplicates.ContentsStayUniqueIff` | src/history_store/database.rs:426-604 | Over any run contents stay unique if and only if none of its replaces duplicates a surviving entry |
| `Duplicates.ReplaceCanDuplicate` | src/history_store/database.rs:524-546 | A concrete two-entry history in which replace leaves two entries with equal MIME and bytes |
| `Database.Connection.constructor` | src/history_store/schema.rs:2-6 | A new store is the empty history and is not fenced |
| `Database.Connection.Execute` | src/history_store/database.rs:231-265 | The transaction as statements over mutable tables yields exactly the specified durable state, fence and reply |
| `Database.Connection.Finish` | src/history_store/database.rs:231-265 | Commit, sidecar protection and rollback decide the durable state and the fence as specified |
| `Database.Connection.InsertClosure` | src/history_store/database.rs:426-458 | The insert statements compute the specified insert |
| `Database.Connection.PromoteRow` | src/history_store/database.rs:443-446 | Re-inserting known content renumbers its row and concludes |
| `Database.Connection.AppendRow` | src/history_store/database.rs:447-454 | Appending a new row with its payload, search row and links equals the specified one |
| `Database.Connection.WriteRow` | src/history_store/database.rs:459-523 | Writing payload, search row, links and echo source equals the specified row content; the payload, the searchable text up to 64 KiB and the named files are stored |
| `Database.Connection.ReplaceClosure` | src/history_store/database.rs:524-546 | The replace statements compute the specified replace |
| `Database.Connection.ReplaceRow` | src/history_store/database.rs:535-544 | Update, clearing of inbound echoes, rewriting of content and retain, in that order |
| `Database.Connection.RewriteRow` | src/history_store/database.rs:537-541 | The row update clears every inbound echo link and drops the old content |
| `Database.Connection.FavoriteClosure` | src/history_store/database.rs:547-565 | The favorite statements compute the specified change |
| `Database.Connection.ApplyPolicyClosure` | src/history_store/database.rs:290-307 | Applying a policy compares, retains and bumps as specified |
| `Database.Connection.RemoveManyClosure` | src/history_store/database.rs:566-593 | Two counting joins compared with the number of targets, repeated targets included, answer as the quantified specification of all-or-nothing removal does |
| `Database.Connection.CountJoined` | src/history_store/database.rs:584-586 | The counting loop computes the join count |
| `Database.JoinedCountIsAll` | src/history_store/database.rs:584-587 | The count equals the number of targets exactly when every single target joins |
| `Database.Connection.WipeClosure` | src/history_store/database.rs:594-604 | Wiping leaves no entry and bumps once, as specified |
| `Database.Connection.RetainRows` | src/history_store/database.rs:605-620 | The deletions of retain, statement by statement, equal the specified eviction |
| `Database.Connection.RetainAndSummarize` | src/history_store/database.rs:455-456 | Retain followed by the summary of the protected row |
| `Database.Connection.RegisterClosure` | src/history_store/database.rs:634-651 | Registering a generated file is bounded and replaces by path |
| `Durability.FencedUntilReopened` | src/history_store/database.rs:231-265 | Over any run: once fenced, nothing is written or acknowledged and every request is refused until the store is reopened |
| `Durability.OpenAdmissionWasRequested` | src/history_store/database.rs:164-168 | Over any run: admission found open was asked for since the last reopening, by applying a policy with admission |
| `Durability.LifeKeepsHistory` | src/history_store/database.rs:231-265 | The durable state satisfies the store invariant throughout crashes and reopenings |
| `Durability.CallOutcome` | src/history_store/database.rs:231-265 | An unfenced error leaves the durable state as it was; an acknowledged call is durable; only a fencing call is in doubt |
| `Durability.WorkingEngineAnswers` | src/history_store/database.rs:231-265 | With a working engine an unfenced store answers exactly what the mutation comes to and is not fenced |
| `Durability.EventStaysExplained` | src/history_store/database.rs:231-265 | Every request, crash and reopening keeps the durable state explained by the acknowledged mutations and at most one doubtful one per session |
| `Durability.CrashesLoseNothingAcknowledged` | src/history_store/database.rs:685-705 | Over any run with crashes the recovered state is the acknowledged mutations in order, each session followed by at most its one unacknowledged mutation |
| `Search.SearchGram` | src/history_store/database.rs:707-732 | The imperative gram collection returns at most 32 distinct three-character windows of the words of the needle, or none |
| `Search.GramsAreQuotable` | src/history_store/database.rs:707-732 | Every gram is alphanumeric and a substring of the needle, so quoting it in the match expression is safe and loses nothing |
| `Search.GramsAreWindows` | src/history_store/database.rs:707-732 | The grams are exactly the runs of three alphanumeric characters of the needle |
| `Search.WordsAreAlphanumeric` | src/history_store/database.rs:707-732 | The words the needle is split into hold alphanumeric characters only |
| `Search.NarrowingIsExact` | src/history_store/database.rs:355-371 | Filtering by grams plus all incompletely indexed rows, then by substring, selects exactly the rows of the plain substring search |
| `Search.Query` | src/history_store/database.rs:340-415 | The narrowed query returns the page of the plain literal search: rows, order, total, flags and next offset |
| `Search.OrderedIsSorted` | src/history_store/database.rs:382-384 | The list holds every match once, favorites first, then by recency, with the id as tie-breaker |
| `Search.PageIsSlice` | src/history_store/database.rs:382-405 | A page is the slice of the full list its offset and capped limit name; has_more means rows remain |
| `Search.SameTablesSameList` | src/history_store/database.rs:340-415 | Equal tables give equal lists for every needle |
| `Listing.SearchRowsFollowContent` | src/history_store/database.rs:471-481 | In any history the search row of an entry holds the searchable text of its payload, indexed in full up to 64 KiB and not at all beyond |
| `Listing.FoundIff` | src/history_store/database.rs:355-371 | An entry is found exactly when it is no hidden echo and the searchable text of its payload holds the needle |
| `Listing.ListedOnceIff` | src/history_store/database.rs:340-405 | The full list names each found entry exactly once and nothing else |
| `Listing.OrderedNewestFirst` | src/history_store/database.rs:382-384 | Favorites first, then the most recent first, ties by identifier |
| `Listing.ListedNewestFirst` | src/history_store/database.rs:382-384 | In any history the list is favorites first and strictly newest first within each kind |
| `Listing.ListedRowIsTrue` | src/history_store/database.rs:768-790 | What a listed row says of its entry is true: payload length, revision, flag, kind, preview and resolved MIME |
| `Listing.CurrentIsNewest` | src/history_store/database.rs:344-354 | The current entry is the newest one, or what it echoes when collapsed; exactly its row is flagged |
| `Listing.NextOffsetJoins` | src/history_store/database.rs:390-406 | The next offset names the first entry left out, so pages join without gap or overlap |
| `Paging.HistorySearch.DecodeIff` | src/history_search.rs:85-103 | A cursor decodes exactly if it was sealed by this process for this scope, and to what was sealed |
| `Paging.PageOrStale` | src/history_search.rs:104-170 | Exactly when a page is answered, that it is the slice its cursor names, and that every refusal is stale |
| `Paging.PageSawOneRevision` | src/history_search.rs:104-140 | An answered page had no commit between its two looks at the revision |
| `Paging.WalkReturnsRest` | src/history_search.rs:104-170 | From a cursor, a completed walk returns exactly the rest of the list of the revision of the cursor |
| `Paging.CursorWalkIsOneSnapshot` | src/history_search.rs:104-170 | With any limits and any interleaved mutations a completed walk is exactly the full ordered match list of one revision, within the deadline of its first page |
| `Paging.QuietWalkNeverFails` | src/history_search.rs:104-170 | Without a commit and in time no page is refused |
| `Paging.FirstWalkNeverFails` | src/history_search.rs:104-170 | A walk from the start is not refused while nothing is committed and 120 seconds have not passed |
| `ObservationClock.Clock.Observe` | src/api/history.rs:11-17 | Observing a token advances exactly when the token differs from the last known one |
| `ObservationClock.Clock.Advance` | src/api/history.rs:21-31 | The revision grows by one or the exhausted clock refuses and stays |
| `ObservationClock.Clock.ObserveHistory` | src/api.rs:110-123 | An observation through the API: a failed read forgets the token, keeps the revision and answers that error |
| `ObservationClock.UnchangedRevisionKeepsToken` | src/api/history.rs:11-31 | From an observed token on, an unchanged clock revision means an unchanged token |
| `ObservationClock.EqualRevisionEqualToken` | src/api/history.rs:11-31 | Two answered observations with equal clock revisions observed the same token |
| `ObservationClock.RevisionCountsNews` | src/api/history.rs:11-31 | The clock remembers exactly the last observation unless invalidated since, and its revision counts the observations that were news |
| `ObservationClock.QuietQueryIsAnswered` | src/api.rs:444-465 | A query whose looks find one revision is answered |
| `ObservationClock.AnsweredSawOneCatalog` | src/api.rs:444-465 | An answered history query saw one catalog revision from its first to its last look |
| `ObservationClock.EqualStampsSawTheSameCatalog` | src/api.rs:444-465 | Two answered queries with equal history stamps saw the same catalog, hence the same list for every needle |
| `EditLeases.ShownIsWholePayload` | src/actions.rs:415-439 | begin_edit only ever shows the whole payload of the leased revision, never a prefix |
| `EditLeases.EditBeginsIff` | src/actions.rs:415-439 | An edit begins exactly for the revision asked for, of a textual kind whose whole payload is short valid text |
| `EditLeases.CommitSucceedsIff` | src/actions.rs:509-526 | Exactly when a commit through a lease succeeds: in time, within all limits, with the entry unchanged |
| `EditLeases.CommitOverwritesWhatWasShown` | src/actions.rs:415-526 | A successful commit overwrites exactly the bytes and the version that begin_edit showed, whatever mutations ran in between |
| `EditLeases.LeaseBook.TakeForCommit` | src/actions.rs:441-484 | Only the owner takes a lease, and taking removes it |
| `EditLeases.LeaseBook.CancelEdit` | src/actions.rs:486-497 | Only the owner cancels a lease |
| `EditLeases.LeaseBook.Dispatch` | src/actions.rs:80-105 | Expired leases go before every request: only a live lease of its owner is taken or cancelled |
| `EditLeases.LeaseBook.ClearAll` | src/actions.rs:317-319 | A wipe takes every lease |
| `EditLeases.LeaseBook.ReleaseOwner` | src/actions.rs:321-327 | Exactly the leases of the owner go; those of peers and those without an owner stay as they are |
| `EditLeases.GoneStaysGone` | src/actions.rs:441-497 | A lease that left the map never returns |
| `EditLeases.LeaseIsUsedOnce` | src/actions.rs:441-497 | Each lease leads to at most one commit, and to none after a cancel, release or expiry |
| `EditRuns.EventKeepsInv` | src/actions.rs:415-526 | Every step of every edit and every store mutation keeps it true that a lease, wherever its revision is still current, vouches for exactly the shown bytes |
| `EditRuns.EachEditReplacesOnceWhatWasShown` | src/actions.rs:415-526 | Over any run of edits and mutations interleaved at every await, each begin_edit leads to at most one successful replace, which overwrote exactly the bytes it showed |
| `EditRuns.ReplaceLeavesNewText` | src/actions.rs:441-526 | The replace of an edit leaves the committed text in the old place and category of the entry |
| `EditRuns.OverStaysOver` | src/actions.rs:441-497 | Once an edit is committed, refused, cancelled, expired or released, it replaces nothing ever after |
| `EditRuns.UndisturbedEditReplaces` | src/actions.rs:415-526 | An edit that nothing disturbs, in time and within the limits, does overwrite what it showed |
| `CaptureGate.StepKeepsMutex` | src/capture.rs:75-86 | The submission lock is held by exactly the thread inside a locked section |
| `CaptureGate.GenerationNeverFalls` | src/capture.rs:57-73 | The generation never falls in any interleaving |
| `CaptureGate.NoneRunsAfterFence` | src/capture.rs:64-66 | From a fence on, no submission older than the generation it found is inside the sink |
| `CaptureGate.ClosedThenFencedIsSilent` | src/capture.rs:57-93 | After a close and a later fence no submission admitted before the close is running or ever runs again, whatever follows |
| `CaptureGate.PoisonedForEver` | src/capture.rs:101-124 | The state after a failed submission is kept by every step of every thread |
| `CaptureGate.FailureIsFinal` | src/capture.rs:101-124 | After any failed submission no sink closure runs again and no resume reopens the gate |
| `CaptureGate.OpenIffResumedSince` | src/capture.rs:57-73 | The gate is open exactly when some resume stored it open and neither a close nor a failed submission shut it since |
| `CaptureGate.ShutUntilNextResume` | src/capture.rs:57-73 | With no resume pending at the close the gate stays shut until the next resume takes the lock |
| `CaptureGate.PendingResumeOpens` | src/capture.rs:68-73 | A pending resume can finish by its own steps, and then the gate is open |
| `CaptureGate.CloseStaysShutIff` | src/capture.rs:57-73 | Exactly when a close leaves the gate shut: if and only if no resume that passed its check, or will pass it, holds the lock when the close stores |
| `CaptureGate.CloseMayLoseToResume` | src/capture.rs:57-73 | An interleaving in which a close that raced a resume has returned and the gate is open |
| `CaptureAdmission.RunningWasAdmitted` | src/capture.rs:95-112 | A closure runs in the sink only for a submission that within its own hold of the lock found the gate open and then its generation current |
| `CaptureAdmission.ShutGateAdmitsNothing` | src/capture.rs:95-112 | A submission that takes the lock after the gate was shut, and before any resume stores, never runs |
| `CaptureAdmission.CurrentSubmissionRuns` | src/capture.rs:101-115 | A locked submission of the current generation under an open gate runs by its own two looks |
| `CaptureAdmission.ResumeWasCertain` | src/capture.rs:68-86 | Only a resume that found no uncertainty within its own hold of the lock opens the gate |
| `CaptureAdmission.NoneRunsAfterResume` | src/capture.rs:68-73 | After the bump of a resume no submission admitted before it ever runs |
| `CaptureAdmission.GenerationCountsBumps` | src/capture.rs:57-73 | The generation counts the closes, resumes and failures that bumped it |
| `CaptureAdmission.UncertainIffMarked` | src/capture.rs:116-124 | The gate is uncertain exactly when some step marked it so |
| `CaptureWorker.StepKeepsRoles` | src/capture/worker.rs:85-146 | Each thread is inside exactly the gate call its program counter names |
| `CaptureWorker.StepKeepsOpenOnlyInSession` | src/capture/worker.rs:117-146 | Only the session opens the gate, and it never leaves its loop without closing it |
| `CaptureWorker.StepKeepsSqlClosedAtExit` | src/capture/worker.rs:126-146 | Once the session left its loop, storage admission is closed or its state is on record as uncertain |
| `CaptureWorker.StepKeepsFailureRecorded` | src/capture/worker.rs:96-105 | The ingest thread gives up only after its failure is on record |
| `CaptureWorker.StepKeepsSinkEnds` | src/capture/worker.rs:111-114 | The ingest thread ends by draining a disconnected queue or by giving up, and the session waits for it |
| `CaptureWorker.RunKeepsInv` | src/capture/worker.rs:85-146 | All of these hold in every reachable state of every interleaving |
| `CaptureWorker.FinishedMeansFenced` | src/capture/worker.rs:193-204 | When finish returns Ok the gate is shut, the queue drained with its thread gone, storage admission off, nothing uncertain, and no thread can move any more |
| `CaptureWorker.NeverStuck` | src/capture/worker.rs:193-204 | Until finish answers, some thread of the worker can move: a stop never deadlocks |
| `WorkerProgress.StoppedSessionLeaves` | src/capture/worker.rs:117-121 | The session begins another capture exactly as long as no stop was stored |
| `WorkerProgress.StopCanBeVerified` | src/capture/worker.rs:193-204 | From every reachable state in which nothing went wrong a stop can be completed and verified |
| `WorkerProgress.CaptureReachesSink` | src/capture/worker.rs:117-126 | A worker at rest that was not stopped can capture: storage admits, the gate opens and the new content reaches the sink |
| `CaptureController.Controller.Stop` | src/capture/worker.rs:214-235 | Stop latches the unverified state before it waits and clears it only for a verified finish |
| `CaptureController.Controller.SetPaused` | src/capture/worker.rs:262-289 | set_paused changes the runtime as specified, branch by branch |
| `CaptureController.Controller.Shutdown` | src/capture/worker.rs:291-296 | Shutdown stops and then latches |
| `CaptureController.Controller.IsPaused` | src/capture/worker.rs:298-307 | A latched error is answered first; no worker means paused |
| `CaptureController.RunKeepsInv` | src/capture/worker.rs:213-307 | Without a latched error at most the worker in the slot is alive, and only a first worker started before any pause bootstraps |
| `CaptureController.PausedMeansNoneAlive` | src/capture/worker.rs:274-283 | An acknowledged pause empties the slot and leaves no worker counted alive, and whatever worker starts next skips the current content |
| `CaptureController.LatchedForEver` | src/capture/worker.rs:214-217 | Once an error is latched every later call fails with it or a later one and no worker ever starts |
| `CaptureController.LatchedIff` | src/capture/worker.rs:222-232 | Exactly which calls latch |
| `CaptureController.PauseAcknowledgedIff` | src/capture/worker.rs:262-278 | Exactly when a pause is acknowledged, and that the slot is then empty |
| `CaptureController.StartAcknowledgedIff` | src/capture/worker.rs:262-289 | Exactly when a start is acknowledged, and which worker with which limit is then in the slot |
| `CaptureController.ShutdownAcknowledgedIff` | src/capture/worker.rs:291-296 | Exactly when a shutdown is acknowledged |
| `CaptureSystem.RunKeepsInv` | src/capture/worker.rs:85-308 | Controller calls interleaved with all threads of all workers: every worker not counted alive has really finished |
| `CaptureSystem.OnlyTheSlotWorks` | src/capture/worker.rs:206-236 | While no error is latched, every worker but the one in the slot is fenced and cannot move |
| `CaptureSystem.PausedMeansAllFenced` | src/capture/worker.rs:262-278 | After an acknowledged pause, of all workers ever started none is open, admitted, queued or able to move |
| `CaptureSystem.NewWorkerStartsAlone` | src/capture/worker.rs:274-284 | A new worker starts only when every earlier one is fenced |
| `Operations.OperationState.Prune` | src/history/operation.rs:58-66 | The pruning loop drops exactly the expired front of the queue |
| `Operations.OperationState.Retain` | src/history/operation.rs:50-56 | Retaining prunes, makes room and appends |
| `Operations.OperationState.Lookup` | src/history/operation.rs:119-134 | A lookup prunes and finds the first result of the operation |
| `Operations.OpStepKeepsInv` | src/history/operation.rs:151-277 | Every step of the task, of a canceller and of the committer keeps the life-cycle invariant of one operation |
| `Operations.RunKeepsInv` | src/history/operation.rs:151-302 | The invariant of the registry, its retention queue and its gate holds in every reachable state |
| `Operations.OneTerminalEvent` | src/history/operation.rs:194-277 | An operation publishes its start and then exactly one terminal event, when it leaves the registry and after its files are gone; a begun commit and a claimed cancel exclude each other |
| `Operations.StatusUntilEvicted` | src/history/operation.rs:119-134 | Status finds every registered operation and forgets an ended one exactly when 256 later ones ended or 300 seconds passed |
| `Operations.WipeIsNotOvertaken` | src/history.rs:334-343 | After a wipe under the operation gate no operation registered before it commits any more |
| `OperationOutcomes.ReportedOutcomeIsTheWorks` | src/history/operation.rs:194-221 | Over any run an outcome that is reported is the one an earlier step of the work ended with |
| `OperationOutcomes.CommitIsReportedAsItEnded` | src/history/operation.rs:194-221 | From the end of a commit on, nothing can be reported but what it came to |
| `OperationOutcomes.ClaimTakesEffectIff` | src/history/operation.rs:224-241 | A cancel takes effect exactly on a registered operation that is unclaimed and has not begun to commit |
| `OperationOutcomes.ClaimedNeverCommits` | src/history/operation.rs:224-277 | A claimed operation never commits and is never reported as anything but cancelled |
| `OperationOutcomes.ClaimedCanEndCancelled` | src/history/operation.rs:254-277 | A claimed operation can always be brought to its end by its own canceller and task |
| `OperationOutcomes.OperationCanComplete` | src/history/operation.rs:151-221 | A fresh operation can be launched, commit and be reported, and found by status, with whatever its commit came to |
| `OperationOutcomes.StopCanPass` | src/history/operation.rs:279-302 | A stop never waits in vain: all operations it waits for can end by their own tasks and cancellers |
| `StoreQueue.BytesAreLiveReservations` | src/history_store/mod.rs:83-124 | The byte counter is always the sum of the live reservations, wherever they are, never negative and within the budget; the queue stays within 32 |
| `StoreQueue.AcceptedRunInOrderOnce` | src/history_store/mod.rs:210-243 | Accepted jobs execute in order, none twice, and those pending are exactly the rest |
| `StoreQueue.CheckpointComesLast` | src/history_store/mod.rs:149-152 | From the checkpoint on every accepted job has run and none is accepted any more |
| `StoreQueue.ShutdownAnswersAgree` | src/history_store/mod.rs:91-124 | All shutdown callers get the same answer; Ok means drained and checkpointed |
| `StoreQueue.ReservationGrantedIff` | src/history_store/mod.rs:190-209 | A reservation is granted exactly while submissions are taken and all live ones with it fit 128 MiB |
| `StoreQueue.SubmissionAcceptedIff` | src/history_store/mod.rs:210-243 | A submission is accepted exactly while submissions are taken, a place is free and the worker lives |
| `StoreQueue.ShutdownCanSucceed` | src/history_store/mod.rs:91-124 | From every reachable state with a sane worker a shutdown can be answered with Ok, after every accepted job ran |
| `OperationBook.Book.Count` | src/api/operations.rs:56-65 | The counting loop computes the sizes the bounds speak of |
| `OperationBook.Book.TryReserve` | src/api/operations.rs:53-78 | A reservation is granted exactly within both limits |
| `OperationBook.Book.OldestEnded` | src/api/operations.rs:83-89 | The scan finds an oldest ended record, if there is one |
| `OperationBook.Book.RegisterOperation` | src/api/operations.rs:80-101 | Registration evicts an oldest ended record from a full book and starts at revision 1 |
| `OperationBook.Book.RefreshOperation` | src/api.rs:209-244 | A refresh changes an active record only, and only for news |
| `OperationBook.EvictionMakesRoom` | src/api/operations.rs:82-91 | A full book always holds an ended record to give up, and eviction touches no active one |
| `OperationBook.RegistryIsBounded` | src/api/operations.rs:53-101 | Active records plus unregistered reservations never exceed 64 overall or 16 per owner, and records never exceed 256 |
| `OperationBook.OutcomeIsNeverReverted` | src/api.rs:155-166 | Publications only grow, each is news to the one before, and an outcome is the last and never reverted |
| `OperationBook.ActiveRecordIsKept` | src/api/operations.rs:48-51 | No call drops the record of an active operation, and any news takes the next revision |
| `OperationBook.SteadyMeansTwoRevisions` | src/api.rs:209-244 | With a backend that reports a running operation the same way each time, an operation is published at revision 1 and once it ended at revision 2, and never else |
| `OperationBook.ReservedIff` | src/api/operations.rs:53-78 | A reservation is granted exactly while fewer than 64 slots are taken in all and fewer than 16 by its owner |
| `OperationBook.ReservationEnds` | src/api/operations.rs:36-44 | A reservation ends with its request and no other one with it |
| `OperationBook.RegisteredAs` | src/api/operations.rs:80-101 | A registered operation is recorded under the owner of its reservation and published at revision 1 |
| `OperationBook.RefreshedAs` | src/api.rs:209-244 | What a refresh finds is what the record says afterwards; every change takes and publishes one more revision |
| `OperationBook.RecordLostOnlyIf` | src/api/operations.rs:82-91 | A record is lost only after its operation ended, and then only to age or to a full book without an older outcome |
| `OperationBook.OldOutcomeIsForgotten` | src/api/operations.rs:48-51 | An outcome is forgotten by the first call that looks at the clock 300 seconds after it |
| `Settings.SettingsManager.constructor` | src/settings.rs:129-150 | A failed load falls back to the default preferences and keeps its error |
| `Settings.SettingsManager.QuiesceLocked` | src/settings.rs:293-297 | Quiescing forgets verification, pauses and closes admission |
| `Settings.SettingsManager.ApplyRetention` | src/settings.rs:285-291 | Limits are applied only after a quiesce, and only if they differ |
| `Settings.SettingsManager.ApplyCapture` | src/settings.rs:395-414 | Capture is requested only for synchronized limits, and verified at the end |
| `Settings.SettingsManager.Verify` | src/settings.rs:388-393 | Verification is recorded exactly for a matching answer |
| `Settings.SettingsManager.Commit` | src/settings.rs:329-339 | Committing a changed capture preference forgets verification |
| `Settings.SettingsManager.UpdateSettings` | src/settings.rs:234-253 | An update validates, quiesces for new limits, saves, applies and restarts, in that order |
| `Settings.SettingsManager.PauseCapture` | src/settings.rs:341-367 | A pause is saved and applied; if saving fails capture is stopped all the same |
| `Settings.SettingsManager.Stop` | src/settings.rs:416-422 | Stopping refuses later calls before it quiesces |
| `Settings.CaptureRunsOnlySynchronized` | src/settings.rs:395-414 | In every state of every run capture may run only while the store limits match the saved preferences |
| `Settings.PrivateIsVerifiedAndPaused` | src/settings.rs:205-213 | Private mode is reported only if verified, and then capture is paused and not running |
| `Settings.VerifiedIsTrue` | src/settings.rs:388-393 | In every state of every run a verified preference is true of capture, paused or not |
| `Settings.FailedUpdateLeavesPaused` | src/settings.rs:234-253 | No failed update leaves a claim of verification, a failed save keeps the preferences, and failures between quiesce and restart leave capture stopped |
| `Settings.FailedUpdateStopsIff` | src/settings.rs:234-253 | Exactly when no failure of an update can leave capture running, as a condition on the state and the update before the call |
| `Settings.FailedPauseStopsIff` | src/settings.rs:341-367 | The same for a pause or restart request |
| `Settings.VerifiedPauseIsClosed` | src/settings.rs:205-213 | In every state of every run a verified pause goes with a controller that is not latched, no running capture and a store that refuses captures |
| `CaptureContract.PauseMeetsContract` | src/capture/worker.rs:262-278 | An answered pause of the controller changes its runtime as the manager assumes, and answers Ok exactly when the manager takes it for acknowledged |
| `CaptureContract.StartMeetsContract` | src/capture/worker.rs:262-289 | So does an answered start, whether it starts a worker, keeps one, or fails at any point |
| `CaptureContract.AnswerMeetsContract` | src/capture/worker.rs:298-307 | The manager verifies exactly when is_paused answers what it wants |
| `CaptureContract.CallIsAsked` | src/settings.rs:234-435 | The pause and start requests of a settings call, taken in order, are all that the call does to capture |
| `CaptureContract.ViewIsRight` | src/daemon.rs:268-269 | Over whole runs of the manager wired to the controller and its worker threads, what the manager believes of capture is true after every call |
| `CaptureContract.VerifiedPauseMeansFenced` | src/settings.rs:205-213 | In those runs, while a pause is verified, every worker ever started is shut, drained, not admitted and unable to move, and the store refuses captures |
| `CaptureContract.IdleMeansFenced` | src/capture/worker.rs:117-146 | With no worker counted alive and no latched error, no worker ever started holds storage admission |
| `Settings.AcknowledgedUpdate` | src/settings.rs:234-253 | An acknowledged update is saved, enforced by the store and verified |
| `Settings.AcknowledgedPause` | src/settings.rs:341-367 | An acknowledged pause request is saved and verified; paused means capture stopped and admission closed |
| `Settings.NothingRestartsAfterStop` | src/settings.rs:416-422 | After stop_capture began no call starts capture; after it succeeded capture never runs again |
| `Settings.FailedRestartMayRun` | src/settings.rs:404-406 | A call whose restart request is reported as failed and after which capture may run |
| `SettingsOutcomes.UpdateTakesOver` | src/settings.rs:96-111 | An acknowledged update takes over every field asked for and no other, and the store enforces exactly those limits |
| `SettingsOutcomes.UnsupportedIsRefusedIff` | src/settings.rs:438-447 | A value out of range is refused exactly then and before anything happens |
| `SettingsOutcomes.UpdateSucceeds` | src/settings.rs:234-253 | With the services well every supported update is acknowledged |
| `SettingsOutcomes.PauseSucceedsIff` | src/settings.rs:341-367 | With the services well every pause is acknowledged, and a restart exactly when the store enforces the preferences |
| `SettingsOutcomes.GetTells` | src/settings.rs:205-213 | A client is told the preferences, with a pause and privacy only while they are verified |
| `SettingsOutcomes.InitializeEnforces` | src/settings.rs:255-260 | At startup the store gets the saved limits with admission closed |
| `MimeOffers.OfferedMimes.Add` | src/capture/policy.rs:13-51 | Adding a type in place equals one step of the fold |
| `MimeOffers.OfferedMimes.Next` | src/capture/policy.rs:53-59 | The scan takes the first filled choice, or nothing once rejected |
| `MimeOffers.RejectedIff` | src/capture/policy.rs:13-29 | An offer is rejected exactly for a bad type, more than 64 types or more than 8192 bytes |
| `MimeOffers.RejectionIgnoresOrder` | src/capture/policy.rs:13-29 | Rejection depends on the multiset of offered types only |
| `MimeOffers.RejectionIsPermanent` | src/capture/policy.rs:14-16 | Nothing offered later changes a rejected offer |
| `MimeOffers.FirstIsFirst` | src/capture/policy.rs:45-50 | The type the specification names is the first wanted one of the offer |
| `MimeOffers.ChoicesAreBest` | src/capture/policy.rs:30-50 | Every choice is the first unparameterised type of its rank, else the first one |
| `MimeOffers.NextYieldsBestPerRank` | src/capture/policy.rs:53-59 | Repeated next calls yield the best type of each rank in rank order, then nothing |
| `MimePreference.RejectedExactly` | src/capture/policy.rs:17-29 | An offer is rejected exactly for a marker of secrets, an empty, long or unprintable type, a 65th type or more than 8192 bytes |
| `MimePreference.SecretsAreNeverOffered` | src/capture/policy.rs:20-24 | An offer that carries a marker of secrets is rejected wherever the marker stands |
| `MimePreference.RankTable` | src/capture/policy.rs:31-45 | The rank of every type, whatever its parameters |
| `MimePreference.ChosenIsPreferred` | src/capture/policy.rs:46-50 | Each choice is the first type of its rank without parameters, or the first if all have some |
| `Transfers.Transfer.Receive` | src/capture/transfer.rs:84-114 | A read asks for at least one byte and never accepts more than the limit |
| `Transfers.TransferSurvivesIff` | src/capture/transfer.rs:84-122 | Exactly which transfers survive, that they hold exactly the bytes received, and when they count as blank |
| `Transfers.BlankIff` | src/capture/transfer.rs:106-114 | A transfer is blank exactly when it holds only the five ASCII blanks |
| `Transfers.RoomIs` | src/capture/transfer.rs:89-91 | A read asks for at least one byte, at most 64 KiB, and at most one byte beyond the limit |
| `Intake.State.Offer` | src/capture/wayland.rs:156-168 | Offers and transfers together stay within 64 |
| `Intake.State.Select` | src/capture/wayland.rs:170-178 | A selected offer leaves the map and starts a transfer unless it is the skipped initial one |
| `Intake.State.Start` | src/capture/wayland.rs:180-211 | A transfer starts exactly with a slot, an open gate, a type, budget and a pipe |
| `Intake.State.Advance` | src/capture/wayland.rs:230-247 | A blank transfer always has slot and budget for its fallback |
| `Intake.State.Receive` | src/capture/wayland.rs:213-228 | A round keeps all bounds and the byte balance, and equals the specified round |
| `Intake.State.RemoveSeat` | src/capture/wayland.rs:149-154 | Exactly the offers and transfers of the seat go, with their reservations |
| `Intake.State.JobDropped` | src/capture/transfer.rs:41-45 | Dropping a job releases its reservation |
| `Intake.RoundOfParts` | src/capture/wayland.rs:213-228 | Transfers keep their order and do not influence each other |
| `Intake.RoundLeaves` | src/capture/wayland.rs:213-247 | After a round exactly the running transfers and the fallbacks of blank ones are there, each fallback for the next type under the generation admitted then |
| `Intake.SubmittedCounts` | src/capture/wayland.rs:230-245 | Exactly the transfers that completed and that the queue took become jobs |
| `Intake.FallbacksFollowTheOffer` | src/capture/wayland.rs:230-232 | Blank fallbacks ask for the types of the offer in order, none twice, and end only when the types, the gate or the pipe do |

## Left out

- The SQL engine, its full-text tokenizer, write-ahead log, file permissions and lock files: a statement is an operation on whole tables, and a full-text match means that every quoted gram is a window of the indexed text.
- Content resolution, image decoding and file identity (src/history/content.rs, src/history/artifacts.rs): kind, resolved MIME, preview and local image of a payload are inputs of each mutation, because resolving them reads files. The search text, its width and the paths a payload names are arbitrary functions of MIME type and bytes.
- The `inline_echoes` table with its registration, clearing and bound of 4096: no other part of the store reads it.
- Database.Connection.WipeClosure: does not model the deletion of `inline_echoes`, because that table is left out.
- Database.Connection.RegisterClosure: does not model the bound of 128 bytes on the source identifier, because identifiers are numbers.
- Identifiers are numbers and a fresh UUID is one that was never issued; digests come from an arbitrary function; the cursor MAC is an injective seal (HMAC, section 2 of RFC 2104).
- The JSON and UTF-8 form of cursors and their 512-byte limit; the query-length check; the search semaphore and its busy answer.
- String lengths in the schema checks are counted in characters of the model, byte strings of MIME offers in bytes.
- Unicode case folding: needles and indexed text are taken as already lower-cased.
- Real time: a natural-number clock; progress is stated as what can be completed from every reachable state, not as what is completed under a fair schedule.
- References.CandidatesAreUnused: does not model the order and the LIMIT of the cleanup query, which only cut the list.
- Lock poisoning, wrap-around of the generation counter, and panics of the session thread while it holds the submission lock.
- Callers that drop a settings call in the middle: CaptureContract speaks of answered calls only. A dropped capture stop is modelled in CaptureController.
- A capture service other than the controller over the same store: Settings assumes that an acknowledged stop revoked storage admission and that a failed one is latched, which CaptureContract and CaptureSystem prove of the controller.
- An edit identifier is a fresh UUID: EditRuns and EditLeases never open one twice.
- The wipe challenge and receipt stamping of src/api.rs, the paste feedback and launch helpers of src/actions.rs, and the closed flag of src/history.rs: single-branch facts.
- An operation is registered only by a request that holds a reservation, as src/api/operations.rs:104-107 arranges for the two methods that can start one; operation identifiers are fresh.
- Publication to the clipboard after an edit, Wayland and D-Bus objects, editors, sockets and subprocesses.
- Operations.StatusUntilEvicted: counts the results retained by this registry; the broadcast channel that may lag behind is left out because receivers treat it as an invalidation only.
- Settings.CaptureRunsOnlySynchronized: speaks of a capture that may run; whether its worker thread is alive at a given moment is the subject of CaptureWorker.
