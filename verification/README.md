# A verified model of the memory service

This project models `services/memory-service`: the bi-temporal memory store, the delivery protocol that feeds it, and
the text algorithms that decide what reaches it. `dafny verify dfyconfig.toml` checks all of it.

A *row* is one memory: what it asserts, the half-open interval of world time for which it held, and a link to the row
that replaced it. A *key* is (tenant, kind, topic). Every kind but event supersedes: at most one of a key's rows is
*live*, that is open and not archived.

| module | models |
|---|---|
| `Text`, `Records` | strings as the Go library treats them; memories, episodes, keys |
| `Similarity`, `Topic` | word-set similarity, topic keys |
| `JsonScanner` | finding JSON in a completion |
| `Phrases` | what topic keys and content words are, read off a phrase given as its words and gaps |
| `Chunking`, `Merging`, `Folding`, `Verifying` | cutting bodies into windows, merging the two extraction passes, what each merged candidate is made of, screening candidates |
| `Database` | the tables, the SQL statements as updates of them, the schema's constraints |
| `Committing`, `Maintaining` | what commit, decay, consolidation and document deletion do, as lists of statements |
| `Timeline`, `AsOf`, `Convergence` | runs of commits seen from one key: coverage, as-of answers, order independence |
| `Effects` | what each writing operation leaves behind, field by field, in terms of the rows it found and what it was given |
| `History`, `Transactions` | the invariant, and that each statement and each transaction keeps it |
| `Refusals` | when the schema refuses a transaction that runs alone |
| `Sessions` | one transaction among others under READ COMMITTED: what it sees, which locks it takes, why nothing it read changes |
| `World` | any number of transactions, statement by statement, and of decay sweeps, interleaved: the theorems about all runs |
| `Contention`, `Revival` | exactly which statement of which transaction is refused; exactly when a decay write brings an archived row back |
| `Deletions` | document deletions among everything else: exactly which memories one closes |
| `Reachable`, `Scenarios` | runs that exist: a commit nobody hinders goes through; and for each thing that does not hold, a run in which it fails |
| `Store` | the store as an object that issues those statements, fails anywhere, and rolls back |
| `Delivery`, `Redelivery` | one delivery; all deliveries, with crashes, lost acknowledgements and overlaps |
| `Service` | deliveries together with the service's own maintenance: the store stays sound, and which deletions are lost |

Code that updates things in place is a class or a loop here (`Store`, `Pipeline`, `Consumer`, `DedupeInPlace`, the
scanners), proved against functions on values; the theorems are about those functions. A failing database is a
nondeterministic choice at each statement. Model answers, the clock and the summarizing model's text are parameters.

## What does not hold, and exactly when it does

- A topic key need not normalize to itself (`Topic.KeyIsStable`, `Topic.ClusterDns`). Searches normalize the key they
  are given once more, so for such a key, and no other, the consolidation job collects the memories of another topic
  (`Maintaining.GroupIsOnItsKeyIff`, `Scenarios.OtherTopicRead`).
- A summary's reader may be unable to read its members when group names carry surrounding blanks
  (`Maintaining.ReadersOfSummary`, `Maintaining.UntrimmedGroupLeaks`).
- Content is committed twice exactly when another commit of it lands between a call's check and its commit
  (`Redelivery.RepeatIff`, `Redelivery.OverlapCommitsTwice`).
- The history of a key overlaps after a run of commits exactly when some backfill of the run started before an older row
  ended (`Convergence.CommitsDisjointIff`, `Convergence.BackfillOverlaps`); three commits are enough
  (`Convergence.CommitsCanOverlap`).
- The unique index refuses a commit exactly when its lookup found no current row and another session has since made one
  live on the key (`Contention.CommitRefusedSince`, `Reachable.CommitsCollide`). A commit nobody hinders goes through
  (`Reachable.GoesThrough`), and no consolidation of a found group is ever refused
  (`Contention.ConsolidationNeverRefused`).
- The schema refuses a document deletion exactly when a memory it would close starts after its date
  (`Refusals.DeletionRefusedIff`). The date of a delete message is fixed, so it fails at every delivery that finds such
  a memory, and when its deliveries are spent it is lost (`Service.RefusedDeletionIsLost`,
  `Service.DeletionCanBeLost`).
- Deleting, one by one, all the documents a memory came from closes it exactly when there is just one
  (`Maintaining.AllRemovedClosesIff`, `Maintaining.RemovalsCloseIff`). Once it cites two, no deletion that decides from
  then on closes it, in any run (`Deletions.TwoSourcesAreSpared`, `Scenarios.TwoSourcesReached`).
- A decay write brings an archived row back exactly when it does not archive and another sweep's write, the last on that
  row since its own sweep scanned it, did (`Revival.RevivalIff`, `Reachable.SweepsRevive`). The unique index refuses it
  exactly when the key has another live row by then, which ends the sweep (`Revival.RevivalRefusedIff`,
  `Scenarios.StaleWriteRefused`).

## Where the comments and the code differ

The model follows the code. `Consolidate` is described as a union of permissions (maintenance.go:170-178) but
intersects them; `mergeStrings` is described as preserving order (store.go:262) but sorts;
`FindConsolidationGroups` is described as wanting more than minSize memories (maintenance.go:106) but is content with
minSize; `lockCurrent` is described as keeping two workers from both reading that nothing is current
(commit.go:258-262), but with no current row there is nothing to lock, and both do; `ExtractJSON` is described as
finding an object (llm.go:173) but takes an array too.

## Model

| member | source | states |
|---|---|---|
| `Delivery.Pipeline.Process` | services/memory-service/internal/pipeline/pipeline.go:61-155 | an error leaves the store as it was; content already logged is skipped untouched; otherwise the store is exactly one Commit of the verified candidates, never after a barren extraction, and the report counts every candidate once, carries the number of partial errors, and lists the ids, outcomes and supersessions of that Commit |
| `Delivery.ReportBalances` | services/memory-service/internal/store/commit.go:54-61 | what a commit reports adds up: one id per proposal, each counted under one outcome, one replaced row per supersession, older than the row reported for it |
| `Delivery.ReportExact` | services/memory-service/internal/store/commit.go:104-114 | the k-th id reported is the one the k-th proposal came to, reconciled with the store as the earlier ones left it; each outcome is counted exactly as often as it occurred; exactly the replaced rows are named, each with its successor |
| `Convergence.ProposalInFull` | services/memory-service/internal/pipeline/pipeline.go:88-112 | a proposal, field by field: the candidate as accepted, the episode's tenant and groups, salience 1, seen when the episode was said, ingested now |
| `Delivery.Consumer.constructor` | services/memory-service/internal/bus/consumer.go:73-75 | a delivery budget that is not positive becomes 5 |
| `Delivery.Consumer.Handle` | services/memory-service/internal/bus/consumer.go:176-247 | the verdict and the new store for every payload: poison and invalid messages terminated, thin ones acknowledged, a failed deletion retried; a failed episode terminated if and only if the metadata shows at least MaxDeliver deliveries, retried otherwise; every verdict but Ack leaves the store alone |
| `Redelivery.AckedIsCommitted` | services/memory-service/internal/pipeline/pipeline.go:61-127 | in every run with redeliveries, crashes and lost acknowledgements, an acknowledged extractable message has its (tenant, hash) in the ingest log, and what one step committed under it is exactly what the verifier accepted of an earlier extraction by the same worker |
| `Redelivery.CommitIsPrepared` | services/memory-service/internal/pipeline/pipeline.go:73-127 | every commit of every run, acknowledged or not, writes the accepted candidates of one earlier extraction by its worker, and logs how many were rejected |
| `Redelivery.RunNeverReinforcesItself` | services/memory-service/internal/store/commit.go:178-184 | in every run, whatever a commit reinforces existed before that commit |
| `Redelivery.TermedIsExhausted` | services/memory-service/internal/bus/consumer.go:212-226 | no message is delivered more than MaxDeliver times, and an extractable one is terminated only when all its deliveries are spent |
| `Redelivery.SettleExact` | services/memory-service/internal/bus/consumer.go:182-226 | settling a delivery touches its message only: acknowledged if and only if the verdict arrives and the job succeeded or was thin, terminated if and only if it arrives and the message was unusable, or its extraction failed with metadata showing the budget spent |
| `Redelivery.ExhaustedIsTermed` | services/memory-service/internal/bus/consumer.go:212-226 | in every run, settling a failed extractable delivery terminates its message if and only if that was its last delivery, with metadata, and the verdict arrives; otherwise it stays unsettled |
| `Redelivery.AckedDeleteRan` | services/memory-service/internal/bus/consumer.go:191-199 | a delete is never terminated, and acknowledged only after some step invalidated its document |
| `Redelivery.UninterruptedIsProcess` | services/memory-service/internal/pipeline/pipeline.go:61-127 | the protocol's check, extract and commit steps, taken without interruption on a sound store, do to the database what Process does |
| `Redelivery.FailureLeavesNoTrace` | services/memory-service/internal/pipeline/pipeline.go:56-60 | a job that failed, or is still under way, has changed nothing in the database since it arrived |
| `Redelivery.CommitLogs` | services/memory-service/internal/store/commit.go:122-135 | a commit enters exactly its own (tenant, hash) into the ingest log |
| `Redelivery.LoggedIffCommitted` | services/memory-service/internal/store/store.go:89-102 | the ingest log lists exactly the content that some step of the run committed |
| `Redelivery.RepeatIff` | services/memory-service/internal/pipeline/pipeline.go:64-127 | a commit repeats earlier content if and only if another commit of that content came between this call's check and its commit |
| `Redelivery.CommittedOnce` | services/memory-service/internal/store/store.go:89-92 | when no two calls on one content are between check and commit at once, nothing is committed twice, however often it is delivered |
| `Redelivery.OverlapCommitsTwice` | services/memory-service/internal/store/commit.go:126-132 | and it fails otherwise: any extractable message whose redelivery overtakes its first delivery is committed twice |
| `Service.StaysSound` | services/memory-service/internal/pipeline/pipeline.go:61-127 | in every run of deliveries whose other sessions are decay writes, consolidations of found groups and deletions, each decided on an earlier state, every state of the store satisfies the history invariant and the schema's constraints and contains every earlier state |
| `Service.ReadyCommitsLand` | services/memory-service/internal/store/commit.go:87-141 | in every such run a commit that is ready is accepted by the schema, taken as one step; as statements among other commits it may be refused, which is `Contention.CommitRefusedSince` |
| `Service.DeletionLandsIff` | services/memory-service/internal/store/query.go:421-485 | in every such run a deletion goes through if and only if no memory it would close starts after its date |
| `Service.AckedDeleteFits` | services/memory-service/internal/bus/consumer.go:191-199 | a dated delete message is acknowledged only if at one of its deliveries no memory it would close started after its date |
| `Service.RefusedDeletionIsLost` | services/memory-service/internal/bus/consumer.go:191-199 | a dated delete message that meets such a memory at each of its deliveries changes nothing and ends neither acknowledged nor terminated |
| `Service.DeletionCanBeLost` | services/memory-service/migrations/0001_memory.sql:69-72 | and such a run exists for any message that yields one memory and any deletion of its document dated before that memory starts |
| `World.OneCurrentAlways` | services/memory-service/internal/store/commit.go:215-232 | in every run, with any number of transactions and decay sweeps in flight and after every single statement: at most one live row per superseding key, only closed rows linked, no decision or instruction archived, in the committed state and in the state each transaction sees |
| `World.LinksAlwaysEnd` | services/memory-service/internal/store/commit.go:189-240 | in every run, following superseded_by from any row never cycles and ends at a row without a successor |
| `World.HistoryOnlyGrows` | services/memory-service/internal/store/commit.go:189-358 | between any two points of a run: no row is lost; what it asserts, when it began and each attribute value it has never change; its confidence and last sighting never fall; an end once set stays; a state row's successor stays; citations, ledger lines and the documents of episodes stay |
| `World.LedgerMatchesLinks` | services/memory-service/internal/store/commit.go:189-246 | in every run, a superseded state row ends exactly where its successor begins and exactly one ledger line names the pair, with that same end |
| `World.EverythingIsCited` | services/memory-service/internal/store/maintenance.go:247-256 | in every run each row cites an episode, and a summary cites exactly what its members cite and carries exactly their common trimmed groups |
| `World.SummaryReaders` | services/memory-service/internal/store/maintenance.go:170-198 | in every run, whoever can read a summary can read everything folded into it if and only if each common group, trimmed, is a group of every member |
| `World.OnlyEventsConsolidate` | services/memory-service/internal/store/maintenance.go:113-167 | in every run, keys listed in one reachable state and members read in another: the consolidation scan finds only events |
| `World.DecayCommutes` | services/memory-service/internal/store/maintenance.go:83-93 | a decay write and another session's statement commute unless the statement reinforces the decayed row |
| `World.CommitsAreSerial` | services/memory-service/internal/store/commit.go:87-141 | whatever commits and sweeps interleave with it, a commit leaves exactly what it would have left alone on the state committed just before |
| `World.SinglesAreSerial` | services/memory-service/internal/store/maintenance.go:179-275 | a consolidation or deletion takes effect whole on the state committed just before, with the group or the rows it had read |
| `Sessions.TxStays` | services/memory-service/internal/store/commit.go:263-281 | what other sessions commit around a transaction's locks changes nothing it has read and nothing it is sure of |
| `Sessions.WriteIsSerial` | services/memory-service/internal/store/commit.go:87-141 | the state a commit sees when it is done is Commit applied to whatever is committed by then |
| `Contention.CommitRefusedIff` | services/memory-service/migrations/0001_memory.sql:79-81 | a statement of a commit is refused by a constraint if and only if its lookup found no current row, the new row is next, and the key has a live row now |
| `Contention.CommitRefusedSince` | services/memory-service/internal/store/commit.go:258-281 | over whole runs: if and only if the lookup, or the wait it ended, found no current row and a row made live on the key after that lookup began is live still |
| `Contention.RaisedByAnother` | services/memory-service/internal/store/commit.go:258-262 | and that row was made live by another transaction's commit or by a decay write |
| `Contention.SingleRefusedIff` | services/memory-service/migrations/0001_memory.sql:69-72 | a consolidation or deletion is refused if and only if its first statement would end a row before that row began |
| `Contention.ConsolidationNeverRefused` | services/memory-service/internal/store/maintenance.go:211-220 | which never happens to a consolidation closed no earlier than the scan that found its group, in any run |
| `Revival.RevivalIff` | services/memory-service/internal/store/maintenance.go:39-93 | a decay write revives its row if and only if it does not archive and the last of the writes that landed on the row since its sweep's scan is another sweep's and archives |
| `Revival.RevivalRefusedIff` | services/memory-service/internal/store/maintenance.go:83-93 | over whole runs: a decay write that need not wait is refused, and ends its sweep, if and only if it does not archive, its state row is open, another sweep's archiving write is the last that landed on the row since the scan, and the key has another live row |
| `Revival.WriteRefusedIff` | services/memory-service/migrations/0001_memory.sql:79-81 | and in any state: if and only if it would revive its row while the key has another live one |
| `Revival.FlagTracks` | services/memory-service/internal/store/maintenance.go:83-87 | a row is archived exactly when the last decay write to it archived it: nothing else changes the flag of a committed row |
| `Revival.OneSweepNeverRevives` | services/memory-service/internal/jobs/jobs.go:76-93 | with at most one sweep in flight at a time archiving is final |
| `Reachable.GoesThrough` | services/memory-service/internal/store/commit.go:87-141 | a commit of any proposals in range goes through when no other transaction holds a lock, whatever is current |
| `Reachable.SerialIsReached` | services/memory-service/internal/store/commit.go:87-141 | every serial history of commits is the committed state of some run |
| `Reachable.StatesRun` | services/memory-service/internal/store/commit.go:87-141 | whatever a list of events leads to from the start is reached by a run: the states along the events are one |
| `Reachable.CommitsCollide` | services/memory-service/internal/store/commit.go:258-262 | of any two commits on one superseding key, in an empty store, the one that looks first and inserts last is refused and leaves nothing |
| `Reachable.SweepsRevive` | services/memory-service/internal/store/maintenance.go:39-93 | for any memory whose decay crosses the floor between two scans, the earlier scan's write, landing last, brings the archived row back |
| `Scenarios.StaleWriteRefused` | services/memory-service/internal/store/maintenance.go:83-87 | and if a commit puts a new memory on the key first, the index refuses that write, its sweep ends and the row stays archived |
| `Scenarios.FallsSoon` | services/memory-service/internal/store/maintenance.go:69-75 | any fresh memory that may be archived is such a memory for some decay |
| `Scenarios.OtherTopicRead` | services/memory-service/internal/store/maintenance.go:113-167 | for every threshold from 2 to 100, a run in which the consolidation job lists "cluster-dns" and reads a group wholly on "cluster-dn" |
| `Scenarios.TwoSourcesReached` | services/memory-service/internal/store/query.go:463-474 | any memory asserted by commits from two documents is reached by a run, and no list of deletions closes it |
| `Scenarios.OneWord` | services/memory-service/internal/memory/similarity.go:27-41 | a lower-case word that is no stopword is its own one content word, so such memories exist |
| `Deletions.DeletionClosesIff` | services/memory-service/internal/store/query.go:421-485 | in every run, a deletion that commits has closed an open memory if and only if it cited the document when the deletion began and had no other source when the deletion decided; all else about the row is as it was |
| `Deletions.TwoSourcesAreSpared` | services/memory-service/internal/store/query.go:460-474 | in every run, a row that cites two documents is left as it is by each deletion that decides from then on |
| `Deletions.DeletionLogs` | services/memory-service/internal/store/query.go:479-483 | in every run, a deletion that commits appends to the ledger one line for each row that cited the document when the deletion began, closed by it or not, and nothing else |
| `Transactions.StmtKeepsInv` | services/memory-service/migrations/0001_memory.sql:72-82 | no statement that meets its needs trips the unique index or the link check, or closes a cycle |
| `Transactions.CommitOneSafe` | services/memory-service/internal/store/commit.go:143-256 | each statement of commitOne finds what it needs: the current row is closed before its successor is inserted, and the successor open when linked |
| `Transactions.CommitOneKeepsInv` | services/memory-service/internal/store/commit.go:143-256 | commitOne keeps index, links, ledger, citations and summaries, and only adds to history |
| `Transactions.ConsolidateKeepsInv` | services/memory-service/internal/store/maintenance.go:179-275 | so does Consolidate, on a group however stale |
| `Transactions.InvalidateKeepsInv` | services/memory-service/internal/store/query.go:421-485 | so does a document deletion without purge |
| `Transactions.ConsolidationReplaces` | services/memory-service/internal/store/maintenance.go:211-245 | a consolidation ends the open members, keeps the ends of closed ones, links them all to the one new row and leaves every other row alone |
| `History.LinksEnd` | services/memory-service/internal/store/commit.go:222-240 | links that always point to a row open when they are written cannot cycle; the ghost stamp of a row is when it was closed |
| `Refusals.CommitNeverRefused` | services/memory-service/migrations/0001_memory.sql:57-82 | no statement of a Commit that runs alone, of any proposals in range, is refused by the unique index or by an interval, link or range check, and the store stays sound |
| `Refusals.VerifiedNeverRefused` | services/memory-service/internal/verify/verify.go:110-122 | what the verifier accepts is always in range, so a commit of it that runs alone is not refused and keeps the store sound |
| `Refusals.DeletionRefusedIff` | services/memory-service/migrations/0001_memory.sql:69-72 | a document deletion is refused if and only if some memory it would close began after the deletion time |
| `Refusals.LateStartRefusesDeletion` | services/memory-service/migrations/0001_memory.sql:69-72 | one commit of one memory and a deletion of its document dated before the memory starts: refused |
| `Refusals.ConsolidationRefusedIff` | services/memory-service/migrations/0001_memory.sql:57-72 | for any group and summary, found or not: a consolidation is refused if and only if a still open member began after the closing time or the summary's confidence is out of range |
| `Refusals.FoundGroupAccepted` | services/memory-service/internal/store/maintenance.go:113-220 | neither happens to the service: a group whose key was listed and whose members were read in earlier states, closed after the scan, with a confidence in range, is consolidated without refusal |
| `Maintaining.SummaryConfidence` | services/memory-service/internal/jobs/jobs.go:163-173 | the confidence stored with a summary is the answered one when in (0, 1], else the least of the members', so it is in range when theirs are |
| `Store.Store.AlreadyProcessed` | services/memory-service/internal/store/store.go:93-102 | answers whether the content is in the ingest log, or fails |
| `Store.Store.LockCurrent` | services/memory-service/internal/store/commit.go:263-281 | returns the live row of the key |
| `Store.Store.InsertMemory` | services/memory-service/internal/store/commit.go:283-325 | adds the row with its defaults and returns its id |
| `Store.Store.Reinforce` | services/memory-service/internal/store/commit.go:327-358 | writes the reinforcement and the citation of the proposal, in that order; `Effects.ReinforcedInFull` says what that leaves |
| `Store.Store.CommitOne` | services/memory-service/internal/store/commit.go:143-256 | statement by statement, does what the plan for the proposal says and reports its outcome |
| `Store.Store.Create` | services/memory-service/internal/store/commit.go:148-173 | a new open row, cited |
| `Store.Store.FileIntoHistory` | services/memory-service/internal/store/commit.go:185-207 | an older assertion becomes a closed row that ends where the current one begins, linked to it and recorded |
| `Store.Store.Replace` | services/memory-service/internal/store/commit.go:209-256 | closes the current row, inserts, cites, links, records, in that order |
| `Store.Store.Commit` | services/memory-service/internal/store/commit.go:87-141 | all or nothing: an error restores the state before; success reconciles the proposals in order and reports ids, outcome counts and replacements |
| `Store.Store.ApplyDecay` | services/memory-service/internal/store/maintenance.go:33-95 | writes the scanned updates one by one; whether or not it fails, the state is the one after the reported number of writes, and all scanned rows are counted unless the scan itself fails; `Effects.SweptInFull` says what a complete sweep leaves |
| `Store.Store.Consolidate` | services/memory-service/internal/store/maintenance.go:179-275 | refuses fewer than two members or no common group; otherwise all statements of the plan or none; `Effects.ConsolidatedInFull` says what they leave |
| `Store.Store.InvalidateByDocument` | services/memory-service/internal/store/query.go:421-485 | closes the orphans of the document and writes the ledger lines, or changes nothing; returns how many it closed; `Effects.DeletedInFull` says which rows those are |
| `Store.Restates` | services/memory-service/internal/store/commit.go:469-479 | the restatement test: no shared attribute disagrees, same task status, at least 0.8 similar |
| `Store.MergeAttributes` | services/memory-service/internal/store/commit.go:488-499 | the loop adds the incoming attributes the current map lacks; `Effects.ReinforcedInFull` says what that makes of a row |
| `Store.SummaryOf` | services/memory-service/internal/store/maintenance.go:194-209 | the loop over the members builds the specified summary row; `Effects.ConsolidatedInFull` says what is in it |
| `Committing.CreateShape` | services/memory-service/internal/store/commit.go:148-173 | creating adds one open row and its citation, nothing else |
| `Committing.ReinforceShape` | services/memory-service/internal/store/commit.go:175-183 | reinforcing changes the current row only and adds its citation; what it makes of the row is `Effects.ReinforcedInFull` |
| `Committing.BackfillShape` | services/memory-service/internal/store/commit.go:185-207 | a backfill leaves the current row alone and adds a row closed at the current row's start, with link, citation and ledger line |
| `Committing.SupersedeShape` | services/memory-service/internal/store/commit.go:209-256 | a supersession closes and links the current row, adds the new one open, cites it and records the pair |
| `Effects.OutcomeIff` | services/memory-service/internal/store/commit.go:143-256 | which way commitOne goes: created if and only if the kind is event or nothing is current, reinforced if and only if the current row says the same, backfilled or superseding by who starts first; and the id it reports |
| `Effects.CreatedInFull` | services/memory-service/internal/store/commit.go:148-173 | every field of the new row, its citation, and that nothing else changes |
| `Effects.ReinforcedInFull` | services/memory-service/internal/store/commit.go:327-370 | the reinforced row: every attribute of old row and proposal, old values winning, and no other; exactly the trimmed subjects and groups of both; the greater confidence; salience a quarter higher, up to 2; the later sighting; unarchived; all else as it was, and no other row touched |
| `Effects.BackfilledInFull` | services/memory-service/internal/store/commit.go:185-207 | every field of the row filed into history, its link, citation and ledger line |
| `Effects.SupersededInFull` | services/memory-service/internal/store/commit.go:209-256 | every field of the successor, the end and link of the row it replaces, citation and ledger line; no other row changes |
| `Effects.CommitBooks` | services/memory-service/internal/store/commit.go:92-135 | the episode table and the ingest log after a commit: what is entered, what a known episode takes over, and that counts of repeated content add up |
| `Committing.MergeLists` | services/memory-service/internal/store/store.go:263-279 | the sorted union of both lists, trimmed, without blanks or repetitions |
| `Committing.MergeStringsExact` | services/memory-service/internal/store/store.go:263-279 | it holds exactly the trimmed non-blank strings of both lists, in order |
| `Database.FindLiveExact` | services/memory-service/internal/store/commit.go:258-281 | under the unique index lockCurrent finds the live row of a superseding key if there is one, and no other |
| `Timeline.RunReplays` | services/memory-service/internal/store/commit.go:87-141 | what a run of Commits leaves in the rows depends only on the order of its proposals |
| `Timeline.TimelineHasNoGaps` | services/memory-service/internal/memory/memory.go:204-209 | in every run of Commits, backfills included, a superseding key is held at a time if and only if some row had started by then, and from the current row's start on that row alone is valid |
| `AsOf.AsOfRefinesLog` | services/memory-service/internal/store/query.go:74-79 | without backfills the as-of filter returns nothing before the first assertion and afterwards exactly the row of the last logged assertion that had started: the interval store refines an append-only log |
| `AsOf.AsOfAfterDecay` | services/memory-service/internal/store/query.go:71-79 | and whatever decay writes follow, the filter still returns that row, unless it is archived by then: in that case nothing |
| `Convergence.StepKeepsOneLive` | services/memory-service/internal/store/commit.go:209-240 | every outcome of commitOne leaves at most one live row per superseding key |
| `Convergence.StepResolves` | services/memory-service/internal/store/commit.go:178-254 | after commitOne the current assertion of the key is the restated one, the newer one, or the old one when the arrival is older |
| `Convergence.LatestWins` | services/memory-service/internal/store/commit.go:185-254 | among assertions that disagree, the one with the latest start is current in the end, whatever the order of arrival |
| `Convergence.OrderIndependent` | services/memory-service/internal/store/commit.go:178-254 | permuting disagreeing assertions with different starts does not change what ends up current |
| `Convergence.BackfillOverlaps` | services/memory-service/internal/store/commit.go:189-192 | on a disjoint history a backfill keeps intervals disjoint if and only if no older row reached past the backfilled start |
| `Convergence.HistoryDisjointIff` | services/memory-service/internal/store/commit.go:185-246 | over a whole run of arrivals: the history of a key is disjoint in the end if and only if no backfill of the run started before an older row ended |
| `Convergence.CommitsDisjointIff` | services/memory-service/internal/store/commit.go:87-246 | the same of a run of commits |
| `Convergence.LateArrivalOverlaps` | services/memory-service/internal/store/commit.go:185-207 | three assertions that disagree in turn, the last to arrive starting between the other two: disjoint after two, overlapping after three |
| `Convergence.CommitsCanOverlap` | services/memory-service/internal/store/commit.go:185-207 | three commits into an empty store, starting at 0, 10 and 5, leave two rows of one decision valid at 5 |
| `Convergence.NeverReinforcesItself` | services/memory-service/internal/store/commit.go:469-479 | a commit of verified candidates never reinforces a row it inserted itself |
| `Maintaining.ScanForDecay` | services/memory-service/internal/store/maintenance.go:33-81 | the scan collects the specified updates in row order and counts the rows it looked at; `Effects.SweptInFull` says what the updates do |
| `Maintaining.SweepIsPointwise` | services/memory-service/internal/store/maintenance.go:33-95 | an uninterrupted sweep treats each row by itself and changes no other table; what it makes of a row is `Effects.SweptInFull` |
| `Effects.SweptInFull` | services/memory-service/internal/store/maintenance.go:33-95 | for each row and p = its stored salience times the factor for its kind and age: if it is live, of the tenant, and p is at least 0.001 away, it gets p and is archived if and only if p is below the floor (0.15 by default) and it is neither decision nor instruction; otherwise it is as it was |
| `Effects.SweepLowers` | services/memory-service/internal/store/maintenance.go:69-75 | a sweep never raises a salience and never makes one negative |
| `Effects.ScannedIsLive` | services/memory-service/internal/store/maintenance.go:39-66 | the number reported as scanned is the number of the tenant's live rows |
| `Effects.ArchivedIsCount` | services/memory-service/internal/store/maintenance.go:83-95 | the number reported as archived is the number of archiving writes |
| `Maintaining.GroupsAreEvents` | services/memory-service/internal/store/maintenance.go:113-167 | under the unique index a found group is a group of events, whatever happened between listing its key and reading its members: the threshold is at least 2 |
| `Effects.FoundIff` | services/memory-service/internal/store/maintenance.go:113-167 | which groups can be found, both ways: at least minSize live rows on the key when it was listed (five when fewer than two are asked for), and that many different members, up to a hundred, of the tenant and kind, not archived, valid at the time, on the topic normalized once more |
| `Maintaining.GroupIsOnItsKeyIff` | services/memory-service/internal/store/maintenance.go:150-164 | the members found for a topic are on that topic if and only if its key normalizes to itself |
| `Effects.ConsolidatedInFull` | services/memory-service/internal/store/maintenance.go:194-275 | the store after a consolidation, on whatever it has become since the group was read: the summary starts at the earliest of the members' starts and its own, has exactly the trimmed subjects of all and the trimmed groups common to all; members end and link to it; it cites what they cite in their words; one ledger line per member; nothing else changes |
| `Effects.RefusedIff` | services/memory-service/internal/store/maintenance.go:180-192 | a consolidation is turned down if and only if it has fewer than two members, or no group common to all of them is left after trimming |
| `Maintaining.SharedAclGroups` | services/memory-service/internal/store/maintenance.go:278-302 | the intersection loop computes the specified list whatever order the map yields |
| `Maintaining.SharedAclExact` | services/memory-service/internal/store/maintenance.go:278-302 | a group is on the summary if and only if it is the non-blank trimmed form of a group on every member |
| `Maintaining.MergeIgnoresOrder` | services/memory-service/internal/store/maintenance.go:297-301 | the order in which the map yields the shared groups does not matter |
| `Maintaining.ReadersOfSummary` | services/memory-service/internal/store/maintenance.go:170-185 | every reader of the summary can read every member if and only if each common group, trimmed, is on every member |
| `Maintaining.CleanGroupsKeepPermissions` | services/memory-service/internal/store/maintenance.go:173-178 | with group names free of surrounding blanks a summary never widens access |
| `Maintaining.UntrimmedGroupLeaks` | services/memory-service/internal/store/maintenance.go:278-302 | with a padded group name it does: a reader of the summary who can read neither member |
| `Maintaining.DeletionLedgerExact` | services/memory-service/internal/store/query.go:479-483 | for any set of rows, the ledger lines written name each of them below n once, in order, and no other; `Effects.DeletedInFull` says which rows those are |
| `Maintaining.DeletionClosesOrphans` | services/memory-service/internal/store/query.go:463-485 | after a deletion no open memory is left whose sources all lie in the document; those that were end at the given time, and no other row, citation or episode changes |
| `Effects.DeletedInFull` | services/memory-service/internal/store/query.go:421-485 | the store after a document deletion: exactly the open rows of the tenant that cite the document and no other end at the given time; the ledger gains one line for every row that cites the document, ended or not, with that time and no successor, and nothing else; nothing else changes |
| `Effects.ReportedIsClosed` | services/memory-service/internal/store/query.go:463-485 | the number a deletion reports is the number of rows it changed |
| `Maintaining.TwoSourcesOutliveBoth` | services/memory-service/internal/store/query.go:463-474 | deleting its two documents one after the other never closes a memory |
| `Maintaining.RemovalsExact` | services/memory-service/internal/store/query.go:421-485 | after any list of deletions a row ends at the time of the first document of the list that alone supported it, or is as it was; no citation and no episode changes |
| `Maintaining.RemovalsCloseIff` | services/memory-service/internal/store/query.go:463-474 | so an open memory is closed if and only if one of the deleted documents alone supported it |
| `Maintaining.AllRemovedClosesIff` | services/memory-service/internal/store/query.go:460-474 | when all its documents are deleted, a memory is closed in the end if and only if it had exactly one |
| `JsonScanner.ExtractJSON` | services/memory-service/internal/llm/llm.go:176-218 | the whole extraction equals the specification, errors included |
| `JsonScanner.Unfence` | services/memory-service/internal/llm/llm.go:178-186 | what is left after cutting a code fence |
| `JsonScanner.ScanFrom` | services/memory-service/internal/llm/llm.go:187-217 | the bracket scanner's loop equals the recursive scanner |
| `JsonScanner.ScansRoot` | services/memory-service/internal/llm/llm.go:191-216 | from its first bracket on the scanner consumes a printed object or array exactly, whatever follows |
| `JsonScanner.ExtractsBare` | services/memory-service/internal/llm/llm.go:176-218 | any JSON object or array printed by RFC 8259 comes back unchanged out of prose without brackets and any trailer, when there is no fence |
| `JsonScanner.ExtractsFenced` | services/memory-service/internal/llm/llm.go:178-218 | and out of a fenced block after any prose and language tag, whatever follows the closing fence |
| `JsonScanner.TruncatedIsRefused` | services/memory-service/internal/llm/llm.go:192-217 | an object or array that breaks off anywhere before its end is an error, whatever it holds until then |
| `JsonScanner.TruncatedBlockIsRefused` | services/memory-service/internal/llm/llm.go:178-217 | also inside a fenced block that is never closed, with any language tag |
| `JsonScanner.NoJsonIff` | services/memory-service/internal/llm/llm.go:187-190 | without a fence, no JSON is found if and only if the completion has no bracket |
| `Chunking.ChunkBody` | services/memory-service/internal/extract/chunk.go:33-71 | the chunker equals its specification and terminates |
| `Chunking.CutWindows` | services/memory-service/internal/extract/chunk.go:42-71 | its loop appends exactly the windows of the recursive cut |
| `Chunking.CutIsPreferred` | services/memory-service/internal/extract/chunk.go:73-91 | for any list of terminators, a cut falls right after the last occurrence, past the middle, of the first one that has any |
| `Chunking.CutInFull` | services/memory-service/internal/extract/chunk.go:73-91 | the list written out: paragraph break, full stop and space, full stop and line break, question mark, exclamation mark, line break, space; without any past the middle, the limit |
| `Chunking.LongBodyTiled` | services/memory-service/internal/extract/chunk.go:42-71 | windows cover a long body from end to end, overlap by exactly 800, end at the preferred cut before 10,000 (or with the body when less than 1,200 would be left), are numbered in order and hold the trimmed text; all but the last span 5,002 to 10,000, the last 2,000 to 11,199 |
| `Chunking.SpanInOneChunk` | services/memory-service/internal/extract/chunk.go:13-16 | every span of up to 801 lies inside one window |
| `Chunking.LongerSpanIsCut` | services/memory-service/internal/extract/chunk.go:42-71 | 801 is exact: every inner boundary cuts some span of 802 in every window |
| `Chunking.ChunkCount` | services/memory-service/internal/extract/chunk.go:42-71 | k windows suffice for 10,000 + 4,202 (k - 1) |
| `Chunking.CapDropsNothing` | services/memory-service/internal/extract/extract.go:142-146 | the cap of 12 drops nothing from a body of up to 56,222, and each short span of it reaches the model whole |
| `Merging.Dedupe` | services/memory-service/internal/extract/extract.go:326-352 | the deduplication loop equals its specification |
| `Merging.FillMissing` | services/memory-service/internal/extract/extract.go:296-300 | attributes are added only under keys not yet there |
| `Merging.MergePasses` | services/memory-service/internal/extract/extract.go:277-321 | the merge of the two passes equals its specification |
| `Folding.MergedInFull` | services/memory-service/internal/extract/extract.go:277-321 | the merged list, in full: which candidates of each pass survive deduplication and what each survivor has gathered, which of them stand in the result, in order, and what each has taken in |
| `Folding.DedupedInFull` | services/memory-service/internal/extract/extract.go:326-366 | who survives: whoever says none of the earlier survivors again (same key; same text but for case, or 85 in 100 content words shared); the others go into the first survivor they repeat, which keeps its own text, shows each attribute with the first value given and the highest confidence |
| `Folding.GraftedInFull` | services/memory-service/internal/extract/extract.go:281-312 | a grafted candidate keeps the kind, topic, statement, subjects, status, chunk and start of the first on its key, takes every attribute of the details with the first value given, the highest confidence and the first of the longest quotes, and is marked merged; all other candidates are as they were |
| `Folding.BeforeIff` | services/memory-service/internal/extract/extract.go:314-320 | the order of the result is that of the kinds' names, then of the topics |
| `Merging.MergeConserves` | services/memory-service/internal/extract/extract.go:277-321 | no (kind, topic), no attribute key of one and no maximum of confidence is lost, and no attribute value is invented |
| `Merging.MergeCount` | services/memory-service/internal/extract/extract.go:281-312 | a key the broad pass found keeps its deduplicated candidates, a key only the detail pass found gets exactly one, no other key appears |
| `Merging.MergeInOrder` | services/memory-service/internal/extract/extract.go:314-320 | the result is ordered by kind, then topic |
| `Merging.DedupeIdempotent` | services/memory-service/internal/extract/extract.go:326-352 | deduplicating twice is deduplicating once |
| `Merging.FoldedTogether` | services/memory-service/internal/extract/extract.go:354-366 | candidates folded into one survivor are on one key and, if both have content words, at least 0.7 similar, the verifier's own threshold |
| `Verifying.CheckRedundancy` | services/memory-service/internal/verify/verify.go:382-392 | fails exactly when an accepted candidate on the key is at least 0.7 similar |
| `Verifying.VerifyAll` | services/memory-service/internal/verify/verify.go:110-122 | the screening loop equals its specification |
| `Verifying.AcceptedAreDistinct` | services/memory-service/internal/verify/verify.go:110-122 | accepted candidates on one key are pairwise below 0.7, with confidence in range |
| `Verifying.EveryCandidateJudged` | services/memory-service/internal/verify/verify.go:110-122 | a candidate is accepted if and only if it passes its own checks and shares less than seven tenths of the content words with each one on its key accepted before it; accepted ones keep everything but their confidence, which is lowered by the penalty and kept in [0, 1]; the others are rejected unchanged; order is kept |
| `Verifying.RejectionsHaveACause` | services/memory-service/internal/verify/verify.go:134-166 | a rejected candidate failed one of its own checks or restates an accepted one |
| `Similarity.CollectContentWords` | services/memory-service/internal/memory/similarity.go:27-41 | the content words are the lower-cased, trimmed, stopword-free fields |
| `Phrases.ContentWordsOfPhrase` | services/memory-service/internal/memory/similarity.go:27-41 | for a statement written as words with punctuation around them and blanks between them: the content words are the words in lower case, without that punctuation, that are no stopwords |
| `Similarity.ComputeSimilarity` | services/memory-service/internal/memory/similarity.go:45-61 | shared words over all words of both; 0 when either has none |
| `Similarity.JaccardAtLeast` | services/memory-service/internal/memory/similarity.go:45-61 | a similarity reaches a threshold if and only if both statements have content words and the shared ones number at least that part of all |
| `Similarity.ComputeOverlap` | services/memory-service/internal/memory/similarity.go:66-79 | the share of the first statement's words that the second has |
| `Similarity.OverlapAtLeast` | services/memory-service/internal/memory/similarity.go:66-79 | the overlap reaches a threshold if and only if the first statement has content words and that part of them are the second's too |
| `Similarity.JaccardRange` | services/memory-service/internal/memory/similarity.go:43-61 | similarity lies in [0, 1], and is 1 only for equal word sets |
| `Similarity.JaccardSymmetric` | services/memory-service/internal/memory/similarity.go:45-61 | similarity does not depend on the order of its arguments |
| `Similarity.TriangleInequality` | services/memory-service/internal/memory/similarity.go:45-61 | Jaccard distance obeys the triangle inequality on non-empty word sets |
| `Similarity.CloseToCommon` | services/memory-service/internal/extract/extract.go:362-365 | two word sets each 0.85 similar to a third are at least 0.7 similar |
| `Topic.Tokenize` | services/memory-service/internal/memory/topic.go:122-147 | the tokenizer's loop equals its specification |
| `Phrases.TokensOfPhrase` | services/memory-service/internal/memory/topic.go:122-147 | for a phrase written as words, with hyphens, dots, underscores, slashes and apostrophes around them, possessives, and any separators between them: the tokens are the words, in order, in lower case, without any of that |
| `Topic.KeepTokens` | services/memory-service/internal/memory/topic.go:56-63 | drops stopwords and singularizes the rest, in order |
| `Topic.DedupeInPlace` | services/memory-service/internal/memory/topic.go:178-189 | the in-place compaction leaves the first occurrences in front |
| `Topic.Normalize` | services/memory-service/internal/memory/topic.go:55-73 | the key built by the loops is the specified one |
| `Phrases.KeyInFull` | services/memory-service/internal/memory/topic.go:55-73 | the key joins with hyphens, in strict order, exactly the folded tokens that are no stopwords, or all tokens when every one is a stopword |
| `Phrases.PluralsFold` | services/memory-service/internal/memory/topic.go:161-176 | for every stem without a digit: -sses, -shes and -ches lose "es", -ies becomes -y, or -ie after a single letter |
| `Phrases.OtherEndings` | services/memory-service/internal/memory/topic.go:161-176 | any other word of four letters or more loses a final s unless it follows s, u or i |
| `Phrases.LeftAlone` | services/memory-service/internal/memory/topic.go:149-164 | words of up to three letters and words with a digit are left alone |
| `Topic.KeyDependsOnTokenSet` | services/memory-service/internal/memory/topic.go:11-22 | the key depends only on the set of tokens it is made of |
| `Topic.SingularizeIdempotent` | services/memory-service/internal/memory/topic.go:161-176 | folding a plural twice changes nothing more |
| `Topic.KeyIsStable` | services/memory-service/internal/memory/topic.go:55-73 | for every phrase: normalizing its key again returns it if and only if the key is empty, or has no separator and no possessive at an end and is a stopword, carries a digit, has at most three letters or does not end like a foldable plural |
| `Topic.AtRiskIsShort` | services/memory-service/internal/memory/topic.go:161-176 | only a last token of at most three letters puts a key at risk |
| `Topic.ClusterDns` | services/memory-service/internal/memory/topic.go:55-73 | "cluster dns" gives the key "cluster-dns", which normalizes to "cluster-dn" |
| `Delivery.ExtractableIff` | services/memory-service/internal/contentevent/contentevent.go:86-147 | a message reaches extraction exactly when it is an upsert with every required field and at least 80 runes of trimmed body; neither that nor its (tenant, hash) depends on when it is handled |
| `Delivery.OtherwiseIff` | services/memory-service/internal/bus/consumer.go:182-210 | a message is terminated exactly when it cannot be decoded or is no delete and lacks a required field or has an unknown op; acknowledged unprocessed exactly when it is a valid upsert of under 80 runes; and a deletion exactly when it says so, valid or not |
| `Delivery.EpisodeInFull` | services/memory-service/internal/contentevent/contentevent.go:107-147 | the episode of an extractable message, field by field: known by tenant and content hash, title and body trimmed, the source's groups, dated when it occurred |

## Left out

- Refusals.CommitNeverRefused: is about a commit that runs alone, as `Contention.CommitRefusedSince` is about one among others; asks that confidences lie in [0, 1] and saliences are not negative, which is what the schema asks of its callers; `Refusals.VerifiedNeverRefused` shows that the pipeline's always are.
- World.OneCurrentAlways: leaves out the waits of two sessions that write the same episode or ingest-log line, and deadlocks, which only end transactions; so more interleavings are possible in the model than in the database. Waiting for the unique index is modelled: a statement waits while another session has put a row on the key or closed the one that is there.
- World.SinglesAreSerial: a deletion decides which rows to close in a step of its own, any number of times before it writes, where the database decides in the statement that writes; every order the database allows is among them.
- Transactions.ConsolidateKeepsInv: is stated for groups of events whose permissions have not changed since the scan; in `World` every group read in any run is one.
- Maintaining.ScanForDecay: takes 0.5 to the power of elapsed time over half-life as a function of kind and elapsed time; the theorems about runs ask only that it lies between 0 and 1.
- Maintaining.DeletionLedgerExact: lists citing rows in ascending order, where the database returns them in any order.
- Verifying.VerifyAll: takes the seven checks that look at one candidate and its episode only as a parameter; the redundancy check is modelled in full.
- Redelivery.AckedIsCommitted: treats redelivery timing as arbitrary (a message may be delivered again at any moment until its budget is spent), a commit as one step, and other sessions as any statements that leave the ingest log alone and break no constraint; the statements of commits interleave in `World`.
- Store.Store.Commit: does not include the expertise edges and the rejection table, which it writes without reading.
- The purge branch of document deletion; with it, "rows are never deleted" would not hold.
- SQL ranking and text search, limits and orders of result lists; only the row predicates of searches are modelled.
- The graph projection, the message broker's client, HTTP, configuration and retry loops of the LLM client.
- Prompts, rendering and decoding of model answers; an extraction is any list of candidates with any number of errors.
- UTF-8: text is a sequence of characters, one per byte, and letters are ASCII; lengths in bytes and in runes coincide. The typographic apostrophe is not treated like the ASCII one.
- Floating point: confidences, saliences and ratios are exact reals.
- Sharing of attribute maps between candidates; each candidate has its own map.
- Which quote a summary inherits when several members cite one episode: the database may pick any, the model picks the lowest-numbered row's.
- The uniqueness of (tenant, content hash) among episodes, which could only fail for tenants whose names contain a colon.
- A consumer without a deleter, which acknowledges deletes without doing anything; the service always has one.
- Timeline, History, Experts and the other read endpoints, and topic overlap, which only filter and sort.
