# Sermon library: verified models

Dafny models of the parts of the repository that hold state, loop, or do arithmetic of their own, with
proofs about every input, every run or every reachable state.  `dafny verify --resource-limit 2000000
--verification-time-limit 0 dfyconfig.toml` (Dafny 4.11) checks all of it.

| component | source | modules |
|---|---|---|
| crash and redelivery protocol of book ingest | `worker/ingest.py`, `worker/dedup.py`, `api/uploads.py`, `worker/scripts/sweep_orphans.py` | `IngestProtocol` (step system), `IngestInvariant`, `IngestTheorems`, `IngestWitness`, `IngestWorker` (the worker's code, every write a step of the protocol), `OrphanSweep` (the maintenance sweep) |
| documents, imports, editor links | `api/documents.py`, `api/editor_links.py` | `ContentText`, `ContentBlocks` (the documented projection), `DocumentApi` (specification), `DocumentRuns` (runs), `DocumentRefusals`, `DocumentRoutes` (handlers), `DriveCursor` (remote versions) |
| autosave loop against the PATCH gate | `web/lib/sermon-autosave.ts`, `web/components/SermonEditor.tsx` | `AutosaveRules`, `AutosaveLoop`, `AutosaveTheorems`, `AutosaveEditor` (the component's refs, and a session of editor and server) |
| oversized-chunk splitter | `worker/chunking.py` | `ChunkTiling`, `Chunking` |
| calendar arithmetic | `web/lib/dates.ts` | `Decimals`, `DateText`, `Calendar`, `CalendarGrid`, `CalendarWeek` |
| citation markers, server and client | `api/summary.py`, `web/lib/summary.ts` | `CitationLabels`, `CitationExtract`, `CitationSegments`, `CitationFidelity`, `CitationAgreement`, `CitationPlaces` |
| sliced search, rank fusion, rate limit | `worker/retrieval.py`, `api/ratelimit.py` | `Ranking`, `Retrieval`, `RankFusion`, `RateLimit` |

Code that updates state in place is modelled by classes and loops (`Stores`, `Dedup`, `Frame`, `Routes`,
`SermonEditor`, `Session`, `Limiter`, and the loop methods); each is proved equal to a specification function, and the
theorems are about those functions and the runs built from them.

## Assumptions

- A uuid4 never repeats.  One HTTP request is one atomic step of the document model, except that the insert ending a
  link request may come later than its checks (`LateLink`); one write is one step of the ingest model, except that the
  Milvus insert may end with any part of its rows flushed (`TornInsert`); one callback is one step of the autosave
  model, and its timers fire on time.  A PATCH whose promise rejects may still reach the server at any later time.
- The runs of the ingest model hold no maintenance sweep: `OrphanSweep` says what one sweep does to a state of a run.
- MinHash collision and Jaccard similarity, Milvus (an exact search over its FLAT index), pandoc, the tokenizer and the
  Punkt sentence starts are parameters: arbitrary functions or answers, constrained only by the preconditions shown.
  Scores are real numbers, and `updated_at` grows with every applied PATCH.
- What Drive answers during one request is a value given with the request; `calls` records in which order the handler
  asks.  How those answers hang together over time is the subject of `DriveCursor`.
- What a user owns is an arbitrary function of user and time.  A rate-limit hit is counted and answered, counted with
  the answer lost, or not counted.
- A string is a sequence of Unicode scalar values, so offsets on the client count code points, not UTF-16 units.

## Where the code and its documentation part

Each of these is shown at an input or a run, and each has the exact condition.

- "Zero orphans" (`worker/ingest.py:70-74`) fails when the duplicate lookup of a redelivered task matches another
  task's book: `OrphansIffLookupMatched` gives the exact condition and `RedeliveredTaskMayLeaveOrphans` a run.
- `derive_content_text` joins sibling text nodes of one paragraph by newlines too, not only blocks
  (`api/documents.py:282-305`).  It agrees with the block-wise projection if and only if no container reached holds
  two neighbouring non-empty texts (`DocumentedIff`); a bold word breaks the line (`BoldBreaksTheLine`).
- A version cursor written by link is read after the upload, so an edit in between can stay hidden
  (`LinkCursorMayHideAnEdit`).  "Unchanged" against such a cursor is right if and only if the Doc still held the uploaded
  text when link read the version (`LinkCursorSafeIff`); against one written by pull it is always right (`UnchangedMeansCurrent`).
- Unlink in mode pull-final asks Drive for the version again after the pull is committed, outside the guarded
  part (`api/editor_links.py:646-648`): if that fails the reply is a 500 although the pull stands and the row stays linked
  (`UnlinkMayFailAfterPull`).  This is the only refusal that changes documents or revisions (`RefusalKeepsDataIff`).
- A buffer turned back to `lastSaved` while another snapshot is in flight is not saved
  (`web/components/SermonEditor.tsx:391`): `StrandedIffTurnedBack` and `EditMayBeStranded`.
- `addMonths` leaves the months 1 to 12 for counts before year 0, and `Date.UTC` remaps years 0 to 99, so weekdays there
  are wrong, as they are NaN past the range of a Date: `AddMonthsCorrectIff`, `WeekdayCorrectIff`.  From year 0 on a month grid is right for every month but the
  first, `MonthGrid`, whose grid begins with an unreadable date (`YearZeroStartsBadly`); up to year 9999 only December
  9999 shows an unreadable date too (`ReadableIff`).
- A merged bracket's chip is said to carry its member's offset (`web/lib/summary.ts:58-65`, `84-86`).  The cursor lags
  behind by the white space after the last resolved member, so in `[A:1   ,xA:2,A:2]` with `xA:2` invented the chip of
  `A:2` starts inside `xA:2` (`MemberMayBeMisplaced`).  All chips are in place if and only if no resolving member's text
  starts within that lag before its own part (`ChipsInPlaceIff`), so whenever every member is cited or no cited member has
  white space before its comma (`ChipsInPlace`).
- `sweep_orphans` skips the ids of in-flight claims (`worker/scripts/sweep_orphans.py:18-20`), but a claim is never
  cleared: what a redelivered task leaves orphaned outlives every sweep (`OrphansOutliveSweeps`).
- `resolveMergedBracket` is said to need two resolvable members (`web/lib/summary.ts:51-57`); the code resolves a
  bracket of several members of which only one is cited (`OneMemberExplodes`), and keeps the rule in all other cases
  and in no such case (`ExplodesInTwosIff`).

## Model

| member | source | states |
|---|---|---|
| IngestTheorems.CommittedStateIsConsistent | worker/ingest.py:174-263 | in every reachable state, for every crash schedule and interleaving, a committed book's vectors are exactly its chunk rows (each index once, same text), library rows and index entries name committed books, a set pointer names a stored object |
| IngestTheorems.RowsMultiplicity | worker/ingest.py:138-171 | the vector rows built from a chunk list hold each index 0..n-1 exactly once with its chunk's text |
| IngestTheorems.WritesPersist | worker/ingest.py:232-301 | claims once set, committed books, set pointers, stored objects and library rows never change or vanish over any run |
| IngestTheorems.CommitFollowsClaim | worker/ingest.py:406-436 | a task of the upload API commits a book only under the id its `upload_tasks` row claims at that moment |
| IngestTheorems.AtMostOneCommitPerTask | worker/ingest.py:389-477 | over any run with any number of crashes, a task enqueued by the API commits at most once |
| IngestTheorems.LeftoverVectorsAreClaimed | worker/ingest.py:319-331 | every vector such tasks leave under an uncommitted book carries an id recorded on some `upload_tasks` row |
| IngestTheorems.FinishedAttemptServesUser | worker/ingest.py:332-348 | once an attempt has reached the end, the user's library names a committed book in every later state |
| IngestTheorems.NoIntegrityFailure | worker/ingest.py:174-231 | no reachable action of any attempt fails on the primary key, the foreign key or the index insertion |
| IngestTheorems.ActionsTerminate | worker/ingest.py:350-484 | every action of an undisturbed attempt reduces a bound on the actions left |
| IngestTheorems.HistoryBitsAreHistory | worker/ingest.py:389-404 | the history bits of an attempt say exactly whether its lookup matched and whether it began with vectors of its own left over |
| IngestTheorems.OrphansIffLookupMatched | worker/ingest.py:70-77 | a finished attempt leaves its task's vectors under an uncommitted book if and only if it began with such vectors and its duplicate lookup matched another book |
| OrphanSweep.RefusesIff | worker/scripts/sweep_orphans.py:126-160 | in a consistent state the sweep aborts if and only if some library names a book without chunks |
| OrphanSweep.SweepKeepsBooks | worker/scripts/sweep_orphans.py:309-407 | a sweep keeps claims and books consistent and leaves every book that has chunks, is in a library or is claimed, with its vectors |
| OrphanSweep.SweepLeavesClaimed | worker/scripts/sweep_orphans.py:197-218 | of the vectors without a book exactly the claimed ones stay |
| OrphanSweep.OrphansOutliveSweeps | worker/scripts/sweep_orphans.py:18-22 | what a finished attempt leaves orphaned stays over any run, and over a sweep of any of its states, until the task itself scrubs or commits |
| OrphanSweep.SweepAtRestKeepsInv | worker/scripts/sweep_orphans.py:309-407 | with no attempt running and no loaded index naming a deleted book, a sweep keeps the protocol's invariant |
| IngestWitness.RedeliveredTaskMayLeaveOrphans | worker/ingest.py:389-403 | a concrete run of two tasks and one crash that ends successfully with orphaned vectors |
| IngestInvariant.RunKeepsInv | worker/ingest.py:350-484 | the protocol invariant holds in every state of every run: uploads, deliveries, index loads, actions, failures, inserts cut short, crashes and returns |
| IngestWorker.IngestMarkdown | worker/ingest.py:350-484 | whichever of its calls raise, the worker's code looks up at the default threshold, loads the index on first use, and leaves the stores, the index and the result that the chain of protocol actions leaves; an index built for a stricter threshold is refused with nothing written |
| IngestWorker.AttemptIsPath | worker/ingest.py:350-484 | that chain is a path of the protocol from any state: every action enabled, then the result, an integrity error, or one event of failure, where a raising Milvus insert leaves part of its rows |
| IngestWorker.AttemptIsSafe | worker/ingest.py:174-231 | started anywhere the invariant holds, an attempt leaves claims and books consistent wherever it stops, fails only if a call raised, and otherwise ends with its user's library naming a committed book |
| IngestWorker.Dedup.FindDuplicate | worker/dedup.py:192-233 | refuses a looser threshold with nothing loaded; at the index's own threshold returns a colliding book, at a stricter one the most similar colliding book if it reaches it, and none only if no indexed book matches |
| IngestWorker.Dedup.LoadFrom | worker/dedup.py:177-190 | loading the rows in any order yields exactly the table they list |
| IngestWorker.Dedup.Add | worker/dedup.py:235-240 | adds one entry, or fails exactly when the key is held already and then changes nothing |
| IngestWorker.Stores.FetchSignatures | worker/dedup.py:167-175 | lists every committed book's signature once |
| IngestWorker.TableUnique | worker/dedup.py:177-190 | a list of rows determines the table it loads |
| ContentText.DeriveContentText | api/documents.py:282-353 | the explicit-stack walk ends and returns the recursive projection, for every tree |
| ContentText.ProjectionIsFlat | api/documents.py:282-305 | the projection is the newline-join of the tree's non-empty texts in document order, whatever the nesting |
| ContentText.DescendStep | api/documents.py:315-340 | suspending a parent for a container child keeps what the walk will return and visits one node |
| ContentText.LeafStep | api/documents.py:315-340 | folding in a leaf child keeps what the walk will return and visits one node |
| ContentBlocks.DocumentedIff | api/documents.py:282-305 | the projection equals the block-wise one, which concatenates neighbouring texts, if and only if no container the walk reaches holds two neighbouring non-empty texts |
| ContentBlocks.BoldBreaksTheLine | api/documents.py:282-305 | a paragraph with a bold run is a concrete tree on which they differ |
| DocumentRuns.EveryStateIsSound | worker/db/models.py:805-810 | in every state of every run at most one row links a document and a user, and every text equals the projection of its content, in documents and revisions |
| DocumentRuns.EndedLinksAndLogPersist | api/editor_links.py:226-240 | over any stretch of any run an ended link row never changes again, documents stay and the log only grows at its end |
| DocumentRuns.ReplacedContentIsInLog | api/documents.py:1070-1097 | content that a step other than a PATCH replaced is in the log in every later state, with its text and owner |
| DocumentRuns.RevisionsCountOverwrites | api/documents.py:903-933 | revisions number exactly the successful imports and pulls of the run |
| DocumentRuns.StepLogs | api/editor_links.py:326-359 | a step appends exactly one revision, holding the content it replaces, if it is an import or pull that succeeds, and none otherwise |
| DocumentRuns.NoLostUpdate | api/documents.py:741-780 | a PATCH that succeeds overwrites only text its sender has seen: the text stored under its base token |
| DocumentRuns.SameBaseSucceedsOnce | api/documents.py:735-757 | of two PATCHes with the same base token at most one succeeds, with any requests between |
| DocumentRuns.OthersUntouched | api/documents.py:403-417 | a request leaves every other user's documents, revisions and links as they are |
| DocumentRuns.NoInterference | api/documents.py:582-608 | reply and effect depend on the caller's own rows only: a foreign document is like a missing one |
| DocumentRefusals.RefusalKeepsDataIff | api/editor_links.py:646-648 | a refused request leaves every document and the log as they were if and only if it is not a pull-final unlink that reaches Google, whose pull succeeds and whose last version read fails |
| DocumentRefusals.RefusalAndLinks | api/editor_links.py:519-660 | a refusal touches link rows only by ending the live one as an error on lost authorisation, or by the cursor of such a standing pull |
| DocumentRefusals.UnlinkMayFailAfterPull | api/editor_links.py:646-648 | a run of create, link and pull-final unlink that ends in a 500 with the pull committed and the row linked |
| DocumentRefusals.ClampMeaning | api/documents.py:473-508 | a clamped scope list holds exactly the requested ids the user owns |
| DocumentRefusals.StoredScopesWereOwned | api/documents.py:433-508 | in every state of every run, each book in a stored scope was owned by the document's user at one of the requests so far |
| DocumentRoutes.Routes.UpdateDocument | api/documents.py:705-803 | the handler with its early returns does what the gate specifies, scopes clamped to what the user owns: 404, 409, 413, or the update; the invariant is kept |
| DocumentRoutes.Routes.ImportDocumentDocx | api/documents.py:1008-1100 | snapshot first, then overwrite; every refused upload leaves the tables alone |
| DocumentRoutes.Routes.LinkDocument | api/editor_links.py:388-464 | one live link or a conflict; Drive is asked to upload, for the link, and only then for the version that becomes the cursor, up to the first call that fails |
| DocumentRoutes.Routes.InsertLink | api/editor_links.py:432-456 | the closing insert, in whatever state other requests have left: a 409 with nothing changed if a live row came in between, the new row otherwise; the invariant is kept |
| DocumentRoutes.Routes.LinkStatus | api/editor_links.py:467-516 | compares the cursor with the remote version; lost authorisation ends the link |
| DocumentRoutes.Routes.PullDocument | api/editor_links.py:519-580 | Drive is asked for the version before the export, then content and cursor change in one commit, or nothing does |
| DocumentRoutes.Routes.UnlinkDocument | api/editor_links.py:583-660 | ends the link after a final pull where asked, with the row left linked when that pull or the version read behind it fails; the file is deleted last |
| DocumentRoutes.ServeAll | api/editor_links.py:388-660 | a server from its empty tables on serves a run of the model: its tables keep the invariant and hold one revision for each successful overwrite |
| DriveCursor.UnchangedMeansCurrent | api/editor_links.py:316-359 | if status reports no change against a cursor a pull wrote, the content that pull stored is the conversion of the remote text now, however edits and other pulls interleave |
| DriveCursor.UntouchedDocumentIsCurrent | api/editor_links.py:509-509 | if moreover nothing overwrote the document since, it holds the conversion of the remote text now |
| DriveCursor.LinkCursorMayHideAnEdit | api/editor_links.py:426-432 | a run in which status reports no change against a cursor written by link although the remote text differs |
| DriveCursor.LinkCursorSafeIff | api/editor_links.py:426-432 | in every run, when status reports no change against a cursor link wrote, the Doc holds the uploaded text if and only if it held it when link read the version |
| AutosaveTheorems.DirtyMeansDifferent | web/lib/sermon-autosave.ts:68-82 | the dirty test is exactly inequality of the snapshots |
| AutosaveTheorems.SingleFlight | web/lib/sermon-autosave.ts:153-171 | in every reachable state at most one PATCH of the loop is outstanding, exactly when in flight, and pending implies in flight |
| AutosaveTheorems.StrandedIffTurnedBack | web/components/SermonEditor.tsx:386-442 | while mounted, unlinked, unconflicted and without failure since the last edit, a buffer differing from what the server will hold has a timer or a trailing save, except exactly when a timer fired on a buffer turned back to `lastSaved` during another flight and no edit came since |
| AutosaveTheorems.EditMayBeStranded | web/components/SermonEditor.tsx:386-393 | such a run exists for any two different snapshots, with no lost answer, lock or unmount |
| AutosaveTheorems.EditReachesRunSave | web/components/SermonEditor.tsx:414-442 | more than 15 s after an edit, a timer has run the save, the lock engaged, the editor closed, or a conflict stopped the loop, however the user types |
| AutosaveTheorems.TokenIsCurrent | web/components/SermonEditor.tsx:333-379 | with one tab as the writer and no save applied whose answer was lost, at once or after the request was given up, every unhandled PATCH carries the stored token, there is no conflict, and at rest title and content on the server equal `lastSaved` |
| AutosaveTheorems.ConflictIffAnswerLost | api/documents.py:735-757 | a PATCH of a mounted editor that passes the other checks is answered 409 if and only if an earlier save was applied whose answer was lost, be it that the server applied it only after the editor gave the request up |
| AutosaveLoop.RunKeepsInv | web/components/SermonEditor.tsx:310-442 | flight, cover, clock and token invariants hold in every state of every run, late requests included |
| AutosaveEditor.SermonEditor.RunSave | web/components/SermonEditor.tsx:386-409 | the callback on the refs does what the loop model says |
| AutosaveEditor.SermonEditor.ScheduleAutosave | web/components/SermonEditor.tsx:414-442 | the debounce is re-armed, the ceiling only when not armed, and neither while conflicted or linked |
| AutosaveEditor.SermonEditor.RouteResponse | web/components/SermonEditor.tsx:333-379 | each status adopts the token and snapshot, stops the loop, or leaves the refs alone |
| AutosaveEditor.SermonEditor.FlightEnds | web/components/SermonEditor.tsx:401-408 | after the response the flight is idle and exactly one trailing save runs if one was owed |
| AutosaveEditor.Session.Perform | web/components/SermonEditor.tsx:310-442 | whatever happens next to an open editor and its server, the callbacks do that step of the loop model |
| AutosaveEditor.Session.Play | web/components/SermonEditor.tsx:386-442 | any sequence of events played on the component is a run of the model, so at most one PATCH is outstanding, and no conflict arises while no answer was lost |
| Chunking.SentencesSpellText | worker/chunking.py:104-125 | for every text and increasing start list the sentence spans lie in the text and joined give it back |
| Chunking.HardWindows | worker/chunking.py:142-171 | the windows tile the sentence at absolute offsets, each fits or is one code point, and one more code point would overflow every window but the last, with no assumption on the token count's growth |
| Chunking.FittingEnd | worker/chunking.py:158-168 | the binary search ends at a window that fits (or is one code point) and cannot be lengthened by one |
| Chunking.WindowsAreLongestPrefixes | worker/chunking.py:142-156 | when the token cap is inherited by parts, a prefix fits if and only if it is no longer than the window chosen |
| Chunking.HardWindowsAreFewest | worker/chunking.py:142-171 | no contiguous split of the sentence into fitting windows has fewer windows |
| Chunking.SplitChunkText | worker/chunking.py:174-232 | the sub-chunks tile the text with true absolute offsets; their runs end at atom ends, and the next atom would have overflowed each of them |
| Chunking.PackingIsFewest | worker/chunking.py:200-232 | no grouping of consecutive atoms into fitting runs has fewer runs |
| Chunking.SplitLosesNothing | worker/chunking.py:187-191 | sub-chunks are non-empty, concatenate to the text, keep the section, never exceed 65535 bytes of UTF-8, and fit the token cap if one code point does |
| Chunking.CapOversizedChunks | worker/chunking.py:235-256 | every chunk at or under the trigger passes unchanged, every other is replaced in place by a split of it |
| Chunking.CappedBook | worker/chunking.py:235-248 | the whole pass keeps the text, and every chunk that leaves it is at most 65535 bytes |
| Chunking.CappedOffsets | worker/chunking.py:235-248 | chunks that were true windows of the markdown leave the pass as true windows of the markdown |
| ChunkTiling.GreedyIsFewest | worker/chunking.py:180-186 | a tiling whose windows cannot be prolonged to any later allowed cut has the fewest windows of all fitting tilings with allowed cuts |
| DateText.ParseOfFormat | web/lib/dates.ts:114-134 | formatting can be parsed back to the same parts exactly for parts of four, two and two digits, and is refused otherwise |
| DateText.FormatOfParse | web/lib/dates.ts:124-134 | formatting the parsed parts gives the string back |
| Calendar.DayNumberOrders | web/lib/dates.ts:97-108 | the Gregorian day count orders valid dates as year, month, day do, and tells them apart |
| Calendar.AddDays | web/lib/dates.ts:317-341 | both boundary walks end for every parseable value, a month outside 1 to 12 included, and the result is the canonical string of a date exactly `delta` days on, a valid one for every existing month |
| Calendar.ShiftsCompose | web/lib/dates.ts:317-341 | shifts add up whenever the string in between can be parsed |
| Calendar.ShiftsUndo | web/lib/dates.ts:317-341 | a shift followed by its opposite gives back the same string, for every real date |
| Calendar.ShiftUnique | web/lib/dates.ts:317-341 | a value and a delta determine the date |
| Calendar.ReadBack | web/lib/dates.ts:114-134 | a valid date's string parses to it exactly for days of years 0000 to 9999 |
| Calendar.AddMonthsCorrectIff | web/lib/dates.ts:187-201 | the rollover names an existing month at the right count if and only if the count is not negative or a multiple of twelve |
| Calendar.WeekdayCorrectIff | web/lib/dates.ts:143-145 | the weekday agrees with the day count if and only if the year is not 0 to 99 and the day lies within the 100000000 days of the epoch that a Date can hold |
| CalendarGrid.MonthGrid | web/lib/dates.ts:213-251 | rows of seven; from year 0 on the cells are a run of consecutive days with fewer than seven before and after the month if and only if it is not January of year 0, and up to year 9999 every date can be read back except in January 0000 and December 9999 |
| CalendarGrid.MonthShownOnce | web/lib/dates.ts:213-251 | the in-month cells are exactly the month's days, each once, in order, with its date and number |
| CalendarGrid.SundayFirstIff | web/lib/dates.ts:213-217 | column 0 is a Sunday if and only if the year is at least 100, or, past the range of a Date, if the month starts on one |
| CalendarGrid.YearZeroStartsBadly | web/lib/dates.ts:218-228 | the cells of January of year 0 are not its days: the first shows a date that cannot be parsed |
| CalendarGrid.ReadableIff | web/lib/dates.ts:213-251 | every date of a correct grid up to year 9999 can be parsed if and only if it is not December 9999 |
| CalendarWeek.WeekGrid | web/lib/dates.ts:362-370 | seven consecutive days from the week's start with matching day numbers, or the thrown error exactly when one of them has no four-digit year |
| CalendarWeek.WeekRange | web/lib/dates.ts:381-384 | the start of the week and the day seven days on |
| CalendarWeek.WeekHoldsDate | web/lib/dates.ts:349-353 | the week holds its date, and starts on a Sunday if and only if the year is at least 100 |
| CalendarWeek.RangeAgreesWithGrid | web/lib/dates.ts:362-384 | the range starts with the grid's first cell and ends the day after its last |
| CitationLabels.LabelIsClean | api/summary.py:345-355 | whatever title and file name hold, the label is non-empty, free of Unicode white space at its ends, at most 80 characters and free of brackets and colons |
| CitationLabels.FreeLabel | api/summary.py:378-384 | the suffix loop ends by pigeonhole and returns the first candidate not in use |
| CitationLabels.AssignBookLabels | api/summary.py:358-385 | every book of the hits gets one clean label, pairwise distinct, asked for by its first hit |
| CitationLabels.MarkersNamePassages | api/summary.py:388-417 | two markers are equal if and only if book and chunk index are |
| CitationExtract.BuildSources | api/summary.py:388-417 | one source per hit in order under its book's label |
| CitationExtract.BuiltMarkersAreNames | api/summary.py:388-417 | sources carry equal markers exactly for the same passage |
| CitationExtract.ResolveGroupMembers | api/summary.py:494-545 | at each place the longest known marker bounded by comma or end is taken, otherwise the text up to the next comma is skipped |
| CitationExtract.HandedOutMarkersResolve | api/summary.py:388-545 | markers handed out for any hits and titles, joined by comma and blank, resolve to exactly that list, commas in labels included |
| CitationExtract.JoinedResolves | api/summary.py:494-512 | the same for any set of well-formed markers |
| CitationExtract.ExtractCitations | api/summary.py:548-583 | the citations are the first occurrences, in order, of the known members of the summary's bracket groups, and all are sources |
| Common.FirstsMeaning | api/summary.py:566-567 | first occurrences keep every element once |
| Common.FirstsInOrder | api/summary.py:566-567 | and they stand in the order in which the elements first occur |
| CitationSegments.ResolveMergedBracket | web/lib/summary.ts:68-110 | the chips of a bracket of two or more members, or null when none resolves |
| CitationSegments.PartIsFound | web/lib/summary.ts:91-94 | the search from the cursor always succeeds, at or behind the cursor and no later than the member's own text ends, so the fallback is never taken |
| CitationSegments.MergedChipsStand | web/lib/summary.ts:68-110 | each chip lies inside the bracket on text equal to its member's, in strictly increasing order |
| CitationSegments.SegmentSummary | web/lib/summary.ts:132-199 | the two loops return the specified segments |
| CitationSegments.SummarySegmentsPlaced | web/lib/summary.ts:126-131 | for every summary and citation list starts strictly increase and text segments are non-empty exact slices |
| CitationFidelity.SegmentsSpellIff | web/lib/summary.ts:126-131 | for every summary and index, what the segments show is the summary if and only if no bracket was exploded |
| CitationAgreement.ChipsAreCitations | web/lib/summary.ts:109-124 | for comma-free labels and plain summaries the client's chips with first occurrences kept are the server's citations in order |
| CitationAgreement.ChipsAreMembers | api/summary.py:548-583 | on such summaries the client's chips are the server's resolved members one for one |
| CitationAgreement.BracketsAreGroups | web/lib/summary.ts:145-176 | without a nested opening bracket the client's scan and the server's pattern meet the same brackets |
| CitationAgreement.PlainMembers | api/summary.py:494-545 | on a plain body the server resolves exactly the trimmed parts that are known |
| CitationAgreement.ExplodesInTwosIff | web/lib/summary.ts:51-57 | the documented rule that a bracket explodes into two chips or none is kept if and only if not exactly one of its two or more members is cited |
| CitationAgreement.OneMemberExplodes | web/lib/summary.ts:68-110 | a bracket of one cited and one invented member breaks the rule |
| CitationPlaces.FoundInPlaceIff | web/lib/summary.ts:90-98 | the search finds a member at its own place if and only if its text does not start between the cursor and its part, and otherwise before its part |
| CitationPlaces.ChipsInPlaceIff | web/lib/summary.ts:58-65 | for every bracket of two or more members the chips are the resolving members at their own places if and only if none of those members has its text starting within the white space and comma that the cursor lags behind its part |
| CitationPlaces.ChipsInPlace | web/lib/summary.ts:62-65 | so it is for every bracket whose members are all cited, and for every bracket whose cited members have no white space before their commas |
| CitationPlaces.PlainChipsInPlace | web/lib/summary.ts:62-65 | and for every plain body, on which client and server agree |
| CitationPlaces.MemberMayBeMisplaced | web/lib/summary.ts:82-101 | a bracket whose last chip starts inside the invented member before its own |
| Ranking.TopScoresUnique | worker/retrieval.py:195-215 | the ranked scores of an exact top-k do not depend on how ties were broken |
| Ranking.SketchGivesTop | worker/retrieval.py:270-277 | sorting a merge that outranks what it omits and cutting it gives the exact top of the whole pool |
| Retrieval.DenseSearch | worker/retrieval.py:183-277 | for any slice size and distinct ids the sliced search returns an exact top of the rows of all the books, and the error exactly for an empty library |
| Retrieval.SlicingDoesNotShow | worker/retrieval.py:138-277 | only hits of those books, at most the limit, the ranked scores of one whole search, nothing omitted scoring higher |
| Retrieval.BothArmsBeatOne | worker/retrieval.py:370-425 | for arms of at most k+1 distinct hits a chunk of both arms scores above every chunk of one |
| Retrieval.LongerArmsMayTie | worker/retrieval.py:66-73 | with k+2 hits per arm they can tie, so the bound is exact |
| Retrieval.AheadInBothStaysAhead | worker/retrieval.py:370-425 | a chunk ahead in both arms scores higher |
| RankFusion.RrfFuse | worker/retrieval.py:370-425 | the exact top of all chunks by fused score, with the dense arm's passage where it has one and each arm's own score |
| RankFusion.FusionIsRanking | worker/retrieval.py:370-388 | each chunk once, in descending fused score, nothing omitted scoring higher |
| RankFusion.BothArmsFirst | worker/retrieval.py:370-425 | in the fused list every chunk of both arms stands before every chunk of one |
| RankFusion.SearchRanksBothArmsFirst | worker/retrieval.py:64-73 | so it is with the constants of the search: thirty hits per arm against sixty |
| RateLimit.Limiter.Hit | api/ratelimit.py:109-129 | counts the hit, arms the expiry only for a window's first, and never returns a retry time below one |
| RateLimit.Limiter.Enforce | api/ratelimit.py:166-191 | refuses exactly an answered hit past the limit; lets through when the store does not answer, whether it counted the hit or not, or when limiting is off |
| RateLimit.WindowAdmitsFirst | api/ratelimit.py:166-191 | each window admits exactly its first `limit` hits, windows told by hit times alone |
| RateLimit.SilentKeyIsReadmitted | api/ratelimit.py:112-118 | a key silent until its window is over is admitted whatever was refused before |
| RateLimit.AtMostTwiceTheLimit | api/ratelimit.py:109-129 | in any interval of one window's length at most twice the limit are admitted while the store answers |
| RateLimit.CounterIsWindow | api/ratelimit.py:109-129 | behind every hit the counter is the number of hits since its window's first one |

## Left out

- A sweep beside a running attempt: it may delete the vectors of a manual ingest, which holds no claim, and books an index still names.
- Concurrent duplicate execution of one ingest task after a visibility timeout: documented in the source as an accepted gap.
- Statement-level interleaving inside one PATCH or import, where the gate and the update are separate statements.
- The concurrent first load of the duplicate index, and reading an upload's stream to disk.
- The keepalive flush and the import, reload and pull resets of the editor, which bypass the single flight.
- Schema versions, list and export routes, and the text of error details.
- Refreshing expired tokens: a token is usable, has failed, or has lost its authorisation.
- `yearGrid`, `monthRange`, `yearRange` and `today`: one-branch computations beside the month grid.
- Prompt building, title lookup, LLM calls and history of `api/summary.py`; the sparse search and its SQL.
- Lone surrogates, and UTF-16 offsets on the client.
- Parsing of rate strings, client addresses, and loss of the counters by a store restart.
- AutosaveTheorems.TokenIsCurrent: speaks of title and content only, because the server may clamp the scope lists it stores.
- CalendarGrid.MonthGrid: builds the list of dates first and then its cells, instead of pushing each cell as it is found.
- CalendarWeek.WeekGrid: says nothing of the cells for a month outside 1 to 12, where the week has no calendar meaning.
- CalendarWeek.WeekRange: says nothing of the range for a month outside 1 to 12, for the same reason.
- Chunking.SplitChunkText: the first atom opens the run before the loop, instead of a run that starts as None.
- CitationExtract.ResolveGroupMembers: goes to the end of the group where the source breaks out of its loop.
- IngestWorker.IngestMarkdown: a raising insert leaves a prefix of its rows, where the protocol allows any part of them.
