# Shotgun, modelled and proved in Dafny

This project models the parts of Shotgun that hold real state machines or
algorithms over graphs and sequences, and proves what those parts promise.
`dafny verify dfyconfig.toml` checks all of it.

The areas, each a group of modules:

- **Content-addressed store and garbage collector** (`Blobs`, `CasStore`,
  `CasProtocol`, `CasRestore`, `CasDelete`). Blobs under their digest, quarantine runs
  with manifests, owner rows and leases, the shared and exclusive maintenance lock, a
  clock, and crashes between any two steps; exactly which blobs a sweep restores and
  which it deletes. SHA-256 is an injective constructor.
- **Launcher and supervisor** (`Launcher`, `Supervisor`). Launchers competing for
  one identity file; the winner replacing a failing worker.
- **Work item governance** (`WorkItems`, `WorkItemShape`, `CompletionScope`). The
  registry checker, and the global shape that "no errors" implies.
- **PDF and HTML worker** (`PdfText`, `PdfLayout`, `PdfColumns`, `PdfPage`,
  `PdfBlocks`, `CssPath`). Words into lines, columns, paragraphs and blocks over
  real coordinates; element paths that read back.
- **VP projection replay** (`VpAssertions`, `VpRelations`). The current view
  rebuilt from history rows, independent of their order.
- **Erasure journal and backups** (`ErasureJournal`, `EpochBarrier`, `Backup`).
  The signed two-phase journal, the barrier it puts before backups, and backup,
  verification and restore.
- **AI configuration** (`AiConfiguration`, `AiConfigurationStore`). The in-memory
  repository as the reference, and the PostgreSQL one under concurrent writers with
  lost acknowledgements.
- **TS-6 analysis** (`CallPaths`, `TypeClosure`, `AuditShape`, `AuditCache`). The
  bounded call search, the type closure, and the audit caches.
- **Streamed answers** (`PartialAnswer`). The reader of a partial JSON answer.

`Wrappers` and `Sorting` are shared helpers. Loops and classes of the source are
methods and classes here, each tied by its `ensures` to a specification function or
condition; the theorems are lemmas about those. Distributed parts are state machines
whose theorems speak of every run.

## Where the code differs from what one might expect

- The collector's manifest reader rejects a size of 0, so one empty blob in a
  quarantine run keeps the whole run from ever being restored or deleted
  (`CasRestore.RestoredIffNoEmptyBlob`, `CasRestore.EmptyBlobBuries`).
- A manifest that a crash or a failed write leaves cut short is not rebuilt: only a
  missing one is. The reader rejects it at every later sweep, and its run is never
  touched again (`CasRestore.StuckForever`, `CasRestore.TornManifestBuries`).
- A wrong file at a blob's key, or owners that disagree about any key, also keep a
  quarantined blob where it is; `CasRestore.RestoredIff` gives the exact condition.
- Mutual exclusion of launchers rests on compare-and-remove being one step; the code
  reads and unlinks separately (`Launcher.SplitRemoveBreaksExclusion`).
- Sections of a Phase that is only a candidate are not group-checked and need not be
  contiguous (`WorkItemShape.CandidatePhaseCanBeSplit`).
- A save whose commit took effect can answer CONFLICT in three cases: the read-back of
  its revision fails; its `updatedAt` or credential id is not spelled the way the
  database spells it; or the commit lands after its revision was looked for and before
  the current row is read (`AiConfigurationStore.ConflictWithOwnCommit`).
- The comment over the type closure says views are followed one hop; the code closes
  over them (`TypeClosure.ViewsClose`). The model follows the code.
- A terminal or unlisted coded failure does not by itself end the supervisor: a later
  failure message of the same worker replaces it, and the worker is then restarted
  (`Supervisor.ReplacedIff`, `Supervisor.OverwrittenTerminal`).
- An abort that falls while the start is being marked is still followed by one spawn
  (`Supervisor.LateSpawnHappens`).
- A backup of a database with a project of empty name would not verify
  (`Backup.CreatedVerifies`, `Backup.UnnamedProjectFails`).

## Assumptions

- Digests, signatures and the audit fingerprint are injective.
- The collector's database session lives from its owner query to the file removal
  that follows; the maintenance lock is held as long as the session.
- Process inspection tells the truth, though it may leave fields out; compare-and-remove
  and compare-and-write of the identity file are single steps; nonces are unique; the
  launchers of one identity file share its repository root.
- The journal lock is plain mutual exclusion. Rows have the keys their tables declare
  unique. Method names hold no colon; HTML tag names no space and no ">".
- Between the exit of a worker that was never ready and the removal of its listeners
  no message is delivered: the two lie in one turn of the event loop.
- `Date.parse`, `\d` and `localeCompare` are parameters with the properties needed.
- A commit whose acknowledgement arrives is durable, and a rolled back transaction
  leaves nothing. An unacknowledged one ends at any later time, landed or dropped, and
  keeps its locks until then.
- A walk over a quarantine run meets each file at most once.

## Model

| member | source | states |
|---|---|---|
| CasStore.CollectAuthority | scripts/asset-cas-gc.ts:206-214 | The row loop yields one owner map, or fails exactly when two rows disagree about a key (the map and the failure are characterised by `Authority`). |
| CasStore.Authority | scripts/asset-cas-gc.ts:206-241 | The owner map holds exactly the entries of the rows; it fails if and only if two entries give one key different hashes or sizes. |
| CasStore.LiveEntries | scripts/asset-cas-gc.ts:221-240 | Only unexpired leases own anything: an entry is live if and only if some lease that expires after the clock carries it. |
| CasStore.AssetRoot.Put | adapters/asset-storage-local/src/index.ts:20-51 | Afterwards the key holds exactly the given bytes and nothing else changed, or the call failed for a named reason and changed nothing. |
| CasStore.AssetRoot.SweepOne | scripts/asset-cas-gc.ts:684-748 | Judging and moving one listed item in place: the new files are those of the one-item sweep, and the answer says whether a blob was deleted. `CasDelete.JudgeDeletesIff` and `CasRestore.RestoredIff` say which it is. |
| CasStore.AssetRoot.SweepQuarantine | scripts/asset-cas-gc.ts:659-755 | The sweep over run directories in place equals the sequential sweep of the store and counts the deletions; `CasRestore.SweepRestoresIff`, `CasDelete.SweepDeletesIff` and `CasDelete.SweepCountIs` say what that sweep restores, deletes and counts. |
| CasStore.AssetRoot.QuarantineSelected | scripts/asset-cas-gc.ts:446-464 | The locked first phase in place equals the fold of quarantine moves, stopping at the first failure. |
| CasStore.QuarantineAllKeeps | scripts/asset-cas-gc.ts:446-464 | Whatever candidates it is given, the first phase loses no blob, leaves every owned key untouched, and lists exactly what it moved. |
| CasStore.QuarantineAllExact | scripts/asset-cas-gc.ts:446-464 | The first phase runs to its end if and only if each candidate without an owner lies at its key as described, is not in the run yet and is listed once; then exactly those candidates move, in order, and no other key changes. |
| CasStore.SweepCount | scripts/asset-cas-gc.ts:659-755 | A whole sweep shrinks store plus quarantine by exactly the number it returns. |
| CasStore.ApplyCount | scripts/asset-cas-gc.ts:438-490 | Over a whole apply, store plus quarantine shrink by exactly the swept count. |
| CasProtocol.InvKept | scripts/asset-cas-gc.ts:438-490 | Every step of any interleaving of puts, owners, leases, clock, apply, sweep and crashes keeps the invariant that ties each collector phase to the owners it read under the lock. |
| CasProtocol.NoOwnedCopyLost | scripts/asset-cas-gc.ts:431-490 | No single step takes away the last correct copy of a blob that has a matching owner. |
| CasProtocol.OwnedCopySurvives | scripts/asset-cas-gc.ts:431-755 | Over any run: a blob with a correct copy that keeps a matching owner keeps a correct copy. |
| CasProtocol.OwnersAlwaysReadable | scripts/asset-cas-gc.ts:431-490 | If writers put bytes before they register them, every row and every unexpired lease finds the right bytes at its own key in every reachable state. |
| CasProtocol.DeletionIsAged | scripts/asset-cas-gc.ts:683-748 | A quarantined file disappears only by being restored byte for byte, or by a deletion whose run was recorded at least the positive age before the sweep clock. |
| CasProtocol.LostManifestRestartsWait | scripts/asset-cas-gc.ts:523-590 | A run left without manifest by a crash waits its full age again: whatever happens later, nothing of it is deleted before that. |
| CasProtocol.StepsSweepItems | scripts/asset-cas-gc.ts:684-748 | The interleaved item steps, left alone, compute the sequential sweep. |
| CasProtocol.OwnersStay | scripts/asset-cas-gc.ts:461-466 | Only a session drops a row or a lease that has not expired; the collector prunes exactly leases that expired by its clock. |
| CasRestore.TraceTruthful | scripts/asset-cas-gc.ts:438-657 | In every reachable state each recorded manifest names its own run and lists blobs truthfully, each once; what the collector is moving or sweeping is listed truthfully too. |
| CasRestore.TraceListed | scripts/asset-cas-gc.ts:438-590 | As long as each walk that rebuilds a manifest sees all files of its run, every recorded manifest of every reachable state lists every correct file of its run. |
| CasRestore.RestoredIff | scripts/asset-cas-gc.ts:592-755 | In any reachable state with the only correct copy of a blob in one run: after any complete sweep over the run the blob is back at its key if and only if nothing stood there, its owners are sound, and the manifest was recorded, old enough, lists the blob and lists no empty blob. |
| CasRestore.RestoredIffNoEmptyBlob | scripts/asset-cas-gc.ts:592-755 | For a soundly owned blob whose only copy lies in a recorded, aged run of a reachable state, a complete sweep puts it back at its key if and only if no blob listed in the run is empty. |
| CasRestore.StepsSweepRuns | scripts/asset-cas-gc.ts:659-755 | A sweep that was begun can always end, and left alone its steps compute the sequential sweep. |
| CasRestore.SweepRestoresIff | scripts/asset-cas-gc.ts:659-755 | The sequential sweep, which the sweep method computes, restores under exactly the same condition. |
| CasRestore.StuckForever | scripts/asset-cas-gc.ts:611-657 | A run with a torn manifest, or with an empty blob in its manifest, is not changed by any later event: nothing of it is ever restored or deleted. |
| CasRestore.TornManifestBuries | scripts/asset-cas-gc.ts:467-474 | A run of the system, for any blob, in which a crash while the manifest is written leaves the only copy of a soundly owned blob in such a run. |
| CasRestore.EmptyBlobBuries | scripts/asset-cas-gc.ts:611-628 | The same for an empty blob quarantined beside it, with the manifest written in full. |
| CasDelete.JudgeDeletesIff | scripts/asset-cas-gc.ts:684-748 | A correct quarantined blob is judged for deletion if and only if nothing stands at its key, no row or unexpired lease names it, and neither rows nor unexpired leases disagree; owners of other keys do not matter. |
| CasDelete.DeletedIff | scripts/asset-cas-gc.ts:592-755 | In any reachable state with a correct copy of a blob in a run: any complete sweep over the run leaves the run without the file and the key empty if and only if nothing stood at the key, no row or unexpired lease names it, none of them disagree, and the manifest was recorded, old enough, lists the blob and lists no empty blob. |
| CasDelete.SweepDeletesIff | scripts/asset-cas-gc.ts:659-755 | The sequential sweep, which the sweep method computes, deletes under exactly the same condition. |
| CasDelete.SweepCountIs | scripts/asset-cas-gc.ts:659-755 | The number a sweep returns is exactly the number of quarantined files that meet that condition when it begins. |
| CasDelete.UnownedIsDeleted | scripts/asset-cas-gc.ts:720-748 | A concrete run, for any two blobs, after which a sweep deletes the one without an owner although the other has one. |
| Launcher.IdentityFile.ReserveIdentity | scripts/launch-canonical.ts:568-586 | Create-if-absent: wins exactly when no file stood there, and never replaces a record. |
| Launcher.IdentityFile.RemoveIfCurrent | scripts/launch-canonical.ts:223-232 | Removes the record only if it names the expected runtime; another runtime's record stays. |
| Launcher.IdentityFile.WritePhase | scripts/launch-canonical.ts:503-515 | Rewrites the phase only of the caller's own record. |
| Launcher.InvKept | scripts/launch-canonical.ts:342-522 | Every step of any number of competing launchers, with deaths and reused process ids, keeps the invariant. |
| Launcher.OneHolder | scripts/launch-canonical.ts:489-521 | In every run at most one live launcher holds the slot, and the identity file names it until it releases, dies or is stopped. |
| Launcher.StopsOnlyProven | scripts/launch-canonical.ts:342-391 | In every run, whoever stops a process read its record as ready and, at an earlier event of the run, inspected its process id, was truthfully told of a live process running this launcher, and found it not to serve the wanted build; if the inspection reported a start time (and a process id with a start time names one process), that process is the recorded one. |
| Launcher.InspectionDecides | scripts/launch-canonical.ts:342-391 | An inspection leads to removing the record if and only if the process was seen dead or its id seen with another program, to stopping it if and only if it is its own, ready, and does not serve the wanted build, and otherwise ends the launcher; it never changes the file. |
| Launcher.ServingIsReused | scripts/launch-canonical.ts:379-388 | In every run, a launcher that inspects its own ready runtime and finds it serving takes no further step: it stops no process and touches no record. |
| Launcher.WaitingDecides | scripts/launch-canonical.ts:223-249 | A launcher that waits for the process it stopped removes the record only once that process is gone, and otherwise ends and leaves it. |
| Launcher.ReservationDecides | scripts/launch-canonical.ts:489-502 | A reservation takes an empty slot; a first lost one makes the launcher read the record again, a second one ends it. |
| Launcher.TwoAttempts | scripts/launch-canonical.ts:489-502 | In every run a launcher attempts at most two reservations. |
| Launcher.HolderRecords | scripts/launch-canonical.ts:503-521 | In every run a holder that records a phase leaves exactly its own record with that phase. |
| Launcher.HolderReleases | scripts/launch-canonical.ts:503-521 | In every run a holder that releases leaves the slot empty. |
| Launcher.TakesOverFromDead | scripts/launch-canonical.ts:342-352 | A launcher running alone takes the slot over from any holder that died without releasing. |
| Launcher.TakesOverFromStopped | scripts/launch-canonical.ts:342-391 | The same from a live runtime of its own that it stops because it does not serve the wanted build, once that process is gone. |
| Launcher.SplitRemoveBreaksExclusion | scripts/launch-canonical.ts:223-232 | With the read and the unlink of compare-and-remove as two steps, a concrete run ends with two live holders: the atomicity assumption is needed. |
| WorkItems.Reached | scripts/frontend-work-item-governance.ts:376-394 | The walk along successors returns exactly the items of the path, and ends on cycles. |
| WorkItems.HasCycle | scripts/frontend-work-item-governance.ts:365-388 | The cycle walk inside a group answers exactly whether the group has a path of successors from the item that ends at an item it met before. |
| WorkItems.CyclesIffRevisits | scripts/frontend-work-item-governance.ts:365-388 | The walk with its set of visited ids finds a cycle if and only if such a path of successors exists. |
| WorkItems.ValidateLinearGraph | scripts/frontend-work-item-governance.ts:356-395 | Reports nothing exactly for a group with one start, one end, no cycle and every member reached. |
| WorkItems.CollectWorkItemErrors | scripts/frontend-work-item-governance.ts:193-480 | The collector with its loops reports nothing if and only if the declarative condition `WellFormed` holds. |
| WorkItemShape.SectionsFormOneChain | scripts/frontend-work-item-governance.ts:311-406 | No error: the canonical Sections form one successor chain that visits each exactly once. |
| WorkItemShape.ContiguousIffOneStart | scripts/frontend-work-item-governance.ts:356-406 | For any parent its Sections are a contiguous block of the chain if and only if at most one of them has its predecessor outside the group. |
| WorkItemShape.CanonicalPhasesContiguous | scripts/frontend-work-item-governance.ts:401-406 | No error: the Sections of each canonical Phase are a contiguous block of the chain. |
| WorkItemShape.CandidatePhaseCanBeSplit | scripts/frontend-work-item-governance.ts:355-406 | For a Phase that is only a candidate this fails: a concrete registry without errors splits its Sections, because group checks visit canonical Phases only. |
| WorkItemShape.SectionStatusesInOrder | scripts/frontend-work-item-governance.ts:471-480 | No error: along the chain come COMPLETE Sections, then at most one in progress or blocked, then NOT_STARTED ones. |
| WorkItemShape.UnfinishedIsLater | scripts/frontend-work-item-governance.ts:471-480 | An unfinished Section lies strictly later in the chain than any COMPLETE one. |
| WorkItemShape.PhaseFollowsSections | scripts/frontend-work-item-governance.ts:443-469 | No error: a canonical Phase with Sections is COMPLETE exactly when all of them are, IN_PROGRESS as long as one of them is, and NOT_STARTED as long as its predecessor is not COMPLETE. |
| WorkItemShape.CompletePhasesComeFirst | scripts/frontend-work-item-governance.ts:356-480 | No error: every Section of a COMPLETE canonical Phase lies in the chain before every Section of one that is not. |
| WorkItemShape.LinksAreMutual | scripts/frontend-work-item-governance.ts:314-348 | No error: an item names another as successor if and only if that one names it as predecessor; both are then canonical and of one type, and a candidate has no links. |
| WorkItemShape.IdsNameParents | scripts/frontend-work-item-governance.ts:297-429 | No error: a canonical Phase has no parent, and a Section or Increment has the parent its id names, which is there and of the right type. |
| CompletionScope.CollectManifestErrors | scripts/frontend-work-item-governance.ts:565-692 | The manifest checks report nothing if and only if the condition `ManifestOk` holds. |
| CompletionScope.UnpassedIsHandedOn | scripts/frontend-work-item-governance.ts:594-692 | Both checkers silent: every mandatory criterion a COMPLETE Section left unpassed has an approved amendment to an unfinished owner, strictly later in the chain if the owner is a Section. |
| PdfText.LineTextKeepsInk | adapters/document-format-python/worker.py:187-190 | Joining words into a line adds, loses and reorders nothing but spaces. |
| PdfText.LineTextClean | adapters/document-format-python/worker.py:187-190 | Clean words give a clean line: not empty, trimmed, without line separators. |
| PdfText.ReattachTwice | adapters/document-format-python/worker.py:190 | After the thousands separators are reattached none is left to reattach. |
| PdfText.UntornStays | adapters/document-format-python/worker.py:190 | A text without a comma that spaces part from a following digit, behind a digit, is not changed. |
| PdfText.TornIsJoined | adapters/document-format-python/worker.py:190 | Dropping the spaces after any one torn comma first makes no difference: with the rule above this determines the substitution. |
| PdfText.SplitUndoesJoin | adapters/document-format-python/worker.py:149-170 | Splitting the newline-joined lines gives back exactly the lines. |
| PdfText.ParagraphBlock | adapters/document-format-python/worker.py:149-184 | A paragraph of clean lines becomes a block exactly when it has at most 128 of them; its segments start at 0, are parted by one newline and slice back to the line texts up to NUL replacement; no other check can fire. |
| PdfText.FlattenedFits | adapters/document-format-python/worker.py:137-184 | A block has at most one more distinct selector than segments, so its selector budget cannot be exceeded here. |
| PdfLayout.GroupIntoLines | adapters/document-format-python/worker.py:907-921 | The word loop, with its search through the lines from the last, computes the line fold. |
| PdfLayout.LinesKeepWords | adapters/document-format-python/worker.py:903-921 | Each word lands in exactly one line, as often as it occurs. |
| PdfLayout.LinesAreLevel | adapters/document-format-python/worker.py:908-921 | Every word of a line is level with the word that opened the line. |
| PdfLayout.PlacedWhere | adapters/document-format-python/worker.py:908-921 | A word joins the last line whose opening word it is level with, and opens a line of its own exactly if there is none. |
| PdfLayout.NormalizedKeepsWords | adapters/document-format-python/worker.py:903-925 | Sorting lines and words moves no word from its line. |
| PdfLayout.NormalizedInOrder | adapters/document-format-python/worker.py:903-925 | For any words: the lines come in the order of top, then x0, of the words that opened them, and the words of each line ascend in x0. |
| PdfLayout.LinesProper | adapters/document-format-python/worker.py:922-925 | With x0 <= x1 for every word, each line has its first x0 at or left of its last x1. |
| PdfColumns.CollectCandidates | adapters/document-format-python/worker.py:935-961 | A number is collected if and only if it is the midpoint of a gap of at least the threshold, between neighbours in one line or between two lines that overlap vertically. |
| PdfColumns.CandidatesExact | adapters/document-format-python/worker.py:935-961 | The characterisation of the candidates, for any lines: neither loop misses a gap nor adds one. |
| PdfColumns.ThresholdIs | adapters/document-format-python/worker.py:928-934 | The threshold is three times the middle of the sorted word widths, each at least a point, and at least 24 points. |
| PdfColumns.BoundariesExact | adapters/document-format-python/worker.py:962-976 | The boundaries are exactly the means of those clusters of at least two candidates, cut where sorted neighbours are more than 24 points apart, that lie strictly inside no line. |
| PdfColumns.FindBoundaries | adapters/document-format-python/worker.py:962-976 | The clustering loop computes the means of the clusters of at least two candidates that no line crosses. |
| PdfColumns.BoundariesAscend | adapters/document-format-python/worker.py:962-976 | The boundaries strictly ascend and none crosses a line. |
| PdfColumns.BoundaryParts | adapters/document-format-python/worker.py:977-981 | Boundary r parts the columns: lines of column r or lower lie left of it from first x0 to last x1, lines of higher columns right of it. |
| PdfColumns.GroupIntoColumns | adapters/document-format-python/worker.py:977-981 | The dictionary of columns holds for each number exactly the lines counted into it, in order. |
| PdfColumns.ColumnsKeepLines | adapters/document-format-python/worker.py:977-982 | Each line lands in exactly one column. |
| PdfColumns.GroupIntoParagraphs | adapters/document-format-python/worker.py:983-996 | The paragraph loop computes the paragraph fold. |
| PdfColumns.OpensIff | adapters/document-format-python/worker.py:990-993 | A line opens a paragraph if and only if each of its words stands, below each word of the line before, more than four points and more than 1.8 times the height of any of its words away. |
| PdfColumns.ParagraphsCut | adapters/document-format-python/worker.py:983-996 | Paragraphs are cut exactly where a line stands far enough below the one before it. |
| PdfColumns.ParagraphsKeepLines | adapters/document-format-python/worker.py:983-996 | The paragraphs of a column are its lines in order. |
| PdfPage.LayOutPage | adapters/document-format-python/worker.py:903-997 | The loops of one page together compute its paragraphs; these read column by column from the left, each column line by line in the order of top and x0 of the opening words, each line by x0, and no two columns overlap if each word has x0 <= x1. |
| PdfPage.PageReadInOrder | adapters/document-format-python/worker.py:903-997 | That reading order, for the paragraphs of every page: the middle of each line of a column lies left of that of each line of a later column. |
| PdfPage.DocumentReadInOrder | adapters/document-format-python/worker.py:846-1030 | A document is read page by page, and what carries the number of a page is that page in its reading order. |
| PdfPage.PageKeepsWords | adapters/document-format-python/worker.py:903-998 | Every word of a page lands in exactly one paragraph, as often as it occurs. |
| PdfPage.ColumnsParted | adapters/document-format-python/worker.py:968-981 | Between any two columns of a page lies a boundary with the lower column's lines left of it and the higher's right of it. |
| PdfPage.DocumentKeepsWords | adapters/document-format-python/worker.py:846-1030 | Every word of a document lands in exactly one paragraph, which carries the word's own page number. |
| PdfBlocks.BuildSegments | adapters/document-format-python/worker.py:1001-1024 | The segment loop computes a segment for each line at its offset in the joined text. |
| PdfBlocks.BoxSpans | adapters/document-format-python/worker.py:1006-1016 | The bounding box of a line holds all its words, and each of its sides touches one. |
| PdfBlocks.ReadPdf | adapters/document-format-python/worker.py:833-1030 | The page and paragraph loops with their three budget errors compute `PdfBlocks`: the blocks of the paragraphs in the reading order that `PdfPage.DocumentReadInOrder` states. |
| PdfBlocks.DocumentFaithful | adapters/document-format-python/worker.py:833-1030 | For clean words reading succeeds exactly within the three budgets of 1000 pages, 128 lines to a paragraph and 8192 paragraphs; then each paragraph has its own block in order, whose segments tile it line by line and name page and box. |
| CssPath.CacheOrdinals | adapters/document-format-python/worker.py:208-217 | The counting recursion caches for every tag its ordinal among its parent's children of the same name. |
| CssPath.PathOf | adapters/document-format-python/worker.py:219-229 | The upward walk, reversed, is the chain of steps from the document root. |
| CssPath.PathReadsBack | adapters/document-format-python/worker.py:206-233 | Reading the steps from the root leads to exactly the tag they were printed for (sections 8.2 and 6.6.5.4 of Selectors Level 3). |
| CssPath.PathReadsBackInOriginal | adapters/document-format-python/worker.py:196-233 | The same path, read in the document as it was before scripts, styles and comments were removed, still leads to exactly that tag. |
| CssPath.StepReads | adapters/document-format-python/worker.py:228 | A step is printed as its tag name and, in an nth-of-type, its ordinal in decimal digits without leading zeros. |
| CssPath.PathsDistinct | adapters/document-format-python/worker.py:219-229 | Distinct tags get distinct printed paths. |
| VpAssertions.SameStringsIffPermuted | scripts/vp-projection-replay.ts:81-86 | `sameStrings` holds if and only if one list is a rearrangement of the other. |
| VpAssertions.LatestVersions | scripts/vp-projection-replay.ts:322-328 | The loop keeps, for each source, its version with the greatest number. |
| VpAssertions.SelectBatch | scripts/vp-projection-replay.ts:349-388 | Filter, sort and take-first select an eligible batch of the version that was created no earlier than any other, the greater id deciding among those created together; none if and only if none is eligible. |
| VpAssertions.EligibleIff | scripts/vp-projection-replay.ts:349-379 | A batch is eligible if and only if each of its candidates is decided as its validation says, and each READY one has an assertion. |
| VpAssertions.MatchesIff | scripts/vp-projection-replay.ts:88-114 | An assertion records its candidate if and only if the evidence is of this version and revision, contains the claim and has the candidate's sensitivity and, in any order, its access scope, and the assertion repeats all of it. |
| VpAssertions.ExpectedAssertions | scripts/vp-projection-replay.ts:322-402 | The loops rebuild exactly the assertions that record a READY candidate of the newest eligible batch of the newest processed version of a source. |
| VpAssertions.ExpectedIsNewest | scripts/vp-projection-replay.ts:322-402 | Behind every expected assertion stands a READY candidate of a batch of the source's highest version, and every eligible batch of that version was created no later, ids deciding among those created together. |
| VpAssertions.ExpectedIgnoresOrder | scripts/vp-projection-replay.ts:322-402 | The expected assertions do not depend on the order of any of the rows. |
| VpRelations.CollectPositive | scripts/vp-projection-replay.ts:404-411 | The event loop maps each decision and each relation to the epoch of its last event. |
| VpRelations.CollectNegative | scripts/vp-projection-replay.ts:412-423 | The event loop maps each pair to the greatest epoch of its NO_RELATION events. |
| VpRelations.WinsTotal | scripts/vp-projection-replay.ts:452-470 | Among relations of one pair the replacement test is antisymmetric, and total on distinct ids. |
| VpRelations.WinsTransitive | scripts/vp-projection-replay.ts:452-470 | The replacement test is transitive, in both of its shapes. |
| VpRelations.ReplayRelations | scripts/vp-projection-replay.ts:403-472 | The relation loop keeps, for each pair, the greatest of its standing relations. |
| VpRelations.ReplayIgnoresOrder | scripts/vp-projection-replay.ts:403-476 | The rebuilt view is the same for every order of the relation rows. |
| VpRelations.OnlyLaterThanDenial | scripts/vp-projection-replay.ts:444-470 | After a NO_RELATION only an exact relation, or one recorded strictly later, is current; and an exact one that stands is never passed over for another. |
| VpRelations.NewestWithoutDenial | scripts/vp-projection-replay.ts:452-470 | Without a NO_RELATION the current relation is the standing one decided last: no other standing relation of the pair has a later creation time, ids deciding among equal times. |
| VpRelations.GreatestWithDenial | scripts/vp-projection-replay.ts:452-470 | With a NO_RELATION exactness comes first, then the epoch it was recorded at, then the creation time and the id: whatever else stands is behind the current one in that order. |
| VpRelations.StandsIff | scripts/vp-projection-replay.ts:424-452 | A relation stands if and only if it joins two current assertions; no undecided job of the pair is as new as it, unless it is exact under an active binding; and it was recorded strictly after every NO_RELATION of the pair, unless it is exact. |
| VpRelations.PositiveEpochIs | scripts/vp-projection-replay.ts:404-427 | The epoch of a relation is that of the last event that records its decision, and only without one that of the last event that lists it. |
| VpRelations.ViewJoinsCurrent | scripts/vp-projection-replay.ts:429-434 | Every current relation joins two current assertions, and no relation serves two pairs. |
| ErasureJournal.ReadAndVerify | scripts/source-erasure-journal.ts:225-273 | Verification answers with exactly the chain of records the file holds, and fails exactly when it holds none. |
| ErasureJournal.ChainedIff | scripts/source-erasure-journal.ts:225-273 | A chain is exactly: record i numbered i + 1, with an epoch from 1, a project, a request id of 1 to 200 units and a date, naming the signature of the record before it, and signed with the key over all of that. |
| ErasureJournal.Journal.Append | scripts/source-erasure-journal.ts:342-415 | An append adds its record or finds the one already there, writes nothing on an error, and never touches a journal that does not verify. |
| ErasureJournal.AppendDecides | scripts/source-erasure-journal.ts:342-389 | Which outcome an append has, each exactly when: invalid request, disagreement or a VERIFIED without its PREPARED, already there, or added. |
| ErasureJournal.AppendAddsIff | scripts/source-erasure-journal.ts:366-410 | On a verified journal an append adds a record if and only if the request is in bounds, agrees with its earlier records, has none of its phase, and a VERIFIED has its PREPARED; the record carries the request, the next number, the last signature, and its own signature over all of that. |
| ErasureJournal.LastHmacDetermines | scripts/source-erasure-journal.ts:225-273 | Two verified journals with the same last signature are the same journal (HMAC, section 2 of RFC 2104, as an injective function). |
| ErasureJournal.AppendKeepsProtocol | scripts/source-erasure-journal.ts:366-389 | Each request keeps at most one PREPARED and then at most one VERIFIED, for one project and epoch. |
| ErasureJournal.AppendTwice | scripts/source-erasure-journal.ts:376-384 | Repeating an append adds nothing and finds the same record. |
| ErasureJournal.RunsAreWellBuilt | scripts/source-erasure-journal.ts:342-415 | Every journal any run of appends leaves, crashes included, is chained and keeps the protocol. |
| ErasureJournal.VerifyRun | scripts/source-erasure-journal.ts:225-273 | Verification accepts every journal a run leaves, except exactly those whose last append was cut short. |
| ErasureJournal.TornIsFinal | scripts/source-erasure-journal.ts:237-240 | A journal that ends in a torn record is never written again. |
| EpochBarrier.AssertEpochsAllowed | scripts/source-erasure-journal.ts:417-479 | The check with its maps and loops decides exactly the condition `Allowed`. |
| EpochBarrier.AllowedIffAgrees | scripts/source-erasure-journal.ts:417-479 | On a journal built by appends it accepts exactly when each project has one PREPARED and one VERIFIED at every epoch 1..e and nothing else, e being the backup's epoch. |
| EpochBarrier.OneEpochMap | scripts/source-erasure-journal.ts:417-479 | A journal accepts at most one epoch map, zeros aside. |
| EpochBarrier.GrowthRejects | scripts/source-erasure-journal.ts:417-479 | Every proper extension of a journal rejects every backup it accepted before. |
| EpochBarrier.RestoredEpochsEqual | scripts/backup-restore.ts:1000-1016 | A restore that passes the source check, the manifest check (on a journal that may have grown) and the comparison has source and manifest epochs equal. |
| Backup.ListReferencedAssets | scripts/backup-restore.ts:651-690 | The row loop yields one reference for each key, or fails exactly when two rows disagree. |
| Backup.CopyAssets | scripts/backup-restore.ts:740-765 | Succeeds if and only if every referenced asset is there with its recorded hash and size and no two of their places are nested or taken; then each stands in the backup at its own path and is listed once, and nothing else changed. |
| Backup.CreateBackup | scripts/backup-restore.ts:767-851 | Succeeds if and only if the three table measurements are equal, the references agree, every referenced asset can be copied, and the journal allows the epochs; what is returned has all of it in place. |
| Backup.VerifyBackup | scripts/backup-restore.ts:867-927 | Verification succeeds exactly if the manifest is valid and every listed file has its recorded size and digest. |
| Backup.CreatedVerifies | scripts/backup-restore.ts:767-927 | Untouched, the directory of every backup that was returned verifies, if and only if no project has the empty name. |
| Backup.UnnamedProjectFails | scripts/backup-restore.ts:740-850 | A backup that a run may return, of one project with the empty name, that does not verify. |
| Backup.CopyRestoredAssets | scripts/backup-restore.ts:962-977 | Succeeds if and only if every listed file is there with its recorded hash and its key can be written beside the others; then each stands at its key, and nothing else stands in the target. |
| Backup.RestoreBackup | scripts/backup-restore.ts:979-1069 | Succeeds if and only if the directory verifies, the table sets and restored tables match, the three epoch checks pass, and every listed asset can be restored with its recorded hash; then exactly the listed assets were copied. |
| Backup.UntouchedRestores | scripts/backup-restore.ts:767-1069 | Untouched, the directory of every backup that was returned restores, unless a project has the empty name: with the journal as it was, equal epochs, and the tables back as measured. |
| Backup.RestoreIsExact | scripts/backup-restore.ts:740-1039 | A restore that succeeds from a backup's own manifest leaves exactly the referenced storage keys with their original bytes, and tables equal to those measured before the dump, after it and after the asset copy. |
| Backup.RestoredEpochsAgree | scripts/backup-restore.ts:1000-1056 | With a growing journal, a successful restore leaves source, manifest and restored epochs equal. |
| AiConfiguration.InMemoryRepository.SaveRevision | adapters/ai-configuration-in-memory/src/index.ts:29-42 | The in-memory save in place: store and answer are those of `Save`. |
| AiConfiguration.SaveKeepsNumbers | adapters/ai-configuration-in-memory/src/index.ts:29-42 | Each project's history stays exactly revisions 1..n with the current configuration equal to revision n. |
| AiConfiguration.SaveRefusedIff | adapters/ai-configuration-in-memory/src/index.ts:29-42 | A save is refused if and only if it does not name the current revision and the one after it; it creates if and only if it expects none. |
| AiConfigurationStore.RunKeepsInvariant | adapters/ai-configuration-postgres/src/index.ts:101-187 | In every interleaving of writers, with locks, unique keys, lost acknowledgements, commits that land at any later time and read-backs, histories stay numbered 1..n with the current row equal to revision n, and every call is sound. |
| AiConfigurationStore.StepKeepsHistory | adapters/ai-configuration-postgres/src/index.ts:63-85 | A stored revision is never changed or removed. |
| AiConfigurationStore.StepRefines | adapters/ai-configuration-postgres/src/index.ts:101-187 | Every step leaves the store alone or performs the in-memory save of its call; a call is turned away at a moment at which that save is refused. |
| AiConfigurationStore.ConflictHasMoment | adapters/ai-configuration-postgres/src/index.ts:101-187 | In every run, a call that answers CONFLICT without a commit had a moment at which the in-memory repository would have refused its save. |
| AiConfigurationStore.SuccessMeansStored | adapters/ai-configuration-postgres/src/index.ts:101-187 | Success means the caller's configuration stands at its revision, to the letter if it was spelled canonically. |
| AiConfigurationStore.ConflictAddsNothing | adapters/ai-configuration-postgres/src/index.ts:165-186 | CONFLICT means the call added nothing and never will, provided its revision read-back did not fail, its configuration was spelled as the database spells it, and its commit did not land after that read-back. |
| AiConfigurationStore.ConflictWithOwnCommit | adapters/ai-configuration-postgres/src/index.ts:165-186 | A call that lost its acknowledgement and whose commit took effect answers CONFLICT if and only if it read its revision back in another spelling, or read the current row after the commit landed, having failed to read its revision or read it before. |
| AiConfigurationStore.ConflictDespiteCommit | adapters/ai-configuration-postgres/src/index.ts:166-183 | A concrete run in which a failed read-back makes a stored revision answer CONFLICT. |
| AiConfigurationStore.ConflictWhenLandingBetween | adapters/ai-configuration-postgres/src/index.ts:166-183 | A concrete run in which no read fails, the spelling is canonical, and the commit lands between the two reads. |
| AiConfigurationStore.ConflictOverSpelling | adapters/ai-configuration-postgres/src/index.ts:166-175 | A concrete run in which the call reads its own revision back in another spelling. |
| CallPaths.Search | scripts/ts6-phase-b-regression-evidence-resolver.ts:550-585 | The breadth-first search finds a walk within the depth if there is one, and then a shortest; otherwise no walk within the depth exists. |
| CallPaths.ProductionWalk | scripts/ts6-phase-b-regression-evidence-resolver.ts:570-581 | What the production search finds are exactly the chains of calls between definitions of which the last and no other calls the target, from a licensed file if files are licensed. |
| CallPaths.LocalWalk | scripts/ts6-phase-b-regression-evidence-resolver.ts:653-680 | What the search in a test file finds are exactly the chains of calls in that file of which the last and no other ends in the target's name. |
| CallPaths.ResolveEntry | scripts/ts6-phase-b-regression-evidence-resolver.ts:686-699 | An entry resolves by production path, else by test file, else as the target itself, each exactly when the earlier ones fail and its own path exists. |
| TypeClosure.ReverseViewParts | scripts/ts6-phase-b-production-reachability.ts:961-974 | The reversed view map lists an alias under a part exactly when the alias views that part and is not it. |
| TypeClosure.TypeConstituents | scripts/ts6-phase-b-production-reachability.ts:987-1005 | The worklist ends with exactly the names reachable over heritage, alias and reverse-view edges. |
| TypeClosure.EdgeIff | scripts/ts6-phase-b-production-reachability.ts:987-1005 | The edges the closure follows are exactly: a class to its superclass and each type it implements, an alias to its parts, a type to each other alias that narrows it. |
| TypeClosure.PartsReached | scripts/ts6-phase-b-production-reachability.ts:987-1005 | So a name stands for all of those. |
| TypeClosure.ImplementationIndex | scripts/ts6-phase-b-production-reachability.ts:924-943 | A class is registered under a port exactly if it is no test double and one of its supertypes reaches the port. |
| TypeClosure.ImplementsIff | scripts/ts6-phase-b-production-reachability.ts:924-943 | A class implements a port if and only if neither its file nor its name marks it as a test double and its superclass or one of its implemented types, not empty, reaches the port. |
| TypeClosure.TypeNameIsBoundary | scripts/ts6-phase-b-production-reachability.ts:1016-1029 | The boundary test holds exactly if the receiver type is known and the two closures meet. |
| TypeClosure.MeetSymmetric | scripts/ts6-phase-b-production-reachability.ts:1016-1029 | On known names the boundary test is symmetric and reflexive. |
| TypeClosure.MeetAlongEdge | scripts/ts6-phase-b-production-reachability.ts:1016-1029 | The boundary test is inherited against an edge: a composite passes it for whatever its parts do. |
| TypeClosure.ViewsClose | scripts/ts6-phase-b-production-reachability.ts:945-1005 | The closure follows views of views, although the comment above it says views are followed one hop; two views of one type still do not meet. |
| AuditShape.AsksFirst | scripts/ts6-phase-b-transaction-authority-validator.ts:432-468 | The boundary that asks for a method's evidence when no earlier one did is the one the evidence covers. |
| AuditShape.ModesAgree | scripts/ts6-phase-b-transaction-authority-validator.ts:652-842 | Both authority modes ask for evidence in the same order and agree on everything but status and callers. |
| AuditShape.RowMeans | scripts/ts6-phase-b-transaction-authority-validator.ts:758-812 | Each candidate has its row: a boundary under its own id, reachable exactly if PROVEN, which in the legacy mode means that it has callers; or a duplicate, unclassified and reachable, attributed to the first raw candidate of its function that begins a transaction. |
| AuditShape.RawOwnerIs | scripts/ts6-phase-b-transaction-authority-validator.ts:758-812 | The owner of a function's statements is its first raw candidate that begins a transaction, and there is none exactly if no candidate does. |
| AuditShape.EvidenceIff | scripts/ts6-phase-b-transaction-authority-validator.ts:432-468 | A boundary has evidence if and only if its method has a proper name and a test calls it; the evidence is that test, for that method. |
| AuditShape.EvidenceListed | scripts/ts6-phase-b-transaction-authority-validator.ts:432-468 | Each piece of evidence is listed once, and whatever a boundary names is listed. |
| AuditCache.AuditCaches.EvidenceFor | scripts/ts6-phase-b-transaction-authority-validator.ts:432-468 | A cached answer keeps the boundary that asked first; an unnamed method is not cached. |
| AuditCache.AuditCaches.ComputeAudit | scripts/ts6-phase-b-transaction-authority-validator.ts:652-842 | Computed over caches filled by any earlier audit of the same bytes, the shape is the one empty caches give. |
| AuditCache.AuditCaches.Forget | scripts/ts6-phase-b-transaction-authority-validator.ts:889-898 | Invalidation empties every cache of the root and leaves every other root's audits valid, even if it drops some of their evidence. |
| AuditCache.AuditCaches.Build | scripts/ts6-phase-b-transaction-authority-validator.ts:878-906 | Whatever was built before, and from whatever bytes, the answer is the audit of the current bytes. |
| AuditCache.Replay | scripts/ts6-phase-b-transaction-authority-validator.ts:878-906 | Over any history of edits, roots and modes, every audit answered equals a recomputation from empty caches. |
| AuditCache.KeyInjective | scripts/ts6-phase-b-transaction-authority-validator.ts:437 | Cache keys of different roots or methods differ. |
| PartialAnswer.PartialGrows | adapters/ai-provider-ask/src/index.ts:420-428 | Each partial answer is a prefix of every later one, wherever the text was cut, escapes included. |
| PartialAnswer.AnswerStartStable | adapters/ai-provider-ask/src/index.ts:421 | The leftmost answer header found stays the leftmost when more text arrives. |
| PartialAnswer.HeaderIff | adapters/ai-provider-ask/src/index.ts:421 | A header is exactly the quoted name, any spaces, a colon, any spaces and the opening quote. |
| PartialAnswer.AnswerStartHas | adapters/ai-provider-ask/src/index.ts:421 | The answer begins right after the leftmost header, if there is one. |
| PartialAnswer.Stream | adapters/ai-provider-ask/src/index.ts:336-348 | The streaming loop shows every nonempty partial answer once, in order, each a prefix of the next. |
| PartialAnswer.DecodeIff | adapters/ai-provider-ask/src/index.ts:424 | Decoding gives a text if and only if the content writes it unit by unit, each unit as itself, by a short escape or by four hexadecimal digits of either case (section 7 of RFC 8259). |
| PartialAnswer.CompleteAnswer | adapters/ai-provider-ask/src/index.ts:420-428 | Once the answer string is complete, in whatever spelling, the partial answer is the whole answer. |
| Supervisor.RunKeeps | scripts/launch-supervisor.ts:105-233 | In every run of messages, exits and aborts each state keeps the invariant on flags, phase, browser and delays. |
| Supervisor.BrowserOpensOnce | scripts/launch-supervisor.ts:152-159 | The browser is opened at most once. |
| Supervisor.EndsAtStarting | scripts/launch-supervisor.ts:135-146 | Every normal end of a worker leaves the recorded phase `starting`. |
| Supervisor.DelayAfterEnd | scripts/launch-supervisor.ts:102-103 | The j-th end counted from the last ready worker's (or from the start) is followed by a delay of min(1000 * 2^(j-1), 30000) milliseconds. |
| Supervisor.ReplacedIff | scripts/launch-supervisor.ts:105-233 | In every run, when a worker ends, a later spawn is possible if and only if the run is not aborted, no callback of that worker rejected, and the last failure it reported, if any, has no code or a retryable one; otherwise nothing is spawned again. |
| Supervisor.OverwrittenTerminal | scripts/launch-supervisor.ts:156-162 | A concrete run, not aborted, in which a worker reports a terminal failure and then one without a code, and is replaced. |
| Supervisor.StoppedIsFinal | scripts/launch-supervisor.ts:205-233 | Once the supervisor stopped nothing happens any more. |
| Supervisor.SpawnsAfterAbort | scripts/launch-supervisor.ts:205-211 | After an abort at most one more worker is spawned, and it is told to shut down. |
| Supervisor.ToldIffAborted | scripts/launch-supervisor.ts:135-170 | In every run a running worker has been told to shut down if and only if the run is aborted, whether the abort came before its spawn or after. |
| Supervisor.LateSpawnHappens | scripts/launch-supervisor.ts:205-208 | A concrete run in which an abort while the start is being marked is still followed by a spawn. |
| Sorting.SortedEqualIffPermuted | scripts/vp-projection-replay.ts:81-86 | Under a total order two sequences sort to the same sequence if and only if they are rearrangements of each other. |
| Sorting.TextNotAfterIff | scripts/vp-projection-replay.ts:81-86 | The order of strings: a prefix comes first, and otherwise the smaller unit at the first difference. |

## Left out

- Directory scanning of the collector: the theorems hold for whatever candidates it
  picks, since both phases check again.
- CasStore.AssetRoot.Put: the temporary file and its rename are one step here, and
  path shapes below the root are not modelled; a key is its digest.
- WorkItems.CollectWorkItemErrors: does not model the document, contract and
  approval-text checks, nor migrated legacy items; they can only add errors.
- CompletionScope.CollectManifestErrors: models the amendment and criterion checks of one
  Section's manifest; the evidence and scope checks around them can only add errors.
- PdfBlocks.DocumentFaithful: takes clean words (not empty, trimmed, without line
  separators); for other words the reader's result is modelled but not characterised.
- PDF glyph repair and equation reconstruction, which change words before the layout.
- Blocks without preserved line breaks, and the readers of other document formats.
- VpRelations.ReplayRelations: the pair key is a pair, not the text joined by a colon.
- The counters and completeness flags that the replay reports beside the two views.
- ErasureJournal.Journal.Append: owner takeover of a stale journal lock is not modelled.
- ErasureJournal.RunsAreWellBuilt: speaks of runs of at most 9007199254740991 appends; past
  that the sequence number is no safe integer and the journal would not verify.
- Backup.CreateBackup: the dump is opaque bytes, and the tables a restore finds are an
  input; that pg_restore reproduces the dump is checked by the restore itself.
- Backup.RestoreBackup: server version, roles, emptiness of the target and the truncation
  of projections are not modelled; nor is the text of the manifest, which is kept decoded.
- AiConfigurationStore.StepRefines: values the table constraints refuse end as an aborted
  transaction, without saying which constraint refused them.
- AuditShape.ModesAgree: the savepoint participant and the row counts, which derive from
  the candidates and rows, are not part of the shape.
- AuditCache.AuditCaches.Build: detached copies are not modelled; values cannot be changed
  by callers here. The resolver's own caches are cleared too, but no audit reads them.
- CallPaths.Search: the depth is a natural number and hops are records, not printed text.
- Supervisor.RunKeeps: the timer that kills a worker which ignores its shutdown is not
  modelled, nor the log.
- Citation mapping, prompts and provider adapters; the regression evidence authority and
  the lineage rebuild; migrations; the projection blocks of documents.
