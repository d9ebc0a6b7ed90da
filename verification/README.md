# Verified model of the Animacraft Maker v8 front-end logic

The project models the stateful and arithmetic core of the Maker v8 client: how local edits become durable, how a
Complete is priced, how a published document turns into rows and commitments, how version chains and revisioned records
stay consistent between tabs, and how author edits keep a document's references whole. Each module follows one source
file or one part of it. `dafny verify dfyconfig.toml` checks everything.

Code that changes state step by step is written as classes and loops (`LocalPersistence.Persistence`,
`ArtworkStore.Store`, `AssetQuilt.Preparation`, `CreatorColorClone.Clone`, `SlotLayout.Builder`, and the validation,
quoting, compiling and parsing methods); each such method's postcondition is the value of a specification function, and
the lemmas are about those functions and about whole runs of events.

| module | what it holds |
|---|---|
| `LocalPersistence`, `LocalRecovery` | recovery, coalesced saves, compare-and-swap commits and disposal as interleaved events; what recovery, the status and the store tell over whole runs |
| `JsonBoundary` | the worklist walk over a heap graph, against an independent definition of a bounded JSON tree |
| `CompletionPolicy`, `CompleteQuote`, `QuoteMeaning`, `QuoteLedger` | policies, the Complete quote, who is paid what and why a quote is refused, and its ledger over whole runs |
| `Bcs`, `BaseRows`, `BaseEntries` | canonical rows and their wire form |
| `RowMeaning`, `RowFields`, `RowAcceptance` | compiled rows read back to the document; which documents compile |
| `RuleRows`, `BaseCommitments`, `StorageBinding` | rule commitments, eight rolling chains, what each commitment binds |
| `CatalogLineage` | one version chain rebuilt from unordered discovery |
| `ArtworkStore`, `ArtworkHistory`, `ArtworkEffects` | the revisioned artwork record, its runs with storage preparations in flight, and what a record holds after any run |
| `Base64`, `QuiltPatch`, `AssetQuilt`, `QuiltMeaning`, `QuiltRuns` | patch identities and the layout pinned once |
| `ColorText`, `CreatorColors`, `CreatorColorRules`, `CreatorColorEdits`, `CreatorColorClone` | Smart Color edits |
| `SwatchEffects`, `ColorEffects` | what each accepted edit leaves, and when an edit is accepted |
| `ImageHeader`, `PngHeader` | PNG and JPEG header readers, with printed grammars |
| `JsonReferences`, `AssetDocument`, `AssetRules`, `CoverReplacement`, `StyleReplacement`, `StyleEffects` | replacing a cover or a Style's artwork |
| `SlotLayout`, `SlotMeaning`, `PlayerSession` | slot layout and acceptance of a Player session |
| `Results`, `SafeText`, `Ordering`, `Sequences`, `Keyed`, `FreshKeys` | shared text checks, sorting, keyed lists, fresh names |

## What is false of the code

Three promises do not hold on all inputs. Each has a concrete run or input and an exact condition.

- **A save in the last gap.** Between the save loop's last test and `saveFlight = null`
  (`maker-v8-local-player-persistence.js:47-67`), `save()` returns the old flight's promise, which resolves without the
  new edit. `LateSaveLosesEdit` is such a run; `LateSaveExact` shows the promise is honest exactly when the session had
  nothing unsaved at the call. `SaveIsDurable` covers every save made before that gap.
- **An edit in the restore gap.** An edit between `restoreCheckpoint` taking effect and the revision read
  (`maker-v8-local-player-persistence.js:30-33`) is reported as saved. `RestoreGapExact` gives the exact condition: the
  report is right if and only if the last content the session shows is the recovered row's. `RestoreGapLosesEdit` is a
  run in which it is wrong.
- **The last safe revision.** `save` accepts an expected revision of 2^53 - 1 and stores a record whose revision is no
  safe integer, so every later read of it fails (`maker-v8-composable-artwork-store.js:34`, `:118-121`).
  `LastRevisionFails` is the case, and a run reaches it only after 2^53 - 1 writes (`RevisionCountsWrites`,
  `EveryRevisionReached`); `StoredPasses` shows that a stored record passes `check` exactly while its revision is a safe
  integer.

## How abstractions are stated

SHA-256 is an arbitrary function. Binding results do not assume it injective: they return two different inputs with one
hash (`BaseCommitments.AuthorBinds`, `StorageBinding.StorageBinds`, `ArtworkHistory.NoIdentityConflict`,
`QuiltRuns.NeverDrifts`). Only the local checkpoint model identifies a content hash with its content. The quilt encoder
is a deterministic partial function that keeps increasing identifiers in order (`QuiltRuns.EncoderOk`). Row schemas are
round-tripping encoders. The artwork store takes its hash and its artwork check as one `Codec`; `ArtworkStore.Store`
uses the PNG header reader. IndexedDB is an atomic map; the network, wallets and clocks are inputs of the events.

## Model

| member | source | states |
|---|---|---|
| `LocalPersistence.OneCommitInFlight` | maker-v8-local-player-persistence.js:41-69 | In every reachable state at most one commit is in flight; a commit being started expects exactly the row acknowledged last |
| `LocalPersistence.SavedRevisionIsAcknowledged` | maker-v8-local-player-persistence.js:32-57 | The acknowledged row and `savedRevision` are those of the last commit, or of the recovered or empty start; a commit's row holds what the session held at that revision |
| `LocalPersistence.CommitsAdvance` | maker-v8-local-player-persistence.js:47-62 | Acknowledged commits carry strictly increasing session revisions, whatever failed, was retained or superseded in between |
| `LocalPersistence.SaveIsDurable` | maker-v8-local-player-persistence.js:41-69 | A save made before its flight's last guard resolves only once the revision it saw, or a later one, is acknowledged, and the acknowledged row then holds that session content |
| `LocalPersistence.CommitWasStored` | maker-v8-local-player-persistence.js:52-57 | Every acknowledged row, and every row a flight has applied, stood in the store at an earlier point of the run |
| `LocalPersistence.StoreFitsAfter` | maker-v8-local-player-persistence.js:27-57 | A load of the present row and a transaction of this instance leave the store at the row recovered, being applied or acknowledged |
| `LocalPersistence.StoreFollows` | maker-v8-local-player-persistence.js:21-73 | From then on, until another tab writes, the store holds the row recovered, the row of the flight being applied, or the acknowledged one |
| `LocalPersistence.SavedStaysStored` | maker-v8-local-player-persistence.js:41-69 | While no other tab writes, the store holds the session's content at the revision of each resolved timely save of something newer than the recovered row, or at a later one |
| `LocalPersistence.NoForeignRowLost` | maker-v8-local-player-persistence.js:52-57 | When a commit replaces the stored row, the row replaced is the one this instance acknowledged: no other tab's row is overwritten |
| `LocalPersistence.NothingUnsaved` | maker-v8-local-player-persistence.js:71 | A ready, undisposed instance with no edit in the restore gap that reports no unsaved changes shows the acknowledged row; with no row acknowledged nothing was ever committed or recovered and the session is as it was at the call of initialize() |
| `LocalPersistence.FailedRecoveryNeverCommits` | maker-v8-local-player-persistence.js:27-43 | After a failed recovery no run of further events starts a flight, commits or changes the store |
| `LocalPersistence.ClosedViewIsSilent` | maker-v8-local-player-persistence.js:15-20 | After dispose no event changes the published status |
| `LocalPersistence.RetryRepeatsCommit` | maker-v8-local-player-persistence.js:58-62 | A rejected commit whose session has not moved is retried with the same bytes and the same expectation |
| `LocalPersistence.SettledStays` | maker-v8-local-player-persistence.js:63-67 | Between the loop's last test and the finally callback nothing is acknowledged, whatever else runs |
| `LocalPersistence.LateSaveExact` | maker-v8-local-player-persistence.js:45-67 | A save in that gap resolves without its edit exactly when the session had something unsaved |
| `LocalPersistence.LateSaveLosesEdit` | maker-v8-local-player-persistence.js:45-67 | A run in which a save resolves although no commit has carried its edit |
| `LocalPersistence.RestoreGapExact` | maker-v8-local-player-persistence.js:30-35 | Recovery reports nothing unsaved; that is true if and only if the last edit in the restore gap, if any, put the recovered content back |
| `LocalPersistence.RestoreGapLosesEdit` | maker-v8-local-player-persistence.js:30-35 | A run in which recovery ends reporting nothing unsaved while the session shows an edit that no row holds |
| `LocalPersistence.StepInv` | maker-v8-local-player-persistence.js:21-73 | Every event keeps the protocol invariant (one live flight, linked commits, covered calls) |
| `LocalPersistence.Persistence.Initialize` | maker-v8-local-player-persistence.js:21-26 | In place: the closure's new state is the specification's effect of the call |
| `LocalPersistence.Persistence.LoadSettled` | maker-v8-local-player-persistence.js:27-30 | In place: checks disposal and the session revision, then starts the restore; what follows from it over runs is `LocalRecovery.LoadExact` |
| `LocalPersistence.Persistence.RestoreSettled` | maker-v8-local-player-persistence.js:30-32 | In place: the session's own revision check and its one edit, or the failed recovery |
| `LocalPersistence.Persistence.FinishInitialize` | maker-v8-local-player-persistence.js:31-36 | In place: acknowledges the row at the revision the session has then |
| `LocalPersistence.Persistence.Save` | maker-v8-local-player-persistence.js:41-69 | In place: captures a job when the revision moved, joins the live flight or starts one, and returns its promise |
| `LocalPersistence.Persistence.Guard` | maker-v8-local-player-persistence.js:47-54 | In place: one loop test and, when it holds, the commit start with the current expectation |
| `LocalPersistence.Persistence.CommitResolved` | maker-v8-local-player-persistence.js:55-57 | In place: acknowledges the row and the job's revision, then tests the loop again |
| `LocalPersistence.Persistence.CommitRejected` | maker-v8-local-player-persistence.js:58-62 | In place: retains the job unless a newer one is pending, and settles the flight with the error |
| `LocalPersistence.Persistence.ClearFlight` | maker-v8-local-player-persistence.js:67 | In place: the finally callback frees the flight |
| `LocalPersistence.Persistence.HasUnsavedChanges` | maker-v8-local-player-persistence.js:71 | Reports exactly the specification's predicate of the state |
| `LocalPersistence.Persistence.Dispose` | maker-v8-local-player-persistence.js:73 | In place: closes the view and hands back the live flight |
| `LocalPersistence.CheckpointStore.Save` | maker-v8-local-player-store.js:129-155 | The compare-and-swap of one checkpoint row: refused on any other expectation or when the revision is exhausted, unchanged when the bytes agree, else the next revision |
| `LocalPersistence.Session.Restore` | maker-v8-local-player.js:147-212 | Refused when the session moved; otherwise one edit exactly when the content differs |
| `LocalRecovery.LoadExact` | maker-v8-local-player-persistence.js:21-36 | From the call of initialize() to the load's result, whatever else runs: recovery fails with the error published if and only if the session was edited in between; otherwise it is ready on an empty store, or goes on to restore the row found |
| `LocalRecovery.RestoreExact` | maker-v8-local-player-persistence.js:27-36 | From there to the restore's result: recovery fails if and only if the session was edited in between |
| `LocalRecovery.RejectionFails` | maker-v8-local-player-persistence.js:36 | A rejected load or restore ends recovery with the error published, unless the view was closed |
| `LocalRecovery.ClosedNeverRecovers` | maker-v8-local-player-persistence.js:28-31 | A view closed before recovery ends never becomes ready, starts no flight and writes nothing, over any run |
| `LocalRecovery.UnsavedExact` | maker-v8-local-player-persistence.js:71 | A ready, open view reports unsaved changes exactly while a flight is not cleared or the session differs in revision from the last acknowledged one |
| `LocalRecovery.StatusTells` | maker-v8-local-player-persistence.js:14-64 | In every run an open view's published status is error after a failed recovery or flight, saving while a commit is on its way, and otherwise saved or idle by whether a row is acknowledged |
| `LocalRecovery.NothingForgotten` | maker-v8-local-player-persistence.js:41-69 | A revision asked to be saved is, over any further run, acknowledged, pending or being committed, or a later one is, whatever is rejected, superseded or closed |
| `LocalRecovery.SaveCompletes` | maker-v8-local-player-persistence.js:41-69 | From rest, an edit saved while nothing else happens ends in the store, acknowledged, with nothing unsaved |
| `LocalRecovery.ExpectTells` | maker-v8-local-player-store.js:129-155 | An expected revision and hash name one row of a store, or none |
| `LocalRecovery.RevisionTellsRow` | maker-v8-local-player-store.js:129-155 | The stored revision never falls, and while it stays the row is the same one, so a compare-and-swap that finds its expectation finds the row it was made of |
| `JsonBoundary.Inspect` | maker-commerce-v8.js:134-233 | The walk ends on every finite, possibly cyclic heap and accepts exactly the bounded trees: no object twice, every node well formed, depth at most 64, at most 100,000 nodes; a refusal names a true defect |
| `JsonBoundary.NodesAreDone` | maker-commerce-v8.js:134-233 | With an empty worklist every node of the unfolding has been visited |
| `JsonBoundary.WalkComplete` | maker-commerce-v8.js:134-233 | A finished walk has established the independent tree definition, so push order cannot matter |
| `JsonBoundary.TooManyNodes` | maker-commerce-v8.js:139-149 | Visiting more nodes than the limit proves the unfolding has too many |
| `JsonBoundary.PushProperties` | maker-commerce-v8.js:213-230 | Pushes one frame for each plain enumerable property in key order, or names the first property, in key order, that is not |
| `JsonBoundary.InspectObject` | maker-commerce-v8.js:172-211 | Finds a defect exactly when the object's prototype, keys or array shape are not plain |
| `JsonBoundary.Visit` | maker-commerce-v8.js:150-212 | One value: no issue exactly when it is fine and not seen before, and then its children are what is pushed |
| `JsonBoundary.ArraysAreDense` | maker-commerce-v8.js:191-211 | Counting an array's keys is enough: an accepted array has every index below its length and no other key |
| `CompletionPolicy.ValidateCompletionPolicy` | maker-commerce-v8.js:386-442 | Reports no issue exactly when the record denotes a sound policy: a quota only in quota modes, a price only in paid modes, a cap not below the quota |
| `CompletionPolicy.ChargeMeaning` | maker-commerce-v8.js:1143-1160 | A Complete is blocked exactly by a reached cap or an exhausted blocking quota; otherwise it costs the next step of what the wallet owes in all |
| `CompletionPolicy.ReasonTells` | maker-commerce-v8.js:1143-1160 | Each reason of a charge is given exactly in its own state of cap, quota and mode |
| `CompleteQuote.ValidateCompleteInputs` | maker-commerce-v8.js:1162-1333 | Accepts exactly the sound inputs, and what it returns denotes them |
| `CompleteQuote.ValidateLine` | maker-commerce-v8.js:1206-1320 | One used-pack line: no issue exactly when it is sound and its pack id is new |
| `CompleteQuote.ValidatePackPolicy` | maker-commerce-v8.js:1228-1247 | A pack policy is accepted exactly when it is sound |
| `CompleteQuote.BlockedMeaning` | maker-commerce-v8.js:1361-1415 | No pending line is blocked exactly when the maker is active and accessible, every pack entitled, and nothing is over quota or cap; no line is ever PACK_NOT_ACTIVE |
| `CompleteQuote.Pend` | maker-commerce-v8.js:1353-1415 | Builds the base and pack lines, every unentitled pack in order, and the first blocker in base-then-pack order |
| `CompleteQuote.SplitAtomic` | maker-commerce-v8.js:842-856 | The floor share and the rest, or the rounding refusal exactly when a positive charge at a positive rate would share nothing |
| `CompleteQuote.FloorsAddUp` | maker-commerce-v8.js:842-856 | The per-line floors add up to at most the floor of the whole fee and miss it by less than the number of lines |
| `CompleteQuote.SplitConserves` | maker-commerce-v8.js:1429-1488 | The charges equal the protocol shares plus the maker and pack treasuries |
| `CompleteQuote.WithinU128` | maker-commerce-v8.js:826-840 | With at most 1,001 validated lines no product and no partial sum reaches 2^128 |
| `CompleteQuote.QuoteComplete` | maker-commerce-v8.js:1353-1520 | Never throws; READY exactly when nothing blocks and no paid line's share rounds to zero; READY amounts are the sums of the lines, conserved and at most 1002 times 10^12; otherwise every amount is zero and the reason is the first blocker or, failing that, the first rounding line; missing entitlements in order |
| `CompleteQuote.AmountsBounded` | maker-commerce-v8.js:1490-1496 | All totals of a quote stay within 1002 times 10^12 |
| `CompleteQuote.ReadyQuoteFee` | maker-commerce-v8.js:1429-1496 | In a READY quote the content fee is within one unit a line of flooring once |
| `QuoteMeaning.LineTells` | maker-commerce-v8.js:1361-1415 | Pending line k carries the k-th input's pack and treasury, is refused exactly without access or by its own policy, is due the next step of what its wallet owes, and its reason names that state |
| `QuoteMeaning.ReadyPays` | maker-commerce-v8.js:1429-1520 | READY if and only if nothing is refused and no due amount's share rounds to nothing; then the base pays the maker's treasury, line k pack k's treasury, each what is due less its floored share, and the allocations repeat exactly that |
| `QuoteMeaning.MakerShare` | maker-commerce-v8.js:1429-1488 | The maker's treasury receives the rest of the base line and nothing else |
| `QuoteMeaning.RefusedTells` | maker-commerce-v8.js:1417-1470 | A quote that is not READY charges nothing, gives the reason of its first refused line, or rounding at the first line that rounds, and names every line with its own reason |
| `QuoteMeaning.MissingTells` | maker-commerce-v8.js:1384-1415 | The packs reported missing are exactly those of the lines without access, in order |
| `QuoteLedger.StepKeeps` | maker-commerce-v8.js:1143-1160 | One posted Complete keeps every scope's cap, quota and charge law |
| `QuoteLedger.PostEffect` | maker-commerce-v8.js:1384-1415 | Posting a quote touches a wallet's counter of a scope once exactly when a line is of that scope, and no other entry |
| `QuoteLedger.LineOfScope` | maker-commerce-v8.js:1368-1404 | A READY quote's line for a scope is unblocked and charged by that scope's own counters |
| `QuoteLedger.QuotaAndCap` | maker-commerce-v8.js:386-442 | Over every run, for any number of wallets: totals never pass the cap, a blocking quota is never passed, and after k completes a quota-then-paid wallet has been charged exactly max(0, k - quota) prices |
| `QuoteLedger.CountedIsProven` | maker-commerce-v8.js:1384-1415 | Over every run a scope is counted for a wallet only by quotes in which the wallet had access to it |
| `BaseCommitments.CheckedEntries` | maker-v8-base-commitments.js:49-69 | Accepts exactly the lists in category order whose sequences count their category, whose bytes start with that sequence and re-encode to themselves |
| `BaseCommitments.CheckedIsOrdered` | maker-v8-base-commitments.js:117-123 | After checkedEntries the order and sequence test inside the derivation cannot fail |
| `BaseCommitments.DeriveAuthor` | maker-v8-base-commitments.js:81-94 | One pass gives the rolling commitment; checkpoint k is the value of the first k rows; counts and total are those of the list |
| `BaseCommitments.AuthorBinds` | maker-v8-base-commitments.js:81-94 | Two checked lists with one author commitment have the same kinds and row bytes in order, or two hash inputs that collide are returned |
| `BaseCommitments.RollingBinds` | maker-v8-base-commitments.js:87-90 | Backward over the chain: equal rolling values of equally long lists mean equal rows, or a collision is returned |
| `BaseCommitments.DeriveStorage` | maker-v8-base-commitments.js:102-140 | For any commitment of a row, the single pass gives eight independent folds, a checkpoint after each row and the seals; its repeated tests of order, sequence and rule bytes never fire and it fails only on the identity or a differing rule commitment |
| `StorageBinding.StorageBinds` | maker-v8-base-commitments.js:102-140 | Two checked lists with one sealed aggregate were sealed under one identity and have the same kinds and row bytes in order, or two hash inputs that collide are returned |
| `StorageBinding.RowBinds` | maker-v8-base-commitments.js:71-78 | Rows of one kind with one commitment, a rule's through its selectors, have the same bytes, or a collision is returned |
| `StorageBinding.ChainBinds` | maker-v8-base-commitments.js:125-128 | Backward over any one chain: equal values of alike lists mean equal rows, or a collision is returned |
| `StorageBinding.CountsDecide` | maker-v8-base-commitments.js:49-69 | Two ordered lists with equal category counts have the same kind and sequence at every position |
| `RuleRows.RuleBinds` | maker-v8-base-commitments.js:71-78 | Two rules with one commitment are the same rule, selectors and targets included, or a collision is returned |
| `RuleRows.DomainsApart` | maker-v8-base-commitments.js:26-27 | No hash input of one purpose is an input of another, within the author or the storage commitment or across them |
| `StorageBinding.AuthorIsNoAggregate` | maker-v8-base-commitments.js:81-140 | An author commitment is never a sealed aggregate unless their two inputs collide |
| `StorageBinding.RowReads` | maker-v8-base-commitments.js:71-78 | A row's hash input tells the identity, kind, sequence and bytes |
| `StorageBinding.InitialReads` | maker-v8-base-commitments.js:106-114 | The input of an empty chain tells the identity and the chain |
| `StorageBinding.AdvanceReads` | maker-v8-base-commitments.js:117-128 | The input of one chain step tells the registry, the chain, the index, the value before and the row |
| `StorageBinding.CategorySealReads` | maker-v8-base-commitments.js:129-134 | The input of a sealed chain tells the identity, the chain, its length, and the values it starts and ends with |
| `StorageBinding.StatedRuleBinds` | maker-v8-base-commitments.js:121-124 | Two rules accepted with one stated commitment are one rule, under whatever identities, or a collision is returned |
| `StorageBinding.ProtectedCounted` | maker-v8-base-commitments.js:49-69 | After n checked entries as many styles are counted protected as were received |
| `StorageBinding.CheckedRepeats` | maker-v8-base-commitments.js:49-69 | A checked list repeats kind, sequence, bytes and stated commitment of what was received; each row is canonical and starts with its sequence |
| `BaseCommitments.AppendDerives` | maker-v8-base-commitments.js:117-135 | Folding one row in place advances its category's chain and the aggregate and leaves the other six alone |
| `BaseCommitments.ResumeCompletes` | maker-v8-base-commitments.js:115-135 | Resuming from a checkpoint and folding the remaining rows gives the fresh derivation of all |
| `BaseCommitments.DerivesOnce` | maker-v8-base-commitments.js:117-135 | The eight folds determine every field of a checkpoint |
| `BaseCommitments.CountsTotal` | maker-v8-base-commitments.js:83-93 | The seven counts add up to the number of rows |
| `BaseCommitments.CountIsFilter` | maker-v8-base-commitments.js:131 | Each count is the number of rows of its category |
| `Bcs.ByteVectorUnique` | maker-v8-base-commitments.js:87-93 | A length-prefixed byte vector followed by anything reads back in one way |
| `Bcs.U64sUnique` | maker-v8-base-commitments.js:92 | A counted list of u64 values followed by anything reads back in one way |
| `BaseRows.CompileRows` | maker-v8-base-rows.js:89-146 | Produces the rows of the document whenever it has any, and fails exactly when it has none; what rows say is `RowFields`, when there are any `RowAcceptance.CompilesExactly` |
| `BaseRows.RowsCanonical` | maker-v8-base-rows.js:63-146 | With unique keys, any chain of rearrangements of tracks, colors, swatches, parts, items, styles and assets changes no row, and makes none appear |
| `BaseRows.RowsOnce` | maker-v8-base-rows.js:89-146 | A document has at most one set of rows |
| `BaseRows.RowsNumbered` | maker-v8-base-rows.js:92-142 | In every category row i carries sequence i |
| `BaseRows.PartTracks` | maker-v8-base-rows.js:103-105 | A part row lists exactly the tracks its public styles use, in render order |
| `BaseRows.StyleAssetRow` | maker-v8-base-rows.js:118-143 | Every style row's asset has exactly one asset row |
| `BaseRows.PartTrackKeys` | maker-v8-base-rows.js:103-104 | The set of used track keys filters the sorted tracks |
| `BaseRows.MakeItemStyles` | maker-v8-base-rows.js:119-135 | The nested loops make the rows in canonical order and fail exactly when some style has none |
| `RowMeaning.SignedReads` | maker-v8-base-rows.js:46-60 | A signed field is present exactly when the value is in range and a whole number of thousandths, and then sign and magnitude read back to it |
| `RowMeaning.PpmReads` | maker-v8-base-rows.js:46-60 | An unsigned field is present exactly when the value is in range and a whole number of millionths, and reads back to it |
| `RowMeaning.Arranged` | maker-v8-base-rows.js:63-104 | The canonical parts, items and styles are the document's public ones, each once, strictly in the author's order |
| `RowFields.StyleRowsRead` | maker-v8-base-rows.js:118-140 | The style rows are the styles of every public item, each once, in the author's order; x, y, scale, rotation and opacity read back to the style's, and every other field is that style's, its descriptor's or its certified transport's |
| `RowFields.ItemRowsRead` | maker-v8-base-rows.js:108-117 | The item rows are the public items of every part, each once, in the author's order, with their own fields |
| `RowFields.PartRowsRead` | maker-v8-base-rows.js:101-107 | The part rows are the parts in menu order, each with exactly the tracks its public styles are drawn on |
| `RowFields.TrackRowsRead` | maker-v8-base-rows.js:92-95 | The track rows are the tracks in render order, with their own fields |
| `RowFields.ColorRowsRead` | maker-v8-base-rows.js:63-100 | The color rows are the channels by key with their swatches by key; each stop reads back to its offset and color, equal offsets in the author's order |
| `RowFields.AssetRowsRead` | maker-v8-base-rows.js:141-146 | The asset rows are the assets a public style shows and the rights evidence, by id, with what certification says of their bytes |
| `RowAcceptance.CompilesExactly` | maker-v8-base-rows.js:46-146 | A document with unique keys compiles if and only if every number has its fixed-width or fixed-point form and every needed asset is certified as it must be |
| `BaseEntries.CompiledRowsAccepted` | maker-v8-base-rows.js:114-146 | The compiled rows with the rules in their place, encoded and concatenated in tag order, are accepted by checkedEntries |
| `BaseEntries.ConcatAccepted` | maker-v8-base-commitments.js:49-69 | Well-formed categories concatenated in tag order are accepted |
| `Ordering.SortCanonical` | maker-v8-base-rows.js:63-64 | Sorting two arrangements of one collection with identifying keys gives one list |
| `Ordering.SortStable` | maker-v8-base-rows.js:96 | Elements with equal keys keep their order |
| `CatalogLineage.LoadLineage` | maker-v8-catalog-adapter.js:301-359 | Succeeds exactly when the matching activations are readable and form one chain, and returns that chain newest first |
| `CatalogLineage.ReadAll` | maker-v8-catalog-adapter.js:303-341 | Collects exactly the matching readable roots; any refusal means no lineage exists |
| `CatalogLineage.VersionsConsecutive` | maker-v8-catalog-adapter.js:342-357 | Sorted distinct versions with every predecessor present are n, n-1, ..., 1, neighbours linked both ways |
| `CatalogLineage.ChainUnique` | maker-v8-catalog-adapter.js:342-358 | One collection of versions makes at most one chain |
| `CatalogLineage.LineageOnce` | maker-v8-catalog-adapter.js:301-359 | There is at most one lineage, with one version for each activation of the key |
| `CatalogLineage.DiscoveryOrder` | maker-v8-catalog-adapter.js:303 | The result does not depend on the order of discovery |
| `CatalogLineage.WalkVisitsAll` | maker-v8-catalog-adapter.js:327-358 | Following previousRootId from any version visits each older root exactly once and stops |
| `CatalogLineage.ClimbVisitsAll` | maker-v8-catalog-adapter.js:342-357 | Following successors from any version visits each newer root in turn, up to the head |
| `CatalogLineage.LineageExactly` | maker-v8-catalog-adapter.js:301-359 | A lineage is exactly a chain of what the key's activations show: published roots of this maker with their own fields and the document their manifest binds |
| `ArtworkStore.Store.Check` | maker-v8-composable-artwork-store.js:32-50 | The loop with its set of ids accepts exactly the records `Passes` describes |
| `ArtworkStore.Store.Transaction` | maker-v8-composable-artwork-store.js:71-88 | In place: check, update and put as one step; nothing changes when anything throws or the store is closed |
| `ArtworkStore.Store.SaveBytes` | maker-v8-composable-artwork-store.js:114-123 | In place: replaces artwork and keeps settings and uploads, at the next revision; what a record then holds over runs is `ArtworkEffects.RecordHoldsLast` |
| `ArtworkStore.Store.SaveProductSettings` | maker-v8-composable-artwork-store.js:136-147 | In place: saves settings of the exact target at the next revision |
| `ArtworkStore.Store.RememberUploadReference` | maker-v8-composable-artwork-store.js:124-135 | In place: appends one upload reference at most, without a new revision |
| `ArtworkStore.KeyForInjective` | maker-v8-composable-artwork-store.js:23-31 | Two bindings with one JSON key text are the same binding |
| `ArtworkHistory.StepKeeps` | maker-v8-composable-artwork-store.js:71-147 | Whatever tab an event comes from, each record, its references and the preparations in flight stay consistent with the versions the record has had |
| `ArtworkHistory.StoredPasses` | maker-v8-composable-artwork-store.js:32-50 | In every run a stored record passes check if and only if its revision is a safe integer |
| `ArtworkHistory.LastRevisionFails` | maker-v8-composable-artwork-store.js:118-121 | At revision 2^53 - 1 a save succeeds and the next read of the record fails |
| `ArtworkHistory.EveryRevisionReached` | maker-v8-composable-artwork-store.js:114-123 | For every number of writes up to 2^53 there is a run of saves that reaches that revision, so the failing read is reachable |
| `ArtworkHistory.RevisionCountsWrites` | maker-v8-composable-artwork-store.js:114-147 | A record's revision is the number of its successful content and settings writes; references never move it |
| `ArtworkHistory.UploadsOnlyAppended` | maker-v8-composable-artwork-store.js:124-135 | Over any run upload references are only appended and a record's target never changes |
| `ArtworkHistory.ReferenceWasStored` | maker-v8-composable-artwork-store.js:124-135 | Each reference holds the artwork hash and settings the record had, at some point of the run, at its artworkRevision |
| `ArtworkHistory.ReferenceBinds` | maker-v8-composable-artwork-store.js:130 | A reference and any earlier state at its revision agree on hash and settings |
| `ArtworkHistory.HistoryBinds` | maker-v8-composable-transport.js:59-66 | When references come only from preparations, history's binding check never fires |
| `ArtworkHistory.NoIdentityConflict` | maker-v8-composable-artwork-store.js:130-132 | The identity conflict exhibits two sources with one upload id |
| `ArtworkHistory.SameSourceSameUpload` | maker-v8-composable-transport.js:80-111 | Two preparations of one artwork revision, in flight or finished, resume the same upload, whatever runs between them |
| `ArtworkHistory.PrepareAgain` | maker-v8-composable-transport.js:80-111 | Preparing a revision again after a preparation of it has finished stores no second reference |
| `ArtworkEffects.SaveExact` | maker-v8-composable-artwork-store.js:114-123 | A save is accepted exactly over the revision it was based on, none for a new record |
| `ArtworkEffects.SettingsExact` | maker-v8-composable-artwork-store.js:136-147 | A settings save is accepted exactly over its revision, for the record's own published target and settings that can be sold with it |
| `ArtworkEffects.RememberExact` | maker-v8-composable-artwork-store.js:124-135 | An upload is remembered exactly when it is of what the record holds and its id names nothing else |
| `ArtworkEffects.StepBrings` | maker-v8-composable-artwork-store.js:114-147 | One event changes a record's artwork only as an accepted save, to the bytes and hash it brought, and its settings only as an accepted settings save, to those it brought |
| `ArtworkEffects.RecordHoldsLast` | maker-v8-composable-artwork-store.js:114-147 | After any run a record exists exactly when artwork was saved for its target, and holds the bytes and hash of the last accepted save and the settings of the last accepted settings save, none before one |
| `ArtworkEffects.WrittenIsLoaded` | maker-v8-composable-artwork-store.js:71-123 | A load right after a successful write returns exactly what was written, while the revision is a safe integer |
| `Base64.Url64Replaces` | maker-v8-asset-quilt.js:10 | The URL-safe text is the standard text with two characters replaced and the padding stripped |
| `Base64.IdBytesExact` | maker-v8-asset-quilt.js:14-19 | idBytes accepts exactly the canonical text of size bytes, and reads back those bytes |
| `Base64.UnpackSextets` | maker-v8-asset-quilt.js:14-19 | Decoding an encoding gives the bytes |
| `Base64.FromToBase64` | maker-v8-asset-quilt.js:76-77 | Standard text made from bytes passes the canonical check and is read back |
| `Base64.SextetsHold` | maker-v8-asset-quilt.js:6-10 | Each three bytes and their four groups of six bits hold the same 24 bits, the rest padded with zero bits (section 4 of RFC 4648) |
| `Base64.PaddedText` | maker-v8-asset-quilt.js:6-10 | The standard text is one character a group, padded to a multiple of four |
| `Base64.Alphabet` | maker-v8-asset-quilt.js:6-10 | The characters of the two alphabets are those of tables 1 and 2 of RFC 4648 |
| `QuiltPatch.MakePatchId` | maker-v8-asset-quilt.js:22-30 | The 37-byte buffer written in place gives the patch identity of the specification |
| `QuiltPatch.PatchRoundTrip` | maker-v8-asset-quilt.js:22-41 | Every blob and range has a 50-character identity that reads back to them and is served from the patch path |
| `QuiltPatch.PatchIdsDiffer` | maker-v8-asset-quilt.js:22-30 | Patch identities are injective |
| `QuiltPatch.AssetPathExact` | maker-v8-asset-quilt.js:32-41 | The patch path serves exactly the patch identities, the blob path exactly the canonical 32-byte identities |
| `AssetQuilt.MakeGroup` | maker-v8-asset-quilt.js:68-85 | Succeeds exactly on a valid owner and two or more valid assets with distinct ids, and sorts them |
| `AssetQuilt.Preparation.Resume` | maker-v8-asset-quilt.js:86-121 | In place: the code between two awaits leaves the store and the preparation as the specification says |
| `AssetQuilt.Preparation.MakeTransports` | maker-v8-asset-quilt.js:115-120 | Makes every asset's patch identity, or throws exactly when some patch does not fit |
| `QuiltRuns.StepKeeps` | maker-v8-asset-quilt.js:86-121 | Every event keeps each binding and upload those of the first group that made them |
| `QuiltRuns.SameAssetsSameQuilt` | maker-v8-asset-quilt.js:67-121 | Any two finished preparations of one owner and one set of assets, in any order and under any live shard counts, return the same upload and the same patch identities |
| `QuiltRuns.OutcomeIsFinal` | maker-v8-asset-quilt.js:111-121 | A finished outcome stays while other preparations run on |
| `QuiltRuns.OutcomeReadsBack` | maker-v8-asset-quilt.js:115-120 | Each identity handed out reads back to the upload's blob and that asset's range in the pinned layout |
| `QuiltRuns.OneUploadOneGroup` | maker-v8-asset-quilt.js:81-85 | Two groups with one upload id have the same owner, assets and bytes, or a hash collides |
| `QuiltRuns.NeverDrifts` | maker-v8-asset-quilt.js:96-118 | No preparation fails by binding, quilt, upload or index drift unless a hash collides: only on the shard count, the first encoding or the publisher |
| `QuiltMeaning.GroupTells` | maker-v8-asset-quilt.js:67-85 | A group holds the assets by id with the bytes their text encodes, and its source hash and upload id are made of the owner and each asset's id, type, length and hash |
| `QuiltMeaning.CanonicalExactly` | maker-v8-asset-quilt.js:74-78 | A text is accepted exactly when it is the canonical Base64 of some bytes |
| `QuiltMeaning.ProposedExactly` | maker-v8-asset-quilt.js:88-96 | A layout is proposed exactly for 4 to 65535 shards that the encoder takes, with the hash of the encoded quilt |
| `QuiltMeaning.BoundExactly` | maker-v8-asset-quilt.js:96-106 | Whatever is stored, a preparation goes on from a binding exactly when it pins the group's own layout |
| `QuiltMeaning.DoneExactly` | maker-v8-asset-quilt.js:107-121 | Whatever is stored, a preparation finishes exactly when the upload is the group's quilt of the pinned hash with a patch for each asset in order, and each identity then reads back to that patch |
| `CreatorColorRules.UniqueKeyIsFresh` | maker-v8-creator-colors.js:47-51 | uniqueKey gives a key no row has, and a safe one within the publication limits |
| `CreatorColorRules.FindUniqueKey` | maker-v8-creator-colors.js:47-51 | The unbounded loop ends, with the first free number |
| `FreshKeys.Pigeonhole` | maker-v8-creator-colors.js:47-51 | Distinct names that are all used are at most as many as the used ones |
| `CreatorColorRules.SetRecipeKeeps` | maker-v8-creator-colors.js:53-57 | Setting a recipe color keeps every choice resolving and one to a channel, and changes no other channel's |
| `CreatorColorEdits.EditCloses` | maker-v8-creator-colors.js:70-161 | Every edit of a valid document, before the final validation, keeps keys unique, swatch lists non-empty, defaults present, and every style link and recipe color resolving |
| `CreatorColorEdits.DeleteSwatchCloses` | maker-v8-creator-colors.js:125-138 | After a swatch deletion every style link and recipe color still resolves |
| `CreatorColorEdits.DeleteSwatchRepairs` | maker-v8-creator-colors.js:125-138 | The deleted swatch's links and recipe color become the surviving default, which is the old one or else the first swatch left; no other link changes |
| `CreatorColorEdits.DeleteChannelCloses` | maker-v8-creator-colors.js:102-110 | After a channel deletion no style and no recipe color refers to it |
| `CreatorColorEdits.OnlyLimitsRefuse` | maker-v8-creator-colors.js:162 | The final validation refuses an edit if and only if it exceeds a publication limit |
| `CreatorColorEdits.LockedStyleNeverChanges` | maker-v8-creator-colors.js:91-164 | Over any run of accepted edits a whole-locked style keeps its link, its channel's whole content and that channel's recipe color |
| `CreatorColorEdits.CanDeleteExactly` | maker-v8-creator-colors.js:59-64 | The delete control is offered exactly when deleting the swatch is accepted, but for the publication limits |
| `CreatorColorEdits.SelectionExists` | maker-v8-creator-colors.js:101-110 | The channel selected next exists, and none is selected only when none is left |
| `CreatorColorClone.PrepareChange` | maker-v8-creator-colors.js:70-165 | The whole change: validate, clone, write in place, validate again, compare and check the lock, equal to the specification |
| `CreatorColorClone.Clone.LinkStyle` | maker-v8-creator-colors.js:84-97 | In place: links the style to the channel and its default, or unlinks it |
| `CreatorColorClone.Clone.WriteChannel` | maker-v8-creator-colors.js:98-161 | In place on the clone: what each channel and swatch edit writes; what that leaves is `ColorEffects.AcceptedHasEffect` |
| `CreatorColorClone.Clone.WriteNewChannel` | maker-v8-creator-colors.js:76-83 | In place: a new channel with the default preset and its recipe color |
| `CreatorColorClone.Clone.ChooseColor` | maker-v8-creator-colors.js:53-57 | In place: replaces the channel's recipe choice or appends one |
| `CreatorColorClone.Clone.DeleteSwatch` | maker-v8-creator-colors.js:125-138 | In place: filters the swatches, then repairs styles and recipe |
| `ColorEffects.AcceptedHasEffect` | maker-v8-creator-colors.js:70-165 | The outcome of every accepted edit is the document with exactly what its action names changed: a hint sets the entered color and its derived gradient, a middle or stop color that stop, a name the trimmed name, a default the default and the recipe's choice, an assignment the link and the channel's default, a new swatch or channel the first free key, a deletion the repaired references |
| `ColorEffects.AcceptedSelects` | maker-v8-creator-colors.js:81-110 | The channel selected next is the new one, the one linked, the one edited, or the deleted one's successor |
| `ColorEffects.AcceptedExactly` | maker-v8-creator-colors.js:70-165 | An edit is accepted if and only if the document is valid, the action names something there is, the result stays in the limits, and no whole-style lock stands against a change |
| `SwatchEffects.SwatchDone` | maker-v8-creator-colors.js:139-159 | Every accepted edit of a swatch has its effect on it and leaves the rest of it alone |
| `SwatchEffects.RgbaEntered` | maker-v8-creator-colors.js:15-21 | The color entered is the digits given in lower case, with the old alpha when only six were given |
| `SwatchEffects.GradientDerived` | maker-v8-creator-colors.js:23-33 | The derived stops are the color's channels at the nearest whole number to 18 hundredths, the color, and the channels moved 78 hundredths towards white, all with its alpha |
| `SwatchEffects.LabelNames` | maker-v8-creator-colors.js:8-13 | A name is accepted exactly when the value, cut free of the space around it, has 1 to 256 UTF-8 bytes, and is then that text |
| `ImageHeader.InspectJpeg` | maker-v8-creator-cover.js:35-56 | The offset loop ends, reads in bounds, and equals the recursive reader |
| `ImageHeader.PrintedIsRead` | maker-v8-creator-cover.js:35-56 | Any printed fill bytes, TEM markers and non-frame segments, then a frame header and any suffix, give that frame's dimensions or the size error (sections B.1.1.2 and B.2.2 of ITU-T T.81) |
| `ImageHeader.ReadIsPrinted` | maker-v8-creator-cover.js:35-56 | Whatever the reader takes a size from is such a printed header, with those dimensions |
| `ImageHeader.JpegGrammar` | maker-v8-creator-cover.js:25-57 | A JPEG is not refused as malformed if and only if it is a printed header with a suffix |
| `ImageHeader.InspectImage` | maker-v8-creator-cover.js:25-57 | Size limit, PNG signature and header chunk, then the JPEG loop, equal to the specification |
| `ImageHeader.FrameMarkers` | maker-v8-creator-cover.js:35-56 | The frame headers are the thirteen of table B.1 of ITU-T T.81; zero, restart markers, SOI, EOI and SOS are refused |
| `PngHeader.PngExactly` | maker-v8-creator-image.js:15-36 | The Style reader accepts exactly the printed PNG headers (section 11.2.2 of the PNG specification) within 12 MiB, 8192 pixels a side and 32 megapixels, and returns the printed width and height |
| `PngHeader.CoverPngExactly` | maker-v8-creator-cover.js:25-34 | The cover reader finds exactly the printed width and height, or refuses them |
| `PngHeader.FoundPngIsPrinted` | maker-v8-creator-cover.js:25-34 | What the cover reader calls a PNG is a printed one with those dimensions |
| `PngHeader.TooLargeExactly` | maker-v8-creator-cover.js:25-29 | The size error is given exactly beyond 5 MiB, before anything is read |
| `JsonReferences.VisitExact` | maker-v8-creator-cover.js:88-98 | The recursive visit finds a text exactly when a path outside the skipped places ends in it |
| `AssetDocument.MentionedExactly` | maker-v8-creator-image.js:46-57 | The search that skips the descriptors and one reference succeeds exactly when another place mentions the asset |
| `CoverReplacement.NextCoverIsFresh` | maker-v8-creator-cover.js:100-107 | A fresh cover id is always found: no descriptor and no durable row has it |
| `FreshKeys.SearchBounded` | maker-v8-creator-cover.js:102-106 | Among used.size + 1 distinct candidates the bounded loop always finds a free one, so the trailing error is unreachable |
| `CoverReplacement.CoverEditIsSafe` | maker-v8-creator-cover.js:111-142 | An accepted edit's commands run and its byte mutations meet their revisions; descriptors and durable rows stay alike one to one, nothing but the cover reference and the descriptors changes, every other mention stays where it was, and every asset mentioned elsewhere before the edit keeps its descriptor and bytes |
| `CoverReplacement.OldCoverRemovedExactly` | maker-v8-creator-cover.js:134-137 | The old cover is removed if and only if nothing else mentions it |
| `CoverReplacement.PrepareCreatorCover` | maker-v8-creator-cover.js:111-142 | The result filled step by step is the specification's |
| `StyleReplacement.CandidatesDiffer` | maker-v8-creator-image.js:59-67 | The candidates are pairwise distinct, however the old id is cut to 128 characters |
| `StyleReplacement.CandidateSafe` | maker-v8-creator-image.js:61-64 | A candidate made from key text is a safe key of at most 128 characters |
| `StyleReplacement.ExclusiveIsFresh` | maker-v8-creator-image.js:59-67 | An exclusive id is always found, unused by descriptors and durable rows |
| `StyleReplacement.FitNeverGrows` | maker-v8-creator-image.js:111-117 | The fitted scale is positive and at most 1, and the whole PNG fits the canvas |
| `StyleReplacement.StyleEditIsSafe` | maker-v8-creator-image.js:71-131 | Accepted artwork applies in full and safely: the style names the new asset, which holds the uploaded bytes; nothing outside that style and the descriptors changes; every mention stays but those in its old source-asset entry or replaced transform; every asset mentioned elsewhere keeps its descriptor and bytes |
| `AssetRules.CoverPreserves` | maker-v8-creator-cover.js:111-142 | Changing the cover removes no mention of any asset from any other place |
| `StyleReplacement.StylePreserves` | maker-v8-creator-image.js:101-131 | New artwork removes no mention from any place but the asset reference, the old source-asset entry and the replaced transform |
| `StyleReplacement.PrepareCreatorStylePng` | maker-v8-creator-image.js:71-131 | The commands pushed in order and the byte mutation are the specification's |
| `StyleEffects.FitDone` | maker-v8-creator-image.js:111-117 | The fitted scale is the largest number of millionths at which the PNG fits and is not enlarged; x and y are the whole numbers nearest to the centering margins; rotation is zero |
| `StyleEffects.StyleEditPlaces` | maker-v8-creator-image.js:71-131 | Accepted artwork lands: the style shows an asset that is its own, a locked position stays and any other is fitted and awaits confirmation, the old source identity is gone, and descriptor and durable row hold exactly these bytes as a PNG of one kind |
| `StyleEffects.StyleAcceptedExactly` | maker-v8-creator-image.js:71-100 | Artwork is accepted if and only if the style exists and is not locked, its editor metadata is well formed, its old asset is as saved and the bytes are a printed PNG within the limits |
| `StyleEffects.SavedExactly` | maker-v8-creator-cover.js:67-84 | An asset is as saved exactly when one row is its own, with a safe revision and the kind, type and length of its descriptor; of a cover the bytes are decoded as well |
| `StyleEffects.CoverEditPlaces` | maker-v8-creator-cover.js:111-142 | An accepted cover is under a new id, and descriptor and durable row hold exactly its bytes; a removal leaves none; the result tells the type and size read |
| `StyleEffects.CoverUnchangedExactly` | maker-v8-creator-cover.js:111-124 | Nothing is to be done exactly when there is no cover to remove or the saved one has these bytes and this type |
| `StyleEffects.CoverAcceptedExactly` | maker-v8-creator-cover.js:111-122 | A cover edit is accepted exactly when the present cover, if any, is as saved and the new one, if any, can be read |
| `SlotLayout.BuildLayout` | maker-v8-player-slot-layout.js:18-52 | A layout is built if and only if the bindings, profiles and Packs are well formed and some layout places every Part; it places root Parts in menu order, then profiles, then new Packs, each Part once, in slots of its own, end to end and at most 500 |
| `SlotLayout.RefusedIsUnplaceable` | maker-v8-player-slot-layout.js:24-31 | A request that append refuses cannot be placed after its predecessors by any layout |
| `SlotLayout.Builder.Append` | maker-v8-player-slot-layout.js:24-31 | In place: appends exactly when the key is valid and new and the capacity fits |
| `SlotLayout.LayoutUnique` | maker-v8-player-slot-layout.js:24-31 | The requests determine the layout |
| `SlotLayout.RowsApart` | maker-v8-player-slot-layout.js:24-31 | A row's slots end before every later row's start |
| `SlotMeaning.RowsLaid` | maker-v8-player-slot-layout.js:28-51 | The rows are the Maker's Parts in menu order, then the profiles in theirs, then each Pack's Parts in theirs, each with its own source, key and capacity, and nothing else |
| `SlotMeaning.ProfilesFollow` | maker-v8-player-slot-layout.js:37-44 | Comparing each profile with the one before accepts exactly the profiles that follow the order of their bindings |
| `PlayerSession.CheckLoadout` | maker-player-v8-view.js:320-345 | The loop with its offsets accepts exactly the loadouts whose every position has its recipe's binding, the next index of its Part, its color, and Parts in layout order |
| `PlayerSession.SameCounts` | maker-player-v8-view.js:437-450 | The map comparison accepts exactly when both lists have each key equally often |
| `PlayerSession.AcceptSession` | maker-player-v8-view.js:320-450 | Both checks together accept exactly when the loadout is right at every position and the two lists have equal key multisets |
| `PlayerSession.AcceptedIsSame` | maker-player-v8-view.js:320-450 | An accepted session's recipe and loadout have one length and agree at every position, even when keys collide |
| `PlayerSession.AcceptedExactly` | maker-player-v8-view.js:320-450 | A session is accepted if and only if its loadout is the one recipe and layout determine: same length, the recipe's bindings and colors, each in the slot after those its Part took before, Parts in layout order |
| `PlayerSession.KeysCollide` | maker-player-v8-view.js:454-461 | Two different selections can have one key |
| `PlayerSession.IndexInOwnSlot` | maker-player-v8-view.js:326-338 | Each selection index lies in the slots of its own Part |
| `PlayerSession.IndicesIncrease` | maker-player-v8-view.js:320-345 | Selection indices strictly increase along the loadout |

## Left out

- Browser, chain and publication engine code (`maker-v8-browser.js`, `maker-v8-activation-authority.js`, `maker-v8-composable-controller.js`): readback of remote state with little logic of its own.
- `maker-v8-catalog-commitments.js`: a fixed four-layer hash check, a shorter form of the author commitment.
- All rendering, wallet UI, configuration and internationalisation: no state or arithmetic to prove.
- Cryptography, quilt encoding and IndexedDB: an arbitrary hash, a deterministic partial encoder and an atomic map.
- JavaScript proxies and descriptors: the boundary walk works on a heap whose objects report prototype, keys and descriptors, or refuse to.
- Document validation beyond keys, references, colors and limits: `CreatorColors` models the color part of `maker-v8-document.js:501-799` and takes the size budget of the whole tree as a parameter; the asset edits assume a document that was validated on entry, and the row compiler takes the validated fields it reads.
- BaseRows.CompileRows: visibility programs, payload commitments, physical policies and labels travel as one opaque field; fixed-point values are exact rationals.
- CompleteQuote.QuoteComplete: the amounts are numbers, not their decimal text; the pack quote and the access quote are not modelled.
- LocalPersistence.SaveIsDurable: covers saves made before the last loop test only, because a later one is not durable (see above).
- LocalPersistence.Session.Restore: the checkpoint's own validation, undo and redo are not modelled; any of them is an edit, or a restore that is refused.
- BaseCommitments.DeriveStorage: takes the commitment of a row as a function, which `StorageBinding.SettingOf` fixes; the schemas of rows other than rules are arbitrary predicates on bytes, and the parser of rule bytes is any function whose results serialize back.
- ArtworkStore.Store.Check: a missing upload list is the empty list; the database opening, blocking and version-change callbacks are one open or closed flag.
- ArtworkHistory.HistoryBinds: upload progress and certification (`productSource`, `advance`) are not modelled; the wallet, upload and content reads of a preparation are not events, since they can only end it.
- AssetQuilt.Preparation.Resume: `selectMembers` and its layout binding are not modelled.
- CreatorColorClone.Clone.WriteChannel: the clone's lists are fields of the object; the styles inside them are values, so two references to one style object are not modelled (a cloned JSON tree has none). Gradient colors use exact rationals before rounding.
- CreatorColors.Prepare: equality of the JSON text of two documents is equality of the values.
- CoverReplacement.CoverEditIsSafe: each command's own validation of the rest of the document, and the limit on the number of assets, are not modelled.
- StyleReplacement.StyleEditIsSafe: each command's own validation of the rest of the document, among it the limits on assets and on sealed styles, is not modelled.
- StyleReplacement.FitNeverGrows: scale and position are exact rationals.
- SlotLayout.BuildLayout: a profile's capacity is the number its decimal text denotes.
- PlayerSession.CheckLoadout: the authority checks of each recipe selection, the root identity closures and the used-pack list of `exactSession` are separate checks without state.
