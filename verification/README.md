# Release store, seed, refresh and ledger protocols: a Dafny model

The project models the stateful cores of the UFC prediction service's operating scripts and proves what they
promise over every input, every run and every crash point. `dafny verify dfyconfig.toml` checks all of it.

| files | what they model |
|---|---|
| `StoreTypes`, `SnapshotCapture`, `StoreMachine`, `StoreSampling`, `StoreInvariant`, `StoreSteps`, `StoreTheorems`, `StoreSession` | the production bundle store: immutable releases, lookup directories a runtime keeps writing in, sealed rollback snapshots, one pointer file |
| `SeedInstaller` | the one-time, resumable seed installer |
| `Rotation`, `RowMerge`, `RowKeys`, `RowMergeLaws`, `RefreshRun`, `RefreshPublication` | the profile refresh: which candidates are attempted, how rows are keyed and merged, what a run recovers, and what it publishes |
| `CareerStates`, `CareerRun` | the career builder's bounded retries and its two-track batch commit |
| `BfoLineage`, `BfoRestore`, `BfoLedger` | the sealed lineage of scheduled odds batches, its restore, and the reconciliation of a ledger with its CSV |
| `FightAdmission`, `FightBackfill` | which scraped fights are complete, which are deferred to their source, what enters the canonical files |
| `Reconcile`, `ReconcileShadows`, `ReconcileStartUp` | cancelling imports that mirror another trader's shares, and importing untracked positions |
| `Common`, `TextLaws` | shared types and text helpers, and what those do |

## How the model reads the source

* **Store.** `StoreMachine.Next` has one action for every file operation of an installer (make a directory, copy one
  file, write a receipt, rename, one read of a snapshot attempt, stage the pointer temporary, replace the pointer,
  unlock), so installers, an operator and any number of runtime writers interleave between any two of them. `Stop`
  ends an installer anywhere, with the cleanup of the directory it owns done, skipped or half done, and the lock
  released or not. `StoreInvariant.Inv` is kept by every action (`StoreSteps`, one lemma an action). `StoreSession`
  is the sequential form: a class whose methods run each operation start to end, every step a step of the machine.
  `StoreSampling` ties the machine's reads to the capture protocol of `SnapshotCapture`.
* **Specification functions** are met by the methods, and what they are is said once more without them, in the fields of
  the records (the rows called `...Exactly` below, and `StoreTheorems.RereadExactly`, `SeedInstaller.DecidesAlone`,
  `RefreshRun.RunIsItsTurns`, `CareerRun.Resume`).
* **Pins.** A SHA-256 with a byte count is the bytes it pins. The truncated digests in release and snapshot names are
  arbitrary functions (`Names`): no proof uses their injectivity, because the code compares full identities on reuse.
  The hash of a lineage manifest is a function parameter, injective where a theorem says so.
* **Crashes.** The seed installer carries a fuse: the number of changes it will still make. A killed write leaves
  arbitrary bytes. The career builder's durable writes form a log; a kill keeps a prefix of it.
* **Outside code** (page readers, name normalisation, result policy, finalizing and reference writing, the wallet)
  enters as parameters, and every theorem holds for all of them.

## What was found

* **Two rollbacks.** After a rollback the active lookup has only the two CSVs. The next rollback can succeed only if
  that pair is the release seed, or a runtime has meanwhile written a manifest that pins it for that release
  (`StoreSession.Session.RollbackTwice`, both directions, as a condition on the store before the first rollback).
* **Snapshots are of one moment.** The nine reads of an attempt are spread out, but against the runtime writer, which
  replaces the two CSVs and then the manifest that pins them, what is captured is what the whole directory held when
  the manifest was first read (`SnapshotCapture.CapturedAtOneMoment`).
* **A first initialization that dies after creating anything** under `releases/` or `lookups/` is final; a leftover
  pointer temporary closes the store to every operation until it is removed, while the pointer still validates
  (`StoreTheorems.StrandedForever`, `StoreTheorems.FouledStaysClosed`).
* **Seed manifests.** Nothing in the installer checks that no file lies at, or under, the `.seed-copy` temporary of a
  file listed *after* it. An uninterrupted install over an untouched target keeps every file if and only if that
  holds (`SeedInstaller.Target.Install`); `a.seed-copy` before `a` is installed and then silently moved away
  (`SeedInstaller.SeedCopyListedFirst`). The other order is harmless.
* **Row keys.** The merge key glues source, entity and observation with colons, and entities are mostly URLs. A merge
  keeps its keys, and a row merged again changes nothing, if and only if no row rewrites a key column that the rows
  before it under the same key leave blank (`RowMergeLaws.KeysHoldExactly`, `RowMergeLaws.RemergeExactly`, for all
  rows); then merging is associative and idempotent. Rows as the refresh writes them never do
  (`RowMergeLaws.WrittenRowsKeepTheirKeys`), since their keys can be taken apart. Otherwise a second merge splits what
  one merge joined (`RowMergeLaws.BrokenKeySplits`).
* **The published file** is sorted after the merge, and publishing the same recoveries over it gives the same file
  (`RefreshPublication.PublishAgain`).
* **Explicit offsets** never rotate the priority class (`Rotation.OffsetPinsPriority`).
* **Retry flag.** `--retry-zero-rows` queues nothing that is not queued anyway (`CareerStates.ZeroRowFlagAddsNothing`),
  and a changed display name spends nothing (`CareerStates.RenameSpendsNothing`).
* **Fighter limit.** `--max-fighters 0` is no limit, and a negative number leaves as many fighters out at the end of the
  queue (`CareerRun.Resume`).
* **Raw-merge guard.** It compares row counts, so it lets a merge drop existing rows exactly when some of their keys
  are doubled and the new keys are at least as many as the doubled ones (`FightBackfill.GuardCountsOnly`).
* **Bet ids.** The start-up repair reads an id given as text as a number, but the ledger looks for the number itself: a
  shadow whose id is text is never closed (`Reconcile.TextIdStays`), and with an id doubled the first row that has it is
  closed, even another token's. A token then keeps its tracking if and only if such a row leaves another open row of
  it (`Reconcile.RepairKeepsTrackedExactly`; `Reconcile.DoubledIdExists` loses it, and a position in it is imported
  again), and a second repair changes nothing if and only if no token's last import was unmasked by closing the others
  (`Reconcile.RepairSettlesExactly`; `Reconcile.DoubledIdUnsettles` goes on). With ids of their own both always hold.
* **Artifact paths.** In the lineage validator the duplicate check on package paths can never fire once raw paths are
  distinct (`BfoLineage.ArtifactFollowsRaw`).

## Model

| member | source | states |
|---|---|---|
| SnapshotCapture.Attempt | scripts/install_staged_production_bundle.py:1681-1752 | the code's nine reads, interleaved with a writer that may change the directory between any two, come to the verdict the schedule determines |
| SnapshotCapture.CaptureLookup | scripts/install_staged_production_bundle.py:1681-1760 | a capture is returned exactly when one of three attempts, all earlier ones inconclusive, takes it |
| SnapshotCapture.AttemptExactly | scripts/install_staged_production_bundle.py:1681-1752 | read by read, exactly what an attempt takes and exactly when it gives up for good instead of trying again |
| SnapshotCapture.TakenIsCoherent | scripts/install_staged_production_bundle.py:1475-1525 | whatever the writer does, a taken pair is what both files were read as before, during and after the copy, and is the seed with no manifest around it or the pair one manifest of this release pins throughout |
| SnapshotCapture.NeverTorn | scripts/install_staged_production_bundle.py:1681-1752 | against a runtime that writes its generations file by file at any pace, a capture is the last generation complete when the manifest was first read, or the seed, never halves of two |
| SnapshotCapture.CapturedAtOneMoment | scripts/install_staged_production_bundle.py:1681-1752 | although the reads are spread out, and whatever pair the activation started from, the directory as a whole held exactly the captured files when the manifest was first read |
| SnapshotCapture.RestIsCaptured | scripts/install_staged_production_bundle.py:1681-1752 | an attempt made while the writer rests between generations takes the one it finds |
| SnapshotCapture.QuietCapture | scripts/install_staged_production_bundle.py:1681-1752 | undisturbed, a capture succeeds if and only if the directory is coherent and as expected, at the first attempt, and is that directory |
| StoreSampling.SampleIsRead | scripts/install_staged_production_bundle.py:1681-1752 | inside the store, along any run, the sample of an attempt is what the installer's own nine reads of the source directory found, in their order |
| StoreSampling.DecidedAsRead | scripts/install_staged_production_bundle.py:1681-1760 | and what comes of it is what the capture protocol says of those nine directories: taken, raised, or one of at most three attempts; so what is proved of the protocol holds in the store among all other processes |
| StoreSampling.AlwaysInTurn | scripts/install_staged_production_bundle.py:2506-2836 | in every reachable state each installer takes its steps in order: a promotion publishes its generation and then seals the outgoing lookup, a rollback the other way round, each once, and the pointer is staged when it has what it needs |
| StoreSteps.StepKeepsInv | scripts/install_staged_production_bundle.py:1599-2101 | every step of every installer, crash, cleanup, operator action and runtime write keeps the store invariant |
| StoreTheorems.RunKeepsInv | scripts/install_staged_production_bundle.py:2506-2836 | whole runs keep the invariant, from any state that has it |
| StoreTheorems.PointerAlwaysResolves | scripts/install_staged_production_bundle.py:1977-2014 | in every reachable state the pointer, and every value it ever had, names releases that match their receipts, an existing active lookup, a snapshot with exactly its pinned bytes, and two different releases |
| StoreTheorems.ReadableExactly | scripts/install_staged_production_bundle.py:1977-2014 | what validating a pointer value comes to, record by record and file by file |
| StoreTheorems.PointerIsOldOrNew | scripts/install_staged_production_bundle.py:163-191 | a step leaves the pointer as it was, or is the one replace by the lock holder, whose new value was built on the value it replaces |
| StoreTheorems.HistoryGrows | scripts/install_staged_production_bundle.py:163-191 | no run takes a pointer value back |
| StoreTheorems.NamedIsForever | scripts/install_staged_production_bundle.py:1599-1846 | no run deletes or changes a release or snapshot any pointer ever named, nor deletes an active lookup |
| StoreTheorems.NoAba | scripts/install_staged_production_bundle.py:2671-2727 | comparing active records before and under the lock is enough: equal records mean that the pointer was not replaced in between |
| StoreTheorems.RereadExactly | scripts/install_staged_production_bundle.py:2720-2727 | over all runs, whatever else happens between: an installer that began and got the lock gets past the re-read if and only if no other installer replaced the pointer since it began |
| StoreTheorems.ReplaceIsAsAsked | scripts/install_staged_production_bundle.py:2671-2834 | over all runs: when an installer replaces the pointer, the history is the one it saw when it began; a promotion or rollback sets rollback to the release it was told to leave, a rollback makes active the one it was told to go to, and a promotion the release of its source with the sealed pair it approved |
| StoreTheorems.LinearHistory | scripts/install_staged_production_bundle.py:1015-1044 | the pointer's history is one chain of ordinary promotions that each set rollback to the release active before, handovers that set none, and rollbacks that swap the two; no activation reuses a lookup |
| StoreTheorems.OnlyOwnWriters | scripts/install_staged_production_bundle.py:1599-1646 | a process still writing to any other activation's directory, and every installer and crash, leave what an activation serves unchanged |
| StoreTheorems.ServesItsOrigin | scripts/install_staged_production_bundle.py:1599-1646 | until written to, an activation serves its release seed, or after a rollback the pair the outgoing snapshot pinned |
| StoreTheorems.TwoRollbacksRestore | scripts/install_staged_production_bundle.py:2769-2836 | two rollbacks in a row restore both releases and the captured pair |
| StoreTheorems.StrandedForever | scripts/install_staged_production_bundle.py:989-1009 | a first initialization that dies after creating anything can never be completed by any later run |
| StoreTheorems.FouledStaysClosed | scripts/install_staged_production_bundle.py:937-956 | a leftover pointer temporary refuses every operation until it is swept, and the pointer stands |
| StoreSession.Session.FillPair | scripts/install_staged_production_bundle.py:1599-1634 | the two CSVs, and nothing else, are in the private directory |
| StoreSession.Session.PublishActiveLookup | scripts/install_staged_production_bundle.py:1599-1646 | succeeds exactly when the generation name is free, and then adds the pair under it; otherwise leaves the store as it was |
| StoreSession.Session.TakeSample | scripts/install_staged_production_bundle.py:1681-1752 | undisturbed, the three attempts succeed exactly on a coherent lookup of the approved pair |
| StoreSession.Session.PublishRollbackSnapshot | scripts/install_staged_production_bundle.py:1662-1846 | exactly when a snapshot can be sealed, and that a taken name is reused only for the very same contents |
| StoreSession.Session.PublishRelease | scripts/install_staged_production_bundle.py:2017-2101 | a free name installs the release, a taken one is accepted only for the same source, anything else is refused |
| StoreSession.Session.PublishPointer | scripts/install_staged_production_bundle.py:163-191 | the staged pointer becomes the pointer, no temporary is left and the lock is free |
| StoreSession.Session.Resolves | scripts/install_staged_production_bundle.py:2839-2876 | after any session the pointer validates |
| StoreSession.Session.Enter | scripts/install_staged_production_bundle.py:2671-2727 | undisturbed, preflight, lock and re-read go through exactly when the operation's expectations hold and nobody has the lock (disturbed ones are StoreTheorems.RereadExactly) |
| StoreSession.Session.InitializeStore | scripts/install_staged_production_bundle.py:2506-2546 | exactly when initialization succeeds, and the whole store afterwards |
| StoreSession.Session.PromoteBundle | scripts/install_staged_production_bundle.py:2649-2766 | exactly which of refused, already active and moved a promotion comes to; the whole store after a move; nothing changed otherwise |
| StoreSession.Session.RollbackBundle | scripts/install_staged_production_bundle.py:2769-2836 | exactly when a rollback succeeds, the whole store afterwards, and nothing changed otherwise |
| StoreSession.Session.RollbackTwice | scripts/install_staged_production_bundle.py:2801-2834 | read off the store before the first rollback, exactly when the second succeeds: the restored pair is its release's seed or a manifest written since pins it, and both new names are usable; the whole store in between and after |
| SeedInstaller.Target.MakeDirectory | scripts/install_incremental_seed.py:31-39 | fails exactly below a file; makes the missing ancestors shallowest first, and killed leaves some of them |
| SeedInstaller.BlockedExactly | scripts/install_incremental_seed.py:31-39 | making a directory fails exactly where it is missing and a file stands above it |
| SeedInstaller.Target.AtomicJson | scripts/install_incremental_seed.py:42-50 | the marker is written whole or not at all, at any kill |
| SeedInstaller.Target.InstallItem | scripts/install_incremental_seed.py:85-112 | wherever it stops, one file's turn changes only its missing ancestors, its temporary and its destination, the last only from nothing to the pinned file |
| SeedInstaller.RaisesExactly | scripts/install_incremental_seed.py:85-112 | a file's turn raises exactly if the seed does not hold what is pinned, its place holds something else, or it is missing and a file stands above it or a directory at its temporary |
| SeedInstaller.Target.CopyAll | scripts/install_incremental_seed.py:83-112 | nothing but temporaries is altered, and an uninterrupted loop leaves every file with its pinned bytes |
| SeedInstaller.Target.Begin | scripts/install_incremental_seed.py:53-82 | refusals leave the target alone, and which it is refused as is said without the decision function; every state a crashed run leaves leads to copying |
| SeedInstaller.DecidesAlone | scripts/install_incremental_seed.py:56-82 | what a target is taken for, branch by branch, from the markers, the other entries and the manifest alone |
| SeedInstaller.Target.Install | scripts/install_incremental_seed.py:53-114 | which targets are refused and as what, another seed's interrupted install and foreign entries among them, with nothing changed; the installed marker names this very seed and appears only over a complete set of its files; nothing pre-existing is altered; from recoverable states an uninterrupted run finishes; and exactly which manifests are kept whole |
| SeedInstaller.Converge | scripts/install_incremental_seed.py:53-114 | after any number of killed runs from an untouched target one run left alone finishes, and a further run changes nothing |
| SeedInstaller.SeedCopyListedFirst | scripts/install_incremental_seed.py:104-111 | listing `a.seed-copy` before `a` installs both without complaint and loses the first |
| SeedInstaller.ItemMovesFrontier | scripts/install_incremental_seed.py:83-112 | finishing, raising or being killed, one file's turn leaves the frontier of installed files where it was or one further |
| SeedInstaller.FrontierIsClear | scripts/install_incremental_seed.py:96-103 | at the frontier nothing that an earlier crash left stands in the way |
| SeedInstaller.RecoverableDecision | scripts/install_incremental_seed.py:56-82 | what a crash leaves is read either as to be marked or as to be resumed |
| SeedInstaller.FinishedDecision | scripts/install_incremental_seed.py:59-60 | a finished target is recognised and left alone |
| Rotation.SelectsTheLimit | scripts/build_profile_supplement_from_external_profiles.py:1388-1502 | a run takes exactly min(limit, total) candidates, each once, priorities first; both classes progress from a limit of two on |
| Rotation.SelectedInOrder | scripts/build_profile_supplement_from_external_profiles.py:1463-1489 | the very rows and their order: each class is a circle, a rotation index moves both by their own slots, and the explicit offset moves the backlog alone, with or without a rotation index |
| Rotation.OneSlotInOrder | scripts/build_profile_supplement_from_external_profiles.py:1426-1444 | the one row of a shared slot: even turns a priority, odd ones the backlog; without a rotation index the offset is the turn and moves the backlog no further |
| Rotation.RotationIsFair | scripts/build_profile_supplement_from_external_profiles.py:1388-1502 | a window of rotation indices reaches every candidate of a class if and only if window times slots covers the class |
| Rotation.OneSlotAlternates | scripts/build_profile_supplement_from_external_profiles.py:1426-1444 | with one slot for two classes, each class of n comes round within any 2n turns, by rotation index or explicit offset |
| Rotation.OffsetPinsPriority | scripts/build_profile_supplement_from_external_profiles.py:1463-1475 | explicit offsets reach every priority candidate only if all fit in one run |
| Rotation.WindowCovers | scripts/build_profile_supplement_from_external_profiles.py:1463-1489 | the turn that attempts a given member of a circle |
| Rotation.WindowMisses | scripts/build_profile_supplement_from_external_profiles.py:1463-1489 | a member that too short a window never attempts |
| RowMerge.MergeSourceRows | scripts/build_profile_supplement_from_external_profiles.py:1097-1125 | raises exactly on a malformed or conflicting identity, otherwise is the fold the laws below are about |
| RowMerge.ReadableExactly | scripts/build_profile_supplement_from_external_profiles.py:239-271 | exactly which identity carriers are malformed or in conflict |
| RowMerge.IdentityExactly | scripts/build_profile_supplement_from_external_profiles.py:239-271 | whose row it is: that of the first id among the four columns in their order, otherwise that of the name |
| RowMerge.HeldExactly | scripts/build_profile_supplement_from_external_profiles.py:165-200 | which values are kept: those that are no placeholder, and readable stances and birth dates |
| RowMerge.FirstHolderWins | scripts/build_profile_supplement_from_external_profiles.py:1101-1119 | for every key and field the merge holds what the first row with that key to hold the field holds; nothing later changes it |
| RowMerge.KeylessRowsKept | scripts/build_profile_supplement_from_external_profiles.py:1101-1112 | rows without a key come out one for one and in order |
| RowMerge.AddAllTabled | scripts/build_profile_supplement_from_external_profiles.py:1097-1125 | output rows are filed under distinct keys |
| RowMerge.ExistingRowsKeepTheirPlaces | scripts/build_profile_supplement_from_external_profiles.py:1120-1125 | recovered rows never move an existing one |
| RowKeys.FillKeepsIdentity | scripts/build_profile_supplement_from_external_profiles.py:239-271 | filling a row from another of the same fighter never changes or corrupts whose row it is |
| RowKeys.KeyKeptExactly | scripts/build_profile_supplement_from_external_profiles.py:1083-1119 | filling a row from another of the same key leaves its key text exactly when no key column is rewritten |
| RowKeys.UrlRowsArePlain | src/data/profile_integrity.py:432-506 | rows whose entity is a whole URL have keys that can be taken apart |
| RowKeys.NumberedRowsArePlain | src/data/profile_integrity.py:432-506 | so have rows whose entity is a number |
| RowKeys.WeightJoins | scripts/build_profile_supplement_from_external_profiles.py:1083-1094 | what a key weighs is the sum over its parts, wherever the colons come from |
| RowKeys.FillWeighs | scripts/build_profile_supplement_from_external_profiles.py:1083-1119 | filling leaves a key as it is, or makes it weigh more: that exactly when a key column is rewritten |
| RowKeys.PlainKeyParts | scripts/build_profile_supplement_from_external_profiles.py:1083-1094 | rows with the same key that can be taken apart agree in source, entity and observation |
| RowMergeLaws.MergedRowsKeepTheirKeys | scripts/build_profile_supplement_from_external_profiles.py:1083-1125 | when nothing is rewritten every output row computes the key it is filed under, and the keys are distinct |
| RowMergeLaws.WrittenRowsKeepTheirKeys | scripts/build_profile_supplement_from_external_profiles.py:1083-1125 | in a merge of rows as the refresh writes them nothing is rewritten |
| RowMergeLaws.PlainIsNotRewritten | scripts/build_profile_supplement_from_external_profiles.py:1083-1094 | nor in any whose keys can be taken apart |
| RowMergeLaws.KeysHoldExactly | scripts/build_profile_supplement_from_external_profiles.py:1083-1125 | for all rows, the output computes the keys it is filed under if and only if no row rewrites a key column of the rows before it under the same key |
| RowMergeLaws.MergeInTwoSteps | scripts/build_profile_supplement_from_external_profiles.py:1097-1125 | merging such a merge with any more rows is merging everything once |
| RowMergeLaws.MergeOfMerged | scripts/build_profile_supplement_from_external_profiles.py:1097-1125 | merging the output alone gives the output |
| RowMergeLaws.MergeIsIdempotent | scripts/build_profile_supplement_from_external_profiles.py:1097-1125 | publishing the same keyed recoveries again changes nothing |
| RowMergeLaws.RemergeExactly | scripts/build_profile_supplement_from_external_profiles.py:1097-1125 | every keyed row can be merged again without changing the output if and only if no row rewrote a key column |
| RowMergeLaws.BrokenKeySplits | scripts/build_profile_supplement_from_external_profiles.py:1083-1125 | where the key is not kept, a second merge of the same row makes two rows of one |
| RowMergeLaws.ColonsBreakKeys | scripts/build_profile_supplement_from_external_profiles.py:1088-1094 | such rows exist, in a table that another program wrote |
| RowMergeLaws.PlaceholderKeepsKey | scripts/build_profile_supplement_from_external_profiles.py:1085-1088 | a placeholder source can be replaced and the key hold all the same |
| RefreshRun.RecoverProfileFields | scripts/build_profile_supplement_from_external_profiles.py:1302-1318 | exactly the recoverable fields that the profile lacks and the page has |
| RefreshRun.Refresh | scripts/build_profile_supplement_from_external_profiles.py:2412-2520 | the nested loops come to the run the theorems are about, visit for visit |
| RefreshRun.TurnAt | scripts/build_profile_supplement_from_external_profiles.py:2412-2430 | every candidate with a key has one turn with every source, in order, and there are no other turns |
| RefreshRun.RunIsItsTurns | scripts/build_profile_supplement_from_external_profiles.py:2412-2520 | each count is exactly the number of turns in which a source really asked (not out, with a gap at that moment) gave an answer of that kind: source failures, processing failures, and pages unverified or with an unreviewed added field; the i-th recovery is that of the i-th verified and fully reviewed page, with its very fields; ESPN is out exactly after it reported an outage |
| RefreshRun.WhoGives | scripts/build_profile_supplement_from_external_profiles.py:78-85 | which sources may give a field |
| RefreshRun.EachFieldRecoveredOnce | scripts/build_profile_supplement_from_external_profiles.py:1302-1328 | over a whole run each fighter's field is recovered at most once, only by a source allowed to, never if it was there; every profile ends with exactly what it had and what was recovered |
| RefreshRun.NothingUsableIsPassedOver | scripts/build_profile_supplement_from_external_profiles.py:2426-2520 | no gap is left that an available source could have closed with a verified, reviewed page |
| RefreshRun.FailuresAreRemembered | scripts/build_profile_supplement_from_external_profiles.py:2412-2520 | no count goes down on the way (what counts is RefreshRun.RunIsItsTurns) |
| RefreshPublication.Publish | scripts/build_profile_supplement_from_external_profiles.py:2522-2577 | any processing error, source error or rejection leaves the output untouched; otherwise all recoveries are merged in and the rows sorted, and reported unless recording their references fails |
| RefreshPublication.RunRefresh | scripts/build_profile_supplement_from_external_profiles.py:2412-2577 | from the first candidate to the output: one answer that counts against the run, from whatever source and wherever in it, leaves the output as it was and reports nothing, and the first kind there is names the outcome; otherwise the recoveries of the turns that recover are merged, sorted and written, and reported unless recording fails |
| RefreshPublication.PublishedRowsKeepHeldFields | scripts/build_profile_supplement_from_external_profiles.py:2557-2562 | publishing never changes what an existing row holds first |
| RefreshPublication.MergedInAnyOrder | scripts/build_profile_supplement_from_external_profiles.py:1097-1125 | the same recoveries merged over what was published, in whatever order its rows are, give exactly those rows |
| RefreshPublication.PublishAgain | scripts/build_profile_supplement_from_external_profiles.py:2557-2562 | a refresh that recovers what was published before writes the file that is there |
| CareerStates.PrepareKeeps | scripts/build_pre_ufc_career_supplement.py:487-541 | an unchanged fingerprint keeps the state; a changed or new one starts at no attempts, to be scraped unless a positive legacy count makes it a success |
| CareerStates.PreparedIsOutstanding | scripts/build_pre_ufc_career_supplement.py:487-551 | an entry is to be scraped after preparation if and only if its id and debut are not in the checkpoint and no positive legacy count stands for it, or they are and it is neither found nor given up |
| CareerStates.RecordKeeps | scripts/build_pre_ufc_career_supplement.py:608-661 | one recorded scrape spends exactly one attempt, a refusal none; the status says what happened; exhausted means the budget is spent |
| CareerStates.DurableAttemptsBounded | scripts/build_pre_ufc_career_supplement.py:68-71 | in every durable checkpoint attempts are at most three and anything still to be scraped has one left |
| CareerStates.SettledForGood | scripts/build_pre_ufc_career_supplement.py:544-551 | across any durable checkpoints with an unchanged fingerprint attempts never go down and success and exhaustion are final |
| CareerStates.OutputComesFirst | scripts/build_pre_ufc_career_supplement.py:1011-1074 | a durable checkpoint claims a scraped success only after a durable output write that had its rows |
| CareerRun.Builder.constructor | scripts/build_pre_ufc_career_supplement.py:935-970 | resuming from the last durable checkpoints starts in a consistent state |
| CareerRun.Builder.Enqueue | scripts/build_pre_ufc_career_supplement.py:935-990 | the fighters wanted on a track are queued in order, each once and only for what is wanted, up to the limit |
| CareerRun.QueuedExactly | scripts/build_pre_ufc_career_supplement.py:935-970 | an entry is queued on a track if and only if its state there is to be scraped |
| CareerRun.Resume | scripts/build_pre_ufc_career_supplement.py:935-990 | a resumed run queues, in the order of the entries and on each track, exactly those outstanding in the durable checkpoint of the track, and the limit takes its first ones: nought is none, a negative one leaves as many out at the end |
| CareerRun.Builder.Commit | scripts/build_pre_ufc_career_supplement.py:1018-1074 | outputs before checkpoints; an ordinary failure takes back exactly the uncommitted batch and leaves a committed pro track committed; a reference failure refuses what was attempted |
| CareerRun.DueEveryFifty | scripts/build_pre_ufc_career_supplement.py:1135-1141 | commits come before the fiftieth fighter, every fifty after that, and at no other |
| CareerRun.FailedExactly | scripts/build_pre_ufc_career_supplement.py:1018-1074 | a commit goes through exactly if both outputs are stored and, where references are kept, both are recorded; otherwise the first track in the way is named |
| CareerRun.Builder.CommitPro | scripts/build_pre_ufc_career_supplement.py:1025-1049 | the pro half, write by write, for every way of failing |
| CareerRun.Builder.CommitAmateur | scripts/build_pre_ufc_career_supplement.py:1051-1073 | the amateur half, with the pro track's durable checkpoint untouched |
| CareerRun.Builder.PreserveBoth | scripts/build_pre_ufc_career_supplement.py:1076-1088 | what was attempted is refused on both tracks and saved, and the log stays sound |
| CareerRun.Builder.Process | scripts/build_pre_ufc_career_supplement.py:1135-1226 | the log stays sound; which commit fails and when; and what is durable then: on success every job, after an ordinary failure exactly the jobs up to the last commit (and on a pro track already committed all tried), after a reference failure all tried, refused |
| CareerRun.RecordedExactly | scripts/build_pre_ufc_career_supplement.py:1135-1213 | with the first jobs recorded each of them has its one fetch, and every other identity is as it was |
| CareerRun.Campaign | scripts/build_pre_ufc_career_supplement.py:1011-1226 | any number of resumed runs, each killed between any two durable writes, leave a sound log |
| BfoLineage.ValidateManifest | scripts/bfo_lineage.py:110-189 | accepts exactly the manifests whose batches reconcile and whose raw paths are all different |
| BfoLineage.BatchExactly | scripts/bfo_lineage.py:128-177 | a batch reconciles exactly when its four paths are the fixed ones around one stem and its counts are the accepted and all records |
| BfoLineage.LawfulExactly | scripts/bfo_lineage.py:110-189 | a manifest is lawful exactly when its batches reconcile and no two have the same CSV; no other paths can then collide |
| BfoLineage.ArtifactFollowsRaw | scripts/bfo_lineage.py:180-187 | two package paths agree exactly when their raw paths do |
| BfoRestore.ValidatePackage | scripts/bfo_lineage.py:192-232 | accepts exactly a manifest with the expected hash, lawful, beside files with the pinned bytes, rows and lines |
| BfoRestore.GenuineExactly | scripts/bfo_lineage.py:192-232 | a package is genuine exactly if the manifest is lawful and hashes as expected, and every listed file is there with its bytes and its rows or lines |
| BfoRestore.Checkout.Restore | scripts/bfo_lineage.py:235-262 | never changes an existing file, adds only pinned ones, succeeds exactly without conflict, and then every pinned file is there |
| BfoRestore.Checkout.RestoreTwice | scripts/bfo_lineage.py:235-262 | restoring again succeeds alike and changes nothing |
| BfoRestore.ValidatePrevious | scripts/build_staged_production_bundle.py:1380-1471 | accepts exactly the policy root without a package, or the package its readiness names, restored and inventoried |
| BfoRestore.InPlaceExactly | scripts/build_staged_production_bundle.py:1420-1471 | every file of every batch is restored and inventoried with its pinned bytes |
| BfoRestore.NextLineage | scripts/build_staged_production_bundle.py:1509-1532 | the previous list with the current batch behind it, if and only if that is lawful |
| BfoRestore.Release | scripts/build_staged_production_bundle.py:1380-1532 | whatever package the active release's identity accepts, the next manifest names that release's by its hash, lists its batches and the new one behind them, and extends the chain |
| BfoRestore.HistoryIsPrefix | scripts/build_staged_production_bundle.py:1509-1532 | along a chain no batch is dropped or changed, and each release adds at most one |
| BfoRestore.OneBatchARelease | scripts/build_staged_production_bundle.py:1509-1532 | the n-th release lists at most n batches |
| BfoRestore.TipFixesHistory | scripts/build_staged_production_bundle.py:1509-1532 | two chains whose last manifests have the same hash are the same chain |
| BfoRestore.TipRestoresHistory | scripts/bfo_lineage.py:235-262 | restoring the tip restores every batch that any release of the chain listed |
| BfoLedger.CheckQuotes | scripts/build_staged_production_bundle.py:1268-1293 | counts the accepted quotes and finds unknown or repeated markets |
| BfoLedger.IndexRows | scripts/build_staged_production_bundle.py:1142-1155 | refuses exactly a malformed or repeated fight key, and otherwise finds every row by its key |
| BfoLedger.CheckRecord | scripts/build_staged_production_bundle.py:1175-1320 | accepts exactly the lines of the schema, naming this output, from the inventoried scripts, for the fighters of their key and the fixed threshold, that reconcile with the CSV |
| BfoLedger.ValidateLedger | scripts/build_staged_production_bundle.py:1090-1342 | accepts exactly a ledger that the inventory pins with its companion, whose lines reconcile, without repeats, and that accounts for every CSV row; with the right counts |
| BfoLedger.ReconcilesExactly | scripts/build_staged_production_bundle.py:1175-1320 | exactly which lines reconcile, field by field: schema, output, scripts as the inventory has them, fighters, threshold of three, as many known and different bookmakers as the consensus says, and the CSV row with the same values and source |
| BfoLedger.BalancedExactly | scripts/build_staged_production_bundle.py:1142-1325 | a ledger is accepted if and only if every line holds, CSV rows have keys of their own, rows and accepted lines pair off one to one, and no rejected key is in the CSV |
| BfoLedger.LedgerPathExactly | scripts/build_staged_production_bundle.py:1069-1087 | which paths are ledgers, and what their companions are called |
| BfoLedger.AcceptedLinesAreTheRows | scripts/build_staged_production_bundle.py:1172-1325 | accepted lines and CSV rows pair off one to one with the same values and source; rejected keys are in no row |
| BfoLedger.CountsReconcile | scripts/build_staged_production_bundle.py:1327-1342 | accepted lines are as many as rows, and accepted and rejected make up the lines |
| BfoLedger.DerivedBatchIsLawful | scripts/build_staged_production_bundle.py:1474-1506 | the derived batch always reconciles in counts and names, and exactly when the lineage validator takes it |
| FightAdmission.FightCompleteness | scripts/backfill_active_roster_ufcstats.py:1205-1282 | the loops find every reason there is and no other, and a fight is complete when there is none |
| FightAdmission.CompleteIsFullGrid | scripts/backfill_active_roster_ufcstats.py:1205-1282 | a fight is complete if and only if its result stands and its stat rows are the full grid of its two participants over rounds 1 to the last: 2R whole rows, each pair once |
| FightAdmission.CompleteExactly | scripts/backfill_active_roster_ufcstats.py:1205-1282 | complete, field by field: result and stat rows written in full, a result the policy takes, two different fighters, rows of this event and bout, and the full grid |
| FightAdmission.ObservedExactly | scripts/backfill_active_roster_ufcstats.py:1190-1194 | which values count as observed: all but nothing and the names of a missing value, in any case and between blanks |
| FightAdmission.RoundNumberExactly | scripts/backfill_active_roster_ufcstats.py:1196-1202 | exactly which texts are rounds and of which number |
| FightAdmission.RoundsAsPrinted | scripts/backfill_active_roster_ufcstats.py:1196-1202 | "2" and "Round 2" read as the number two, for every number and between any blanks |
| FightAdmission.SortRounds | scripts/backfill_active_roster_ufcstats.py:1249-1258 | every readable row lands in its round, in order |
| FightAdmission.RoundReasons | scripts/backfill_active_roster_ufcstats.py:1260-1272 | exactly the rounds that are missing, extra or not one row per participant |
| FightBackfill.SourceLimited | scripts/backfill_active_roster_ufcstats.py:1285-1308 | recognises exactly the expected reason set under a positive no-statistics marker |
| FightBackfill.DeferredExactly | scripts/backfill_active_roster_ufcstats.py:1285-1308 | a fight is deferred if and only if the page positively has no statistics, shows none, and nothing is wrong with its result |
| FightBackfill.Judge | scripts/backfill_active_roster_ufcstats.py:1475-1533 | each page gets the one verdict its contents determine |
| FightBackfill.SortFights | scripts/backfill_active_roster_ufcstats.py:1475-1537 | the outcome lists and candidate rows of a run |
| FightBackfill.EveryFightHasOnePlace | scripts/backfill_active_roster_ufcstats.py:1475-1537 | every fight is in exactly one outcome list, and only partial ones are quarantined |
| FightBackfill.Admit | scripts/backfill_active_roster_ufcstats.py:1539-1574 | one quarantined result keeps out the whole run; otherwise the merged files, unless the guard raises |
| FightBackfill.OnlyCompleteFightsEnter | scripts/backfill_active_roster_ufcstats.py:1559-1574 | every stat row that enters belongs to a complete fight of the run |
| FightBackfill.CompleteFightHasDistinctKeys | scripts/backfill_active_roster_ufcstats.py:1172-1187 | a complete fight never loses a row to another of its own |
| FightBackfill.MergeKeepsExisting | scripts/backfill_active_roster_ufcstats.py:1162-1187 | existing rows all stay in place if and only if their keys are distinct; no key is lost and none doubled |
| FightBackfill.NewKeysEnterWhole | scripts/backfill_active_roster_ufcstats.py:1162-1187 | new rows whose keys are free all enter, behind the existing ones |
| FightBackfill.StatRowEnters | scripts/backfill_active_roster_ufcstats.py:1172-1187 | a stat row enters if and only if nothing before it is of the same event, bout, round and fighter, blanks aside |
| FightBackfill.ResultEnters | scripts/backfill_active_roster_ufcstats.py:1162-1169 | a result enters if and only if its address, blanks aside, is not there yet |
| FightBackfill.MergeCount | scripts/backfill_active_roster_ufcstats.py:1162-1187 | a merge holds one row for every key there was and one for every new key |
| FightBackfill.GuardCountsOnly | scripts/backfill_active_roster_ufcstats.py:860-865 | the guard lets a merge drop existing rows exactly when some of their keys are doubled and new keys make up the number |
| FightBackfill.GuardIsPassed | scripts/backfill_active_roster_ufcstats.py:860-865 | such lists exist |
| Reconcile.LiveSizes | scripts/reconcile_positions.py:101-110 | the largest positive size per token |
| Reconcile.IsShadow | scripts/reconcile_positions.py:185-230 | the code's checks come to the shadow predicate, of which ReconcileShadows.ShadowedExactly says what it is |
| Reconcile.Ledgers.CancelBet | src/polymarket/tracker.py:880-907 | closes the first row with the number as its id, if open and of the expected type, and nothing else |
| Reconcile.Ledgers.Repair | scripts/reconcile_positions.py:134-242 | on any ledgers, exactly the rows that the numbers of the shadows find are cancelled, and counted (which those are is ReconcileShadows.CancelledExactly) |
| Reconcile.ShadowsAreCancelled | scripts/reconcile_positions.py:185-230 | with ids of their own exactly the numbered shadows are cancelled |
| Reconcile.NumberClosesTheFirst | src/polymarket/tracker.py:888-903 | a number asked for closes the first row that has it, whichever token that is of |
| Reconcile.TrackedAfter | scripts/reconcile_positions.py:226-280 | on any ledgers a token is tracked after a repair exactly by its open rows that are not cancelled |
| Reconcile.RepairKeepsTrackedExactly | scripts/reconcile_positions.py:226-280 | on any ledgers the repair leaves a token tracked as it was if and only if an open row of it closed on another token's number leaves another one open |
| Reconcile.DoubledIdUntracks | scripts/reconcile_positions.py:226-241 | with an id doubled the repair of one token can close the only open row of another |
| Reconcile.DoubledIdExists | scripts/reconcile_positions.py:226-241 | such ledgers exist |
| Reconcile.RepairKeepsTracked | scripts/reconcile_positions.py:263-280 | with ids of their own every token is tracked after a repair as before |
| Reconcile.ShadowHasTracker | scripts/reconcile_positions.py:198-213 | every cancelled token keeps an open row of another trader placed before the import |
| Reconcile.ShadowMatchesWallet | scripts/reconcile_positions.py:190-225 | the trackers' shares of a cancelled token are within twice the tolerance of the wallet's |
| Reconcile.RepairSettlesExactly | scripts/reconcile_positions.py:134-242 | on any ledgers a second repair over the same wallet changes nothing if and only if no token has several imports of which the first leaves one that is then a shadow whose number finds an open row |
| Reconcile.DoubledIdUnsettles | scripts/reconcile_positions.py:134-242 | a ledger on which the second repair closes one more row |
| Reconcile.RepairSettles | scripts/reconcile_positions.py:134-242 | with ids of their own a second repair changes nothing |
| ReconcileShadows.ShadowedExactly | scripts/reconcile_positions.py:113-230 | from the fields of the rows alone: an import is a shadow if and only if it is its token's only one, readable and in the wallet, and M and G, with at most one row each of open evidence before it, together held its shares |
| ReconcileShadows.ParsedExactly | scripts/reconcile_positions.py:83-98 | which ids the repair reads, and as which number |
| ReconcileShadows.TextReadsAsPrinted | scripts/reconcile_positions.py:83-98 | a printed number between blanks reads as itself |
| TextLaws.TrimIs | scripts/reconcile_positions.py:114-129 | stripping takes the blanks around a text, and no more |
| TextLaws.LowerIs | scripts/reconcile_positions.py:114-129 | lower-casing turns each capital into its letter and leaves every other character |
| TextLaws.PrintedReads | scripts/backfill_active_roster_ufcstats.py:1201 | a number in digits reads as itself |
| TextLaws.LeadingZero | scripts/backfill_active_roster_ufcstats.py:1201 | and so it does with zeros in front |
| ReconcileShadows.CancelledExactly | scripts/reconcile_positions.py:134-242 | a row is cancelled if and only if it is an open import row and the first with the number that some shadow has for its id |
| ReconcileShadows.OnlyEvidenceCounts | scripts/reconcile_positions.py:113-131 | behind an amount actually filled both other amounts, behind one called filled the shares, and the shares of an order nothing says was filled can be anything: the same rows are cancelled |
| ReconcileShadows.UnfilledOrdersDoNotMatter | scripts/reconcile_positions.py:113-131 | an order of another ledger that nothing says was filled can be dropped: the same rows are cancelled |
| ReconcileStartUp.StartUp | scripts/reconcile_positions.py:245-297 | a start-up repairs, then imports what nobody tracks; exactly when it raises after the repair, and with what ledgers |
| ReconcileStartUp.RaisesExactly | scripts/reconcile_positions.py:262-297 | from rows and positions: a start-up raises after the repair if and only if something is held and there is no metadata, or a position is missed while an id is no number |
| ReconcileStartUp.ImportedExactly | src/polymarket/executor.py:4409-4500 | position by position: a missed one adds one row, with these fields and the number after the highest, and any other none |
| ReconcileStartUp.ImportUntracked | src/polymarket/executor.py:4409-4500 | imports untracked positions with complete metadata, skips the others, and raises when an id cannot be counted on |
| ReconcileStartUp.CancelledStaysCancelled | scripts/reconcile_positions.py:263-290 | an open row that a start-up cancels is not replaced by a new one if and only if the repair leaves its token tracked or the import does not come to it |
| ReconcileStartUp.OwnIdStaysCancelled | scripts/reconcile_positions.py:263-290 | with ids of their own what a start-up cancels is not imported again |
| ReconcileStartUp.StartUpKeepsIds | src/polymarket/tracker.py:724-730 | a start-up keeps the ids of the S ledger apart |
| ReconcileStartUp.SecondStartUpIsIdle | scripts/reconcile_positions.py:245-297 | on any ledgers, starting up again over the same wallet changes nothing if and only if the repair has settled; then it raises if the first did |

## Left out

- The bundle store's protocol is a step machine over values with a sequential class on top; concurrent installers share no heap objects.
- The store's marker file, link and reparse checks, permissions, fsync calls, mount and ownership checks: host plumbing.
- Trees are copied and removed in one step where no other process can name them; a removal cut short leaves arbitrary contents.
- The manifest schemas, semantic validation, the legacy installer and the paused handover's evidence directory; the handover is a promotion whose pointer has no rollback, kept apart by its cause, though the file says "promote" for both.
- SnapshotCapture.NeverTorn: the runtime writes its files in the order of src/model/production_bundle.py, CSVs first and then the manifest with their fingerprints; SnapshotCapture.CapturedAtOneMoment asks too that no two generations write the same manifest, which their update times see to.
- Removing a dead installer's lock and sweeping a leftover pointer temporary are operator actions; the scripts have no command for them.
- SeedInstaller.Target.Install: a manifest is its parsed list with a schema flag, and the JSON of a marker is the seed it names; the convergence and marker theorems ask that no path lies at or under a marker or marker temporary, none is listed twice or above another, and none at or under the temporary of a later one, because the code does not check these.
- Rotation: the sort of candidates by priority and name; the two class lists are inputs.
- RowMerge.MergeSourceRows: whitespace cleaning is done before, lower-casing is of ASCII letters, and a missing name or source is the text "nan" that the CSV reader makes of it.
- RefreshRun.Refresh: fetching, binding and review of pages are one answer per candidate and source.
- RefreshPublication.Publish: the comparison of names and sources is any ordering, and recording the references is only whether it failed; the CSV holds the rows as they are.
- CareerRun.Builder.Commit: what finalizing does to the rows (mirror removal, count guards) is only whether it stored, raised or both; the archive of reference failures is not modelled.
- CareerRun.Campaign: runs resume; a run without resume starts from empty checkpoints and so forgets earlier attempts, as a kill forgets the attempts since the last commit. What is bounded is the durable count.
- CareerStates.RecordKeeps: the lists of processed and failed names, error texts and time stamps.
- BfoRestore.ValidatePackage: a manifest file whose text is not the canonical form of its contents; its hash is no manifest's.
- BfoLedger.ValidateLedger: numbers are reals, and JSON types are only whether a part is there and well formed.
- FightAdmission.FightCompleteness: the order of the reasons.
- FightBackfill.Admit: the stat key is the tuple of its four texts, which the source joins with two bars.
- Reconcile.Ledgers.Repair: rows with no id entry at all, at which cancelling raises, and ids that are no whole number; the ledger itself writes neither.
- Reconcile: floating-point rounding; amounts are reals and the tolerance is 0.02 plus the comparison slack.
- Fetching and parsing of pages, CSV and JSON encoding, model training and inference, dashboards, launchers, packaging and parity scripts.
