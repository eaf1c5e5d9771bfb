# Delocal: a verified model

Delocal keeps folders the same on several machines without a server. Each machine holds one record per
path; changes travel in batches; every machine resolves conflicts alone, and they must still agree. This
project models that engine and the disk side of a commit and a scan, and proves what the design rests on.
`dafny verify dfyconfig.toml` checks all of it.

## What is modelled

**The replicated records.** `Versions`, `Entries`, `Conflict`, `ConflictNames` and `Classify` are the
values: version vectors, entries, the winner order, merged records, and what a received entry becomes.
`ApplySets` is a whole batch's candidates. `IndexModel` is one machine's index as a value, `LocalChanges`
its runs of local changes, and `Indexes.Index` the same index updated in place, each method tied to the
value model; `LocalRecords` says field by field what a local change writes. `Replication` runs any number
of machines through local changes, denies, announcements, deliveries of anything ever sent in any order,
wants adopted long after they were classified, and reverts; `Convergence` is what delivery in any order
comes to. The proof of agreement keeps a log of events: every record is the winner, under the total
winner order, of the events its vector covers, and a machine's unannounced change is the only place its
new counters appear.

**Announcing.** `Batches` forms batches, `Watermarks` keeps what was received from a peer, and
`Announcing` joins a sender, a network that loses, repeats and reorders, and a receiver.

**The quarantine.** `QuarantineModel` is the quarantine as a value, with the invariant that keeps its
items, version lists and arrival counter in step; `QuarantineMeanings` what each operation makes of what
is held; `QuarantineRuns` its runs; `QuarantineRebuild` its rebuilding from rows;
`Quarantines.Quarantine` the class.

**The want-list.** `Wants` and `Dispatching` are its steps as functions, `WantMeanings` and
`DispatchMeanings` what each makes of a want, field by field; `WantRuns`, `WantRefusals`, `WantFetches`
and `WantGate` are its runs against a host, and `WantLists.WantList` the class, dispatch loops included.

**Persistence.** Each class keeps, as ghost state, the table a host would have that is updated only from
what the class reports; `Persistence` says when it equals memory.

**The disk.** `Disks` is a filesystem as a map from paths to nodes in which any call may fail and then
changes nothing, and in which every change is kept, so that a crash at any moment can be spoken of; which
directories are not yet durable, and which are mount points, is part of it. `Trash`, `CommitStates`,
`Commits`, `Recovery` and `Removals` are moves to the trash, the two renames of a write behind a journal
row, the undo at the start, and deletions. `DiskNames` is names on disk, `Scanner` what a scan may say
and why, `Accounts` what a walk has accounted for, and `Scans` the explicit-stack walk.

**Time.** `Calendar` is the date arithmetic.

## Conventions

Node ids, batch ids and content hashes are opaque ordered values, numbers here. Text is byte strings.
Counters, stamps and sequence numbers are unbounded. A method of a class ensures its whole new state as a
function of the old; the properties are lemmas about that function. Whatever the host, the network or the
filesystem may answer is a parameter or a choice that is left open. Preconditions on runs are what
callers promise: a committing want is removed or replaced only on its report, refusals are carried over
only to a want just made, held items keep their entries by their paths.

Where a contract says what happens when no call fails, that is `Disks.Disk.faultless`: nothing is
mounted, and a call fails only over what is on the disk. That a rename reports `AlreadyExists` and
`NotFound` only where they are so, as the contracts in fs.rs have it, is an assumption made by name
(`Disks.Disk.honest`). Conservation never rests on it. Where it fails, putting back after a failed rename
in can drop the row and leave the path empty; `Commits.Write` says that this happens exactly then.

One place where the code does less than one might take it to promise: a landed commit whose temp cannot
be stated, on a path whose name on disk differs from its index name, gets its old entry back beside the
new one. `Recovery.ResolveOne` says exactly when, `Recovery.MovedBackAnyway` what is then where, and
`Recovery.BothCanBe` that it can be.

## Model

| member | source | states |
|---|---|---|
| `Versions.CompareByKeys` | crates/engine/src/version.rs:82-105 | the one pass over each vector's keys decides the pointwise order of the two vectors, a missing key reading as zero |
| `Versions.MergeByKeys` | crates/engine/src/version.rs:121-131 | raising a copy key by key gives the pointwise maximum |
| `Versions.CompareLaws` | crates/engine/src/version.rs:80-105 | comparing is antisymmetric: `Equal` exactly for one vector, and swapping the sides swaps the answer |
| `Versions.MergeIsJoin` | crates/engine/src/version.rs:119-131 | a merge is the least vector above both: it is at most any vector that is above both, and only those |
| `Versions.MergeLaws` | crates/engine/src/version.rs:119-131 | merging is commutative, idempotent and never below either side |
| `Versions.MergeAssociative` | crates/engine/src/version.rs:119-131 | merging is associative |
| `Versions.IncrementDominates` | crates/engine/src/version.rs:133-141 | an incremented vector strictly dominates the one it came from, and raises only its own node |
| `Paths.ParentJoin` | crates/engine/src/path.rs:130-147 | a path is its parent joined with its name, and its parent is its nearest ancestor |
| `Paths.JoinParent` | crates/engine/src/path.rs:125-140 | joining one component gives a path with that parent and that name |
| `Paths.AncestorFirst` | crates/engine/src/path.rs:143-147 | the byte order puts every directory before its contents |
| `Paths.AncestorsNest` | crates/engine/src/path.rs:143-147 | two ancestors of one path are one above the other |
| `Paths.JoinIsPath` | crates/engine/src/path.rs:78-140 | one component joined to a path is a path exactly if it is a proper one (not empty, no dot name, not over-long, no NUL) and not the folder's own directory at the root |
| `Entries.SameContentEquivalence` | crates/engine/src/entry.rs:170-181 | content equality is an equivalence, so identical-content merges may be chained |
| `Entries.UnchangedLooksLike` | crates/engine/src/entry.rs:66-77 | the stat guard lets through exactly the same kind with, for a file, the same size, mtime and exec bit, and for a symlink the same target hash; a tombstone lets through nothing |
| `Entries.SameContentSays` | crates/engine/src/entry.rs:170-181 | two entries have the same content exactly if both are tombstones, or both are live with the same kind and hash and, for files, exec bit |
| `Conflict.AtLeastTotal` | crates/engine/src/conflict.rs:70-126 | any two entries compare under the winner order |
| `Conflict.AtLeastAntisymmetric` | crates/engine/src/conflict.rs:70-126 | two entries at one path that each win against the other differ in nothing but their vectors |
| `Conflict.AtLeastTransitive` | crates/engine/src/conflict.rs:70-126 | the winner order is transitive, its fallback included, so who wins does not depend on who meets whom first |
| `Conflict.ResolveSymmetric` | crates/engine/src/conflict.rs:128-172 | both sides of a conflict make the same merged record, in every field |
| `Conflict.ResolveDominates` | crates/engine/src/conflict.rs:128-172 | a merged record carries the winner's fields over the join of both vectors, and ranks at least as high as either |
| `Conflict.RulesPromise` | crates/engine/src/conflict.rs:70-105 | the rules as promised, each only where those before it tie: the larger stamp, the live entry, the change of content, the later mtime, the larger author; so a tombstone beats a live entry only by a larger stamp |
| `Conflict.FallbackPromises` | crates/engine/src/conflict.rs:106-126 | where the rules tie, the larger hash, then a symlink over a directory over a file, then exec bit, size, former hash and host decide, and the fallback is counted |
| `ConflictNames.LongestCut` | crates/engine/src/conflict.rs:188-194 | the cut is the longest prefix within the limit that ends on a character boundary |
| `ConflictNames.Cut` | crates/engine/src/conflict.rs:188-194 | stepping an index back finds that prefix |
| `ConflictNames.FitFacts` | crates/engine/src/conflict.rs:196-206 | a fitted name keeps its suffix whole, stays within the limit if the suffix does, and loses the extension only after the stem |
| `ConflictNames.CompactWidth` | crates/engine/src/time.rs:70-89 | every 64-bit time has a stamp of fifteen bytes, with nothing in it that ends a component |
| `ConflictNames.CompactReads` | crates/engine/src/time.rs:70-89 | a stamp reads back as its second: a date of the calendar and a time of day that count up to it from the epoch, before 1970 too |
| `ConflictNames.SuffixNames` | crates/engine/src/conflict.rs:208-234 | a copy's suffix says when the losing version was written and by whom: the author's host, or the short id where the host has no name |
| `ConflictNames.ShortIdBegins` | crates/engine/src/id.rs:121-124 | a short id is the first eight of the thirty-two digits that read back as the id |
| `ConflictNames.ExtensionMeans` | crates/engine/src/conflict.rs:175-186 | the extension is the last dot and what follows it, and a directory has none, nor has a name with no dot past its first byte |
| `ConflictNames.ConflictCopyIsSibling` | crates/engine/src/conflict.rs:208-234 | for every entry there is a copy's path, as the construction promises: a proper path beside the entry's own whose name keeps the whole suffix, and another path than the entry's own where nothing had to be cut |
| `Calendar.CivilIsInverse` | crates/engine/src/time.rs:91-103 | the era arithmetic yields a calendar date whose day count is the one given, for every integer day |
| `Calendar.CivilFromDaysOfDate` | crates/engine/src/time.rs:91-103 | every date of the proleptic Gregorian calendar is the image of its own day count |
| `Calendar.CivilSuccessor` | crates/engine/src/time.rs:91-103 | the next day number is the next calendar date, across months, leap years and eras, before 1970 included |
| `Calendar.Epoch` | crates/engine/src/time.rs:91-103 | day zero is 1 January 1970 |
| `IndexModel.WriteValid` | crates/engine/src/index.rs:676-702 | a local write keeps the index well-formed: each sequence number names one record and pending rows step from what was announced |
| `IndexModel.AdoptValid` | crates/engine/src/index.rs:645-674 | adopting keeps the index well-formed |
| `IndexModel.RevertValid` | crates/engine/src/index.rs:760-781 | reverting keeps the index well-formed |
| `IndexModel.MarkValid` | crates/engine/src/index.rs:490-501 | announcing keeps the index well-formed |
| `LocalChanges.ApplyKeeps` | crates/engine/src/index.rs:524-642 | each local change, conflict copy or bump leaves what peers last saw at every path as it was |
| `LocalChanges.RunKeeps` | crates/engine/src/index.rs:332-355 | through any run of local changes catch-up sends what it sent before, and revert leads back to the same records whenever it comes |
| `LocalChanges.RevertIsInvisible` | crates/engine/src/index.rs:760-781 | from a just-announced index, through any run of local changes: catch-up never changes, each pending row is the step from the announced record in hash and kind, and revert restores every record, sequence number included, leaving nothing to announce |
| `Indexes.Index.Write` | crates/engine/src/index.rs:676-702 | a write gives exactly the model's new state, reports the change from what was announced, and notes the path |
| `Indexes.Index.Observe` | crates/engine/src/index.rs:524-562 | an observation gives exactly the model's new state, which `LocalRecords.SeenIsRecorded` says field by field; it is a write unless the live record already says it |
| `Indexes.Index.ObserveAbsent` | crates/engine/src/index.rs:564-590 | absence makes a tombstone, unless the path is unknown or already one |
| `Indexes.Index.ObserveAbsentUnrecoverable` | crates/engine/src/index.rs:592-610 | such a tombstone is exempt from the sender's pre-check |
| `Indexes.Index.RecordConflictCopy` | crates/engine/src/index.rs:612-642 | the displaced loser becomes a record at the copy's path |
| `Indexes.Index.BumpOver` | crates/engine/src/index.rs:704-758 | a deny's record dominates and outranks everything it bumps over |
| `Indexes.Index.Adopt` | crates/engine/src/index.rs:645-674 | a remote entry is adopted exactly if it dominates or equals the record, and is otherwise refused with nothing changed |
| `Indexes.Index.MarkAnnounced` | crates/engine/src/index.rs:490-501 | announcing empties the pending rows and moves the announced number to the last one |
| `Indexes.Index.RevertPending` | crates/engine/src/index.rs:760-781 | reverting gives every pending path back what peers last saw, and reports what happened at each, in path order |
| `Indexes.Index.Unannounced` | crates/engine/src/index.rs:465-488 | what a batch carries: the records past the announced number in strict sequence order, adopted ones without a kind |
| `Indexes.Index.AnnouncedSince` | crates/engine/src/index.rs:332-355 | what catch-up carries: what peers last saw, numbered in the range asked for, in strict sequence order |
| `Indexes.Index.ReceivedRange` | crates/engine/src/index.rs:374-397 | the peer's watermark describes exactly the ranges received from it |
| `Indexes.Index.PendingChanges` | crates/engine/src/index.rs:427-440 | the changed rows come out in path order; a host table updated only from them equals the pending rows after every drain |
| `LocalRecords.SeenIsRecorded` | crates/engine/src/index.rs:524-562 | after an observation the path's record is live with the kind, size, mtime, exec bit and hash seen, those a directory or symlink lacks at zero; a new record is this machine's, one version up, stamped past the old one, steps from what peers last saw, and is written exactly if the live record did not say so already |
| `LocalRecords.GoneIsRecorded` | crates/engine/src/index.rs:564-610 | after an absence nothing at the path is live; where it was live there is a tombstone of the same kind without content, exempt exactly if it was unrecoverable |
| `LocalRecords.CopyIsRecorded` | crates/engine/src/index.rs:612-642 | after a displacement the copy's path is live with the loser's content, as this machine's own change |
| `LocalRecords.DenyIsRecorded` | crates/engine/src/index.rs:704-758 | after a deny content and liveness at the path are as before, or a tombstone where there was nothing; the version covers everything bumped over and its own counter is one past the largest; the stamp is past both |
| `LocalRecords.ChangeIsOf` | crates/engine/src/index.rs:676-702 | a write reports a deletion of what is gone, an addition of what peers have not, and otherwise a modification |
| `Classify.ItemDominates` | crates/engine/src/batch.rs:351-441 | classification emits nothing exactly when the local record covers the entry; else an item at its path, over the join of both vectors, that strictly dominates the local record and may be adopted; what it asks for is in `Classify.ModeMeans` |
| `Classify.ModeMeans` | crates/engine/src/batch.rs:307-328 | for every item: content is fetched exactly for a live file or symlink that the local record does not say already, a directory made or an entry deleted directly exactly where the record does not say so, and only a live file's times are set where it does; nothing is asked of the disk otherwise |
| `Classify.CopyForLosers` | crates/engine/src/batch.rs:351-441 | a live local file, directory or symlink that lost a conflict over content is displaced to its copy's path exactly if nothing live is there, and nothing else ever is |
| `Classify.FallbackMeans` | crates/engine/src/batch.rs:351-441 | a fallback is counted exactly for a conflict over content in which none of the rules decides |
| `ApplySets.Apply` | crates/engine/src/batch.rs:443-484 | a batch's last entry per path is classified in path order; items, ignored and duplicates add up to the batch |
| `ApplySets.AdoptsLast` | crates/engine/src/batch.rs:443-484 | adopting a batch's items leaves each of its paths with what receiving its last entry there leaves, and every other path alone |
| `Replication.StepKeeps` | crates/engine/src/index.rs:113-122 | every step of any machine (local change, deny, announcement, delivery, a want accepted now and adopted, refused or dropped later, revert) keeps the invariant that each record and each want is the winner among the events its vector covers |
| `Replication.Agreement` | crates/engine/src/index.rs:113-122 | in every reachable state of N machines, two entries of one path with equal vectors are equal in every field, whether held, pending, wanted but not yet adopted, or sent, although revert lets a machine reuse discarded counters |
| `Replication.ChangeFresh` | crates/engine/src/index.rs:155-172 | a local change's stamp ranks it above everything its vector covers |
| `Replication.JustifiedMerge` | crates/engine/src/conflict.rs:128-172 | merging two such records gives another: a merged record is a function of its vector |
| `Replication.AcceptedFlies` | crates/engine/src/folder.rs:1498-1518 | what classification makes of a sent entry is justified, and reaches no further ahead than the record it was classified against: it folds in no change that a revert has discarded |
| `Replication.LandKeeps` | crates/engine/src/index.rs:645-674 | an entry adopted long after it was classified, against a record that has moved on, keeps the invariant, refused or not |
| `Replication.RevertFlights` | crates/engine/src/folder.rs:2352-2362 | so does a revert, the wants at the reverted paths going with the records they were classified against |
| `Convergence.Converge` | crates/engine/src/batch.rs:351-441 | two machines that take collections of sent entries with equal joins end with the same record, whose vector is that join |
| `Convergence.OrderIrrelevant` | crates/engine/src/batch.rs:351-441 | the order and repetition of deliveries do not matter |
| `Convergence.NeverRefused` | crates/engine/src/index.rs:645-674 | at every point of every delivery order, what classification emits strictly dominates the record, so adoption never refuses |
| `Convergence.PendingNotDominated` | crates/engine/src/index.rs:708-758 | nothing that was ever sent dominates a machine's unannounced change |
| `Convergence.CatchUpSendsOnlySent` | crates/engine/src/index.rs:332-355 | catch-up sends only what some batch carried: pending changes never leak |
| `Batches.BatchLen` | crates/engine/src/batch.rs:213-227 | the loop takes the longest prefix that fits |
| `Batches.FormBatches` | crates/engine/src/batch.rs:164-211 | the loop forms exactly the batches of the recursive definition |
| `Batches.FormPartitions` | crates/engine/src/batch.rs:164-211 | formation loses, repeats and reorders nothing, and counts each change in one summary |
| `Batches.FormChains` | crates/engine/src/batch.rs:164-211 | ranges chain from the low number to the last record's, none is empty, and ids follow on |
| `Batches.FormCovers` | crates/engine/src/batch.rs:164-211 | each batch holds exactly the records whose numbers are in its range |
| `Batches.FormSizes` | crates/engine/src/batch.rs:213-227 | each batch takes at least one record, keeps both limits, and no batch but the last could take one more |
| `Batches.CountMeans` | crates/engine/src/batch.rs:80-100 | a new path counts as added with its bytes, another version as modified and a tombstone as deleted only if content changed, and nothing else counts |
| `Watermarks.ReceivedRange` | crates/engine/src/index.rs:374-397 | after any range the watermark describes what was received; the absorbing loop ends |
| `Watermarks.ReceiveAll` | crates/engine/src/index.rs:374-397 | from nothing, any sequence of ranges leaves a description of their set |
| `Watermarks.WatermarkExact` | crates/engine/src/index.rs:374-397 | the watermark is the largest number fully covered from one, and with the stored ranges it covers exactly what was received |
| `Watermarks.DescriptionUnique` | crates/engine/src/index.rs:374-397 | one received set has one description: order and repetition leave no trace |
| `Announcing.NothingMissed` | crates/engine/src/index.rs:465-501 | under loss, repetition and reordering of ordinary and catch-up batches, every announced record the sender stands by at or below the receiver's watermark was in a batch it processed, whatever changed or was reverted meanwhile |
| `Announcing.WatermarkBehindAnnounced` | crates/engine/src/index.rs:359-370 | an acknowledgement never runs ahead of the announcements |
| `Announcing.KindAtMeans` | crates/engine/src/index.rs:465-488 | a record travels without a kind exactly if it was adopted or is exempt, and otherwise as gone, as new to peers, or as another version of what they have |
| `Persistence.DrainedMirror` | crates/engine/src/parts.rs:110-122 | reporting every noted key as it stands makes the host's table equal to memory |
| `QuarantineModel.RecordAllGrew` | crates/engine/src/quarantine.rs:370-388 | recording versions adds them at the end of their paths' lists for one batch, and touches no other batch's |
| `QuarantineModel.HoldValid` | crates/engine/src/quarantine.rs:215-238 | holding keeps items, version lists and arrivals in step, under an id already held too, and changes no other row |
| `QuarantineModel.JoinKeeps` | crates/engine/src/quarantine.rs:240-259 | joining does, though a concurrent joiner is not stored |
| `QuarantineModel.ReleaseValid` | crates/engine/src/quarantine.rs:261-274 | releasing does, and leaves none of the item's versions behind |
| `QuarantineModel.DenyValid` | crates/engine/src/quarantine.rs:303-317 | denying does, and keeps the whole row under a fresh arrival number |
| `QuarantineModel.ForgetValid` | crates/engine/src/quarantine.rs:319-326 | forgetting the denied items does |
| `QuarantineModel.ReinstateValid` | crates/engine/src/quarantine.rs:342-352 | reinstating does, though its versions go in ahead of its item |
| `QuarantineModel.MatchingEarliest` | crates/engine/src/quarantine.rs:186-195 | the matching item is that of the earliest arrival the entry covers, and there is none exactly if it covers none |
| `QuarantineModel.MatchingNamesHeld` | crates/engine/src/quarantine.rs:186-195 | matching never names an item that is not held, or that has no entry at the path |
| `QuarantineModel.SortedKeysElements` | crates/engine/src/quarantine.rs:74-83 | key order is by batch, a held row before the denied ones, those by arrival, each key once |
| `QuarantineRuns.ReturnDeniedValid` | crates/engine/src/quarantine.rs:328-340 | after a revert every denied item is held again |
| `QuarantineRuns.RunKeeps` | crates/engine/src/quarantine.rs:92-104 | in every run the quarantine is in step and holds only what was brought in |
| `QuarantineRuns.DenyBumpsOverTaken` | crates/engine/src/quarantine.rs:197-213 | what a deny bumps over is entries that were taken in: the condition the replicated system puts on denies |
| `QuarantineMeanings.HoldMeans` | crates/engine/src/quarantine.rs:215-238 | holding an item quarantines every version of it, once, later than all before, and loses nothing; a new item is stored as it is, and one held already keeps, of two entries at a path, the one that came unless it does not cover the other |
| `QuarantineMeanings.JoinMeans` | crates/engine/src/quarantine.rs:240-259 | an entry that joins an item is quarantined for it, whether stored or not, and nothing else is |
| `QuarantineMeanings.ReleaseMeans` | crates/engine/src/quarantine.rs:261-274 | a released item is gone with every version it held, and nothing else is |
| `QuarantineMeanings.DenyMeans` | crates/engine/src/quarantine.rs:303-317 | a denied item's row is the item and at each path every version it held there, under the next arrival number; it is gone as a released one is |
| `QuarantineMeanings.ReinstateMeans` | crates/engine/src/quarantine.rs:342-352 | a row put back is held again with every version it had, as later arrivals than all before |
| `QuarantineMeanings.ReturnMeans` | crates/engine/src/quarantine.rs:328-340 | after a revert every version of every denied item is quarantined for it again, nothing held is lost, and nothing else came |
| `QuarantineMeanings.ReturnedInOrder` | crates/engine/src/quarantine.rs:328-340 | denied items come back in the order of their denies |
| `QuarantineRebuild.Rebuilt` | crates/engine/src/quarantine.rs:114-142 | rows and counter, read in any order, give the quarantine back exactly |
| `QuarantineRebuild.FromRows` | crates/engine/src/quarantine.rs:114-142 | the loop over rows followed by a sort by arrival does that, for any rows a quarantine had |
| `QuarantineRebuild.SortByArrival` | crates/engine/src/quarantine.rs:136-139 | the sort permutes and orders by arrival |
| `Quarantines.Quarantine.Matching` | crates/engine/src/quarantine.rs:186-195 | the scan of a path's list finds the model's item, which is held with an entry there |
| `Quarantines.Quarantine.MaxStampAt` | crates/engine/src/quarantine.rs:197-206 | the largest stamp quarantined at a path, none exactly if nothing is |
| `Quarantines.Quarantine.Hold` | crates/engine/src/quarantine.rs:215-238 | holding gives exactly the model's new state and notes the row it changed |
| `Quarantines.Quarantine.Join` | crates/engine/src/quarantine.rs:240-259 | joining gives exactly the model's new state, and is refused exactly for an unknown item |
| `Quarantines.Quarantine.Release` | crates/engine/src/quarantine.rs:261-274 | releasing gives exactly the model's new state and the item released |
| `Quarantines.Quarantine.Deny` | crates/engine/src/quarantine.rs:303-317 | denying gives exactly the model's new state |
| `Quarantines.Quarantine.ForgetDenied` | crates/engine/src/quarantine.rs:319-326 | forgetting gives exactly the model's new state |
| `Quarantines.Quarantine.ReturnDenied` | crates/engine/src/quarantine.rs:328-340 | denied items come back in the order of their denies, each reported with its path count |
| `Quarantines.Quarantine.Reinstate` | crates/engine/src/quarantine.rs:342-352 | reinstating gives exactly the model's new state |
| `Quarantines.Quarantine.FromRows` | crates/engine/src/quarantine.rs:114-142 | rows a quarantine reported give that quarantine back, with nothing noted |
| `Quarantines.Quarantine.DrainChanges` | crates/engine/src/quarantine.rs:354-368 | the changed rows come out in key order; a host table updated only from them equals the held and denied rows after every drain |
| `Wants.BackoffDoubles` | crates/engine/src/want.rs:1348-1355 | an exclusion lasts a minute, doubling on each repeat, up to an hour |
| `Dispatching.AssignsBest` | crates/engine/src/want.rs:1108-1136 | a fetch goes to the free source on the best tier, ties by smaller id |
| `Dispatching.DeferralNamesTier` | crates/engine/src/want.rs:1126-1133 | a deferral names a tier that would carry the file, and no less demanding one would |
| `Dispatching.CommitOrderNests` | crates/engine/src/want.rs:1218-1247 | creates are taken parents first, deletes children first, and all creates before any delete |
| `Dispatching.WaitsForNearest` | crates/engine/src/want.rs:1059-1081 | a gated want waits for the nearest that is not in flight: the deepest ancestor, or the shallowest deletion beneath |
| `DispatchMeanings.ReselectedMeans` | crates/engine/src/want.rs:1108-1136 | a want still to be fetched has no source exactly if none may be asked, is deferred exactly if some may but none carries a file of its size, and is to be fetched exactly if one does |
| `DispatchMeanings.AssignMeans` | crates/engine/src/want.rs:1182-1214 | a want whose turn it is fetches, with a minute to make progress, exactly if the folder and a source that carries its file have a slot; else it stays wanted and the host is asked nothing |
| `DispatchMeanings.CommitOneMeans` | crates/engine/src/want.rs:1250-1284 | a want ready to commit waits for one that holds it and is idle; else it is blocked while another holds it or the host has a commit for its path; else it is committed, with half a minute to report, or adopted where only the index is behind |
| `DispatchMeanings.MayCommitMeans` | crates/engine/src/want.rs:1217-1232 | what is taken for a commit is exactly what has its content or needs none and could start |
| `DispatchMeanings.FetchOrderMeans` | crates/engine/src/want.rs:1159-1185 | wants are fetched by the tier of their best source, then its id, then path |
| `DispatchMeanings.NoIdleSlot` | crates/engine/src/want.rs:1138-1284 | after any dispatch, a want whose content is still to come fetches if some connected source carries its file, unless the folder or every such source is out of slots |
| `WantMeanings.ServedMeans` | crates/engine/src/want.rs:724-786 | of all reports only that content was served puts it in hand, and leaves the want wanted for its commit |
| `WantMeanings.MismatchMeans` | crates/engine/src/want.rs:765-776 | after a mismatch nothing is in hand that was not, the source is struck once more and excluded for a minute at least and an hour at most, doubling, and the want has given up exactly if two or more sources are excluded |
| `WantMeanings.NotAvailableMeans` | crates/engine/src/want.rs:752-764 | a source that lacks the content is refused for an hour and has answered, and nothing else changes |
| `WantMeanings.FailedMeans` | crates/engine/src/want.rs:810-862 | a local failure blames no source: a failed disk forgets what may be gone and retries after a minute to an hour, and the other errors wait for what they name |
| `WantMeanings.InsertMeans` | crates/engine/src/want.rs:504-557 | an item for the want's version adds its source; one that strictly dominates it, with no commit under way, makes a fresh want that keeps the restoring mark; any other changes nothing |
| `WantMeanings.AnnouncedMeans` | crates/engine/src/want.rs:559-580 | when the wanted content is announced the teller is a source and refused no more, every exclusion is lifted, and a want that had given up is wanted again; else nothing changes |
| `WantMeanings.TimeMeans` | crates/engine/src/want.rs:954-1025 | exclusions and refusals end exactly when they are over, a stalled fetch and a retry are wanted again at their deadline, and an overdue commit keeps its path |
| `WantMeanings.RestartMeans` | crates/engine/src/want.rs:671-699 | after a restart nothing is in hand or in flight and no report is owed, and everything else stays |
| `WantMeanings.GatesMeans` | crates/engine/src/want.rs:1331-1346 | a directory is deleted only after what is deleted beneath it, and anything else is made only after the directories above it are made and what a revert moves away above it is gone |
| `WantMeanings.TakeMeans` | crates/engine/src/want.rs:437-447 | a want that a rule takes is gone, and a commit of its in flight is one whose report is still owed |
| `WantMeanings.MarksMean` | crates/engine/src/want.rs:464-475 | an observation at the path ends the restoring mark and what it remembered, and nothing else; what was trashed is remembered once, by a restoring want only |
| `WantMeanings.ReconnectedMeans` | crates/engine/src/want.rs:600-643 | a member that reconnects is excluded by no want any more, and every other want is as it was |
| `WantMeanings.PauseMeans` | crates/engine/src/want.rs:876-917 | a pause defers exactly what could start and resuming wants exactly that again; what is in flight or waits for something else is left alone |
| `WantMeanings.CollisionsMean` | crates/engine/src/want.rs:919-937 | a collision is over exactly once the record it names is another or gone |
| `WantMeanings.PeerGoneMeans` | crates/engine/src/want.rs:1027-1038 | a fetch is over exactly if its peer went |
| `WantMeanings.WaitsMean` | crates/engine/src/want.rs:1083-1103 | a wait is over exactly once what it waits for is gone or holds it no more |
| `WantMeanings.OneStateMeans` | crates/engine/src/want.rs:864-952 | an observed directory, a report of progress and a released commit's report each change the one want or row meant, and nothing else |
| `WantMeanings.ReportReaches` | crates/engine/src/want.rs:741-752 | a fetch report reaches exactly the want at its path that fetches that version; any other report changes nothing |
| `WantMeanings.FailureReaches` | crates/engine/src/want.rs:788-830 | a local failure reaches exactly the want at its path for that version |
| `WantMeanings.FetchFailureMeans` | crates/engine/src/want.rs:778-808 | a local failure that a fetch report carries comes to the same as one reported by itself |
| `WantRuns.StepInv` | crates/engine/src/want.rs:437-457 | every step keeps the list's account of the host's commits equal to what the host was given, keeps fetches within the slots and from sound sources, and starts nothing at a path the host has a commit for |
| `WantRuns.EveryRunSafe` | crates/engine/src/want.rs:1138-1284 | over every run: no commit and no index-only adoption starts at a path with an unreported commit, released ones included, and every state keeps its fetches within the rules |
| `WantRuns.DispatchInv` | crates/engine/src/want.rs:1138-1284 | one dispatch does, whatever it decides |
| `WantRuns.TakeInv` | crates/engine/src/want.rs:437-447 | a rule that takes a committing want releases the want, not the path |
| `WantRuns.RestartInv` | crates/engine/src/want.rs:671-699 | a restart leaves the host with nothing, and the list knows it |
| `WantRuns.AssignAllInv` | crates/engine/src/want.rs:1182-1214 | assigning slots in order never exceeds either limit |
| `WantRefusals.RefusalEnds` | crates/engine/src/want.rs:559-598 | while its want stays, a refusal ends exactly by the source announcing the content or by its hour passing |
| `WantRefusals.DispatchAsksNoRefused` | crates/engine/src/want.rs:1108-1136 | a dispatch never fetches from a refused source |
| `WantRefusals.NoRequestStorm` | crates/engine/src/want.rs:741-786 | once a source answers that it lacks the content, no dispatch of any run asks it for that want within the hour unless it announces the content first |
| `WantRefusals.RefusalsCarriedOver` | crates/engine/src/folder.rs:1508-1542 | a want re-derived for the same content refuses exactly who the old one refused, for as long |
| `WantFetches.ExclusionEnds` | crates/engine/src/want.rs:600-643 | while its want stays, an exclusion ends only by its time passing, by the source reconnecting, or by the content being announced |
| `WantFetches.DispatchAsksNoExcluded` | crates/engine/src/want.rs:1108-1136 | a dispatch never fetches from an excluded source |
| `WantFetches.NoEarlyRetry` | crates/engine/src/want.rs:741-786 | after a source sent content without the hash, no dispatch of any run asks it for that want before its backoff is over, unless the content is announced or the source reconnects |
| `WantFetches.OnlyServedInHand` | crates/engine/src/want.rs:741-786 | in every step, content comes into hand only by a source serving that version |
| `WantFetches.NothingUnserved` | crates/engine/src/want.rs:1218-1284 | in every run, no commit of a want in mode Fetch comes without a served report for its version since the want was made or restored |
| `WantFetches.NothingInHand` | crates/engine/src/want.rs:671-699 | a list that starts empty, or after a restart, has nothing in hand |
| `WantGate.GateAcyclic` | crates/engine/src/want.rs:1331-1346 | no circle of wants waits on itself |
| `WantGate.SomeUngated` | crates/engine/src/want.rs:1331-1346 | some want of any non-empty list waits on nothing |
| `WantGate.NeverStuck` | crates/engine/src/want.rs:1218-1284 | with all content in hand and no released commit, a dispatch of a non-empty list emits a step |
| `WantGate.RoundsEmpty` | crates/engine/src/want.rs:1218-1284 | dispatching again and again, every commit reported done, empties the list in as many rounds as it has wants |
| `WantGate.CommitsIndependent` | crates/engine/src/want.rs:1331-1346 | two commits of one dispatch never wait on each other |
| `WantLists.WantList.Insert` | crates/engine/src/want.rs:504-557 | an item gains its want a source, replaces it or is handed back: the last exactly if it does not dominate a different version there or its commit is under way; a replaced want's restoring mark stays |
| `WantLists.WantList.Take` | crates/engine/src/want.rs:437-447 | taking gives exactly the model's new state |
| `WantLists.WantList.ReleasedReported` | crates/engine/src/want.rs:449-457 | true exactly for a released commit's report, which frees the path |
| `WantLists.WantList.NoteAnnounced` | crates/engine/src/want.rs:559-580 | the announcing source is added, its refusal ends and every exclusion is lifted, exactly if the content is what the want is after |
| `WantLists.WantList.KeepRefusals` | crates/engine/src/want.rs:582-598 | refusals are carried over exactly for the same content |
| `WantLists.WantList.Release` | crates/engine/src/want.rs:618-643 | lifting an exclusion recounts the mismatches and revives a given-up want below two |
| `WantLists.WantList.Reconnected` | crates/engine/src/want.rs:600-616 | a reconnecting member's exclusions are lifted everywhere |
| `WantLists.WantList.Restarted` | crates/engine/src/want.rs:671-699 | a restart forgets released commits and fetched content, and makes transient states wanted |
| `WantLists.WantList.Fetched` | crates/engine/src/want.rs:724-786 | a report for a want that waits for that fetch makes of it what `WantMeanings` says field by field (`ServedMeans`, `MismatchMeans`, `NotAvailableMeans`, `FailedMeans`); any other is ignored |
| `WantLists.WantList.FetchFailing` | crates/engine/src/want.rs:788-808 | so has a local failure of a fetch |
| `WantLists.WantList.Failed` | crates/engine/src/want.rs:810-862 | a local failure sets the state its error calls for, and forgets content that may be gone |
| `WantLists.WantList.SetStates` | crates/engine/src/want.rs:720-727 | setting the states of a set one after another sets exactly those |
| `WantLists.WantList.PauseInbound` | crates/engine/src/want.rs:876-900 | pausing defers exactly the wants that could start |
| `WantLists.WantList.ResumeInbound` | crates/engine/src/want.rs:902-917 | resuming wants exactly those again |
| `WantLists.WantList.ReleaseCollisions` | crates/engine/src/want.rs:919-937 | a collision whose other path was written since is wanted again |
| `WantLists.WantList.Progress` | crates/engine/src/want.rs:939-952 | progress pushes the stall deadline out |
| `WantLists.WantList.PeerGone` | crates/engine/src/want.rs:1027-1038 | fetches from a peer that went are over |
| `WantLists.WantList.Expire` | crates/engine/src/want.rs:954-1025 | one by one, lifted exclusions, ended refusals, stalls, retries and overdue commits give exactly what each want is due, and the stalled and overdue paths are reported in path order |
| `WantLists.WantList.CountFetches` | crates/engine/src/want.rs:1149-1157 | the counters start as the numbers of fetches in progress |
| `WantLists.WantList.FirstFree` | crates/engine/src/want.rs:1190-1197 | the first source in rank order with a free slot is the best free one |
| `WantLists.WantList.AssignEach` | crates/engine/src/want.rs:1182-1214 | the slot loop with its counters does what counting afresh each time would |
| `WantLists.WantList.CommitEach` | crates/engine/src/want.rs:1247-1282 | the commit loop does what the model's does |
| `WantLists.WantList.DispatchAll` | crates/engine/src/want.rs:1138-1284 | a dispatch gives exactly the model's new state and steps |
| `WantLists.WantList.DrainChanges` | crates/engine/src/want.rs:484-502 | the changed wants come out in order of first change, each once; a host table updated only from them equals the wants after every drain |
| `WantLists.FirstsInOrder` | crates/engine/src/want.rs:484-502 | that order has every changed path exactly once, first changed first |
| `Disks.Disk.RenameRefusing` | crates/delocal/src/fs.rs:220-243 | a rename moves exactly one subtree to where nothing was, or changes nothing, with the fallback of a check and a plain rename too |
| `Disks.MovedThere` | crates/delocal/src/fs.rs:172-185 | everything under a renamed path is under its new place, node for node |
| `Disks.MovedElsewhere` | crates/delocal/src/fs.rs:172-185 | a rename touches nothing else |
| `Trash.FreeNumber` | crates/delocal/src/trash.rs:262-297 | galloping and halving finds a free number, the lowest if the taken ones have no gaps |
| `Trash.NumberedFits` | crates/delocal/src/trash.rs:81-128 | a numbered name fits a component and keeps its number whole |
| `Trash.Parents` | crates/delocal/src/trash.rs:298-362 | the directories an entry goes under are the day's, then one for each name above it, as itself or numbered; making them adds directories in the trash and changes nothing else |
| `Trash.MoveIn` | crates/delocal/src/trash.rs:184-240 | an entry goes, in one rename, to a free place in the trash for its own index path and day, behind its durable row if journalled, or everything stays; but for directories made in the trash nothing else changes, and nothing in it is replaced; where no call fails and the plain place is free, that is where it goes |
| `CommitStates.DisplacedAside` | crates/delocal/src/commit.rs:912-1020 | a displacement leaves the old entry whole at a place where nothing was, behind a row that says so |
| `CommitStates.InFromAside` | crates/delocal/src/commit.rs:803-850 | the rename in over the emptied path lands the new content and uses up the row's temp |
| `CommitStates.InFromBefore` | crates/delocal/src/commit.rs:803-850 | so does the rename in where nothing was |
| `CommitStates.BackFromAside` | crates/delocal/src/commit.rs:1022-1072 | putting back restores exactly what was there |
| `Commits.Walk` | crates/delocal/src/reach.rs:203-236 | the walk calls the path unreachable only if its parent is no directory on disk |
| `Commits.Look` | crates/delocal/src/commit.rs:706-741 | what a look finds is so |
| `Commits.Ready` | crates/delocal/src/commit.rs:1488-1543 | readying makes exactly the incoming node among the temps, touches nothing else and leaves nothing new elsewhere; it fails only if a call does or the fetched file is not what it should be |
| `Commits.MakeParents` | crates/delocal/src/commit.rs:1545-1592 | missing parents are made, and removed again on failure, leaving what was there and nothing new but directories above the path |
| `Commits.SetAside` | crates/delocal/src/commit.rs:912-1020 | a displacement ends aside behind its row, at the copy path or a trash place for its own path, or with everything in place; the latter only if a call failed or the place was taken |
| `Commits.PutBack` | crates/delocal/src/commit.rs:1022-1072 | what was displaced is back, or stays aside and is held open; only a rename that reports the path taken though it is free does neither |
| `Commits.Write` | crates/delocal/src/commit.rs:743-897 | at every moment of a write, whatever its calls answer, everything that was there is at its path or moved to where nothing was. It lands only over what was expected: the same kind and, for a file, size, mtime and exec bit, for a symlink hash; anything else there leaves the disk, the journal and the open rows as they were. Landed it leaves exactly what the entry says, durable or with its row open; failed, exactly what was there and nothing new but temps and directories, none of them where no call fails, or a path held open, unless and only unless a rename back was told that the free path is taken; and it lands wherever no call fails and nothing on the disk stands in its way |
| `Commits.Bring` | crates/delocal/src/commit.rs:780-897 | so does what follows the guard: readying, displacing, and going in |
| `Commits.GoIn` | crates/delocal/src/commit.rs:803-850 | what is ready goes in with its parents made durable, or the path stays as it was |
| `Commits.ErrorsMean` | crates/delocal/src/commit.rs:1666-1680 | only an error that says the path is not as it was found reads as a change, and an error of the trash's own directories never does |
| `Recovery.UndoRow` | crates/delocal/src/commit/journal.rs:118-230 | from any moment of a write, or of an undo cut short, the start's undo of a row leaves the path with exactly the old entry or the new, or the row open, and never the latter where no call fails; each of its own moments is one to start from |
| `Recovery.GoBack` | crates/delocal/src/commit/journal.rs:160-225 | what is aside with its temp still there goes back exactly if its path is empty and can be reached, on no mounted directory, durably |
| `Recovery.Start` | crates/delocal/src/commit/journal.rs:118-230 | a start over any number of rows with unrelated paths undoes each as if alone, changes nothing else, and may itself be cut short at any moment, any number of times |
| `Recovery.OtherKept` | crates/delocal/src/commit/journal.rs:118-230 | undoing one row leaves every other row's paths in the state they were in |
| `Recovery.ResolveOne` | crates/delocal/src/commit.rs:597-670 | the running host settles an open path or keeps it open; a landed commit stays landed exactly if its temp is found gone, or the path's disk name is taken, or it is the index name, or the rename back fails, and else both entries are there |
| `Recovery.ResolveAll` | crates/delocal/src/commit.rs:672-704 | resolving every open row before a scan does that for each, whatever the others do |
| `Recovery.SteppedGlobally` | crates/delocal/src/commit.rs:597-670 | one row's undo after a write leaves all the rest of the disk as the write found it |
| `Recovery.StartAfter` | crates/delocal/src/commit/journal.rs:118-230 | a crash at any safe moment, then a start: the path holds exactly what was there or what came, the rest of the disk as it was, or its row stays open; never silently empty, at any moment of the start either |
| `Recovery.EveryMomentSafe` | crates/delocal/src/commit.rs:743-897 | every moment of a write is one the start recovers from |
| `Recovery.MovedBackAnyway` | crates/delocal/src/commit.rs:612-640 | a rename back without a look at the temp undoes a commit that had not landed; one that had, under another name, keeps its new entry at the index name with the old one beside it |
| `Recovery.BothCanBe` | crates/delocal/src/commit.rs:612-640 | a concrete disk and journal at which that happens, whatever the two entries are |
| `Removals.TrashEntry` | crates/delocal/src/commit.rs:1136-1165 | an unjournalled move to the trash is one rename to a trash place for its own path, which leaves the path absent and the entry whole, or everything stays in place |
| `Removals.CopyEntry` | crates/delocal/src/commit.rs:1100-1116 | a displaced entry is whole at its conflict copy and gone from its path, or still in place |
| `Removals.Holdings` | crates/delocal/src/commit.rs:1227-1262 | a directory's contents are taken along exactly if the default rules ignore all of them; a name with no index path or a thing no rule ignores stops the removal, and a file a user rule ignores is reported as such |
| `Removals.RemoveDirectory` | crates/delocal/src/commit.rs:1167-1225 | a directory goes only once empty; whatever fails, each of its children is in place or whole in the trash at a place of its own for its own path and day; only what the default rules ignore is moved, and nothing if the directory holds anything else |
| `Removals.RemovePath` | crates/delocal/src/commit.rs:1084-1134 | at every moment of a deletion the entry is whole, at its path or where it was to go, and nothing is replaced; it succeeds only if the entry there is the one expected (kind and, for a file, size, mtime and exec bit, for a symlink hash), and otherwise changes nothing; a success leaves nothing at the path and the entry whole at its copy or its own place in the trash, a failure the entry where it was; it succeeds wherever the entry is as expected, no call fails and its new place is free |
| `Removals.MoveToTrash` | crates/delocal/src/commit.rs:1324-1362 | a revert's move to the trash takes exactly an entry with the expected kind and, for a file, size, mtime and exec bit, for a symlink hash; from any other it keeps off and the disk is as it was; and it loses nothing at any moment |
| `DiskNames.NameDir` | crates/delocal/src/names.rs:132-150 | a directory's names are marked as coinciding exactly if another maps to the same path |
| `DiskNames.ClashCounts` | crates/delocal/src/names.rs:154-170 | counting names per path finds exactly the coinciding ones |
| `DiskNames.NameMeans` | crates/delocal/src/names.rs:84-126 | a name is an entry's exactly if its normal form joined to its directory is a path an entry may have, not too long; the name kept beside it is the one that differs; only the folder's own directory at the root is reserved |
| `Scanner.IgnoredBeneath` | crates/delocal/src/scan/ignore_rules.rs:131-150 | what lies beneath an ignored directory is ignored |
| `Scanner.BeneathAt` | crates/delocal/src/names.rs:95-126 | what is on disk beneath a directory has an index path beneath its own |
| `Accounts.SkipDeals` | crates/delocal/src/scan.rs:542-556 | a skip covers everything at and beneath its path |
| `Accounts.RuleDeals` | crates/delocal/src/scan.rs:577-603 | what a rule keeps from the walk is found ignored after it |
| `Scans.Walker.LookAt` | crates/delocal/src/scan.rs:564-696 | every entry at and beneath a child is reported, skipped, ignored, beneath a mount, or left for the walk; the report is what was seen, `Unchanged` exactly if a live record has the kind and, for a file, size, mtime and exec bit, for a symlink hash seen, and a skip only for the call that failed or a file too recent to hash; the walk enters exactly what it may |
| `Scans.Walker.Walk` | crates/delocal/src/scan.rs:531-562 | the walk ends, with everything on disk accounted for |
| `Scans.Walker.OpenRecords` | crates/delocal/src/scan.rs:698-717 | every open row is covered by a skip, on disk or not |
| `Scans.Walker.IgnoredRecords` | crates/delocal/src/scan.rs:719-738 | exactly the tracked paths the walk left to rules and mounts are skipped: every one is, and every skip added is at a live path under no open row that is ignored or at or beneath a mount |
| `Scans.Walker.SkipTop` | crates/delocal/src/scan.rs:325-404 | an unreadable ignore file skips everything tracked |
| `Scans.Walker.Run` | crates/delocal/src/scan.rs:301-404 | a scan finishes exactly if the root, its marker and its names can be had; whatever it reports has its grounds. Finished, it is silent about no tracked path whose entry of the same kind is on disk, skips every one where it cannot know, and of a path with no open row, mount, rule, clash or failing call at or above it says exactly what is there, `Unchanged` if the record does, and nothing, with no skip above, if nothing is |
| `Accounts.ClearTells` | crates/delocal/src/scan.rs:531-738 | that last part: of a clear path a scan whose reports have their grounds and that handled everything on disk tells what is there |
| `Accounts.UnknowableSkipped` | crates/delocal/src/scan.rs:531-738 | what a scan cannot know, beneath what it could not look into, is under a skip, on disk or not |

## Left out

- engine.rs and folder.rs: event dispatch and the rules for settled folders; what they promise is a precondition here.
- daemon.rs, main.rs, store.rs, net.rs, tailscale.rs: processes, SQLite and transport.
- Encodings, hex forms, host names, rules.rs defaults and brake.rs would only add easy members.
- Overflow: stamps, counters, sequence numbers, strikes and retry counts do not saturate or wrap here; the mismatch count is not capped at 255, which nothing compares with.
- Hashing threads: a scan's files are hashed in walk order, by a call that may fail.
- Power loss that loses renames or reorders them: effects happen in order. What a report calls synced is durable in the sense that its directories were; a removal's and a trash move's directory syncs are not stated.
- The user's writes during one commit: the disk changes only by the commit's own calls.
- Filesystems that fold case or normal forms: names are compared exactly, so collisions with live records, `Taken` spellings and the probe are not modelled.
- Trash rows, the mtime shim's pairs and the kept names on disk, which go with a commit's report; pruning and reconciling the trash.
- A metadata-only apply (`SetMeta`), which renames nothing.
- The want-list's next deadline, used only to wake the engine.
- Watermarks.ReceivedRange: absorbs contiguous ranges in any order rather than lowest first; the result is the same for every order.
- DiskNames.NameOf: takes a normal form holding a slash for no name; Unicode is a parameter, and no normal form adds one.
- Trash.EnsureDir: reports an error where the source looks again, when a directory appears between its look and its making.
- Disks.Disk.Lstat: reports `NotFound`, or a parent that is no directory, only where nothing is, and never `AlreadyExists`; the fallback of a check and a plain rename rests on that.
- Commits.Walk: mount points are a set of paths, fixed for the disk, rather than differing device numbers.
- Recovery.Start: takes rows whose paths are unrelated; rows of one path inside another's are not modelled.
- Scans.Walker.Run: is stated for a tree that does not change during the scan.
- Replication.StepKeeps: takes reverts at any time; that a folder is settled first is not needed for agreement. Wants at reverted paths go, and their being derived again is one more delivery.
