# Pootle: synchronisation and derived data

Pootle keeps translation stores in its database in step with translation files
in a working directory, and keeps statistics, checks and scores derived from the
stores. This project models the parts where that is decided, and proves what they
keep.

**Synchronisation** (`FsModel`, `FsResources`, `FsState`, `FsFiles`, `FsActions`,
`FsRuns`, `FsSides`, `FsSync`, `FsPlugin`, `FsExamples`). A tracking row ties a store
to a file and remembers the revision and the time stamp of the last sync. `FsState` has the
classification twice: as the set queries of `ProjectFSState`, and as a decision
table over (row, store, file); they are proved equal. `FsActions` says what each
action does to one path, `FsRuns` states the laws over all interleavings of
actions and outside edits, and `FsPlugin` is the plugin as a class that works in
place, list by list, each action proved to be one step of that state machine.
`FsSides` is about syncs of one side, as `update_stores` and `sync_stores` make them.
`FsExamples` has runs from nothing to the exceptions of those laws.

**Paths and language codes** (`Strings`, `UrlHelpers`, `FsPaths`, `FsMatcher`,
`LangMapper`). Printer and parser of file paths for the layout
`/<language_code>/<dir_path>/<filename>.<ext>`, with a mapping of language codes
built by eviction in between.

**Cached statistics** (`RevisionPaths`, `RevisionCache`). Values cached under the
revision of a directory, the updater that renews the revisions of every ancestor
of a changed store, and the sums of translation projects that some of the values
are computed from; as a class, and as a system of concurrent readers and writers.

**Batched and incremental maintenance** (`Bulk`, `BulkContext`,
`BulkObjects`, `Batches`, `CheckCounts`, `QualityChecks`, `Scores`, `Stats`,
`DirectoryStats`, `ProjectStats`). Each is a quick form of something simple: one statement for many
rows, deferred writes, slices, differences instead of replacement, grouped sums,
and running totals.

`Options` and `Sequences` are shared helpers.

## Assumptions

- A store's path and its file's path determine each other, so one `Path` names
  both; `FsMatcher` proves this for the layout above and names that are not an extension
  alone. A row is linked to the store
  at its path whenever there is one, and no two rows share a path.
- `resolve_conflict` 0 and null are one value, `Unset`.
- Unit revisions and file time stamps are two counters that only grow, and each
  write takes a value not issued before. The source compares time stamps for
  equality only.
- `Store.update` and the serializer are abstract functions of the contents
  (`Formats`); an update also says how far it went, from no difference to units
  that get a later revision. `Parseable` says that every file has a unit that an empty store
  lacks, so reading it into a new store saves something.
- An action starts from a state loaded at that moment, and is one step.
- The working directory is absolute with more than two characters, does not end
  in a slash, and has no angle brackets or doubled slashes; extensions have no
  dot. `$` in the file expression matches only at the end.
- Cache keys are tuples, a tool object is new for each read, and every tree of
  contexts has its directories.
- (category, name) of a store's check counts and (date, user) of a context's
  scores are unique, as the database demands.
- Scores are real numbers, and `round` goes to the nearest hundredth, halves away
  from zero.
- Primary keys of new rows are larger than all before. A missing latest
  submission is 0.

## Where code and intention differ

- `FSFile.pull` returns before it would resurrect a store whose file has not
  changed, so a forced add does not bring such a store back
  (`FsRuns.ReaddDoesNotRestore`, `FsExamples.ReaddedStaysRemoved`,
  pootle/apps/pootle_fs/files.py:161-167).
- A merge of a never-synced obsolete store whose file is missing writes the store
  out and leaves it obsolete (`FsRuns.SyncReachesFixpoint`, cell `LeftObsolete`,
  `FsExamples.MergedStaysObsolete`).
- A changed store with a missing file is both ahead and staged under POOTLE_WINS,
  and reads as unchanged under SOURCE_WINS, where unstage does not see it
  (`FsState.ClassesOverlap`, `FsState.UnchangedMeansInStep`,
  `FsRuns.UnstageUndoes`, `FsExamples.ResolvedTwice`, `FsExamples.ResolvedToNothing`).
- A live store that holds something new is written over without a winner exactly
  when its row was never synced and there is a file (`FsRuns.PulledOverIff`,
  `FsRuns.NeverSyncedIsPulledOver`, pootle/apps/pootle_fs/state.py:218-220).
- A sync into Pootle only (`update_stores`) that merges a path whose file and store
  do not differ records a hash and no revision. The row is in no class from then
  on, and no action takes it up again (`FsSides.StrandedIff`,
  `FsSides.StrandedForGood`, `FsExamples.UpdatedForNothing`,
  pootle/apps/pootle_fs/plugin.py:430-437, pootle/apps/pootle_store/updater.py:329-353).
  A merge whose update saved units and renewed none is not pushed later either
  (`FsSides.SidesInTurn`).
- A file whose name is an extension alone, such as `.po`, is matched to the store of
  another file, `.po.po` (`FsMatcher.DotFileMoves`,
  pootle/apps/pootle_fs/finder.py:75-77).
- The language mapper documents that project entries override presets; one can
  lose to a preset it does not mention (`LangMapper.SurvivingEntry`,
  `LangMapper.ProjectEntryCanLose`).
- `reverse_match` cuts the working directory's path out wherever it occurs, so a
  file is misplaced exactly when that path occurs again in the rest of the path
  before its doubled slashes are collapsed (`FsPaths.ReverseMatchIs`,
  `FsPaths.RootCanRecur`).
- `FSPathMatcher.matches` overwrites the language codes in the finder's list of
  found files. A finder without an `fs_hash` keeps that list, and a second pass
  over it is right exactly when every file with a store is under its language's
  own code (`FsMatcher.SecondPass`, `FsMatcher.LostOnSecondPass`).
- `update_tps_and_revisions` renews revisions before the sums of translation
  projects. What languages, projects and the project set show, and the checks of a
  translation project, is computed from the sums: a read between the two, when
  they are not one transaction, keeps the old sum under the new revision
  (`RevisionCache.RevisionsFirst`, `RevisionCache.LanguageShowsNone`); the other
  order is safe (`RevisionCache.SumsFirst`).
- A directory of a project across languages contributes paths below a language
  called `None` to an update of revisions (`RevisionPaths.PathsInProject`,
  pootle/apps/pootle_revision/utils.py:146-154).
- `StoreDataCRUD.post_create` reads `result.store`, but `bulk_create` returns a
  list: creating store data in bulk raises before revisions or sums are renewed
  (pootle/apps/pootle_data/store_data.py:41-43, pootle/core/bulk.py:62).
- `DataUpdater.update` saves a store's data, which is what renews revisions, only if
  a column changed. Check counts that change without one, such as those of checks
  that are not critical, renew nothing, and cached values that show them stay
  (`CheckCounts.DataUpdater.Update`, `CheckCounts.OtherChecksGoUnseen`,
  `RevisionCache.SettledIff`, `RevisionCache.UnannouncedIsServed`).
- `Batch.batched_update` over a list with its default `reduces=True` writes the
  first slice in every pass. That is every item once exactly when the list is
  shorter than a batch (`Batches.Batch.UpdateList`).
- `BulkCRUD.update` with objects and a dictionary saves only the fields that the
  dictionary changed, or that are named, so other attributes set on the objects
  are lost (`Bulk.ReachesRow`, `Bulk.AttributeLost`).
- `BulkCRUD.update` for rows that do not exist, unless with one shared non-empty
  update (so also for empty dictionaries alone), leaves its result unset, which raises an error (`Bulk.Model.Update`, outcome `Fails`).
- Of two deferred updates of a row the later dictionary replaces the earlier one,
  so fields can be lost (`BulkContext.DeferredUpdates`); a row created and then
  deleted is there in the end (`BulkContext.DeferredFixedIff`,
  `BulkContext.CreatedThenDeleted`). Deletes by query are evaluated at the exit,
  before the updates that were sent earlier (`BulkContext.UpdateThenDelete`,
  `BulkContext.MatchedTooLate`).
- Field names of different deferred sends are joined, so a field named for one
  object is saved for all (`BulkObjects.DeferredObjectsIff`,
  `BulkObjects.NamedForAnother`), and a deferred instance without a row is not
  created (`BulkObjects.InstanceIsNotCreated`).
- `UnitQualityCheck.update` speaks of unmuting checks; a check that still fails
  stays muted, and keeps its old message and category
  (`QualityChecks.MutedStaysMuted`).
- With a list of check names, untranslated units still lose checks of every name
  (`QualityChecks.QualityCheckUpdater.UpdateUntranslated`).
- A directory or store called `templates`, or with a name starting `templates-`,
  drops out of the totals of an ordinary directory (`DirectoryStats.CountsAllIff`,
  `DirectoryStats.TemplatesDirectoryIsLost`).
- A directory's object statistics leave out its own stores, which its children
  include (`DirectoryStats.ObjectCountsAllIff`, `DirectoryStats.OwnStoreIsLost`),
  and those of a language or project include languages with a template code, which
  the sum over the children leaves out (`ProjectStats.ObjectIsAggregateIff`). They
  never show suggestions (`ProjectStats.SuggestionsAreNotShown`), and are null
  where nothing is listed; the two laws say what holds with null as it is, and
  with null read as zero.

## Model

| member | source | states |
|---|---|---|
| FsState.MembersAreKinds | pootle/apps/pootle_fs/state.py:143-365 | The fourteen set-style generators put a path in a class exactly when a separate decision table over (row, store, file) says so |
| FsState.KindsOverlap | pootle/apps/pootle_fs/state.py:303-338 | Two different classes meet in one cell exactly for a changed store with a missing file under POOTLE_WINS, or for a row with both staging flags |
| FsState.ClassesOverlap | pootle/apps/pootle_fs/state.py:143-365 | The same for the generators themselves: apart from those cells the classes are pairwise disjoint |
| FsState.UnchangedMeansInStep | pootle/apps/pootle_fs/state.py:199-213 | A synced row is in no class exactly when store and file are both there and unmoved, or in the SOURCE_WINS gap (changed store, missing file) |
| FsState.InNoClassIff | pootle/apps/pootle_fs/state.py:143-365 | Exactly which paths are in no class: untracked without live store and file, merges without a winner, unsynced rows whose winner allows nothing, unchanged rows, and rows half synced |
| FsState.ClassesByRow | pootle/apps/pootle_fs/resources.py:49-67 | Untracked paths, staged rows, unsynced rows and synced rows each have their own list of possible classes |
| FsFiles.PullGuardAgrees | pootle/apps/pootle_fs/files.py:157-169 | Of what the classes staged or ahead on the file side select, the guard of pull turns away exactly the untouched obsolete re-add |
| FsFiles.PushGuardAgrees | pootle/apps/pootle_fs/files.py:171-185 | The guard of push lets through everything the classes staged or ahead on the store side select |
| FsFiles.GuardsDecideClass | pootle/apps/pootle_fs/files.py:76-102 | On a synced row with both sides present the four combinations of the two guards are unchanged, ahead here, ahead there, and conflict or resolved conflict |
| FsRuns.AddKeepsInv | pootle/apps/pootle_fs/plugin.py:254-298 | add keeps the row invariant: not both staging flags, a winner for every merge, sync revision and hash both set or both null, or nothing staged on a row with a hash and no revision |
| FsRuns.ResolveKeepsInv | pootle/apps/pootle_fs/plugin.py:302-332 | resolve keeps it |
| FsRuns.RmKeepsInv | pootle/apps/pootle_fs/plugin.py:336-370 | rm keeps it |
| FsRuns.UnstageKeepsInv | pootle/apps/pootle_fs/plugin.py:374-409 | unstage keeps it |
| FsRuns.OutsideKeepsInv | pootle/apps/pootle_fs/files.py:76-102 | Edits, creations and deletions outside the plugin keep it, because revisions and time stamps are new |
| FsRuns.MergeAlwaysPushes | pootle/apps/pootle_fs/plugin.py:412-447 | The pull of a merge always leaves something to push, so a merge records a revision |
| FsRuns.SyncKeepsInv | pootle/apps/pootle_fs/plugin.py:528-579 | sync, of both sides or of one, keeps the row invariant |
| FsRuns.StepKeepsInv | pootle/apps/pootle_fs/plugin.py:252-579 | Every action and every outside event keeps the invariant of the whole project |
| FsRuns.InvariantOverRuns | pootle/apps/pootle_fs/plugin.py:252-579 | The invariant holds in every state of every interleaving of actions, syncs of both sides or of one, and outside events |
| FsRuns.SyncOneCell | pootle/apps/pootle_fs/files.py:119-185 | What a sync of both sides or of one leaves at one path: gone, in step with fresh sync columns, as it was, or merged and not pushed, in the class that follows from what the update did |
| FsRuns.SyncReachesFixpoint | pootle/apps/pootle_fs/plugin.py:528-579 | After sync, paths staged for merge, pull or push or ahead, on the sides asked for, are unchanged exactly unless one of two named cells applied (a merge only if it was pushed); removed paths are gone; paths of every other class, and of the side not asked for, are untouched |
| FsRuns.RemovedIsRetired | pootle/apps/pootle_fs/files.py:119-131 | What is staged for removal loses row and file; its store, if there is one, is as it was but obsolete |
| FsRuns.SyncWrites | pootle/apps/pootle_fs/files.py:157-258 | What a sync makes of the contents: pulled from the file, which stays and wins unless Pootle was chosen; pushed from the store, which stays; or merged against the revision last synced and, if both sides are synchronised, written out. The store's revision is new exactly when units were saved, and a written file's time stamp is new |
| FsRuns.ResolutionHolds | pootle/apps/pootle_fs/files.py:229-258 | A conflict, tracked or not, with a file, resolved and synchronised: overwritten from the filesystem the store takes the file with SOURCE_WINS, overwritten from Pootle the file takes the store, and merged the chosen side wins against the revision last synced |
| FsRuns.SyncFrame | pootle/apps/pootle_fs/plugin.py:528-579 | A path in none of the classes that the sync of that side works on keeps its row, store and file |
| FsRuns.SyncIsIdempotent | pootle/apps/pootle_fs/plugin.py:528-579 | A second sync of the same side, or of both, changes nothing |
| FsRuns.NoUnauthorisedOverwrite | pootle/apps/pootle_fs/plugin.py:450-502 | In every run a sync, of both sides or of one, writes over a moved file only under POOTLE_WINS, a merge or a removal, and over a moved live store with sync information only under SOURCE_WINS, a merge or a removal |
| FsRuns.ConflictPersists | pootle/apps/pootle_fs/state.py:143-153 | A conflict stays one, its row as it was and out of the reach of every sync, until it is resolved, removed by force or loses its store |
| FsRuns.StagingMoves | pootle/apps/pootle_fs/plugin.py:254-370 | add, resolve and rm take each path from its class to the class they promise, and leave all others alone, except that an overwrite-from-fs of a conflict without a file reaches no class |
| FsRuns.StagingWrites | pootle/apps/pootle_fs/plugin.py:162-192 | add, resolve, rm and unstage leave stores and files alone, and exactly the named columns of the row take the named values |
| FsRuns.UnstageUndoes | pootle/apps/pootle_fs/plugin.py:374-409 | From a clean project, add, rm or resolve followed by unstage gives back the path exactly, if and only if it was not an overwrite-from-fs of a conflict whose file is missing; tracked rows are the same in any case |
| FsRuns.ReaddDoesNotRestore | pootle/apps/pootle_fs/files.py:157-169 | Forced add and sync bring a store removed from Pootle back exactly unless the store is obsolete and its file untouched |
| FsRuns.PulledOverIff | pootle/apps/pootle_fs/state.py:216-259 | A sync into Pootle writes over a live store that holds something new, although no winner was chosen, exactly when the row was never synced and there is a file; the file's text then wins, and every other such store stays as it is |
| FsRuns.NeverSyncedIsPulledOver | pootle/apps/pootle_fs/state.py:216-230 | A run that leads there: a tracked file that was never synced, and a store that appears meanwhile |
| FsRuns.HalfMergeKinds | pootle/apps/pootle_fs/plugin.py:430-437 | A merge without a push keeps the file and leaves the path ahead, staged, in step or stranded, as the update of the store decides |
| FsSides.OtherSideStays | pootle/apps/pootle_fs/plugin.py:538-550 | But for removals, a sync into Pootle keeps every file, and one to the filesystem every store |
| FsSides.HalfMergeLeaves | pootle/apps/pootle_fs/plugin.py:412-447 | After a sync into Pootle a merged path is ahead in Pootle exactly when the update saved nothing or gave a later revision to unsynced units, staged exactly when it has no file (and was not the obsolete cell), unchanged exactly when the update saved units and renewed none, and in no other class |
| FsSides.SidesInTurn | pootle/apps/pootle_fs/plugin.py:528-579 | A sync into Pootle and then one to the filesystem come to one sync of both at a path exactly unless it is a merge that the second finds nothing to push for; its file then stays as it was |
| FsSides.StrandedIff | pootle/apps/pootle_fs/files.py:253-258 | A row is left with a hash and no revision by exactly one step: a sync into Pootle that merges a file which does not differ |
| FsSides.StrandedForGood | pootle/apps/pootle_fs/resources.py:49-67 | In every run a row is stranded exactly when it was, or some sync into Pootle before merged it for nothing; from then on it keeps its columns and is in no class, whatever happens on either side |
| FsExamples.EndIsReached | pootle/apps/pootle_fs/plugin.py:252-579 | The events of the following examples are runs from a project with nothing in it |
| FsExamples.ReaddedStaysRemoved | pootle/apps/pootle_fs/files.py:157-169 | A file is added, synchronised, its store made obsolete and added again by force: after the sync the store is still obsolete and the path removed from Pootle |
| FsExamples.MergedStaysObsolete | pootle/apps/pootle_fs/plugin.py:412-447 | An untracked conflict is resolved by merging, the store made obsolete and the file deleted: the sync writes the file and leaves the store obsolete |
| FsExamples.UpdatedForNothing | pootle/apps/pootle_fs/plugin.py:412-447 | Both sides make the same change, the conflict is resolved by merging and the project updated from its files: the path is in no class, nor unchanged |
| FsExamples.ResolvedToNothing | pootle/apps/pootle_fs/state.py:232-259 | The store changes and the file is deleted: overwriting from the filesystem leaves the path in no class, and unstage leaves the resolution |
| FsExamples.ResolvedTwice | pootle/apps/pootle_fs/state.py:303-338 | Overwriting from Pootle puts the same path in two classes |
| FsSync.PhaseStep | pootle/apps/pootle_fs/plugin.py:450-474 | One turn of a phase's loop extends what the phase has done to all its paths |
| FsSync.WorkedIsSync | pootle/apps/pootle_fs/plugin.py:412-502 | What a merge, pull or push phase does to a path it selects, with the columns written at the end, is what Sync of the sides asked for says about that path |
| FsSync.SyncPath | pootle/apps/pootle_fs/plugin.py:528-579 | Removal, both merges, pull, both pushes and the final update, applied to a path in sequence, come to one Sync of it |
| FsSync.SyncSteps | pootle/apps/pootle_fs/plugin.py:528-579 | So the phases together are one step of the state machine |
| FsPlugin.ProjectState.Load | pootle/apps/pootle_fs/state.py:117-141 | Every list of a loaded state holds each member of its class once, and the revisions and hashes are those of the resources |
| FsPlugin.Plugin.CreateStoreFs | pootle/apps/pootle_fs/plugin.py:162-180 | Exactly the listed paths get the given new row |
| FsPlugin.Plugin.DeleteStoreFs | pootle/apps/pootle_fs/plugin.py:182-186 | Exactly the listed rows go |
| FsPlugin.Plugin.UpdateStoreFs | pootle/apps/pootle_fs/plugin.py:188-192 | Exactly the listed rows change, in the given columns only |
| FsPlugin.Plugin.AddAction | pootle/apps/pootle_fs/plugin.py:254-298 | The in-place add is the add step on every path, and the response names exactly the paths that changed |
| FsPlugin.Plugin.ResolveAction | pootle/apps/pootle_fs/plugin.py:302-332 | The same for resolve |
| FsPlugin.Plugin.ToRemove | pootle/apps/pootle_fs/plugin.py:351-367 | The rows to remove are gathered into the state's own both_removed list, which grows with them |
| FsPlugin.Plugin.RmAction | pootle/apps/pootle_fs/plugin.py:336-370 | rm is the rm step on every path in spite of that alias; the response names exactly the changed paths and both_removed ends as the rows that changed |
| FsPlugin.Plugin.ToUnstage | pootle/apps/pootle_fs/plugin.py:384-402 | Staged and resolved rows, parted into those never synced and the rest |
| FsPlugin.Plugin.UnstageAction | pootle/apps/pootle_fs/plugin.py:374-409 | unstage is the unstage step on every path, and the response names exactly the changed paths |
| FsPlugin.Plugin.PullFile | pootle/apps/pootle_fs/files.py:229-258 | Pulling changes only its own store, and returns the update's revision, not issued before, exactly when there was an update and a difference |
| FsPlugin.Plugin.PushFile | pootle/apps/pootle_fs/files.py:218-227 | Pushing changes only its own file, with a time stamp not issued before, and returns the store's revision if it wrote |
| FsPlugin.Plugin.MergeFile | pootle/apps/pootle_fs/plugin.py:412-447 | A merge is a pull with the given winner and then, when both sides are synchronised, a push, whose revision it takes instead of the update's |
| FsPlugin.Plugin.DeleteFile | pootle/apps/pootle_fs/files.py:119-131 | The store is as it was but obsolete, row and file are gone, nothing else changes |
| FsPlugin.Plugin.SyncToPootle | pootle/apps/pootle_fs/files.py:229-258 | The file wins unless the merge, or without one the row, says Pootle. An update counts the site's revision up twice exactly when store and file differ, and returns the first; the store gets the first, the second or neither |
| FsPlugin.Plugin.SyncRm | pootle/apps/pootle_fs/plugin.py:505-524 | Exactly what is staged for removal is deleted |
| FsPlugin.Plugin.SyncMerge | pootle/apps/pootle_fs/plugin.py:412-447 | Each listed row is merged once, and the state's revisions and hashes say what the final update needs |
| FsPlugin.Plugin.SyncPull | pootle/apps/pootle_fs/plugin.py:451-474 | Each listed row is pulled once, likewise |
| FsPlugin.Plugin.SyncPush | pootle/apps/pootle_fs/plugin.py:478-502 | Each listed row is pushed once, likewise |
| FsPlugin.Plugin.FinishSync | pootle/apps/pootle_fs/plugin.py:551-576 | Exactly the reported rows get their sync columns, from the state's revisions and hashes or the latest ones |
| FsPlugin.Plugin.SyncAction | pootle/apps/pootle_fs/plugin.py:528-579 | The in-place sync of both sides or of one, over a state loaded once, is the sync step on every path, and the response names exactly the paths it worked on |
| UrlHelpers.SplitRendered | pootle/core/url_helpers.py:17-48 | Splitting the path of a file in a well-formed place gives back language, project, directory and file name |
| UrlHelpers.SplitLanguage | pootle/core/url_helpers.py:17-48 | The path of a language has its code and nothing else |
| UrlHelpers.SplitInProject | pootle/core/url_helpers.py:17-48 | A path below /projects/<code>/ has the project, the directory and the file name, and no language |
| UrlHelpers.SplitAbove | pootle/core/url_helpers.py:17-48 | /projects/ and / have no part at all |
| UrlHelpers.RenderInjective | pootle/core/url_helpers.py:17-48 | Different places have different paths |
| FsPaths.ParseSound | pootle/apps/pootle_fs/finder.py:147-154 | Whatever the expression captures from a path, printing it gives the path |
| FsPaths.ParseComplete | pootle/apps/pootle_fs/finder.py:147-154 | Every way to read a path is found, and of several the one with the shortest directory part |
| FsPaths.MatchIs | pootle/apps/pootle_fs/finder.py:64-78 | A match is nothing for an excluded language, and otherwise what was captured, with the directory stripped of slashes and, where no name was captured, the whole last part of the path as the name |
| FsPaths.NameIsLanguage | pootle/apps/pootle_fs/finder.py:108-138 | Without a name the file has that of its language |
| FsPaths.ReverseMatchIs | pootle/apps/pootle_fs/finder.py:108-138 | reverse_match prints root, language, directories, name and extension, exactly when the working directory's path does not occur in the rest of the path before its doubled slashes are collapsed |
| FsPaths.RootCanRecur | pootle/apps/pootle_fs/finder.py:132-138 | It does under /srv for a directory called srv, and the path printed is wrong |
| FsMatcher.FoundFiles.Matches | pootle/apps/pootle_fs/matcher.py:103-120 | The loop that remembers codes without a language yields what matching each entry alone yields, in order, remembers exactly those codes, once each, and leaves the language's code in the finder's list where the file's code stood |
| FsMatcher.FoundIsMatched | pootle/apps/pootle_fs/finder.py:86-106 | The entries of a new list are the files that match, so the first pass yields what matching each file yields |
| FsMatcher.LanguageIff | pootle/apps/pootle_fs/matcher.py:95-96 | A code stands for a language exactly when the mapping has that entry, or speaks of the code on neither side and a language has it |
| FsMatcher.MatchFileIff | pootle/apps/pootle_fs/matcher.py:71-120 | A file yields a store exactly when its code stands for some language and neither name nor extension is missing; under a code without a language it yields nothing |
| FsMatcher.DoubledSlash | pootle/apps/pootle_fs/matcher.py:71-84 | Doubled slashes in the directory part make no difference |
| FsMatcher.YieldedPath | pootle/apps/pootle_fs/matcher.py:98-101 | The path yielded with a store is the file's below the working directory |
| FsMatcher.SecondPass | pootle/apps/pootle_fs/matcher.py:103-120 | A list that is kept yields the same a second time exactly when every file that has a store is under the code of its own language |
| FsMatcher.LostOnSecondPass | pootle/apps/pootle_fs/matcher.py:103-120 | A file under a code that stands for another is found the first time and not the second |
| FsMatcher.FileOrReason | pootle/apps/pootle_fs/matcher.py:122-132 | A store has no file exactly when its language code is only an upstream code of another, its language is excluded, or its extension is not one of the finder's, each with its own outcome |
| FsMatcher.StoreToFile | pootle/apps/pootle_fs/matcher.py:122-132 | A store's path leads to its file, under the same exact condition on the path before its doubled slashes are collapsed |
| FsMatcher.FileToStore | pootle/apps/pootle_fs/matcher.py:71-120 | A file leads to the store of its language, directories, name and extension |
| FsMatcher.StoreRoundTrip | pootle/apps/pootle_fs/matcher.py:71-132 | Store to file and back is the identity |
| FsMatcher.FileRoundTrip | pootle/apps/pootle_fs/matcher.py:71-132 | File to store and back is the identity |
| FsMatcher.DotFileMoves | pootle/apps/pootle_fs/finder.py:75-78 | A file called .po is matched to the store of .po.po, which has a file of its own |
| LangMapper.MergeOrder | pootle/apps/pootle_project/lang_mapper.py:71-81 | A dictionary filled by successive updates lists its keys by first use, each with its latest value |
| LangMapper.SurvivorsAre | pootle/apps/pootle_project/lang_mapper.py:117-125 | An entry survives eviction exactly when no later entry has its Pootle code |
| LangMapper.SurvivorsOneToOne | pootle/apps/pootle_project/lang_mapper.py:117-125 | What survives is one to one, from the same entries, and loses no Pootle code |
| LangMapper.ProjectLanguageMapper.MappingsFromPresets | pootle/apps/pootle_project/lang_mapper.py:71-81 | The presets of the project, merged in their order |
| LangMapper.ProjectLanguageMapper.AddLangToMapping | pootle/apps/pootle_project/lang_mapper.py:117-125 | An entry evicts the one with its Pootle code and is then put in |
| LangMapper.ProjectLanguageMapper.ParseMappings | pootle/apps/pootle_project/lang_mapper.py:127-134 | From presets, their names and the project's entries: a code is mapped to the value last assigned to it, exactly unless a code first used later is assigned the same; the mapping is one to one |
| LangMapper.SurvivingEntry | pootle/apps/pootle_project/lang_mapper.py:71-134 | Of presets and project entries, u stands for p exactly when p is u's latest value and no key first used after u has p as its latest value |
| LangMapper.OwnEntryAssigns | pootle/apps/pootle_project/lang_mapper.py:127-131 | What the last of the project's own entries for a code says goes, whatever the presets say |
| LangMapper.LastPresetAssigns | pootle/apps/pootle_project/lang_mapper.py:71-81 | For any other code it is the last known preset that lists it |
| LangMapper.ProjectEntryCanLose | pootle/apps/pootle_project/lang_mapper.py:24-36 | A run: a project entry that reuses an early preset key loses to a later preset |
| LangMapper.ProjectEntryIsUsed | pootle/apps/pootle_project/lang_mapper.py:127-134 | A run: without presets a project's entry is the mapping |
| LangMapper.CodesAreABijection | pootle/apps/pootle_project/lang_mapper.py:102-115 | The two lookups are inverse to each other, follow the entries, leave other codes alone, and are undefined exactly on values that are not keys and keys that are not values |
| RevisionPaths.AddPathsFor | pootle/apps/pootle_revision/utils.py:139-155 | One turn of the loop adds what its path contributes |
| RevisionPaths.GetParentPaths | pootle/apps/pootle_revision/utils.py:134-155 | The nested loops compute the union of what the paths contribute, with /projects/, and / alone for / |
| RevisionPaths.PathsForPlace | pootle/apps/pootle_revision/utils.py:134-155 | For a well-formed directory that is its project, its language, itself and every directory above it |
| RevisionPaths.PathsAbove | pootle/apps/pootle_revision/utils.py:134-155 | The directories of languages and projects contribute themselves, and those above them nothing |
| RevisionPaths.PathsInProject | pootle/apps/pootle_revision/utils.py:146-154 | A directory of a project across languages contributes the project, and paths below a language called None |
| RevisionPaths.InvalidationIsExact | pootle/apps/pootle_revision/utils.py:134-155 | The revision of a directory, translation project, language, project or the project set is renewed exactly when the changed store counts towards it |
| RevisionCache.BumpIsExact | pootle/apps/pootle_revision/utils.py:171-209 | An update gives exactly those objects a new revision, for exactly the given keys, and leaves all others alone |
| RevisionCache.ChangeKeepsEntry | pootle/core/decorators.py:193-224 | A store change spoils only entries of objects above it that read the stores, which wait for the update |
| RevisionCache.ChangeKeepsSums | pootle/apps/pootle_data/tp_data.py:66-81 | A store change leaves only its own translation project's sums behind |
| RevisionCache.RefreshKeepsEntry | pootle/apps/pootle_data/tp_data.py:30-103 | Renewing a translation project's sums spoils only values computed before from them |
| RevisionCache.SumsAreTrue | pootle/apps/pootle_data/utils.py:596-611 | Sums that are not behind are those of the stores |
| RevisionCache.BumpKeepsEntry | pootle/apps/pootle_revision/utils.py:171-209 | An update makes the entries of the objects above it unreachable and keeps all others right |
| RevisionCache.BumpKeepsCoherent | pootle/apps/pootle_revision/utils.py:171-209 | An update keeps the cache coherent and settles one pending change |
| RevisionCache.StatsSite.Get | pootle/core/decorators.py:202-224 | A read returns what recomputing would give, from the stores or from the sums as the object's data tool does, unless a change below waits for its update or the value came too late for a sum, and fills at most its own key |
| RevisionCache.ReadsAreShown | pootle/core/decorators.py:193-224 | A run for every object, property and pair of stores of which one is below the object: a read shows the words of that one, after a change those it has then, and after its deletion none |
| RevisionCache.StatsSite.ChangeStore | pootle/apps/pootle_data/store_data.py:45-47 | A store change keeps the cache coherent with one more update of revisions and of sums to come |
| RevisionCache.StatsSite.Refresh | pootle/apps/pootle_data/tp_data.py:30-103 | Renewing the sums of a translation project keeps the cache coherent, and only keys that read them and have a value become late |
| RevisionCache.StatsSite.UpdateTpsAndRevisions | pootle/apps/pootle_data/store_data.py:27-39 | Revisions of all objects above the stores are new, exactly the sums concerned are renewed from the stores, and with no read between the two all is settled and no current key is late that was not |
| RevisionCache.StatsSite.Update | pootle/apps/pootle_revision/utils.py:171-209 | The update of one directory is the exact bump and settles the change |
| RevisionCache.StatsSite.UpdatePaths | pootle/apps/pootle_revision/utils.py:171-201 | One new token for all parents of all given paths |
| RevisionCache.StatsSite.WriteRevisions | pootle/apps/pootle_revision/utils.py:171-209 | Updating what exists and creating what is missing writes every (parent, key) pair once |
| RevisionCache.NextKeepsInv | pootle/core/decorators.py:202-224 | Every step of a read, change, update of revisions or sums, or eviction keeps the cache and all reads in progress coherent |
| RevisionCache.HitsAreFresh | pootle/core/decorators.py:193-224 | In every interleaving of readers, changes and both updates a cache hit equals recomputing, once the changes below the object have had their update and unless the value came too late for a sum |
| RevisionCache.HitsAreTrue | pootle/apps/pootle_data/utils.py:596-614 | A hit that reads sums then shows the totals of the current stores, once no sum is behind |
| RevisionCache.SumsFirst | pootle/apps/pootle_data/store_data.py:27-39 | In every interleaving no value is too late for an object whose sums were not renewed since its last new revision: renewing sums before revisions is safe |
| RevisionCache.RevisionsFirst | pootle/apps/pootle_data/store_data.py:27-39 | In the source's order a read between the two updates keeps the old sum under the new revision when both are done, and is right exactly when the renewed sum shows the same |
| RevisionCache.OldSumIsKept | pootle/apps/pootle_data/store_data.py:27-39 | On a site of sums of words: the first store gets n words, a read comes between the two updates, and the value served when both are done is none, where recomputing gives n |
| RevisionCache.BetweenTheUpdates | pootle/apps/pootle_data/utils.py:596-614 | Which objects and properties that concerns: languages, projects, the project set and the checks of translation projects; all else shows the new words at once |
| RevisionCache.LanguageShowsNone | pootle/apps/pootle_data/store_data.py:27-39 | So the language fr shows none of three words |
| RevisionCache.SettledIff | pootle/apps/pootle_data/utils.py:254-268 | Saving a store's data settles the change exactly when it is announced |
| RevisionCache.UnannouncedIsServed | pootle/apps/pootle_data/utils.py:254-268 | After a change that is not announced the value cached from the stores before is still served to every object above, and right exactly when the new data show the same |
| Bulk.AllUpdatesCommon | pootle/core/bulk.py:133-146 | A common dictionary is found exactly when all update dictionaries are equal |
| Bulk.SameEntries | pootle/core/bulk.py:133-146 | With equal sizes, comparing entries one way decides equality |
| Bulk.Model.Update | pootle/core/bulk.py:184-195 | update with any list of objects, a dictionary and field names, or with an instance: the new table, and whether rows were updated at once, objects saved, nothing done, or no row found so that the result is never set; exact when objects named twice agree, and otherwise some one of them is saved |
| Bulk.ChosenIsByPk | pootle/core/bulk.py:90-131 | When objects listed twice agree, there is one choice, and the fields changed are those it changes |
| Bulk.Model.UpdateObjectDict | pootle/core/bulk.py:148-176 | Without objects the single common update and the row-by-row path leave the same table, and the first is taken exactly for a shared non-empty update; with objects, each is saved in the fields written and every other row is updated |
| Bulk.NoRowIsUpdated | pootle/core/bulk.py:148-176 | A run: two different updates, and one empty one, of rows that are not there leave the result unset |
| Bulk.NoObjects | pootle/core/bulk.py:148-176 | Without objects the result is that of the dictionary, row by row |
| Bulk.StoredIsResult | pootle/core/bulk.py:160-176 | Saving fetched objects updates them whole, since every field that changed on one is written |
| Bulk.ReachesRow | pootle/core/bulk.py:111-123 | What a listed object holds reaches its row exactly in the fields written, or where the row holds it already |
| Bulk.AttributeLost | pootle/core/bulk.py:111-123 | An attribute set on an object is lost when the same call's updates change another, and saved without them |
| Bulk.Model.UpdateCommonObjects | pootle/core/bulk.py:125-131 | The listed rows get the values; their other fields, all other rows and the set of rows stay as they are |
| Bulk.Model.UpdateObjects | pootle/core/bulk.py:90-98 | The objects end with their updates set, and the fields reported are exactly those that an update changed |
| Bulk.Model.UpdateObject | pootle/core/bulk.py:84-88 | Setting only what differs is setting everything, and names what differed |
| Bulk.Model.BulkUpdate | pootle/core/bulk.py:50-53 | Each object's fields are written to its row, if there is one |
| BulkContext.BulkUpdated.Handle | pootle/core/contextmanagers.py:86-136 | One send of any kind is gathered: rows, matches, instances, dictionaries, objects and field names; nothing is written |
| BulkContext.BulkUpdated.Callback | pootle/core/contextmanagers.py:139-172 | Deletes, their queries evaluated now, creates and the one update with all dictionaries, objects and field names are carried out together, in this order, whatever was sent |
| BulkContext.RunInContext | pootle/core/contextmanagers.py:174-197 | Up to the exit the table is untouched; then all that was gathered is carried out, which is the sequential result for every compatible run without objects |
| BulkContext.DeferredIsSequential | pootle/core/contextmanagers.py:86-197 | Gathering and carrying out equals sending one by one when creates come before updates and deletes of their rows, repeated updates cover the earlier fields, and no query answers differently for an update or creation sent before it |
| BulkContext.DeferredUpdates | pootle/core/contextmanagers.py:110-136 | For updates alone deferring is right on every table exactly when the last dictionary of each row covers the fields of all before it |
| BulkContext.CreatedThenDeleted | pootle/core/contextmanagers.py:139-158 | A row created and then deleted in one context is there at its end |
| BulkObjects.DeferredObjectsIff | pootle/core/contextmanagers.py:110-136 | Objects sent to be saved, any of them repeatedly, can be deferred exactly when each object's own fields are those named for any of them, or saved whole together with all others |
| BulkObjects.NamedForAnother | pootle/core/contextmanagers.py:110-136 | Of two objects sent with a field each, both fields are saved of both |
| BulkObjects.InstanceIsNotCreated | pootle/core/contextmanagers.py:110-136 | An instance without a row is saved when sent on its own, and not at the exit |
| BulkContext.DeferredIff | pootle/core/contextmanagers.py:86-172 | For creates, deletes and updates in any mixture, with delete queries evaluated at the exit, deferring is right on every table exactly when for every row, whatever it held, what the callback makes of it is what the sends make of it in order |
| BulkContext.DeferredFixedIff | pootle/core/contextmanagers.py:86-172 | When the deletes go by keys, deferring is right on every table exactly when, for every key, the last creation or a deletion with the last update on top comes to what the sends do in order |
| BulkContext.UpdateThenDelete | pootle/core/contextmanagers.py:94-102 | An update and then a delete by query can be deferred exactly when the update never changes what the query says of a row |
| BulkContext.MatchedTooLate | pootle/core/contextmanagers.py:139-152 | A row that is updated to what a delete asks for goes when the two are sent one by one, and stays when they are deferred |
| Batches.Batch.UpdateList | pootle/core/batch.py:64-109 | floor(n/b)+1 passes; with reduces off every item is written once and in order, with it on the first slice is written in every pass; every item is written once and in order exactly when reduces is off or the list is shorter than a batch |
| Batches.UpdateQueue | pootle/core/batch.py:64-109 | With reduces on, a query that drops what is written is written whole, once and in order, in as many passes |
| CheckCounts.DataUpdater.Existing | pootle/apps/pootle_data/utils.py:189-194 | Every stored row is found by its category and name |
| CheckCounts.DataUpdater.Compare | pootle/apps/pootle_data/utils.py:195-210 | The loop finds exactly the wrong counts, the kinds to create and the kinds left over |
| CheckCounts.DataUpdater.SetCheckData | pootle/apps/pootle_data/utils.py:189-234 | Afterwards the stored counts are the calculated ones, one row a kind; a row stays exactly when its kind is still calculated, and only new kinds get new rows |
| CheckCounts.DataUpdater.Update | pootle/apps/pootle_data/utils.py:254-268 | Columns and check counts become the calculated ones, and saving is announced exactly when the data was not saved yet or a column differs: a change of counts alone is not |
| CheckCounts.DataUpdater.SetAll | pootle/apps/pootle_data/utils.py:236-252 | Each column takes its calculated value; those reported as changed are exactly those that differed |
| CheckCounts.CriticalChangesDiffer | pootle/apps/pootle_data/utils.py:236-268 | A change in the number of critical checks shows in a column |
| CheckCounts.CountMore | pootle/apps/pootle_data/store_data.py:134-140 | A check of the category adds its count to the critical checks, any other none |
| CheckCounts.OtherChecksGoUnseen | pootle/apps/pootle_data/utils.py:254-268 | One more failing check of another category changes the stored counts and no column |
| QualityChecks.QualityCheckUpdater.UpdateChecks | pootle/apps/pootle_checks/utils.py:113-135 | Failures without a row get one each, old rows stay, and the list is left with the checks that no longer fail |
| QualityChecks.QualityCheckUpdater.UpdateUnit | pootle/apps/pootle_checks/utils.py:101-111 | A unit's rows are reconciled; the answer is true exactly when the set of requested names changed |
| QualityChecks.QualityCheckUpdater.Checks | pootle/apps/pootle_checks/utils.py:155-171 | The dictionary read once holds for each unit exactly its requested names |
| QualityChecks.QualityCheckUpdater.UpdateTranslatedUnit | pootle/apps/pootle_checks/utils.py:263-275 | One unit reconciled, and its store reported exactly when something changed |
| QualityChecks.QualityCheckUpdater.UpdateUntranslated | pootle/apps/pootle_checks/utils.py:313-321 | Every check of an untranslated unit goes, whatever its name, and its store is reported exactly then |
| QualityChecks.QualityCheckUpdater.UpdateTranslated | pootle/apps/pootle_checks/utils.py:277-306 | The dictionary read once stays right for the units still to come, so every unit with a checker is reconciled |
| QualityChecks.QualityCheckUpdater.Update | pootle/apps/pootle_checks/utils.py:230-245 | All units in scope are reconciled and the stores returned are exactly those where a set of names changed |
| QualityChecks.InTurn | pootle/apps/pootle_checks/utils.py:230-245 | Reconciling two groups of units one after the other reconciles both |
| QualityChecks.NamesAreFailures | pootle/apps/pootle_checks/utils.py:101-135 | After reconciling, the stored names within the requested ones are the current failures |
| QualityChecks.ByState | pootle/apps/pootle_checks/utils.py:277-321 | Above state 0, so fuzzy (50) and translated (200), a unit with a checker has its failures, checks of other names stay, and without a checker it keeps what it had; at 0 and below it has none |
| QualityChecks.ReportedIff | pootle/apps/pootle_checks/utils.py:230-245 | The stores reported are exactly those with a unit whose stored names are not what they were |
| QualityChecks.NewRowsSay | pootle/apps/pootle_checks/utils.py:113-135 | A new row says what fails now and is not muted |
| QualityChecks.MutedStaysMuted | pootle/apps/pootle_checks/utils.py:113-135 | A check that still fails keeps its row, false positive mark included, and gets no second one; other units' rows stay |
| Scores.RoundIsNear | pootle/apps/pootle_score/updater.py:118-122 | Rounding gives a hundredth no further than half a hundredth away |
| Scores.HalfRoundsAway | pootle/apps/pootle_score/updater.py:118-122 | Halves are rounded away from zero |
| Scores.ScoreCalculation.ScoreEvent | pootle/apps/pootle_score/updater.py:241-257 | One event more: days, users, components and sums are those of the events so far |
| Scores.Calculate | pootle/apps/pootle_score/updater.py:259-286 | The nested dictionaries have a day and user exactly for a counted event, a component exactly for a non-zero contribution, and each total is the sum of the contributions |
| Scores.OrderIndependent | pootle/apps/pootle_score/updater.py:241-286 | Any permutation of the events gives the same dictionaries |
| Scores.CountsIff | pootle/apps/pootle_score/updater.py:241-257 | An event counts exactly when its action is scored and one of the four components is positive |
| Scores.SuggestionCounts | pootle/apps/pootle_score/updater.py:241-286 | A run: a new suggestion with the default score of 0 gives its user the day and the suggested words |
| Scores.ScoreUpdater.Changes | pootle/apps/pootle_score/updater.py:113-122 | Exactly the components that differ after rounding are written |
| Scores.ScoreUpdater.FindExistingScores | pootle/apps/pootle_score/updater.py:141-163 | Every row of the context with a calculated day and user is found |
| Scores.ScoreUpdater.Compare | pootle/apps/pootle_score/updater.py:105-123 | The loop finds the updates that adjust every row, and exactly the keys without a row |
| Scores.ScoreUpdater.SetScores | pootle/apps/pootle_score/updater.py:97-130 | Rows are adjusted in place, missing ones created with what was calculated, all others left alone, one row a day and user |
| Scores.ScoreUpdater.CreateScores | pootle/apps/pootle_score/updater.py:165-180 | One unrounded row for each remaining key |
| Scores.RowsFollow | pootle/apps/pootle_score/updater.py:97-130 | Every calculated day and user has exactly one row, and each component agrees to two decimals and lies within 0.01 |
| Scores.SecondRun | pootle/apps/pootle_score/updater.py:97-130 | The same scores a second time change and create nothing |
| Scores.StoreInStep | pootle/apps/pootle_score/updater.py:97-130 | After set_scores a store's rows are within 0.01 of what its events give, on every day and for every user, exactly when no row without events held more than that |
| Scores.ScoredIsGrouped | pootle/apps/pootle_score/updater.py:192-328 | Whoever scores in a store has a row in its project |
| Scores.SumInStep | pootle/apps/pootle_score/updater.py:319-328 | Sums over n stores are within n hundredths of what all their events give |
| Scores.ProjectInStep | pootle/apps/pootle_score/updater.py:319-361 | A project's stored row is within n + 1 hundredths of what the events in its n stores give |
| Stats.WordsByState | pootle/apps/pootle_data/store_data.py:98-118 | Translated, fuzzy and all other live words make the total, each counted from its own states |
| Stats.StoreDataIs | pootle/apps/pootle_data/store_data.py:98-181 | A live store shows the words of its units of state 200, 50 and above -100, and its own critical checks, suggestions and latest submission; an obsolete one its latest submission alone |
| Stats.TPDataIs | pootle/apps/pootle_data/tp_data.py:66-81 | A translation project stores the words of its live stores, state by state, and the latest submission of all its stores |
| Stats.StoreIsBounded | pootle/apps/pootle_data/store_data.py:98-181 | translated + fuzzy <= total for a store, obsolete or not |
| Stats.TPIsBounded | pootle/apps/pootle_data/tp_data.py:71-76 | The same for a translation project |
| Stats.ChildrenStats.AddChildStats | pootle/apps/pootle_data/utils.py:546-576 | One row is added to its child in place, sums and latest submission |
| Stats.ChildrenStats.AddGroups | pootle/apps/pootle_data/utils.py:463-469 | Folding rows grouped by any key shows under each label the direct sum of its rows |
| Stats.ChildrenStats.AggregateChildren | pootle/apps/pootle_data/utils.py:422-449 | The aggregate is the direct sum over the rows whose label is not skipped |
| Stats.ShownFigures | pootle/apps/pootle_data/utils.py:578-590 | Object statistics are the sums over the listed rows, value by value, null when there are none; suggestions and latest submission are None |
| DirectoryStats.RootIsChild | pootle/apps/pootle_data/directory_data.py:33-58 | The path prefix filter takes exactly the directories at or below, and the label cut out of the path is the child on the way |
| DirectoryStats.ShownIsTree | pootle/apps/pootle_data/directory_data.py:40-58 | Grouping by path, relabelling and adding the own stores gives the labels and sums of the directory tree, each store once |
| DirectoryStats.GetChildrenStats | pootle/apps/pootle_data/directory_data.py:40-54 | The children filled in by the two loops are those of the tree |
| DirectoryStats.ChildIsSum | pootle/apps/pootle_data/directory_data.py:40-54 | What a child shows is the sum over the stores in it |
| DirectoryStats.AllChildren | pootle/apps/pootle_data/directory_data.py:40-54 | All children together are all stores below |
| DirectoryStats.AggregatedStats | pootle/apps/pootle_data/utils.py:483-492 | The aggregate and what lies under template labels make all stores below; translated + fuzzy <= total |
| DirectoryStats.CountsAllIff | pootle/apps/pootle_data/utils.py:422-449 | Nothing is lost exactly when no store under a template label counts anything |
| DirectoryStats.TemplatesDirectoryIsLost | pootle/apps/pootle_data/utils.py:428-432 | A translated store in a directory called templates is lost |
| DirectoryStats.ObjectCountsAllIff | pootle/apps/pootle_data/directory_data.py:33-38 | The object's figures are those of all stores below exactly when its query lists a store and the directory's own stores count nothing; with null read as zero, exactly when the latter holds. Suggestions are never shown |
| DirectoryStats.OwnStoreIsLost | pootle/apps/pootle_data/directory_data.py:33-38 | A directory's own translated store is not in its object statistics, which are null over an empty query |
| DirectoryStats.ObsoleteCountNothing | pootle/apps/pootle_data/store_data.py:167-181 | Counting obsolete stores or not gives the same counts |
| DirectoryStats.TopIsProject | pootle/apps/pootle_data/tp_data.py:66-81 | The top directory adds up what the translation project stores |
| ProjectStats.SkippedIff | pootle/apps/pootle_data/utils.py:428-432 | The children skipped are exactly those of codes that are or start with templates (for a language context, one whose own code starts with templates-) |
| ProjectStats.OneProject | pootle/apps/pootle_data/utils.py:596-614 | Whose stores a total counts, and whose an object's own statistics: those of the language, of the project or of all, without the language templates where it is excluded, and for who may not see everything only if the project is not disabled |
| ProjectStats.WhoSeesWhat | pootle/apps/pootle_data/utils.py:606-607 | Who may not see everything sees what everyone would without the disabled projects; who may, what everyone would if none were disabled |
| ProjectStats.ChildIsSum | pootle/apps/pootle_data/utils.py:613-614 | What a child of a language, a project or the project set shows is the sum over its stores |
| ProjectStats.AggregatedStats | pootle/apps/pootle_data/utils.py:596-614 | For a language, a project and all projects the aggregate is the sum over all stores of the translation projects that count; translated + fuzzy <= total |
| ProjectStats.ObjectIsAggregateIff | pootle/apps/pootle_data/utils.py:578-590 | The object's words and critical checks are those its children sum up to exactly when some translation project is listed and those with a template code hold none; with null read as zero, exactly when the latter holds. Suggestions are never shown |
| ProjectStats.TemplateLanguageIsLost | pootle/apps/pootle_data/utils.py:428-432 | A translation project of a language like templates-fr makes the two differ |
| ProjectStats.SuggestionsAreNotShown | pootle/apps/pootle_data/utils.py:578-590 | Pending suggestions are in the sum over the children and None in the project's own statistics |

## Left out

- Path filters and globs of the actions, and languages excluded by the project: every action is modelled on all paths.
- Actions on a state that has gone stale since it was loaded, transactions and locks.
- Fetching and pushing the working directory (`LocalFSPlugin`), log messages, and the response beyond which paths it names.
- The contents of files and stores: formats, unit merging, suggestions.
- `FSFile.pull` on a file that disappears or turns empty while it is read.
- Layouts other than the one named, general regular expressions, and the validation of mappings.
- `ProjectResourceRevision`, whose `revision_context` returns nothing, and statistics of project resources.
- The order of the receivers that renew sums and revisions when a single instance of store data is saved: both orders are modelled.
- The instance dictionary that `persistent_property` also fills, and time-outs of the cache other than eviction.
- Revision updates without keys, which use an empty key.
- Nested bulk contexts and suppressed signals.
- Objects are values: setting attributes on the caller's objects is not modelled, and of different objects listed for one row which one is saved is left open.
- `BulkContext.DeferredIsSequential`: is about creates, deletes and dictionaries, and `BulkObjects.DeferredObjectsIff` about objects and field names; runs that mix the two are gathered and carried out, but not compared with sending them one by one.
- `_update_handler` keeps the caller's first dictionary and extends it: the model copies it.
- `batched_create`.
- Check counts of equal (category, name) listed twice in one calculation.
- Rows of quality checks are written at once, not deferred by `bulk_operations`; `BulkContext.DeferredIsSequential` is about that difference.
- The checks themselves: what fails for a unit is given.
- The latest created unit of a child or an object, and submission details.
- Statistics of a translation project's own children (`TPDataTool`), and disabled projects seen from one of their directories.
- Score settings and which events there are: an event comes with its components. Scores of users over thirty days.
- Rounding of floating point numbers, and the integer columns of scores.
- `FsMatcher.StoreRoundTrip`: supposes that the working directory's path does not recur in the file's path; `FsMatcher.StoreToFile` shows that this is the exact condition.
