# Conserve: a model of the archive and its proofs

Conserve keeps backups of a directory tree in an archive. Each backup is a *band*: a directory with a
head file, numbered *hunks* of sorted index entries, and a tail file that says the band is complete.
File content is kept in *blocks* named by their hash, shared by all bands. Small files are combined
into one block; large files are cut into blocks of a fixed size. A band that was interrupted is read by
*stitching*: its own entries first, then the previous band's entries from that point on.

This project models that logic in Dafny and proves what the program relies on:

- **Reading back.** Every sequence of backups, complete or stopped part-way, with any files failing to
  be read, reads back from every band as exactly what that backup kept, if its combined blocks were stored
  (`Jobs.EveryBackupReadsBack`); without errors that is the source tree, bytes included
  (`Jobs.EveryTreeReadsBack`), and for a tree on disk exactly what a walk of it finds
  (`TreeBackups.EveryWalkReadsBack`). The program's own writer does exactly this to an archive, and a run that
  reports no errors over a basis in range leaves exactly the given entries to be read, true to the files
  (`BackupWriting.RunBackup`).
- **There and back.** Restoring any band of any sequence of trees backed up without errors to an empty directory
  gives back exactly that tree, with content, links, times and modes (`RoundTrips.BackupThenRestore`).
- **Nothing dangles.** In every state of every interleaving of the writer's backups, one after another,
  with a deletion, failures and crashes, every address in every hunk names a range of a present block,
  and nothing is deleted while a backup is running (`Refinement.NoInterleavingDangles`). Three things
  have to be ruled out: that a combined block fails to be stored, that a deletion checks in one gap, and
  that it passes over a hunk that alone refers to some block. Each does break it
  (`Refinement.FailedStoreBreaksBackup`, `Protocol.RaceHarmlessExactly`, `Protocol.MissHarmlessExactly`).
- **Unchanged is free.** A file is taken over from the previous tree if and only if that records a file of the
  same time and length whose blocks are there (`BasisLookups.TakenOverExactly`); so backing up an unchanged
  source stores no block and reads back as the same tree (`Repeats.UnchangedCostsNothing`).
- **Deletion.** When a deletion is refused, stops or succeeds, and what is then left, is stated both ways
  (`GarbageCollection.DeleteBands`), and is what a run of the protocol leaves (`Deletions.DeletedIsARun`).
- **Order.** The path order is total and keeps every directory's contents together; walking a source
  tree, which holds exactly the visible paths (`LiveTree.WalkHolds`), writing an index, stitching and looking
  entries up all agree with it.
- **Checkers.** Validation, comparison with a source tree, and hunk lookup agree with plain
  quantified definitions, in both directions.
- **Books balance.** File, byte, block and error counters of a backup and of a deletion add up, against what
  was given and what the archive gained.

The files, in reading order: `Base`, `Apath`, `Entry`, `Sorting`, `LiveTree`, `Storage`, `Index`,
`Stitch`, `EntryIter`, `Decimal`, `IndexWriter`, `BlockDir`, `Stats`, `Content`, `Combiner`, `Backup`,
`Basis`, `Jobs`, `TreeBackup`, `Accounting`, `Repeat`, `Counting`, `BackupWriter`, `Gc`, `Protocol`,
`Steps`, `Interleaving`, `Refinement`, `Deletion`, `Validate`, `Diff`, `HunkIndex`, `Utf8`, `Restore`, `RoundTrip`.

Code that changes things step by step is modelled by classes and methods (`LiveTree.Iter`,
`Index.IndexHunkIter`, `Stitch.IterStitchedIndexHunks`, `EntryIter.IndexEntryIter`,
`IndexWriting.IndexWriter`, `BlockDirs.BlockDir`, `Combining.FileCombiner`,
`BackupWriting.BackupWriter`, `GarbageCollection.GarbageCollectionLock`, `Differences.MergeTrees`,
`Restores.Disk`), each proved against a function on values; the theorems are about those functions.

## What is assumed

- The hash has no collisions, and compressing and encoding are undone by decompressing and decoding. A
  block hash is represented by the content that has it. A stored block file is empty, undecodable, or
  holds some content.
- Integers do not overflow, except that hunk and band numbers read back from names are 32-bit.
- Each write of a file is all or nothing. Any read, write, listing or removal may fail where the source
  allows, at any time, but only at what is given to be at fault (`Storage.Faults`, and the files named
  flaky); so nothing else may fail. A reader of an index to whom a head, a tail or a hunk is refused sees
  the archive without it.
- A text is a sequence of Unicode characters; `Utf8.ByteOrder` and `Utf8.LengthInBytes` relate it to bytes.
- Backups read a source whose paths arrive in increasing order, which `TreeBackups.WalkArrivesInOrder`
  provides for every tree.
- That a file of the same kind, time and size as in the previous tree has the same content is assumed
  only where a band is compared with its source (`Jobs.EveryTreeReadsBack`,
  `Differences.BackupDiffersFromSource`); the program assumes it instead of reading the file.
- Block files hold what their names say (no empty or corrupt blocks) when a backup starts.
  `BlockDirs.StoreReadsBack` and `BlockDirs.BlockDir.StoreOrDeduplicate` show what happens otherwise.
- One backup process and one deleting process are at work at a time, each with caches of its own.

## What fails, and when exactly

- A combined block that cannot be stored leaves its files queued with positions in a buffer that is gone.
  Reading back and safety hold as long as this does not happen (`Jobs.EveryBackupReadsBack`,
  `Refinement.NoInterleavingDangles`); when it happens, other bytes can be read
  (`Combining.FailedStoreMisplaces`), and if the group ends there its hunk points outside its block
  (`Refinement.FailedStoreDangles`, `Refinement.FailedStoreBreaksBackup`).
- A small file is read once (src/backup.rs:491-498). If that read comes back short, the file is cut off
  there without an error: it is kept whole if and only if the read delivered all of it
  (`BackupWriting.KeptWholeExactly`).
- A drained combiner is not always empty, as is asserted (src/backup.rs:432, src/backup.rs:448): the padding
  of a failed read stays if no file was queued (`Combining.FlushEmptiesExactly`).
- A deletion that cannot list or read a hunk of a band to be kept passes over it (src/index.rs:404-415,
  src/index.rs:344-356). This is harmless if and only if every block the hunk refers to is also named by
  a hunk that was read: `GarbageCollection.Collect`, `Protocol.MissHarmlessExactly`.
- A deletion's last check between a backup's lock test and the creation of its band is harmless if and
  only if the deletion found nothing to sweep (`Protocol.RaceHarmlessExactly`); data can be lost from every
  quiet, complete archive whose bands open and that holds an unreferenced block
  (`Protocol.RaceIsReachable`).
- Deleting an older band changes the tree of an interrupted band that is kept, if that one went on in
  it: `GarbageCollection.OlderDeleted`.
- A file that looks unchanged is taken over without being read if its blocks are there. It can then be read if
  and only if its addresses lie inside those blocks: `Backup.TakenOverReadsExactly`.
- An interrupted band goes on as its basis unless the band before it has a tail but no head:
  `Backup.OpenBandOnTop`, `Backup.HeadlessTailBreaksStitching`.
- A file or link is restored only if the directory it belongs in is there by then
  (src/restore.rs:114-127): if and only if that is the destination, or some directory selected before it is that
  one or below it (`Restores.SucceedsExactly`). So a file below some directory, asked for by itself, is never
  restored (`Restores.FileAloneFails`).
- The format document describes the order as comparing directory parts byte by byte
  (doc/format.md:80-84). The code compares one component at a time:
  `Apaths.DocumentedOrderAgrees` says for which paths that is the same.
- The same document says a subtree is contiguous starting with its top directory (doc/format.md:91-92).
  That is so for the root only: `Apaths.OnlyRootStartsItsSubtree`.
- `is_prefix_of` uses a byte length as a character index (src/apath.rs:75-85). It is right exactly for
  single-byte paths: `Apaths.PrefixTestExact`.
- Searching the hunks for a directory's contents finds nothing when they begin a hunk
  (src/hunk_index.rs:105-141): `HunkIndex.SubdirSearchExact`, `HunkIndex.GapHidesContents`.
- Without recursion, as a mounted archive uses it (src/mount/projfs.rs:311), the same search panics when it
  cuts a path inside a character (src/hunk_index.rs:129): `HunkIndex.SearchPanicsExactly`. Listing the root
  does so for a next hunk that starts with a name like "é": `HunkIndex.RootSearchPanics`.

## Model

| member | source | states |
|---|---|---|
| Apaths.Cmp | src/apath.rs:204-240 | the loop over two advancing component iterators computes the recursive comparison |
| Apaths.Total | src/apath.rs:204-240 | for any two strings exactly one of before, equal, after holds; comparing equal is being the same string; swapping the arguments flips the result |
| Apaths.Transitive | src/apath.rs:204-240 | the order is transitive |
| Apaths.OrderIsFirstDifference | src/apath.rs:204-240 | a path is before another if and only if, at the first component where they part, it ends there and the other goes on, or both end or both go on and its name comes first as text: at the first character where the names differ it has the smaller one or has ended |
| Utf8.ByteOrder | src/apath.rs:204-240 | comparing names character by character is comparing their bytes, as the program does |
| Apaths.DescendantsContiguous | doc/format.md:86-92 | whatever lies between two strict descendants of a directory is a strict descendant too |
| Apaths.ChildrenFirst | doc/format.md:86-92 | a directory's direct children come before everything deeper in it |
| Apaths.DirectoryApartFromContents | doc/format.md:86-92 | between every directory but the root and anything strictly below it there is a well-formed path that is neither the directory nor below it |
| Apaths.OnlyRootStartsItsSubtree | doc/format.md:86-92 | a directory and its contents together are contiguous if and only if the directory is the root |
| Apaths.DocumentedOrderAgrees | doc/format.md:80-84 | for all well-formed paths the documented comparison, directory text first and then name, gives the implemented order if and only if the directory texts do not first differ in a slash against a character below the slash |
| Apaths.DocumentedOrderDiffers | doc/format.md:80-84 | two well-formed paths that the documented comparison and the code order differently |
| Apaths.AppendNames | src/apath.rs:62-71 | appending a name to a well-formed path gives a well-formed path with that one component more |
| Apaths.ValidMeans | src/apath.rs:44-60 | a text is a well-formed path if and only if it is a slash, or starts with one and every stretch between slashes is not empty, not "." or ".." and without a null character |
| Apaths.CheckPath | src/apath.rs:48-60 | the loop over the parts decides well-formedness |
| Apaths.NamesInjective | src/apath.rs:48-61 | a well-formed path is determined by its components |
| Apaths.PrefixTestSingleByte | src/apath.rs:73-85 | for a path of single-byte characters the prefix test is true exactly of itself and its descendants |
| Apaths.PrefixTestMultiByte | src/apath.rs:73-85 | every path with a multi-byte character has a child that the prefix test misses |
| Apaths.PrefixTestExact | src/apath.rs:73-85 | the prefix test is right about all paths if and only if its own path is single-byte |
| Utf8.LengthInBytes | src/apath.rs:75-85 | the length that the prefix test measures is that of the bytes |
| Entries.MetadataKept | src/index.rs:152-176 | an index entry keeps path, kind, time, mode, owner and link target of its source, whatever its addresses; the time is split into whole seconds and the nanoseconds after them |
| Sorting.IncreasingUnique | src/live_tree.rs:282-295 | two increasing arrangements of the same items are the same sequence, so any correct sort gives the modelled result |
| LiveTree.ContentsOrdered | src/live_tree.rs:184-297 | the contents of a directory, listed children first and then each subdirectory, are strictly increasing and strictly below it |
| LiveTree.WalkCorrect | src/live_tree.rs:154-325 | the walk is strictly increasing and holds exactly the start and the entries reached from it directory by directory |
| LiveTree.WalkHolds | src/live_tree.rs:197-280 | said of paths alone: a path is in the walk if and only if it is the start, or is below it, something of a supported kind is there, no path on the way down to it or itself is excluded or a tagged directory, and every directory it goes through is readable; its kind, size, target, time, mode and owner are those of what is there |
| LiveTree.ScanListing | src/live_tree.rs:197-280 | one pass over a listing keeps exactly the children that `LiveTree.WalkHolds` needs kept, and notes their subdirectories |
| LiveTree.ReadDirectory | src/live_tree.rs:184-297 | a readable directory gives its kept children and its subdirectories, both sorted; any other gives nothing |
| LiveTree.VisitQueues | src/live_tree.rs:282-295 | putting the sorted subdirectories in front of the pending ones queues exactly the directory's contents before everything already pending |
| LiveTree.OpenTree | src/live_tree.rs:157-178 | a walk starts with everything from its start to yield, or is refused exactly when there is nothing at the start or something of an unsupported kind |
| LiveTree.Iter.VisitNextDirectory | src/live_tree.rs:184-297 | visiting a directory replaces it by its contents at the front of what is to come |
| LiveTree.Iter.FillEntries | src/live_tree.rs:302-322 | directories are visited until an entry is queued or nothing is left, and nothing is lost on the way |
| LiveTree.Iter.Next | src/live_tree.rs:302-322 | each step yields the next entry of the walk, the order check never fails, and the end comes only after everything |
| Index.ListedAvailable | src/index.rs:344-356 | reading the listed hunk numbers in order yields all readable entries in hunk order |
| Index.CountUpTo | src/index.rs:428-432 | binary search splits ordered entries into those up to a path and those after it |
| Index.AfterIsSuffix | src/index.rs:416-432 | in ordered entries, those after a path are exactly the ones from that split on |
| Index.IndexHunkIter.constructor | src/index.rs:369-377 | a new hunk iterator has exactly the entries after its starting path to yield |
| Index.IndexHunkIter.Cut | src/index.rs:415-433 | a hunk is cut to exactly its entries after the starting path, and once a hunk lies wholly after it later hunks need no cutting |
| Index.IndexHunkIter.Next | src/index.rs:401-439 | each hunk yielded is exactly a front part of what is left, at any starting path, and at the end nothing is left |
| Stitch.PreviousExistingBand | src/stitch.rs:173-188 | walking band numbers backwards finds the nearest lower band whose head exists, or that there is none |
| Stitch.StitchedInOrder | src/stitch.rs:112-170 | a stitched tree is strictly increasing and lies after its starting path, over any chain of incomplete, unreadable or missing bands |
| Stitch.StitchedMeaning | src/stitch.rs:68-77 | an entry is in the stitched tree if and only if some band of the chain records it and every newer band in the chain stopped before reaching its path |
| Stitch.RecordedMeans | src/stitch.rs:136-150 | what a band records is what is in its readable hunks, if its head can be used |
| Stitch.ChainMeans | src/stitch.rs:154-168 | each band of the chain is followed by the nearest lower band with a head, exactly if it has no tail and there is such a band |
| Stitch.StitchedSkips | src/stitch.rs:126-135 | starting a stitched read after a path equals reading everything and dropping what comes up to that path |
| Stitch.ClosedBandIsItsIndex | src/stitch.rs:68-77 | a complete band that opens is exactly its own index |
| Stitch.InterruptedBand | src/stitch.rs:68-77 | an open band reads as its own entries and then the previous band's stitched tree after the last of them |
| Stitch.StitchedDependsOnOlder | src/stitch.rs:112-170 | only the band itself and lower-numbered bands matter |
| Stitch.IterStitchedIndexHunks.constructor | src/stitch.rs:78-89 | a new iterator has the whole stitched tree of its band to yield |
| Stitch.IterStitchedIndexHunks.Empty | src/stitch.rs:91-98 | the empty iterator has nothing to yield |
| Stitch.IterStitchedIndexHunks.EnterBand | src/stitch.rs:130-153 | opening a band, or passing one that will not open, changes nothing about what is left |
| Stitch.IterStitchedIndexHunks.ReadHunk | src/stitch.rs:115-129 | a hunk read is a front part of what is left; the end of a band leaves the rest as it was |
| Stitch.IterStitchedIndexHunks.LeaveBand | src/stitch.rs:154-168 | going back to the previous band, or stopping at a complete one, leaves exactly what the stitched tree still owes |
| Stitch.IterStitchedIndexHunks.Next | src/stitch.rs:112-170 | every hunk is exactly a front part of what is left, the iteration ends, and then nothing is left |
| EntryIter.AdvanceMeaning | src/index.rs:500-530 | in ordered entries, dropping what comes before a path leaves either the entry for that path first, or no entry for it |
| EntryIter.AnswersAreLookups | src/index.rs:500-530 | for any increasing series of queries every answer of a forward-moving index is a lookup in all of it |
| BasisLookups.EveryLookupIsWhole | src/backup.rs:240-251 | at every file of every backup with sources in path order, the forward-moving basis answers with the entry that the whole basis has for that path |
| BasisLookups.TakenOverExactly | src/backup.rs:247-285 | at every file of a backup with sources in path order: it is taken over and counted as unmodified if and only if the whole basis records a file at its path with the same time to the nanosecond and the same length, whose blocks are all there and answered for; then its entry has the new metadata with the recorded addresses and no block is stored; it is new if and only if nothing is recorded at its path, modified otherwise, and damaged too if only the blocks are the reason |
| Repeats.UnchangedCostsNothing | src/backup.rs:247-265 | after any backups, complete or stopped: backing up a source with exactly the entries of the last tree, each file as long as recorded, stores no block and counts every file as unmodified and none as an error, and the new band reads back as the same tree, bytes included |
| EntryIter.SelectAll | src/index.rs:477-496 | selecting from the root with no exclusion keeps every entry with a well-formed path |
| EntryIter.SelectedMeans | src/index.rs:483-488 | an entry is selected if and only if its path passes the prefix test and is not excluded; for a single-byte subtree, if it is the subtree or below it |
| EntryIter.SelectedPositions | src/index.rs:478-496 | what is selected stands at exactly those positions of the index, each once and in order |
| EntryIter.IndexEntryIter.Refill | src/index.rs:532-545 | reading another hunk into the empty buffer changes nothing about what is left |
| EntryIter.IndexEntryIter.Next | src/index.rs:474-496 | each step yields the next entry selected, which `EntryIter.SelectedMeans` says is one that passes the prefix test and is not excluded |
| EntryIter.IndexEntryIter.AdvanceTo | src/index.rs:505-530 | the answer is the entry recorded for the path, if any, and exactly the entries after the path are left |
| EntryIter.ReadTree | src/stored_tree.rs:63-73 | iterating a stored tree yields, in order, exactly the entries of its stitched tree that pass the prefix test and are not excluded |
| Decimal.PaddedParses | src/index.rs:345-356 | a zero-padded number reads back as itself, if and only if it fits in 32 bits |
| Decimal.PaddedWidth | src/index.rs:269-278 | a padded number has exactly its width if and only if it fits, and otherwise more digits |
| Decimal.PlusParses | src/bandid.rs:68-76 | a number with a plus sign in front reads as the same number |
| Decimal.OnlyDigitsParse | src/bandid.rs:68-76 | nothing but digits after an optional sign is read as a number, and none above 32 bits |
| Decimal.BandNameParses | src/bandid.rs:64-103 | a band's directory name reads back as its id; it is four digits after the letter, or more from 10000 on |
| IndexWriting.IndexWriter.constructor | src/index.rs:203-212 | a new writer has written nothing |
| IndexWriting.HunkPlaced | src/index.rs:269-278 | ten thousand hunks go to a subdirectory named by five digits or more; a hunk's own name has nine or more; both read back |
| IndexWriting.IndexWriter.MakeSubdir | src/index.rs:253-255 | the subdirectory of the next hunk is there, made if this hunk is the first in it, unless making it fails |
| IndexWriting.IndexWriter.WriteHunk | src/index.rs:251-259 | the file of the next hunk is new, and creating it makes the hunk read back; if that fails nothing changes |
| IndexWriting.IndexWriter.FinishHunk | src/index.rs:238-267 | the queue, sorted, becomes the next hunk and is emptied, and the order checks hold; exactly if creating that hunk fails, the entries stay queued, sorted, and could not pass the order check again |
| IndexWriting.StoredReadsBack | src/index.rs:345-356 | hunks are listed as 0 to n-1 with none missing, and each number reads back its own entries |
| IndexWriting.GroupsInOrder | src/index.rs:220-267 | for groups arriving in increasing order the hunks together are strictly increasing and hold every entry once |
| IndexWriting.WrittenIndexIsSorted | src/index.rs:404-450 | however entries are grouped, the hunks hold all of them sorted; read after a path, exactly the later ones |
| IndexWriting.WriteGroups | src/index.rs:226-267 | writing groups that arrive in path order makes one sorted hunk of each group that is not empty, numbered in order, up to the first hunk whose creation fails |
| IndexWriting.ReadHunks | src/index.rs:344-356 | listing the directory and reading in the order of the numbers gives back exactly the hunks written |
| IndexWriting.ReadFrom | src/index.rs:401-450 | reading an index hunk by hunk from after any path yields exactly its later entries |
| IndexWriting.WriteAndReadBack | src/index.rs:226-450 | writing groups through the writer, listing and reading the files and starting after any path yields exactly the later entries, sorted, of all groups or of those before the first hunk whose creation fails |
| BlockDirs.StoreReadsBack | src/blockdir.rs:114-150 | storing gives the data back if and only if its file was absent or already right |
| BlockDirs.ReadBlockMeans | src/blockdir.rs:219-254 | a block is read if and only if its file holds what its name says, and each error says what is wrong first: no file, nothing that can be decoded, or other content |
| BlockDirs.ReadRangeMeans | src/blockdir.rs:199-213 | an address is read if and only if its block is and is long enough, and gives those bytes; if it is too short the error says how long it is and what was asked for |
| BlockDirs.BlockDir.IsPresent | src/blockdir.rs:170-191 | presence, answered from caches or files, is that of the files, an empty file counting as absent; only a question that goes to the files, about a block at fault, can fail |
| BlockDirs.BlockDir.StoreOrDeduplicate | src/blockdir.rs:114-167 | the store behaves like a plain map; it can fail only for a block at fault and then changes nothing; the caches stay honest if and only if there was no empty file of that name |
| BlockDirs.BlockDir.GetBlockContent | src/blockdir.rs:215-254 | a block read through the caches is the checked file, or its error, or a transport failure if it is at fault and not cached |
| BlockDirs.BlockDir.ReadAddress | src/blockdir.rs:199-213 | an address reads its range of the block, fails when the range passes the end, and may fail in transport if the block is at fault and not cached |
| BlockDirs.BlockDir.DeleteBlock | src/blockdir.rs:256-262 | the caches forget the block whether or not its removal succeeds, which it does unless there is no file or the block is at fault |
| BlockDirs.BlockDir.Evict | src/blockdir.rs:66-75 | forgetting any entries at all keeps the caches honest |
| Content.ReadWithRetries | src/io.rs:38-52 | however reads are cut short, the result is the next len bytes, or all that are left |
| Content.ChunkSizes | src/backup.rs:338-366 | every chunk but the last is exactly the block size, and none is empty |
| Content.StoreFileContent | src/backup.rs:338-383 | the loop ends with the content's chunks stored and counted and their addresses in order; it fails only if the file or one of its chunks is at fault, and then the chunks before the failure are stored and counted |
| Content.RestoreFile | src/restore.rs:198-226 | the restored bytes are the addressed ranges, one after another, or the first error, or a failure if the output or one of the blocks is at fault; what is written by then is the ranges before the failure |
| Content.ChunksReadBack | src/restore.rs:208-226 | storing a content's chunks and reading their addresses gives the content back |
| Combining.FlushKeeps | src/backup.rs:440-466 | a stored combined block gives every queued file an address that reads back its bytes, and empties the queue |
| Combining.FlushEmptiesExactly | src/backup.rs:430-454 | a flush leaves the buffer empty, as asserted, if and only if a file was queued or it was empty before; the padding of a failed read with nothing queued stays |
| Combining.FlushDisjoint | src/backup.rs:455-465 | files in one combined block have disjoint ranges of it, in order |
| Combining.PushFlushesExactly | src/backup.rs:509-520 | a file with content makes the buffer be stored, whole, if and only if it then holds at least a block; otherwise it waits in the queue at its place |
| Combining.CombinedBlockSize | src/backup.rs:514-520 | a combined block is as long as a block or longer by less than one small file, and the buffer stays shorter than a block as long as reads succeed |
| Combining.PushKeeps | src/backup.rs:472-520 | pushing a file, read fully, partly or not at all, keeps every queued and finished file right and loses none |
| Combining.DrainsReturnGroups | src/backup.rs:428-520 | for every series of pushes and drains each drain returns exactly the files of its own group, and each reads back its bytes |
| Combining.FailedStoreMisplaces | src/backup.rs:446-466 | whatever was queued when storing the combined block fails, the next flush can give it an address with other bytes |
| Combining.FileCombiner.constructor | src/backup.rs:417-426 | a new combiner is empty |
| Combining.FileCombiner.FlushBuffer | src/backup.rs:446-466 | flushing does what its account on values says, stored or failed |
| Combining.FileCombiner.PushFile | src/backup.rs:472-520 | pushing follows its account for one read of the file, which delivers a front part of it |
| Combining.FileCombiner.Drain | src/backup.rs:430-438 | draining hands over the finished entries and counts and leaves none; a failed flush hands over nothing |
| Backup.CopyTracks | src/backup.rs:205-323 | copying one entry, by taking over blocks, combining or chunking, read or not, adds exactly what it should, readable, and harms no other, unless a combined block cannot be stored or the basis entry it could be taken over from lies outside its blocks |
| Backup.TakenOverReadsExactly | src/backup.rs:247-285 | a file taken over can be read, now and after any later stores, if and only if its basis entry lies inside the blocks it names |
| Backup.CopiedHolds | src/backup.rs:94-127 | after all groups the hunks hold in order exactly what was kept: the entries read, and those taken over with the content of their basis entries; and every block there was is still there; under the same two conditions |
| Backup.BackUpReadsBack | src/backup.rs:86-138 | from any well-formed archive, with any files failing to be read, a backup makes a band that reads back as exactly what was kept, and changes no other band or block, under the same two conditions |
| Backup.OpenBandOnTop | src/stitch.rs:68-77 | an open band goes on, after its own entries, as the basis it was made from, if and only if the band before it does not have a tail without a head, or nothing is left to go on with |
| Backup.InterruptedReadsBack | src/backup.rs:86-138 | a backup stopped after any number of groups reads as what was kept so far, then as the basis tree after that point, also over band directories without a head, under the same two conditions and unless the last band has a tail but no head |
| Backup.HeadlessTailBreaksStitching | src/stitch.rs:154-168 | a last band with a tail but no head hides the band before it from the basis but not from a new open band |
| Jobs.EveryBackupReadsBack | tests/proptest_changes.rs:53-131 | for every sequence of backups, complete or stopped after any group, with any files failing to be read, every band in the end reads back as exactly what its backup kept, followed if it was stopped by the tree before it, as long as every combined block could be stored |
| Jobs.ErrorFreeKeepsTree | src/backup.rs:86-138 | a complete backup without errors keeps exactly the source tree, bytes included, if equal kind, time and size since the tree before mean equal content |
| Jobs.EveryTreeReadsBack | tests/proptest_changes.rs:53-131 | for every sequence of trees backed up without errors, every band in the end reads back as exactly its own tree |
| TreeBackups.WalkArrivesInOrder | src/backup.rs:98-101 | the sources that a walk of any tree yields arrive in path order, however they are grouped |
| TreeBackups.TreeHeldExactly | src/backup.rs:86-138 | a band that holds the tree of a walk holds the root and exactly what was found below it, of known kind |
| TreeBackups.EveryWalkReadsBack | tests/proptest_changes.rs:53-131 | for every sequence of trees walked and backed up without errors, every band in the end holds exactly its tree, bytes included |
| Restores.Disk.CreateFolder | src/restore.rs:143-152 | a directory is made with all that is missing above it, unless something else is in the way or a location on the way is at fault; files and links stay as they are |
| Restores.PutFile | src/restore.rs:197-258 | a file is created only in a directory that is there; without errors it has the content, time, mode and owner of its entry; if nothing is at fault it succeeds if and only if that directory is there, its own place is free or a file, and its content can be read; nothing else changes but times of directories |
| Restores.PutLink | src/restore.rs:260-290 | the same for a link, which needs a target and a free place, and gets owner and time |
| Restores.PutFolder | src/restore.rs:94-113 | a directory entry makes its directory, and fails only if a file is in the way or something is at fault |
| Restores.ApplyDeferrals | src/restore.rs:166-195 | once everything is in place each directory gets its owner, mode and time, unless it is at fault; nothing else changes |
| Restores.RestoreEntries | src/restore.rs:89-141 | every entry not reported as failed is on disk with all it says, directories included though their times changed on the way; nothing is made that is not on the way to an entry; there are no errors if and only if nothing failed; and if nothing is at fault, what fails and what is where is exactly as `Restores.SucceedsExactly` and `Restores.LaidMeans` say |
| Restores.RestoreTree | src/restore.rs:60-141 | a directory that is not empty is refused and left alone; otherwise the same for the entries of the stored tree that are in the subtree and not excluded |
| Restores.SucceedsExactly | src/restore.rs:89-141 | of a tree with nothing below a file or link, every directory can be restored; a file or link if and only if it is directly in the destination or some directory before it is the one it is in or lies below that, and its content can be read or its target is there |
| Restores.LaidMeans | src/restore.rs:89-141 | and what is then there is the destination, the directories on the way to directories of the tree, and apart from those only entries |
| Restores.FileAloneFails | src/restore.rs:36-37 | a file or link below some directory, given as the subtree to restore, is selected alone and never restored |
| RoundTrips.AboveInTree | src/live_tree.rs:184-297 | every directory on the way to something in a walked tree is itself in it |
| RoundTrips.StoredCanBeRestored | src/restore.rs:60-141 | the stored tree of every band made from walked trees is in order and has every directory on the way to its entries, nothing below a file or link, and no entry of unknown kind |
| RoundTrips.BackupThenRestore | src/restore.rs:60-141 | for every sequence of trees walked and backed up without errors and every band: if nothing is at fault, restoring it to an empty directory fails nowhere, makes something exactly where the tree has something of known kind, and gives each its kind, content or target, time and mode, and its owner if that was kept |
| BackupWriting.AreBlocksPresent | src/backup.rs:326-336 | all blocks are taken to be present if and only if every question is answered and every block is there; a question can go unanswered only about a block at fault |
| BackupWriting.BackupWriter.constructor | src/backup.rs:177-184 | a new writer starts from the basis with nothing queued or counted |
| BackupWriting.BackupWriter.FindInBasis | src/backup.rs:249-251 | the basis iterator answers with the entry for the path and is left with exactly the entries after it |
| BackupWriting.BackupWriter.Count | src/backup.rs:247-285 | a file is counted once as new, modified or unmodified, and as damaged if its blocks are missing |
| BackupWriting.BackupWriter.TakeOver | src/backup.rs:247-285 | a file is taken over if and only if the basis iterator still has an entry for a file at its path with the same time and length, whose blocks are all there and answered for; it is counted accordingly and queued with its own metadata and those addresses |
| BackupWriting.BackupWriter.StoreLarge | src/backup.rs:296-305 | a large file is stored in chunks and queued, or fails with the chunks before the failure stored and counted |
| BackupWriting.BackupWriter.StoreContent | src/backup.rs:286-307 | the content of an empty, small or large file is stored as its account on values says |
| BackupWriting.BackupWriter.CopyFileIn | src/backup.rs:240-308 | one file is taken over or stored as its account says; an error is counted and the file skipped |
| BackupWriting.BackupWriter.CopyOne | src/backup.rs:205-323 | one entry of any kind changes queue, blocks, basis and counters as its account says |
| BackupWriting.BackupWriter.FinishGroup | src/backup.rs:192-198 | the combined block is written before the hunk that refers to it; if it fails no hunk is written and nothing changes but the lost buffer |
| BackupWriting.BackupWriter.CopyGroup | src/backup.rs:101-124 | a group is copied entry by entry, without owners unless they are wanted |
| BackupWriting.CopyTree | src/backup.rs:101-127 | the groups are copied one after another, stopping at the first whose combined block cannot be stored, with the whole state in either case |
| BackupWriting.CopyGroupsExtends | src/backup.rs:94-127 | whatever goes wrong, a run only adds blocks, each holding what its name says |
| BackupWriting.KeptWholeExactly | src/backup.rs:484-507 | a file that is read is kept whole if and only if it is large or its one read delivered all of it; a short read is no error |
| BackupWriting.ErrorFreeRunReadsBack | src/backup.rs:86-138 | a run that reports no errors, given paths in order and a basis whose addresses lie inside their blocks, leaves a band that reads back as exactly the entries given, each with its file's content if that is large, with a front part of it if small, or with the content of its basis entry |
| BackupWriting.BeginBackup | src/backup.rs:158-184 | the basis iterator is opened on the last band before the new one is created, still yields that tree afterwards, and the new band comes next after all others |
| BackupWriting.RunBackup | src/backup.rs:86-198 | an archive is refused if and only if it is locked, and is then unchanged; if no file or block is at fault the run succeeds without errors; the archive afterwards is exactly the plain account of a backup of what was read of the files given, or an open band with the groups before the failure; blocks are only added; and a run without errors reads back as `BackupWriting.ErrorFreeRunReadsBack` says |
| Accounting.FilesAccountedFor | src/backup.rs:240-308 | over any run, errors included, files are unmodified, modified or new; and those to be stored are counted once each if and only if no combined block failed |
| Accounting.ErrorsAccountedFor | src/backup.rs:101-124 | over any run the errors reported are exactly the files left out and the combined blocks that failed to be stored |
| Accounting.NothingLeftOut | src/backup.rs:101-124 | a run without failures keeps exactly the entries of known kind it was given, in order |
| Accounting.CopyConserves | src/backup.rs:367-383 | for one entry, bytes handed to the store, buffered or lost are the bytes that came in |
| Accounting.BytesAccountedFor | src/blockdir.rs:120-150 | over any run, bytes stored, deduplicated, left in the buffer and lost to failed stores are the bytes that came in |
| Counting.KindsAccountedFor | src/backup.rs:205-239 | over any run, whatever fails, the files, directories, symlinks and things of unknown kind counted are exactly those given |
| Counting.WrittenAccountedFor | src/blockdir.rs:120-150 | over any run, whatever fails, the blocks counted as written are as many as the archive gained, and their bytes are the bytes those blocks hold |
| Counting.BlocksAccountedFor | src/backup.rs:338-383 | over any run, blocks written and blocks found already stored are together the combined blocks and as many as the large files fill |
| Counting.LargeFileCounted | src/backup.rs:367-383 | a large file counts as empty, in one block or in several by how many bytes were read of it |
| Counting.SmallFileCounted | src/backup.rs:484-507 | a small file counts as combined if something was read, as empty if nothing was, and as neither if reading failed |
| BackupStatistics.PlusLaws | src/backup.rs:536-575 | counts of parts of a backup add up in any order |
| GarbageCollection.FindLastBand | src/archive.rs:172-177 | the highest band number in the listing is found, or that there is no band |
| GarbageCollection.NewLock | src/gc_lock.rs:57-72 | a lock is taken if and only if the last band is complete and no lock is held, and the error says which |
| GarbageCollection.BreakLock | src/gc_lock.rs:78-83 | a held lock is removed first, so only an incomplete last band prevents locking |
| GarbageCollection.GarbageCollectionLock.Check | src/gc_lock.rs:92-99 | the check passes if and only if the last band is still the one seen when locking |
| GarbageCollection.GarbageCollectionLock.Drop | src/gc_lock.rs:102-110 | the lock is removed, or it is at fault, its removal fails and it stays |
| GarbageCollection.CollectBand | src/archive.rs:196-205 | a band's references are exactly those of its hunks that could be listed and read, which all can that are not at fault |
| GarbageCollection.ReferencedBlocks | src/archive.rs:190-209 | the blocks collected are exactly those that the hunks read of the kept bands refer to, if and only if every kept band opens; only hunks at fault are not read |
| GarbageCollection.RemoveBands | src/archive.rs:276-280 | the bands asked for are removed; this stops only at one that is missing, or named twice, or at fault; no other band changes and references only become fewer |
| GarbageCollection.RemoveBlocks | src/archive.rs:282-298 | at no point is a block gone that is not in the given set; errors are exactly those of the set still present, each at fault |
| GarbageCollection.KeptTreesRead | src/archive.rs:223-302 | if no block that a band refers to was lost, every tree whose bands were all kept, complete or stitched, reads back as before |
| GarbageCollection.OlderDeleted | src/stitch.rs:154-168 | an interrupted band whose only older band is deleted is left with its own entries, and so changes if and only if the older one had any to add |
| GarbageCollection.Collect | src/archive.rs:239-298 | no remaining band loses a block and every tree whose bands were all kept reads back as before, at whatever point the run stops, as long as every listed block that a kept hunk refers to is named by some hunk that was read; a run without deletion errors loses one exactly when that fails. It stops if and only if a kept band does not open, or at a band missing or at fault; otherwise exactly the bands asked for are gone, and of the blocks listed and unreferenced all but those at fault, and the counts say so |
| GarbageCollection.Measure | src/archive.rs:239-272 | a dry run counts exactly the listed blocks that no hunk read refers to, or reports that a kept band does not open, exactly then |
| GarbageCollection.DeleteBands | src/archive.rs:223-302 | it is refused for an incomplete last band if and only if the last band is, and for a held lock if and only if it is held and not to be broken; a refusal or a dry run changes neither bands nor blocks; otherwise the same as `GarbageCollection.Collect`, or `GarbageCollection.Measure` for a dry run; the lock is released in the end unless it is at fault |
| ProtocolSteps.LockSteps | src/gc_lock.rs:57-83 | in the protocol the lock can be taken if and only if it is free and the last band is complete, and a stale one can be broken first |
| ProtocolSteps.LockSeen | src/gc_lock.rs:102-110 | a backup goes on if and only if there is no lock, and changes nothing about it; a deletion that ends leaves no lock, and one that crashes leaves its own, which keeps backups away until it is broken |
| ProtocolSteps.ListSomeIsSkipping | src/index.rs:344-356 | a listing with hunks missing has the effect of a whole one with those hunks not read |
| ProtocolSteps.PartRemovedIsARun | src/archive.rs:276-280 | whatever part of a band a failed removal leaves, some steps of the protocol leave |
| ProtocolSteps.QueuedIsWritten | src/backup.rs:192-198 | whatever storage accesses a backup makes, when it closes its band that holds exactly the entries it queued, each as often |
| Deletions.DeletionIsARun | src/archive.rs:223-302 | from an unlocked archive with a complete last band whose kept bands open, whatever hunks are missed, whatever blocks are listed and whichever removals fail, some run of the protocol removes exactly the bands asked for and, of the blocks listed and not referred to by a hunk read, all but those, and releases the lock |
| Deletions.DeletedIsARun | src/archive.rs:223-302 | so what `GarbageCollection.DeleteBands` leaves when it succeeds is what a run of the protocol leaves |
| Protocol.BackupStepKeeps | src/backup.rs:158-198 | every allowed step of a backup keeps the invariant, whatever a deletion is doing |
| Protocol.GcStepKeeps | src/archive.rs:227-302 | every allowed step of a deletion, failed reads and listings included, keeps the invariant, whatever a backup is doing |
| Protocol.RunKeeps | src/gc_lock.rs:14-32 | the invariant holds after every run of interleaved allowed steps and crashes |
| Protocol.NothingDangles | src/gc_lock.rs:14-32 | after every run of the protocol no hunk refers to a missing or short block, and no destroying step is possible while a backup runs, unless the check falls into one gap, a hunk that alone refers to some block is passed over, or an entry outside its block is queued |
| Protocol.RunningIsOpen | src/gc_lock.rs:57-64 | while a backup is writing, the last band is incomplete, so a new deletion stops |
| Protocol.RunningIsLast | src/gc_lock.rs:92-99 | while a backup is writing, its band is last and newer than the one seen by a deletion, so the check fails |
| Protocol.MissHarmlessExactly | src/index.rs:404-415 | after a failed read or listing while marking, with no backup at work and every band still to be marked able to open, every run stays safe if and only if each block that a kept hunk refers to is seen in, or still to be read from, some hunk |
| Protocol.MissLosesData | src/index.rs:344-356 | in every such state where that fails some run goes on to delete a block that a kept hunk refers to |
| Protocol.MissIsReachable | src/archive.rs:250-298 | such a loss can be reached from every quiet, unlocked archive that is complete, opens, and holds a block that only one hunk refers to |
| Protocol.RaceLosesData | src/backup.rs:163-174 | wherever the check has passed between a backup's lock test and its band creation with a block to sweep, some continuation with nothing ruled out ends with a dangling reference |
| Protocol.RaceHarmlessExactly | src/gc_lock.rs:92-99 | after a check in that gap, by a deletion of bands that exist, every run stays safe if and only if nothing was left to sweep |
| Protocol.RaceDeletesExactly | src/archive.rs:274-280 | and with nothing to sweep, something is deleted while the backup is at work if and only if bands were to be deleted |
| Protocol.RaceIsReachable | src/backup.rs:163-174 | and such a loss can be reached from every quiet, unlocked archive that is complete, opens, and holds a block no band refers to |
| Protocol.MisplacedDangles | src/backup.rs:446-466 | wherever a backup is writing, an entry outside the present blocks can be queued and end up in a hunk if nothing rules it out |
| Interleaving.AllowedApart | src/backup.rs:86-198 | what is allowed of an interleaving is what is allowed of the collector and of the backup's own steps, each by itself |
| Interleaving.InterleavingKeeps | src/gc_lock.rs:14-32 | if a backup's own steps are a front part of steps that queue only entries inside blocks stored or found, the invariant is kept however a collector's steps and crashes fall among them |
| Interleaving.Undisturbed | src/gc_lock.rs:14-32 | while a backup is at work, bands, blocks and the backup itself are as if the collector were not there |
| Refinement.EntryTakes | src/backup.rs:205-323 | copying one entry, in whatever way and whatever fails, is a legal run of its listed storage accesses ending in the writer's next state |
| Refinement.BackupIsARun | src/backup.rs:86-198 | the storage accesses of any backup, complete or stopped, whatever fails, are legal from an archive that is not locked, and end in exactly the archive the backup makes |
| Refinement.EntryBehaves | src/backup.rs:205-323 | copying one entry queues only entries inside blocks stored or found, unless a combined block fails to be stored |
| Refinement.BackupQueuesOk | src/backup.rs:86-198 | so does a whole backup in which no combined block fails to be stored |
| Refinement.NoInterleavingDangles | src/gc_lock.rs:14-32 | however the steps of a collector and crashes fall among the steps of any backups, one after another, with any files failing to be read, nothing dangles and nothing is destroyed while a backup is at work, unless a combined block fails to be stored, the collector checks in the gap, or it passes over a hunk that alone refers to some block |
| Refinement.AsIfAlone | src/backup.rs:86-198 | and while the backup is at work it finds bands and blocks as if it were alone |
| Refinement.FailedStoreDangles | src/backup.rs:446-466 | if storing a combined block fails at some file and the group ends there, the next hunk holds an address outside the block it names |
| Refinement.FailedStoreBreaksBackup | src/backup.rs:446-466 | a whole backup, by itself, in which some group ends with a combined block that fails to be stored leaves a band that dangles, however it goes on |
| Validation.AddEntry | src/validate.rs:97-103 | noting an entry's addresses keeps, for each hash, the furthest position referred to |
| Validation.ValidateStoredTree | src/validate.rs:82-107 | walking a stitched tree gives, for each hash its files refer to, exactly the furthest position |
| Validation.MergeBlockLens | src/validate.rs:74-80 | merging keeps every hash of either side with the larger position |
| Validation.ValidateBands | src/validate.rs:34-72 | the furthest positions are those over all bands that open, and exactly the others are reported |
| Validation.ValidateBlocks | src/blockdir.rs:309-341 | the lengths are those of exactly the blocks that could be fetched, decoded and have the right hash, and every other present block is reported with its error; only a block at fault cannot be fetched |
| Validation.ValidateArchive | src/archive.rs:303-353 | a problem about blocks is reported if and only if it is there among the blocks that could be fetched; none is reported if and only if every address of every file in every readable band can be read from those |
| Validation.CleanOfAll | src/archive.rs:303-353 | a clean result among the blocks that could be fetched holds of all blocks |
| Validation.ValidateQuickly | src/archive.rs:321-333 | without reading blocks, a block is reported missing if and only if some file refers to it and it has no file |
| Validation.CleanMeansRestorable | src/archive.rs:303-353 | every needed address can be read if and only if every file of every readable tree restores |
| Validation.BackupsValidate | src/archive.rs:303-353 | an archive made by any backups, complete or stopped, with any files failing to be read, validates, as long as every combined block could be stored |
| Differences.MergeMeaning | src/merge.rs:58-119 | merging two increasing trees yields every path of the union once, in order, labelled by exactly the trees it is in |
| Differences.MergeTrees.constructor | src/merge.rs:79-86 | a new merge has the whole merge to yield |
| Differences.MergeTrees.Next | src/merge.rs:98-119 | each step yields the next pair of the merge, looking one entry ahead on each side |
| Differences.DiffMeaning | src/diff.rs:43-61 | an addition, deletion, change or lack of change is reported if and only if it is there: something is unchanged if both trees have it with the same kind, mode, user and group and, for a file, length and time to the nanosecond or, for a link, target |
| Differences.DiffInOrder | src/diff.rs:43-61 | what is reported is in path order, at most one change for a path |
| Differences.DiffTrees | src/diff.rs:43-61 | filtering, merging and reporting step by step gives exactly these changes |
| Differences.DiffEmptyIffAgree | src/change.rs:32-48 | nothing is reported if and only if the trees have the same paths of known kind and agree at each on kind, user, group, mode, a file's length and time and a link's target |
| Differences.BackupDiffersFromSource | src/diff.rs:43-61 | comparing any tree with its own backup reports nothing if and only if owners were kept and each file gave as many bytes as its size said |
| HunkIndex.FromIndexOrdered | src/hunk_index.rs:37-69 | the ranges of an ordered index's hunks are increasing and disjoint |
| HunkIndex.CompareRange | src/hunk_index.rs:72-78 | the three-way comparison says whether the range is before the path, after it, or holds it |
| HunkIndex.FindHunkIndexForFile | src/hunk_index.rs:71-85 | binary search finds the one range that holds the path, or that there is none |
| HunkIndex.FindHunkForFile | src/hunk_index.rs:94-97 | the number of that hunk is returned |
| HunkIndex.FindsEveryFile | src/hunk_index.rs:87-97 | every path in the index is looked up in the hunk that holds it |
| HunkIndex.FindHunksForSubdir | src/hunk_index.rs:99-141 | the covering hunk and those after it up to the first that does not continue; or a panic, where the byte at which a start is cut is inside a character or past the end |
| Utf8.CutAtByte | src/hunk_index.rs:129 | cutting a text at a byte gives its rest if and only if some front part of it takes that many bytes |
| HunkIndex.SearchPanicsExactly | src/hunk_index.rs:123-133 | the search panics if and only if it is not recursive and comes to a hunk whose start passes the prefix test and goes on, after the directory's text, with nothing or with a character of several bytes |
| HunkIndex.SearchNeverPanics | src/hunk_index.rs:123-133 | so a recursive search, or one for a single-byte path other than the root, never panics |
| HunkIndex.RootSearchPanics | src/hunk_index.rs:129-132 | listing the root panics whenever it is alone in a hunk and the next starts with a name whose first character takes several bytes |
| HunkIndex.SubdirSearchExact | src/hunk_index.rs:99-141 | for every directory, every hunk holding its contents (or its direct children) is found if and only if the search does not panic, and its key falls inside some hunk's range after which every hunk that starts with contents passes the prefix test, or there is nothing to find |
| HunkIndex.SingleBytePasses | src/hunk_index.rs:123-127 | for a single-byte directory path every such hunk passes |
| HunkIndex.LaterHunksHoldContents | src/hunk_index.rs:123-138 | a hunk found after the first, by a search that does not panic, holds contents if and only if it starts below the directory, as it always does for a single-byte path |
| HunkIndex.GapHidesContents | src/hunk_index.rs:105-141 | when a directory's contents begin a hunk nothing is found, although that hunk holds them |

## Left out

- BackupWriting.BackupWriter: keeps its queue and its hunks as values; the object that does this in the program is `IndexWriting.IndexWriter`, proved on its own by `IndexWriting.WriteAndReadBack`.
- BackupWriting.RunBackup: the hunks appear in the archive when the method ends, not one by one; the order of single writes is in `Refinement.BackupIsARun`.
- BackupWriting.ErrorFreeRunReadsBack: not over a basis with an address outside its block, such as a failed combined store can leave behind; `Backup.TakenOverReadsExactly` says what becomes of such an entry.
- Jobs.EveryBackupReadsBack: not for runs in which storing a combined block fails; see `Refinement.FailedStoreDangles`.
- Protocol.NothingDangles: does not cover two backups or two deletions at once, nor the three kinds of step that are ruled out.
- Refinement.NoInterleavingDangles: the same; and the basis is read before the first entry is copied, while the program reads it on the way, which makes no difference since older bands do not change while a backup is at work (`Refinement.AsIfAlone`).
- Validation.ValidateStoredTree: takes each band's own index to be in path order, as `IndexWriting.WriteAndReadBack` shows it is written; where an older band's index is not, the program's binary search may start anywhere in it.
- Validation.ValidateBands: the same.
- Validation.ValidateArchive: the same.
- Validation.ValidateQuickly: the same.
- BlockDirs.BlockDir: the caches may forget anything at any time; least-recently-used order and cache sizes are not modelled.
- Differences.MergeTrees: for a stored and a live tree, the one use there is; the summary of metadata in a change is represented by the entries themselves.
- IndexWriting.IndexWriter.FinishHunk: takes the queued paths to be distinct and after everything written, which the program's callers provide and its debug build asserts.
- LiveTree.Iter: metadata and directory errors are part of the tree given; a tree that changes during the walk is not modelled.
- Transports, file formats, compression, hashing, JSON, time zones and mounting (`src/transport`, `src/compress`, `src/mount`): library calls or foreign interfaces, represented by the values they carry.
- Exclusion patterns: any predicate on paths stands for them.
- Band versions and format flags: a band opens or does not.
- Restores.RestoreTree: not into a directory that is not empty, and not for a tree with something below one of its own links, as a stitched tree can have, since the restored link would be followed; the band to restore is given.
- Restores.Disk: setting an owner leaves the mode alone; users and groups are names.
- Progress, messages, compressed sizes, elapsed times and the command line: they report what the modelled parts compute and change nothing stored.
- Parallel iteration: results are collected into sets, so its order does not matter here.
