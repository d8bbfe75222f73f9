# forkfs daemon: a verified model

This project models the revision engine of forkfs, the code under `daemon/`, and proves what
it keeps true. It follows the program's own layers:

- **The single-file journal and its anchors** (`JournalCodec`, `JournalReplay`, `JournalLog`,
  `JournalTx`, `JournalWriter`, `JournalStore`, `JournalCheckpoint`, `Journal`, `ContainerFile`,
  `ContainerRuns`, `JournalExact`, `RestoreExact`). Records, segments, prepare and commit payloads, checkpoints and anchors are
  modelled byte for byte. The file is a byte string; a crash keeps any prefix of the append in
  flight. The main results are `ContainerRuns.RecoveryOverEveryRun` (nothing
  committed is lost) and `JournalExact.OnlyTransactions` (nothing else is ever recovered).
- **The metadata treap** (`Treap`, `MetadataTree`, `TreeScans`). A node's identity is its
  content, as its hash is. Editing, publishing, lookups, prefix scans, pages, the full walk and the
  directory cursor are modelled with their depth limits. The main result is
  `Treap.HistoryIndependent`.
- **The namespace** (`Paths`, `NamespaceCodec`, `DirectoryTree`, `Namespace`, `Walk`, `WalkLaws`, `Edits`,
  `Effects`, `Operations`, `Worlds`, `Verify`, `Handles`, `RangeLocks`). A World is its records by kind; an operation reads a
  view, fills a set of changes and lays them over the view. `Namespace.Verified` is what `verify`
  demands, and `Verify.Check` shows the walk accepts exactly that. The main results are
  `Worlds.OutcomeOk` (every operation keeps the whole invariant and every open file) and the
  contracts of `Handles.Container`.
- **Run lists and compaction** (`RunCodec`, `Runs`, `Compaction`, `CompactionRuns`). A run
  reference stands for the run's content. The main result is `CompactionRuns.EveryRun`.
- **The LevelDB store** (`LevelStore`, `Garbage`, `Retention`, `Revisions`, `RetentionRuns`,
  `RetentionProgress`, `RootCache`).
  LevelDB is an atomic map with batch writes. Tree nodes, manifests, revisions and bases are their
  stored bytes, and updates, snapshots and forks are the batches the daemon commits. The main results
  are `Garbage.CollectGarbage`, `RetentionRuns.EveryRun`, `RetentionRuns.CapturedForever` and
  `RootCache.HitsAreTrue`.
- **RPC sessions** (`Sessions`): leases, handle ownership and exclusive mounts.

SHA-256 and CRC32C are a parameter (`JournalCodec.Digest`), and every theorem holds for every
such pair. Where the format reserves the zero hash, `JournalStore.Sound` says that the hash never
produces it. Where the daemon goes by identities alone, the theorem names the payloads that the hash
must tell apart: those one run handles (`Revisions.TellsApart`), or those one manifest lists
(`Compaction.Tells`). Where it goes by a checksum alone, the theorem names what the checksum must
expose (`ContainerRuns.AllExposed`). Fresh identities, tokens, clocks and device failures are
parameters or free choices. Offsets inside the journal count from the end of the 64 KiB file header;
numbers on disk include it.

`dafny verify dfyconfig.toml` checks everything.

## Model

| member | source | states |
|---|---|---|
| `JournalCodec.ReadWhole` | daemon/journal.cpp:84-117 | a record lying whole inside its segment reads back as it was written, whatever follows it |
| `JournalCodec.ReadTorn` | daemon/journal.cpp:99-117 | a record cut at any byte before its end is an unfinished tail, never an error |
| `JournalCodec.ReadLocal` | daemon/journal.cpp:99-117 | reading a record depends only on the bytes up to its end |
| `JournalCodec.OnlyRecords` | daemon/journal.cpp:99-117 | only the exact bytes of a record, whole and inside its segment, are read as one |
| `JournalCodec.DamageFound` | daemon/journal.cpp:99-117 | a whole record that is not exactly the encoding of its header and payload is an error, never a record or a tail |
| `JournalCodec.ChecksumFound` | daemon/journal.cpp:99-117 | in particular one whose payload fails its checksum |
| `JournalLog.GapRun` | daemon/journal.cpp:144-250 | recovery crosses zero fill and a new segment header and lands on the first record after them |
| `JournalLog.GapTorn` | daemon/journal.cpp:144-250 | a gap cut short changes nothing recovery has learned |
| `JournalLog.AppendRun` | daemon/journal.cpp:252-300 | a whole append takes recovery from the state before it to the state after it, whatever follows in the file |
| `JournalLog.AppendTorn` | daemon/journal.cpp:252-300 | an append that lost its tail at any byte is invisible to recovery |
| `JournalTx.TxFold` | daemon/journal.cpp:144-250 | of a transaction's records only the commit publishes, and it publishes exactly the batch |
| `JournalWriter.GatherMeaning` | daemon/journal.cpp:301-377 | the gathered changes are exactly the effects the mutations ask for, each key once |
| `JournalWriter.GatherAccepts` | daemon/journal.cpp:301-329 | a batch is accepted exactly when each key occurs once and is 1 to 1024 bytes long, no mutation both puts and refers, every reference is indexed and reads back, every value fits, the distinct values total at most 1 MiB, and every deletion names a root |
| `JournalWriter.GatherHolds` | daemon/journal.cpp:301-329 | the values gathered are those the mutations put, once each, with their total |
| `JournalWriter.BatchPrepareDecodes` | daemon/journal.cpp:301-377 | the prepare payload a batch writes decodes to the changes it encoded |
| `JournalWriter.PutPrepareDecodes` | daemon/journal.cpp:252-300 | the one-root prepare payload decodes to that one change |
| `JournalWriter.TransactOk` | daemon/journal.cpp:301-377 | whatever the writer's checks let through, recovery will accept back |
| `JournalStore.DecodedPossible` | daemon/journal.cpp:144-250 | a prepare record only ever decodes to changes the state before it allows |
| `JournalStore.FullReplay` | daemon/journal.cpp:144-250 | replaying a good file from the start reports exactly the committed state |
| `JournalStore.ReadBack` | daemon/journal.cpp:484-494 | every indexed object reads back with the identity it is filed under |
| `JournalStore.TornGood` | daemon/journal.cpp:252-300 | after a torn append the file is still good, in the old state |
| `JournalStore.CommitGood` | daemon/journal.cpp:301-377 | a completed commit leaves a good file whose state is the committed one |
| `JournalStore.PutReads` | daemon/journal.cpp:252-300 | what a put stored is what a later read of that object returns |
| `JournalCheckpoint.PayloadDecodes` | daemon/journal.cpp:401-482 | a checkpoint payload decodes to the state it indexed |
| `JournalCheckpoint.PublishedRestores` | daemon/journal.cpp:401-442 | a published checkpoint restores exactly the state it captured |
| `JournalCheckpoint.RecoverAnchored` | daemon/journal.cpp:144-250 | starting from any published checkpoint gives the state a full replay gives |
| `JournalCheckpoint.CheckpointGood` | daemon/journal.cpp:443-482 | appending a checkpoint changes no logical state, and what it writes is published |
| `JournalCheckpoint.CheckpointTornGood` | daemon/journal.cpp:443-482 | a torn checkpoint record leaves a good file in the old state |
| `Journal.Replay` | daemon/journal.cpp:144-250 | the replay loop ends where the phase machine does, on every file and from every cursor |
| `Journal.RecoverFile` | daemon/journal.cpp:144-250 | opening any file, with or without an anchored checkpoint, recovers what the specification recovers or fails where it fails |
| `Journal.GatherMutations` | daemon/journal.cpp:301-377 | the validation loop accumulates the batch its specification folds |
| `Journal.BuildPrepare` | daemon/journal.cpp:301-377 | the loop over sorted keys builds the payload that decodes to the changes |
| `Journal.BuildPayload` | daemon/journal.cpp:443-482 | the loops over sorted objects and roots build the payload that restores the state |
| `Journal.Journal.constructor` | daemon/journal.cpp:144-250 | opening a good file, from its start or from any checkpoint published in it, finds its committed state |
| `Journal.Journal.AppendRecords` | daemon/journal.cpp:252-300 | an old tail is cut, and however the device fails the file is a prefix of the intended append |
| `Journal.Journal.Put` | daemon/journal.cpp:252-300 | refused exactly when not enabled; done means one new root, readable back; failed means poisoned over the old state or the new one |
| `Journal.Journal.Transact` | daemon/journal.cpp:301-377 | refused exactly when the expected sequence is not the current one or the batch is not acceptable or has no room; done means every mutation took effect on its own key and no other key changed; failed means poisoned over the old state or the new one |
| `Journal.Journal.TakeCheckpoint` | daemon/journal.cpp:443-482 | only the committed end moves, and the checkpoint returned is published |
| `ContainerFile.ReadAnchor` | daemon/container.cpp:86-108 | an encoded anchor is valid and supported, with its own generation and identity |
| `ContainerFile.ReadReference` | daemon/container.cpp:155-201 | the checkpoint reference read from an anchor is the one written |
| `ContainerFile.CurrentChosen` | daemon/container.cpp:155-201 | with one good anchor and any stale, torn or equal other, opening goes by the current one |
| `ContainerFile.OpenGood` | daemon/container.cpp:155-201 | opening a good container never fails and reports its committed state |
| `ContainerRuns.AnchorWritten` | daemon/container.cpp:223-248 | a complete new anchor in the other slot becomes the one opening goes by |
| `ContainerRuns.TornAnchorKept` | daemon/container.cpp:223-248 | a torn anchor that is invalid, or equal to the bytes it was to replace, changes nothing |
| `ContainerRuns.NextKeeps` | daemon/journal.cpp:252-377 | every event, finished or cut off, keeps the system invariant, if an anchor it tears fails its checksum |
| `ContainerRuns.CreatedInv` | daemon/container.cpp:116-154 | a new container satisfies it |
| `ContainerRuns.RecoveryOverEveryRun` | daemon/container.cpp:155-248 | over every run of puts, batches, checkpoints, crashes and restarts in which torn anchors fail their checksum, opening never fails and yields the roots, index, sequence and chain of the last commit that survived whole |
| `ContainerRuns.PutCommits` | daemon/journal.cpp:252-300 | a put that is accepted and written far enough is committed: the sequence moves on by one and exactly that root is set |
| `ContainerRuns.BatchCommits` | daemon/journal.cpp:301-377 | so is a batch: every mutation takes effect and no other root changes |
| `JournalExact.PrepareExact` | daemon/journal.cpp:197-231 | a prepare record decodes only as the one payload that says its changes, each possible before it, with no object the changes do not name |
| `JournalExact.DataExact` | daemon/journal.cpp:188-196 | an accepted data record is the record of one new value under its own identity |
| `JournalExact.CommitExact` | daemon/journal.cpp:232-247 | an accepted commit record is the seal of the batch before it, and of no other |
| `JournalExact.RunTold` | daemon/journal.cpp:144-250 | from any cursor, everything replay reads over is headers, fill, agreeing hints and whole sealed transactions |
| `JournalExact.OnlyTransactions` | daemon/journal.cpp:144-250 | recovery of any file whatever reports the empty state with the whole transactions in the file applied in turn, and nothing else |
| `RestoreExact.PayloadExact` | daemon/journal.cpp:401-442 | a checkpoint payload decodes only as the one index of the state it gives, with every object before it and every root on an indexed object |
| `RestoreExact.RestoreOnly` | daemon/journal.cpp:401-442 | a reference restores only if it names the whole checkpoint record of the state it gives, inside its segment and under its hash |
| `RestoreExact.ReadOnlyOwn` | daemon/journal.cpp:484-494 | an object reads back only from its own whole data record, of a transaction so far |
| `RestoreExact.AnchorExact` | daemon/container.cpp:86-108 | a checksum-valid anchor this version supports is the one encoding of its fields |
| `RestoreExact.OpensNewest` | daemon/container.cpp:155-201 | a container opens exactly when every valid anchor is supported, two valid ones agree on the repository and on their generation's bytes, and the newest refers to a state that recovers; it then opens as that state |
| `Treap.MergeTreap` | daemon/metadata_tree.cpp:49-68 | merging ordered treaps keeps search and heap order and every key |
| `Treap.MergeMap` | daemon/metadata_tree.cpp:49-68 | and means the union of the two maps |
| `Treap.SetTreap` | daemon/metadata_tree.cpp:69-99 | an edit keeps both orders, and only its key can appear or vanish |
| `Treap.SetMap` | daemon/metadata_tree.cpp:69-99 | an edit is a map update |
| `Treap.Canonical` | daemon/metadata_tree.cpp:29-31 | two treaps with the same entries are the same tree, even where priorities tie |
| `Treap.HistoryIndependent` | daemon/metadata_tree.cpp:29-99 | any two edit histories, from any starting trees, that reach the same map give the same root |
| `MetadataTree.Editor.MergeTrees` | daemon/metadata_tree.cpp:49-68 | the iterative merge builds the specified tree, with every new node pending |
| `MetadataTree.Editor.SetKey` | daemon/metadata_tree.cpp:69-99 | the search, edit and rotate-up loops build the specified tree, with every new node pending |
| `MetadataTree.Editor.CheckHeight` | daemon/metadata_tree.cpp:40-48 | the memoised check succeeds exactly when the tree fits below the given depth, with the real height |
| `MetadataTree.Editor.Collect` | daemon/metadata_tree.cpp:164-169 | the plan lists every pending node of the tree, each once, children first |
| `MetadataTree.Editor.Candidate` | daemon/metadata_tree.cpp:160-161 | the edited tree means the old map with all changes applied |
| `MetadataTree.Editor.Apply` | daemon/metadata_tree.cpp:147-170 | a plan is complete: store plus plan hold the whole published tree, which means the changed map and fits the depth limit, and no node is listed twice; without one nothing moves |
| `MetadataTree.Editor.Lookup` | daemon/metadata_tree.cpp:100-107 | a lookup is the map's answer, and can run out of depth only on a deeper tree |
| `TreeScans.MatchingIs` | daemon/metadata_tree.cpp:108-122 | the in-order scan is the sorted listing of the wanted keys |
| `TreeScans.ScanKeys` | daemon/metadata_tree.cpp:114-121 | the pruned walk loses nothing |
| `TreeScans.KeysUnder` | daemon/metadata_tree.cpp:108-122 | a prefix scan returns exactly the sorted keys with that prefix |
| `TreeScans.ScanPage` | daemon/metadata_tree.cpp:128-134 | the bounded walk stops with the first keys of the listing |
| `TreeScans.Page` | daemon/metadata_tree.cpp:123-135 | a page is the first `limit` sorted keys with the prefix after the continuation key; ill-formed requests are refused |
| `TreeScans.BoundedIffOrdered` | daemon/metadata_tree.cpp:136-146 | the walk's local checks hold exactly on trees in search and heap order |
| `TreeScans.Entries` | daemon/metadata_tree.cpp:136-146 | the full walk accepts exactly the ordered trees within the depth limit, never trips over its visited set on one, and returns the map |
| `TreeScans.Continuation` | daemon/namespace.cpp:389-400 | continuing after the last key read picks up exactly what is left |
| `TreeScans.Cursor.Read` | daemon/namespace.cpp:389-400 | limits outside 1..1024 are refused without effect; otherwise a page is the next stretch of the pinned listing, and eof is reported exactly at its end |
| `TreeScans.Cursor.Rewind` | daemon/namespace.cpp:401-404 | reading starts over on the same pinned tree |
| `TreeScans.ReadAll` | daemon/namespace.cpp:378-400 | pages of any sizes read to eof list the pinned directory once each, in order |
| `Paths.SplitJoin` | daemon/namespace.cpp:93-107 | splitting at slashes loses nothing and leaves none |
| `Paths.JoinSplit` | daemon/namespace.cpp:93-107 | and is the only such splitting |
| `Paths.ParsePath` | daemon/namespace.cpp:93-107 | the path loop accepts exactly the absolute paths whose every name is valid, as those names |
| `Paths.ParseTarget` | daemon/namespace.cpp:108-119 | the target loop drops empty names, refuses long ones, and keeps a final slash's demand for a directory |
| `NamespaceCodec.KeysDistinct` | daemon/namespace.cpp:48-52 | different records never share a key |
| `NamespaceCodec.DirectoryListing` | daemon/namespace.cpp:51-52 | listing a directory's prefix finds exactly its own entries |
| `NamespaceCodec.InodeRoundTrip` | daemon/namespace.cpp:61-75 | an encoded inode reads back as itself exactly when its state is legal, for linked inodes and orphans |
| `NamespaceCodec.InodeReadBack` | daemon/namespace.cpp:61-75 | what reads as an inode is that inode's one encoding, in a legal state |
| `NamespaceCodec.RecordsStorable` | daemon/namespace.cpp:61-75 | every inode of a verified tree reads back as linked, and a file whose last name goes reads back as an orphan |
| `DirectoryTree.ChainUnique` | daemon/namespace.cpp:508-533 | a directory has one chain from the root |
| `DirectoryTree.TreeGrown` | daemon/namespace.cpp:296-304 | a new name for a file, or the first name of a new directory, keeps one parent each and everything reachable |
| `DirectoryTree.TreePruned` | daemon/namespace.cpp:478-488 | so does dropping a file's name or an empty directory |
| `DirectoryTree.TreeMoved` | daemon/namespace.cpp:489-507 | so does moving a file, or a directory outside its new parent's chain |
| `DirectoryTree.MoveBelowSelf` | daemon/namespace.cpp:494-495 | moving a directory below itself always cuts it off |
| `Namespace.LinksGrown` | daemon/namespace.cpp:296-304 | what one new entry does to every expected link count |
| `Namespace.LinksPruned` | daemon/namespace.cpp:478-488 | what one lost entry does to them |
| `Namespace.LinksMoved` | daemon/namespace.cpp:489-507 | what one moved entry does to them |
| `Namespace.InitialVerified` | daemon/namespace.cpp:287-295 | a new root directory is a verified World |
| `Namespace.CreateVerified` | daemon/namespace.cpp:296-318 | creating a directory, file or symlink keeps the invariant |
| `Namespace.LinkVerified` | daemon/namespace.cpp:461-468 | a second name for a file keeps it |
| `Namespace.UnlinkVerified` | daemon/namespace.cpp:469-488 | removing a name, with the record when it was the last, keeps it |
| `Namespace.MoveVerified` | daemon/namespace.cpp:489-507 | moving onto a free name keeps it if and only if the child is a file or not on the new parent's chain |
| `Namespace.StoreVerified` | daemon/namespace.cpp:338-346 | new content or mode keeps it |
| `Walk.Walk` | daemon/namespace.cpp:120-141 | the stack and queue loop terminates and computes the resolution rule, limits included |
| `Walk.WalkPhysical` | daemon/namespace.cpp:120-141 | wherever a walk ends, its stack is the chain of real directories it came down, through any symlinks and dots |
| `Walk.WalkPlain` | daemon/namespace.cpp:120-141 | without symlinks a walk is the descent through the entries |
| `WalkLaws.WalkOn` | daemon/namespace.cpp:120-141 | walking a path is walking its front and then the rest from where that ended |
| `WalkLaws.ThroughLink` | daemon/namespace.cpp:120-141 | a path through a symlink is the path with its target written out, from the root if the target begins with a slash, else from the symlink's directory; it costs one follow and the target's bytes, and fails exactly when one of them runs out |
| `WalkLaws.LinkEnds` | daemon/namespace.cpp:120-141 | unless a limit stops it, a path through a symlink ends where the written-out path does |
| `WalkLaws.LinkItself` | daemon/namespace.cpp:120-141 | a path that does not follow its last name ends at the symlink itself |
| `WalkLaws.DownAndUp` | daemon/namespace.cpp:120-141 | into a directory and up again is staying; `RootUp` adds that above the root is the root |
| `WalkLaws.DotStays` | daemon/namespace.cpp:120-141 | a dot stays |
| `WalkLaws.FreeName` | daemon/namespace.cpp:120-141 | a free last name is missing there if it may be created, else the walk fails |
| `WalkLaws.FileEnds` | daemon/namespace.cpp:120-141 | nothing lies below what is not a directory |
| `WalkLaws.LocatedEntry` | daemon/namespace.cpp:142-149 | looking up a path finds what is at the entry its parent lookup names, if that is not a symlink to follow |
| `WalkLaws.LocatedKept` | daemon/namespace.cpp:120-141 | a path leads where it did as long as everything it led through is kept |
| `WalkLaws.LocatedFilled` | daemon/namespace.cpp:120-141 | a free place that is filled is what the path leads to |
| `WalkLaws.LocatedGone` | daemon/namespace.cpp:120-141 | a path whose entry is taken away leads nowhere |
| `WalkLaws.LocatedFinal` | daemon/namespace.cpp:120-141 | a lookup that need not follow its last name ends where the following one does unless it ends on a symlink |
| `Walk.Parent` | daemon/namespace.cpp:142-146 | the parent lookup names the entry its specification does |
| `Walk.Locate` | daemon/namespace.cpp:147-149 | the path lookup ends where its specification does |
| `Walk.ParentChain` | daemon/namespace.cpp:142-146 | a parent is a live directory, the name can be stored, and the ancestry is that directory's own chain |
| `Walk.LocatedLive` | daemon/namespace.cpp:147-149 | what a lookup finds is a live inode; a free place it reports can take an entry |
| `Operations.Initialize` | daemon/namespace.cpp:287-295 | succeeds exactly on an empty namespace, leaving one root directory and nothing else |
| `Operations.Mkdir` | daemon/namespace.cpp:296-304 | succeeds exactly on a free name with a legal mode and room in the link count; the path then leads to a new directory, its parent counts it, and nothing else changes |
| `Operations.MakeSymlink` | daemon/namespace.cpp:447-455 | succeeds exactly for a legal target on a free name; the name is then that symlink, and nothing else changes |
| `Operations.Write` | daemon/namespace.cpp:305-318 | afterwards the path leads to a regular file with these bytes: the one it led to, otherwise as it was, or a new one with mode 0644 where it led to a free place; nothing else changes, and all else is refused |
| `Operations.EditContent` | daemon/namespace.cpp:338-346 | the file a path leads to holds the edited bytes, byte by byte, and nothing else changes |
| `Operations.EditMeaning` | daemon/namespace.cpp:347-366 | byte by byte: an edit puts its bytes where it says, keeps the rest, and fills gaps with zeros |
| `Operations.EditAllowed` | daemon/namespace.cpp:347-366 | an edit is allowed exactly when the file stays within its limit; writing nothing is allowed at every legal offset |
| `Operations.MakeLink` | daemon/namespace.cpp:461-468 | adds a name to a file or symlink exactly when the name is free; both names then have that inode, with one more link, and nothing else changes |
| `Operations.LoseName` | daemon/namespace.cpp:469-477 | the record goes with its last name, and an open file becomes an orphan with its content |
| `Operations.Remove` | daemon/namespace.cpp:478-488 | succeeds exactly on a name of the right sort, empty if a directory; the path then leads nowhere, the inode lost that one name, and nothing else changes |
| `Operations.Replace` | daemon/namespace.cpp:319-333 | the name has a new file with these bytes, with the mode of the regular file it had and 0644 otherwise; what it had lost that name, and nothing else changes |
| `Operations.Rename` | daemon/namespace.cpp:489-507 | the target's place has what the source's had, the source's is free, and what the target had lost that name; parents count what moved and nothing else changes; refused exactly in the listed cases, and a no-op onto itself |
| `Effects.RenamedShifts` | daemon/namespace.cpp:489-507 | an entry moved, what was in its place lost that name, and the two parents count accordingly |
| `Worlds.Plan` | daemon/namespace.cpp:152-184 | each operation's change set laid over the World is the operation's outcome, and has that operation's effect on paths, entries and bytes |
| `Worlds.RemovedOk` | daemon/namespace.cpp:469-488 | taking a name away keeps the tree verified and every open file readable, linked or orphaned |
| `Worlds.RenamedOk` | daemon/namespace.cpp:489-507 | so does every rename, over an existing target or not |
| `Worlds.ReplacedOk` | daemon/namespace.cpp:319-333 | so does every replacement |
| `Worlds.FinalFile` | daemon/namespace.cpp:120-141 | a lookup that follows the last name never ends on a symlink |
| `Worlds.OutcomeOk` | daemon/namespace.cpp:287-507 | every operation keeps the whole invariant, and only rewriting ones can change what an open handle reads |
| `Verify.Expand` | daemon/namespace.cpp:513-525 | the recursive visit either meets everything below a directory once, with its counts right, or the World is not verified |
| `Verify.Check` | daemon/namespace.cpp:508-533 | the whole check accepts a World if and only if it is verified |
| `Handles.PlanOpen` | daemon/namespace.cpp:552-583 | an open's checks accept exactly the legal ones, and its change set creates, truncates or does nothing |
| `Handles.OpenAllowed` | daemon/namespace.cpp:552-583 | an open is allowed exactly when its options agree, an exclusive one is for a free name, one that may not follow a final symlink does not meet one, and the path leads to a regular file or, to create one, to a free place |
| `Handles.OpenedDone` | daemon/namespace.cpp:552-595 | the path leads to the opened file: the one it led to, emptied if asked, or a new empty one with the mode asked for; nothing else changes |
| `Handles.HandleMeaning` | daemon/namespace.cpp:691-725 | an edit through a handle is allowed exactly within the limits and changes exactly its bytes; an appending handle writes at the end whatever the offset |
| `Handles.OpenWorldOk` | daemon/namespace.cpp:552-595 | an open keeps the World's invariant with the opened inode pinned |
| `Handles.Container.Perform` | daemon/namespace.cpp:152-217 | any operation has its effect on the one World, keeps every World's invariant and touches no other World |
| `Handles.Container.Open` | daemon/namespace.cpp:552-595 | the handle is on the file the path leads to in the new World, readable and writable as asked, appending as asked; every other handle and World is as before; a failed commit rolls everything back |
| `Handles.Container.OpenRevision` | daemon/namespace.cpp:552-595 | revisions open read-only on the file the path leads to, without counts |
| `Handles.Container.Dup` | daemon/namespace.cpp:597-604 | a second handle on the same file is counted |
| `Handles.Container.Close` | daemon/namespace.cpp:659-670 | the last handle on an unlinked file releases its orphan; no other close changes a World |
| `Handles.Container.EditHandle` | daemon/namespace.cpp:691-725 | a writable handle changes exactly the bytes the edit says and the size, in the tree or in the orphan, and nothing else, exactly when the edit is within the limits; an appending one writes at the end |
| `Handles.Container.ReadHandle` | daemon/namespace.cpp:677-690 | a readable handle reads, byte by byte, from the offset on as many bytes of its file's current content as asked for and there are |
| `Handles.Container.Snapshot` | daemon/namespace.cpp:218-246 | a revision captures a World's tree and changes no World |
| `Handles.Container.Fork` | daemon/namespace.cpp:247-256 | a new World starts as a revision's tree with nothing open |
| `Handles.Container.Restart` | daemon/namespace.cpp:726-740 | a new process drops every handle and every orphan and keeps every tree |
| `Handles.OpenToRead` | daemon/namespace.cpp:552-725 | a file opened for reading gives the bytes of the file its path leads to, and every edit through that handle is refused |
| `RangeLocks.ClashIs` | daemon/namespace.cpp:612-616 | the interval test is exactly the pointwise conflict |
| `RangeLocks.Table.BlockedIs` | daemon/namespace.cpp:612-616 | a request is blocked exactly if another open of the same file locks a byte of the interval and one of the two locks is exclusive |
| `RangeLocks.Cut` | daemon/namespace.cpp:617-622 | what is left outside the interval means the old locks there and nothing inside |
| `RangeLocks.SortingSorts` | daemon/namespace.cpp:624 | the sort is in order and a permutation |
| `RangeLocks.Join` | daemon/namespace.cpp:625-629 | joining neighbours leaves no two that could be one, and the same meaning |
| `RangeLocks.NormalUnique` | daemon/namespace.cpp:623-629 | a sorted, disjoint, merged list is determined by which bytes it locks in which mode |
| `RangeLocks.Rebuild` | daemon/namespace.cpp:617-629 | the new list is sorted, apart and merged, and means the old one overridden on the interval |
| `RangeLocks.Table.Open` | daemon/namespace.cpp:552-595 | a new description starts with no locks |
| `RangeLocks.Table.Dup` | daemon/namespace.cpp:597-604 | a duplicate shares its original's locks |
| `RangeLocks.Table.Close` | daemon/namespace.cpp:659-670 | closing a handle keeps every other description's locks |
| `RangeLocks.Table.TryLock` | daemon/namespace.cpp:606-632 | granted exactly when the handle is known, the interval legal, no other open in conflict and the overridden locks fit in 128 ranges, and then every byte of the interval has the new mode and every other byte its old one; refused exactly when another open of the same file locks some byte of it and one of the two is exclusive; a full unlock always succeeds |
| `RunCodec.RunRoundTrip` | daemon/metadata_view.cpp:69-85 | an encoded run decodes to itself exactly when it holds no zero reference |
| `RunCodec.RunCanonical` | daemon/metadata_view.cpp:69-85 | bytes that decode are that run's one encoding |
| `RunCodec.EncodeRun` | daemon/metadata_view.cpp:124-135 | succeeds exactly on nonempty, prefixed, short enough runs, in key order |
| `RunCodec.ParseRun` | daemon/metadata_view.cpp:69-85 | the reading loop accepts exactly what its specification does |
| `RunCodec.ManifestRoundTrip` | daemon/metadata_view.cpp:43-63 | a manifest is accepted as the references it was written from exactly when they are few, nonzero and distinct |
| `RunCodec.ManifestReadBack` | daemon/metadata_view.cpp:43-63 | what reads as a manifest is the one encoding of its references |
| `Runs.LookupIsMap` | daemon/metadata_view.cpp:86-91 | reading newest first, tombstones included, is reading the merged map |
| `Runs.LookupLoop` | daemon/metadata_view.cpp:86-91 | the lookup loop answers as the merged map |
| `Runs.KeysLoop` | daemon/metadata_view.cpp:101-112 | the prefix scan lists exactly the merged map's keys with that prefix, sorted |
| `Runs.ReferencesLoop` | daemon/metadata_view.cpp:116-123 | the oldest-to-newest fold is the merged map |
| `Runs.PlannedMeans` | daemon/metadata_view.cpp:165-173 | committing a delta is applying it, even when its run was already in the list and moves to the front |
| `Runs.PlannedDistinct` | daemon/metadata_view.cpp:165-173 | the new list names each run once and grows by at most one |
| `Runs.Plan` | daemon/metadata_view.cpp:165-173 | everything the new list names was there or is in the plan |
| `Runs.Pack` | daemon/metadata_view.cpp:155-164 | greedy packing keeps every key in order, fits every run in 64 KiB and leaves all but the last nearly full |
| `Runs.PackedMeans` | daemon/metadata_view.cpp:155-164 | the packed runs mean the packed map |
| `Compaction.Compact` | daemon/metadata_view.cpp:181-196 | the output is listable, encodable and means the input; it cannot fail on a rooted map below the stated size |
| `Compaction.PackBound` | daemon/metadata_view.cpp:187-194 | many runs mean many bytes |
| `Compaction.PlannedImage` | daemon/metadata_view.cpp:165-173 | committing a delta to an image of a map gives an image of the changed map, as long as the list has room |
| `Compaction.ManifestAccepted` | daemon/metadata_view.cpp:43-63 | the loader accepts the manifest of every image of a map, and finds the root exactly when the map has one |
| `CompactionRuns.HeadMoved` | daemon/compaction.cpp:73-109 | moving one head to stored runs gives its World their meaning and no other a new one |
| `CompactionRuns.StageKeeps` | daemon/compaction.cpp:49-72 | staging stores runs and keeps every meaning; heads, flat roots, revisions, histories and every other compaction stay as they were |
| `CompactionRuns.InstallKeeps` | daemon/compaction.cpp:73-109 | an install, publishing or not, leaves every World's map and every revision as it was |
| `CompactionRuns.InstallPublishes` | daemon/compaction.cpp:73-109 | an install makes the output the head, in one commit and touching nothing else, exactly when the World is as frozen, the output is not the head already and what was staged is all there; otherwise it changes nothing |
| `CompactionRuns.StageStores` | daemon/compaction.cpp:49-72 | a staging batch of a current compaction stores exactly the next runs of its output, with a commit only if one is new; any other stores nothing |
| `CompactionRuns.LeftAlonePublishes` | daemon/compaction.cpp:26-109 | a compaction prepared, built, staged in whole or not at all, and left alone meanwhile ends with its output as the head |
| `CompactionRuns.CommitHappens` | daemon/namespace.cpp:185-217 | an accepted commit changes the World's map by its delta in one commit; a refused one changes nothing |
| `CompactionRuns.SnapshotHappens` | daemon/namespace.cpp:218-246 | a snapshot of a rooted World under a new name captures its map, and any other changes nothing |
| `CompactionRuns.ForkHappens` | daemon/namespace.cpp:247-256 | a fork of a revision to a new World gives it the revision's map, and any other changes nothing |
| `CompactionRuns.StepKeeps` | daemon/compaction.cpp:26-109 | every step of commits, snapshots, forks and compactions keeps every World's and revision's meaning |
| `CompactionRuns.OnlyOwnCommits` | daemon/namespace.cpp:185-256 | only a World's own commit changes its map |
| `CompactionRuns.RevisionsStay` | daemon/namespace.cpp:218-256 | no step changes what a revision means |
| `CompactionRuns.FenceStep` | daemon/compaction.cpp:43-48 | a flat compaction current after a step was current before it, over the same flat roots, and only its own staging can have moved the sequence |
| `CompactionRuns.FenceRun` | daemon/compaction.cpp:43-72 | over every run, a flat compaction still current was current all along, and every commit since was one of its own staging batches |
| `CompactionRuns.StaleForever` | daemon/compaction.cpp:43-109 | once stale, a flat compaction stays stale and neither stages nor installs anything |
| `CompactionRuns.EveryRun` | daemon/compaction.cpp:26-109 | over every interleaving a World is the fold of its own commits and a revision what it captured, all stored whole, and every compaction's input can be packed |
| `CompactionRuns.EveryManifestLoads` | daemon/metadata_view.cpp:43-63 | over every interleaving the manifest of every head and revision is one the loader accepts, with the root exactly where the history has one |
| `LevelStore.Gather` | daemon/level_store.cpp:180-200 | the batch loop accepts exactly well-formed mutations within the byte limit, and its running root count is exact |
| `LevelStore.Prepare` | daemon/level_store.cpp:180-207 | an accepted batch leaves hashes matching, no root dangling and exact counters |
| `LevelStore.Store.Transact` | daemon/level_store.cpp:180-210 | a batch commits as a whole against the expected sequence, or changes nothing; the store is poisoned exactly by an accepted batch whose write fails |
| `LevelStore.Sweep` | daemon/level_store.cpp:241-264 | a sweep happens exactly when everything it names is there, keeps exactly the marked objects and the roots not named, and leaves a consistent store exactly when no root is named twice and no remaining root loses its object |
| `LevelStore.Store.Collect` | daemon/level_store.cpp:241-264 | the same with the count of removed objects; a refused sweep changes nothing, and only a failed write poisons the store |
| `Garbage.MarkedIsLive` | daemon/container.cpp:280-316 | a finished marking is exactly the set reachable from the retaining roots |
| `Garbage.Trace` | daemon/container.cpp:302-317 | the worklist terminates, succeeds exactly when no traced record is broken, and returns the live set |
| `Garbage.Mark` | daemon/container.cpp:280-316 | marking terminates, succeeds exactly when no base or record reachable from a root is damaged, and then marks exactly the live objects |
| `Garbage.CollectGarbage` | daemon/container.cpp:280-323 | succeeds exactly on an idle, healthy, undamaged store; exactly the live objects stay, unchanged; exactly the registry names of dead ones go; counters stay exact; failure leaves everything in place |
| `Retention.RepresentsKept` | daemon/container.cpp:280-323 | a reachable tree is all there after a collection |
| `Retention.RepresentsHash` | daemon/metadata_tree.cpp:20-39 | in a store whose payloads match their hashes, a stored tree lies under its own identity, and so does each of its nodes |
| `Retention.RepresentsUnique` | daemon/metadata_tree.cpp:20-28 | the stored bytes decide the tree |
| `Retention.MeansKept` | daemon/container.cpp:280-323 | a reachable manifest means the same contents, payload by payload, after a collection |
| `Retention.LineageKept` | daemon/container.cpp:280-323 | so do a revision and all its ancestors |
| `Retention.ReadKey` | daemon/metadata_view.cpp:43-99 | reading a key by the stored bytes alone answers with the contents the manifest means, never out of depth and never on a bad node |
| `Revisions.PlanUpdate` | daemon/metadata_view.cpp:141-147 | the tree editor publishes a tree that means the changed map, with every node the old tree lacks in the plan, or refuses for a listed reason |
| `Revisions.RegistryInjective` | daemon/namespace.cpp:18-21 | two objects never share a registry name |
| `Revisions.OneKind` | daemon/namespace.cpp:17-35 | the names reserved for objects, Worlds, revisions, bases and namespace records exclude each other |
| `Revisions.CollectIs` | daemon/container.cpp:280-323 | the store's collection is the model's step |
| `RetentionRuns.PlanMeans` | daemon/namespace.cpp:192-214 | committing a tree editor's plan makes its manifest mean the edited contents, whether a node or payload was put or already registered |
| `RetentionRuns.UpdateMeans` | daemon/namespace.cpp:185-217 | an update makes its World mean the edited contents, from a tree or from flat roots |
| `RetentionRuns.SnapshotMeans` | daemon/namespace.cpp:218-246 | a snapshot captures the World's contents with its base's lineage as ancestors, and becomes the base |
| `RetentionRuns.ForkMeans` | daemon/namespace.cpp:247-256 | a fork starts as the revision's contents, with the revision and its ancestors as base |
| `RetentionRuns.CollectionStep` | daemon/container.cpp:280-323 | a collection keeps the meaning of every World, revision and base |
| `RetentionRuns.EventStep` | daemon/namespace.cpp:185-295 | every initialization, update, snapshot, fork, other commit and collection keeps the invariant |
| `RetentionRuns.NeverDamaged` | daemon/container.cpp:280-323 | in a state that satisfies the invariant nothing reachable is damaged, so no collection refuses for it |
| `RetentionRuns.KeptForever` | daemon/namespace.cpp:218-222 | what a revision name was recorded with is never recorded anew |
| `RetentionRuns.EveryRun` | daemon/namespace.cpp:185-295 | over every run from an empty store each World means what its own updates made of it, each revision what its World was when captured, ancestors included, and nothing reachable is damaged |
| `RetentionRuns.CapturedForever` | daemon/container.cpp:280-323 | a revision captured on the way still means what it captured at the end, through every later update, fork and collection |
| `RetentionProgress.ForkHappens` | daemon/namespace.cpp:247-256 | a fork happens exactly when both names are legal, the revision is there and the World is not; the new World then means the revision, with its lineage as base |
| `RetentionProgress.SnapshotHappens` | daemon/namespace.cpp:218-246 | a snapshot happens exactly when both names are legal, the World is there and the revision is not; a flat World must also fit its tree in a batch |
| `RetentionProgress.UpdateHappens` | daemon/namespace.cpp:185-217 | an update happens exactly when the World is there, its change of the tree can be planned and the batch is within the limits |
| `RetentionProgress.InitializeHappens` | daemon/namespace.cpp:287-295 | the main World is initialized exactly when it is not there yet, with a root and legal keys |
| `RetentionProgress.CollectionHappens` | daemon/container.cpp:280-323 | a collection happens whenever the sequence can advance |
| `RetentionProgress.PlanExists` | daemon/metadata_view.cpp:141-147 | where legal changes keep the root and the treap of the new map is within the depth limit, there is a plan |
| `RetentionProgress.UpdateLands` | daemon/namespace.cpp:185-217 | edits of open but unlinked files land in the same commit, and every new inode identity is marked as used |
| `RootCache.StepKeeps` | daemon/level_store.cpp:117-141 | readers at any step and a writer between write and bump keep the cache true of its epoch |
| `RootCache.HitsAreTrue` | daemon/level_store.cpp:117-141 | in every interleaving a hit outside an in-flight commit is the database's answer, absences included |
| `RootCache.LookupCaches` | daemon/level_store.cpp:117-141 | a lookup no commit crosses leaves the database's own answer cached, and changes no other reader |
| `Sessions.Service.Create` | daemon/rpc.cpp:76-82 | sessions start empty, within the lease and count limits |
| `Sessions.Service.Acquire` | daemon/rpc.cpp:83-86 | only a live session is found, and its lease renewed |
| `Sessions.Service.MountAcquire` | daemon/rpc.cpp:100-108 | a World is mounted exactly when no other session mounts or holds it; nothing but the asking session changes |
| `Sessions.Service.Open` | daemon/rpc.cpp:244-263 | a World is opened exactly when no other session has it mounted, within the handle limit; nothing but the asking session and the new handle changes |
| `Sessions.Service.Dup` | daemon/rpc.cpp:264-268 | a duplicate keeps mounts exclusive although it asks nothing; nothing but the asking session and the new handle changes |
| `Sessions.Service.CloseHandle` | daemon/rpc.cpp:316 | exactly its own live session closes a handle; nothing else changes |
| `Sessions.Service.Close` | daemon/rpc.cpp:87-94 | a closed session leaves none of its handles open; an interrupted close stays consistent |
| `Sessions.Service.Expire` | daemon/rpc.cpp:95-99 | exactly the closing and expired sessions go, with exactly their handles, as long as each close goes through; every other session stays as it is either way |

## Left out

- The old directory source, the command line, sockets, threads and signals: no part of the revision engine's logic.
- LevelDB's internals, its caches, metrics and fault injection: LevelDB is an atomic map here.
- Timestamps: inode times are modelled only in the inode record's bytes.
- `set_attributes` and `handle_set_attributes`: mode, size and time changes by path or handle in one call.
- `seek` and the sequential reads and writes on a position that duplicated handles share.
- `path_for_inode` and the mount requests built on it.
- The read-only old full-map manifest format, and the run list's cache.
- Reading the allocation records kept for old Worlds; `Revisions` only writes them.
- The inode decoder's own refusals inside operations: a World is uninitialized or verified whenever one runs, and its records then decode; `Verify.Check` covers those that do not.
- Operations.Remove: asks for an uninitialized or verified World, which every operation keeps; refusals of damaged records are not modelled.
- Operations.Replace: asks for an uninitialized or verified World, which every operation keeps; refusals of damaged records are not modelled.
- Operations.Rename: asks for an uninitialized or verified World, which every operation keeps; refusals of damaged records are not modelled.
- Worlds.Plan: asks for the same.
- Journal.Journal.constructor: asks for a good file, which every event keeps; `Journal.RecoverFile` and `ContainerFile.Open` are total and reject the others.
- Fresh identities are only asked to be unused in their own World; the source also avoids those of every other World.
- Records under the namespace prefix that are none of the known kinds: a World's records are typed.
- ContainerRuns.RecoveryOverEveryRun: asks that no anchor torn in the run is a mixture of old and new bytes that still passes its CRC, because no argument can exclude that for a 32-bit checksum.
- RetentionRuns.EveryRun: asks that the hash tells the payloads of the run apart; the daemon finds objects by their hash alone.
- The decoding of the root record when a revision is captured or forked: it could only refuse more, and `RetentionRuns` proves its results without it.
- RetentionRuns.EventStep: the order of mutations inside a batch is by key, where the daemon lists a snapshot's nodes in tree order; a batch's outcome does not depend on it.
- Compaction.ManifestAccepted: asks that distinct runs of the list have distinct hashes, which collision resistance gives and nothing else can.
- LevelStore.Store.Transact: after a failed write the store is poisoned; what LevelDB kept of the batch is not modelled.
- Handles.Container.Perform: a commit that fails leaves everything as it was and is not a case of its own; only an open has something to roll back.
