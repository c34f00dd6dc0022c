# What sapedb promises, proved

A Dafny model of the storage engine of sapedb and of the layers that must agree
with it, with proofs over every input, every run and every crash.

- **Pages.** `PageFile` is a file with durable and un-synced writes and what a
  crash may leave of them. `FreeLists` is the bookkeeping of free pages.
  `Pagers` is the pager: allocation, the two meta slots, commit, rollback,
  snapshots, and led files.
- **The tree.** `Nodes` counts bytes and cuts nodes, `Codecs` lays them out on a
  page, `Trees` says what makes a tree of pages well formed and what it denotes,
  `Sorted` says the same without any tree. `Ledgers`, `Rewrites` and `Surgery`
  are a small logic of who holds which page while a tree is rewritten: steps
  compose, and a step leaves what it does not mention alone. `Reads` is lookup
  and the two walks, `Prunings` what a delete does to a tree without its pages,
  `Separators` when a separator is the smallest key on its right, `Btrees` put and
  delete, `Runs` whole runs with crashes. `Groves` spells out a tree a delete fails
  on, one it leaves with a separator that is no key, and puts that come to a leaf
  that cannot be cut; `PageOne` a page a led file cannot read back.
- **Several files.** `Parts` is a leader and its partitions with one commit, and the
  trail of every instant all the files go through; `PartRuns` is whole runs of it.
- **Keys and identifiers.** `Words`, `Keys` and `Ulids`.
- **Derived data.** `Collections` is documents with their index entries, unique
  indexes and rollups; `Databases` is several collections and one log under one
  transaction.
- **Declared operations.** `Operations` is the walks over the reference graph
  (ceiling, lock, envelope, scopes), `Effects` what running one comes to by value and
  within their bounds, `Execution` the loops that come to exactly that, `Ceilings` a
  run that reaches every bound.
- **The log.** `Journals` is the change log, a follower and write ids, `Feeds`
  a subscription among concurrent writers.

A page number, a length or a counter is an unbounded natural number except where
its width is written out. A checksum is modelled as: a torn or foreign cell is
not read as a page.

## What does not hold, and exactly when it does

- A leaf split fails for one shape only: `Nodes.LeafSplits` is an equivalence,
  `Nodes.WedgeHappens` an input and `Groves.PutsComeToAWedge` three puts into a new
  file. The comment at internal/btree/node.go:80-83 says it cannot happen.
- Delete can fail to split: `Btrees.BTree.Delete` says exactly when, by what the
  delete does to the tree without its pages, and `Groves.DeleteCanOverflow` is a
  tree and a call.
- A separator need not be the smallest key on its right, as the comment at
  internal/btree/node.go:112 has it: Delete does not refresh it. A tree of which that
  is true keeps it through every put (`Btrees.BTree.Put`), and through a delete if and
  only if the key is no separator, or its leaf is not the first child of its branch
  and is left less than a quarter full (`Separators.TightAfter`, and of the calls
  themselves `Btrees.BTree.Delete`): pouring two leaves together renews the separator
  between them, pouring branches carries the stale one along.
  `Groves.DeleteLeavesStale` is a tree and a call. What always holds is
  left < separator <= right.
- Rollback is unsound for a held snapshot exactly when one of its pages is on the
  committed list: `Pagers.Pager.Rollback`, and a run in
  `Pagers.RollbackForgetsSnapshots`.
- Led files reserve one page, and two checks assume two. A leaf with a chain that
  starts at page 1 cannot be decoded (`Codecs.DecodeLeaf`), and a list that holds
  page 1 cannot be read back (`Pagers.Pager.ReadFreelist`, and through it
  `Pagers.Pager.Abandon`, `Parts.Store.Part` and `Parts.Store.Rollback`); each is
  an equivalence. `PageOne.ChainAtPageOne` and `Pagers.PageOneIsRefused` are runs of
  a fresh file that come to it.
- A led file written to between Flush and the leader's commit may overwrite pages
  the leader points at: when the flush retired a list page or a page freed since, the
  very next allocation hands one out, and when it did not, none does, whatever is
  allocated and given back meanwhile (`Pagers.Pager.Flush`,
  `FreeLists.LaterAfterFlush`); `Pagers.FlushedPagesComeBack` is a run.
- A partition dropped and asked for again in one transaction is made anew on the
  file the last commit still counts on. What a crash would go back to is there
  exactly as long as none of its pages is among those the new partition was given
  (`PartRuns.MadeAnew`); the commit unlinks the file, and what it recorded is there
  exactly when the new partition was given nothing (`PartRuns.MadeAnewCommitted`).
  `PartRuns.DroppedThenMade` is a database on which it happens. Without such a call
  a transaction loses nothing: `PartRuns.Run` is about every run up to the first one.
- A handle set aside by a drop and rolled back without a record stays set aside
  (`PartRuns.UndoStrands`), and its name can never be opened again, whatever a run
  does next (`PartRuns.StrandedForGood`). `PartRuns.NeverAgain` is a run of a new
  database: a name made, dropped, taken back, and refused.
- An exhausted identifier source starts over, and a short read of randomness leaves
  a partly drawn seed. `Ulids.SetBackExactly` says which calls set a source back,
  `Ulids.NextSortsLater` exactly when the next identifier still sorts later, and
  `Ulids.ShortReadGoesBack` and `Ulids.ExhaustedGoesBack` where it does not.

## Model

| member | source | states |
|---|---|---|
| `PageFile.CrashRecovers` | internal/pager/pager.go:298-333 | whatever subset of the un-synced writes survives, and a meta slot old, new or torn: `loadMeta` finds the last acknowledged transaction or the one in flight, and every page of the one it finds holds its committed contents |
| `PageFile.MetaTakesOff` | internal/pager/pager.go:513-518 | a meta page written once everything it points at is durable leaves both the old version and the new one recoverable |
| `PageFile.MetaLands` | internal/pager/pager.go:519-529 | after the second sync only the new version can be found, and the slots have changed roles |
| `Pagers.Pager.Read` | internal/pager/pager.go:428-452 | what a read returns, for any id |
| `Pagers.Pager.OldestHeld` | internal/pager/freelist.go:123-131 | the earliest transaction any snapshot holds, or zero when none is held |
| `Pagers.Pager.Promote` | internal/pager/freelist.go:134-164 | moves to ready exactly what transactions visible to nobody freed, oldest first: what is left was freed by the transaction under way or by one later than some held snapshot |
| `FreeLists.PromotedAllMoves` | internal/pager/freelist.go:134-164 | nothing else moves, and what stays pending is unchanged |
| `FreeLists.PromotedExactly` | internal/pager/freelist.go:134-164 | of the books alone: a page is ready afterwards if and only if it was, or what freed it is visible to nobody |
| `Pagers.Pager.Allocate` | internal/pager/pager.go:379-410 | never hands out a page the client holds, a page of the last committed tree or list, or a page any held snapshot reads; grows the file, or fails at the quota, only when every page of the file that is not in use was freed by the transaction under way or by one later than some held snapshot |
| `FreeLists.AllottedKeeps` | internal/pager/pager.go:379-410 | one allocation keeps the page count exact: every page is in one place |
| `Pagers.Pager.Free` | internal/pager/freelist.go:79-92 | takes any number: a reserved page or one already freed is ignored, a page the client holds joins the free pages with everything still accounted for and shielded, and for any other number, and only then, the books no longer balance |
| `Pagers.Pager.Write` | internal/pager/pager.go:455-476 | takes any page past the reserved ones; the pager stays sound if and only if no version anyone may read has a page there, as for every page of this transaction |
| `Pagers.Pager.TakeListPages` | internal/pager/freelist.go:170-187 | the loop that sizes the free list settles: it ends with enough pages and not one too many, each new and different; it fails only at the quota |
| `Pagers.Pager.WriteListPages` | internal/pager/freelist.go:207-228 | the list pages form a chain that holds each record once, every slice in range, and no other page changes |
| `FreeLists.ListingPages` | internal/pager/freelist.go:189-205 | the records written name each ready or pending page as often as the list holds it |
| `Pagers.Pager.ReadFreelist` | internal/pager/freelist.go:235-273 | ends on any contents; on a list written whole returns exactly that list, unless page 1 is on it, and then refuses |
| `Pagers.Pager.Commit` | internal/pager/pager.go:480-531 | data, sync, meta, sync: at every instant a crash lands on the version before or the one being made, on the new one once it returns; the books balance again; it fails only at the quota |
| `Pagers.Pager.Snapshot` | internal/pager/freelist.go:96-99 | pins the last commit: what it reads is recorded and shielded from then on |
| `Pagers.Pager.Release` | internal/pager/freelist.go:109-119 | lets go of one hold; every other snapshot still reads what it read |
| `Pagers.Pager.Rollback` | internal/pager/pager.go:345-362 | back to the last commit, list and all; sound for the held snapshots if and only if none of their pages is on that list |
| `Pagers.RollbackForgetsSnapshots` | internal/pager/pager.go:345-362 | a run from a new file after which a rollback hands out a page a held snapshot reads |
| `Pagers.Pager.Flush` | internal/pager/led.go:148-185 | makes a led file durable at a new position while nothing its leader can reach changes; fails only at the quota; if there was a list or something freed, the next allocation reuses a page of the leader's version, and otherwise none does, after any allocations and frees |
| `FreeLists.NextAfterFlush` | internal/pager/led.go:172-182 | the same, of the books alone |
| `FreeLists.LaterAfterFlush` | internal/pager/led.go:172-182 | the same over every sequence of allocations and frees until the leader commits |
| `FreeLists.RetiresExactly` | internal/pager/freelist.go:170-187 | what a flush retires is the old list and what was freed since |
| `Pagers.FlushedPagesComeBack` | internal/pager/led.go:172-182 | a run of a new led file in which the allocation after Flush hands out a page the leader still points at |
| `Pagers.Pager.Abandon` | internal/pager/led.go:192-204 | puts a led file back exactly where its leader says it is; refused if and only if page 1 is on that list |
| `Pagers.PageOneIsRefused` | internal/pager/freelist.go:235-273 | a run of a new led file that ends with such a list |
| `PageOne.ChainAtPageOne` | internal/btree/node.go:181-230 | a new led file hands out page 1 first, and a leaf with a chain there is encoded and cannot be decoded |
| `Nodes.SplitLeaf` | internal/btree/node.go:302-324 | finds a cut if and only if one exists, and the most even one |
| `Nodes.LeafSplits` | internal/btree/node.go:302-324 | a leaf made by adding or replacing one legal entry can be cut if and only if the new entry is not wedged 2023/2024/2023 |
| `Nodes.WedgeHappens` | internal/btree/node.go:302-324 | a concrete exactly full leaf and entry for which there is no cut |
| `Groves.PutsComeToAWedge` | internal/btree/tree.go:161-178 | a new file and three puts, the last of which fails to split |
| `Nodes.LeafHalvesAreFull` | internal/btree/node.go:302-324 | neither half of the best cut of an overflowing leaf is underfull |
| `Nodes.SplitBranch` | internal/btree/node.go:328-350 | finds a cut if and only if one exists, and the most even one |
| `Nodes.BranchSplits` | internal/btree/node.go:328-350 | a branch that overflows by as much as one separator or one merge can make it always has a cut |
| `Nodes.BranchHalvesHaveKeys` | internal/btree/node.go:328-350 | the best cut leaves at least one key, so two children, on each side |
| `Codecs.EncodeLeaf` | internal/btree/node.go:146-173 | refuses exactly what does not fit; otherwise count, slots and entries are all in place and none overlap |
| `Codecs.DecodeLeaf` | internal/btree/node.go:181-230 | stays in the page on any bytes; gives an encoded leaf back, if and only if no chain in it starts at page 1 |
| `Codecs.EncodeBranch` | internal/btree/node.go:232-253 | refuses a wrong number of children or too many bytes; otherwise lays the branch out |
| `Codecs.DecodeBranch` | internal/btree/node.go:255-287 | stays in the page on any bytes; gives an encoded branch back as it was |
| `Reads.ChildFor` | internal/btree/node.go:290-292 | the child whose range the key is in |
| `Reads.FindKey` | internal/btree/node.go:295-298 | where the key is, or would go |
| `Reads.LoadValue` | internal/btree/tree.go:695-724 | ends on any chain; returns the value a whole chain was written from |
| `Reads.GetAt` | internal/btree/tree.go:45-88 | agrees with the map the tree denotes, for every key |
| `Btrees.BTree.Get` | internal/btree/tree.go:45-88 | the value under the key in the map the tree denotes, and the key errors |
| `Btrees.BTree.WriteOverflow` | internal/btree/tree.go:666-687 | a chain of new pages that carries the value chunk by chunk |
| `Btrees.BTree.Release` | internal/btree/tree.go:741-759 | gives back exactly the pages of the chain |
| `Btrees.BTree.Place` | internal/btree/tree.go:729-737 | the old page back, or a new one with the old one freed; nothing else changes |
| `Btrees.BTree.Insert` | internal/btree/tree.go:135-225 | the new subtrees denote the old map updated, are ordered, full and of one height, occupy exactly the old pages plus and minus what the pager gave and took; cannot split if and only if the entry jams its leaf |
| `Btrees.OnlyLargestJams` | internal/btree/tree.go:161-170 | only the one largest entry can ever fail to split |
| `Btrees.BTree.Put` | internal/btree/tree.go:91-130 | an update of the map; every error has its exact condition, and the refused keys and values change nothing; separators that were all smallest keys on their right still are |
| `Btrees.BTree.Remove` | internal/btree/tree.go:281-334 | the new subtree denotes the map without the key; a key that is not there changes nothing; done only where no branch grows too large, cannot-split only where one does |
| `Prunings.PourBursts` | internal/btree/tree.go:339-449 | a rebalance makes the branch above too large if and only if the pair is cut again and the new separator is longer by more than the room there is |
| `Btrees.BTree.Rebalance` | internal/btree/tree.go:339-449 | the pair becomes one child or two with the same entries, and the keys change only at the pair |
| `Btrees.BTree.RebalanceLeaves` | internal/btree/tree.go:363-400 | never fails to split: the place where the two leaves met is a cut |
| `Btrees.BTree.RebalanceBranches` | internal/btree/tree.go:402-435 | never fails to split, and puts the missing separator back |
| `Groves.DeleteCanOverflow` | internal/btree/tree.go:321-330 | a concrete tree and a call of Delete that fails to split |
| `Btrees.BTree.Delete` | internal/btree/tree.go:228-276 | a removal from the map that says truly whether the key was there; without a quota, cannot-split if and only if the removal makes a branch too large; where separators were all smallest keys, they still are exactly when the key is none of them or its leaf is poured with the one on its left |
| `Separators.TightAfter` | internal/btree/node.go:110-113 | of a removal without its pages: every separator is still the smallest key on its right if and only if the key is no separator, or the leaf it leaves is not the first child of its branch and is left less than a quarter full |
| `Separators.TightOrSnug` | internal/btree/node.go:110-113 | in an ordered tree that is the same as: every separator is what the leftmost leaf on its right begins with |
| `Groves.DeleteLeavesStale` | internal/btree/tree.go:303-334 | a tree of which it is true and a Delete of its separator, after which it is not |
| `Btrees.BTree.CollapseRoot` | internal/btree/tree.go:245-275 | the root ends with two children, entries of its own, or nothing; the map is unchanged and the dropped pages are given back |
| `Btrees.BTree.PagesPartition` | internal/btree/tree.go:729-759 | every page below PageCount is a meta page, a tree page, a list page or a free page, exactly once |
| `Surgery.TreeIsClosed` | internal/btree/tree.go:42-42 | every page of a spelled-out tree leads only to pages of that tree, so a commit of it can be reopened |
| `Btrees.BTree.Commit` | internal/btree/tree.go:42-42 | the committed version holds exactly this tree; fails only at the quota |
| `Reads.AscendAt` | internal/btree/tree.go:484-535 | the visitor sees exactly the entries at or above `from`, in order, up to where it stops |
| `Reads.DescendAt` | internal/btree/tree.go:557-622 | the visitor sees exactly the entries below `from`, in reverse, up to where it stops |
| `Btrees.BTree.Ascend` | internal/btree/tree.go:476-482 | the same from the root |
| `Btrees.BTree.Descend` | internal/btree/tree.go:549-555 | the same from the root |
| `Reads.StretchesAgree` | internal/btree/tree.go:537-548 | over [lo, hi) the walk up is the walk down reversed |
| `Reads.StretchesAre` | internal/btree/tree.go:484-622 | a walk up covers the pairs whose key is not below where it starts, ascending; a walk down those below it, descending |
| `Reads.VisitIs` | internal/btree/tree.go:484-622 | a visitor is shown one pair after another for as long as it says so, and nothing after it stops |
| `Sorted.PutIsUpdate` | internal/btree/tree.go:90-130 | Updated and Removed on sorted runs are update and removal on maps |
| `Runs.Run` | internal/btree/tree.go:42-276 | over every run of puts, deletes, commits, snapshots and releases: each is done or not as its condition says, the tree holds what the events leave, and every instant lands on what was last committed or on the commit under way |
| `Runs.CrashAnywhere` | internal/pager/pager.go:298-333 | a crash at any instant of any run opens at the map last committed before the event of that instant, or, when that event is a commit, at what it commits |
| `Runs.EventOf` | internal/pager/pager.go:298-333 | every instant of a run is an instant of one of its events |
| `Runs.Reopen` | internal/pager/pager.go:259-296 | what a crash left opens as a valid tree that denotes that map |
| `Runs.OpenSnapshot` | internal/btree/tree.go:33-35 | a handle at a held snapshot reads the map it pinned, whatever was committed since |
| `Parts.PositionRoundTrip` | internal/store/parts.go:359-380 | a position read from its 24-byte record is the position written |
| `Parts.CrashAcrossFiles` | internal/store/parts.go:28-38 | a crash of all files at any sound instant: one leader transaction is found, and every partition it records and looks after is at its recorded position with its pages intact |
| `Parts.ShowsChain` | internal/store/parts.go:28-38 | what two stretches of a run go through, file by file and instant by instant, is what both together go through |
| `Parts.Store.Part` | internal/store/parts.go:94-130 | opens a recorded partition where it is recorded, with its tree, or makes an empty one; refused if and only if the name is unusable, its file is still held by a drop, or page 1 is on its list |
| `Parts.Store.WritePage` | internal/pager/pager.go:455-476 | the trail gains the one instant of it, which lands where the last did; what is recorded stays whole unless it is made anew and the page is one of its own |
| `Parts.Store.GrowPage` | internal/pager/pager.go:379-410 | the same for a new page, which was nobody's |
| `Parts.Store.FreePage` | internal/pager/freelist.go:79-92 | a page leaves a partition's tree and no file moves |
| `Parts.Store.LeaderPut` | internal/btree/tree.go:91-130 | an update of the leader's map beside the records; every instant lands where the last did; refused for its arguments, a jam or the quota only |
| `Parts.Store.Drop` | internal/store/parts.go:170-203 | the handle is set aside, the row goes and the file stays; every instant lands on the last commit; refused only where the leader's delete is |
| `Parts.Store.CommitParts` | internal/store/parts.go:239-260 | every partition with something pending is flushed and recorded in the leader's tree in hand, the others stay as recorded, and every instant still lands on the last commit |
| `Parts.Store.Commit` | internal/store/store.go:99-113 | the trail gains all the files went through, landing on the old catalog, on either, then on the new one; that is the old one less what was dropped, with the tree in hand of whatever had something pending; what it names is all there if and only if it names nothing made anew under a dropped name |
| `Parts.Store.Rollback` | internal/store/store.go:121-136 | from any failed state back to the committed catalog, each partition with the tree and root it was recorded with, and no file moves; refused if and only if page 1 is on a recorded list |
| `PartRuns.Do` | internal/store/store.go:99-136 | any one deed, and the rollback if it fails: done or not as its condition says, leaving what it says, its instants landing where it says |
| `PartRuns.Run` | internal/store/parts.go:28-38 | the same for every run of deeds over several files, with the trail of every instant; it ends early only at a dropped name made anew, at a commit with a number too large for its record, or at a rollback, asked for or after a deed that failed as it may, that meets page 1 on a list |
| `PartRuns.CrashDuringRun` | internal/store/parts.go:28-38 | a crash of all files at any instant of any deed of any run opens at the last commit, or at the one under way, leader and partitions together |
| `PartRuns.UndoStrands` | internal/store/parts.go:306-325 | a rollback leaves set aside exactly what a drop had set aside and no record knows |
| `PartRuns.StrandedForGood` | internal/store/parts.go:94-130 | over every run, a name set aside that is neither open, nor dropped, nor recorded stays so, and no later Part on it is done |
| `PartRuns.NeverAgain` | internal/store/parts.go:94-130 | a run of a new database that comes to it |
| `PartRuns.MadeAnew` | internal/store/parts.go:94-130 | a dropped name made anew and given pages: what a crash goes back to is there if and only if none of its pages is among them |
| `PartRuns.MadeAnewCommitted` | internal/store/parts.go:263-276 | once committed, what is recorded is there if and only if the new partition was given nothing |
| `PartRuns.DroppedThenMade` | internal/store/parts.go:94-130 | a database of one partition, a drop and a new one with one page, and what was committed is lost |
| `Keys.FloatExact` | internal/keys/keys.go:153-167 | an integer within 2^53 converts to the binary64 that is exactly it |
| `Keys.SortBitsOrder` | internal/keys/keys.go:169-187 | the folded bits sort as the numbers do, and both zeros are one |
| `Keys.StringsDiverge` | internal/keys/keys.go:189-199 | escaped and terminated strings sort as the strings do and part before either ends |
| `Keys.PlainOrders` | internal/keys/keys.go:112-151 | earlier values have lower codes, values alike have one code, across all types |
| `Keys.CodeOrders` | internal/keys/keys.go:94-110 | the same for ascending and descending fields |
| `Keys.NoComponentPrefix` | internal/keys/keys.go:94-110 | no component is a proper prefix of another |
| `Keys.KeyOrder` | internal/keys/keys.go:202-213 | byte order of whole keys is the declared lexicographic order, equal keys are equal places in it |
| `Keys.EncodeString` | internal/keys/keys.go:189-199 | the loop computes the escaped code |
| `Keys.Encode` | internal/keys/keys.go:94-110 | appends the code, complemented in place for a descending field; refuses exactly a missing value that is skipped, a number that is none, an integer beyond 2^53 and what is not indexable, each with its error |
| `Keys.EncodeKey` | internal/keys/keys.go:202-213 | appends the whole key, if and only if there are as many values as fields and each can be encoded |
| `Keys.Decode` | internal/keys/keys.go:216-282 | returns the value that was encoded and the untouched rest |
| `Keys.DecodeKey` | internal/keys/keys.go:285-296 | returns all the values that were encoded and the untouched rest |
| `Ulids.Write` | internal/ulid/ulid.go:111-143 | the packing loop computes the 26 base32 digits of the 128-bit value |
| `Ulids.Increment` | internal/ulid/ulid.go:100-108 | adds one, or reports exhaustion exactly at 2^80 - 1 and leaves zeros |
| `Ulids.TextOrder` | internal/ulid/ulid.go:111-143 | string order is the order of the 128-bit values |
| `Ulids.Source.Next` | internal/ulid/ulid.go:60-87 | which call has which outcome, and what each leaves: a new millisecond starts from what is drawn, the same one adds one |
| `Ulids.Run` | internal/ulid/ulid.go:60-87 | for every clock and every reader of randomness, failures included: each call has the outcome it must; identifiers rise while nothing sets the source back; each carries the latest time taken up |
| `Ulids.MovesOnce` | internal/ulid/ulid.go:60-87 | a call on a state has one outcome and leaves one state |
| `Ulids.SetBackExactly` | internal/ulid/ulid.go:60-108 | which calls make the number smaller: an exhausted one, and a short read that draws lower |
| `Ulids.LaterSortsLater` | internal/ulid/ulid.go:60-87 | with nothing of that kind in between, a later identifier sorts after an earlier one |
| `Ulids.NextSortsLater` | internal/ulid/ulid.go:60-87 | whatever failed in between, the next identifier sorts later if and only if its time is newer or the failures left the seed at least where it was |
| `Ulids.WholeReadsRise` | internal/ulid/ulid.go:60-87 | with whole reads nothing sets the source back up to the first exhaustion |
| `Ulids.ShortReadGoesBack` | internal/ulid/ulid.go:66-80 | two calls of a real source with a short read between them, out of order |
| `Ulids.ExhaustedGoesBack` | internal/ulid/ulid.go:100-108 | after exhaustion the next identifier sorts later if and only if its time is newer |
| `Ulids.Time` | internal/ulid/ulid.go:147-164 | recovers the stamp an identifier was made with |
| `Operations.Costs.CeilingOf` | internal/store/compose.go:116-204 | ends on any finite table, cyclic or not; its memoised answer is the plain recursive sum, and it refuses if and only if there is none |
| `Operations.SumsOnce` | internal/store/compose.go:116-204 | the plain sum is one number, however deep one looks |
| `Operations.CycleHasNoSum` | internal/store/compose.go:170-175 | an operation whose references lead back to it has no sum, nor has any that leads to it |
| `Operations.Sharing.Shareable` | internal/store/compose.go:292-326 | says yes if and only if everything reached only reads and no collection reached is partitioned |
| `Operations.Sharing.StepsShare` | internal/store/compose.go:334-381 | the same for the steps of a batch |
| `Operations.EnvelopeOf` | internal/store/envelope.go:160-294 | fails if and only if there is no ceiling; covers every collection, index and returned field the operation reaches, and names none that nothing reached gives cause for; its limit is the plain sum, or for a count or a digest the declared limit |
| `Operations.CheckScopes` | internal/store/compose.go:502-516 | the loop accepts a batch if and only if it asks for every scope of what it runs |
| `Operations.DeclaredAsk` | internal/store/compose.go:502-516 | over any declarations, everything in the table asks for what it calls |
| `Operations.ScopesCarry` | internal/store/compose.go:502-516 | over any declarations, whoever may run an operation may run everything it runs, however deep |
| `Execution.Machine.Perform` | internal/store/invoke.go:34-89 | what each action comes to, outright: a put or an insert leaves the document under its key and nothing else moved, an insert is refused where the key is taken, an update goes over what was there, a delete removes, a get returns the projected document; a batch is the fold of its steps, or nothing; for any operation whose references run out, at most the ceiling in rows and changes together, a shareable operation changes nothing and reaches no partition, and everything touched, walked and returned is in the envelope, rows made from totals aside |
| `Execution.SummedEnds` | internal/store/compose.go:116-204 | an operation with a ceiling, one that may share the lock and one an envelope covers are all operations whose references are there and run out |
| `Execution.DeclaredEnds` | internal/store/compose.go:116-204 | over any declarations, one after another, so is everything in the table |
| `Effects.PromisesKept` | internal/store/compose.go:116-204 | of every run by value: the ceiling, the lock answer and the envelope bound it |
| `Effects.RunStays` | internal/store/compose.go:116-204 | what a run comes to does not depend on how deep references are followed, once they run out |
| `Ceilings.CeilingReached` | internal/store/compose.go:116-204 | for every operation with a ceiling there are arguments and documents on which the run returns and changes exactly that many rows, one less for each count and digest on the way; it touches every collection, walks every index and returns every field the envelope names, and where the lock may not be shared it changes something or looks into a partition |
| `Ceilings.SilentIsOne` | internal/store/compose.go:128-149 | a count and a digest add one answer to a caller's sum, and nothing without a limit |
| `Ceilings.NothingSilent` | internal/store/compose.go:128-149 | where nothing reached counts or digests, every row of the ceiling is one that is returned or changed |
| `Execution.Machine.RunBatch` | internal/store/batch.go:39-101 | all of what the steps come to, or nothing; refused while something is uncommitted |
| `Execution.Machine.RunSteps` | internal/store/batch.go:116-140 | exactly the fold of the steps in order, each on the documents the ones before it left, up to the first that fails |
| `Execution.Machine.RunStep` | internal/store/batch.go:176-340 | one step, or the operation it calls with the arguments bound for it, exactly |
| `Execution.Machine.RunTouch` | internal/store/batch.go:176-279 | a step on one document: refused unless its conditions hold of what is there; then a get, a put, an insert, an update or a delete of exactly that document |
| `Execution.Machine.RunOwn` | internal/store/invoke.go:101-266 | each single action, exactly; what is not there to be read or written is refused and changes nothing |
| `Execution.Machine.RunScan` | internal/store/invoke.go:284-344 | exactly the rows of the stretch in order, up to the limit, each projected |
| `Execution.Machine.RunCount` | internal/store/invoke.go:284-344 | exactly how many there are in the stretch, up to the limit if one is declared |
| `Execution.Machine.RunTotals` | internal/store/invoke.go:137-166 | the totals in order up to the limit, and whether there were more |
| `Execution.Machine.RunDeleteRange` | internal/store/deleterange.go:120-180 | removes exactly the first `limit` keys of the stretch; says how many of them were there, which was the last of those, and whether there were more |
| `Journals.Journal.Record` | internal/store/log.go:104-124 | numbers stay contiguous and the state stays exactly what the log says |
| `Journals.Journal.Trim` | internal/store/log.go:150-199 | keeps exactly the last `retain` entries, so as many as it is told to once there are that many |
| `Journals.Journal.Write` | internal/store/collection.go:154-246 | the document is there under its own key, or one made for it, and its entry is in the log, or nothing has changed; refused exactly without a key or where the collection refuses |
| `Journals.Journal.Remove` | internal/store/collection.go:271-319 | the key is gone and nothing else, and its entry is in the log; a key that is not there records nothing |
| `Journals.Journal.OldestLSN` | internal/store/log.go:223-235 | the lowest number in the log |
| `Journals.Journal.CanFollow` | internal/store/log.go:244-256 | yes if and only if every entry from there on is still kept |
| `Journals.Journal.Collect` | internal/server/subscribe.go:164-190 | the consecutive entries from there on, up to one batch |
| `Journals.Journal.Apply` | internal/store/log.go:283-379 | a repeat changes nothing, a gap is refused, the next entry is taken if and only if this copy would accept it, and then its document is there or its key is gone and nothing else has changed; a document without a key is refused, or given one where its collection makes keys |
| `Journals.Journal.Receive` | internal/server/follower.go:77-111 | the entry and the position are one commit, a failure leaves nothing |
| `Journals.LastDecides` | internal/store/log.go:283-379 | over any log: a key holds the document of its last put, and nothing if its last entry is a drop |
| `Journals.Journal.Holds` | internal/store/collection.go:160-246 | at any moment a journal holds under each key the document of its last put, and nothing where its last entry is a drop or it has none |
| `Journals.LastNoted` | internal/store/log.go:138-147 | a write id is remembered with the last entry it was on |
| `Journals.Follow` | internal/server/follower.go:77-128 | for every delivery with repeats, gaps and crashes, in the middle of an entry included, the follower takes exactly the entries that were next, and is the replay of that beginning of the leader's log |
| `Journals.ResumedCatchesUp` | internal/server/follower.go:77-128 | a leader that resumes no later than where the follower is brings it to the end of what it sends |
| `Journals.Journal.Call` | internal/store/invoke.go:34-89 | a write id seen before is answered from its record; otherwise exactly the entries of all of the work, or none |
| `Journals.Serve` | internal/store/log.go:260-274 | each call is answered and adds to the log what it must; the store changes exactly when the reply says so; of all calls with one write id at most one changes it, and the later ones are answered with what it did |
| `Journals.SamePlaceSameAnswer` | internal/store/log.go:260-274 | a follower at the leader's position holds what the leader holds and would answer any call as it does |
| `Feeds.StepKeeps` | internal/server/subscribe.go:117-203 | every step of every actor keeps the delivery and wake-up invariants |
| `Feeds.Delivers` | internal/server/subscribe.go:117-160 | over every interleaving events are consecutive from the one asked for, each once, and a blocked streamer has sent everything announced |
| `Feeds.TrimIsReported` | internal/server/subscribe.go:164-177 | over every interleaving the streamer has given up if and only if some drain came to an entry no longer kept |
| `Feeds.Settles` | internal/server/subscribe.go:117-160 | left alone, from anywhere, the streamer ends blocked with everything announced sent, or reports a trimmed entry |
| `Feeds.OrderMatters` | internal/server/server.go:175-198 | in every world: the channel taken after reading loses exactly what was announced in between, taken before it loses nothing |
| `Feeds.WakeUpLost` | internal/server/server.go:175-198 | one commit announced in between is always lost |
| `Collections.Collection.EntriesForIndex` | internal/store/collection.go:359-450 | exactly the keys made of the index, the code of a row the document lists and the document's key, each once, one row for every element of a list that is spread and none where a skipped field is missing; refused exactly where a value is of the wrong type or has no code |
| `Collections.DescribesExactly` | internal/store/collection.go:359-450 | the same of what indexes and uniqueness are stated with: which documents are described, and under which codes |
| `Collections.IndexExactly` | internal/store/collection.go:345-357 | the entries a collection keeps are exactly those its documents are filed under |
| `Collections.Collection.EntriesFor` | internal/store/collection.go:345-357 | the same over all indexes |
| `Collections.EntryOnce` | internal/store/collection.go:420-440 | an entry belongs to one index and one document |
| `Collections.Collection.CheckUnique` | internal/store/collection.go:454-487 | refuses if and only if another document holds a value of a unique index |
| `Collections.UniqueExactly` | internal/store/collection.go:454-487 | no two documents are filed under one code of a unique index |
| `Collections.FreshExactly` | internal/store/collection.go:454-487 | a document is refused for its values exactly when another is filed under one of them |
| `Collections.Collection.Contribute` | internal/store/rollup.go:176-248 | moves every rollup the document belongs to, or refuses exactly where it cannot |
| `Collections.GroupExactly` | internal/store/rollup.go:145-169 | which row a document is in, if any, and that a rollup takes it exactly when its group has a code and every path it sums holds a number or nothing |
| `Collections.ShareRow` | internal/store/rollup.go:145-169 | two documents are in one row exactly when the values of their groups are alike, field by field |
| `Collections.OneDocument` | internal/store/rollup.go:176-248 | one document moves one row by one and each sum of it by the number it holds, and no other row |
| `Collections.ContributeAdds` | internal/store/rollup.go:176-248 | adding a document keeps every row the count and sums of its group |
| `Collections.ContributeTakes` | internal/store/rollup.go:176-248 | taking it away is the exact opposite, and an empty group has no row |
| `Collections.CountedExactly` | internal/store/rollup.go:176-248 | every row counts the documents that are in it, and is there exactly when there is one |
| `Collections.SummedExactly` | internal/store/rollup.go:176-248 | and sums over a path what each of them holds there |
| `Collections.Collection.Write` | internal/store/collection.go:154-246 | keeps index entries, uniqueness and totals equal to recomputation; refused exactly where an index, a rollup or uniqueness refuses |
| `Collections.Collection.Remove` | internal/store/collection.go:271-319 | keeps the same, and says truly whether the document was there |
| `Databases.Database.Do` | internal/store/collection.go:154-246 | a document, what is derived from it and its entry in the log: all of them, or a refusal exactly where an index, a rollup or uniqueness refuses, after which the last commit is still there to go back to |
| `Databases.Database.RunBatch` | internal/store/batch.go:39-99 | the entries of all the writes, each judged on what the ones before it left, in one commit; or documents, entries, totals and log as they were |
| `Databases.Database.Rollback` | internal/store/store.go:121-140 | every collection with everything derived, and the log, are back at the last commit |
| `Databases.Database.Serve` | internal/store/batch.go:39-99 | over any calls and crashes in the middle of them the log is the entries of the calls accepted whole, the documents are its replay, and entries, uniqueness and totals are those of the documents |
| `Databases.SameLogSameStore` | internal/store/log.go:283-379 | two stores with one log have the same documents, index entries and totals in every collection |

## Left out

- Btrees.BTree.Put: after an error that is not about its arguments nothing is promised about the tree but that it can be rolled back; the source leaves such a tree to its caller as well.
- Btrees.BTree.Delete: with a quota it may end for want of a page before it comes to a branch that is too large.
- Btrees.BTree.Insert: stated for files with two reserved pages; partitions are modelled as pages with a root, and the tree over them is not.
- Parts.Store.Rollback: not modelled after a dropped name has been made anew; what is lost by then is PartRuns.MadeAnew.
- Parts.Store.Part: not modelled, for other names, once a dropped name has been made anew.
- Parts.Store.Drop: not modelled once a dropped name has been made anew.
- Parts.Store.WritePage: for pages of this transaction, the only ones a tree writes; what a write anywhere else does to a file is Pagers.Pager.Write.
- Parts.Store.FreePage: for pages the partition holds, the only ones a tree frees; what any other number does is Pagers.Pager.Free.
- PartRuns.Run: ends, without a rollback, at a commit that fails because a page number does not fit eight bytes.
- Parts.Store.Commit: partitions are taken in any order, where the source takes them by name.
- Journals.Serve: stated with retention off; trimming drops a shared write id with its first entry.
- Execution.Machine.Perform: term resolution, argument binding, range bounds and the byte budget are parameters of the model; a digest is answered without its bytes.
- Collections.Collection.Write: on a refusal by a rollup the totals of earlier rollups have moved; the source relies on its caller not committing, and Databases.Database.RunBatch rolls back.
- Databases.Database.Serve: calls are batches; write ids, retention and keys made for documents are in Journals.
- Encryption, checksums and key derivation: only that a damaged page is detected.
- Input and output errors of the file system, and closing a file with uncommitted growth.
- JSON, float rounding of sums, and values an index entry carries along.
- Partition expiry, membership by name prefix, and building an index over existing documents.
- Declaring and dropping collections, replication of those, and validation of operations beyond the scope rule.
- Totals over several partitions, digests of a range, and the reading of bounds: they would add easy members.
- Frames, sockets, authentication, the command line and the operator shell.
