# LB+-tree, NvmLog and mempool: a verified model

This project models three parts of the repository and proves what they are for.

**The tree** (`lbtree-src/lbtree.cc`, `lbtree-src/lbtree.h`). A B+-tree with inner nodes in DRAM and 256-byte leaves in NVM. `LbTree.LBTree` is the
tree object; its `insert`, `del`, `lookup` and `check` are proved against the set of entries of its leaves, `Contents()`. The leaf memory
(`Nvm.dfy`) is modelled at the level of 8-byte stores, `clwb` and `sfence`: a leaf is four 64-byte lines, and until a line's write-back is fenced a
crash may leave it as it was after any of the stores since the last fenced write-back. `insert` and `del` record in `trace` the memory after every
such event; `MemoryRun.Run` says that consecutive states differ by one event, and `Recovery`/`Nvm` say what a walk from `first_leaf` finds in each
image. `Concurrent.dfy` and the files beside it are a second model of the same operations, a state machine in which any number of threads take steps.
`Bulk*.dfy` is `bulkload` with one thread and with several.

**The log** (`common/nvm-common.h`). `LogArea.LogBuffer` is the wrapping buffer of 64-byte lines, `LogCodec` the record format parsed from either end,
`MiniTransaction.NvmLog` the transactions with undo, redo and node allocation, `LogPrint.Printer` the forward parse.

**The pool** (`common/mempool.h`). `MemPool.Mempool`, used by both.

How the files build on each other:

- `Types`, `Leaf`, `Nvm`, `LeafOps`, `QSort`, `LeafSplit`, `LeafRemoval`: one or two leaves, their stores and flushes, and what a crash shows of them.
- `Levels`, `TreeSteps`, `InnerNode`, `Pending`, `LeafLevel`: the tree as lists of nodes per level, each the expansion of the one above, and what a
  split, a removal or a root change does to those lists.
- `Recovery`, `MemoryRun`, `TreeView`, `TreeState`, `InsertSteps`, `DeleteSteps`, `LbTree`: the operations.
- `Check`, `CheckMeaning`: `check`, and what its acceptance means. `SmallTrees`: trees on which a condition above fails.
- `Concurrent`, `ConcurrentInv`, `ConcurrentSteps`, `ConcurrentLeaf`, `ConcurrentTree`, `ConcurrentUp`, `ConcurrentGrow`, `ConcurrentRuns`,
  `ConcurrentNodes`, `ConcurrentProgress`, `DeleteRetry`: interleavings.
- `Grouping`, `BulkRows`, `BulkTree`, `BulkSubtree`, `BulkWhole`, `BulkCollect`, `BulkParallel`, `BulkShares`, `BulkThreads`, `BulkDurable`: bulkload.
- `Mempool`, `Bytes`, `LogArea`, `LogCodec`, `LogUndo`, `NvmLog`, `LogPrint`, `LogCrash`: pool and log.

`dafny verify dfyconfig.toml` checks everything.

## Premises

- Keys are non-negative 63-bit numbers, so that the difference of two keys does not overflow (lbtree-src/lbtree.cc:501).
- `root_level` and `tree_root` are two stores (lbtree-src/lbtree.cc:974-975, 1247-1248); each pair is one step.
- `hashcode1B` and `computeCheckSum` are arbitrary functions; only `LostByte` takes the program's checksum (common/nvm-common.h:365-375).
- A copy into the log stores its bytes in ascending order, one at a time; a crash leaves the line being written as it was after any store since its
  last fenced write-back (`Windowed`).
- `Delete` asks that a tree with more than one level hold another key, or not the deleted one; `LoopStays` shows that this is exactly what keeps
  Part 3 below the root.
- `Abort` asks that the write position is not at byte 2 of a line; `ReachBack` shows that, once anything is logged, this is exactly what backward reading needs.
- `Abort` and `Commit` ask that the transaction's bytes stay below 62 times one less than the number of lines.
- `Bulkload` takes the numbers of keys and children per node, every value from 1 to full, and fewer than 2^31 strictly ascending keys.

## Findings

Where the code does not do what its comments or callers expect, the model keeps the code, and a lemma says exactly when.

| what happens | where | lemma |
|---|---|---|
| `del` of a leaf's last key sets the leaf's lock bit, finds the left sibling locked, and starts again without clearing the bit; nobody ever clears it, and no later search can enter the leaf | lbtree-src/lbtree.cc:1127, 1144-1149 | `RetryIff` (the exact condition), `RetryHappens` (a run of two threads that gets there), `RetryStuck` (the bit stays set in every run from there) |
| Abort with the write position at byte 2 of a fresh line takes its version from the previous pass and never arrives; even an empty transaction's abort then reads a header byte as a tag | common/nvm-common.h:631-637, 953-956 | `ReachBack` (the exact condition), `EmptyAbort`, `FreshAbort` (a new log) |
| A parallel bulkload can exceed 31 levels, where the final assertion fails, on an input that one thread loads within 31 | lbtree-src/lbtree.cc:442-452 | `Bulkload` (the exact condition), `FewKeysFit`, `TooTallExample` |
| Bulkload writes back no leaf, so a crash after it can lose entries | lbtree-src/lbtree.cc:145-175 | `LoadNotDurable`, `LoadedDurableIff` (exactly which lines have to be written back) |
| A flushed record can become unreadable after a crash once later bytes are stored in the same line: until the next flush the line has the old checksum. Flushing every record does not help, as a crash can fall between the two | common/nvm-common.h:415-449, 560-561 | `EveryImage` (the exact condition), `FlushThenWrite` (any two records in one line), `LostByte` (a new log, two bytes, the program's checksum) |
| Part 3 of `del` climbs past the root when the deleted key is the last one in a tree with several levels; the comment that the root has two children is not true after a collapse of one level | lbtree-src/lbtree.cc:1216-1248 | `LoopStays` (the exact condition), `LoopLeaves` (a tree where it fails), `DeleteLastButOne` and `TwoHigh` (`del` itself leads to one) |
| `check` rejects a tree whose only leaf has been emptied, which `del` allows; and it does not look at the last leaf's sibling pointer | lbtree-src/lbtree.cc:1176, 1392, 1417 | `StructAccepted`, `AcceptedIs` (the exact conditions), `EmptyRejected`, `LastPointerIgnored` |

## Model

| member | source | states |
|---|---|---|
| LbTree.LBTree.Insert | lbtree-src/lbtree.cc:604-995 | Put-if-absent on the abstract map; the whole invariant is kept and every lock bit is clear afterwards. It runs out of memory exactly if the key is new, its leaf is full, and the leaf pool is exhausted or the node pool cannot give a node for each full node on the way up to the first with room, and one for a new root if there is none; otherwise it takes just those, and the height grows exactly if all were full. A key that is there changes nothing, a leaf with room no inner node. The trace is exactly the memory's states, event by event, and a crash at any of them recovers to the entries before or after. |
| LbTree.LBTree.Delete | lbtree-src/lbtree.cc:1008-1254 | Map removal, with the same invariant and the same crash guarantee. The inner nodes change exactly if the key is alone in a leaf below the root: that leaf is freed, with the single-child nodes above it, and every node freed is one more that the pool can give. The height drops exactly if the root has two children and the one the key leads to has a single leaf below it; the other child is the new root. A root that stays does not end up with a single child unless it had one. |
| LbTree.LBTree.Lookup | lbtree-src/lbtree.cc:467-564 | Names the leaf that the key's separators lead to, and the slot of the key in it, or -1 exactly if no leaf of the tree holds the key. |
| LbTree.LBTree.Check | lbtree-src/lbtree.h:274-279 | On a tree of the right structure with aligned nodes, whatever its lock bits, `check` gives the verdict `Accepted`; between operations it passes exactly if the tree holds a key. |
| LbTree.LBTree.FindLeaf | lbtree-src/lbtree.cc:636-667 | The recorded path leads to the one leaf whose range holds the key, and `isfull` is right for each node on it. |
| LbTree.LBTree.SplitAtLeaf | lbtree-src/lbtree.cc:794-899 | The leaf level after a split: the new leaf follows the old one, contents grow by the entry, and every event on the way is crash-safe. |
| LbTree.LBTree.InsertUp | lbtree-src/lbtree.cc:907-964 | The upward loop leaves a whole tree with the new leaf level, or, exactly if every node of the path is full, a whole tree but for a pair waiting beside the root. It takes one node for each full one, and fails exactly if the pool has fewer. |
| LbTree.LBTree.GrowRoot | lbtree-src/lbtree.cc:966-990 | The new root sits one level above everything, contents unchanged, both roots unlocked at the end. |
| LbTree.LBTree.LockAround | lbtree-src/lbtree.cc:1126-1162 | The locks of a structural delete: the leaf's left neighbour in the chain, if there is one, and the branch up to the first node with two children. |
| LbTree.LBTree.CutLeaf | lbtree-src/lbtree.cc:1189-1206 | Unlinking and freeing the leaf removes exactly its entry, crash-safely at every event, including the free-list store into the leaf's header. |
| LbTree.LBTree.RemovePath | lbtree-src/lbtree.cc:1210-1253 | Frees the branch of single children, removes the child above it, and collapses the root exactly if that was one of its last two children, to the other one: the tree is whole without exactly that leaf, no inner node is left locked, and all others are as before. |
| DeleteSteps.LoopStays | lbtree-src/lbtree.cc:1216-1244 | Part 3 finds a node with several children, and so stops at or below the root, exactly if the tree holds another key. |
| SmallTrees.LoopLeaves | lbtree-src/lbtree.cc:1216-1244 | A tree of two levels with one key, as valid as any, in which Part 3 finds no such node. |
| SmallTrees.DeleteLastButOne | lbtree-src/lbtree.cc:1245-1250 | Of two keys in any tree of three levels or more `del` removes one, and leaves such a tree. |
| SmallTrees.TwoHigh | lbtree-src/lbtree.cc:1245-1250 | There are such trees to begin with. |
| DeleteSteps.LeftSibling | lbtree-src/lbtree.cc:1131-1144 | The search up to the lowest turn and down along last children returns exactly the leaf's predecessor in the chain, or none exactly if the leaf is first. |
| DeleteSteps.PruneHere | lbtree-src/lbtree.cc:1210-1244 | Taking the branch out of the tree takes exactly its leaf out of the leaf level and leaves a tree. |
| DeleteSteps.Collapsed | lbtree-src/lbtree.cc:1246-1248 | Replacing a root with one child by that child keeps the tree and its leaf level. |
| DeleteSteps.HeightAfter | lbtree-src/lbtree.cc:1231-1250 | When Part 3 lowers the tree, which child is the root then, and that a root that stays keeps more than one child. |
| InnerNode.Search | lbtree-src/lbtree.cc:497-512 | Narrowed binary search and the sequential tail pick the unique child whose key range holds the key. |
| InnerNode.InsertChild | lbtree-src/lbtree.cc:917-930 | Shifting inserts the pair right after the child that split. |
| InnerNode.SplitNode | lbtree-src/lbtree.cc:934-958 | For every position, left node and right node concatenate to the full node with the pair put in, with 7 and 8 keys, and the key pushed up is the right part's first. |
| InnerNode.RemoveChild | lbtree-src/lbtree.cc:1222-1228 | The node's children are the old ones without the one at the position; the next one inherits a removed first child's place. |
| TreeSteps.CoversUnique | lbtree-src/lbtree.cc:485-513 | Exactly one node of an ordered level covers a key. |
| Pending.SplitPending | lbtree-src/lbtree.cc:934-964 | A cascading split keeps the logical tree: with the pending pair put in, levels, order and leaf list are as before. |
| Pending.GrowRoot | lbtree-src/lbtree.cc:966-976 | Root growth moves every node one level further from the root and changes no list. |
| InsertSteps.ClimbSplit | lbtree-src/lbtree.cc:934-964 | One round of the upward loop keeps "whole but for one waiting pair" one level up. |
| LeafNode.SearchLeaf | lbtree-src/lbtree.cc:528-556 | Fingerprint mask and candidate loop find the key's slot, or -1 exactly if no valid slot holds it. |
| LeafOps.FillLine | lbtree-src/lbtree.cc:768-780 | The compaction fills the line from line 0 and moves entries without losing, duplicating or reordering any that is visible. |
| LeafOps.InsertSlot | lbtree-src/lbtree.cc:737-792 | The leaf holds exactly one entry more, in the slots the policy says; every memory state on the way shows the leaf before or after, and the states are the events in order. |
| LeafOps.Commit | lbtree-src/lbtree.h:162-171 | Word 1, then word 0, then flush: the second store switches what a crash shows from the old leaf to the new one. |
| LeafOps.RemoveSlot | lbtree-src/lbtree.cc:1176-1186 | One header store removes exactly one entry and unlocks the leaf, crash-safely. |
| LeafOps.Unlink | lbtree-src/lbtree.cc:1191-1197 | The left sibling's live pointer is redirected and flushed before it is unlocked; every state shows the old or the new sibling. |
| QSort.QSortBleaf | lbtree-src/lbtree.cc:572-596 | The stretch is permuted, sorted by key, and nothing outside it moves. |
| QSort.Partition | lbtree-src/lbtree.cc:576-593 | The hole-moving partition puts the pivot in its place with smaller keys left and larger ones right. |
| LeafSplit.HalvesByKey | lbtree-src/lbtree.cc:796-803 | Ranking divides the 14 entries into two disjoint halves of seven around the split key. |
| LeafSplit.SplitLeaf | lbtree-src/lbtree.cc:794-896 | Old and new leaf together hold the old entries and the new one, on the right sides of the split key, which has seven of the old entries below it and seven not below; all states of both leaves, in order, are crash-safe. |
| LeafSplit.FlushBoth | lbtree-src/lbtree.cc:838-841 | Before the commit point all of the new leaf and line 3 of the old one are durable, and nothing visible has changed. |
| LeafRemoval.MoveFirst | lbtree-src/lbtree.h:193-197 | Store, write-back and fence of `first_leaf`: every state recovers with or without the removed entry. |
| LeafRemoval.ScribbleLeaf | lbtree-src/lbtree.cc:1205-1206 | The free-list link stored over the header of the freed leaf disturbs neither the tree nor recovery. |
| Recovery.DurableRecovers | lbtree-src/lbtree.h:158-197 | In a durable state every image a crash can leave recovers to the leaves' contents. |
| Recovery.SplitCrashSafe | lbtree-src/lbtree.cc:804-896 | Every state of a leaf split recovers to the entries before or after the insert. |
| Recovery.UnlinkCrashSafe | lbtree-src/lbtree.cc:1191-1197 | So does every state of unlinking a leaf from its left sibling. |
| Nvm.RecoversUnique | lbtree-src/lbtree.h:158-158 | An image determines what recovery finds. |
| MemoryRun.LiftRun | common/nvm-common.h:57-98 | A leaf's stores, write-backs and fences are, in order, events of the whole memory. |
| TreeCheck.GetMinMaxKey | lbtree-src/lbtree.cc:1339-1351 | The smallest and the largest key in valid slots. |
| TreeCheck.CheckNode | lbtree-src/lbtree.cc:1377-1496 | The recursive verdict on a subtree, with its key range and last leaf, whatever range it is meant for. |
| TreeCheck.Check | lbtree-src/lbtree.h:274-279 | Passes exactly if the recursion passes, the leaves are chained in order and `first_leaf` is the leftmost one. |
| CheckMeaning.AcceptedIs | lbtree-src/lbtree.cc:1353-1496 | Acceptance is equivalent to: every inner node in order and unlocked, every leaf aligned, non-empty, unlocked, with right fingerprints and keys in the range its separators give, and a chain equal to the in-order leaves. |
| CheckMeaning.AcceptedNodes | lbtree-src/lbtree.cc:1377-1496 | What that says of each node: inner nodes aligned to 64 bytes, unlocked, with 0 to 15 keys; leaves aligned to 256, unlocked, not empty, with right fingerprints, keys from their separator up to the next, and the live pointer at the next leaf. |
| CheckMeaning.AcceptedTree | lbtree-src/lbtree.cc:1377-1496 | What is accepted is a tree of one depth with nothing shared and leaves in global key order. |
| CheckMeaning.StructAccepted | lbtree-src/lbtree.cc:1377-1496 | Every tree the operations leave is accepted exactly if it holds a key. |
| SmallTrees.EmptyRejected | lbtree-src/lbtree.cc:1392-1392 | A root leaf without a key is a valid tree, and rejected. |
| SmallTrees.LastPointerIgnored | lbtree-src/lbtree.cc:1417-1425 | A tree whose last leaf points anywhere is accepted. |
| InnerNode.PosIn | lbtree-src/lbtree.cc:497-510 | The position function of the concurrent search, and of the way of a key in the contracts of `insert` and `del`, is the one position that covers the key. |
| ConcurrentInv.SearchRight | lbtree-src/lbtree.cc:477-564 | Whatever other threads are doing, a search never leaves the tree, and if it meets no locked node it ends at the leaf that covers the key. |
| ConcurrentSteps.ThreadKept | lbtree-src/lbtree.cc:714-730 | A step that leaves alone what a thread has locked invalidates none of its recorded nodes, positions and fullness marks. |
| ConcurrentSteps.MemStep | lbtree-src/lbtree.cc:834-990 | If memory and logical tree agree at the nodes a step changes, or these are locked, they still differ only at locked nodes afterwards. |
| ConcurrentGrow.AnyStep | lbtree-src/lbtree.cc:477-990 | Every step of every thread keeps the invariant, with what `ThreadKept` and `MemStep` assume, and is silent or the one point where its operation takes effect on the map. |
| ConcurrentRuns.RunSafe | lbtree-src/lbtree.cc:477-990 | In every state of every run the logical tree is whole, all results are explained by the order of effects, and no search has gone astray. |
| ConcurrentRuns.OneEffect | lbtree-src/lbtree.cc:477-990 | Linearizability: between call and return an operation has exactly one effect, with the result it returns, in a history that explains every result. |
| ConcurrentProgress.LookupAnswers | lbtree-src/lbtree.cc:515-563 | A called lookup answers in its own next step exactly if no node the key leads to is locked, with the record pointer that the contents hold for the key; memory does not change. |
| ConcurrentProgress.SearchMovesOn | lbtree-src/lbtree.cc:604-730 | On an unlocked way every search goes on: a put or in-place delete answers if there is nothing to do and otherwise locks what it will change; only a delete that would empty a leaf below the root does not. |
| ConcurrentProgress.NextStep | lbtree-src/lbtree.cc:735-990 | A thread past its search always has a next step of the program, which brings its return nearer: no thread waits while it holds a lock. |
| ConcurrentProgress.Finish | lbtree-src/lbtree.cc:735-990 | From any state a thread past its search can run to its return by its own steps, its operation taking effect once. |
| ConcurrentProgress.OpRuns | lbtree-src/lbtree.cc:477-995 | From any state in which no node on the key's way is locked, an operation can be called, run and return by its own steps, with the effect and the result it should have. |
| ConcurrentProgress.RestRuns | lbtree-src/lbtree.cc:477-995 | On a tree at rest every such run ends in a tree at rest with the right contents. |
| ConcurrentProgress.NoDeadlock | lbtree-src/lbtree.cc:477-995 | In every state every lookup and insert that was called can be scheduled to its return. |
| ConcurrentRuns.HeldApart | lbtree-src/lbtree.cc:714-730 | No node is held by two threads, and every held node's lock bit is set. |
| ConcurrentRuns.TopmostHeld | lbtree-src/lbtree.cc:907-990 | While a pair is on its way up, the topmost node locked for it stays locked. |
| ConcurrentRuns.AtRest | lbtree-src/lbtree.cc:926-990 | When every operation has returned, memory is a whole tree, no lock bit is set, and its entries are those of the history. |
| ConcurrentRuns.FromSequential | lbtree-src/lbtree.cc:604-995 | A tree between sequential operations is a start for any number of threads, with the same contents. |
| ConcurrentNodes.StoreEntry | lbtree-src/lbtree.cc:737-792 | What the sequential step stores in a locked leaf is an outcome the state machine allows. |
| ConcurrentNodes.EraseEntry | lbtree-src/lbtree.cc:1176-1186 | The same for clearing a slot. |
| ConcurrentNodes.DivideLeaf | lbtree-src/lbtree.cc:794-896 | The same for a leaf split, including which leaf stays locked. |
| ConcurrentNodes.FillNode | lbtree-src/lbtree.cc:917-932 | The same for an inner node with room. |
| ConcurrentNodes.DivideNode | lbtree-src/lbtree.cc:934-962 | The same for an inner split. |
| DeleteRetry.LeavesBitIff | lbtree-src/lbtree.cc:1127-1162 | On any memory, Part 1 of `del` leaves a lock bit that it does not hold exactly if the last key of a leaf is to go and the sibling its search finds is locked. |
| DeleteRetry.SiblingIsLeft | lbtree-src/lbtree.cc:1131-1144 | Among other threads, a sibling search that meets no locked inner node finds the leaf just before in the chain. |
| DeleteRetry.RetryIff | lbtree-src/lbtree.cc:1127-1149 | Hence the bit is left set exactly if there is more than one level, the key is the leaf's only one, the leaf is not first, and the leaf before it is locked. |
| DeleteRetry.RetryHappens | lbtree-src/lbtree.cc:1144-1149 | A run of an insert and a delete on a two-leaf tree that gets there, for all keys and addresses. |
| DeleteRetry.RetryStuck | lbtree-src/lbtree.cc:1144-1149 | In every run from there the bit stays set and no search, the deleting thread's included, ends at the leaf. |
| BulkSubtree.Counts | lbtree-src/lbtree.cc:92-108 | The node counts are the nested ceilings, up to the first level with one node. |
| BulkRows.AppendUp | lbtree-src/lbtree.cc:177-202 | The cascading append puts the child into the right node of every level: each level stays the exact grouping of the one below. |
| BulkSubtree.Populate | lbtree-src/lbtree.cc:145-204 | Leaves take the keys in order, as many as planned; no node is overfilled or left empty. |
| BulkSubtree.BulkloadSubtree | lbtree-src/lbtree.cc:80-207 | The levels stack up from the leaves to the top, with the planned counts and every inner node but the last of a level full, in new memory; fails exactly if a pool cannot hold them. |
| BulkParallel.BulkloadToptree | lbtree-src/lbtree.cc:238-301 | A tree over the given nodes, with the nested-ceiling counts, up to the first level with one node or the target, all nodes of a level full but the last; fails exactly if the pool cannot hold them. |
| BulkCollect.GetKeyPtrLevel | lbtree-src/lbtree.cc:317-344 | Returns the nodes of the level in order with their low keys, and frees exactly the nodes above it. |
| BulkParallel.FewTopNodes | lbtree-src/lbtree.cc:387-429 | The collected nodes number fewer than twice the threads. |
| BulkParallel.CountAdd | lbtree-src/lbtree.cc:92-108 | `d` keys more make at most `d` nodes more on any level, and never fewer. |
| BulkWhole.LoadedTree | lbtree-src/lbtree.cc:374-385 | A stack of levels that ends in one node is a tree whose leaf level is the load's. |
| BulkWhole.BulkloadOne | lbtree-src/lbtree.cc:369-387 | One thread, every fill: a valid tree whose entries are the input. Each leaf but the last takes exactly the next `lf` keys, in its last slots; the levels are the nested ceilings, up to the first with one node, which is the root; every inner node but the last of a level has `f + 1` children. None of the leaves has been written back. False exactly if a pool cannot hold the leaves or the inner nodes. |
| BulkThreads.Bulkload | lbtree-src/lbtree.cc:361-458 | Any number of threads: the same, with the shares' leaves one after the other, on each level up to the joining one the nodes of all shares, and above it the nested ceilings; unless the tree would have more than 31 levels, or a pool cannot hold the nodes, which depends only on the numbers and is stated as equivalences. |
| BulkThreads.FewKeysFit | lbtree-src/lbtree.cc:442-452 | Up to 2^29 keys the assertion holds for any number of threads. |
| BulkThreads.TooTallExample | lbtree-src/lbtree.cc:442-452 | Beyond that it can fail where one thread's load stays within 31 levels. |
| BulkDurable.LoadNotDurable | lbtree-src/lbtree.cc:145-175 | After a load into zeroed memory some crash image does not recover the input. |
| BulkDurable.LoadedDurableIff | lbtree-src/lbtree.cc:145-175 | Every crash image recovers the input exactly if every line that holds something visible has been written back. |
| BulkDurable.BackedTree | lbtree-src/lbtree.cc:145-175 | On any memory, writing those lines back makes the loaded tree durable, which is the premise of the crash guarantees of `insert` and `del`. |
| BulkDurable.AllBackedDurable | lbtree-src/lbtree.cc:145-175 | In particular, all four lines of every leaf written back make every image recover the input. |
| BulkDurable.BackedRun | common/nvm-common.h:57-98 | That state is reached from the load by write-backs and fences alone. |
| MemPool.Mempool.AllocNode | common/mempool.h:190-201 | A node apart from all in use, from the head of the free list or the end of the pool; fails exactly if both are exhausted, and leaves the pool one node less to give. |
| MemPool.Mempool.Alloc | common/mempool.h:161-171 | `n` new nodes one after the other from the end of the pool, which moves by `n` times the node size; fails exactly if that would pass the pool's end. |
| MemPool.Mempool.FreeNode | common/mempool.h:208-212 | The node goes to the head of the list threaded through the freed nodes. |
| LogArea.LogBuffer.WriteLog | common/nvm-common.h:415-433 | The stream grows by exactly the bytes, across line headers, the end of the buffer and version flips. |
| LogArea.LogBuffer.FlushLog | common/nvm-common.h:438-449 | Everything written is durable, and the unfinished line has a right header and is as its last store left it. |
| LogArea.LogBuffer.SealLine | common/nvm-common.h:440-446 | The stores of a flush before its write-back: each state they put the line in still shows the bytes that were durable. |
| LogArea.LogBuffer.StoreLine | common/nvm-common.h:380-426 | The same for the stores that complete a line. |
| LogArea.LogBuffer.ReadLog | common/nvm-common.h:556-582 | The next bytes of the stream come back and the position moves past them. |
| LogArea.LogBuffer.ReadLogReverse | common/nvm-common.h:651-679 | The bytes before the position come back in stream order, across the start of the buffer. |
| LogArea.LogBuffer.ReverseAdjustPtr | common/nvm-common.h:719-729 | The pointer at which backward reading arrives when it has read back to the position. |
| LogArea.LogBuffer.WriteThenRead | common/nvm-common.h:309-449 | Any pieces written after a saved position come back concatenated, in chunks of any sizes. |
| LogArea.LogBuffer.WriteThenReadBack | common/nvm-common.h:631-729 | Chunks read backward, prepended in turn, rebuild the stream, and the pointer then is the adjusted start. |
| LogArea.BytePlace | common/nvm-common.h:415-433 | Byte `t` of the stream is at payload position `t % 62` of line `t / 62`, which is line `(t / 62) % lines` of the buffer. |
| LogArea.HeaderPlace | common/nvm-common.h:380-426 | A complete line starts with the checksum of its other bytes and the version bit, set on the first pass over the buffer and on every other one. |
| LogArea.ReachBack | common/nvm-common.h:631-729 | Backward reading can arrive at the adjusted start exactly if the write position is not at byte 2 of a line, or nothing was written since and the line of the previous pass there still passes its check. |
| LogArea.EmptyAbort | common/nvm-common.h:953-956 | At byte 2 of a line an empty transaction's abort does not stop at once, and takes the offset in the line's header for a tag. |
| LogArea.FreshAbort | common/nvm-common.h:953-956 | On a new log that is no tag. |
| LogCodec.ForwardAll | common/nvm-common.h:1045-1177 | Parsing by head tags consumes exactly the encoded bytes and gives the records. |
| LogCodec.BackwardAll | common/nvm-common.h:955-1024 | Parsing by tail tags consumes the same bytes and gives the same records in the opposite order. |
| LogCodec.Layout | common/nvm-common.h:847-911 | The bytes of each kind of record: the tag first and last; between them the address in 8 bytes and the values, a length in 4 bytes on both sides of a value of any size, the count and addresses of deletions; numbers in little-endian order. |
| LogUndo.UndoFirst | common/nvm-common.h:952-1024 | Undoing backward restores a byte to its value before the first overwrite that covers it, however overwrites overlap or repeat, from any memory contents. |
| LogUndo.UndoMixture | common/nvm-common.h:952-1024 | Undoing the durable records restores every byte from any mixture of old and new values, provided every overwrite made is among them. |
| LogUndo.RedoMixture | common/nvm-common.h:913-933 | Making all stores of a transaction again, first to last, gives the memory they lead to, from any mixture a crash between them leaves. |
| MiniTransaction.NvmLog.WriteB | common/nvm-common.h:1183-1261 | The undo record is durable before the store; the transaction's invariant, including write-ahead, is kept. |
| MiniTransaction.NvmLog.WriteV | common/nvm-common.h:1263-1285 | The same for a value of any length. |
| MiniTransaction.NvmLog.RedoB | common/nvm-common.h:1382-1412 | The value is kept for the commit and reaches neither memory nor log before it. |
| MiniTransaction.NvmLog.TakeNode | common/nvm-common.h:1429-1444 | The node is out of the pool and its record is durable; none exactly if the pool is exhausted, and then the log is as it was. |
| MiniTransaction.NvmLog.Abort | common/nvm-common.h:942-1033 | Every overwritten byte has its value from before the transaction, and the free list is the old one followed by the bump-allocated nodes in allocation order. |
| MiniTransaction.NvmLog.LogCommit | common/nvm-common.h:841-911 | Redo records, deletions and the commit record are in the log, durable, before any redo store; memory is untouched. |
| MiniTransaction.NvmLog.Commit | common/nvm-common.h:841-940 | Each byte that a redo record covers has the value of the last one that does, all others are as they were; exactly the deleted nodes are back in the pool, the last one first. |
| MiniTransaction.CrashUndo | common/nvm-common.h:451-484 | After a crash before the commit, parsing the surviving log and undoing what it holds restores every byte that was not a fresh write. |
| MiniTransaction.CommitLogBack | common/nvm-common.h:1035-1178 | The forward parse of a committed transaction gives its records. |
| MiniTransaction.CommitReplay | common/nvm-common.h:841-933 | After a crash with the commit record durable, making the stores of the parsed records gives the committed memory, byte by byte the last value stored, from any mixture of values since the transaction's start. |
| LogPrint.Printer.Print | common/nvm-common.h:1035-1178 | `print` shows exactly the transaction's records, in order, up to the write position. |
| LogPrint.ShownTells | common/nvm-common.h:1035-1178 | What is shown determines the record, but for contents of variable length, of which only the length is shown. |
| LogCrash.DurableRead | common/nvm-common.h:556-582 | From a crash image `readLog` reads all durable bytes exactly if none is in the unfinished line, or that line's image passes its check. |
| LogCrash.EveryImage | common/nvm-common.h:415-449 | Every image a crash can leave gives all durable bytes back exactly if none is in the unfinished line, or that line has passed its check after every store since its last write-back. |
| LogCrash.FlushedReads | common/nvm-common.h:438-449 | After a flush every image gives everything back. |
| LogCrash.FlushThenWrite | common/nvm-common.h:415-449 | A record is flushed and another written in the same line: every image gives the first one back exactly if no state of the second changes the checksum. |
| LogCrash.LostByte | common/nvm-common.h:365-449 | On a new log, with the program's checksum, one byte flushed and one more written: the image as it stands loses the first one, unless the second is 0 or 128. |
| LogCrash.CrashRecovers | common/nvm-common.h:451-484 | If the unfinished line's header survived right, the durable records are read from the image, and undoing them restores every byte that was not a fresh write. |

## Left out

- Crash and concurrency together: they are proved in separate models.
- ConcurrentRuns.OneEffect: a concurrent `del` that would empty a leaf below the root takes no step in the state machine; its Part 1 is modelled in `DeleteRetry`, its later parts only sequentially.
- ConcurrentRuns.RunSafe: the same; and so the runs of `RetryStuck`.
- ConcurrentProgress.NoDeadlock: does not speak of deletes, as the contents may change until such a delete can go on; `OpRuns` does, for those that leave a key in the leaf.
- DeleteRetry.RetryStuck: its runs hold no structural delete.
- DeleteRetry.RetryIff: assumes that the left-sibling descent meets no locked inner node, because the code checks the lock of the leaf only (lbtree-src/lbtree.cc:1136-1145).
- MiniTransaction.CrashUndo: the surviving part of the log is a parameter, at least the durable bytes; `LogCrash.CrashRecovers` reads it from a crash image of the log, when the unfinished line passes its check.
- LogCrash.DurableRead: speaks of any image with the durable bytes in place; `LogCrash.EveryImage` of those that the log's stores and flushes allow.
- MiniTransaction.NvmLog.Abort: the write-backs of the restored data (common/nvm-common.h:978-1007) are not modelled, and byte values of fresh writes are not restored, as in the code.
- BulkThreads.Bulkload: the shares are loaded, connected and collected in one loop instead of three, and all on one pair of pools where each worker has its own; the premise for the crash guarantees is not established by bulkload, see `BulkDurable`.
- LogArea.ReachBack: the positions leave out the offset byte, which no reader looks at.
- BulkWhole.BulkloadOne: each loaded leaf has a history of two states, before and after the load, so the load itself is not a run of single stores.
- LbTree.LBTree.Insert: a lock bit found set restarts the search in the code; the sequential model starts from a tree with no lock bit set, the concurrent one covers the restart. Running out of memory, where the program exits, is a result.
- LbTree.LBTree.Lookup: the record pointer is read by the caller after the search (lbtree-src/lbtree.h:252-255).
- CheckMeaning.AcceptedIs: the alignment tests are part of it; that the pools hand out aligned nodes is a premise of `Check`.
- Leaf memory is a map of values in a field of the tree, not separate objects; node memory and the memory that transactions write are separate.
- One pool stands for the per-thread pools; the concurrent model lets a new node be any unused address.
- SIMD, prefetch and RTM instructions; `clwb` of a line is modelled, its cost is not.
- The growth of the redo value buffer by `realloc` (common/nvm-common.h:821-831), which can move values that redo records point to.
- Log recovery (common/nvm-common.h:451-484), which is a comment; chunk and ongoing tags, which nothing writes.
- Fill factors as fractions, key input, command line, timing, files, `randomize` and the tree's `print`.
